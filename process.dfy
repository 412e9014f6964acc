/**
 * `process_projectfile`: the four declared steps of project-file processing,
 * the initial registry, the executor run, and the choice of where the
 * feedback document goes.
 */
module Process {
  import opened Common
  import Layers
  import ProjectFile
  import opened Pipeline
  import Executor
  import RunProperties

  /** What a foreign call does: completes with a value, raises a domain error, or fails otherwise. */
  datatype Call<T> = Completes(value: T) | Raises(kind: ProjectFile.ErrorKind) | Fails(reason: string)

  /**
   * The collaborators the steps rely on, given as functions: the file
   * system facts, the QGIS project loader and its layers, the thumbnail
   * renderer, and the rendering of a domain error into its message and
   * traceback.
   */
  datatype Environment = Environment(
    fileExists: string -> bool,
    suffix: string -> string,
    xmlError: string -> Option<string>,
    loadProject: string -> Call<nat>,
    mapLayers: nat -> seq<Layers.Layer>,
    renderThumbnail: (nat, string) -> Call<()>,
    describe: ProjectFile.ErrorKind -> string,
    traceback: ProjectFile.ErrorKind -> seq<string>)

  function RaiseKind(env: Environment, kind: ProjectFile.ErrorKind): Outcome
  {
    Raised(DomainError(env.describe(kind), env.traceback(kind)))
  }

  /** The method of step "Project Validity Check". */
  function ValidityCheckStep(env: Environment, args: seq<Value>): Outcome
  {
    if |args| == 1 && args[0].Path? then
      var p := args[0].path;
      match ProjectFile.CheckValidProjectFile(p, env.fileExists(p), env.suffix(p), env.xmlError(p))
      case Accepted => Returned(Nil)
      case Rejected(kind) => RaiseKind(env, kind)
    else Crashed("unexpected arguments")
  }

  /** The method of step "Opening Check": loads the project. */
  function OpeningStep(env: Environment, args: seq<Value>): Outcome
  {
    if |args| == 1 && args[0].Path? then
      match env.loadProject(args[0].path)
      case Completes(h) => Returned(Handle(h))
      case Raises(kind) => RaiseKind(env, kind)
      case Fails(reason) => Crashed(reason)
    else Crashed("unexpected arguments")
  }

  /** The layers summary as a list value. */
  function SummaryValue(rows: seq<Layers.LayerRow>): Value
  {
    Items(seq(|rows|, i requires 0 <= i < |rows| => Row(rows[i])))
  }

  /** The method of step "Layer Validity Check". */
  function LayerValidityStep(env: Environment, args: seq<Value>): Outcome
  {
    if |args| == 1 && args[0].Handle? then
      match Layers.LayerCheck(env.mapLayers(args[0].id))
      case Ok(rows) => Returned(SummaryValue(rows))
      case Err(rows) => RaiseKind(env, ProjectFile.InvalidLayers(rows))
    else Crashed("unexpected arguments")
  }

  /**
   * Whether some layer has no data provider. As written, building that
   * layer's entry reads the datasource through the missing provider.
   */
  predicate LacksProvider(layers: seq<Layers.Layer>)
  {
    exists i :: 0 <= i < |layers| && Layers.InitialRowAsWritten(layers[i]).None?
  }

  /**
   * The method of step "Layer Validity Check" as written: a layer without a
   * data provider raises AttributeError, which is outside the domain error
   * family; otherwise it behaves as LayerValidityStep.
   */
  function LayerValidityStepAsWritten(env: Environment, args: seq<Value>): Outcome
  {
    if |args| == 1 && args[0].Handle? && LacksProvider(env.mapLayers(args[0].id)) then Crashed("AttributeError")
    else LayerValidityStep(env, args)
  }

  /** The method of step "Generate Thumbnail Image". */
  function ThumbnailStep(env: Environment, args: seq<Value>): Outcome
  {
    if |args| == 2 && args[0].Handle? && args[1].Path? then
      match env.renderThumbnail(args[0].id, args[1].path)
      case Completes(_) => Returned(Nil)
      case Raises(kind) => RaiseKind(env, kind)
      case Fails(reason) => Crashed(reason)
    else Crashed("unexpected arguments")
  }

  /** The four steps, in order, with their argument, return, output and public names. */
  function ProjectSteps(env: Environment): seq<StepDecl>
  {
    [ StepDecl("Project Validity Check", ["project_filename"],
               args => ValidityCheckStep(env, args), [], [], []),
      StepDecl("Opening Check", ["project_filename"],
               args => OpeningStep(env, args), ["project"], [], ["project"]),
      StepDecl("Layer Validity Check", ["project"],
               args => LayerValidityStep(env, args), ["layers_summary"], ["layers_summary"], []),
      StepDecl("Generate Thumbnail Image", ["project", "thumbnail_filename"],
               args => ThumbnailStep(env, args), [], [], []) ]
  }

  /** The four steps with the layer check as written. */
  function ProjectStepsAsWritten(env: Environment): seq<StepDecl>
  {
    ProjectSteps(env)[2 := StepDecl("Layer Validity Check", ["project"],
      args => LayerValidityStepAsWritten(env, args), ["layers_summary"], ["layers_summary"], [])]
  }

  /** The registry before the first step: exactly the two file names. */
  function InitialArguments(projectFilename: string, thumbnailFilename: string): (registry: Registry)
    ensures registry.Keys == {"project_filename", "thumbnail_filename"}
    ensures registry["project_filename"] == Path(projectFilename)
    ensures registry["thumbnail_filename"] == Path(thumbnailFilename)
  {
    map["project_filename" := Path(projectFilename), "thumbnail_filename" := Path(thumbnailFilename)]
  }

  /** Where the feedback document goes: to the given file, or printed after a "Feedback:" line. */
  datatype Emission = WrittenTo(path: string, document: Feedback) | Printed(header: string, document: Feedback)

  /** The run of the four steps on fresh step objects. */
  function ProjectRun(env: Environment, projectFilename: string, thumbnailFilename: string): Run
  {
    RunAll(StepEffect, ProjectSteps(env), Fresh(4), InitialArguments(projectFilename, thumbnailFilename))
  }

  /**
   * Declares the four steps, runs them, and emits the feedback exactly once,
   * whether the run completed, stopped at a domain error, or stopped at a
   * fault that then escapes.
   */
  method ProcessProjectfile(projectFilename: string, thumbnailFilename: string,
                            feedbackFilename: Option<string>, env: Environment)
    returns (emission: Emission, escaped: Option<Fault>)
    ensures var r := ProjectRun(env, projectFilename, thumbnailFilename);
      && emission.document == FeedbackOf(ProjectSteps(env), r)
      && (emission.WrittenTo? <==> feedbackFilename.Some?)
      && (emission.WrittenTo? ==> emission.path == feedbackFilename.value)
      && (emission.Printed? ==> emission.header == "Feedback:")
      && escaped == if r.stop.Halted? then Some(r.stop.fault) else None
  {
    var argValues := InitialArguments(projectFilename, thumbnailFilename);
    var decls := ProjectSteps(env);
    var s0 := new Executor.Step(decls[0]);
    var s1 := new Executor.Step(decls[1]);
    var s2 := new Executor.Step(decls[2]);
    var s3 := new Executor.Step(decls[3]);
    var steps := [s0, s1, s2, s3];
    assert Executor.Decls(steps) == decls;
    assert Executor.ProgressOf(steps) == Fresh(4);
    var feedback;
    feedback, escaped := Executor.Execute(steps, argValues);
    if feedbackFilename.Some? {
      emission := WrittenTo(feedbackFilename.value, feedback);
    } else {
      emission := Printed("Feedback:", feedback);
    }
  }

  /**
   * The declared pipeline is well formed: "project" is published by the
   * opening step before the two steps that need it, and the registry starts
   * with the two file names.
   */
  lemma ProjectStepsWellFormed(env: Environment, projectFilename: string, thumbnailFilename: string)
    ensures RunProperties.WellFormed(ProjectSteps(env), InitialArguments(projectFilename, thumbnailFilename).Keys)
  {
    var decls := ProjectSteps(env);
    var names := InitialArguments(projectFilename, thumbnailFilename).Keys;
    assert RunProperties.Available(decls, names, 0) == names;
    assert RunProperties.Available(decls, names, 1) == names;
    assert NameSet(decls[1].publicReturns) == {"project"};
    assert RunProperties.Available(decls, names, 2) == names + {"project"};
    assert RunProperties.Available(decls, names, 3) == names + {"project"};
  }

  /**
   * Processing a project file never faults in the executor itself: a run
   * that does not complete either caught a domain error or stopped because a
   * step method raised something outside that family.
   */
  lemma ProjectRunFaultsOnlyInCollaborators(env: Environment, projectFilename: string, thumbnailFilename: string)
    ensures var r := ProjectRun(env, projectFilename, thumbnailFilename);
      r.stop.Halted? ==> r.stop.fault.Foreign?
  {
    ProjectStepsWellFormed(env, projectFilename, thumbnailFilename);
    RunProperties.WellFormedRunsOnlyForeignFaults(
      ProjectSteps(env), Fresh(4), InitialArguments(projectFilename, thumbnailFilename), 4);
  }

  /** The first two steps receive the project file name from the initial registry. */
  lemma ResolvesFileNames(env: Environment, projectFilename: string, thumbnailFilename: string)
    ensures Resolve(InitialArguments(projectFilename, thumbnailFilename), ProjectSteps(env)[0].argNames)
         == Ok([Path(projectFilename)])
    ensures Resolve(InitialArguments(projectFilename, thumbnailFilename), ProjectSteps(env)[1].argNames)
         == Ok([Path(projectFilename)])
  {
    var initial := InitialArguments(projectFilename, thumbnailFilename);
    var r := Resolve(initial, ["project_filename"]);
    assert "project_filename" in initial;
    assert r.Ok? && |r.value| == 1 && r.value[0] == Path(projectFilename);
    assert r.value == [Path(projectFilename)];
    assert ProjectSteps(env)[0].argNames == ["project_filename"];
    assert ProjectSteps(env)[1].argNames == ["project_filename"];
  }

  /** The last two steps receive the loaded project (and the thumbnail file name). */
  lemma ResolvesProject(env: Environment, registry: Registry, project: nat, thumbnailFilename: string)
    requires "project" in registry && registry["project"] == Handle(project)
    requires "thumbnail_filename" in registry && registry["thumbnail_filename"] == Path(thumbnailFilename)
    ensures Resolve(registry, ProjectSteps(env)[2].argNames) == Ok([Handle(project)])
    ensures Resolve(registry, ProjectSteps(env)[3].argNames) == Ok([Handle(project), Path(thumbnailFilename)])
  {
    var r2 := Resolve(registry, ["project"]);
    assert r2.Ok? && |r2.value| == 1 && r2.value[0] == Handle(project);
    assert r2.value == [Handle(project)];
    assert ProjectSteps(env)[2].argNames == ["project"];
    var r3 := Resolve(registry, ["project", "thumbnail_filename"]);
    assert r3.Ok? && |r3.value| == 2 && r3.value[0] == Handle(project) && r3.value[1] == Path(thumbnailFilename);
    assert r3.value == [Handle(project), Path(thumbnailFilename)];
    assert ProjectSteps(env)[3].argNames == ["project", "thumbnail_filename"];
  }

  /**
   * A project file that fails the validity check stops the run at the first
   * step: the feedback carries that error, the first step is left Started
   * and the other three never start.
   */
  lemma InvalidFileStopsAtFirstStep(env: Environment, projectFilename: string, thumbnailFilename: string, kind: ProjectFile.ErrorKind)
    requires ProjectFile.CheckValidProjectFile(projectFilename, env.fileExists(projectFilename),
               env.suffix(projectFilename), env.xmlError(projectFilename)) == ProjectFile.Rejected(kind)
    ensures var fb := FeedbackOf(ProjectSteps(env), ProjectRun(env, projectFilename, thumbnailFilename));
      && fb.failure == Some(ErrorReport(env.describe(kind), env.traceback(kind)))
      && |fb.steps| == 4
      && fb.steps[0].stage == Started
      && fb.steps[1].stage == NotStarted && fb.steps[2].stage == NotStarted && fb.steps[3].stage == NotStarted
  {
    var decls := ProjectSteps(env);
    var initial := InitialArguments(projectFilename, thumbnailFilename);
    var first := RunPrefix(StepEffect, decls, Fresh(4), initial, 1);
    ResolvesFileNames(env, projectFilename, thumbnailFilename);
    var error := DomainError(env.describe(kind), env.traceback(kind));
    assert decls[0].callable([Path(projectFilename)]) == RaiseKind(env, kind);
    assert StepEffect(decls[0], Fresh(4)[0].outputs, initial) == Failed(map[], error);
    var zero := RunPrefix(StepEffect, decls, Fresh(4), initial, 0);
    assert first == Enter(StepEffect, zero, decls[0], 0);
    assert first.stop == Aborted(0, DomainError(env.describe(kind), env.traceback(kind)));
    RunProperties.StoppedEarlyIsWholeRun(StepEffect, decls, Fresh(4), initial, 0);
    RunProperties.FeedbackOfFreshRun(StepEffect, decls, initial);
  }

  /** The effect of each of the four steps when its collaborators succeed. */
  lemma StepsSucceed(env: Environment, projectFilename: string, thumbnailFilename: string, project: nat)
    requires ProjectFile.CheckValidProjectFile(projectFilename, env.fileExists(projectFilename),
               env.suffix(projectFilename), env.xmlError(projectFilename)) == ProjectFile.Accepted
    requires env.loadProject(projectFilename) == Completes(project)
    requires Layers.LayerCheck(env.mapLayers(project)).Ok?
    requires env.renderThumbnail(project, thumbnailFilename).Completes?
    ensures var decls := ProjectSteps(env);
      var initial := InitialArguments(projectFilename, thumbnailFilename);
      var withProject := initial["project" := Handle(project)];
      && StepEffect(decls[0], map[], initial) == Done(map[], initial)
      && StepEffect(decls[1], map[], initial) == Done(map[], withProject)
      && StepEffect(decls[2], map[], withProject)
           == Done(map["layers_summary" := SummaryValue(Layers.Summary(env.mapLayers(project)))], withProject)
      && StepEffect(decls[3], map[], withProject) == Done(map[], withProject)
  {
    var decls := ProjectSteps(env);
    var initial := InitialArguments(projectFilename, thumbnailFilename);
    var withProject := initial["project" := Handle(project)];
    var summary := SummaryValue(Layers.Summary(env.mapLayers(project)));
    ResolvesFileNames(env, projectFilename, thumbnailFilename);
    ResolvesProject(env, withProject, project, thumbnailFilename);
    assert decls[0].callable([Path(projectFilename)]) == Returned(Nil);
    assert decls[1].callable([Path(projectFilename)]) == Returned(Handle(project));
    assert decls[2].callable([Handle(project)]) == Returned(summary);
    assert decls[3].callable([Handle(project), Path(thumbnailFilename)]) == Returned(Nil);
    assert StepReturnMap(decls[1].returnNames, Handle(project)) == Some(map["project" := Handle(project)]);
    assert StepReturnMap(decls[2].returnNames, summary) == Some(map["layers_summary" := summary]);
  }

  /** The outputs the four steps record on a successful run. */
  function SuccessOutputs(env: Environment, project: nat): seq<map<string, Value>>
  {
    [map[], map[], map["layers_summary" := SummaryValue(Layers.Summary(env.mapLayers(project)))], map[]]
  }

  /** The registry before each step of a successful run, and after the last. */
  function SuccessRegistries(projectFilename: string, thumbnailFilename: string, project: nat): seq<Registry>
  {
    var initial := InitialArguments(projectFilename, thumbnailFilename);
    var withProject := initial["project" := Handle(project)];
    [initial, initial, withProject, withProject, withProject]
  }

  /**
   * The shape of a successful run, for any step semantics: the first step
   * keeps the registry, the second adds to it, the third records outputs,
   * the fourth keeps it, as an indexed family of completing steps.
   */
  lemma FourStepsIndexed(effect: Semantics, decls: seq<StepDecl>, initial: Registry, registry: Registry, outputs: map<string, Value>)
    requires |decls| == 4
    requires effect(decls[0], map[], initial) == Done(map[], initial)
    requires effect(decls[1], map[], initial) == Done(map[], registry)
    requires effect(decls[2], map[], registry) == Done(outputs, registry)
    requires effect(decls[3], map[], registry) == Done(map[], registry)
    ensures var outs: seq<map<string, Value>> := [map[], map[], outputs, map[]];
      var regs := [initial, initial, registry, registry, registry];
      forall j :: 0 <= j < 4 ==> effect(decls[j], Fresh(4)[j].outputs, regs[j]) == Done(outs[j], regs[j + 1])
  {
    var outs: seq<map<string, Value>> := [map[], map[], outputs, map[]];
    var regs := [initial, initial, registry, registry, registry];
    forall j | 0 <= j < 4
      ensures effect(decls[j], Fresh(4)[j].outputs, regs[j]) == Done(outs[j], regs[j + 1])
    {
      assert Fresh(4)[j].outputs == map[];
      if j == 0 {
      } else if j == 1 {
      } else if j == 2 {
      } else {
        assert j == 3;
      }
    }
  }

  /** StepsSucceed, step by step along the successful run. */
  lemma StepsComplete(env: Environment, projectFilename: string, thumbnailFilename: string, project: nat)
    requires ProjectFile.CheckValidProjectFile(projectFilename, env.fileExists(projectFilename),
               env.suffix(projectFilename), env.xmlError(projectFilename)) == ProjectFile.Accepted
    requires env.loadProject(projectFilename) == Completes(project)
    requires Layers.LayerCheck(env.mapLayers(project)).Ok?
    requires env.renderThumbnail(project, thumbnailFilename).Completes?
    ensures var outs := SuccessOutputs(env, project);
      var regs := SuccessRegistries(projectFilename, thumbnailFilename, project);
      forall j :: 0 <= j < 4 ==>
        StepEffect(ProjectSteps(env)[j], Fresh(4)[j].outputs, regs[j]) == Done(outs[j], regs[j + 1])
  {
    StepsSucceed(env, projectFilename, thumbnailFilename, project);
    var initial := InitialArguments(projectFilename, thumbnailFilename);
    FourStepsIndexed(StepEffect, ProjectSteps(env), initial, initial["project" := Handle(project)],
      map["layers_summary" := SummaryValue(Layers.Summary(env.mapLayers(project)))]);
  }

  /**
   * When the file is valid, the project loads, every layer is valid and the
   * thumbnail is rendered, all four steps succeed, the feedback has no
   * error, and the layer step reports the layers summary as its output.
   */
  lemma SuccessfulRunReportsLayersSummary(env: Environment, projectFilename: string, thumbnailFilename: string, project: nat)
    requires ProjectFile.CheckValidProjectFile(projectFilename, env.fileExists(projectFilename),
               env.suffix(projectFilename), env.xmlError(projectFilename)) == ProjectFile.Accepted
    requires env.loadProject(projectFilename) == Completes(project)
    requires Layers.LayerCheck(env.mapLayers(project)).Ok?
    requires env.renderThumbnail(project, thumbnailFilename).Completes?
    ensures var fb := FeedbackOf(ProjectSteps(env), ProjectRun(env, projectFilename, thumbnailFilename));
      && fb.failure == None
      && |fb.steps| == 4
      && (forall j :: 0 <= j < 4 ==> fb.steps[j].stage == Succeeded)
      && fb.steps[2].outputs == map["layers_summary" := SummaryValue(Layers.Summary(env.mapLayers(project)))]
  {
    var decls := ProjectSteps(env);
    var initial := InitialArguments(projectFilename, thumbnailFilename);
    StepsComplete(env, projectFilename, thumbnailFilename, project);
    RunProperties.AllStepsComplete(StepEffect, decls, Fresh(4), initial,
      SuccessOutputs(env, project), SuccessRegistries(projectFilename, thumbnailFilename, project));
    RunProperties.FeedbackOfFreshRun(StepEffect, decls, initial);
  }

  /** The first two steps complete when the file is valid and the project loads. */
  lemma OpeningStepsDone(env: Environment, projectFilename: string, thumbnailFilename: string, project: nat)
    requires ProjectFile.CheckValidProjectFile(projectFilename, env.fileExists(projectFilename),
               env.suffix(projectFilename), env.xmlError(projectFilename)) == ProjectFile.Accepted
    requires env.loadProject(projectFilename) == Completes(project)
    ensures var initial := InitialArguments(projectFilename, thumbnailFilename);
      && StepEffect(ProjectSteps(env)[0], map[], initial) == Done(map[], initial)
      && StepEffect(ProjectSteps(env)[1], map[], initial) == Done(map[], initial["project" := Handle(project)])
  {
    var decls := ProjectSteps(env);
    ResolvesFileNames(env, projectFilename, thumbnailFilename);
    assert decls[0].callable([Path(projectFilename)]) == Returned(Nil);
    assert decls[1].callable([Path(projectFilename)]) == Returned(Handle(project));
    assert StepReturnMap(decls[1].returnNames, Handle(project)) == Some(map["project" := Handle(project)]);
  }

  /** Two completing steps from fresh progress, for any step semantics. */
  lemma TwoStepsComplete(effect: Semantics, decls: seq<StepDecl>, initial: Registry, registry: Registry)
    requires |decls| == 4
    requires effect(decls[0], map[], initial) == Done(map[], initial)
    requires effect(decls[1], map[], initial) == Done(map[], registry)
    ensures RunPrefix(effect, decls, Fresh(4), initial, 2)
         == Run([Progress(Succeeded, map[]), Progress(Succeeded, map[]), Progress(NotStarted, map[]), Progress(NotStarted, map[])],
                registry, Completed)
  {
    RunPrefixEnters(effect, decls, Fresh(4), initial, 0);
    RunPrefixEnters(effect, decls, Fresh(4), initial, 1);
  }

  /** After the first two steps of a valid file whose project loads, both succeeded and "project" is registered. */
  lemma OpeningStepsComplete(env: Environment, projectFilename: string, thumbnailFilename: string, project: nat)
    requires ProjectFile.CheckValidProjectFile(projectFilename, env.fileExists(projectFilename),
               env.suffix(projectFilename), env.xmlError(projectFilename)) == ProjectFile.Accepted
    requires env.loadProject(projectFilename) == Completes(project)
    ensures var initial := InitialArguments(projectFilename, thumbnailFilename);
      var afterOpening := Run([Progress(Succeeded, map[]), Progress(Succeeded, map[]), Progress(NotStarted, map[]), Progress(NotStarted, map[])],
                        initial["project" := Handle(project)], Completed);
      && RunPrefix(StepEffect, ProjectSteps(env), Fresh(4), initial, 2) == afterOpening
      && RunPrefix(StepEffect, ProjectStepsAsWritten(env), Fresh(4), initial, 2) == afterOpening
  {
    var decls := ProjectSteps(env);
    var asWritten := ProjectStepsAsWritten(env);
    var initial := InitialArguments(projectFilename, thumbnailFilename);
    var withProject := initial["project" := Handle(project)];
    OpeningStepsDone(env, projectFilename, thumbnailFilename, project);
    assert asWritten[0] == decls[0] && asWritten[1] == decls[1];
    TwoStepsComplete(StepEffect, decls, initial, withProject);
    TwoStepsComplete(StepEffect, asWritten, initial, withProject);
  }

  /** The layer step's effect once the project is open: as written it faults, corrected it never does. */
  lemma LayerStepEffects(env: Environment, projectFilename: string, thumbnailFilename: string, project: nat)
    ensures var withProject := InitialArguments(projectFilename, thumbnailFilename)["project" := Handle(project)];
      && (LacksProvider(env.mapLayers(project)) ==>
            StepEffect(ProjectStepsAsWritten(env)[2], map[], withProject) == Faulted(map[], Foreign("AttributeError")))
      && !StepEffect(ProjectSteps(env)[2], map[], withProject).Faulted?
  {
    var withProject := InitialArguments(projectFilename, thumbnailFilename)["project" := Handle(project)];
    var decls := ProjectSteps(env);
    ResolvesProject(env, withProject, project, thumbnailFilename);
    assert Arguments(decls[2], withProject) == Some([Handle(project)]);
    assert Arguments(ProjectStepsAsWritten(env)[2], withProject) == Some([Handle(project)]);
    var outcome := decls[2].callable([Handle(project)]);
    assert outcome.Returned? || outcome.Raised?;
    if outcome.Returned? {
      assert StepReturnMap(decls[2].returnNames, outcome.value) == Some(map["layers_summary" := outcome.value]);
    }
  }

  /**
   * As written, a project with a layer that has no data provider halts the
   * run at the layer check: the AttributeError escapes, the feedback has no
   * error, the first two steps succeeded, the layer step is left Started and
   * the thumbnail step never starts.
   */
  lemma LayerWithoutProviderHaltsAsWritten(env: Environment, projectFilename: string, thumbnailFilename: string,
                                           project: nat, i: nat)
    requires ProjectFile.CheckValidProjectFile(projectFilename, env.fileExists(projectFilename),
               env.suffix(projectFilename), env.xmlError(projectFilename)) == ProjectFile.Accepted
    requires env.loadProject(projectFilename) == Completes(project)
    requires i < |env.mapLayers(project)| && env.mapLayers(project)[i].provider.None?
    ensures var initial := InitialArguments(projectFilename, thumbnailFilename);
      var r := RunAll(StepEffect, ProjectStepsAsWritten(env), Fresh(4), initial);
      var fb := FeedbackOf(ProjectStepsAsWritten(env), r);
      && r.stop == Halted(2, Foreign("AttributeError"))
      && fb.failure == None
      && |fb.steps| == 4
      && fb.steps[0].stage == Succeeded && fb.steps[1].stage == Succeeded
      && fb.steps[2].stage == Started && fb.steps[3].stage == NotStarted
  {
    var initial := InitialArguments(projectFilename, thumbnailFilename);
    OpeningStepsComplete(env, projectFilename, thumbnailFilename, project);
    assert Layers.InitialRowAsWritten(env.mapLayers(project)[i]).None?;
    LayerStepEffects(env, projectFilename, thumbnailFilename, project);
    ThirdStepHalts(StepEffect, ProjectStepsAsWritten(env), initial, initial["project" := Handle(project)], Foreign("AttributeError"));
  }

  /** Two completing steps followed by a faulting third one halt the run there, for any step semantics. */
  lemma ThirdStepHalts(effect: Semantics, decls: seq<StepDecl>, initial: Registry, registry: Registry, fault: Fault)
    requires |decls| == 4
    requires RunPrefix(effect, decls, Fresh(4), initial, 2)
          == Run([Progress(Succeeded, map[]), Progress(Succeeded, map[]), Progress(NotStarted, map[]), Progress(NotStarted, map[])],
                 registry, Completed)
    requires effect(decls[2], map[], registry) == Faulted(map[], fault)
    ensures RunAll(effect, decls, Fresh(4), initial)
         == Run([Progress(Succeeded, map[]), Progress(Succeeded, map[]), Progress(Started, map[]), Progress(NotStarted, map[])],
                registry, Halted(2, fault))
  {
    RunPrefixEnters(effect, decls, Fresh(4), initial, 2);
    RunProperties.StoppedEarlyIsWholeRun(effect, decls, Fresh(4), initial, 2);
  }

  /** With the corrected layer check, a run whose project opened never halts at the layer step. */
  lemma CorrectedLayerStepNeverHalts(env: Environment, projectFilename: string, thumbnailFilename: string, project: nat)
    requires ProjectFile.CheckValidProjectFile(projectFilename, env.fileExists(projectFilename),
               env.suffix(projectFilename), env.xmlError(projectFilename)) == ProjectFile.Accepted
    requires env.loadProject(projectFilename) == Completes(project)
    ensures var r := ProjectRun(env, projectFilename, thumbnailFilename);
      r.stop.Halted? ==> r.stop.at != 2
  {
    var initial := InitialArguments(projectFilename, thumbnailFilename);
    var r := ProjectRun(env, projectFilename, thumbnailFilename);
    if r.stop.Halted? && r.stop.at == 2 {
      OpeningStepsComplete(env, projectFilename, thumbnailFilename, project);
      LayerStepEffects(env, projectFilename, thumbnailFilename, project);
      RunProperties.StopIsStepOutcome(StepEffect, ProjectSteps(env), Fresh(4), initial);
      assert false;
    }
  }
}
