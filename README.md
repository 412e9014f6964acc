# QFieldCloud project-file processing, modelled in Dafny

This project models `process_projectfile` of the QFieldCloud QGIS worker
(`docker-qgis/process_projectfile.py`). It covers:

- the **step pipeline executor**. Four named steps run in order over a shared
  registry of argument values, which starts with `project_filename` and
  `thumbnail_filename`. Each step:
  - resolves its argument names in the registry;
  - calls its method;
  - pairs the return values with its return names;
  - records its output names in its own `outputs`;
  - publishes its public returns into the registry for later steps.

  The first domain error stops the run. The feedback document always lists
  every step with its stage and outputs. It carries `error` and `error_stack`
  only when a domain error stopped the run. The document is written to the
  feedback file when one is given, and printed after a `Feedback:` header
  otherwise.
- **`check_valid_project_file`**. It decides whether a project file is
  acceptable: the file must exist and be a `.qgz`, or a `.qgs` whose contents
  parse as XML. Otherwise it gives one of three domain errors.
- **`check_layer_validity`**. It builds one summary entry per map layer, fills
  in the provider error fields of each invalid layer, and raises
  `InvalidLayersException` carrying the whole summary when any layer is
  invalid.

Modules:

- `Common`: option and result types.
- `Layers`: layer entries and the layer check, as functions, plus the
  imperative `CheckLayerValidity` loop.
- `ProjectFile`: the error kinds and the project-file decision.
- `Pipeline`: values, step declarations, and the meaning of entering one
  step (`StepEffect`) and of running a prefix of the steps (`RunPrefix`), as
  functions. The run functions take the per-step semantics as a parameter.
  The control flow of the loop (stop at the first error, stage bookkeeping)
  is therefore stated for any step semantics. The executor and the concrete
  pipeline use `StepEffect`.
- `RunProperties`: lemmas about runs, such as short-circuiting, stages,
  feedback and propagation of public returns.
- `Executor`: the `Step` objects, which the run updates in place, and the
  imperative executor loop. That loop is proved equal to the run functions.
- `Process`: the four concrete steps, the initial registry, the output sink,
  and whole-run scenarios.

Domain errors are the exceptions deriving from the `BaseException` class of
the worker's utility module, which the `except` clause at line 265 names. Any
other exception escapes `process_projectfile` after the `finally` block has
emitted the feedback. Examples are a `KeyError` for a missing registry or
return name, or a `TypeError` when several return names meet a result that
cannot be iterated. The model reports such an escape as a `Fault` and does
not turn it into a precondition. `Process.ProjectRunFaultsOnlyInCollaborators`
proves that the declared four-step pipeline never escapes through the executor
itself: any escape comes from inside a step method.

## Model

| member | source | states |
|---|---|---|
| Layers.InitialRow | docker-qgis/process_projectfile.py:100-110 | the first entry of a layer: id and name are the layer name, and validity is copied. The datasource is the provider's uri, or absent without a provider (corrected definition, see Findings). The error summary is the layer error's summary when its message list is non-empty and "" otherwise. The error message and the file name are the layer's. Both provider fields are empty |
| Layers.InitialRowAsWritten | docker-qgis/process_projectfile.py:100-110 | as written, building the entry succeeds exactly when the layer has a data provider, and the entry then equals the corrected one |
| Layers.ProviderErrorSummary | docker-qgis/process_projectfile.py:113-148 | a valid layer has no provider summary. An invalid layer always gets one: "No data provider available" without a provider; otherwise the provider's own summary, else the host message when the host is set and reachable, else the service message when the service is set, else "" |
| Layers.ProviderErrorMessage | docker-qgis/process_projectfile.py:119-127 | the provider error message is set exactly for invalid layers that have a provider, and it is that provider's error message |
| Layers.CheckLayerValidity | docker-qgis/process_projectfile.py:92-153 | the loop builds one entry per layer, in order, each equal to that layer's final entry. It raises InvalidLayers with the whole summary exactly when some layer is invalid, and returns the summary otherwise. The specification functions it is proved against are Layers.LayerCheck and Layers.Summary, built on the corrected Layers.InitialRow |
| Layers.NoProviderBranchUnreachableAsWritten | docker-qgis/process_projectfile.py:104-148 | for an invalid layer without a provider, the as-written entry construction fails, although the intended summary for that layer is "No data provider available" |
| ProjectFile.CheckValidProjectFile | docker-qgis/process_projectfile.py:58-75 | a missing file is rejected first as not found. A file is accepted exactly when it exists and is a .qgz, or a .qgs that parses. A .qgs that does not parse gives InvalidXmlFile with the parse error. Any other suffix gives InvalidFileExtension with that suffix |
| ProjectFile.QgzIgnoresContents | docker-qgis/process_projectfile.py:64-75 | an existing .qgz file is accepted whatever its contents' XML status |
| Pipeline.Resolve | docker-qgis/process_projectfile.py:249 | argument resolution succeeds exactly when every name is in the registry, with the values in argument order. Otherwise it fails naming a missing argument |
| Pipeline.ReturnValues | docker-qgis/process_projectfile.py:251-253 | with at most one return name the result is wrapped as a single value. With several names, only an iterable result is unpacked into its items |
| Pipeline.ReturnMapPairsPositionally | docker-qgis/process_projectfile.py:255-257 | the return map's keys are exactly the names that zip pairs with a value, and each name maps to the value of its last pairing |
| Pipeline.StepReturnMap | docker-qgis/process_projectfile.py:251-257 | no return names give an empty map, and one name maps to the whole result. Several names give a map only for an iterable result, pairing names and items positionally with truncation |
| Pipeline.CopyNames | docker-qgis/process_projectfile.py:259-263 | copying named entries succeeds exactly when every name is in the source. The target gains exactly those keys with the source's values, other keys are unchanged, and a failure names a missing name |
| Pipeline.CopyStopsAtFirstMissing | docker-qgis/process_projectfile.py:259-263 | a copy that stops names the first name the return map lacks, and its target is the complete copy of the names before it: those earlier writes stay |
| Pipeline.StepEffect | docker-qgis/process_projectfile.py:247-263 | a missing argument escapes before the method is called. The step fails exactly when its method raises a domain error, carrying that error and the old outputs. Any other exception of the method escapes unchanged. A completed step's method returned, its return map exists, every output name and public return is written with the returned value (overwriting an earlier one), the outputs and registry gain exactly those names, and every other key is unchanged. Conversely, a step whose arguments resolve, whose method returns, and whose return map holds every output and public name completes. Several return names meeting a result that cannot be unpacked escape as NotIterable, exactly then |
| Pipeline.Enter | docker-qgis/process_projectfile.py:246-268 | entering step i records the outputs the step left. The run goes on exactly when the step completed, with the registry the step left, and the step is Succeeded. A domain error aborts the run at i with exactly that error, and any other exception halts it at i with exactly that fault. In both cases the step stays Started and the registry is kept |
| Pipeline.EnterKeepsOtherSteps | docker-qgis/process_projectfile.py:246-263 | entering step i changes no other step's stage or outputs |
| Pipeline.RunPrefix | docker-qgis/process_projectfile.py:246-268 | after entering n steps, the run has one progress entry per step, and a stopped run stopped at a step already entered |
| Pipeline.RunPrefixEnters | docker-qgis/process_projectfile.py:246-263 | when the run after n steps has not stopped, the run after n + 1 steps is that run with step n entered |
| RunProperties.StoppedRunIsFinal | docker-qgis/process_projectfile.py:246-268 | once a run has stopped, entering further steps changes nothing |
| RunProperties.PrefixDependsOnEnteredSteps | docker-qgis/process_projectfile.py:246-263 | the state after m steps depends only on the first m step declarations |
| RunProperties.EnterCompletes | docker-qgis/process_projectfile.py:259-263 | when the run so far completed and step n-1 succeeds, that step becomes Succeeded with its new outputs and the registry becomes the step's new registry |
| RunProperties.CompletingPrefix | docker-qgis/process_projectfile.py:246-263 | when each of the first n steps, entered with the registry the previous step left, completes, then after n steps the run has not stopped, those steps are Succeeded with their recorded outputs, the rest keep their initial progress, and the registry is the one step n - 1 left |
| RunProperties.StopIsStepOutcome | docker-qgis/process_projectfile.py:246-268 | a run that stopped at step k found every earlier step completed. If it aborted, step k's effect is a failure with exactly the run's error. If it halted, step k's effect is a fault with exactly the run's fault |
| RunProperties.AllStepsComplete | docker-qgis/process_projectfile.py:246-263 | when every step completes in turn, the whole run ends without a stop, every step is Succeeded with its recorded outputs, and the registry is the one the last step left |
| RunProperties.StopPoint | docker-qgis/process_projectfile.py:246-268 | a run that stopped at k completed its first k steps, and its final state is the state right after entering step k |
| RunProperties.StoppedEarlyIsWholeRun | docker-qgis/process_projectfile.py:246-268 | a run stopped at k is the same whatever steps come after k |
| RunProperties.LaterStepsNeverRun | docker-qgis/process_projectfile.py:246-268 | after the first error, no later step runs: replacing every step after the stop point leaves the whole run unchanged |
| RunProperties.StagesAfterPrefix | docker-qgis/process_projectfile.py:246-268 | every step before the stop point is Succeeded, the stopping step is Started, and steps never entered keep their initial progress |
| RunProperties.FeedbackOfFreshRun | docker-qgis/process_projectfile.py:265-277 | the feedback lists every step by name, in order. The error and its stack are present exactly when a domain error stopped the run. There is no error and no escape exactly when all steps Succeeded. On a stop at k, earlier steps are Succeeded, step k Started, and later steps NotStarted with empty outputs. Pipeline.FeedbackOf is the feedback document this lemma is about |
| RunProperties.StepEffectPublishesOnlyPublicReturns | docker-qgis/process_projectfile.py:259-263 | a completed step adds exactly its public return names to the registry and leaves every other entry unchanged |
| RunProperties.PublicReturnReachesLaterSteps | docker-qgis/process_projectfile.py:262-263 | for any step semantics that publishes only public returns (the executor's own does), a name published by step a is in the registry right after that step, and it keeps the same value through every later completed step that does not publish it again |
| RunProperties.ConsistentStepFaultsOnlyInMethod | docker-qgis/process_projectfile.py:249-263 | a step whose arguments are available, whose output and public names are among its return names, and which has at most one return name can escape only through its own method |
| RunProperties.WellFormedRunsOnlyForeignFaults | docker-qgis/process_projectfile.py:246-265 | in a well-formed pipeline, every name available to a step is in the registry, and any escape comes from a step method |
| Executor.Step.constructor | docker-qgis/process_projectfile.py:219-244 | a new step holds its declaration, is NotStarted and has no outputs |
| Executor.BuildReturnMap | docker-qgis/process_projectfile.py:255-257 | the loop builds exactly the positional return map |
| Executor.CopyNamed | docker-qgis/process_projectfile.py:259-263 | the copy loop stops at the first missing name and otherwise copies every named entry, as CopyNames states |
| Executor.Advance | docker-qgis/process_projectfile.py:246-263 | one iteration of the loop, on a run that has not stopped after i steps, leaves the step objects, the registry and the stop point as the run after i + 1 steps has them |
| Executor.RunSteps | docker-qgis/process_projectfile.py:246-264 | the loop leaves every step object as the whole run has it, and returns the point where the run stopped |
| Executor.EnterStep | docker-qgis/process_projectfile.py:247-263 | running one step object changes its outputs and stage exactly as Enter states |
| Executor.Execute | docker-qgis/process_projectfile.py:246-277 | running the steps leaves every step object as the whole run has it. It returns the feedback document of that run and the escaping fault, if any |
| Process.InitialArguments | docker-qgis/process_projectfile.py:214-218 | the registry starts with exactly project_filename and thumbnail_filename, bound to the given paths |
| Process.ProcessProjectfile | docker-qgis/process_projectfile.py:208-284 | the emitted document is the feedback of the run of the four declared steps. It is written to the feedback file exactly when one is given, and printed after "Feedback:" otherwise. A fault escapes exactly when the run halted |
| Process.ProjectStepsWellFormed | docker-qgis/process_projectfile.py:219-244 | each declared step's arguments are produced before it runs, its outputs and public returns are among its return names, and it has at most one return name. Process.ProjectSteps is the declaration of the four steps this lemma is about |
| Process.ProjectRunFaultsOnlyInCollaborators | docker-qgis/process_projectfile.py:219-265 | a run of the declared pipeline never escapes through the executor's own name lookups or unpacking. Any escape is a fault raised inside a step method (loading the project, rendering the thumbnail, or a method called with unexpected arguments; with the layer check as written, also that check, see Process.LayerWithoutProviderHaltsAsWritten) |
| Process.ResolvesFileNames | docker-qgis/process_projectfile.py:214-231 | the first two steps resolve project_filename to the given project path |
| Process.ResolvesProject | docker-qgis/process_projectfile.py:232-243 | once "project" is published, the last two steps resolve it, and the thumbnail step also gets thumbnail_filename |
| Process.InvalidFileStopsAtFirstStep | docker-qgis/process_projectfile.py:246-277 | when the file check rejects the project, the feedback reports that error, the first step is Started and the other three are NotStarted |
| Process.StepsSucceed | docker-qgis/process_projectfile.py:219-263 | when the file is valid, the project loads, every layer is valid and the thumbnail renders, each of the four steps completes with the stated outputs and registry |
| Process.StepsComplete | docker-qgis/process_projectfile.py:219-263 | on such a project, each step, entered with the registry the previous one left, completes with its recorded outputs: nothing for three steps, the layers summary for the layer step |
| Process.SuccessfulRunReportsLayersSummary | docker-qgis/process_projectfile.py:232-277 | on such a run, the feedback has no error, every step is Succeeded, and the layer step's outputs hold exactly the layers summary |
| Process.OpeningStepsComplete | docker-qgis/process_projectfile.py:219-263 | for a valid file whose project loads, after two steps both are Succeeded, the other two NotStarted, and the registry holds the loaded project. This holds with the layer check either corrected or as written |
| Process.LayerStepEffects | docker-qgis/process_projectfile.py:98-104 | once the project is open, the layer step as written escapes with an AttributeError when some layer lacks a provider. The corrected layer step never escapes |
| Process.LayerWithoutProviderHaltsAsWritten | docker-qgis/process_projectfile.py:246-277 | as written, a valid project file whose project loads and has a layer without a provider halts the run at the layer step with that AttributeError. The feedback has no error, the first two steps are Succeeded, the layer step is Started and the thumbnail step is NotStarted. Process.LayerValidityStepAsWritten (lines 98-104) is the as-written layer step, and Process.ProjectStepsAsWritten the pipeline declared with it |
| Process.CorrectedLayerStepNeverHalts | docker-qgis/process_projectfile.py:92-153 | with the corrected layer check, a run whose project opened never halts at the layer step |

## Left out

- `load_project_file` (lines 78-89) and `generate_thumbnail` reach QGIS. They are the
  `Environment.loadProject` and `Environment.renderThumbnail` functions, which return
  a value, raise a domain error or fail.
- File existence, the file suffix and the outcome of XML parsing are inputs of
  `ProjectFile.CheckValidProjectFile`. The model does not model reading the file or
  the `open` error.
- Process.ProcessProjectfile, Process.ProjectRun, Process.LayerValidityStep,
  Layers.CheckLayerValidity and Layers.LayerCheck use the corrected layer entry
  Layers.InitialRow (see Findings). As written, a layer without a data provider
  makes the layer step raise an AttributeError at line 104, whether the layer is
  valid or not. The run then halts at that step, and the feedback has no error.
  `Process.ProjectStepsAsWritten` declares the pipeline with the layer check as
  written, and `Process.LayerWithoutProviderHaltsAsWritten` states that run.
- The network probe `is_localhost(host, port) or has_ping(host)` is the
  `reachable` flag of a provider. A non-numeric port raises `ValueError` at line 138,
  and the model does not model that.
- `get_layer_filename` is not part of this model. Its result is the layer's
  `filename` field.
- The layer iteration order of `project.mapLayers().values()` is the order of the
  layer sequence returned by `Environment.mapLayers`.
- Exception messages (`str(err)` with the message templates at lines 30-55) and
  `traceback.format_tb` are the opaque `Environment.describe` and
  `Environment.traceback` functions.
- JSON serialisation, key sorting, indentation, writing the file and printing are
  left out. `Process.ProcessProjectfile` states only which sink receives which
  document.
- `logging` calls are left out.
- `Step` and `logger_context` live in `qfieldcloud.qgis.utils`, which is not part of
  this model. Their stage transitions are taken as:
  - a new step is NotStarted with empty outputs;
  - entering a step makes it Started;
  - completing its body makes it Succeeded;
  - an exception leaves it Started.
- Only `Items` values are iterable when several return names unpack a result. A
  string or dictionary result would be iterated by Python.
- When a step escapes part-way through copying its public returns, the registry
  writes it made before the `KeyError` are not modelled. No later step observes
  them.
- The script entry point under `if __name__ == "__main__":` is left out.
- `load_project_file` passes the QGIS error as `error` (lines 85-87), while the
  message template of `InvalidXmlFileException` at line 42 refers to `xml_error`.
  Rendering that message belongs to the opaque `Environment.describe`, so the model
  does not capture what happens when the template is filled in.
- The code does not check that a step's return names match the arity of its
  result. The model follows the code: `zip` truncates to the shorter side, and a
  name missing from the return map escapes as a fault when it is copied.

## Findings

| source | as written | input that shows it | evidently intended | confidence | as-written member | corrected member |
|---|---|---|---|---|---|---|
| docker-qgis/process_projectfile.py:104 | the datasource is read through `layer.dataProvider()` before line 119 tests whether a provider exists. For a layer without a provider, this raises an AttributeError, which is not a domain error and escapes the run | any layer whose `dataProvider()` is None, for example an invalid layer without a provider | such a layer gets an entry with no datasource, and an invalid one gets the provider summary "No data provider available" (line 148) | medium, not executed | Layers.InitialRowAsWritten, Layers.NoProviderBranchUnreachableAsWritten, Process.LayerWithoutProviderHaltsAsWritten | Layers.InitialRow, Layers.LayerCheck, Layers.CheckLayerValidity, Process.CorrectedLayerStepNeverHalts |
