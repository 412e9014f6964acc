/**
 * The executor: step objects whose stage and outputs are updated in place,
 * and the loop that runs them against a name-to-value registry, catches the
 * first domain error and always assembles the feedback.
 */
module Executor {
  import opened Common
  import opened Pipeline
  import RunProperties

  /** A declared step with its mutable stage and recorded outputs. */
  class Step {
    const decl: StepDecl
    var stage: Stage
    var outputs: map<string, Value>

    /** A new step has not started and has recorded no outputs. */
    constructor (decl: StepDecl)
      ensures this.decl == decl && stage == NotStarted && outputs == map[]
    {
      this.decl := decl;
      stage := NotStarted;
      outputs := map[];
    }
  }

  predicate Distinct(steps: seq<Step>)
  {
    forall i, j :: 0 <= i < j < |steps| ==> steps[i] != steps[j]
  }

  function Decls(steps: seq<Step>): seq<StepDecl>
  {
    seq(|steps|, j requires 0 <= j < |steps| => steps[j].decl)
  }

  function ProgressOf(steps: seq<Step>): seq<Progress>
    reads steps
  {
    seq(|steps|, j requires 0 <= j < |steps| reads steps => Progress(steps[j].stage, steps[j].outputs))
  }

  /** Pairs return names with return values, as the zip loop does. */
  method BuildReturnMap(names: seq<string>, values: seq<Value>) returns (returnMap: map<string, Value>)
    ensures returnMap == ReturnMap(names, values)
  {
    returnMap := map[];
    for i := 0 to Min(|names|, |values|)
      invariant returnMap == Zip(names, values, i)
    {
      returnMap := returnMap[names[i] := values[i]];
    }
  }

  /** Copies named entries one at a time, stopping at the first name the source lacks. */
  method CopyNamed(target: map<string, Value>, source: map<string, Value>, names: seq<string>) returns (c: Copy)
    ensures c == CopyNames(target, source, names)
  {
    var t := target;
    for i := 0 to |names|
      invariant CopyNames(target, source, names) == CopyNames(t, source, names[i..])
    {
      assert names[i..][1..] == names[i + 1..];
      if names[i] !in source {
        return Copy(t, Some(names[i]));
      }
      t := t[names[i] := source[names[i]]];
    }
    return Copy(t, None);
  }

  /**
   * Enters one step, as the body of the executor loop does under the step's
   * logging context: Started on entry, the arguments resolved from the
   * registry, the method called, the outputs recorded, and Succeeded once
   * the public returns are written back.
   */
  method EnterStep(step: Step, argValues: Registry) returns (effect: Effect)
    modifies step
    ensures effect == StepEffect(step.decl, old(step.outputs), argValues)
    ensures step.outputs == effect.outputs
    ensures step.stage == if effect.Done? then Succeeded else Started
  {
    step.stage := Started;
    var args := Resolve(argValues, step.decl.argNames);
    if args.Err? {
      return Faulted(step.outputs, MissingArgument(args.error));
    }
    match step.decl.callable(args.value) {
      case Raised(err) =>
        return Failed(step.outputs, err);
      case Crashed(reason) =>
        return Faulted(step.outputs, Foreign(reason));
      case Returned(result) =>
        var returnValues := ReturnValues(step.decl.returnNames, result);
        if returnValues.None? {
          return Faulted(step.outputs, NotIterable);
        }
        var returnMap := BuildReturnMap(step.decl.returnNames, returnValues.value);
        var o := CopyNamed(step.outputs, returnMap, step.decl.outputNames);
        step.outputs := o.target;
        if o.missing.Some? {
          return Faulted(step.outputs, MissingReturn(o.missing.value));
        }
        var p := CopyNamed(argValues, returnMap, step.decl.publicReturns);
        if p.missing.Some? {
          return Faulted(step.outputs, MissingReturn(p.missing.value));
        }
        step.stage := Succeeded;
        return Done(step.outputs, p.target);
    }
  }

  /**
   * One iteration of the executor loop: enters step i of a run that has not
   * stopped after its first i steps, leaving the step objects, the registry
   * and the stop point as the run after i + 1 steps has them.
   */
  method Advance(steps: seq<Step>, ghost start: seq<Progress>, ghost initial: Registry, ghost trace: seq<Run>,
                 i: nat, argValues: Registry)
      returns (registry: Registry, stop: Stop)
    requires Distinct(steps) && |start| == |steps| && i < |steps|
    requires RunProperties.IsTrace(StepEffect, Decls(steps), start, initial, trace)
    requires Run(ProgressOf(steps), argValues, Completed) == trace[i]
    modifies steps[i]
    ensures Run(ProgressOf(steps), registry, stop) == trace[i + 1]
  {
    ghost var before := RunPrefix(StepEffect, Decls(steps), start, initial, i);
    assert trace[i + 1] == RunPrefix(StepEffect, Decls(steps), start, initial, i + 1);
    RunPrefixEnters(StepEffect, Decls(steps), start, initial, i);
    var step := steps[i];
    ghost var decl := Decls(steps)[i];
    ghost var progressBefore := ProgressOf(steps);
    assert step.decl == decl && step.outputs == before.progress[i].outputs;
    var effect := EnterStep(step, argValues);
    registry := argValues;
    stop := Completed;
    match effect {
      case Done(_, r) => registry := r;
      case Failed(_, err) => stop := Aborted(i, err);
      case Faulted(_, fault) => stop := Halted(i, fault);
    }
    assert ProgressOf(steps) == progressBefore[i := Progress(step.stage, step.outputs)];
    EnteredState(StepEffect, before, decl, i, effect, registry, stop);
  }

  /** The run state after entering step i, given the effect the step had, for any step semantics. */
  lemma EnteredState(effect: Semantics, before: Run, d: StepDecl, i: nat, e: Effect, registry: Registry, stop: Stop)
    requires before.stop.Completed? && i < |before.progress|
    requires e == effect(d, before.progress[i].outputs, before.registry)
    requires registry == if e.Done? then e.registry else before.registry
    requires stop == match e
                     case Done(_, _) => Completed
                     case Failed(_, err) => Aborted(i, err)
                     case Faulted(_, fault) => Halted(i, fault)
    ensures Enter(effect, before, d, i)
         == Run(before.progress[i := Progress(if e.Done? then Succeeded else Started, e.outputs)], registry, stop)
  {
  }

  /**
   * The executor loop: enters the steps in order against a registry seeded
   * with `initial` until one stops the run. The step objects end as the run
   * semantics says, and the returned stop point is that of the whole run.
   */
  method RunSteps(steps: seq<Step>, initial: Registry) returns (stop: Stop)
    requires Distinct(steps)
    modifies steps
    ensures var r := RunAll(StepEffect, Decls(steps), old(ProgressOf(steps)), initial);
      ProgressOf(steps) == r.progress && stop == r.stop
  {
    ghost var start := ProgressOf(steps);
    ghost var trace := RunProperties.TraceOf(StepEffect, Decls(steps), start, initial);
    assert trace[0] == RunPrefix(StepEffect, Decls(steps), start, initial, 0);
    var argValues := initial;
    stop := Completed;
    var i := 0;
    while i < |steps| && stop.Completed?
      invariant 0 <= i <= |steps|
      invariant Run(ProgressOf(steps), argValues, stop) == trace[i]
    {
      argValues, stop := Advance(steps, start, initial, trace, i, argValues);
      i := i + 1;
    }
    RunProperties.TraceEnd(StepEffect, Decls(steps), start, initial, trace, i);
  }

  /**
   * Runs the steps and assembles the feedback, which lists every step and
   * carries the caught domain error, if any; a fault outside the domain
   * error family is returned as escaping, after the feedback is built.
   */
  method Execute(steps: seq<Step>, initial: Registry) returns (feedback: Feedback, escaped: Option<Fault>)
    requires Distinct(steps)
    modifies steps
    ensures var r := RunAll(StepEffect, Decls(steps), old(ProgressOf(steps)), initial);
      && ProgressOf(steps) == r.progress
      && feedback == FeedbackOf(Decls(steps), r)
      && escaped == if r.stop.Halted? then Some(r.stop.fault) else None
  {
    var stop := RunSteps(steps, initial);
    var failure: Option<ErrorReport> := None;
    if stop.Aborted? {
      failure := Some(ErrorReport(stop.error.message, stop.error.trace));
    }
    var reports := seq(|steps|, j requires 0 <= j < |steps| reads steps =>
      StepReport(steps[j].decl.name, steps[j].stage, steps[j].outputs));
    feedback := Feedback(failure, reports);
    escaped := if stop.Halted? then Some(stop.fault) else None;
  }
}
