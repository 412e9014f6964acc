/** Properties of runs of the step pipeline, proved about the functions of module Pipeline. */
module RunProperties {
  import opened Common
  import opened Pipeline

  /** Once a step has stopped the run, entering more steps changes nothing. */
  lemma {:induction false} StoppedRunIsFinal(effect: Semantics, decls: seq<StepDecl>, start: seq<Progress>, initial: Registry, m: nat, n: nat)
    requires |start| == |decls| && m <= n <= |decls|
    requires !RunPrefix(effect, decls, start, initial, m).stop.Completed?
    ensures RunPrefix(effect, decls, start, initial, n) == RunPrefix(effect, decls, start, initial, m)
    decreases n
  {
    if n > m {
      StoppedRunIsFinal(effect, decls, start, initial, m, n - 1);
    }
  }

  /** Entering the first m steps depends on those m declarations only. */
  lemma {:induction false} PrefixDependsOnEnteredSteps(effect: Semantics, d1: seq<StepDecl>, d2: seq<StepDecl>, start: seq<Progress>, initial: Registry, m: nat)
    requires |d1| == |d2| == |start| && m <= |d1|
    requires forall j :: 0 <= j < m ==> d1[j] == d2[j]
    ensures RunPrefix(effect, d1, start, initial, m) == RunPrefix(effect, d2, start, initial, m)
  {
    if m > 0 {
      PrefixDependsOnEnteredSteps(effect, d1, d2, start, initial, m - 1);
      var d := d1[m - 1];
      assert d2[m - 1] == d;
    }
  }

  /**
   * A trace of a run: the states after entering 0, 1, ..., |decls| steps.
   * Facts about a trace entry come out only where the matching prefix run is
   * mentioned.
   */
  ghost predicate IsTrace(effect: Semantics, decls: seq<StepDecl>, start: seq<Progress>, initial: Registry, trace: seq<Run>)
    requires |start| == |decls|
  {
    && |trace| == |decls| + 1
    && forall k {:trigger RunPrefix(effect, decls, start, initial, k)} :: 0 <= k <= |decls| ==>
         trace[k] == RunPrefix(effect, decls, start, initial, k)
  }

  lemma TraceOf(effect: Semantics, decls: seq<StepDecl>, start: seq<Progress>, initial: Registry) returns (trace: seq<Run>)
    requires |start| == |decls|
    ensures IsTrace(effect, decls, start, initial, trace)
  {
    trace := seq(|decls| + 1, k requires 0 <= k <= |decls| => RunPrefix(effect, decls, start, initial, k));
  }

  /** The trace entry where the run stopped, or the last one, is the whole run. */
  lemma TraceEnd(effect: Semantics, decls: seq<StepDecl>, start: seq<Progress>, initial: Registry, trace: seq<Run>, i: nat)
    requires |start| == |decls| && i <= |decls|
    requires IsTrace(effect, decls, start, initial, trace)
    requires i == |decls| || !trace[i].stop.Completed?
    ensures trace[i] == RunAll(effect, decls, start, initial)
  {
    assert trace[i] == RunPrefix(effect, decls, start, initial, i);
    if i < |decls| {
      StoppedRunIsFinal(effect, decls, start, initial, i, |decls|);
    }
  }

  /** Entering step n - 1 of an unstopped run, when that step completes. */
  lemma EnterCompletes(effect: Semantics, decls: seq<StepDecl>, start: seq<Progress>, initial: Registry, n: nat,
                       outputs: map<string, Value>, registry: Registry)
    requires |start| == |decls| && 0 < n <= |decls|
    requires RunPrefix(effect, decls, start, initial, n - 1).stop.Completed?
    requires effect(decls[n - 1], RunPrefix(effect, decls, start, initial, n - 1).progress[n - 1].outputs,
                        RunPrefix(effect, decls, start, initial, n - 1).registry) == Done(outputs, registry)
    ensures RunPrefix(effect, decls, start, initial, n)
         == Run(RunPrefix(effect, decls, start, initial, n - 1).progress[n - 1 := Progress(Succeeded, outputs)], registry, Completed)
  {
  }

  /**
   * A run whose first n steps complete: step j, entered with its initial
   * outputs and the registry regs[j], records outs[j] and leaves regs[j + 1].
   * After n steps the entered ones are Succeeded with those outputs, the
   * others keep their initial progress, and the registry is regs[n].
   */
  lemma {:induction false} CompletingPrefix(effect: Semantics, decls: seq<StepDecl>, start: seq<Progress>, initial: Registry,
                                            outs: seq<map<string, Value>>, regs: seq<Registry>, n: nat)
    requires |start| == |decls| == |outs| && |regs| == |decls| + 1 && n <= |decls|
    requires regs[0] == initial
    requires forall j :: 0 <= j < n ==> effect(decls[j], start[j].outputs, regs[j]) == Done(outs[j], regs[j + 1])
    ensures var r := RunPrefix(effect, decls, start, initial, n);
      && r.stop == Completed && r.registry == regs[n]
      && (forall k :: 0 <= k < n ==> r.progress[k] == Progress(Succeeded, outs[k]))
      && (forall k :: n <= k < |decls| ==> r.progress[k] == start[k])
  {
    if n > 0 {
      CompletingPrefix(effect, decls, start, initial, outs, regs, n - 1);
      var prev := RunPrefix(effect, decls, start, initial, n - 1);
      assert effect(decls[n - 1], prev.progress[n - 1].outputs, prev.registry) == Done(outs[n - 1], regs[n]);
      EnterKeepsOtherSteps(effect, prev, decls[n - 1], n - 1);
    }
  }

  /** A run in which every step completes ends with every step Succeeded. */
  lemma AllStepsComplete(effect: Semantics, decls: seq<StepDecl>, start: seq<Progress>, initial: Registry,
                         outs: seq<map<string, Value>>, regs: seq<Registry>)
    requires |start| == |decls| == |outs| && |regs| == |decls| + 1
    requires regs[0] == initial
    requires forall j :: 0 <= j < |decls| ==> effect(decls[j], start[j].outputs, regs[j]) == Done(outs[j], regs[j + 1])
    ensures var r := RunAll(effect, decls, start, initial);
      && r.stop == Completed && r.registry == regs[|decls|]
      && forall j :: 0 <= j < |decls| ==> r.progress[j] == Progress(Succeeded, outs[j])
  {
    CompletingPrefix(effect, decls, start, initial, outs, regs, |decls|);
  }

  /** A run that stops within its first k + 1 steps is the state after entering them. */
  lemma StoppedEarlyIsWholeRun(effect: Semantics, decls: seq<StepDecl>, start: seq<Progress>, initial: Registry, k: nat)
    requires |start| == |decls| && k < |decls|
    requires !RunPrefix(effect, decls, start, initial, k + 1).stop.Completed?
    ensures RunAll(effect, decls, start, initial) == RunPrefix(effect, decls, start, initial, k + 1)
  {
    StoppedRunIsFinal(effect, decls, start, initial, k + 1, |decls|);
  }

  /**
   * Short-circuit: when step k stops the run, no later step's method is
   * called. Replacing the declarations after step k by any others leaves the
   * whole run unchanged.
   */
  lemma LaterStepsNeverRun(effect: Semantics, d1: seq<StepDecl>, d2: seq<StepDecl>, start: seq<Progress>, initial: Registry, k: nat)
    requires |d1| == |d2| == |start|
    requires !RunAll(effect, d1, start, initial).stop.Completed?
    requires k == RunAll(effect, d1, start, initial).stop.at
    requires forall j :: 0 <= j <= k ==> d1[j] == d2[j]
    ensures RunAll(effect, d2, start, initial) == RunAll(effect, d1, start, initial)
  {
    StopPoint(effect, d1, start, initial, |d1|, k);
    PrefixDependsOnEnteredSteps(effect, d1, d2, start, initial, k + 1);
    StoppedEarlyIsWholeRun(effect, d2, start, initial, k);
  }

  /**
   * A run stopped at step k is the state right after entering step k, and
   * its registry is the one step k found: a stopping step writes nothing
   * back, and no later step runs.
   */
  lemma {:induction false} StopPoint(effect: Semantics, decls: seq<StepDecl>, start: seq<Progress>, initial: Registry, n: nat, k: nat)
    requires |start| == |decls| && n <= |decls|
    requires !RunPrefix(effect, decls, start, initial, n).stop.Completed?
    requires k == RunPrefix(effect, decls, start, initial, n).stop.at
    ensures k < n
    ensures RunPrefix(effect, decls, start, initial, k).stop.Completed?
    ensures RunPrefix(effect, decls, start, initial, n) == RunPrefix(effect, decls, start, initial, k + 1)
    ensures RunPrefix(effect, decls, start, initial, n).registry == RunPrefix(effect, decls, start, initial, k).registry
  {
    var prev := RunPrefix(effect, decls, start, initial, n - 1);
    if !prev.stop.Completed? {
      assert RunPrefix(effect, decls, start, initial, n) == prev;
      StopPoint(effect, decls, start, initial, n - 1, k);
    } else {
      assert k == n - 1;
    }
  }

  /**
   * The stop of a run is the outcome of its stopping step: a run aborted at
   * k carries exactly the domain error step k's method raised, and a halted
   * run the fault that escaped from step k.
   */
  lemma StopIsStepOutcome(effect: Semantics, decls: seq<StepDecl>, start: seq<Progress>, initial: Registry)
    requires |start| == |decls|
    requires !RunAll(effect, decls, start, initial).stop.Completed?
    ensures var r := RunAll(effect, decls, start, initial);
      var k := r.stop.at;
      && k < |decls|
      && var before := RunPrefix(effect, decls, start, initial, k);
      && before.stop.Completed?
      && var e := effect(decls[k], before.progress[k].outputs, before.registry);
      && (r.stop.Aborted? ==> e == Failed(r.progress[k].outputs, r.stop.error))
      && (r.stop.Halted? ==> e == Faulted(r.progress[k].outputs, r.stop.fault))
  {
    var r := RunAll(effect, decls, start, initial);
    StopPoint(effect, decls, start, initial, |decls|, r.stop.at);
  }

  /**
   * The stages after entering n steps: every entered step before the stop
   * point Succeeded, the stopping step is left Started, and every step not
   * entered keeps its initial progress.
   */
  lemma {:induction false} StagesAfterPrefix(effect: Semantics, decls: seq<StepDecl>, start: seq<Progress>, initial: Registry, n: nat)
    requires |start| == |decls| && n <= |decls|
    ensures var r := RunPrefix(effect, decls, start, initial, n);
      var reached := if r.stop.Completed? then n else r.stop.at;
      && (forall j :: 0 <= j < reached ==> r.progress[j].stage == Succeeded)
      && (!r.stop.Completed? ==> r.progress[reached].stage == Started)
      && (forall j :: (if r.stop.Completed? then n else reached + 1) <= j < |decls| ==> r.progress[j] == start[j])
  {
    if n > 0 {
      StagesAfterPrefix(effect, decls, start, initial, n - 1);
      var prev := RunPrefix(effect, decls, start, initial, n - 1);
      if prev.stop.Completed? {
        EnterKeepsOtherSteps(effect, prev, decls[n - 1], n - 1);
      }
    }
  }

  /**
   * The feedback of a run of freshly declared steps lists every step in
   * declared order; it has an error exactly when a step raised a domain
   * error; the steps before the stopping step succeeded, the stopping step
   * did not, and the later ones were never started and have no outputs.
   * With no error and no escaping fault, every step succeeded, and conversely.
   */
  lemma FeedbackOfFreshRun(effect: Semantics, decls: seq<StepDecl>, initial: Registry)
    ensures var r := RunAll(effect, decls, Fresh(|decls|), initial);
      var fb := FeedbackOf(decls, r);
      && |fb.steps| == |decls|
      && (forall j :: 0 <= j < |decls| ==> fb.steps[j].name == decls[j].name)
      && (fb.failure.Some? <==> r.stop.Aborted?)
      && (r.stop.Aborted? ==> fb.failure.value == ErrorReport(r.stop.error.message, r.stop.error.trace))
      && ((fb.failure.None? && !r.stop.Halted?) <==> forall j :: 0 <= j < |decls| ==> fb.steps[j].stage == Succeeded)
      && (!r.stop.Completed? ==>
            var k := r.stop.at;
            && k < |decls|
            && (forall j :: 0 <= j < k ==> fb.steps[j].stage == Succeeded)
            && fb.steps[k].stage == Started
            && (forall j :: k < j < |decls| ==> fb.steps[j].stage == NotStarted && fb.steps[j].outputs == map[]))
  {
    var n := |decls|;
    StagesAfterPrefix(effect, decls, Fresh(n), initial, n);
  }

  /**
   * A step semantics that, when a step completes, adds exactly the step's
   * public return names to the registry and leaves every other entry as it was.
   */
  ghost predicate PublishesOnlyPublicReturns(effect: Semantics)
  {
    forall d, outputs, registry :: effect(d, outputs, registry).Done? ==>
      && effect(d, outputs, registry).registry.Keys == registry.Keys + NameSet(d.publicReturns)
      && (forall k :: k in registry && k !in d.publicReturns ==> effect(d, outputs, registry).registry[k] == registry[k])
  }

  /** The executor's own step semantics only publishes the public returns. */
  lemma StepEffectPublishesOnlyPublicReturns()
    ensures PublishesOnlyPublicReturns(StepEffect)
  {
    forall d, outputs, registry | StepEffect(d, outputs, registry).Done?
      ensures StepEffect(d, outputs, registry).registry.Keys == registry.Keys + NameSet(d.publicReturns)
      ensures forall k :: k in registry && k !in d.publicReturns ==> StepEffect(d, outputs, registry).registry[k] == registry[k]
    {
      var e := StepEffect(d, outputs, registry);
    }
  }

  /**
   * Propagation: a name published by step a reaches every later step b with
   * the value step a wrote, unless a step in between also publishes it.
   */
  lemma {:induction false} PublicReturnReachesLaterSteps(effect: Semantics, decls: seq<StepDecl>, start: seq<Progress>, initial: Registry, a: nat, b: nat, x: string)
    requires PublishesOnlyPublicReturns(effect)
    requires |start| == |decls| && a < b <= |decls|
    requires RunPrefix(effect, decls, start, initial, b).stop.Completed?
    requires x in decls[a].publicReturns
    requires forall j :: a < j < b ==> x !in decls[j].publicReturns
    ensures x in RunPrefix(effect, decls, start, initial, a + 1).registry
    ensures x in RunPrefix(effect, decls, start, initial, b).registry
    ensures RunPrefix(effect, decls, start, initial, b).registry[x] == RunPrefix(effect, decls, start, initial, a + 1).registry[x]
  {
    if b > a + 1 {
      PublicReturnReachesLaterSteps(effect, decls, start, initial, a, b - 1, x);
    }
  }

  /** The names available to step i: the initial ones and those published by earlier steps. */
  function Available(decls: seq<StepDecl>, initialNames: set<string>, i: nat): set<string>
    requires i <= |decls|
  {
    if i == 0 then initialNames
    else Available(decls, initialNames, i - 1) + NameSet(decls[i - 1].publicReturns)
  }

  /**
   * A well-formed pipeline: every argument is available when its step runs,
   * outputs and public returns are return names, and no step unpacks
   * several return values.
   */
  ghost predicate WellFormed(decls: seq<StepDecl>, initialNames: set<string>)
  {
    forall i :: 0 <= i < |decls| ==>
      && (forall n :: n in decls[i].argNames ==> n in Available(decls, initialNames, i))
      && (forall n :: n in decls[i].outputNames ==> n in decls[i].returnNames)
      && (forall n :: n in decls[i].publicReturns ==> n in decls[i].returnNames)
      && |decls[i].returnNames| <= 1
  }

  /** A step whose names are consistent with the registry never faults in the executor itself. */
  lemma ConsistentStepFaultsOnlyInMethod(d: StepDecl, outputs: map<string, Value>, registry: Registry)
    requires forall n :: n in d.argNames ==> n in registry
    requires forall n :: n in d.outputNames ==> n in d.returnNames
    requires forall n :: n in d.publicReturns ==> n in d.returnNames
    requires |d.returnNames| <= 1
    ensures StepEffect(d, outputs, registry).Faulted? ==> StepEffect(d, outputs, registry).fault.Foreign?
  {
    var args := Resolve(registry, d.argNames);
    assert args.Ok?;
    match d.callable(args.value)
    case Returned(result) =>
      var returned := StepReturnMap(d.returnNames, result).value;
      assert forall n :: n in d.returnNames ==> n in returned by {
        if |d.returnNames| == 1 {
          assert d.returnNames == [d.returnNames[0]];
        }
      }
    case Raised(_) =>
    case Crashed(_) =>
  }

  /**
   * In a well-formed pipeline the executor itself never faults: every
   * available name is in the registry, and a run that halts does so only
   * because a step method raised something outside the domain error family.
   */
  lemma {:induction false} WellFormedRunsOnlyForeignFaults(decls: seq<StepDecl>, start: seq<Progress>, initial: Registry, n: nat)
    requires |start| == |decls| && n <= |decls|
    requires WellFormed(decls, initial.Keys)
    ensures var r := RunPrefix(StepEffect, decls, start, initial, n);
      && (r.stop.Completed? ==> Available(decls, initial.Keys, n) <= r.registry.Keys)
      && (r.stop.Halted? ==> r.stop.fault.Foreign?)
  {
    if n > 0 {
      WellFormedRunsOnlyForeignFaults(decls, start, initial, n - 1);
      var r := RunPrefix(StepEffect, decls, start, initial, n - 1);
      if r.stop.Completed? {
        ConsistentStepFaultsOnlyInMethod(decls[n - 1], r.progress[n - 1].outputs, r.registry);
      }
    }
  }
}
