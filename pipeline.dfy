/**
 * The step pipeline: values exchanged between steps, step declarations, and
 * the meaning of running a step and a run of steps, as functions. The
 * imperative executor in module Executor is proved against these.
 */
module Pipeline {
  import opened Common
  import Layers

  /**
   * The values that flow through the registry: file paths, opaque handles
   * (a loaded project), None, lists and tuples (Items) and layer summary
   * entries.
   */
  datatype Value =
    | Path(path: string)
    | Handle(id: nat)
    | Nil
    | Items(items: seq<Value>)
    | Row(row: Layers.LayerRow)

  /** A raised exception of the repository's own family: its rendered message and traceback. */
  datatype DomainError = DomainError(message: string, trace: seq<string>)

  /** An exception outside that family: it is not caught by the executor. */
  datatype Fault =
    | MissingArgument(name: string)   // KeyError looking up an argument
    | NotIterable                     // TypeError unpacking several return values
    | MissingReturn(name: string)     // KeyError looking up a return value
    | Foreign(reason: string)         // anything else a step method raises

  /** What calling a step method does. */
  datatype Outcome = Returned(value: Value) | Raised(error: DomainError) | Crashed(reason: string)

  /** The lifecycle stage of a step. */
  datatype Stage = NotStarted | Started | Succeeded

  /**
   * A step declaration: its name, the registry names of its arguments, its
   * method, the names of its return values, and which of those are reported
   * as outputs and which are written back into the registry.
   */
  datatype StepDecl = StepDecl(
    name: string,
    argNames: seq<string>,
    callable: seq<Value> -> Outcome,
    returnNames: seq<string>,
    outputNames: seq<string>,
    publicReturns: seq<string>)

  type Registry = map<string, Value>

  /** The names occurring in a list of names. */
  function NameSet(names: seq<string>): set<string>
  {
    set n | n in names
  }

  /** The mutable part of a step: its stage and its recorded outputs. */
  datatype Progress = Progress(stage: Stage, outputs: map<string, Value>)

  /**
   * The arguments of a step, looked up by name in declared order; the first
   * name missing from the registry is the error.
   */
  function Resolve(registry: Registry, names: seq<string>): (r: Result<seq<Value>, string>)
    ensures r.Ok? <==> forall i :: 0 <= i < |names| ==> names[i] in registry
    ensures r.Ok? ==> |r.value| == |names| && forall i :: 0 <= i < |names| ==> r.value[i] == registry[names[i]]
    ensures r.Err? ==> r.error in names && r.error !in registry
  {
    if names == [] then Ok([])
    else if names[0] !in registry then Err(names[0])
    else match Resolve(registry, names[1..])
      case Ok(rest) => Ok([registry[names[0]]] + rest)
      case Err(n) => Err(n)
  }

  /**
   * The sequence of return values a result stands for: with at most one
   * return name the result is one value and is not unpacked; with more it is
   * unpacked, which fails (None) when it is not iterable.
   */
  function ReturnValues(returnNames: seq<string>, result: Value): (r: Option<seq<Value>>)
    ensures |returnNames| <= 1 ==> r == Some([result])
    ensures |returnNames| > 1 ==> (r.Some? <==> result.Items?)
    ensures |returnNames| > 1 && result.Items? ==> r == Some(result.items)
  {
    if |returnNames| > 1 then
      match result
      case Items(xs) => Some(xs)
      case _ => None
    else Some([result])
  }

  /** Names paired with values positionally for the first n pairs, a later pair overwriting an earlier one. */
  function Zip(names: seq<string>, values: seq<Value>, n: nat): map<string, Value>
    requires n <= |names| && n <= |values|
  {
    if n == 0 then map[] else Zip(names, values, n - 1)[names[n - 1] := values[n - 1]]
  }

  /** The return map: names and values paired positionally, stopping at the shorter. */
  function ReturnMap(names: seq<string>, values: seq<Value>): map<string, Value>
  {
    Zip(names, values, Min(|names|, |values|))
  }

  lemma {:induction false} ZipKeys(names: seq<string>, values: seq<Value>, n: nat)
    requires n <= |names| && n <= |values|
    ensures forall k :: k in Zip(names, values, n) <==> exists i :: 0 <= i < n && names[i] == k
  {
    if n > 0 {
      ZipKeys(names, values, n - 1);
    }
  }

  lemma {:induction false} ZipLastWins(names: seq<string>, values: seq<Value>, n: nat, i: nat)
    requires n <= |names| && n <= |values| && i < n
    requires forall j :: i < j < n ==> names[j] != names[i]
    ensures names[i] in Zip(names, values, n) && Zip(names, values, n)[names[i]] == values[i]
  {
    if i < n - 1 {
      ZipLastWins(names, values, n - 1, i);
    }
  }

  /**
   * The return map has exactly the names of the paired prefix as keys, and a
   * name is bound to the value at its last position in that prefix (its only
   * position when the names are distinct).
   */
  lemma ReturnMapPairsPositionally(names: seq<string>, values: seq<Value>)
    ensures forall k :: k in ReturnMap(names, values) <==>
      exists i :: 0 <= i < Min(|names|, |values|) && names[i] == k
    ensures forall i :: (0 <= i < Min(|names|, |values|) &&
                         forall j :: i < j < Min(|names|, |values|) ==> names[j] != names[i])
                        ==> ReturnMap(names, values)[names[i]] == values[i]
  {
    var m := Min(|names|, |values|);
    ZipKeys(names, values, m);
    forall i | 0 <= i < m && (forall j :: i < j < m ==> names[j] != names[i])
      ensures ReturnMap(names, values)[names[i]] == values[i]
    {
      ZipLastWins(names, values, m, i);
    }
  }

  /**
   * The return map of a step's result: empty without return names, the
   * whole result under the single name with one, the unpacked values paired
   * with the names with more (None when the result cannot be unpacked).
   */
  function StepReturnMap(returnNames: seq<string>, result: Value): (r: Option<map<string, Value>>)
    ensures |returnNames| == 0 ==> r == Some(map[])
    ensures |returnNames| == 1 ==> r == Some(map[returnNames[0] := result])
    ensures |returnNames| > 1 ==> (r.Some? <==> result.Items?)
    ensures |returnNames| > 1 && result.Items? ==> r == Some(ReturnMap(returnNames, result.items))
  {
    match ReturnValues(returnNames, result)
    case None => None
    case Some(values) =>
      assert |returnNames| == 1 ==> Zip(returnNames, values, 1) == map[returnNames[0] := values[0]];
      Some(ReturnMap(returnNames, values))
  }

  /** The result of copying named entries: the updated target and the first name the source lacks. */
  datatype Copy = Copy(target: map<string, Value>, missing: Option<string>)

  /**
   * Copies `source[n]` into `target[n]` for each name in turn, stopping at
   * the first name the source lacks (the entries copied so far stay).
   */
  function CopyNames(target: map<string, Value>, source: map<string, Value>, names: seq<string>): (r: Copy)
    ensures r.missing.None? <==> forall i :: 0 <= i < |names| ==> names[i] in source
    ensures r.missing.Some? ==> r.missing.value in names && r.missing.value !in source
    ensures r.target.Keys <= target.Keys + NameSet(names)
    ensures forall k :: k in target && k !in names ==> k in r.target && r.target[k] == target[k]
    ensures r.missing.None? ==>
      && r.target.Keys == target.Keys + NameSet(names)
      && forall k :: k in names ==> r.target[k] == source[k]
    decreases |names|
  {
    if names == [] then Copy(target, None)
    else if names[0] !in source then Copy(target, Some(names[0]))
    else CopyNames(target[names[0] := source[names[0]]], source, names[1..])
  }

  /**
   * A copy that stops reports the first name the source lacks, and its
   * target is that of the complete copy of the names before it: those
   * earlier entries stay written.
   */
  lemma {:induction false} CopyStopsAtFirstMissing(target: map<string, Value>, source: map<string, Value>, names: seq<string>)
    requires CopyNames(target, source, names).missing.Some?
    ensures var r := CopyNames(target, source, names);
      exists i :: 0 <= i < |names| && names[i] == r.missing.value
        && CopyNames(target, source, names[..i]) == Copy(r.target, None)
    decreases |names|
  {
    var r := CopyNames(target, source, names);
    if names[0] !in source {
      assert CopyNames(target, source, names[..0]) == Copy(r.target, None);
      assert 0 < |names| && names[0] == r.missing.value;
    } else {
      var t := target[names[0] := source[names[0]]];
      CopyStopsAtFirstMissing(t, source, names[1..]);
      var i :| 0 <= i < |names[1..]| && names[1..][i] == r.missing.value
        && CopyNames(t, source, names[1..][..i]) == Copy(r.target, None);
      CopyFirstOfPrefix(target, source, names, i + 1);
      assert i + 1 < |names| && names[i + 1] == r.missing.value;
    }
  }

  /** Copying a nonempty prefix copies its first name, then the rest of the prefix. */
  lemma CopyFirstOfPrefix(target: map<string, Value>, source: map<string, Value>, names: seq<string>, n: nat)
    requires 0 < n <= |names| && names[0] in source
    ensures CopyNames(target, source, names[..n])
         == CopyNames(target[names[0] := source[names[0]]], source, names[1..][..n - 1])
  {
    assert names[..n][1..] == names[1..][..n - 1];
  }

  /** What entering one step does to its outputs and to the registry. */
  datatype Effect =
    | Done(outputs: map<string, Value>, registry: Registry)
    | Failed(outputs: map<string, Value>, error: DomainError)
    | Faulted(outputs: map<string, Value>, fault: Fault)

  /** The arguments of a step, when every one of them is in the registry. */
  function Arguments(d: StepDecl, registry: Registry): Option<seq<Value>>
  {
    match Resolve(registry, d.argNames)
    case Ok(args) => Some(args)
    case Err(_) => None
  }

  /**
   * Entering one step: resolve the arguments, call the method, build the
   * return map, copy the output names into the outputs and the public
   * returns into the registry.
   */
  function StepEffect(d: StepDecl, outputs: map<string, Value>, registry: Registry): (e: Effect)
    // a missing argument escapes before the method is called
    ensures Arguments(d, registry).None? ==> e.Faulted? && e.fault.MissingArgument? && e.outputs == outputs
    // the step fails exactly when its method raises a domain error, and carries that error
    ensures e.Failed? <==> Arguments(d, registry).Some? && d.callable(Arguments(d, registry).value).Raised?
    ensures e.Failed? ==> e.error == d.callable(Arguments(d, registry).value).error && e.outputs == outputs
    // any other exception of the method escapes unchanged
    ensures Arguments(d, registry).Some? && d.callable(Arguments(d, registry).value).Crashed? ==>
      e == Faulted(outputs, Foreign(d.callable(Arguments(d, registry).value).reason))
    // a completed step wrote the returned values under its output and public names
    ensures e.Done? ==>
      && Arguments(d, registry).Some?
      && d.callable(Arguments(d, registry).value).Returned?
      && var returned := StepReturnMap(d.returnNames, d.callable(Arguments(d, registry).value).value);
      && returned.Some?
      && (forall k :: k in d.publicReturns ==> k in returned.value && k in e.registry && e.registry[k] == returned.value[k])
      && (forall k :: k in d.outputNames ==> k in returned.value && k in e.outputs && e.outputs[k] == returned.value[k])
    // and it completes whenever its method returned and every copied name is in the return map
    ensures e.Done? <==>
      && Arguments(d, registry).Some?
      && d.callable(Arguments(d, registry).value).Returned?
      && var returned := StepReturnMap(d.returnNames, d.callable(Arguments(d, registry).value).value);
      && returned.Some?
      && (forall k :: k in d.outputNames ==> k in returned.value)
      && (forall k :: k in d.publicReturns ==> k in returned.value)
    // several return names meeting a result that cannot be unpacked escape as a TypeError
    ensures e.Faulted? && e.fault.NotIterable? <==>
      && Arguments(d, registry).Some?
      && d.callable(Arguments(d, registry).value).Returned?
      && StepReturnMap(d.returnNames, d.callable(Arguments(d, registry).value).value).None?
    ensures e.Done? ==> e.registry.Keys == registry.Keys + NameSet(d.publicReturns)
    ensures e.Done? ==> forall k :: k in registry && k !in d.publicReturns ==> e.registry[k] == registry[k]
    ensures e.Done? ==> e.outputs.Keys == outputs.Keys + NameSet(d.outputNames)
    ensures forall k :: k in outputs && k !in d.outputNames ==> k in e.outputs && e.outputs[k] == outputs[k]
  {
    match Resolve(registry, d.argNames)
    case Err(n) => Faulted(outputs, MissingArgument(n))
    case Ok(args) =>
      match d.callable(args)
      case Raised(err) => Failed(outputs, err)
      case Crashed(reason) => Faulted(outputs, Foreign(reason))
      case Returned(result) =>
        match StepReturnMap(d.returnNames, result)
        case None => Faulted(outputs, NotIterable)
        case Some(returned) =>
          var o := CopyNames(outputs, returned, d.outputNames);
          if o.missing.Some? then Faulted(o.target, MissingReturn(o.missing.value))
          else
            var p := CopyNames(registry, returned, d.publicReturns);
            if p.missing.Some? then Faulted(o.target, MissingReturn(p.missing.value))
            else Done(o.target, p.target)
  }

  /** Where a run ended: after the last step, at a domain error, or at an uncaught fault. */
  datatype Stop = Completed | Aborted(at: nat, error: DomainError) | Halted(at: nat, fault: Fault)

  /** The state of a run: every step's progress, the registry, and where it stopped. */
  datatype Run = Run(progress: seq<Progress>, registry: Registry, stop: Stop)

  /**
   * What entering one step does, given its declaration, the outputs it has
   * recorded and the registry. The executor's own step semantics is
   * StepEffect; the control flow of a run below holds for any of them.
   */
  type Semantics = (StepDecl, map<string, Value>, Registry) -> Effect

  /**
   * Entering step i of a run that has not stopped: Succeeded with the new
   * outputs and registry when the step completes; otherwise the step is left
   * Started, the run stops at i and the registry it found is kept.
   */
  function Enter(effect: Semantics, r: Run, d: StepDecl, i: nat): (r': Run)
    requires r.stop.Completed? && i < |r.progress|
    ensures |r'.progress| == |r.progress|
    ensures r'.progress[i].stage == if r'.stop.Completed? then Succeeded else Started
    ensures !r'.stop.Completed? ==> r'.stop.at == i && r'.registry == r.registry
    // the step's outputs are those the effect left, and a completing step's registry is the run's
    ensures r'.progress[i].outputs == effect(d, r.progress[i].outputs, r.registry).outputs
    ensures r'.stop.Completed? <==> effect(d, r.progress[i].outputs, r.registry).Done?
    ensures r'.stop.Completed? ==> r'.registry == effect(d, r.progress[i].outputs, r.registry).registry
    // a domain error aborts the run with that error; any other exception halts it with that fault
    ensures r'.stop.Aborted? <==> effect(d, r.progress[i].outputs, r.registry).Failed?
    ensures r'.stop.Aborted? ==> r'.stop.error == effect(d, r.progress[i].outputs, r.registry).error
    ensures r'.stop.Halted? <==> effect(d, r.progress[i].outputs, r.registry).Faulted?
    ensures r'.stop.Halted? ==> r'.stop.fault == effect(d, r.progress[i].outputs, r.registry).fault
  {
    match effect(d, r.progress[i].outputs, r.registry)
    case Done(o, reg) => Run(r.progress[i := Progress(Succeeded, o)], reg, Completed)
    case Failed(o, err) => Run(r.progress[i := Progress(Started, o)], r.registry, Aborted(i, err))
    case Faulted(o, f) => Run(r.progress[i := Progress(Started, o)], r.registry, Halted(i, f))
  }

  /** Entering step i leaves the progress of every other step as it was. */
  lemma EnterKeepsOtherSteps(effect: Semantics, r: Run, d: StepDecl, i: nat)
    requires r.stop.Completed? && i < |r.progress|
    ensures forall j :: 0 <= j < |r.progress| && j != i ==> Enter(effect, r, d, i).progress[j] == r.progress[j]
  {
  }

  /**
   * The state after entering the first n steps from the given per-step
   * progress and initial registry; once a step stops the run, later steps
   * are not entered.
   */
  function RunPrefix(effect: Semantics, decls: seq<StepDecl>, start: seq<Progress>, initial: Registry, n: nat): (r: Run)
    requires |start| == |decls| && n <= |decls|
    ensures |r.progress| == |decls|
    ensures !r.stop.Completed? ==> r.stop.at < n
  {
    if n == 0 then Run(start, initial, Completed)
    else
      var r := RunPrefix(effect, decls, start, initial, n - 1);
      if !r.stop.Completed? then r else Enter(effect, r, decls[n - 1], n - 1)
  }

  /** Entering one more step of a run that has not stopped. */
  lemma RunPrefixEnters(effect: Semantics, decls: seq<StepDecl>, start: seq<Progress>, initial: Registry, n: nat)
    requires |start| == |decls| && n < |decls|
    requires RunPrefix(effect, decls, start, initial, n).stop.Completed?
    ensures RunPrefix(effect, decls, start, initial, n + 1)
         == Enter(effect, RunPrefix(effect, decls, start, initial, n), decls[n], n)
  {
  }

  /** The whole run. */
  function RunAll(effect: Semantics, decls: seq<StepDecl>, start: seq<Progress>, initial: Registry): Run
    requires |start| == |decls|
  {
    RunPrefix(effect, decls, start, initial, |decls|)
  }

  /** The progress of steps that have not been entered yet. */
  function Fresh(n: nat): seq<Progress>
  {
    seq(n, _ => Progress(NotStarted, map[]))
  }

  /** One entry of the feedback's step list. */
  datatype StepReport = StepReport(name: string, stage: Stage, outputs: map<string, Value>)

  /** The error message and traceback a caught domain error leaves in the feedback. */
  datatype ErrorReport = ErrorReport(error: string, errorStack: seq<string>)

  /** The feedback document. */
  datatype Feedback = Feedback(failure: Option<ErrorReport>, steps: seq<StepReport>)

  /** The feedback of a run: the caught domain error, if any, and every declared step. */
  function FeedbackOf(decls: seq<StepDecl>, r: Run): Feedback
    requires |r.progress| == |decls|
  {
    Feedback(
      if r.stop.Aborted? then Some(ErrorReport(r.stop.error.message, r.stop.error.trace)) else None,
      seq(|decls|, j requires 0 <= j < |decls| =>
        StepReport(decls[j].name, r.progress[j].stage, r.progress[j].outputs)))
  }
}
