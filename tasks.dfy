/** `ko.tasks` as the source keeps it: module-level state updated in place
    by push, pop, splice and index loops that re-read the list's length.
    Every method is proved to perform the transition of the same name in
    `TaskSpec`, so the properties proved in `TaskProperties` hold of it. */
module Tasks {
  import opened Base
  import opened TaskSpec
  import TaskProperties
  import Host

  /** The function `makeProcessedCallback(evaluator)` returns. */
  datatype ProcessedCallback = ProcessedCallback(evaluator: EvaluatorId)

  class Queue {
    var records: seq<Record>        // evaluatorsArray
    var taskStack: seq<nat>
    var indexProcessing: Option<nat>
    var evaluatorHandler: bool
    var nativePending: nat
    var nextSerial: nat
    var runs: seq<Run>
    /** What each evaluator does when run. */
    const behave: Behaviour

    function State(): QState
      reads this
    {
      QState(records, taskStack, indexProcessing, evaluatorHandler, nativePending, nextSerial, runs)
    }

    ghost predicate Valid()
      reads this
    {
      Inv(State())
    }

    constructor(behave: Behaviour)
      ensures State() == Idle && this.behave == behave
      ensures Valid()
    {
      records, taskStack, indexProcessing := [], [], None;
      evaluatorHandler, nativePending, nextSerial, runs := false, 0, 0, [];
      this.behave := behave;
    }

    method PushTaskState()
      modifies this
      ensures State() == old(State()).(stack := old(taskStack) + [|records|])
    {
      taskStack := taskStack + [|records|];
    }

    method PopTaskState(fuel: nat) returns (o: Outcome)
      requires taskStack != [] && taskStack[|taskStack| - 1] <= |records|
      modifies this
      ensures (State(), o) == TaskSpec.PopTaskState(old(State()), behave, fuel)
    {
      var originalLength := taskStack[|taskStack| - 1];
      taskStack := taskStack[..|taskStack| - 1];
      o := Normal;
      if |records| > originalLength {
        o := ProcessEvaluators(originalLength, fuel);
      }
    }

    /** Runs records by index up to the current end of the list, which the
        evaluators may extend, then truncates the list back to `start`, or
        clears the whole queue when `start` is 0. */
    method ProcessEvaluators(start: nat, fuel: nat) returns (o: Outcome)
      requires start <= |records|
      modifies this
      ensures (State(), o) == TaskSpec.ProcessEvaluators(old(State()), behave, start, fuel)
    {
      o := RunFrom(start, fuel);
      // the `finally` block
      if start > 0 {
        records := records[..start];
      } else {
        records := [];
        indexProcessing := None;
        evaluatorHandler := false;
      }
    }

    /** The `for` loop of `processEvaluators(start)`. */
    method RunFrom(start: nat, fuel: nat) returns (o: Outcome)
      requires start <= |records|
      modifies this
      ensures (State(), o) == FlushFrom(old(State()), behave, start, start, fuel)
    {
      ghost var s0 := State();
      var i, f := start, fuel;
      o := Normal;
      while o == Normal && i < |records|
        invariant start <= i <= |records|
        invariant o == Normal ==> FlushFrom(s0, behave, start, start, fuel) == FlushFrom(State(), behave, start, i, f)
        invariant o != Normal ==> FlushFrom(s0, behave, start, start, fuel) == (State(), o)
        decreases f, if o == Normal then 1 else 0
      {
        if f == 0 {
          o := OutOfFuel;
        } else {
          ghost var before := State();
          var thrown := RunRecord(start, i);
          assert FlushFrom(before, behave, start, i, f)
              == if thrown then (State(), Raised) else FlushFrom(State(), behave, start, i + 1, f - 1);
          if thrown {
            o := Raised;
          } else {
            i, f := i + 1, f - 1;
          }
        }
      }
    }

    /** The body of the `for` loop of `processEvaluators(start)`. */
    method RunRecord(start: nat, i: nat) returns (thrown: bool)
      requires i < |records|
      modifies this
      ensures (State(), thrown) == FlushStep(old(State()), behave, start, i)
    {
      if start == 0 {
        indexProcessing := Some(i);
      }
      var rec := records[i];
      var result;
      thrown, result := RunEvaluator(rec.serial, InvocationOf(rec));
    }

    /** `processEvaluatorsCallback`: the host runs one queued native flush. */
    method NativeFlush(fuel: nat) returns (o: Outcome)
      requires nativePending > 0
      modifies this
      ensures (State(), o) == TaskSpec.NativeFlush(old(State()), behave, fuel)
    {
      nativePending := nativePending - 1;
      o := ProcessEvaluators(0, fuel);
    }

    method IsEvaluatorDuplicate(evaluator: EvaluatorId) returns (dup: bool)
      ensures dup == IsDuplicate(State(), evaluator)
    {
      var i := if indexProcessing.Some? then indexProcessing.value else 0;
      var j := |records|;
      while i < j
        invariant ScanStart(State()) <= i
        invariant forall k :: ScanStart(State()) <= k < i && k < j ==> records[k].evaluator != evaluator
      {
        if records[i].evaluator == evaluator {
          return true;
        }
        i := i + 1;
      }
      return false;
    }

    /** `processDelayed(evaluator, distinct, extras)`; a caller that omits
        `distinct` passes true and one that omits `extras` passes
        `NoExtras`. */
    method ProcessDelayed(evaluator: EvaluatorId, distinct: bool := true, extras: Extras := NoExtras)
      returns (added: bool)
      modifies this
      ensures (State(), added) == Delayed(old(State()), Call(evaluator, distinct, extras))
      ensures old(Valid()) ==> Valid()
    {
      if Valid() {
        TaskProperties.DelayedInv(State(), Call(evaluator, distinct, extras));
      }
      if distinct {
        var dup := IsEvaluatorDuplicate(evaluator);
        if dup {
          return false;
        }
      }
      records := records + [Record(nextSerial, evaluator, extras)];
      nextSerial := nextSerial + 1;
      if taskStack == [] && indexProcessing == None && !evaluatorHandler {
        evaluatorHandler := true;
        nativePending := nativePending + 1;
      }
      added := true;
    }

    /** The `processDelayed` calls an evaluator makes while it runs. */
    method RunScript(calls: seq<Call>)
      modifies this
      ensures State() == RunCalls(old(State()), calls)
    {
      var i := 0;
      while i < |calls|
        invariant 0 <= i <= |calls|
        invariant RunCalls(old(State()), calls) == RunCalls(State(), calls[i..])
      {
        assert calls[i..][1..] == calls[i + 1..];
        var _ := ProcessDelayed(calls[i].evaluator, calls[i].distinct, calls[i].extras);
        i := i + 1;
      }
    }

    /** Runs the evaluator of one record (or of a sweep): logs the run, lets
        the evaluator make its calls, and reports whether it threw. */
    method RunEvaluator(serial: nat, inv: Invocation) returns (thrown: bool, result: JsValue)
      modifies this
      ensures (State(), thrown) == RunOne(old(State()), behave, serial, inv)
      ensures result == behave(inv).result
    {
      runs := runs + [Run(serial, inv)];
      var script := behave(inv);
      RunScript(script.calls);
      thrown, result := script.throws, script.result;
    }

    /** `processImmediate(evaluator, object, args)`: whatever the evaluator
        schedules is run before this returns, and the queue is left as it
        was found, whether the evaluator returns or throws. */
    method ProcessImmediate(evaluator: EvaluatorId, target: Option<Target>, args: seq<JsValue>, fuel: nat)
      returns (res: ImmediateResult)
      requires Valid()
      modifies this
      ensures (State(), res) == Immediate(old(State()), behave, Invocation(evaluator, target, args), fuel)
      ensures records == old(records) && taskStack == old(taskStack)
      ensures indexProcessing == old(indexProcessing) && evaluatorHandler == old(evaluatorHandler)
      ensures Valid()
    {
      ghost var s0 := State();
      var inv := Invocation(evaluator, target, args);
      TaskProperties.ImmediateRestoresQueue(s0, behave, inv, fuel);
      TaskProperties.ImmediateInv(s0, behave, inv, fuel);
      PushTaskState();
      var script := behave(inv);
      RunScript(script.calls);
      var o := PopTaskState(fuel);
      res := if o == Raised then Threw
             else if o == OutOfFuel then Exhausted
             else if script.throws then Threw
             else Returned(script.result);
    }

    method MakeProcessedCallback(evaluator: EvaluatorId) returns (callback: ProcessedCallback)
      ensures callback.evaluator == evaluator
    {
      callback := ProcessedCallback(evaluator);
    }

    /** Calling the function `makeProcessedCallback` returned, with its own
        `this` and arguments. */
    method CallProcessedCallback(callback: ProcessedCallback, target: Option<Target>, args: seq<JsValue>, fuel: nat)
      returns (res: ImmediateResult)
      requires Valid()
      modifies this
      ensures (State(), res) == Immediate(old(State()), behave, Invocation(callback.evaluator, target, args), fuel)
      ensures Valid()
    {
      res := ProcessImmediate(callback.evaluator, target, args, fuel);
    }

    /** `ko.evaluateAsynchronously(evaluator, timeout)`. */
    method EvaluateAsynchronously(timers: Host.Timers, evaluator: EvaluatorId, timeout: int)
      returns (handle: nat)
      modifies timers
      ensures (timers.State(), handle) == Host.SetTimer(old(timers.State()), Host.Timer(evaluator, timeout))
    {
      var callback := MakeProcessedCallback(evaluator);
      handle := timers.SetTimeout(callback.evaluator, timeout);
    }

    /** The host fires a timer set by `EvaluateAsynchronously`: its
        processed callback runs with no `this` and no arguments. */
    method RunTimer(timers: Host.Timers, handle: nat, fuel: nat) returns (res: ImmediateResult)
      requires Valid() && handle in timers.pending
      modifies this, timers
      ensures timers.State() == Host.ClearTimer(old(timers.State()), Some(handle))
      ensures (State(), res) == Immediate(old(State()), behave, Invocation(old(timers.pending[handle]).callback, None, []), fuel)
      ensures Valid()
    {
      var timer := timers.Fire(handle);
      res := CallProcessedCallback(ProcessedCallback(timer.callback), None, [], fuel);
    }

    method ProcessDeferredBindingUpdatesForNode(node: Option<NodeToken>) returns (o: Outcome)
      modifies this
      ensures (State(), o) == TaskSpec.Sweep(old(State()), behave, ForNode(node), 0, old(|records|))
      ensures old(Valid()) ==> Valid()
    {
      o := SweepRecords(ForNode(node));
    }

    method ProcessAllDeferredBindingUpdates() returns (o: Outcome)
      modifies this
      ensures (State(), o) == TaskSpec.Sweep(old(State()), behave, AnyNode, 0, old(|records|))
      ensures old(Valid()) ==> Valid()
    {
      o := SweepRecords(AnyNode);
    }

    /** The loop shared by the two sweeps: it stops at the length the list
        had on entry and re-reads each record by index. */
    method SweepRecords(f: NodeFilter) returns (o: Outcome)
      modifies this
      ensures (State(), o) == TaskSpec.Sweep(old(State()), behave, f, 0, old(|records|))
      ensures old(Valid()) ==> Valid()
    {
      ghost var s0 := State();
      if Valid() {
        TaskProperties.SweepInv(s0, behave, f, 0, |records|);
      }
      var i, j := 0, |records|;
      o := Normal;
      while o == Normal && i < j
        invariant i <= j <= |records|
        invariant o == Normal ==> Sweep(s0, behave, f, 0, j) == Sweep(State(), behave, f, i, j)
        invariant o != Normal ==> Sweep(s0, behave, f, 0, j) == (State(), o)
        decreases j - i, if o == Normal then 1 else 0
      {
        if Selects(f, records[i]) {
          var thrown, _ := RunEvaluator(records[i].serial, Invocation(records[i].evaluator, None, []));
          if thrown {
            o := Raised;
          } else {
            i := i + 1;
          }
        } else {
          i := i + 1;
        }
      }
    }
  }
}
