/** The plugin's `throttle` extender. A writeable target is wrapped so that
    each write replaces the single pending write-through; any other target
    (a computed without a write function) gets `throttleEvaluation` set and
    is returned as it is. */
module Throttle {
  import opened Base
  import Host
  import Tasks
  import Computed

  /** What the extender may be applied to: an observable (always writeable)
      or a computed. */
  datatype ThrottleTarget = ObservableTarget | ComputedTarget(node: Computed.ComputedNode)

  predicate IsWriteable(target: ThrottleTarget) {
    target.ObservableTarget? || target.node.hasWrite
  }

  /** The write side of the computed that wraps a writeable target. Each
      timer it sets runs a closure that writes the value of its own write;
      `callbacks` remembers that value per timer handle. */
  class ThrottledWriter {
    var writeTimeoutInstance: Option<nat>
    var callbacks: map<nat, JsValue>
    const timeout: int
    /** The evaluator id standing for the write-through closures. */
    const writeThrough: EvaluatorId
    const tasks: Tasks.Queue
    const timers: Host.Timers

    /** At most one of this writer's timers is pending, and it is the one
        set by the latest write. */
    ghost predicate Valid()
      reads this, timers
    {
      && Host.TimersInv(timers.State())
      && (forall h :: h in callbacks ==> h < timers.next)
      && (forall h :: h in callbacks && h in timers.pending ==> writeTimeoutInstance == Some(h))
      && (writeTimeoutInstance.Some? ==> writeTimeoutInstance.value in callbacks)
    }

    constructor(timeout: int, writeThrough: EvaluatorId, tasks: Tasks.Queue, timers: Host.Timers)
      requires Host.TimersInv(timers.State())
      ensures writeTimeoutInstance == None && callbacks == map[]
      ensures this.timeout == timeout && this.writeThrough == writeThrough
      ensures this.tasks == tasks && this.timers == timers
      ensures Valid()
    {
      writeTimeoutInstance, callbacks := None, map[];
      this.timeout, this.writeThrough := timeout, writeThrough;
      this.tasks, this.timers := tasks, timers;
    }

    /** `write(value)`: clear the pending write-through, if any, and set a
        new one for `value`. */
    method Write(value: JsValue)
      requires Valid()
      modifies this, timers
      ensures Valid()
      ensures writeTimeoutInstance.Some? && callbacks[writeTimeoutInstance.value] == value
      ensures writeTimeoutInstance.value in timers.pending
      ensures timers.pending[writeTimeoutInstance.value] == Host.Timer(writeThrough, timeout)
      ensures old(writeTimeoutInstance).Some? ==> old(writeTimeoutInstance).value !in timers.pending
      ensures forall h :: h in timers.pending && h != writeTimeoutInstance.value
                ==> h in old(timers.pending) && timers.pending[h] == old(timers.pending[h])
      ensures forall h :: h in old(timers.pending) && Some(h) != old(writeTimeoutInstance)
                ==> h in timers.pending && timers.pending[h] == old(timers.pending[h])
    {
      timers.ClearTimeout(writeTimeoutInstance);
      var h := tasks.EvaluateAsynchronously(timers, writeThrough, timeout);
      callbacks := callbacks[h := value];
      writeTimeoutInstance := Some(h);
    }

    /** The host fires one of the writer's timers: it is the latest write's
        timer, and its closure hands the latest value to the target. */
    method Fire(handle: nat) returns (value: JsValue)
      requires Valid() && handle in timers.pending && handle in callbacks
      modifies timers
      ensures Valid()
      ensures writeTimeoutInstance == Some(handle) && value == callbacks[handle]
      ensures handle !in timers.pending
      ensures forall h :: h in old(timers.pending) && h != handle
                ==> h in timers.pending && timers.pending[h] == old(timers.pending[h])
    {
      var _ := timers.Fire(handle);
      value := callbacks[handle];
    }
  }

  datatype Extended = Writer(writer: ThrottledWriter) | SameTarget

  /** `ko.extenders.throttle(target, timeout)`. */
  method ThrottleExtender(target: ThrottleTarget, timeout: int, writeThrough: EvaluatorId,
                          tasks: Tasks.Queue, timers: Host.Timers)
    returns (r: Extended)
    requires Host.TimersInv(timers.State())
    modifies if target.ComputedTarget? then {target.node} else {}
    ensures r.Writer? <==> IsWriteable(target)
    ensures r.Writer? ==> fresh(r.writer) && r.writer.Valid() && r.writer.timeout == timeout
                          && r.writer.writeTimeoutInstance == None && r.writer.timers == timers
    ensures !IsWriteable(target) ==>
              target.node.Node() == old(target.node.Node()).(throttleEvaluation := timeout)
  {
    if IsWriteable(target) {
      var w := new ThrottledWriter(timeout, writeThrough, tasks, timers);
      r := Writer(w);
    } else {
      target.node.throttleEvaluation := timeout;
      r := SameTarget;
    }
  }
}
