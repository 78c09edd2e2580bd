/** The host's timers, as far as the plugin uses them: `setTimeout` hands
    out an opaque handle for a pending callback and `clearTimeout` drops
    one. Elapsed time is not modelled; a pending timer fires when its owner
    says so. */
module Host {
  import opened Base

  /** A pending `setTimeout(makeProcessedCallback(callback), timeout)`:
      every timer the plugin sets runs an evaluator inside a
      `processImmediate` scope. */
  datatype Timer = Timer(callback: EvaluatorId, timeout: int)

  datatype TimerState = TimerState(pending: map<nat, Timer>, next: nat)

  /** Handles are never reused: every pending handle is below `next`. */
  ghost predicate TimersInv(t: TimerState) {
    forall h :: h in t.pending ==> h < t.next
  }

  function SetTimer(t: TimerState, timer: Timer): (r: (TimerState, nat))
    ensures r.1 !in t.pending ==> r.0.pending == t.pending[r.1 := timer]
  {
    (TimerState(t.pending[t.next := timer], t.next + 1), t.next)
  }

  /** `clearTimeout(handle)`; clearing `null` or a handle that already
      fired does nothing. */
  function ClearTimer(t: TimerState, handle: Option<nat>): (r: TimerState)
    ensures handle.Some? ==> handle.value !in r.pending
    ensures forall h :: h in r.pending <==> h in t.pending && handle != Some(h)
  {
    if handle.Some? then t.(pending := t.pending - {handle.value}) else t
  }

  /** A handle handed out by `SetTimer` was not pending before, and the new
      timer is the only change to the pending table. */
  lemma SetTimerFresh(t: TimerState, timer: Timer)
    requires TimersInv(t)
    ensures var (t', h) := SetTimer(t, timer);
      && h !in t.pending
      && t'.pending == t.pending[h := timer]
      && TimersInv(t')
  {
  }

  class Timers {
    var pending: map<nat, Timer>
    var next: nat

    function State(): TimerState
      reads this
    {
      TimerState(pending, next)
    }

    constructor()
      ensures State() == TimerState(map[], 0)
    {
      pending := map[];
      next := 0;
    }

    method SetTimeout(callback: EvaluatorId, timeout: int) returns (handle: nat)
      modifies this
      ensures (State(), handle) == SetTimer(old(State()), Timer(callback, timeout))
    {
      handle := next;
      pending := pending[next := Timer(callback, timeout)];
      next := next + 1;
    }

    method ClearTimeout(handle: Option<nat>)
      modifies this
      ensures State() == ClearTimer(old(State()), handle)
    {
      if handle.Some? {
        pending := pending - {handle.value};
      }
    }

    /** The host fires a pending timer: it is no longer pending, and its
        callback is handed back to be run. */
    method Fire(handle: nat) returns (timer: Timer)
      requires handle in pending
      modifies this
      ensures timer == old(pending[handle])
      ensures State() == ClearTimer(old(State()), Some(handle))
    {
      timer := pending[handle];
      pending := pending - {handle};
    }
  }
}
