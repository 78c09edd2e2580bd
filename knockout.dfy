/** The parts of Knockout the plugin drives without owning them: the live
    subscriptions of every subscribable, the stack of dependency-detection
    frames, and the global `ko.computed.deferUpdates` switch. Subscribing
    goes through the plugin's replacement `subscribe`; `ko.ignoreDependencies`
    is the plugin's own. */
module Knockout {
  import opened Base
  import opened TaskSpec
  import opened Routing
  import Tasks

  /** A subscribable: an observable, or a computed (whose prototype marks it
      as one). */
  datatype Source = Source(id: nat, isComputed: bool)

  datatype Subscription = Subscription(handle: nat, source: Source, event: Event, handler: Handler)

  /** `live` holds every subscription not yet disposed; `frames` the sources
      registered in each open dependency-detection frame, innermost last. */
  datatype KoState = KoState(live: seq<Subscription>, nextHandle: nat, frames: seq<seq<Source>>, deferUpdates: bool)

  function Handles(subs: seq<Subscription>): (r: set<nat>)
    ensures forall k :: 0 <= k < |subs| ==> subs[k].handle in r
  {
    set k | 0 <= k < |subs| :: subs[k].handle
  }

  /** `live` without the subscriptions whose handle is in `hs`. */
  function Drop(live: seq<Subscription>, hs: set<nat>): (r: seq<Subscription>)
    ensures |r| <= |live|
  {
    if live == [] then []
    else (if live[0].handle in hs then [] else [live[0]]) + Drop(live[1..], hs)
  }

  /** Knockout's `subscribe`, handed `handler`: a new subscription with a
      fresh handle. */
  function Subscribed(k: KoState, source: Source, event: Event, handler: Handler): (KoState, Subscription) {
    var sub := Subscription(k.nextHandle, source, event, handler);
    (k.(live := k.live + [sub], nextHandle := k.nextHandle + 1), sub)
  }

  function Unsubscribed(k: KoState, handle: nat): KoState {
    k.(live := Drop(k.live, {handle}))
  }

  /** `ko.dependencyDetection.registerDependency(source)`: the innermost
      frame records each source once and reports whether it was new (only
      then does the frame's callback run). Outside every frame nothing
      happens. */
  function Registered(k: KoState, source: Source): (KoState, bool) {
    if k.frames == [] then (k, false)
    else
      var top := k.frames[|k.frames| - 1];
      if source in top then (k, false)
      else (k.(frames := k.frames[..|k.frames| - 1] + [top + [source]]), true)
  }

  // ---------------------------------------------------------------------

  lemma {:induction false} DropRemovesExactly(live: seq<Subscription>, hs: set<nat>)
    ensures forall s :: s in Drop(live, hs) <==> s in live && s.handle !in hs
    decreases |live|
  {
    if live != [] {
      DropRemovesExactly(live[1..], hs);
      assert live == [live[0]] + live[1..];
    }
  }

  lemma {:induction false} DropTwice(live: seq<Subscription>, a: set<nat>, b: set<nat>)
    ensures Drop(Drop(live, a), b) == Drop(live, a + b)
    decreases |live|
  {
    if live != [] {
      DropTwice(live[1..], a, b);
      var rest := Drop(live[1..], a);
      if live[0].handle in a {
        assert Drop(live, a) == rest;
      } else {
        assert Drop(live, a) == [live[0]] + rest;
        assert ([live[0]] + rest)[1..] == rest;
      }
    }
  }

  lemma DropNothing(live: seq<Subscription>, hs: set<nat>)
    requires forall j :: 0 <= j < |live| ==> live[j].handle !in hs
    ensures Drop(live, hs) == live
  {
    if live != [] {
      DropNothing(live[1..], hs);
      assert live == [live[0]] + live[1..];
    }
  }

  /** Registering the sources a callback reads inside a fresh frame, then
      ending that frame, leaves the frames of the callers as they were: the
      reads of an isolated callback become nobody's dependencies. */
  lemma {:induction false} FreshFrameIsolates(k: KoState, regs: seq<Source>)
    ensures RegisterAll(k.(frames := k.frames + [[]]), regs).frames[..|k.frames|] == k.frames
    ensures |RegisterAll(k.(frames := k.frames + [[]]), regs).frames| == |k.frames| + 1
    decreases |regs|
  {
    if regs != [] {
      var k0 := k.(frames := k.frames + [[]]);
      FreshFrameIsolates(k, regs[..|regs| - 1]);
    }
  }

  /** The registrations of a read, in order, in the innermost frame. */
  function RegisterAll(k: KoState, regs: seq<Source>): (r: KoState)
    ensures r.live == k.live && r.nextHandle == k.nextHandle && r.deferUpdates == k.deferUpdates
    ensures |r.frames| == |k.frames|
    ensures k.frames != [] ==> r.frames[..|r.frames| - 1] == k.frames[..|k.frames| - 1]
    decreases |regs|
  {
    if regs == [] then k else Registered(RegisterAll(k, regs[..|regs| - 1]), regs[|regs| - 1]).0
  }

  // ---------------------------------------------------------------------

  class Runtime {
    var live: seq<Subscription>
    var nextHandle: nat
    var frames: seq<seq<Source>>
    /** `ko.computed.deferUpdates`, true unless the application turns it off. */
    var deferUpdates: bool

    function State(): KoState
      reads this
    {
      KoState(live, nextHandle, frames, deferUpdates)
    }

    constructor()
      ensures State() == KoState([], 0, [], true)
    {
      live, nextHandle, frames, deferUpdates := [], 0, [], true;
    }

    /** The replacement `subscribe(callback, callbackTarget, event, deferUpdates)`. */
    method Subscribe(source: Source, callback: EvaluatorId, target: Option<Target>, event: Option<Event>,
                     flag: TriState, mentionsThrottle: bool)
      returns (sub: Subscription)
      modifies this
      ensures (State(), sub) == Subscribed(old(State()), source, EventOf(event),
                                           Wrap(callback, target, event, flag, mentionsThrottle))
    {
      var handler := Wrap(callback, target, event, flag, mentionsThrottle);
      sub := Subscription(nextHandle, source, EventOf(event), handler);
      live := live + [sub];
      nextHandle := nextHandle + 1;
    }

    /** `subscription.dispose()`. */
    method Dispose(handle: nat)
      modifies this
      ensures State() == Unsubscribed(old(State()), handle)
    {
      live := Drop(live, {handle});
    }

    method Begin()
      modifies this
      ensures State() == old(State()).(frames := old(frames) + [[]])
    {
      frames := frames + [[]];
    }

    method End()
      requires frames != []
      modifies this
      ensures State() == old(State()).(frames := old(frames[..|frames| - 1]))
    {
      frames := frames[..|frames| - 1];
    }

    method Register(source: Source) returns (isNew: bool)
      modifies this
      ensures (State(), isNew) == Registered(old(State()), source)
    {
      if frames == [] {
        return false;
      }
      var top := frames[|frames| - 1];
      if source in top {
        return false;
      }
      frames := frames[..|frames| - 1] + [top + [source]];
      isNew := true;
    }

    /** `ko.ignoreDependencies(callback, object, args)`, for a callback that
        reads `regs`: the reads land in a frame of their own, which is
        ended afterwards, so the callers' frames are as they were. */
    method IgnoreDependencies(regs: seq<Source>)
      modifies this
      ensures State() == old(State())
    {
      ghost var k0 := State();
      Begin();
      var i := 0;
      while i < |regs|
        invariant 0 <= i <= |regs|
        invariant State() == RegisterAll(k0.(frames := k0.frames + [[]]), regs[..i])
      {
        assert regs[..i + 1][..i] == regs[..i];
        var _ := Register(regs[i]);
        i := i + 1;
      }
      assert regs[..i] == regs;
      FreshFrameIsolates(k0, regs);
      End();
    }

    /** Knockout calls the handler of `sub` with `value`. A wrapped handler
        either enqueues the callback in `queue` or calls it with dependency
        detection suspended (the callback reading `regs`); a raw one calls
        it directly, which is outside this model. */
    method Notify(sub: Subscription, value: JsValue, queue: Tasks.Queue, regs: seq<Source>)
      returns (d: Delivery)
      modifies this, queue
      ensures d == Deliver(deferUpdates, sub.handler, value)
      ensures State() == old(State())
      ensures d.Deferred? ==> queue.State() == Delayed(old(queue.State()), d.call).0
      ensures !d.Deferred? ==> queue.State() == old(queue.State())
      ensures old(queue.Valid()) ==> queue.Valid()
    {
      d := Deliver(deferUpdates, sub.handler, value);
      match d
      case Deferred(c) =>
        var _ := queue.ProcessDelayed(c.evaluator, c.distinct, c.extras);
      case Isolated(_) =>
        IgnoreDependencies(regs);
      case Direct(_) =>
    }
  }
}
