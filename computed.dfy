/** One `ko.computed` built by the plugin's `newComputed`: its closure
    variables are the fields of `ComputedNode`, reassigned in place by its
    methods. Each method is proved to perform the transition of the same
    name in `ComputedSpec`, so the properties proved in
    `ComputedProperties` hold of it. */
module Computed {
  import opened Base
  import opened TaskSpec
  import opened Routing
  import opened Knockout
  import opened ComputedSpec
  import Host
  import Tasks

  class ComputedNode {
    var latestValue: JsValue
    var needsEvaluation: bool
    var isBeingEvaluated: bool
    var subs: seq<Subscription>       // _subscriptionsToDependencies
    var deferUpdates: TriState
    var throttleEvaluation: int
    var timer: Option<nat>            // evaluationTimeoutInstance
    var notes: seq<Note>
    const id: Identity
    const hasWrite: bool
    const ko: Runtime
    const tasks: Tasks.Queue
    const timers: Host.Timers

    function Node(): NodeState
      reads this
    {
      NodeState(latestValue, needsEvaluation, isBeingEvaluated, subs, deferUpdates, throttleEvaluation, timer, notes)
    }

    function World(): ComputedSpec.World
      reads this, ko, tasks, timers
    {
      ComputedSpec.World(Node(), ko.State(), tasks.State(), timers.State())
    }

    constructor(id: Identity, hasWrite: bool, ko: Runtime, tasks: Tasks.Queue, timers: Host.Timers)
      ensures Node() == Fresh
      ensures this.id == id && this.hasWrite == hasWrite
      ensures this.ko == ko && this.tasks == tasks && this.timers == timers
    {
      latestValue, needsEvaluation, isBeingEvaluated, subs := Undefined, true, false, [];
      deferUpdates, throttleEvaluation, timer, notes := Unset, 0, None, [];
      this.id, this.hasWrite := id, hasWrite;
      this.ko, this.tasks, this.timers := ko, tasks, timers;
    }

    /** The application sets `computed.deferUpdates`. */
    method SetDeferUpdates(flag: TriState)
      modifies this
      ensures Node() == old(Node()).(deferUpdates := flag)
    {
      deferUpdates := flag;
    }

    method DisposeAllSubscriptionsToDependencies()
      modifies this, ko
      ensures (Node(), ko.State()) == DisposeAll(old(Node()), old(ko.State()))
    {
      ghost var live0 := ko.live;
      DropNothing(live0, {});
      assert Handles(subs[..0]) == {};
      var i := 0;
      while i < |subs|
        invariant 0 <= i <= |subs|
        invariant Node() == old(Node())
        invariant ko.State() == old(ko.State()).(live := Drop(live0, Handles(subs[..i])))
      {
        assert Handles(subs[..i + 1]) == Handles(subs[..i]) + {subs[i].handle} by {
          assert subs[..i + 1] == subs[..i] + [subs[i]];
        }
        DropTwice(live0, Handles(subs[..i]), {subs[i].handle});
        ko.Dispose(subs[i].handle);
        i := i + 1;
      }
      assert subs[..i] == subs;
      subs := [];
      needsEvaluation := false;
    }

    /** `dispose()`. */
    method Dispose()
      modifies this, ko
      ensures World() == ComputedSpec.Dispose(old(World()))
    {
      DisposeAllSubscriptionsToDependencies();
    }

    method AddDependency(source: Source)
      modifies this, ko
      ensures (Node(), ko.State()) == ComputedSpec.AddDependency(old(Node()), old(ko.State()), id, source)
    {
      var sub := ko.Subscribe(source, id.possiblyAsync, None, Some(EventFor(source)), Unset, true);
      subs := subs + [sub];
    }

    /** The read registers `regs` in the node's frame; each source new to the
        frame reaches `addDependency`, the frame's callback. */
    method CaptureRead(regs: seq<Source>)
      modifies this, ko
      ensures (Node(), ko.State()) == Capture(old(Node()), old(ko.State()), id, regs)
    {
      var i := 0;
      while i < |regs|
        invariant 0 <= i <= |regs|
        invariant (Node(), ko.State()) == Capture(old(Node()), old(ko.State()), id, regs[..i])
      {
        assert regs[..i + 1][..i] == regs[..i];
        var isNew := ko.Register(regs[i]);
        if isNew {
          AddDependency(regs[i]);
        }
        i := i + 1;
      }
      assert regs[..i] == regs;
    }

    /** `evaluateImmediate`; `disposeNow` is what `disposeWhen()` returns. */
    method EvaluateImmediate(disposeNow: bool, read: ReadOutcome) returns (e: Evaluation)
      modifies this, ko
      ensures (World(), e) == ComputedSpec.EvaluateImmediate(old(World()), id, disposeNow, read)
    {
      if isBeingEvaluated || !needsEvaluation {
        return Skipped;
      }
      if disposeNow {
        Dispose();
        return DisposedByWhen;
      }
      isBeingEvaluated := true;
      DisposeAllSubscriptionsToDependencies();
      ReadInNewFrame(read.registered);
      if read.Throws? {
        return ReadThrew;
      }
      notes := notes + [Note(latestValue, BeforeChange), Note(read.value, Change)];
      latestValue := read.value;
      needsEvaluation, isBeingEvaluated := false, false;
      e := Evaluated;
    }

    /** `depDet.begin(addDependency)`, the read, and `depDet.end()` in the
        `finally` block. */
    method ReadInNewFrame(regs: seq<Source>)
      modifies this, ko
      ensures World() == ReadInFrame(old(World()), id, regs)
    {
      ko.Begin();
      CaptureRead(regs);
      ko.End();
    }

    method EvaluateInitial(read: ReadOutcome) returns (ok: bool)
      modifies this, ko
      ensures (World(), ok) == ComputedSpec.EvaluateInitial(old(World()), id, read)
    {
      isBeingEvaluated := true;
      ReadInNewFrame(read.registered);
      if read.Throws? {
        return false;
      }
      latestValue := read.value;
      needsEvaluation, isBeingEvaluated := false, false;
      ok := true;
    }

    /** `evaluatePossiblyAsync`, run when a dependency notifies. */
    method EvaluatePossiblyAsync(disposeNow: bool, read: ReadOutcome) returns (raised: bool)
      modifies this, ko, tasks, timers
      ensures (World(), raised) == PossiblyAsync(old(World()), id, disposeNow, read)
      ensures old(tasks.Valid()) ==> tasks.Valid()
    {
      var shouldNotify := !needsEvaluation;
      needsEvaluation := true;
      var throttle := throttleEvaluation;
      raised := false;
      if throttle > 0 {
        RestartThrottleTimer(throttle);
      } else if DeferEffective(ko.deferUpdates, deferUpdates) {
        shouldNotify := tasks.ProcessDelayed(id.evaluator, true, Extras(None, [], id.node));
      } else {
        var e := EvaluateImmediate(disposeNow, read);
        if e == ReadThrew {
          return true;
        }
        shouldNotify := e == Evaluated;
      }
      NotifyDirty(shouldNotify, throttle);
    }

    /** `clearTimeout(evaluationTimeoutInstance)` and a new throttle timer
        for `evaluateImmediate`. */
    method RestartThrottleTimer(throttle: int)
      modifies this, timers
      ensures var (t2, h) := Host.SetTimer(Host.ClearTimer(old(timers.State()), old(timer)),
                                           Host.Timer(id.evaluator, throttle));
              World() == old(World()).(n := old(Node()).(timer := Some(h)), t := t2)
    {
      timers.ClearTimeout(timer);
      var h := tasks.EvaluateAsynchronously(timers, id.evaluator, throttle);
      timer := Some(h);
    }

    /** The tail of `evaluatePossiblyAsync`. */
    method NotifyDirty(shouldNotify: bool, throttle: int)
      modifies this, timers
      ensures World() == AfterRoute(old(World()), shouldNotify, throttle)
    {
      if shouldNotify {
        notes := notes + [Note(latestValue, Dirty)];
        if !needsEvaluation && throttle != 0 {
          timers.ClearTimeout(timer);
        }
      }
    }

    /** The host fires the throttle timer; the `processImmediate` scope
        around the evaluation is not modelled (see `ComputedSpec.FireThrottleTimer`). */
    method FireThrottleTimer(disposeNow: bool, read: ReadOutcome) returns (e: Evaluation)
      requires timer.Some? && timer.value in timers.pending
      modifies this, ko, timers
      ensures (World(), e) == ComputedSpec.FireThrottleTimer(old(World()), id, disposeNow, read)
    {
      var _ := timers.Fire(timer.value);
      e := EvaluateImmediate(disposeNow, read);
    }

    /** Reading the computed (`computed()` with no argument). */
    method Get(disposeNow: bool, read: ReadOutcome) returns (g: GetResult)
      modifies this, ko
      ensures (World(), g) == ComputedSpec.Get(old(World()), id, disposeNow, read)
    {
      if needsEvaluation {
        var e := EvaluateImmediate(disposeNow, read);
        if e == ReadThrew {
          return GetThrew;
        }
      }
      var _ := ko.Register(id.self);
      g := Value(latestValue);
    }

    /** Writing the computed (`computed(value)`). */
    method Set(write: WriteScript) returns (r: SetResult)
      modifies this, ko, tasks, timers
      ensures (World(), r) == ComputedSpec.Set(old(World()), id, hasWrite, write)
    {
      if !hasWrite {
        return NoWriteFunction;
      }
      var saved := deferUpdates;
      deferUpdates := Off;
      ghost var w0 := World();
      var i := 0;
      while i < |write.reactions|
        invariant 0 <= i <= |write.reactions|
        invariant React(w0, id, write.reactions) == React(World(), id, write.reactions[i..])
      {
        assert write.reactions[i..][1..] == write.reactions[i + 1..];
        var raised := EvaluatePossiblyAsync(write.reactions[i].disposeNow, write.reactions[i].read);
        if raised {
          return WriteThrew;
        }
        i := i + 1;
      }
      if write.throws {
        return WriteThrew;
      }
      deferUpdates := saved;
      r := Written;
    }
  }

  /** `ko.computed(first, target, third)`. Construction throws when the
      read function is not a function, and then `c` is null; it also throws
      when the initial read throws, and then `c` is the node left behind,
      still marked as evaluating and with its partial subscriptions live. */
  method NewComputed(ko: Runtime, tasks: Tasks.Queue, timers: Host.Timers, id: Identity,
                     first: FirstArgument, third: Options, read: ReadOutcome)
    returns (c: ComputedNode?, r: Construction)
    modifies ko
    ensures var (w', res) := ComputedSpec.NewComputed(
              ComputedSpec.World(Fresh, old(ko.State()), tasks.State(), timers.State()), id, first, third, read);
      && r == res
      && (r == NotAFunction <==> c == null)
      && (c != null ==> fresh(c) && c.World() == w' && c.ko == ko && c.tasks == tasks && c.timers == timers)
      && (c == null ==> ko.State() == old(ko.State()))
  {
    var (opts, readOk) := Resolve(first, third);
    if !readOk {
      return null, NotAFunction;
    }
    c := new ComputedNode(id, opts.writeIsFunction, ko, tasks, timers);
    r := Built(opts.writeIsFunction);
    if !opts.deferEvaluation {
      var ok := c.EvaluateInitial(read);
      if !ok {
        r := InitialReadThrew;
      }
    }
  }
}
