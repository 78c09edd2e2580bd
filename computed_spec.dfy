/** The transitions of one `ko.computed` built by the plugin's `newComputed`,
    as functions over a `World`: the node's closure state, the Knockout
    runtime, the task queue and the host's timers. The class
    `Computed.ComputedNode` performs them in place and is proved against
    these functions; `ComputedProperties` states what they promise. */
module ComputedSpec {
  import opened Base
  import opened TaskSpec
  import opened Routing
  import opened Knockout
  import opened Host

  /** One `notifySubscribers(value, event)` call of the node. */
  datatype Note = Note(value: JsValue, event: Event)

  /** The closure state of one computed, plus the two properties the
      application may set on it (`deferUpdates` and `throttleEvaluation`,
      where 0 stands for "not set") and the log of its notifications. */
  datatype NodeState = NodeState(
    latestValue: JsValue,
    needsEvaluation: bool,
    isBeingEvaluated: bool,
    subs: seq<Subscription>,          // _subscriptionsToDependencies
    deferUpdates: TriState,
    throttleEvaluation: int,
    timer: Option<nat>,               // evaluationTimeoutInstance
    notes: seq<Note>)

  /** A node just built, before any evaluation. */
  const Fresh := NodeState(Undefined, true, false, [], Unset, 0, None, [])

  /** What stays fixed for one node: itself as a source, the evaluator ids
      of its `evaluateImmediate` and `evaluatePossiblyAsync` closures, and
      its `disposeWhenNodeIsRemoved` node. */
  datatype Identity = Identity(self: Source, evaluator: EvaluatorId, possiblyAsync: EvaluatorId, node: Option<NodeToken>)

  datatype World = World(n: NodeState, k: KoState, q: QState, t: TimerState)

  /** One call of the read function: it registers `registered`, in order,
      then returns a value or throws. */
  datatype ReadOutcome = Returns(value: JsValue, registered: seq<Source>) | Throws(registered: seq<Source>)

  /** `registered` without repeats, in order of first registration. */
  function Distinct(rs: seq<Source>): seq<Source>
    decreases |rs|
  {
    if rs == [] then []
    else
      var d := Distinct(rs[..|rs| - 1]);
      if rs[|rs| - 1] in d then d else d + [rs[|rs| - 1]]
  }

  /** `addDependency` subscribes to a computed on "dirty" and to anything
      else on "change". */
  function EventFor(s: Source): Event {
    if s.isComputed then Dirty else Change
  }

  /** The subscriptions `addDependency` makes for `sources`, handles from `h`. */
  function SubsFor(h: nat, sources: seq<Source>, id: Identity): (r: seq<Subscription>)
    ensures |r| == |sources|
  {
    seq(|sources|, j requires 0 <= j < |sources| =>
      Subscription(h + j, sources[j], EventFor(sources[j]), Raw(id.possiblyAsync, None)))
  }

  /** `addDependency(source)`: `evaluatePossiblyAsync` mentions
      `throttleEvaluation`, so the replacement `subscribe` hands it to
      Knockout unwrapped. */
  function AddDependency(n: NodeState, k: KoState, id: Identity, source: Source): (NodeState, KoState) {
    var (k1, sub) := Subscribed(k, source, EventFor(source),
                                Wrap(id.possiblyAsync, None, Some(EventFor(source)), Unset, true));
    (n.(subs := n.subs + [sub]), k1)
  }

  /** The read registers `source` in the node's frame; the frame's callback
      `addDependency` runs when the source is new to the frame. */
  function CaptureOne(n: NodeState, k: KoState, id: Identity, source: Source): (NodeState, KoState) {
    var (k1, isNew) := Registered(k, source);
    if isNew then AddDependency(n, k1, id, source) else (n, k1)
  }

  function Capture(n: NodeState, k: KoState, id: Identity, regs: seq<Source>): (r: (NodeState, KoState))
    ensures r.0 == n.(subs := r.0.subs) && n.subs <= r.0.subs
    ensures |r.1.frames| == |k.frames| && r.1.deferUpdates == k.deferUpdates
    ensures k.frames != [] ==> r.1.frames[..|k.frames| - 1] == k.frames[..|k.frames| - 1]
    decreases |regs|
  {
    if regs == [] then (n, k)
    else
      var (n1, k1) := Capture(n, k, id, regs[..|regs| - 1]);
      CaptureOne(n1, k1, id, regs[|regs| - 1])
  }

  /** `disposeAllSubscriptionsToDependencies`. */
  function DisposeAll(n: NodeState, k: KoState): (NodeState, KoState) {
    (n.(subs := [], needsEvaluation := false), k.(live := Drop(k.live, Handles(n.subs))))
  }

  function Dispose(w: World): World {
    var (n1, k1) := DisposeAll(w.n, w.k);
    w.(n := n1, k := k1)
  }

  /** How `evaluateImmediate` ended: it returned false at the guard, it
      returned false after `disposeWhen` disposed the node, it returned
      true, or the read threw. */
  datatype Evaluation = Skipped | DisposedByWhen | Evaluated | ReadThrew

  /** Runs the read inside a new dependency-detection frame whose callback
      is `addDependency`, and ends the frame (also when the read throws). */
  function ReadInFrame(w: World, id: Identity, regs: seq<Source>): World {
    var (n1, k1) := Capture(w.n, w.k.(frames := w.k.frames + [[]]), id, regs);
    w.(n := n1, k := k1.(frames := k1.frames[..|k1.frames| - 1]))
  }

  /** What a read that returned `value` leaves: "beforeChange" notified with
      the old value, the new value stored, the node clean, and after the
      frame has ended "change" notified with the new value and the
      evaluation flag cleared. */
  function Stored(n: NodeState, value: JsValue): NodeState {
    n.(notes := n.notes + [Note(n.latestValue, BeforeChange), Note(value, Change)],
       latestValue := value, needsEvaluation := false, isBeingEvaluated := false)
  }

  /** The body of `evaluateImmediate` past its guard and `disposeWhen` check. */
  function Evaluate(w: World, id: Identity, read: ReadOutcome): (World, Evaluation) {
    var (n1, k1) := DisposeAll(w.n.(isBeingEvaluated := true), w.k);
    var w2 := ReadInFrame(w.(n := n1, k := k1), id, read.registered);
    if read.Throws? then (w2, ReadThrew)
    else (w2.(n := Stored(w2.n, read.value)), Evaluated)
  }

  /** `evaluateImmediate`; `disposeNow` is what `disposeWhen()` returns. */
  function EvaluateImmediate(w: World, id: Identity, disposeNow: bool, read: ReadOutcome): (World, Evaluation) {
    if w.n.isBeingEvaluated || !w.n.needsEvaluation then (w, Skipped)
    else if disposeNow then (Dispose(w), DisposedByWhen)
    else Evaluate(w, id, read)
  }

  /** `evaluateInitial`: no guard, no disposal and no notifications. The
      boolean says whether the read returned. */
  function EvaluateInitial(w: World, id: Identity, read: ReadOutcome): (World, bool) {
    var w2 := ReadInFrame(w.(n := w.n.(isBeingEvaluated := true)), id, read.registered);
    if read.Throws? then (w2, false)
    else (w2.(n := w2.n.(latestValue := read.value, needsEvaluation := false, isBeingEvaluated := false)), true)
  }

  /** The tail of `evaluatePossiblyAsync`: when the chosen route reported
      new work, notify "dirty" with the current value, and if the node is
      clean again and a throttle value is set, clear the throttle timer. */
  function AfterRoute(w: World, notify: bool, throttle: int): World {
    if !notify then w
    else
      var n1 := w.n.(notes := w.n.notes + [Note(w.n.latestValue, Dirty)]);
      if !n1.needsEvaluation && throttle != 0 then w.(n := n1, t := ClearTimer(w.t, n1.timer))
      else w.(n := n1)
  }

  /** `evaluatePossiblyAsync`, run when a dependency notifies. The boolean
      says whether the read threw (only the immediate route reads). */
  function PossiblyAsync(w: World, id: Identity, disposeNow: bool, read: ReadOutcome): (World, bool) {
    var wasClean := !w.n.needsEvaluation;
    var w1 := w.(n := w.n.(needsEvaluation := true));
    var throttle := w.n.throttleEvaluation;
    if throttle > 0 then
      var (t2, h) := SetTimer(ClearTimer(w.t, w.n.timer), Timer(id.evaluator, throttle));
      (AfterRoute(w1.(n := w1.n.(timer := Some(h)), t := t2), wasClean, throttle), false)
    else if DeferEffective(w.k.deferUpdates, w.n.deferUpdates) then
      var (q1, added) := Delayed(w.q, Call(id.evaluator, true, Extras(None, [], id.node)));
      (AfterRoute(w1.(q := q1), added, throttle), false)
    else
      var (w2, e) := EvaluateImmediate(w1, id, disposeNow, read);
      if e == ReadThrew then (w2, true) else (AfterRoute(w2, e == Evaluated, throttle), false)
  }

  /** The throttle timer fires: the timer is gone and `evaluateImmediate`
      runs. The source runs it inside a `processImmediate` scope, whose
      closing flush would run whatever deferred subscribers of this node
      queue when they receive its notifications; notifications are logged
      here rather than delivered, so that scope and its flush are left out. */
  function FireThrottleTimer(w: World, id: Identity, disposeNow: bool, read: ReadOutcome): (World, Evaluation)
    requires w.n.timer.Some?
  {
    EvaluateImmediate(w.(t := ClearTimer(w.t, w.n.timer)), id, disposeNow, read)
  }

  datatype GetResult = Value(value: JsValue) | GetThrew

  /** Reading the computed: evaluate first when dirty, register the node in
      the caller's frame, return `_latestValue`. */
  function Get(w: World, id: Identity, disposeNow: bool, read: ReadOutcome): (World, GetResult) {
    var (w1, e) := if w.n.needsEvaluation then EvaluateImmediate(w, id, disposeNow, read) else (w, Skipped);
    if e == ReadThrew then (w1, GetThrew)
    else (w1.(k := Registered(w1.k, id.self).0), Value(w1.n.latestValue))
  }

  /** One notification reaching the node from a dependency while the write
      function runs. */
  datatype Reaction = Reaction(disposeNow: bool, read: ReadOutcome)

  /** What the write function does: the notifications it causes to reach
      this node, and whether it then throws. */
  datatype WriteScript = WriteScript(reactions: seq<Reaction>, throws: bool)

  datatype SetResult = Written | NoWriteFunction | WriteThrew

  /** The reactions in order; the boolean says whether one of them threw. */
  function React(w: World, id: Identity, rs: seq<Reaction>): (World, bool)
    decreases |rs|
  {
    if rs == [] then (w, false)
    else
      var (w1, raised) := PossiblyAsync(w, id, rs[0].disposeNow, rs[0].read);
      if raised then (w1, true) else React(w1, id, rs[1..])
  }

  /** Writing the computed: throw without a write function; otherwise set
      `deferUpdates` to false, run the write, and put the saved value back
      only when the write returns. */
  function Set(w: World, id: Identity, hasWrite: bool, write: WriteScript): (World, SetResult) {
    if !hasWrite then (w, NoWriteFunction)
    else
      var saved := w.n.deferUpdates;
      var (w1, raised) := React(w.(n := w.n.(deferUpdates := Off)), id, write.reactions);
      if raised || write.throws then (w1, WriteThrew)
      else (w1.(n := w1.n.(deferUpdates := saved)), Written)
  }

  // ---------------------------------------------------------------------
  // Construction

  /** The `read`, `write` and `deferEvaluation` entries of an options object,
      as far as construction looks at them. An absent options object has
      none of them. */
  datatype Options = Options(readIsFunction: bool, writeIsFunction: bool, deferEvaluation: bool)

  const NoOptions := Options(false, false, false)

  /** The first argument of `ko.computed`. */
  datatype FirstArgument = FunctionArg | OptionsArg(options: Options) | FalsyArg | OtherArg

  /** Which options apply and whether the read function is a function. An
      options object as first argument replaces the third argument. */
  function Resolve(first: FirstArgument, third: Options): (Options, bool) {
    match first
    case OptionsArg(o) => (o, o.readIsFunction)
    case FunctionArg => (third, true)
    case FalsyArg => (third, third.readIsFunction)
    case OtherArg => (third, false)
  }

  datatype Construction = NotAFunction | InitialReadThrew | Built(hasWrite: bool)

  /** `newComputed(first, target, third)`: throws unless the read function
      is a function; evaluates once unless `deferEvaluation` is true. */
  function NewComputed(w: World, id: Identity, first: FirstArgument, third: Options, read: ReadOutcome): (World, Construction) {
    var (opts, readOk) := Resolve(first, third);
    if !readOk then (w, NotAFunction)
    else
      var w0 := w.(n := Fresh);
      if opts.deferEvaluation then (w0, Built(opts.writeIsFunction))
      else
        var (w1, ok) := EvaluateInitial(w0, id, read);
        if ok then (w1, Built(opts.writeIsFunction)) else (w1, InitialReadThrew)
  }
}
