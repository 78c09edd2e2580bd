/** The state and the transitions of `ko.tasks`, the plugin's deferred task
    queue, written as functions over a value of the whole queue state.
    The class `Tasks.Queue` performs the same transitions in place and is
    proved against these functions; the lemmas in `TaskProperties` state
    what the queue promises. */
module TaskSpec {
  import opened Base

  /** The optional fields a caller of `processDelayed` merges into a record:
      the callback's `this`, its arguments (absent arguments are `[]`) and
      the DOM node of a deferred binding update. */
  datatype Extras = Extras(target: Option<Target>, args: seq<JsValue>, node: Option<NodeToken>)

  const NoExtras := Extras(None, [], None)

  /** One entry of `evaluatorsArray`. The serial number stands for the
      identity of the record object. */
  datatype Record = Record(serial: nat, evaluator: EvaluatorId, extras: Extras)

  /** A call of an evaluator: which one, on what `this`, with what arguments. */
  datatype Invocation = Invocation(evaluator: EvaluatorId, target: Option<Target>, args: seq<JsValue>)

  /** One `processDelayed(evaluator, distinct, extras)` call. */
  datatype Call = Call(evaluator: EvaluatorId, distinct: bool, extras: Extras)

  /** What an evaluator does when it is invoked: the `processDelayed` calls
      it makes, in order, and then either it throws or it returns `result`. */
  datatype Script = Script(calls: seq<Call>, throws: bool, result: JsValue)

  /** The program's evaluators, as far as the queue can observe them. */
  type Behaviour = Invocation -> Script

  /** An entry of the log of evaluator runs made by the queue: the serial of
      the record that was run and the invocation that was made. */
  datatype Run = Run(serial: nat, invocation: Invocation)

  /** How a flush or a sweep ended: it reached its end, an evaluator threw,
      or the number of runs the model allows was used up. */
  datatype Outcome = Normal | Raised | OutOfFuel

  /** How `processImmediate` ended. */
  datatype ImmediateResult = Returned(value: JsValue) | Threw | Exhausted

  /** The module-level state of `ko.tasks`:
      - `records` is `evaluatorsArray`;
      - `stack` is `taskStack`, the checkpoint lengths;
      - `indexProcessing` is the index a top-level flush is running;
      - `handler` says whether `evaluatorHandler` is set;
      - `nativePending` counts flush callbacks queued with the host and not yet fired;
      - `nextSerial` numbers the records;
      - `runs` logs every evaluator run the queue made. */
  datatype QState = QState(
    records: seq<Record>,
    stack: seq<nat>,
    indexProcessing: Option<nat>,
    handler: bool,
    nativePending: nat,
    nextSerial: nat,
    runs: seq<Run>)

  const Idle := QState([], [], None, false, 0, 0, [])

  /** The queue's consistency conditions. */
  ghost predicate Inv(s: QState) {
    && (forall k :: 0 <= k < |s.stack| ==> s.stack[k] <= |s.records|)
    && (forall k, l :: 0 <= k < l < |s.stack| ==> s.stack[k] <= s.stack[l])
    && (s.indexProcessing.Some? ==> s.indexProcessing.value < |s.records|)
    && (s.handler ==> s.records != [])
    && s.nativePending == (if s.handler then 1 else 0)
    // pending work outside every scope and flush always has a flush coming
    && (s.stack == [] && s.indexProcessing == None && s.records != [] ==> s.handler)
    && (forall k, l :: 0 <= k < l < |s.records| ==> s.records[k].serial < s.records[l].serial)
    && (forall k :: 0 <= k < |s.records| ==> s.records[k].serial < s.nextSerial)
  }

  function InvocationOf(r: Record): Invocation {
    Invocation(r.evaluator, r.extras.target, r.extras.args)
  }

  /** Where the duplicate scan starts: `indexProcessing || 0`. */
  function ScanStart(s: QState): nat {
    match s.indexProcessing
    case Some(i) => i
    case None => 0
  }

  /** `isEvaluatorDuplicate`: a record with this evaluator sits at or after
      the scan start. */
  predicate IsDuplicate(s: QState, evaluator: EvaluatorId) {
    exists k :: ScanStart(s) <= k < |s.records| && s.records[k].evaluator == evaluator
  }

  /** Nothing holds a native flush back: no checkpoint is open, no top-level
      flush is running and none is outstanding. */
  predicate RequestsFlush(s: QState) {
    s.stack == [] && s.indexProcessing == None && !s.handler
  }

  /** `processDelayed`: the new state and the value it returns. */
  function Delayed(s: QState, c: Call): (QState, bool) {
    if c.distinct && IsDuplicate(s, c.evaluator) then (s, false)
    else
      var s1 := s.(records := s.records + [Record(s.nextSerial, c.evaluator, c.extras)],
                   nextSerial := s.nextSerial + 1);
      if RequestsFlush(s) then (s1.(handler := true, nativePending := s.nativePending + 1), true)
      else (s1, true)
  }

  /** The `processDelayed` calls of one evaluator run, in order. */
  function RunCalls(s: QState, calls: seq<Call>): (r: QState)
    ensures s.records <= r.records
    ensures r.stack == s.stack && r.indexProcessing == s.indexProcessing && r.runs == s.runs
    decreases |calls|
  {
    if calls == [] then s else RunCalls(Delayed(s, calls[0]).0, calls[1..])
  }

  /** Runs one evaluator: logs the run, then performs its script's calls.
      The boolean says whether it threw. */
  function RunOne(s: QState, b: Behaviour, serial: nat, inv: Invocation): (QState, bool) {
    (RunCalls(s.(runs := s.runs + [Run(serial, inv)]), b(inv).calls), b(inv).throws)
  }

  /** The loop of `processEvaluators(start)` from index `i`, before its
      `finally` block: runs records by index up to the current end of the
      list, which running evaluators may extend. In a top-level flush
      (`start == 0`) it records the index in `indexProcessing`. */
  function FlushFrom(s: QState, b: Behaviour, start: nat, i: nat, fuel: nat): (r: (QState, Outcome))
    ensures s.records <= r.0.records
    ensures r.0.stack == s.stack
    decreases fuel
  {
    if i >= |s.records| then (s, Normal)
    else if fuel == 0 then (s, OutOfFuel)
    else
      var (s2, thrown) := FlushStep(s, b, start, i);
      if thrown then (s2, Raised) else FlushFrom(s2, b, start, i + 1, fuel - 1)
  }

  /** One step of the loop of `processEvaluators(start)`: in a top-level
      flush it records `i` in `indexProcessing`, then runs record `i`. */
  function FlushStep(s: QState, b: Behaviour, start: nat, i: nat): (QState, bool)
    requires i < |s.records|
  {
    var rec := s.records[i];
    var s1 := if start == 0 then s.(indexProcessing := Some(i)) else s;
    RunOne(s1, b, rec.serial, InvocationOf(rec))
  }

  /** The `finally` block of `processEvaluators(start)`. */
  function Finish(s: QState, start: nat): QState
    requires start <= |s.records|
  {
    if start > 0 then s.(records := s.records[..start])
    else s.(records := [], indexProcessing := None, handler := false)
  }

  /** `processEvaluators(start)`. */
  function ProcessEvaluators(s: QState, b: Behaviour, start: nat, fuel: nat): (QState, Outcome)
    requires start <= |s.records|
  {
    var (s1, o) := FlushFrom(s, b, start, start, fuel);
    (Finish(s1, start), o)
  }

  /** `popTaskState`. */
  function PopTaskState(s: QState, b: Behaviour, fuel: nat): (QState, Outcome)
    requires s.stack != [] && s.stack[|s.stack| - 1] <= |s.records|
  {
    var n := s.stack[|s.stack| - 1];
    var s1 := s.(stack := s.stack[..|s.stack| - 1]);
    if |s1.records| > n then ProcessEvaluators(s1, b, n, fuel) else (s1, Normal)
  }

  /** `processImmediate(evaluator, object, args)`: push a checkpoint, run the
      evaluator, and pop the checkpoint in `finally`. An exception raised
      while popping replaces the evaluator's own outcome. */
  function Immediate(s: QState, b: Behaviour, inv: Invocation, fuel: nat): (QState, ImmediateResult) {
    var s1 := s.(stack := s.stack + [|s.records|]);
    var s2 := RunCalls(s1, b(inv).calls);
    var (s3, o) := PopTaskState(s2, b, fuel);
    (s3, if o == Raised then Threw
         else if o == OutOfFuel then Exhausted
         else if b(inv).throws then Threw
         else Returned(b(inv).result))
  }

  /** `processEvaluatorsCallback`, fired by the host: one queued native
      flush callback is consumed and a top-level flush runs. */
  function NativeFlush(s: QState, b: Behaviour, fuel: nat): (QState, Outcome)
    requires s.nativePending > 0
  {
    ProcessEvaluators(s.(nativePending := s.nativePending - 1), b, 0, fuel)
  }

  /** Which records a deferred-binding sweep runs:
      `processDeferredBindingUpdatesForNode(node)` takes those whose node
      equals `node`, `processAllDeferredBindingUpdates` those with any node. */
  datatype NodeFilter = ForNode(node: Option<NodeToken>) | AnyNode

  predicate Selects(f: NodeFilter, r: Record) {
    match f
    case ForNode(n) => r.extras.node == n
    case AnyNode => r.extras.node.Some?
  }

  /** A sweep over indices `i` to `j` (the length on entry): each selected
      record's evaluator is called with no `this` and no arguments. Records
      stay in the list; an exception ends the sweep. */
  function Sweep(s: QState, b: Behaviour, f: NodeFilter, i: nat, j: nat): (r: (QState, Outcome))
    requires j <= |s.records|
    ensures s.records <= r.0.records
    decreases j - i
  {
    if i >= j then (s, Normal)
    else if Selects(f, s.records[i]) then
      var (s1, thrown) := RunOne(s, b, s.records[i].serial, Invocation(s.records[i].evaluator, None, []));
      if thrown then (s1, Raised) else Sweep(s1, b, f, i + 1, j)
    else Sweep(s, b, f, i + 1, j)
  }

  // Views used to state which records ran.

  function RunsOf(rs: seq<Record>): (r: seq<Run>)
    ensures |r| == |rs|
  {
    seq(|rs|, k requires 0 <= k < |rs| => Run(rs[k].serial, InvocationOf(rs[k])))
  }

  function Serials(rs: seq<Record>): (r: seq<nat>)
    ensures |r| == |rs|
  {
    seq(|rs|, k requires 0 <= k < |rs| => rs[k].serial)
  }

  function RunSerials(rs: seq<Run>): (r: seq<nat>)
    ensures |r| == |rs|
  {
    seq(|rs|, k requires 0 <= k < |rs| => rs[k].serial)
  }

  /** The numbers `lo`, `lo + 1`, ..., `hi - 1`. */
  function Range(lo: nat, hi: nat): (r: seq<nat>)
    ensures |r| == if lo <= hi then hi - lo else 0
  {
    if lo <= hi then seq(hi - lo, k requires 0 <= k < hi - lo => lo + k) else []
  }

  /** The runs a sweep makes over `rs`, in order. */
  function SweepRuns(rs: seq<Record>, f: NodeFilter): seq<Run> {
    if rs == [] then []
    else (if Selects(f, rs[0]) then [Run(rs[0].serial, Invocation(rs[0].evaluator, None, []))] else [])
         + SweepRuns(rs[1..], f)
  }
}
