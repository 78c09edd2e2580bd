/** What a computed built by `newComputed` promises, proved about the
    transition functions of `ComputedSpec`. */
module ComputedProperties {
  import opened Base
  import opened TaskSpec
  import opened Routing
  import opened Knockout
  import opened Host
  import opened ComputedSpec

  // ---------------------------------------------------------------------
  // Helpers

  /** `Distinct` keeps every registered source and repeats none. */
  lemma {:induction false} DistinctFacts(rs: seq<Source>)
    ensures forall s :: s in Distinct(rs) <==> s in rs
    ensures forall i, j :: 0 <= i < j < |Distinct(rs)| ==> Distinct(rs)[i] != Distinct(rs)[j]
    decreases |rs|
  {
    if rs != [] {
      var p := rs[..|rs| - 1];
      DistinctFacts(p);
      assert rs == p + [rs[|rs| - 1]];
    }
  }

  lemma SubsForSnoc(h: nat, d: seq<Source>, x: Source, id: Identity)
    ensures SubsFor(h, d + [x], id)
         == SubsFor(h, d, id) + [Subscription(h + |d|, x, EventFor(x), Raw(id.possiblyAsync, None))]
  {
    var a := SubsFor(h, d + [x], id);
    var c := SubsFor(h, d, id) + [Subscription(h + |d|, x, EventFor(x), Raw(id.possiblyAsync, None))];
    forall j | 0 <= j < |a| ensures a[j] == c[j] {
      if j < |d| {
        assert (d + [x])[j] == d[j];
      }
    }
  }

  /** Capturing a read in a new frame: the frame ends up holding each
      registered source once, and one subscription per source in it is
      appended, with consecutive new handles. */
  lemma {:induction false} CaptureSubscribesOncePerSource(n: NodeState, k: KoState, id: Identity, regs: seq<Source>)
    requires k.frames != [] && k.frames[|k.frames| - 1] == []
    ensures var (n', k') := Capture(n, k, id, regs);
      && k'.frames[|k'.frames| - 1] == Distinct(regs)
      && n'.subs == n.subs + SubsFor(k.nextHandle, Distinct(regs), id)
      && k'.live == k.live + SubsFor(k.nextHandle, Distinct(regs), id)
      && k'.nextHandle == k.nextHandle + |Distinct(regs)|
    decreases |regs|
  {
    if regs == [] {
      assert SubsFor(k.nextHandle, [], id) == [];
    } else {
      var p, x := regs[..|regs| - 1], regs[|regs| - 1];
      CaptureSubscribesOncePerSource(n, k, id, p);
      var (n1, k1) := Capture(n, k, id, p);
      assert Capture(n, k, id, regs) == CaptureOne(n1, k1, id, x);
      assert Distinct(regs) == if x in Distinct(p) then Distinct(p) else Distinct(p) + [x];
      CaptureSnoc(n, k, id, n1, k1, Distinct(p), x);
    }
  }

  /** The inductive step of `CaptureSubscribesOncePerSource`. */
  lemma CaptureSnoc(n: NodeState, k: KoState, id: Identity, n1: NodeState, k1: KoState, d: seq<Source>, x: Source)
    requires k1.frames != [] && k1.frames[|k1.frames| - 1] == d
    requires n1.subs == n.subs + SubsFor(k.nextHandle, d, id)
    requires k1.live == k.live + SubsFor(k.nextHandle, d, id)
    requires k1.nextHandle == k.nextHandle + |d|
    ensures var (n2, k2) := CaptureOne(n1, k1, id, x);
      var d2 := if x in d then d else d + [x];
      && k2.frames[|k2.frames| - 1] == d2
      && n2.subs == n.subs + SubsFor(k.nextHandle, d2, id)
      && k2.live == k.live + SubsFor(k.nextHandle, d2, id)
      && k2.nextHandle == k.nextHandle + |d2|
  {
    CaptureOneFacts(n1, k1, id, x);
    if x !in d {
      var sp := SubsFor(k.nextHandle, d, id);
      var sub := Subscription(k.nextHandle + |d|, x, EventFor(x), Raw(id.possiblyAsync, None));
      SubsForSnoc(k.nextHandle, d, x, id);
      assert n.subs + sp + [sub] == n.subs + (sp + [sub]);
      assert k.live + sp + [sub] == k.live + (sp + [sub]);
    }
  }

  /** One registration in a frame: a source already in the frame changes
      nothing; a new one joins the frame and gets one subscription. */
  lemma CaptureOneFacts(n: NodeState, k: KoState, id: Identity, x: Source)
    requires k.frames != []
    ensures var (n1, k1) := CaptureOne(n, k, id, x);
      var top := k.frames[|k.frames| - 1];
      var sub := Subscription(k.nextHandle, x, EventFor(x), Raw(id.possiblyAsync, None));
      && (x in top ==> n1 == n && k1 == k)
      && (x !in top ==> k1.frames[|k1.frames| - 1] == top + [x]
                        && n1.subs == n.subs + [sub] && k1.live == k.live + [sub]
                        && k1.nextHandle == k.nextHandle + 1)
  {
  }

  /** The handles of the node's subscriptions were all handed out already. */
  ghost predicate HandlesIssued(w: World) {
    forall s :: s in w.n.subs ==> s.handle < w.k.nextHandle
  }

  /** A read in a new frame adds only subscriptions with handles it has
      just handed out. */
  lemma ReadInFrameIssues(w: World, id: Identity, regs: seq<Source>)
    requires HandlesIssued(w)
    ensures HandlesIssued(ReadInFrame(w, id, regs))
  {
    var k0 := w.k.(frames := w.k.frames + [[]]);
    CaptureSubscribesOncePerSource(w.n, k0, id, regs);
    var sf := SubsFor(w.k.nextHandle, Distinct(regs), id);
    assert forall j :: 0 <= j < |sf| ==> sf[j].handle < w.k.nextHandle + |Distinct(regs)|;
  }

  lemma EvaluateImmediateIssues(w: World, id: Identity, disposeNow: bool, read: ReadOutcome)
    requires HandlesIssued(w)
    ensures HandlesIssued(EvaluateImmediate(w, id, disposeNow, read).0)
  {
    if !w.n.isBeingEvaluated && w.n.needsEvaluation && !disposeNow {
      var (n1, k1) := DisposeAll(w.n.(isBeingEvaluated := true), w.k);
      ReadInFrameIssues(w.(n := n1, k := k1), id, read.registered);
    }
  }

  lemma DropGone(live: seq<Subscription>, hs: set<nat>, s: Subscription)
    requires s.handle in hs
    ensures s !in Drop(live, hs)
  {
    DropRemovesExactly(live, hs);
  }

  // ---------------------------------------------------------------------
  // evaluateImmediate

  /** `evaluateImmediate` returns false and changes nothing exactly when the
      node is already evaluating or not dirty; otherwise `disposeWhen`
      decides between disposal and a run, and a run returns true exactly
      when the read returns. It never touches the queue or the timers, and
      leaves the dependency-detection frames as they were. */
  lemma EvaluateImmediateOutcome(w: World, id: Identity, disposeNow: bool, read: ReadOutcome)
    ensures var (w', e) := EvaluateImmediate(w, id, disposeNow, read);
      && (e == Skipped <==> w.n.isBeingEvaluated || !w.n.needsEvaluation)
      && (e == Skipped ==> w' == w)
      && (e == DisposedByWhen <==> !w.n.isBeingEvaluated && w.n.needsEvaluation && disposeNow)
      && (e == DisposedByWhen ==> w' == Dispose(w))
      && (e == Evaluated <==> !w.n.isBeingEvaluated && w.n.needsEvaluation && !disposeNow && read.Returns?)
      && w'.q == w.q && w'.t == w.t && w'.k.frames == w.k.frames
      && w'.n.deferUpdates == w.n.deferUpdates && w'.n.throttleEvaluation == w.n.throttleEvaluation
      && w'.n.timer == w.n.timer
  {
  }

  /** The state a successful evaluation leaves, piece by piece. */
  lemma EvaluatedState(w: World, id: Identity, disposeNow: bool, read: ReadOutcome)
    requires EvaluateImmediate(w, id, disposeNow, read).1 == Evaluated
    ensures var w' := EvaluateImmediate(w, id, disposeNow, read).0;
            var renewed := SubsFor(w.k.nextHandle, Distinct(read.registered), id);
      && w'.n.notes == w.n.notes + [Note(w.n.latestValue, BeforeChange), Note(read.value, Change)]
      && w'.n.latestValue == read.value
      && !w'.n.needsEvaluation && !w'.n.isBeingEvaluated
      && w'.n.subs == renewed
      && w'.k.live == Drop(w.k.live, Handles(w.n.subs)) + renewed
      && w'.k.nextHandle == w.k.nextHandle + |renewed|
  {
    var (n1, k1) := DisposeAll(w.n.(isBeingEvaluated := true), w.k);
    CaptureSubscribesOncePerSource(n1, k1.(frames := k1.frames + [[]]), id, read.registered);
  }

  /** A successful evaluation notifies "beforeChange" with the old value and
      then "change" with the new one, stores the new value, leaves the node
      clean and not evaluating, and leaves it subscribed exactly once to
      each source the read registered (a computed on "dirty", anything else
      on "change"), every older subscription having been disposed. */
  lemma EvaluatedResubscribes(w: World, id: Identity, disposeNow: bool, read: ReadOutcome)
    requires HandlesIssued(w)
    requires EvaluateImmediate(w, id, disposeNow, read).1 == Evaluated
    ensures var w' := EvaluateImmediate(w, id, disposeNow, read).0;
            var renewed := SubsFor(w.k.nextHandle, Distinct(read.registered), id);
      && w'.n.notes == w.n.notes + [Note(w.n.latestValue, BeforeChange), Note(read.value, Change)]
      && w'.n.latestValue == read.value
      && !w'.n.needsEvaluation && !w'.n.isBeingEvaluated
      && w'.n.subs == renewed
      && (forall s :: s in read.registered <==> exists j :: 0 <= j < |renewed| && renewed[j].source == s)
      && (forall i, j :: 0 <= i < j < |renewed| ==> renewed[i].source != renewed[j].source)
      && (forall j :: 0 <= j < |renewed| ==> renewed[j].event == (if renewed[j].source.isComputed then Dirty else Change))
      && w'.k.live == Drop(w.k.live, Handles(w.n.subs)) + renewed
      && (forall s :: s in w.n.subs ==> s !in w'.k.live)
      && HandlesIssued(w')
  {
    EvaluatedState(w, id, disposeNow, read);
    var w' := EvaluateImmediate(w, id, disposeNow, read).0;
    var d := Distinct(read.registered);
    var renewed := SubsFor(w.k.nextHandle, d, id);
    DistinctFacts(read.registered);
    forall s | s in read.registered
      ensures exists j :: 0 <= j < |renewed| && renewed[j].source == s
    {
      var j :| 0 <= j < |d| && d[j] == s;
      assert renewed[j].source == s;
    }
    forall s | s in w.n.subs
      ensures s !in w'.k.live
    {
      DropGone(w.k.live, Handles(w.n.subs), s);
      assert s !in renewed;
    }
  }

  /** When the read throws, the exception leaves `_isBeingEvaluated` set (it
      is cleared only on a normal exit) and the node marked clean, so every
      later `evaluateImmediate` returns false at the guard and changes
      nothing. */
  lemma ReadThrowWedgesNode(w: World, id: Identity, disposeNow: bool, read: ReadOutcome)
    requires EvaluateImmediate(w, id, disposeNow, read).1 == ReadThrew
    ensures var w' := EvaluateImmediate(w, id, disposeNow, read).0;
      && w'.n.isBeingEvaluated && !w'.n.needsEvaluation
      && w'.n.latestValue == w.n.latestValue && w'.n.notes == w.n.notes
      && forall d, r :: EvaluateImmediate(w', id, d, r) == (w', Skipped)
  {
  }

  /** A node that is evaluating answers a read with its stored value and
      does not evaluate; this is how a read of a wedged node behaves for
      ever after. */
  lemma BusyNodeReadsStale(w: World, id: Identity, disposeNow: bool, read: ReadOutcome)
    requires w.n.isBeingEvaluated
    ensures Get(w, id, disposeNow, read).1 == Value(w.n.latestValue)
    ensures Get(w, id, disposeNow, read).0.n == w.n
  {
  }

  // ---------------------------------------------------------------------
  // dispose

  /** Disposal empties the dependency list, disposes each of its
      subscriptions, clears `_needsEvaluation`, and is safe to repeat: a
      second disposal changes nothing. */
  lemma DisposeIsIdempotent(w: World)
    ensures Dispose(w).n.subs == [] && !Dispose(w).n.needsEvaluation
    ensures forall s :: s in Dispose(w).k.live <==> s in w.k.live && s.handle !in Handles(w.n.subs)
    ensures Dispose(Dispose(w)) == Dispose(w)
  {
    DropRemovesExactly(w.k.live, Handles(w.n.subs));
    var w1 := Dispose(w);
    assert Handles(w1.n.subs) == {};
    DropNothing(w1.k.live, {});
  }

  // ---------------------------------------------------------------------
  // evaluatePossiblyAsync

  /** With a positive `throttleEvaluation`, a notification replaces the
      pending throttle timer by a renewed one that will run `evaluateImmediate`,
      leaves the node dirty, queues nothing, and notifies "dirty" only if the
      node was clean before. */
  lemma ThrottleRoute(w: World, id: Identity, disposeNow: bool, read: ReadOutcome)
    requires TimersInv(w.t) && w.n.throttleEvaluation > 0
    requires w.n.timer.Some? ==> w.n.timer.value < w.t.next
    ensures var (w', raised) := PossiblyAsync(w, id, disposeNow, read);
      && !raised && w'.q == w.q && w'.k == w.k
      && w'.n.needsEvaluation
      && w'.n.timer.Some? && w'.n.timer.value !in w.t.pending
      && w'.t.pending == ClearTimer(w.t, w.n.timer).pending[w'.n.timer.value := Timer(id.evaluator, w.n.throttleEvaluation)]
      && (w.n.timer.Some? ==> w.n.timer.value !in w'.t.pending)
      && w'.n.notes == w.n.notes + (if w.n.needsEvaluation then [] else [Note(w.n.latestValue, Dirty)])
      && TimersInv(w'.t)
  {
  }

  /** Without a positive throttle and with deferred mode in effect, a
      notification makes one distinct `processDelayed` of `evaluateImmediate`
      carrying the node's DOM node, leaves the node dirty, and notifies
      "dirty" exactly when that call queued a task. */
  lemma DeferredRoute(w: World, id: Identity, disposeNow: bool, read: ReadOutcome)
    requires w.n.throttleEvaluation <= 0 && DeferEffective(w.k.deferUpdates, w.n.deferUpdates)
    ensures var (w', raised) := PossiblyAsync(w, id, disposeNow, read);
            var (q1, added) := Delayed(w.q, Call(id.evaluator, true, Extras(None, [], id.node)));
      && !raised && w'.q == q1 && w'.t == w.t && w'.k == w.k
      && w'.n == w.n.(needsEvaluation := true,
                      notes := w.n.notes + (if added then [Note(w.n.latestValue, Dirty)] else []))
  {
  }

  /** Otherwise the node evaluates at once: it queues nothing, the
      notification propagates an exception of the read, and "dirty" is
      notified exactly when `evaluateImmediate` returned true, after which
      the throttle timer is cleared if a throttle value is set. */
  lemma ImmediateRoute(w: World, id: Identity, disposeNow: bool, read: ReadOutcome)
    requires w.n.throttleEvaluation <= 0 && !DeferEffective(w.k.deferUpdates, w.n.deferUpdates)
    ensures var (w', raised) := PossiblyAsync(w, id, disposeNow, read);
            var (w2, e) := EvaluateImmediate(w.(n := w.n.(needsEvaluation := true)), id, disposeNow, read);
      && w'.q == w.q
      && raised == (e == ReadThrew)
      && (e != Evaluated ==> w' == w2)
      && (e == Evaluated ==> w'.n.notes == w2.n.notes + [Note(read.value, Dirty)] && w'.k == w2.k)
      && (e == Evaluated && w.n.throttleEvaluation != 0 && w.n.timer.Some? ==> w.n.timer.value !in w'.t.pending)
  {
  }

  /** Queuing a distinct task makes its evaluator a duplicate for the rest
      of the flush-free interval, whether the call queued it or refused it
      as a duplicate already. */
  lemma DelayedMakesDuplicate(q: QState, c: Call)
    requires Inv(q) && c.distinct
    ensures IsDuplicate(Delayed(q, c).0, c.evaluator)
  {
    var (q1, added) := Delayed(q, c);
    if added {
      var k := |q.records|;
      assert q1.records[k].evaluator == c.evaluator;
      assert ScanStart(q1) <= k;
    }
  }

  /** In deferred mode, a second notification before the queued evaluation
      runs changes nothing at all: the node is already dirty and its
      `evaluateImmediate` is already pending, so no second task is queued
      and no second "dirty" is notified. */
  lemma DeferredNotificationsCoalesce(w: World, id: Identity, d1: bool, r1: ReadOutcome, d2: bool, r2: ReadOutcome)
    requires Inv(w.q)
    requires w.n.throttleEvaluation <= 0 && DeferEffective(w.k.deferUpdates, w.n.deferUpdates)
    ensures var w1 := PossiblyAsync(w, id, d1, r1).0;
            PossiblyAsync(w1, id, d2, r2) == (w1, false)
  {
    var c := Call(id.evaluator, true, Extras(None, [], id.node));
    DeferredRoute(w, id, d1, r1);
    DelayedMakesDuplicate(w.q, c);
    var w1 := PossiblyAsync(w, id, d1, r1).0;
    DeferredRoute(w1, id, d2, r2);
  }

  // ---------------------------------------------------------------------
  // get and set

  /** Reading evaluates first only when the node is dirty, returns the
      stored value afterwards, and registers the node in the caller's
      frame. */
  lemma GetReturnsLatest(w: World, id: Identity, disposeNow: bool, read: ReadOutcome)
    ensures var (w', g) := Get(w, id, disposeNow, read);
      && (!w.n.needsEvaluation ==> g == Value(w.n.latestValue) && w'.n == w.n)
      && (g.Value? ==> g.value == w'.n.latestValue)
      && (g.Value? && w.k.frames != [] ==> id.self in w'.k.frames[|w'.k.frames| - 1])
      && (w.n.needsEvaluation && !w.n.isBeingEvaluated && !disposeNow && read.Returns? ==> g == Value(read.value))
      && (g == GetThrew <==> w.n.needsEvaluation && !w.n.isBeingEvaluated && !disposeNow && read.Throws?)
  {
    EvaluateImmediateOutcome(w, id, disposeNow, read);
  }

  /** While the write function runs, `deferUpdates` is false, so with no
      positive throttle every notification it causes evaluates the node at
      once and queues nothing: a node that was not already evaluating is
      still not evaluating afterwards unless a read threw, and when the last
      notification's read returned (and `disposeWhen` did not dispose the
      node), the node is clean and holds that read's value. */
  lemma {:induction false} ReactionsAreImmediate(w: World, id: Identity, rs: seq<Reaction>)
    requires w.n.deferUpdates == Off && w.n.throttleEvaluation <= 0
    ensures var w' := React(w, id, rs).0;
      && w'.q == w.q && w'.n.deferUpdates == Off && w'.n.throttleEvaluation == w.n.throttleEvaluation
    ensures var (w', raised) := React(w, id, rs);
      !w.n.isBeingEvaluated && !raised ==> !w'.n.isBeingEvaluated
    ensures var (w', raised) := React(w, id, rs);
      !w.n.isBeingEvaluated && !raised && rs != []
      && !rs[|rs| - 1].disposeNow && rs[|rs| - 1].read.Returns? ==>
        w'.n.latestValue == rs[|rs| - 1].read.value && !w'.n.needsEvaluation
    decreases |rs|
  {
    if rs != [] {
      var w0 := w.(n := w.n.(needsEvaluation := true));
      ImmediateRoute(w, id, rs[0].disposeNow, rs[0].read);
      EvaluateImmediateOutcome(w0, id, rs[0].disposeNow, rs[0].read);
      var (w1, raised) := PossiblyAsync(w, id, rs[0].disposeNow, rs[0].read);
      if !raised {
        if !w.n.isBeingEvaluated && !rs[0].disposeNow && rs[0].read.Returns? {
          EvaluatedState(w0, id, rs[0].disposeNow, rs[0].read);
        }
        ReactionsAreImmediate(w1, id, rs[1..]);
        if |rs| > 1 {
          assert rs[1..][|rs[1..]| - 1] == rs[|rs| - 1];
        }
      }
    }
  }

  /** With `deferUpdates` false, no notification queues a task, whatever
      the throttle: a throttled node sets a timer, any other evaluates at
      once. */
  lemma {:induction false} ReactionsQueueNothing(w: World, id: Identity, rs: seq<Reaction>)
    requires w.n.deferUpdates == Off
    ensures React(w, id, rs).0.q == w.q
    decreases |rs|
  {
    if rs != [] {
      if w.n.throttleEvaluation <= 0 {
        EvaluateImmediateOutcome(w.(n := w.n.(needsEvaluation := true)), id, rs[0].disposeNow, rs[0].read);
      }
      var (w1, raised) := PossiblyAsync(w, id, rs[0].disposeNow, rs[0].read);
      if !raised {
        ReactionsKeepDeferSetting(w1, id, []);
        assert w1.n.deferUpdates == Off by {
          EvaluateImmediateOutcome(w.(n := w.n.(needsEvaluation := true)), id, rs[0].disposeNow, rs[0].read);
        }
        ReactionsQueueNothing(w1, id, rs[1..]);
      }
    }
  }

  /** Writing throws without a write function and changes nothing. With one,
      the node's own dependencies update synchronously during the write
      (nothing is queued), and the saved `deferUpdates` is put back only
      when the write returns. */
  lemma SetContract(w: World, id: Identity, hasWrite: bool, write: WriteScript)
    ensures var (w', r) := Set(w, id, hasWrite, write);
      && (r == NoWriteFunction <==> !hasWrite)
      && (r == NoWriteFunction ==> w' == w)
      && (r == Written ==> w'.n.deferUpdates == w.n.deferUpdates)
      && (r == WriteThrew ==> w'.n.deferUpdates == Off)
      && w'.q == w.q
  {
    if hasWrite {
      ReactionsQueueNothing(w.(n := w.n.(deferUpdates := Off)), id, write.reactions);
      ReactionsKeepDeferSetting(w.(n := w.n.(deferUpdates := Off)), id, write.reactions);
    }
  }

  lemma {:induction false} ReactionsKeepDeferSetting(w: World, id: Identity, rs: seq<Reaction>)
    ensures React(w, id, rs).0.n.deferUpdates == w.n.deferUpdates
    decreases |rs|
  {
    if rs != [] {
      EvaluateImmediateOutcome(w.(n := w.n.(needsEvaluation := true)), id, rs[0].disposeNow, rs[0].read);
      var (w1, raised) := PossiblyAsync(w, id, rs[0].disposeNow, rs[0].read);
      if !raised {
        ReactionsKeepDeferSetting(w1, id, rs[1..]);
      }
    }
  }

  // ---------------------------------------------------------------------
  // Construction

  /** Construction throws when the resolved read is not a function, and
      then builds nothing. With `deferEvaluation` true the node starts dirty
      with no dependencies. Otherwise the initial read runs: a read that
      returns leaves the node clean, holding the value, subscribed once to
      each registered source, having notified nothing; a read that throws
      makes construction throw too, and leaves behind a node that is still
      marked as evaluating and dirty, whose subscriptions to the sources
      registered before the throw stay live. */
  lemma NewComputedContract(w: World, id: Identity, first: FirstArgument, third: Options, read: ReadOutcome)
    ensures var (w', c) := NewComputed(w, id, first, third, read);
            var (opts, readOk) := Resolve(first, third);
      && (c == NotAFunction <==> !readOk)
      && (c == NotAFunction ==> w' == w)
      && (readOk && opts.deferEvaluation ==> c == Built(opts.writeIsFunction) && w' == w.(n := Fresh))
      && (readOk && !opts.deferEvaluation && read.Throws? ==>
            && c == InitialReadThrew
            && w'.n.isBeingEvaluated && w'.n.needsEvaluation && w'.n.notes == []
            && w'.n.subs == SubsFor(w.k.nextHandle, Distinct(read.registered), id)
            && w'.k.live == w.k.live + SubsFor(w.k.nextHandle, Distinct(read.registered), id)
            && w'.k.frames == w.k.frames)
      && (readOk && !opts.deferEvaluation && read.Returns? ==>
            && c == Built(opts.writeIsFunction)
            && w'.n.latestValue == read.value && !w'.n.needsEvaluation && !w'.n.isBeingEvaluated
            && w'.n.notes == []
            && w'.n.subs == SubsFor(w.k.nextHandle, Distinct(read.registered), id)
            && w'.k.live == w.k.live + SubsFor(w.k.nextHandle, Distinct(read.registered), id)
            && w'.k.frames == w.k.frames)
  {
    var (opts, readOk) := Resolve(first, third);
    if readOk && !opts.deferEvaluation {
      var k1 := w.k.(frames := w.k.frames + [[]]);
      CaptureSubscribesOncePerSource(Fresh.(isBeingEvaluated := true), k1, id, read.registered);
    }
  }

  // ---------------------------------------------------------------------
  // Every subscription of a node was issued before its next evaluation

  /** A node that construction builds has only subscriptions with handles
      already handed out. */
  lemma NewComputedIssuesHandles(w: World, id: Identity, first: FirstArgument, third: Options, read: ReadOutcome)
    ensures var (w', c) := NewComputed(w, id, first, third, read);
      c != NotAFunction ==> HandlesIssued(w')
  {
    var (opts, readOk) := Resolve(first, third);
    if readOk && !opts.deferEvaluation {
      ReadInFrameIssues(w.(n := Fresh.(isBeingEvaluated := true)), id, read.registered);
    }
  }

  /** Notifications, reads, writes, disposal and the throttle timer keep
      every subscription's handle below the next handle, so the hypothesis
      of `EvaluatedResubscribes` holds of every node reachable from its
      construction. */
  lemma OperationsKeepHandlesIssued(w: World, id: Identity, disposeNow: bool, read: ReadOutcome,
                                    hasWrite: bool, write: WriteScript)
    requires HandlesIssued(w)
    ensures HandlesIssued(PossiblyAsync(w, id, disposeNow, read).0)
    ensures HandlesIssued(Get(w, id, disposeNow, read).0)
    ensures HandlesIssued(Dispose(w))
    ensures w.n.timer.Some? ==> HandlesIssued(FireThrottleTimer(w, id, disposeNow, read).0)
    ensures HandlesIssued(Set(w, id, hasWrite, write).0)
  {
    PossiblyAsyncIssues(w, id, disposeNow, read);
    EvaluateImmediateIssues(w, id, disposeNow, read);
    EvaluateImmediateIssues(w.(t := ClearTimer(w.t, w.n.timer)), id, disposeNow, read);
    ReactIssues(w.(n := w.n.(deferUpdates := Off)), id, write.reactions);
  }

  lemma PossiblyAsyncIssues(w: World, id: Identity, disposeNow: bool, read: ReadOutcome)
    requires HandlesIssued(w)
    ensures HandlesIssued(PossiblyAsync(w, id, disposeNow, read).0)
  {
    EvaluateImmediateIssues(w.(n := w.n.(needsEvaluation := true)), id, disposeNow, read);
  }

  lemma {:induction false} ReactIssues(w: World, id: Identity, rs: seq<Reaction>)
    requires HandlesIssued(w)
    ensures HandlesIssued(React(w, id, rs).0)
    decreases |rs|
  {
    if rs != [] {
      PossiblyAsyncIssues(w, id, rs[0].disposeNow, rs[0].read);
      var (w1, raised) := PossiblyAsync(w, id, rs[0].disposeNow, rs[0].read);
      if !raised {
        ReactIssues(w1, id, rs[1..]);
      }
    }
  }

  /** Which read function construction uses: a function first argument is
      the read function; an options object first argument supplies the
      options and the third argument is ignored; a falsy first argument
      defers to the third argument's `read`; anything else is refused. */
  lemma ResolveRules(o: Options, third: Options)
    ensures Resolve(FunctionArg, third) == (third, true)
    ensures Resolve(OptionsArg(o), third) == (o, o.readIsFunction)
    ensures Resolve(FalsyArg, third).1 == third.readIsFunction
    ensures !Resolve(OtherArg, third).1
  {
  }
}
