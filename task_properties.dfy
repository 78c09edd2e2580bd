/** What `ko.tasks` promises, proved about the transition functions of
    `TaskSpec`: a `processImmediate` scope leaves the queue as it found it
    and runs exactly the work scheduled inside it, `processDelayed` refuses
    duplicates and otherwise appends one record, a top-level flush runs
    every pending record in order and always ends with an empty queue, and
    at most one native flush is ever outstanding. */
module TaskProperties {
  import opened Base
  import opened TaskSpec

  // ---------------------------------------------------------------------
  // Sequence helpers

  lemma RangeSplit(lo: nat, mid: nat, hi: nat)
    requires lo <= mid <= hi
    ensures Range(lo, mid) + Range(mid, hi) == Range(lo, hi)
  {
    var a, c := Range(lo, mid) + Range(mid, hi), Range(lo, hi);
    assert |a| == |c|;
    forall k | 0 <= k < |a| ensures a[k] == c[k] {
      if k < mid - lo {
        assert a[k] == Range(lo, mid)[k];
      } else {
        assert a[k] == Range(mid, hi)[k - (mid - lo)];
      }
    }
  }

  lemma SerialsAppend(x: seq<Record>, y: seq<Record>)
    ensures Serials(x + y) == Serials(x) + Serials(y)
  {
    var a, c := Serials(x + y), Serials(x) + Serials(y);
    forall k | 0 <= k < |a| ensures a[k] == c[k] {
      if k < |x| {
        assert (x + y)[k] == x[k];
      } else {
        assert (x + y)[k] == y[k - |x|];
      }
    }
  }

  lemma RunSerialsOfRuns(rs: seq<Record>)
    ensures RunSerials(RunsOf(rs)) == Serials(rs)
  {
  }

  lemma RunSerialsPrefix(a: seq<Run>, c: seq<Run>)
    requires a <= c
    ensures RunSerials(a) <= RunSerials(c)
  {
    assert RunSerials(a) == RunSerials(c)[..|a|];
  }

  lemma RunsOfCons(rs: seq<Record>, i: nat)
    requires i < |rs|
    ensures RunsOf(rs[i..]) == [Run(rs[i].serial, InvocationOf(rs[i]))] + RunsOf(rs[i + 1..])
  {
    var a, c := RunsOf(rs[i..]), [Run(rs[i].serial, InvocationOf(rs[i]))] + RunsOf(rs[i + 1..]);
    forall k | 0 <= k < |a| ensures a[k] == c[k] {
      if k > 0 {
        assert rs[i..][k] == rs[i + 1..][k - 1];
      }
    }
  }

  lemma SweepRunsCons(rs: seq<Record>, f: NodeFilter, i: nat, j: nat)
    requires i < j <= |rs|
    ensures SweepRuns(rs[i..j], f)
         == (if Selects(f, rs[i]) then [Run(rs[i].serial, Invocation(rs[i].evaluator, None, []))] else [])
            + SweepRuns(rs[i + 1..j], f)
  {
    assert rs[i..j][0] == rs[i];
    assert rs[i..j][1..] == rs[i + 1..j];
  }

  // ---------------------------------------------------------------------
  // processDelayed

  /** `processDelayed` refuses exactly a distinct call whose evaluator is
      already pending at or after the scan start, and then changes nothing;
      otherwise it appends one record holding the evaluator and the extras.
      It requests a native flush exactly when it appends while nothing holds
      a flush back. */
  lemma DelayedOutcome(s: QState, c: Call)
    ensures var (s', added) := Delayed(s, c);
      && (added <==> !(c.distinct && IsDuplicate(s, c.evaluator)))
      && (!added ==> s' == s)
      && (added ==> s'.records == s.records + [Record(s.nextSerial, c.evaluator, c.extras)]
                    && s'.nextSerial == s.nextSerial + 1)
      && s'.stack == s.stack && s'.indexProcessing == s.indexProcessing && s'.runs == s.runs
      && (s'.nativePending != s.nativePending <==> added && RequestsFlush(s))
      && s'.nativePending <= s.nativePending + 1
  {
  }

  /** A distinct call whose evaluator already has a record at index 0 (or
      at any index before the end) while no top-level flush is running is
      refused. */
  lemma PendingEvaluatorIsDuplicate(s: QState, k: nat, c: Call)
    requires s.indexProcessing == None && k < |s.records|
    requires c.distinct && s.records[k].evaluator == c.evaluator
    ensures Delayed(s, c) == (s, false)
  {
  }

  lemma DelayedInv(s: QState, c: Call)
    requires Inv(s)
    ensures Inv(Delayed(s, c).0)
  {
    var (s', added) := Delayed(s, c);
    if added {
      var rs := s'.records;
      assert rs == s.records + [Record(s.nextSerial, c.evaluator, c.extras)];
      forall k, l | 0 <= k < l < |rs| ensures rs[k].serial < rs[l].serial {
        if l == |rs| - 1 {
          assert rs[k] == s.records[k];
        } else {
          assert rs[k] == s.records[k] && rs[l] == s.records[l];
        }
      }
      forall k | 0 <= k < |rs| ensures rs[k].serial < s'.nextSerial {
        if k < |s.records| {
          assert rs[k] == s.records[k];
        }
      }
    }
  }

  // ---------------------------------------------------------------------
  // An evaluator's processDelayed calls

  /** The calls of one script only append records, numbered consecutively
      from the serial counter; while something holds a native flush back,
      they leave the flush bookkeeping alone. */
  lemma {:induction false} RunCallsAppend(s: QState, calls: seq<Call>)
    ensures var r := RunCalls(s, calls);
      && s.nextSerial <= r.nextSerial
      && Serials(r.records[|s.records|..]) == Range(s.nextSerial, r.nextSerial)
      && (!RequestsFlush(s) ==> r.handler == s.handler && r.nativePending == s.nativePending)
    decreases |calls|
  {
    if calls == [] {
      assert s.records[|s.records|..] == [];
    } else {
      var s1 := Delayed(s, calls[0]).0;
      RunCallsAppend(s1, calls[1..]);
      DelayedAppends(s, calls[0]);
      ChainSerials(s.records, s1.records, RunCalls(s1, calls[1..]).records,
                   s.nextSerial, s1.nextSerial, RunCalls(s1, calls[1..]).nextSerial);
    }
  }

  /** One `processDelayed` appends at most one record, numbered from the
      serial counter. */
  lemma DelayedAppends(s: QState, c: Call)
    ensures var s1 := Delayed(s, c).0;
      && s.records <= s1.records
      && s.nextSerial <= s1.nextSerial
      && Serials(s1.records[|s.records|..]) == Range(s.nextSerial, s1.nextSerial)
      && (!RequestsFlush(s) ==> !RequestsFlush(s1) && s1.handler == s.handler && s1.nativePending == s.nativePending)
  {
    var (s1, added) := Delayed(s, c);
    if added {
      assert s1.records[|s.records|..] == [Record(s.nextSerial, c.evaluator, c.extras)];
    } else {
      assert s1.records[|s.records|..] == [];
    }
  }

  /** Appending in two steps, each numbered consecutively, appends records
      numbered consecutively. */
  lemma ChainSerials(x: seq<Record>, y: seq<Record>, z: seq<Record>, lo: nat, mid: nat, hi: nat)
    requires x <= y <= z && lo <= mid <= hi
    requires Serials(y[|x|..]) == Range(lo, mid) && Serials(z[|y|..]) == Range(mid, hi)
    ensures Serials(z[|x|..]) == Range(lo, hi)
  {
    assert z[|x|..] == y[|x|..] + z[|y|..] by {
      assert z[|x|..|y|] == y[|x|..];
    }
    SerialsAppend(y[|x|..], z[|y|..]);
    RangeSplit(lo, mid, hi);
  }

  /** Appending one entry to a log and then more: the new part of the log
      starts with that entry. */
  lemma LogStep(s: seq<Run>, s1: seq<Run>, r: seq<Run>, a: Run)
    requires s1 == s + [a] && s1 <= r
    ensures s <= r && r[|s|..] == [a] + r[|s1|..]
  {
    assert r[|s|] == s1[|s|];
  }

  lemma {:induction false} RunCallsInv(s: QState, calls: seq<Call>)
    requires Inv(s)
    ensures Inv(RunCalls(s, calls))
    decreases |calls|
  {
    if calls != [] {
      DelayedInv(s, calls[0]);
      RunCallsInv(Delayed(s, calls[0]).0, calls[1..]);
    }
  }

  // ---------------------------------------------------------------------
  // The flush loop of processEvaluators

  /** A flush leaves the native-flush bookkeeping alone: a top-level flush
      because it marks `indexProcessing` before each run, a scope flush
      because something already holds a native flush back. A scope flush
      does not touch `indexProcessing`. The records it appends are numbered
      consecutively. */
  lemma {:induction false} FlushBookkeeping(s: QState, b: Behaviour, start: nat, i: nat, fuel: nat)
    requires start == 0 || !RequestsFlush(s)
    ensures var r := FlushFrom(s, b, start, i, fuel).0;
      && r.handler == s.handler && r.nativePending == s.nativePending
      && (start > 0 ==> r.indexProcessing == s.indexProcessing)
      && s.nextSerial <= r.nextSerial
      && Serials(r.records[|s.records|..]) == Range(s.nextSerial, r.nextSerial)
    decreases fuel
  {
    var r := FlushFrom(s, b, start, i, fuel).0;
    if i >= |s.records| || fuel == 0 {
      assert r == s;
      assert s.records[|s.records|..] == [];
    } else {
      var rec := s.records[i];
      var s1 := if start == 0 then s.(indexProcessing := Some(i)) else s;
      var s1r := s1.(runs := s1.runs + [Run(rec.serial, InvocationOf(rec))]);
      var (s2, thrown) := RunOne(s1, b, rec.serial, InvocationOf(rec));
      assert !RequestsFlush(s1r);
      RunCallsAppend(s1r, b(InvocationOf(rec)).calls);
      if !thrown {
        FlushBookkeeping(s2, b, start, i + 1, fuel - 1);
        ChainSerials(s.records, s2.records, r.records, s.nextSerial, s2.nextSerial, r.nextSerial);
      }
    }
  }

  /** A flush from index `i` runs the records from `i` onwards strictly in
      index order, each once, including records appended while it runs:
      its log of runs is a prefix of those records, and all of them when it
      reaches the end of the list. */
  lemma {:induction false} FlushRunsInOrder(s: QState, b: Behaviour, start: nat, i: nat, fuel: nat)
    requires i <= |s.records|
    ensures var (r, o) := FlushFrom(s, b, start, i, fuel);
      && s.runs <= r.runs
      && r.runs[|s.runs|..] <= RunsOf(r.records[i..])
      && (o == Normal ==> r.runs[|s.runs|..] == RunsOf(r.records[i..]))
    decreases fuel
  {
    var (r, o) := FlushFrom(s, b, start, i, fuel);
    if i >= |s.records| || fuel == 0 {
      assert r == s;
    } else {
      var rec := s.records[i];
      var a := Run(rec.serial, InvocationOf(rec));
      var (s2, thrown) := FlushStep(s, b, start, i);
      assert s2.runs == s.runs + [a] && s.records <= s2.records;
      assert r.records[i] == rec by {
        assert s.records <= s2.records <= r.records;
      }
      RunsOfCons(r.records, i);
      if thrown {
        assert r == s2;
        assert r.runs[|s.runs|..] == [a];
      } else {
        FlushRunsInOrder(s2, b, start, i + 1, fuel - 1);
        LogStep(s.runs, s2.runs, r.runs, a);
      }
    }
  }

  // ---------------------------------------------------------------------
  // processImmediate

  /** The pieces of one `processImmediate` call, and what is known of each.
      After the evaluator's own calls, the list is the entry list plus
      records numbered from the entry serial; the flush of popTaskState
      starts at the entry length. */
  lemma ImmediateSteps(s: QState, b: Behaviour, inv: Invocation)
    requires Inv(s)
    ensures var s2 := RunCalls(s.(stack := s.stack + [|s.records|]), b(inv).calls);
      && s2.stack == s.stack + [|s.records|]
      && s.records <= s2.records
      && s2.indexProcessing == s.indexProcessing && s2.runs == s.runs
      && s2.handler == s.handler && s2.nativePending == s.nativePending
      && s.nextSerial <= s2.nextSerial
      && Serials(s2.records[|s.records|..]) == Range(s.nextSerial, s2.nextSerial)
  {
    var s1 := s.(stack := s.stack + [|s.records|]);
    RunCallsAppend(s1, b(inv).calls);
  }

  /** `processImmediate` leaves the pending list exactly as it found it (the
      same records, so the same length), the checkpoint stack at its entry
      depth, `indexProcessing` and the native-flush bookkeeping unchanged,
      whether the evaluator returns or throws: only the serial counter and
      the log of runs move on. */
  lemma ImmediateRestoresQueue(s: QState, b: Behaviour, inv: Invocation, fuel: nat)
    requires Inv(s)
    ensures var r := Immediate(s, b, inv, fuel).0;
      && r == s.(nextSerial := r.nextSerial, runs := r.runs)
      && s.nextSerial <= r.nextSerial
      && s.runs <= r.runs
  {
    var n := |s.records|;
    var s1 := s.(stack := s.stack + [n]);
    var s2 := RunCalls(s1, b(inv).calls);
    ImmediateSteps(s, b, inv);
    assert s2.stack[..|s2.stack| - 1] == s.stack;
    var s3 := s2.(stack := s.stack);
    if |s3.records| > n {
      var (f, o) := FlushFrom(s3, b, n, n, fuel);
      if n > 0 {
        assert !RequestsFlush(s3);
      } else {
        assert s.indexProcessing == None && !s.handler;
      }
      FlushBookkeeping(s3, b, n, n, fuel);
      FlushRunsInOrder(s3, b, n, n, fuel);
      assert s.records <= f.records;
      if n > 0 {
        assert f.records[..n] == s.records;
      }
    } else {
      assert s3.records == s.records;
    }
  }

  /** Every record appended while a `processImmediate` scope is open is run
      before the scope returns, in the order of appending, and nothing else
      is run: the runs it makes are those of the records numbered from the
      serial counter's entry value, so records pending before the checkpoint
      are not run (and, by `ImmediateRestoresQueue`, not removed). All of
      them run whenever the closing flush completes, even when the scope's
      own evaluator threw; when a queued evaluator throws or fuel runs out,
      the runs made are a prefix of those. */
  lemma ImmediateRunsItsWork(s: QState, b: Behaviour, inv: Invocation, fuel: nat)
    requires Inv(s)
    ensures var (r, res) := Immediate(s, b, inv, fuel);
      && s.runs <= r.runs
      && RunSerials(r.runs[|s.runs|..]) <= Range(s.nextSerial, r.nextSerial)
      && (res.Returned? ==> RunSerials(r.runs[|s.runs|..]) == Range(s.nextSerial, r.nextSerial))
    ensures var r := Immediate(s, b, inv, fuel).0;
      PopTaskState(RunCalls(s.(stack := s.stack + [|s.records|]), b(inv).calls), b, fuel).1 == Normal ==>
        RunSerials(r.runs[|s.runs|..]) == Range(s.nextSerial, r.nextSerial)
  {
    var n := |s.records|;
    var s1 := s.(stack := s.stack + [n]);
    var s2 := RunCalls(s1, b(inv).calls);
    ImmediateSteps(s, b, inv);
    assert s2.stack[..|s2.stack| - 1] == s.stack;
    var s3 := s2.(stack := s.stack);
    var (r, res) := Immediate(s, b, inv, fuel);
    if |s3.records| > n {
      var (f, o) := FlushFrom(s3, b, n, n, fuel);
      if n > 0 {
        assert !RequestsFlush(s3);
      }
      FlushBookkeeping(s3, b, n, n, fuel);
      FlushRunsInOrder(s3, b, n, n, fuel);
      assert r.runs == f.runs && r.nextSerial == f.nextSerial;
      assert f.records[n..] == s3.records[n..] + f.records[|s3.records|..] by {
        assert s3.records <= f.records;
      }
      SerialsAppend(s3.records[n..], f.records[|s3.records|..]);
      RangeSplit(s.nextSerial, s3.nextSerial, f.nextSerial);
      RunSerialsOfRuns(f.records[n..]);
      RunSerialsPrefix(f.runs[|s.runs|..], RunsOf(f.records[n..]));
    } else {
      assert r == s3;
      assert s3.records[n..] == [];
      assert r.runs[|s.runs|..] == [];
    }
  }

  lemma ImmediateInv(s: QState, b: Behaviour, inv: Invocation, fuel: nat)
    requires Inv(s)
    ensures Inv(Immediate(s, b, inv, fuel).0)
  {
    ImmediateRestoresQueue(s, b, inv, fuel);
  }

  // ---------------------------------------------------------------------
  // The native flush

  /** A top-level flush fired by the host ends with an empty list, with
      `indexProcessing` and the handler cleared and no native flush
      outstanding, even when an evaluator throws. It runs the records in
      index order: those pending on entry, then those appended meanwhile;
      all of them when no evaluator throws. */
  lemma NativeFlushEmptiesQueue(s: QState, b: Behaviour, fuel: nat)
    requires Inv(s) && s.handler && s.stack == [] && s.indexProcessing == None
    ensures var (r, o) := NativeFlush(s, b, fuel);
      && r.records == [] && r.indexProcessing == None && !r.handler
      && r.nativePending == 0 && r.stack == []
      && Inv(r)
      && s.runs <= r.runs
      && RunSerials(r.runs[|s.runs|..]) <= Serials(s.records) + Range(s.nextSerial, r.nextSerial)
      && (o == Normal ==> RunSerials(r.runs[|s.runs|..]) == Serials(s.records) + Range(s.nextSerial, r.nextSerial))
  {
    var s1 := s.(nativePending := 0);
    var (f, o) := FlushFrom(s1, b, 0, 0, fuel);
    FlushBookkeeping(s1, b, 0, 0, fuel);
    FlushRunsInOrder(s1, b, 0, 0, fuel);
    assert f.records == s.records + f.records[|s.records|..] by {
      assert s.records <= f.records;
    }
    assert f.records[0..] == f.records;
    SerialsAppend(s.records, f.records[|s.records|..]);
    RunSerialsOfRuns(f.records);
    RunSerialsPrefix(f.runs[|s.runs|..], RunsOf(f.records));
  }

  /** At most one native flush is ever outstanding: `processDelayed`,
      `processImmediate`, the native flush and the sweeps all keep the
      queue's consistency conditions, which tie the number of queued native
      callbacks to the single handler flag. */
  lemma AtMostOneNativeFlush(s: QState)
    requires Inv(s)
    ensures s.nativePending <= 1
    ensures s.nativePending == 1 <==> s.handler
  {
  }

  // ---------------------------------------------------------------------
  // The deferred-binding sweeps

  /** A sweep runs, in index order, exactly the selected records that were
      pending when it started (each called with no `this` and no arguments),
      never one appended during the sweep, and removes nothing. */
  lemma {:induction false} SweepRunsSelected(s: QState, b: Behaviour, f: NodeFilter, i: nat, j: nat)
    requires i <= j <= |s.records|
    ensures var (r, o) := Sweep(s, b, f, i, j);
      && s.runs <= r.runs
      && r.runs[|s.runs|..] <= SweepRuns(s.records[i..j], f)
      && (o == Normal ==> r.runs[|s.runs|..] == SweepRuns(s.records[i..j], f))
    decreases j - i
  {
    var (r, o) := Sweep(s, b, f, i, j);
    if i == j {
      assert r == s;
    } else {
      SweepRunsCons(s.records, f, i, j);
      if Selects(f, s.records[i]) {
        var a := Run(s.records[i].serial, Invocation(s.records[i].evaluator, None, []));
        var (s1, thrown) := RunOne(s, b, a.serial, a.invocation);
        assert s1.runs == s.runs + [a];
        if thrown {
          assert r == s1;
          LogStep(s.runs, s1.runs, r.runs, a);
        } else {
          SweepRunsSelected(s1, b, f, i + 1, j);
          assert s1.records[i + 1..j] == s.records[i + 1..j] by {
            assert s.records <= s1.records;
          }
          LogStep(s.runs, s1.runs, r.runs, a);
        }
      } else {
        SweepRunsSelected(s, b, f, i + 1, j);
      }
    }
  }

  lemma {:induction false} SweepInv(s: QState, b: Behaviour, f: NodeFilter, i: nat, j: nat)
    requires Inv(s) && j <= |s.records|
    ensures Inv(Sweep(s, b, f, i, j).0)
    decreases j - i
  {
    if i < j {
      if Selects(f, s.records[i]) {
        var inv := Invocation(s.records[i].evaluator, None, []);
        var s0 := s.(runs := s.runs + [Run(s.records[i].serial, inv)]);
        RunCallsInv(s0, b(inv).calls);
        var (s1, thrown) := RunOne(s, b, s.records[i].serial, inv);
        if !thrown {
          SweepInv(s1, b, f, i + 1, j);
        }
      } else {
        SweepInv(s, b, f, i + 1, j);
      }
    }
  }

  // ---------------------------------------------------------------------
  // Two behaviours of the source that differ from what a reader might expect

  /** A second distinct `processDelayed` of the same evaluator before the
      flush is refused, so the record keeps the FIRST call's arguments and
      the flush runs the evaluator once, with those arguments. */
  lemma DistinctKeepsFirstArguments(b: Behaviour, fuel: nat)
    requires fuel >= 1
    requires b(Invocation(7, None, [Num(1)])) == Script([], false, Undefined)
    ensures var s1 := Delayed(Idle, Call(7, true, Extras(None, [Num(1)], None))).0;
            var s2 := Delayed(s1, Call(7, true, Extras(None, [Num(2)], None))).0;
            NativeFlush(s2, b, fuel).0.runs == [Run(0, Invocation(7, None, [Num(1)]))]
  {
    var s1 := Delayed(Idle, Call(7, true, Extras(None, [Num(1)], None))).0;
    assert s1.records == [Record(0, 7, Extras(None, [Num(1)], None))];
    assert IsDuplicate(s1, 7) by {
      assert s1.records[0].evaluator == 7;
    }
    var s2 := Delayed(s1, Call(7, true, Extras(None, [Num(2)], None))).0;
    assert s2 == s1;
    var t := s2.(nativePending := 0);
    var t1 := RunOne(t.(indexProcessing := Some(0)), b, 0, Invocation(7, None, [Num(1)])).0;
    assert t1.runs == [Run(0, Invocation(7, None, [Num(1)]))];
    assert FlushFrom(t1, b, 0, 1, fuel - 1).0 == t1;
  }

  /** A record pending outside a `processImmediate` scope makes a distinct
      `processDelayed` of the same evaluator inside the scope a duplicate,
      because the scan starts at index 0 when no top-level flush runs: the
      scope therefore runs nothing, and the pending record keeps its
      arguments. */
  lemma OuterRecordSuppressesScopeCall(b: Behaviour, fuel: nat)
    requires b(Invocation(9, None, [])) == Script([Call(7, true, Extras(None, [Str("i")], None))], false, Undefined)
    ensures var s1 := Delayed(Idle, Call(7, true, Extras(None, [Str("o")], None))).0;
            var (r, res) := Immediate(s1, b, Invocation(9, None, []), fuel);
            && r.records == [Record(0, 7, Extras(None, [Str("o")], None))]
            && r.runs == []
            && res == Returned(Undefined)
  {
    var s1 := Delayed(Idle, Call(7, true, Extras(None, [Str("o")], None))).0;
    assert s1.records == [Record(0, 7, Extras(None, [Str("o")], None))];
    var p := s1.(stack := [1]);
    assert IsDuplicate(p, 7) by {
      assert p.records[0].evaluator == 7;
    }
    var calls := [Call(7, true, Extras(None, [Str("i")], None))];
    assert RunCalls(p, calls) == RunCalls(p, calls[1..]);
    assert calls[1..] == [];
  }
}
