// Equal timestamps: when the trace of a thread is exact whatever the sort does with ties.
module Ties {

  import opened Types
  import opened SchedProbes
  import opened Collector
  import opened Sorting
  import opened ChromeTrace
  import opened TraceProofs
  import opened Pipeline
  import opened Overlap

  /** ONs and OFFs in turn. */
  predicate Alternating(switches: seq<UnifiedEvent>, tid: uint32) {
    forall i :: 0 <= i < |switches| - 1 ==> IsOn(switches[i], tid) != IsOn(switches[i + 1], tid)
  }

  /** Every ON that is followed by an OFF can be closed. */
  predicate StartsClosable(switches: seq<UnifiedEvent>, tid: uint32) {
    forall i :: 0 <= i < |switches| - 1 && IsOn(switches[i], tid) ==> switches[i].timestamp != 0 && tid < TID_LIMIT
  }

  // ---- the switches of a run ----

  /** What the switches so far say of the intervals so far. */
  predicate Tells(switches: seq<UnifiedEvent>, spans: seq<Span>, runs: bool, tid: uint32) {
    && Alternating(switches, tid)
    && (switches != [] ==> (IsOn(switches[|switches| - 1], tid) <==> runs))
    && (switches != [] && runs ==>
          spans != [] && spans[|spans| - 1].stop.None? &&
          spans[|spans| - 1].start == switches[|switches| - 1].timestamp)
    && (AllClosable(spans, tid) ==> StartsClosable(switches, tid))
  }

  lemma TellsOn(switches: seq<UnifiedEvent>, spans: seq<Span>, e: UnifiedEvent, span: Span, tid: uint32)
    requires Tells(switches, spans, false, tid) && IsOn(e, tid)
    requires span.stop.None? && span.start == e.timestamp
    ensures Tells(switches + [e], spans + [span], true, tid)
  {
    hide IsOn;
    ClosableBefore(spans, span, tid);
  }

  lemma ClosableBefore(spans: seq<Span>, span: Span, tid: uint32)
    ensures AllClosable(spans + [span], tid) ==> AllClosable(spans, tid) && (span.stop.Some? ==> Closable(span, tid))
  {
    hide Closable;
    var all := spans + [span];
    assert all[|spans|] == span;
    assert forall k :: 0 <= k < |spans| ==> all[k] == spans[k];
  }

  lemma TellsOff(switches: seq<UnifiedEvent>, spans: seq<Span>, e: UnifiedEvent, stop: Stop, tid: uint32)
    requires Tells(switches, spans, true, tid) && IsOff(e, tid)
    ensures spans == [] ==> Tells(switches + [e], [], false, tid)
    ensures spans != [] && spans[|spans| - 1].stop.None? ==>
              Tells(switches + [e], spans[..|spans| - 1] + [spans[|spans| - 1].(stop := Some(stop))], false, tid)
  {
    if spans != [] && spans[|spans| - 1].stop.None? {
      var init, closed := spans[..|spans| - 1], spans[|spans| - 1].(stop := Some(stop));
      ClosableBefore(init, closed, tid);
      assert AllClosable(init + [closed], tid) ==> AllClosable(spans, tid);
    }
  }

  lemma {:induction false} RunTells(start: Running, run: seq<SchedStep>, n: nat, target: uint32, tid: uint32)
    requires ValidRun(start, run) && NoDrops(run, tid) && tid != 0 && Wanted(target, tid) && n <= |run|
    ensures Tells(Reported(target, run, n, tid), Spans(start, run, n, tid), IsRunning(RunningAt(start, run, n), tid),
                  tid)
  {
    hide *;
    if n == 0 {
      NothingTold(start, run, target, tid);
    } else {
      RunTells(start, run, n - 1, target, tid);
      ReportedStep(start, target, run, n - 1, tid);
      SpanStep(start, run, n - 1, tid);
      OnlyLastOpen(start, run, n - 1, tid);
      var was, spans, step := Reported(target, run, n - 1, tid), Spans(start, run, n - 1, tid), run[n - 1];
      if step.OnSwitch? && step.s.prev == tid {
        RecordKinds(step.s, tid);
        TellsOff(was, spans, Cpu(step.s.off.now, OffRecord(step.s)), Stop(step.s.off.now, step.s.prevState), tid);
      } else if step.OnSwitch? && step.s.next == tid {
        RecordKinds(step.s, tid);
        TellsOn(was, spans, Cpu(step.s.on.now, OnRecord(step.s)),
                Span(step.s.on.now, step.s.cpu, step.s.nextComm, step.s.stackId, None), tid);
      }
    }
  }

  lemma RecordKinds(s: Switch, tid: uint32)
    ensures s.prev == tid ==> IsOff(Cpu(s.off.now, OffRecord(s)), tid)
    ensures s.next == tid ==> IsOn(Cpu(s.on.now, OnRecord(s)), tid)
  {
  }

  lemma NothingTold(start: Running, run: seq<SchedStep>, target: uint32, tid: uint32)
    ensures Tells(Reported(target, run, 0, tid), Spans(start, run, 0, tid), IsRunning(RunningAt(start, run, 0), tid),
                  tid)
  {
    hide IsRunning;
  }

  // ---- marks from the front ----

  /** The record of one switch, given the pending time. */
  function Emit(pending: uint64, e: UnifiedEvent, base: uint64, tid: uint32): seq<Record>
    requires IsOn(e, tid) || IsOff(e, tid)
  {
    var c, ts := e.cpu, SubU64(e.timestamp, base);
    if IsOn(e, tid) then [Begin(ts, c.pid, tid, c.cpu, c.comm, StackIf(c.stackId, c.pid))]
    else if tid < TID_LIMIT && pending != 0 then [End(ts, c.pid, tid, SubU64(e.timestamp, pending), c.prevState)]
    else []
  }

  function PendingAfter(e: UnifiedEvent, tid: uint32): uint64 {
    if IsOn(e, tid) then e.timestamp else 0
  }

  /** The records of some switches, given the pending time in front of them. */
  function Rest(pending: uint64, switches: seq<UnifiedEvent>, base: uint64, tid: uint32): seq<Record>
    requires AllSwitches(switches, tid)
    decreases |switches|
  {
    if switches == [] then []
    else
      assert IsOn(switches[0], tid) || IsOff(switches[0], tid);
      Emit(pending, switches[0], base, tid) + Rest(PendingAfter(switches[0], tid), switches[1..], base, tid)
  }

  lemma {:induction false} MarksSplit(a: seq<UnifiedEvent>, r: seq<UnifiedEvent>, base: uint64, tid: uint32)
    requires AllSwitches(a, tid) && AllSwitches(r, tid)
    ensures AllSwitches(a + r, tid)
    ensures Marks(a + r, base, tid) == Marks(a, base, tid) + Rest(Pending(a, tid), r, base, tid)
    decreases |r|
  {
    hide Marks, Pending;
    if r == [] {
      assert a + r == a;
    } else {
      assert IsOn(r[0], tid) || IsOff(r[0], tid);
      MarksSnoc(a, r[0], base, tid);
      MarksSplit(a + [r[0]], r[1..], base, tid);
      assert a + [r[0]] + r[1..] == a + r;
      Three(Marks(a, base, tid), Emit(Pending(a, tid), r[0], base, tid),
            Rest(PendingAfter(r[0], tid), r[1..], base, tid));
      assert Marks(a, base, tid) + [] == Marks(a, base, tid);
    }
  }

  lemma Three(a: seq<Record>, b: seq<Record>, c: seq<Record>)
    ensures a + b + c == a + (b + c)
  {
  }

  /** The pending time matters only for an OFF. */
  lemma RestOfOn(p: uint64, q: uint64, r: seq<UnifiedEvent>, base: uint64, tid: uint32)
    requires AllSwitches(r, tid) && (r == [] || IsOn(r[0], tid))
    ensures Rest(p, r, base, tid) == Rest(q, r, base, tid)
  {
  }

  lemma RestOfTwo(p: uint64, x: UnifiedEvent, y: UnifiedEvent, r: seq<UnifiedEvent>, base: uint64, tid: uint32)
    requires (IsOn(x, tid) || IsOff(x, tid)) && (IsOn(y, tid) || IsOff(y, tid)) && AllSwitches(r, tid)
    ensures AllSwitches([x, y] + r, tid)
    ensures Rest(p, [x, y] + r, base, tid) ==
            Emit(p, x, base, tid) + (Emit(PendingAfter(x, tid), y, base, tid) +
                                     Rest(PendingAfter(y, tid), r, base, tid))
  {
    hide Emit;
    var s := [x, y] + r;
    assert s[0] == x && s[1..] == [y] + r && s[1..][0] == y && s[1..][1..] == r;
    assert AllSwitches(s[1..], tid) by {
      assert forall i :: 0 <= i < |s[1..]| ==> s[1..][i] == if i == 0 then y else r[i - 1];
    }
  }

  // ---- swapping a tie ----

  /** The only harmless tie: the thread's whole record is going off and on again in one clock reading,
      which is 0, or the thread id is beyond the limit. */
  predicate Harmless(switches: seq<UnifiedEvent>, tid: uint32) {
    && |switches| == 2 && IsOff(switches[0], tid) && IsOn(switches[1], tid)
    && switches[0].timestamp == switches[1].timestamp
    && (switches[0].timestamp == 0 || tid >= TID_LIMIT)
  }

  /** Swapping a tied ON and OFF loses an end. */
  lemma SwapOnOff(p: seq<UnifiedEvent>, x: UnifiedEvent, y: UnifiedEvent, r: seq<UnifiedEvent>, base: uint64,
                  tid: uint32)
    requires AllSwitches(p, tid) && AllSwitches(r, tid) && IsOn(x, tid) && IsOff(y, tid)
    requires Pending(p, tid) == 0 && (r == [] || IsOn(r[0], tid))
    requires x.timestamp != 0 && tid < TID_LIMIT
    ensures AllSwitches(p + ([x, y] + r), tid) && AllSwitches(p + ([y, x] + r), tid)
    ensures Marks(p + ([x, y] + r), base, tid) != Marks(p + ([y, x] + r), base, tid)
  {
    hide Marks, Pending, Rest, SubU64;
    RestOfTwo(0, x, y, r, base, tid);
    RestOfTwo(0, y, x, r, base, tid);
    MarksSplit(p, [x, y] + r, base, tid);
    MarksSplit(p, [y, x] + r, base, tid);
    RestOfOn(0, x.timestamp, r, base, tid);
    var one := Rest(Pending(p, tid), [x, y] + r, base, tid);
    var two := Rest(Pending(p, tid), [y, x] + r, base, tid);
    assert |one| == 2 + |Rest(0, r, base, tid)|;
    assert |two| == 1 + |Rest(0, r, base, tid)|;
  }

  /** Swapping a tied OFF and ON changes the records, unless it is the harmless tie. */
  lemma SwapOffOn(p: seq<UnifiedEvent>, x: UnifiedEvent, y: UnifiedEvent, r: seq<UnifiedEvent>, base: uint64,
                  tid: uint32)
    requires AllSwitches(p, tid) && AllSwitches(r, tid) && IsOff(x, tid) && IsOn(y, tid) && x.timestamp == y.timestamp
    requires if p == [] then Pending(p, tid) == 0 else Pending(p, tid) != 0 && tid < TID_LIMIT
    requires r != [] ==> IsOff(r[0], tid) && r[0].timestamp != x.timestamp && y.timestamp != 0 && tid < TID_LIMIT
    requires p == [] && r == [] ==> y.timestamp != 0 && tid < TID_LIMIT
    ensures AllSwitches(p + ([x, y] + r), tid) && AllSwitches(p + ([y, x] + r), tid)
    ensures Marks(p + ([x, y] + r), base, tid) != Marks(p + ([y, x] + r), base, tid)
  {
    hide Marks, Pending, SubU64;
    RestOfTwo(Pending(p, tid), x, y, r, base, tid);
    RestOfTwo(Pending(p, tid), y, x, r, base, tid);
    MarksSplit(p, [x, y] + r, base, tid);
    MarksSplit(p, [y, x] + r, base, tid);
    var one := Rest(Pending(p, tid), [x, y] + r, base, tid);
    var two := Rest(Pending(p, tid), [y, x] + r, base, tid);
    var tail := if r == [] then [] else Rest(0, r[1..], base, tid);
    if r != [] {
      assert Rest(y.timestamp, r, base, tid) == Emit(y.timestamp, r[0], base, tid) + tail;
      assert Rest(0, r, base, tid) == [] + tail;
      SubDiffers(r[0].timestamp, x.timestamp, base);
      if p == [] {
        assert one[1].End? && two[1].End? && one[1].ts != two[1].ts;
      } else {
        assert one[0].End? && two[0].Begin?;
      }
    } else if p == [] {
      assert |one| == 1 && |two| == 2;
    } else {
      assert one[0].End? && two[0].Begin?;
    }
    assert one != two;
    OtherTail(Marks(p, base, tid), one, two);
  }

  lemma OtherTail(a: seq<Record>, x: seq<Record>, y: seq<Record>)
    requires x != y
    ensures a + x != a + y
  {
    assert (a + x)[|a|..] == x && (a + y)[|a|..] == y;
  }

  lemma SubDiffers(a: uint64, b: uint64, base: uint64)
    requires a != b
    ensures SubU64(a, base) != SubU64(b, base)
  {
  }

  /** A tie whose swap changes the records. */
  lemma HarmfulTie(switches: seq<UnifiedEvent>, base: uint64, tid: uint32) returns (i: nat)
    requires AllSwitches(switches, tid) && Alternating(switches, tid) && StartsClosable(switches, tid) &&
             Sorted(switches)
    requires !Increasing(switches) && !Harmless(switches, tid)
    ensures Tied(switches, i) && i + 1 < |switches| && AllSwitches(Swapped(switches, i), tid)
    ensures Marks(Swapped(switches, i), base, tid) != Marks(switches, base, tid)
  {
    hide *;
    if k: nat :| OnTie(switches, k, tid) {
      i := k;
      SwapOn(switches, k, base, tid);
    } else {
      i := FirstTie(switches);
      SwapOff(switches, i, base, tid);
    }
  }

  predicate OnTie(switches: seq<UnifiedEvent>, k: nat, tid: uint32) {
    Tied(switches, k) && IsOn(switches[k], tid)
  }

  lemma SwapOn(switches: seq<UnifiedEvent>, i: nat, base: uint64, tid: uint32)
    requires AllSwitches(switches, tid) && Alternating(switches, tid) && StartsClosable(switches, tid)
    requires OnTie(switches, i, tid)
    ensures Tied(switches, i) && i + 1 < |switches| && AllSwitches(Swapped(switches, i), tid)
    ensures Marks(Swapped(switches, i), base, tid) != Marks(switches, base, tid)
  {
    hide Marks, Pending, IsOn, IsOff;
    var p, r := switches[..i], switches[i + 2..];
    Parts(switches, i, tid);
    PendingBefore(switches, i, tid);
    Around(switches, i, tid);
    SwapOnOff(p, switches[i], switches[i + 1], r, base, tid);
  }

  lemma SwapOff(switches: seq<UnifiedEvent>, i: nat, base: uint64, tid: uint32)
    requires AllSwitches(switches, tid) && Alternating(switches, tid) && StartsClosable(switches, tid)
    requires Tied(switches, i) && !Harmless(switches, tid) && forall k: nat :: !OnTie(switches, k, tid)
    ensures AllSwitches(Swapped(switches, i), tid)
    ensures Marks(Swapped(switches, i), base, tid) != Marks(switches, base, tid)
  {
    hide Marks, Pending, IsOn, IsOff;
    var p, r := switches[..i], switches[i + 2..];
    Parts(switches, i, tid);
    PendingBefore(switches, i, tid);
    Around(switches, i, tid);
    assert !OnTie(switches, i, tid) && !OnTie(switches, i + 1, tid);
    SwapOffOn(p, switches[i], switches[i + 1], r, base, tid);
  }

  /** The kinds of a switch and its neighbours, and what closability says of them. */
  lemma Around(switches: seq<UnifiedEvent>, i: nat, tid: uint32)
    requires AllSwitches(switches, tid) && Alternating(switches, tid) && StartsClosable(switches, tid) &&
             i + 1 < |switches|
    ensures IsOn(switches[i], tid) ==>
              && IsOff(switches[i + 1], tid) && switches[i].timestamp != 0 && tid < TID_LIMIT
              && (i + 2 < |switches| ==> IsOn(switches[i + 2], tid))
    ensures !IsOn(switches[i], tid) ==>
              && IsOff(switches[i], tid) && IsOn(switches[i + 1], tid)
              && (i + 2 < |switches| ==>
                    IsOff(switches[i + 2], tid) && switches[i + 1].timestamp != 0 && tid < TID_LIMIT)
    ensures switches[i + 2..] != [] ==> switches[i + 2..][0] == switches[i + 2]
  {
    assert IsOn(switches[i], tid) != IsOn(switches[i + 1], tid);
    if i + 2 < |switches| {
      assert IsOn(switches[i + 1], tid) != IsOn(switches[i + 1 + 1], tid);
    }
  }

  lemma Parts(switches: seq<UnifiedEvent>, i: nat, tid: uint32)
    requires AllSwitches(switches, tid) && i + 1 < |switches|
    ensures AllSwitches(switches[..i], tid) && AllSwitches(switches[i + 2..], tid)
    ensures switches == switches[..i] + ([switches[i], switches[i + 1]] + switches[i + 2..])
  {
  }

  lemma PendingBefore(switches: seq<UnifiedEvent>, i: nat, tid: uint32)
    requires AllSwitches(switches, tid) && Alternating(switches, tid) && StartsClosable(switches, tid) &&
             i + 1 < |switches|
    ensures IsOn(switches[i], tid) ==> Pending(switches[..i], tid) == 0
    ensures i == 0 ==> Pending(switches[..i], tid) == 0
    ensures !IsOn(switches[i], tid) && i > 0 ==> Pending(switches[..i], tid) != 0 && tid < TID_LIMIT
  {
    if i > 0 {
      assert switches[..i][i - 1] == switches[i - 1];
      assert IsOn(switches[i - 1], tid) != IsOn(switches[i - 1 + 1], tid);
    }
  }

  lemma FirstTie(switches: seq<UnifiedEvent>) returns (i: nat)
    requires Sorted(switches) && !Increasing(switches)
    ensures Tied(switches, i)
  {
    var a, b :| 0 <= a < b < |switches| && switches[a].timestamp >= switches[b].timestamp;
    i := a;
    assert CompareEvents(switches[a], switches[a + 1]) <= 0;
    if a + 1 < b {
      assert CompareEvents(switches[a + 1], switches[b]) <= 0;
    }
  }

  // ---- exactness for every sort ----

  /** The track is the ideal one, however the sort breaks ties. */
  ghost predicate AlwaysExact(start: Running, run: seq<SchedStep>, arrivals: seq<Arrival>, tid: uint32) {
    forall order: seq<UnifiedEvent> :: SortedPermutation(order, First(TaggedAll(arrivals), MAX_EVENTS)) ==>
      Track(TraceEvents(order), tid) == FullTrack(Spans(start, run, |run|, tid), MinTimestamp(order, |order|), tid)
  }

  /** The clock does not go back between two switches of the thread. */
  predicate InWeakTime(target: uint32, run: seq<SchedStep>, tid: uint32) {
    Sorted(Reported(target, run, |run|, tid))
  }

  predicate NoTies(target: uint32, run: seq<SchedStep>, tid: uint32) {
    Increasing(Reported(target, run, |run|, tid))
  }

  /** A sort that leaves the thread's switches in the order `sel`. */
  lemma SortLeaving(target: uint32, run: seq<SchedStep>, arrivals: seq<Arrival>, tid: uint32, sel: seq<UnifiedEvent>)
    returns (order: seq<UnifiedEvent>)
    requires CpuOnly(arrivals) == Ring(target, run, |run|) && |arrivals| <= MAX_EVENTS
    requires SortedPermutation(sel, Reported(target, run, |run|, tid))
    ensures SortedPermutation(order, First(TaggedAll(arrivals), MAX_EVENTS)) && OnlyOf(order, tid) == sel
  {
    hide *;
    OnlyOfArrivals(arrivals, tid);
    ReportedIs(target, run, |run|, tid);
    OnlyOfIs(TaggedAll(arrivals), tid);
    order := Arrange(TaggedAll(arrivals), SwitchOf(tid), sel);
    OnlyOfIs(order, tid);
    AllFit(arrivals);
  }

  /** In whatever order the thread's switches end up, they are the reported ones rearranged. */
  lemma LeftBySort(target: uint32, run: seq<SchedStep>, arrivals: seq<Arrival>, tid: uint32, order: seq<UnifiedEvent>)
    requires CpuOnly(arrivals) == Ring(target, run, |run|) && |arrivals| <= MAX_EVENTS
    requires SortedPermutation(order, First(TaggedAll(arrivals), MAX_EVENTS))
    ensures SortedPermutation(OnlyOf(order, tid), Reported(target, run, |run|, tid))
  {
    hide *;
    OnlyOfArrivals(arrivals, tid);
    ReportedIs(target, run, |run|, tid);
    OnlyOfIs(TaggedAll(arrivals), tid);
    OnlyOfIs(order, tid);
    AllFit(arrivals);
    KeepSortedPermutation(order, TaggedAll(arrivals), SwitchOf(tid));
  }

  /** The marks of the reported switches are the ideal track exactly if every finished interval is
      closable. */
  lemma IdealMarks(start: Running, run: seq<SchedStep>, target: uint32, base: uint64, tid: uint32)
    requires Watched(start, run, target, tid)
    ensures AllSwitches(Reported(target, run, |run|, tid), tid)
    ensures Marks(Reported(target, run, |run|, tid), base, tid) ==
            FullTrack(Spans(start, run, |run|, tid), base, tid) <==>
            AllClosable(Spans(start, run, |run|, tid), tid)
  {
    hide *;
    WatchedMeans(start, run, target, tid);
    MarksAreSpans(start, run, |run|, target, base, tid);
    StepResult(start, run, |run|, target, base, tid);
    FullIffClosable(Spans(start, run, |run|, tid), base, tid);
    ReportedAllSwitches(target, run, tid);
  }

  lemma ReportedAllSwitches(target: uint32, run: seq<SchedStep>, tid: uint32)
    ensures AllSwitches(Reported(target, run, |run|, tid), tid)
  {
  }

  /** The harmless tie is harmless. */
  lemma HarmlessMarks(sel: seq<UnifiedEvent>, switches: seq<UnifiedEvent>, base: uint64, tid: uint32)
    requires Harmless(switches, tid) && SortedPermutation(sel, switches)
    ensures AllSwitches(sel, tid) && AllSwitches(switches, tid)
    ensures Marks(sel, base, tid) == Marks(switches, base, tid)
  {
    var x, y := switches[0], switches[1];
    assert switches == [x, y];
    TwoPermuted(sel, x, y);
    EmitHarmless(x, y, base, tid);
    hide *;
    MarksOfTwo(x, y, base, tid);
    MarksOfTwo(y, x, base, tid);
  }

  lemma EmitHarmless(x: UnifiedEvent, y: UnifiedEvent, base: uint64, tid: uint32)
    requires IsOff(x, tid) && IsOn(y, tid) && (y.timestamp == 0 || tid >= TID_LIMIT)
    ensures Emit(0, x, base, tid) + Emit(PendingAfter(x, tid), y, base, tid) ==
            Emit(0, y, base, tid) + Emit(PendingAfter(y, tid), x, base, tid)
  {
    hide SubU64;
    assert Emit(0, y, base, tid) == Emit(PendingAfter(x, tid), y, base, tid);
  }

  lemma MarksOfTwo(x: UnifiedEvent, y: UnifiedEvent, base: uint64, tid: uint32)
    requires (IsOn(x, tid) || IsOff(x, tid)) && (IsOn(y, tid) || IsOff(y, tid))
    ensures AllSwitches([x, y], tid)
    ensures Marks([x, y], base, tid) == Emit(0, x, base, tid) + Emit(PendingAfter(x, tid), y, base, tid)
  {
    hide Marks, Emit, Pending, PendingAfter;
    NoMarks(base, tid);
    RestOfTwo(0, x, y, [], base, tid);
    assert [x, y] + [] == [x, y] && [] + [x, y] == [x, y];
    MarksSplit([], [x, y], base, tid);
    assert Emit(PendingAfter(x, tid), y, base, tid) + [] == Emit(PendingAfter(x, tid), y, base, tid);
  }

  lemma TwoPermuted<T>(sel: seq<T>, x: T, y: T)
    requires multiset(sel) == multiset([x, y]) && x != y
    ensures sel == [x, y] || sel == [y, x]
  {
    assert |sel| == |multiset(sel)| == 2;
    var a, b := sel[0], sel[1];
    assert sel == [a, b];
    assert a in multiset([x, y]) && b in multiset([x, y]);
    assert multiset([a, b])[x] == 1;
  }

  /** For a machine run whose clock does not go back: the trace of the thread is exact for every
      outcome of the sort if and only if every finished interval is closable and no two of its reported
      switches have equal timestamps, except for the one harmless tie. */
  lemma {:induction false} AlwaysExactIff(start: Running, run: seq<SchedStep>, target: uint32, arrivals: seq<Arrival>,
                                          tid: uint32)
    requires Watched(start, run, target, tid) && InWeakTime(target, run, tid)
    requires CpuOnly(arrivals) == Ring(target, run, |run|) && |arrivals| <= MAX_EVENTS
    ensures AlwaysExact(start, run, arrivals, tid) <==>
            && AllClosable(Spans(start, run, |run|, tid), tid)
            && (NoTies(target, run, tid) || Harmless(Reported(target, run, |run|, tid), tid))
  {
    hide *;
    if AlwaysExact(start, run, arrivals, tid) {
      ExactMeansNoTies(start, run, target, arrivals, tid);
    }
    if AllClosable(Spans(start, run, |run|, tid), tid) &&
       (NoTies(target, run, tid) || Harmless(Reported(target, run, |run|, tid), tid))
    {
      NoTiesMeansExact(start, run, target, arrivals, tid);
    }
  }

  lemma ExactAt(start: Running, run: seq<SchedStep>, arrivals: seq<Arrival>, tid: uint32, order: seq<UnifiedEvent>)
    requires AlwaysExact(start, run, arrivals, tid) && SortedPermutation(order, First(TaggedAll(arrivals), MAX_EVENTS))
    ensures Track(TraceEvents(order), tid) ==
            FullTrack(Spans(start, run, |run|, tid), MinTimestamp(order, |order|), tid)
  {
    hide Track, TraceEvents, FullTrack, Spans, MinTimestamp, SortedPermutation, First, TaggedAll;
  }

  lemma WeakTimeMeans(target: uint32, run: seq<SchedStep>, tid: uint32)
    ensures InWeakTime(target, run, tid) <==> Sorted(Reported(target, run, |run|, tid))
    ensures NoTies(target, run, tid) <==> Increasing(Reported(target, run, |run|, tid))
  {
  }

  lemma SameSorted(s: seq<UnifiedEvent>)
    requires Sorted(s)
    ensures SortedPermutation(s, s)
  {
  }

  lemma ExactMeansNoTies(start: Running, run: seq<SchedStep>, target: uint32, arrivals: seq<Arrival>, tid: uint32)
    requires Watched(start, run, target, tid) && InWeakTime(target, run, tid)
    requires CpuOnly(arrivals) == Ring(target, run, |run|) && |arrivals| <= MAX_EVENTS
    requires AlwaysExact(start, run, arrivals, tid)
    ensures AllClosable(Spans(start, run, |run|, tid), tid)
    ensures NoTies(target, run, tid) || Harmless(Reported(target, run, |run|, tid), tid)
  {
    hide *;
    var switches := Reported(target, run, |run|, tid);
    WeakTimeMeans(target, run, tid);
    SameSorted(switches);
    var stable := SortLeaving(target, run, arrivals, tid, switches);
    ExactAt(start, run, arrivals, tid, stable);
    OrderTrack(stable, tid);
    IdealMarks(start, run, target, MinTimestamp(stable, |stable|), tid);
    WatchedMeans(start, run, target, tid);
    RunTells(start, run, |run|, target, tid);
    TellsMeans(switches, Spans(start, run, |run|, tid), IsRunning(RunningAt(start, run, |run|), tid), tid);
    if !NoTies(target, run, tid) && !Harmless(switches, tid) {
      var base := MinTimestamp(stable, |stable|);
      var i := HarmfulTie(switches, base, tid);
      SwapIsSorted(switches, i);
      var other := SortLeaving(target, run, arrivals, tid, Swapped(switches, i));
      SameBase(stable, other, First(TaggedAll(arrivals), MAX_EVENTS));
      ExactAt(start, run, arrivals, tid, other);
      OrderTrack(other, tid);
    }
  }

  lemma TellsMeans(switches: seq<UnifiedEvent>, spans: seq<Span>, runs: bool, tid: uint32)
    requires Tells(switches, spans, runs, tid)
    ensures Alternating(switches, tid) && (AllClosable(spans, tid) ==> StartsClosable(switches, tid))
  {
  }

  /** Two sorts of the same events have the same base. */
  lemma SameBase(a: seq<UnifiedEvent>, b: seq<UnifiedEvent>, events: seq<UnifiedEvent>)
    requires SortedPermutation(a, events) && SortedPermutation(b, events)
    ensures MinTimestamp(a, |a|) == MinTimestamp(b, |b|)
  {
    MinNotAbove(a, b);
    MinNotAbove(b, a);
  }

  lemma MinNotAbove(a: seq<UnifiedEvent>, b: seq<UnifiedEvent>)
    requires multiset(a) == multiset(b)
    ensures MinTimestamp(a, |a|) <= MinTimestamp(b, |b|)
  {
    assert |a| == |multiset(a)| == |multiset(b)| == |b|;
    var m := MinTimestamp(b, |b|);
    if b != [] {
      var i :| 0 <= i < |b| && m == b[i].timestamp;
      assert b[i] in multiset(a);
      var j :| 0 <= j < |a| && a[j] == b[i];
    }
  }

  lemma NoTiesMeansExact(start: Running, run: seq<SchedStep>, target: uint32, arrivals: seq<Arrival>, tid: uint32)
    requires Watched(start, run, target, tid) && InWeakTime(target, run, tid)
    requires CpuOnly(arrivals) == Ring(target, run, |run|) && |arrivals| <= MAX_EVENTS
    requires AllClosable(Spans(start, run, |run|, tid), tid)
    requires NoTies(target, run, tid) || Harmless(Reported(target, run, |run|, tid), tid)
    ensures AlwaysExact(start, run, arrivals, tid)
  {
    hide *;
    forall order: seq<UnifiedEvent> | SortedPermutation(order, First(TaggedAll(arrivals), MAX_EVENTS))
      ensures Track(TraceEvents(order), tid) ==
              FullTrack(Spans(start, run, |run|, tid), MinTimestamp(order, |order|), tid)
    {
      var switches, base := Reported(target, run, |run|, tid), MinTimestamp(order, |order|);
      LeftBySort(target, run, arrivals, tid, order);
      OrderTrack(order, tid);
      IdealMarks(start, run, target, base, tid);
      if NoTies(target, run, tid) {
        WeakTimeMeans(target, run, tid);
        PermutationMeans(OnlyOf(order, tid), switches);
        SortedIsUnique(switches, OnlyOf(order, tid));
      } else {
        HarmlessMarks(OnlyOf(order, tid), switches, base, tid);
      }
    }
    AlwaysExactMeans(start, run, arrivals, tid);
  }

  lemma AlwaysExactMeans(start: Running, run: seq<SchedStep>, arrivals: seq<Arrival>, tid: uint32)
    requires forall order: seq<UnifiedEvent> :: SortedPermutation(order, First(TaggedAll(arrivals), MAX_EVENTS)) ==>
               Track(TraceEvents(order), tid) ==
               FullTrack(Spans(start, run, |run|, tid), MinTimestamp(order, |order|), tid)
    ensures AlwaysExact(start, run, arrivals, tid)
  {
    hide Track, TraceEvents, FullTrack, Spans, MinTimestamp, SortedPermutation, First, TaggedAll;
  }

  // ---- two runs with a tie ----

  /** Thread 5 goes on and off within one clock reading. */
  function OnAndOff(t: uint64): seq<SchedStep> {
    [At(0, 0, 5, t), At(0, 5, 0, t)]
  }

  /** Thread 5 goes off and on within one clock reading. */
  function OffAndOn(t: uint64): seq<SchedStep> {
    [At(0, 5, 0, t), At(0, 0, 5, t)]
  }

  function EventOf5(kind: uint32, t: uint64): UnifiedEvent {
    Cpu(t, CpuSchedEvent(t, kind, 5, 5, 0, 0, -1, ""))
  }

  lemma TwoStepsPossible(t: uint64)
    ensures Watched(map[0 := 0], OnAndOff(t), 0, 5)
    ensures Watched(map[0 := 5], OffAndOn(t), 0, 5)
  {
    TwoSteps(map[0 := 0], OnAndOff(t));
    TwoSteps(map[0 := 5], OffAndOn(t));
  }

  lemma TwoSteps(start: Running, run: seq<SchedStep>)
    requires |run| == 2 && Exclusive(start) && Possible(start, run[0]) && Possible(Next(start, run[0]), run[1])
    ensures ValidRun(start, run)
    ensures RunningAt(start, run, 1) == Next(start, run[0])
  {
    hide Exclusive, Possible, Next;
    assert RunningAt(start, run, 0) == start;
    assert RunningAt(start, run, 1) == Next(start, run[0]);
    hide RunningAt;
    assert ValidUpTo(start, run, 0);
    assert ValidUpTo(start, run, 1);
    assert ValidUpTo(start, run, 2);
  }

  lemma TwoReports(t: uint64)
    ensures Reported(0, OnAndOff(t), 2, 5) == [EventOf5(CPU_SCHED_ON, t), EventOf5(CPU_SCHED_OFF, t)]
    ensures Reported(0, OffAndOn(t), 2, 5) == [EventOf5(CPU_SCHED_OFF, t), EventOf5(CPU_SCHED_ON, t)]
  {
    TwoStepsPossible(t);
    var a, b := OnAndOff(t), OffAndOn(t);
    NothingAtStart(0, a, 5);
    NothingAtStart(0, b, 5);
    hide ValidRun, Reported;
    ReportedStep(map[0 := 0], 0, a, 0, 5);
    ReportedStep(map[0 := 0], 0, a, 1, 5);
    ReportedStep(map[0 := 5], 0, b, 0, 5);
    ReportedStep(map[0 := 5], 0, b, 1, 5);
    assert [] + [EventOf5(CPU_SCHED_ON, t)] + [EventOf5(CPU_SCHED_OFF, t)] ==
           [EventOf5(CPU_SCHED_ON, t), EventOf5(CPU_SCHED_OFF, t)];
    assert [] + [EventOf5(CPU_SCHED_OFF, t)] + [EventOf5(CPU_SCHED_ON, t)] ==
           [EventOf5(CPU_SCHED_OFF, t), EventOf5(CPU_SCHED_ON, t)];
  }

  /** A tie that loses an end under some sort. */
  lemma TieLosesAnEnd(t: uint64, arrivals: seq<Arrival>)
    requires CpuOnly(arrivals) == Ring(0, OnAndOff(t), 2) && |arrivals| <= MAX_EVENTS
    ensures !AlwaysExact(map[0 := 0], OnAndOff(t), arrivals, 5)
  {
    hide *;
    TwoLong(t);
    TwoStepsPossible(t);
    TwoReports(t);
    TiedPair(EventOf5(CPU_SCHED_ON, t), EventOf5(CPU_SCHED_OFF, t), t);
    WeakTimeMeans(0, OnAndOff(t), 5);
    AlwaysExactIff(map[0 := 0], OnAndOff(t), 0, arrivals, 5);
    HarmlessStart([EventOf5(CPU_SCHED_ON, t), EventOf5(CPU_SCHED_OFF, t)], t);
  }

  /** The harmless tie happens: equal timestamps alone do not spoil exactness. */
  lemma TieCanBeHarmless(arrivals: seq<Arrival>)
    requires CpuOnly(arrivals) == Ring(0, OffAndOn(0), 2) && |arrivals| <= MAX_EVENTS
    ensures !NoTies(0, OffAndOn(0), 5) && AlwaysExact(map[0 := 5], OffAndOn(0), arrivals, 5)
  {
    hide *;
    TwoLong(0);
    TwoStepsPossible(0);
    TwoReports(0);
    TiedPair(EventOf5(CPU_SCHED_OFF, 0), EventOf5(CPU_SCHED_ON, 0), 0);
    WeakTimeMeans(0, OffAndOn(0), 5);
    HarmlessStart([EventOf5(CPU_SCHED_OFF, 0), EventOf5(CPU_SCHED_ON, 0)], 0);
    WatchedMeans(map[0 := 5], OffAndOn(0), 0, 5);
    NothingFinished();
    AlwaysExactIff(map[0 := 5], OffAndOn(0), 0, arrivals, 5);
  }

  lemma TwoLong(t: uint64)
    ensures |OnAndOff(t)| == |OffAndOn(t)| == 2
  {
  }

  lemma TiedPair(a: UnifiedEvent, b: UnifiedEvent, t: uint64)
    requires a == EventOf5(CPU_SCHED_ON, t) || a == EventOf5(CPU_SCHED_OFF, t)
    requires b == EventOf5(CPU_SCHED_ON, t) || b == EventOf5(CPU_SCHED_OFF, t)
    ensures Sorted([a, b]) && !Increasing([a, b])
  {
    var s := [a, b];
    assert s[0].timestamp == s[1].timestamp;
  }

  lemma HarmlessStart(switches: seq<UnifiedEvent>, t: uint64)
    ensures switches == [EventOf5(CPU_SCHED_ON, t), EventOf5(CPU_SCHED_OFF, t)] ==> !Harmless(switches, 5)
    ensures switches == [EventOf5(CPU_SCHED_OFF, 0), EventOf5(CPU_SCHED_ON, 0)] ==> Harmless(switches, 5)
  {
  }

  lemma NothingFinished()
    ensures AllClosable(Spans(map[0 := 5], OffAndOn(0), 2, 5), 5)
  {
    var start, run := map[0 := 5], OffAndOn(0);
    TwoStepsPossible(0);
    WatchedMeans(start, run, 0, 5);
    SpanStep(start, run, 0, 5);
    SpanStep(start, run, 1, 5);
  }
}
