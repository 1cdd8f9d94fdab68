// The slices of a well-nested thread are its calls: how many of them, and what the sort may do with
// calls entered at one clock reading.
module SliceTies {

  import opened Types
  import opened CudaApi
  import opened CudaTracer
  import opened CudaRuns
  import opened CallTrees
  import opened StreamRows
  import opened Collector
  import opened Sorting
  import opened ChromeTrace
  import opened TraceProofs
  import opened GpuTimeline

  /** The slice of a call: its own times, as true differences, thread and stream row, the function that
      was called, its own arguments and result. */
  function CallSlice(l: Leaf, base: uint64): Slice
    requires LeafOk(l)
  {
    var enter, exit := l.enter.probe, l.exit.probe;
    var ts, dur, pid, tid := enter.now - base, exit.now - enter.now, PidOf(enter.key), TidOf(exit.key);
    match CallMade(enter.op, enter.regs)
    case None =>
      Slice(ts, dur, pid, Row(tid, 0), "Unknown", "gpu", exit.ret, exit.comm, None, false, None, None)
    case Some(c) =>
      Slice(ts, dur, pid, Row(tid, Stream(c)), Symbol(c), Category(c), exit.ret, exit.comm,
            if Stream(c) != 0 then Some(Stream(c)) else None, ReturnsEarly(c), Bytes(c), Freed(c))
  }

  predicate LeavesOk(calls: seq<Leaf>) {
    forall i :: 0 <= i < |calls| ==> LeafOk(calls[i])
  }

  /** The slices of some calls, one after the other. */
  function CallSlices(calls: seq<Leaf>, base: uint64): (r: seq<Slice>)
    requires LeavesOk(calls)
    ensures |r| == |calls| && forall i :: 0 <= i < |calls| ==> r[i] == CallSlice(calls[i], base)
  {
    seq(|calls|, i requires 0 <= i < |calls| => CallSlice(calls[i], base))
  }

  // ---- the calls of a thread, in the order of their entries ----

  /** Calls that are over take no negative time, and are listed in the order of their entries. */
  predicate CallsInTime(calls: seq<Leaf>) {
    && LeavesOk(calls)
    && (forall i :: 0 <= i < |calls| ==> calls[i].enter.probe.now <= calls[i].exit.probe.now)
    && (forall i, j :: 0 <= i < j < |calls| ==> calls[i].enter.probe.now <= calls[j].enter.probe.now)
  }

  /** Times on one thread do not go back. */
  predicate ProbesInTime(s: seq<Fired>) {
    forall i, j :: 0 <= i < j < |s| ==> s[i].probe.now <= s[j].probe.now
  }

  lemma {:induction false} ThreadInTime(cfg: Config, counters: map<nat, uint64>, run: seq<Probe>, key: uint64, n: nat)
    requires n <= |run| && MonotoneClock(run)
    ensures ProbesInTime(Thread(cfg, counters, run, key, n))
    ensures forall f :: f in Thread(cfg, counters, run, key, n) ==> exists i :: 0 <= i < n && run[i] == f.probe
  {
    hide Recorded;
    if n > 0 {
      ThreadInTime(cfg, counters, run, key, n - 1);
      var s := Thread(cfg, counters, run, key, n - 1);
      forall f | f in s ensures f.probe.now <= run[n - 1].now {
        var i :| 0 <= i < n - 1 && run[i] == f.probe;
      }
      assert FiredAt(cfg, counters, run, n - 1).probe == run[n - 1];
      forall f | f in Thread(cfg, counters, run, key, n) ensures exists i :: 0 <= i < n && run[i] == f.probe {
        if f in s {
          var i :| 0 <= i < n - 1 && run[i] == f.probe;
          assert run[i] == f.probe;
        } else {
          assert f.probe == run[n - 1];
        }
      }
    }
  }

  /** A call that does not come before the others. */
  predicate Latest(calls: seq<Leaf>, l: Leaf) {
    && LeafOk(l) && l.enter.probe.now <= l.exit.probe.now
    && forall c :: c in calls && LeafOk(c) ==> c.enter.probe.now <= l.enter.probe.now
  }

  lemma InTimeSnoc(calls: seq<Leaf>, l: Leaf)
    requires CallsInTime(calls) && Latest(calls, l)
    ensures CallsInTime(calls + [l])
  {
    var all := calls + [l];
    assert all[|calls|] == l;
    assert forall i :: 0 <= i < |calls| ==> all[i] == calls[i] && calls[i] in calls;
  }

  lemma InTimeLast(calls: seq<Leaf>)
    requires CallsInTime(calls) && calls != []
    ensures CallsInTime(calls[..|calls| - 1]) && Latest(calls[..|calls| - 1], calls[|calls| - 1])
  {
  }

  lemma BeforeLast(s: seq<Fired>)
    requires ProbesInTime(s) && |s| >= 2
    ensures var n := |s| - 1;
            && ProbesInTime(s[..n]) && s[n - 1] in s && s[n - 1].probe.now <= s[n].probe.now
            && forall f :: f in s[..n] ==> f in s && f.probe.now <= s[n - 1].probe.now
  {
  }

  lemma {:induction false} PairsInTime(s: seq<Fired>)
    requires ProbesInTime(s)
    ensures CallsInTime(Adj(s))
    ensures forall l :: l in Adj(s) ==> l.enter in s
  {
    hide ProbesInTime;
    if |s| >= 2 {
      hide CallsInTime;
      var n := |s| - 1;
      BeforeLast(s);
      PairsInTime(s[..n]);
      if Adjacent(s[n - 1], s[n]) {
        InTimeSnoc(Adj(s[..n]), Leaf(s[n - 1], s[n]));
      }
    }
  }

  lemma {:induction false} LuckyInTime(calls: seq<Leaf>)
    requires CallsInTime(calls)
    ensures CallsInTime(Lucky(calls))
  {
    hide CallsInTime, LeafOk;
    if calls != [] {
      var init, last := calls[..|calls| - 1], calls[|calls| - 1];
      InTimeLast(calls);
      LuckyInTime(init);
      assert forall c :: c in Lucky(init) ==> c in init;
      InTimeSnoc(Lucky(init), last);
    }
  }

  lemma FirstInTime(calls: seq<Leaf>, m: nat)
    requires CallsInTime(calls) && m <= |calls|
    ensures CallsInTime(calls[..m])
  {
  }

  // ---- what is stored of them ----

  /** A thread makes well-nested calls, `done` and `open`, in any interleaving with other threads, and
      the CUDA ring reaches the collector. */
  predicate Observed(cfg: Config, counters: map<nat, uint64>, run: seq<Probe>, key: uint64,
                     done: seq<Call>, open: seq<OpenCall>, arrivals: seq<Arrival>) {
    && CallsOk(key, done) && OpensOk(key, open) && MonotoneClock(run)
    && Thread(cfg, counters, run, key, |run|) == FlatAll(done) + FlatOpen(open)
    && GpuOnly(arrivals) == After(cfg, counters, run, |run|).ring
  }

  /** The number of CUDA records of the thread that fit the event array. */
  function StoredCount(arrivals: seq<Arrival>, key: uint64): nat {
    |ThreadEvents(GpuOnly(First(arrivals, MAX_EVENTS)), key)|
  }

  /** The first of the thread's childless calls that found room: as many as fit the event array. */
  function StoredCalls(done: seq<Call>, open: seq<OpenCall>, arrivals: seq<Arrival>, key: uint64): seq<Leaf> {
    First(Lucky(LeavesAll(done) + LeavesOpen(open)), StoredCount(arrivals, key))
  }

  lemma {:induction false} GpuLosesSuffix(arrivals: seq<Arrival>, n: nat)
    requires n <= |arrivals|
    ensures GpuOnly(arrivals[..n]) <= GpuOnly(arrivals)
    decreases |arrivals|
  {
    if n == |arrivals| {
      assert arrivals[..n] == arrivals;
    } else {
      var init := arrivals[..|arrivals| - 1];
      GpuLosesSuffix(init, n);
      assert init[..n] == arrivals[..n];
    }
  }

  lemma {:induction false} EventsPrefix(ring: seq<CudaEvent>, n: nat, key: uint64)
    requires n <= |ring|
    ensures ThreadEvents(ring[..n], key) <= ThreadEvents(ring, key)
    decreases |ring|
  {
    hide ReportOf;
    if n == |ring| {
      assert ring[..n] == ring;
    } else {
      var init := ring[..|ring| - 1];
      EventsPrefix(init, n, key);
      assert init[..n] == ring[..n];
    }
  }

  lemma FirstOf<T>(s: seq<T>, n: nat)
    ensures exists k :: 0 <= k <= |s| && First(s, n) == s[..k]
    ensures |s| <= n ==> First(s, n) == s
  {
    assert s[..|s|] == s;
    assert First(s, n) == s[..Min(n, |s|)];
  }

  lemma TagFirst(arrivals: seq<Arrival>)
    ensures First(TaggedAll(arrivals), MAX_EVENTS) == TaggedAll(First(arrivals, MAX_EVENTS))
  {
  }

  lemma StoredPrefix(arrivals: seq<Arrival>, key: uint64)
    ensures ThreadEvents(GpuOnly(First(arrivals, MAX_EVENTS)), key) <= ThreadEvents(GpuOnly(arrivals), key)
  {
    hide *;
    FirstOf(arrivals, MAX_EVENTS);
    var k :| 0 <= k <= |arrivals| && First(arrivals, MAX_EVENTS) == arrivals[..k];
    GpuLosesSuffix(arrivals, k);
    var ring := GpuOnly(arrivals);
    assert GpuOnly(arrivals[..k]) == ring[..|GpuOnly(arrivals[..k])|];
    EventsPrefix(ring, |GpuOnly(arrivals[..k])|, key);
  }

  lemma {:induction false} ExpectedAt(leaves: seq<Leaf>, i: nat)
    requires forall j :: 0 <= j < |leaves| ==> LeafOk(leaves[j])
    requires i < |leaves|
    ensures |AllExpected(leaves)| == |leaves| && AllExpected(leaves)[i] == Expected(leaves[i])
  {
    hide Expected;
    var n := |leaves| - 1;
    assert LeafOk(leaves[n]);
    if n > 0 {
      ExpectedAt(leaves[..n], if i < n then i else 0);
    } else {
      assert leaves[..n] == [];
    }
  }

  lemma NothingExpected()
    ensures AllExpected([]) == []
  {
  }

  lemma {:induction false} ExpectedPrefix(calls: seq<Leaf>, reports: seq<Report>)
    requires LeavesOk(calls) && reports <= AllExpected(calls)
    ensures |reports| <= |calls| && First(calls, |reports|) == calls[..|reports|]
    ensures LeavesOk(calls[..|reports|]) && reports == AllExpected(calls[..|reports|])
  {
    hide AllExpected, Expected, LeafOk;
    NothingExpected();
    LeavesAreOk(calls);
    if calls != [] {
      ExpectedAt(calls, 0);
    }
    var some := calls[..|reports|];
    if some != [] {
      ExpectedAt(some, 0);
    }
    forall i | 0 <= i < |reports| ensures reports[i] == AllExpected(some)[i] {
      ExpectedAt(calls, i);
      ExpectedAt(some, i);
    }
  }

  lemma LeavesAreOk(calls: seq<Leaf>)
    requires LeavesOk(calls)
    ensures forall i :: 0 <= i < |calls| ==> LeafOk(calls[i])
  {
  }

  /** What the event array holds of the thread are its first calls that found room. */
  lemma {:induction false} CallsStored(cfg: Config, counters: map<nat, uint64>, run: seq<Probe>, key: uint64,
                                       done: seq<Call>, open: seq<OpenCall>, arrivals: seq<Arrival>)
    requires Observed(cfg, counters, run, key, done, open, arrivals)
    ensures var calls := StoredCalls(done, open, arrivals, key);
            && CallsInTime(calls) && LeavesOk(calls)
            && ToldBy(First(TaggedAll(arrivals), MAX_EVENTS), key) == AllExpected(calls)
            && calls <= Lucky(LeavesAll(done) + LeavesOpen(open))
            && (|arrivals| <= MAX_EVENTS ==> calls == Lucky(LeavesAll(done) + LeavesOpen(open)))
  {
    hide *;
    ObservedMeans(cfg, counters, run, key, done, open, arrivals);
    var leaves := LeavesAll(done) + LeavesOpen(open);
    var lucky := Lucky(leaves);
    LeafCallsReported(cfg, counters, run, key, done, open);
    ThreadInTime(cfg, counters, run, key, |run|);
    AdjTrace(key, done, open);
    PairsInTime(Thread(cfg, counters, run, key, |run|));
    LuckyInTime(leaves);
    InTimeAreOk(lucky);
    var reports := ThreadEvents(GpuOnly(First(arrivals, MAX_EVENTS)), key);
    StoredPrefix(arrivals, key);
    ExpectedPrefix(lucky, reports);
    FirstInTime(lucky, |reports|);
    TagFirst(arrivals);
    ToldIsRing(First(arrivals, MAX_EVENTS), key);
    FirstOf(arrivals, MAX_EVENTS);
    if |arrivals| <= MAX_EVENTS {
      ExpectedLong(lucky);
    }
    StoredCallsAre(done, open, arrivals, key);
  }

  lemma ExpectedLong(calls: seq<Leaf>)
    requires LeavesOk(calls)
    ensures |AllExpected(calls)| == |calls|
  {
    hide AllExpected;
    NothingExpected();
    if calls != [] {
      ExpectedAt(calls, 0);
    }
  }

  lemma InTimeAreOk(calls: seq<Leaf>)
    requires CallsInTime(calls)
    ensures LeavesOk(calls) && forall i :: 0 <= i < |calls| ==> LeafOk(calls[i])
  {
  }

  lemma ObservedMeans(cfg: Config, counters: map<nat, uint64>, run: seq<Probe>, key: uint64,
                      done: seq<Call>, open: seq<OpenCall>, arrivals: seq<Arrival>)
    requires Observed(cfg, counters, run, key, done, open, arrivals)
    ensures CallsOk(key, done) && OpensOk(key, open) && MonotoneClock(run)
    ensures Thread(cfg, counters, run, key, |run|) == FlatAll(done) + FlatOpen(open)
    ensures GpuOnly(arrivals) == After(cfg, counters, run, |run|).ring
  {
  }

  lemma StoredCallsAre(done: seq<Call>, open: seq<OpenCall>, arrivals: seq<Arrival>, key: uint64)
    ensures StoredCalls(done, open, arrivals, key) ==
            First(Lucky(LeavesAll(done) + LeavesOpen(open)), |ThreadEvents(GpuOnly(First(arrivals, MAX_EVENTS)), key)|)
  {
  }

  // ---- from stored events to slices ----

  /** The selected events are those of the calls, one for one. */
  predicate Matches(kept: seq<UnifiedEvent>, calls: seq<Leaf>) {
    && CallsInTime(calls) && |kept| == |calls|
    && forall i :: 0 <= i < |kept| ==>
         && kept[i].Gpu? && kept[i].timestamp == kept[i].gpu.timestamp == calls[i].enter.probe.now
         && ReportOf(kept[i].gpu) == Expected(calls[i])
  }

  lemma TagTimes(arrivals: seq<Arrival>, e: UnifiedEvent)
    requires e in TaggedAll(arrivals) && e.Gpu?
    ensures e.timestamp == e.gpu.timestamp
  {
  }

  lemma {:induction false} KeptMatches(arrivals: seq<Arrival>, calls: seq<Leaf>, key: uint64)
    requires CallsInTime(calls) && LeavesOk(calls)
    requires ToldBy(TaggedAll(arrivals), key) == AllExpected(calls)
    ensures Matches(Keep(TaggedAll(arrivals), GpuOf(key)), calls)
  {
    var kept := Keep(TaggedAll(arrivals), GpuOf(key));
    hide Keep, AllExpected, TaggedAll, Expected, ReportOf;
    ExpectedLong(calls);
    forall i | 0 <= i < |kept|
      ensures kept[i].Gpu? && kept[i].timestamp == kept[i].gpu.timestamp == calls[i].enter.probe.now
      ensures ReportOf(kept[i].gpu) == Expected(calls[i])
    {
      ExpectedAt(calls, i);
      assert GpuOf(key)(kept[i]) && kept[i] in TaggedAll(arrivals);
      TagTimes(arrivals, kept[i]);
      SameTime(kept[i].gpu, calls[i]);
    }
  }

  lemma SameTime(g: CudaEvent, l: Leaf)
    requires LeafOk(l) && ReportOf(g) == Expected(l)
    ensures g.timestamp == l.enter.probe.now
  {
  }

  lemma MatchSorted(kept: seq<UnifiedEvent>, calls: seq<Leaf>)
    requires Matches(kept, calls)
    ensures Sorted(kept)
  {
    hide ReportOf, Expected;
  }

  /** The slice of an event of a thread. */
  function EventSlice(e: UnifiedEvent, base: uint64): Slice
    requires e.Gpu?
  {
    SliceFor(ReportOf(e.gpu), base)
  }

  lemma BaseBelow(order: seq<UnifiedEvent>, e: UnifiedEvent)
    requires e in order
    ensures MinTimestamp(order, |order|) <= e.timestamp
  {
    var i :| 0 <= i < |order| && order[i] == e;
  }

  lemma SliceOfCall(l: Leaf, base: uint64)
    requires LeafOk(l) && base <= l.enter.probe.now <= l.exit.probe.now
    ensures SliceFor(Expected(l), base) == CallSlice(l, base)
  {
    hide Row, OpName, OpCategory, CallMade, HasSize, Symbol, Category, Bytes, Stream, Object, Freed, ReturnsEarly;
    var enter := l.enter.probe;
    NamesOfCall(enter.op, enter.regs);
  }

  /** How the emitter names and sorts an operation: by the function that its probes are attached to, and by
      what that function does. */
  lemma NamesOfCall(op: uint32, r: Regs)
    ensures var made := CallMade(op, r);
            && (made.None? ==> OpName(op) == "Unknown" && OpCategory(op) == "gpu" && !HasSize(op) && op != 2)
            && (made.Some? ==>
                  && OpName(op) == Symbol(made.value) && OpCategory(op) == Category(made.value)
                  && (HasSize(op) <==> Bytes(made.value).Some?)
                  && Freed(made.value) ==
                     if op == 2 && Object(made.value) != 0 then Some(Object(made.value)) else None)
  {
  }

  lemma MatchSlice(kept: seq<UnifiedEvent>, calls: seq<Leaf>, i: nat, base: uint64)
    requires Matches(kept, calls) && i < |kept| && base <= kept[i].timestamp
    ensures kept[i].Gpu? && LeafOk(calls[i]) && EventSlice(kept[i], base) == CallSlice(calls[i], base)
  {
    hide ReportOf, Expected, SliceFor, CallSlice;
    SliceOfCall(calls[i], base);
  }

  lemma OrderTimed(arrivals: seq<Arrival>, order: seq<UnifiedEvent>)
    requires SortedPermutation(order, TaggedAll(arrivals))
    ensures Timed(order)
  {
    hide TaggedAll;
    forall i | 0 <= i < |order| && order[i].Gpu? ensures order[i].timestamp == order[i].gpu.timestamp {
      assert order[i] in multiset(TaggedAll(arrivals));
      TagTimes(arrivals, order[i]);
    }
  }

  /** The slices printed for a thread are those of its events, in the order the sort left them in. */
  lemma {:induction false} PrintedAre(arrivals: seq<Arrival>, order: seq<UnifiedEvent>, key: uint64)
    requires SortedPermutation(order, TaggedAll(arrivals))
    ensures var sel, base, slices := Keep(order, GpuOf(key)), MinTimestamp(order, |order|),
                Slices(TraceEvents(order), key);
            && |slices| == |sel|
            && forall i :: 0 <= i < |sel| ==>
                 sel[i].Gpu? && base <= sel[i].timestamp && slices[i] == EventSlice(sel[i], base)
  {
    hide *;
    var sel, base := Keep(order, GpuOf(key)), MinTimestamp(order, |order|);
    OrderTimed(arrivals, order);
    SlicesAreTold(order, |order|, base, key);
    assert order[..|order|] == order;
    TraceEventsAre(order);
    ToldAt(order, key, base);
    forall i | 0 <= i < |sel| ensures base <= sel[i].timestamp {
      BaseBelow(order, sel[i]);
    }
  }

  lemma ToldAt(order: seq<UnifiedEvent>, key: uint64, base: uint64)
    ensures var sel, slices := Keep(order, GpuOf(key)), SlicesFor(ToldBy(order, key), base);
            && |slices| == |sel|
            && forall i :: 0 <= i < |sel| ==> sel[i].Gpu? && slices[i] == EventSlice(sel[i], base)
  {
    hide Keep, ReportOf, SliceFor;
  }

  // ---- any sort: the same slices, possibly in another order ----

  lemma {:induction false} PrintedArePermuted(arrivals: seq<Arrival>, order: seq<UnifiedEvent>, calls: seq<Leaf>,
                                              key: uint64)
    requires SortedPermutation(order, TaggedAll(arrivals)) && Matches(Keep(TaggedAll(arrivals), GpuOf(key)), calls)
    requires LeavesOk(calls)
    ensures multiset(Slices(TraceEvents(order), key)) == multiset(CallSlices(calls, MinTimestamp(order, |order|)))
  {
    hide *;
    var kept, sel := Keep(TaggedAll(arrivals), GpuOf(key)), Keep(order, GpuOf(key));
    var base := MinTimestamp(order, |order|);
    var slice := (e: UnifiedEvent) requires e.Gpu? => EventSlice(e, base);
    KeepSortedPermutation(order, TaggedAll(arrivals), GpuOf(key));
    PermutationMeans(sel, kept);
    PrintedAre(arrivals, order, key);
    MatchLong(kept, calls);
    InSame(sel, kept);
    MapPermuted(slice, sel, kept);
    MapAt(slice, sel);
    MapAt(slice, kept);
    assert Map(slice, sel) == Slices(TraceEvents(order), key);
    assert Map(slice, kept) == CallSlices(calls, base) by {
      forall i | 0 <= i < |kept| ensures Map(slice, kept)[i] == CallSlices(calls, base)[i] {
        SomePlace(sel, kept, i);
        MatchSlice(kept, calls, i, base);
      }
    }
  }

  lemma MapAt<X, Y>(f: X --> Y, s: seq<X>)
    requires forall x :: x in s ==> f.requires(x)
    ensures |Map(f, s)| == |s| && forall i :: 0 <= i < |s| ==> Map(f, s)[i] == f(s[i])
  {
  }

  lemma MatchLong(kept: seq<UnifiedEvent>, calls: seq<Leaf>)
    requires Matches(kept, calls)
    ensures |kept| == |calls| && forall i :: 0 <= i < |kept| ==> kept[i].Gpu?
  {
    hide ReportOf, Expected, CallsInTime;
  }

  lemma InSame(a: seq<UnifiedEvent>, b: seq<UnifiedEvent>)
    requires multiset(a) == multiset(b)
    ensures forall e :: e in a <==> e in b
  {
    forall e ensures e in a <==> e in b {
      assert e in multiset(a) <==> e in multiset(b);
    }
  }

  lemma SomePlace(a: seq<UnifiedEvent>, b: seq<UnifiedEvent>, i: nat)
    requires multiset(a) == multiset(b) && i < |b|
    ensures exists j :: 0 <= j < |a| && a[j] == b[i]
  {
    assert b[i] in multiset(a);
  }

  // ---- when the order is forced ----

  /** Calls entered at one clock reading have the same slice. */
  predicate TiesAlike(calls: seq<Leaf>)
    requires LeavesOk(calls)
  {
    forall i, j :: 0 <= i < j < |calls| && calls[i].enter.probe.now == calls[j].enter.probe.now ==>
      CallSlice(calls[i], 0) == CallSlice(calls[j], 0)
  }

  /** Whatever the sort does with ties, the slices are those of the calls, in order. */
  ghost predicate AlwaysPrinted(arrivals: seq<Arrival>, key: uint64, calls: seq<Leaf>)
    requires LeavesOk(calls)
  {
    forall order: seq<UnifiedEvent> :: SortedPermutation(order, First(TaggedAll(arrivals), MAX_EVENTS)) ==>
      Slices(TraceEvents(order), key) == CallSlices(calls, MinTimestamp(order, |order|))
  }

  lemma SameAtBase(a: Leaf, b: Leaf, base: uint64)
    requires LeafOk(a) && LeafOk(b) && a.enter.probe.now == b.enter.probe.now
    ensures CallSlice(a, base) == CallSlice(b, base) <==> CallSlice(a, 0) == CallSlice(b, 0)
  {
    hide Row, CallMade, Symbol, Category, Bytes, Stream, Freed, ReturnsEarly;
  }

  /** Look-alikes may change places. */
  lemma {:induction false} AlikeMeansPrinted(arrivals: seq<Arrival>, order: seq<UnifiedEvent>, calls: seq<Leaf>,
                                             key: uint64)
    requires SortedPermutation(order, TaggedAll(arrivals)) && Matches(Keep(TaggedAll(arrivals), GpuOf(key)), calls)
    requires LeavesOk(calls) && TiesAlike(calls)
    ensures Slices(TraceEvents(order), key) == CallSlices(calls, MinTimestamp(order, |order|))
  {
    hide *;
    var kept, sel := Keep(TaggedAll(arrivals), GpuOf(key)), Keep(order, GpuOf(key));
    var base := MinTimestamp(order, |order|);
    KeepSortedPermutation(order, TaggedAll(arrivals), GpuOf(key));
    PermutationMeans(sel, kept);
    MatchSorted(kept, calls);
    SameTimes(sel, kept);
    PrintedAre(arrivals, order, key);
    MatchLong(kept, calls);
    forall i | 0 <= i < |sel| ensures Slices(TraceEvents(order), key)[i] == CallSlices(calls, base)[i] {
      SomePlace(kept, sel, i);
      var j :| 0 <= j < |kept| && kept[j] == sel[i];
      MatchSlice(kept, calls, i, base);
      MatchSlice(kept, calls, j, base);
      AlikePlaces(kept, calls, i, j, base);
    }
  }

  lemma AlikePlaces(kept: seq<UnifiedEvent>, calls: seq<Leaf>, i: nat, j: nat, base: uint64)
    requires Matches(kept, calls) && LeavesOk(calls) && TiesAlike(calls)
    requires i < |kept| && j < |kept| && kept[i].timestamp == kept[j].timestamp
    ensures LeafOk(calls[i]) && LeafOk(calls[j]) && CallSlice(calls[i], base) == CallSlice(calls[j], base)
  {
    hide ReportOf, Expected, CallSlice;
    SameAtBase(calls[i], calls[j], base);
  }

  /** Between two tied calls with different slices there are two neighbours like that. */
  lemma {:induction false} FirstUnlike(calls: seq<Leaf>, i: nat, j: nat) returns (k: nat)
    requires CallsInTime(calls) && LeavesOk(calls) && i < j < |calls|
    requires calls[i].enter.probe.now == calls[j].enter.probe.now && CallSlice(calls[i], 0) != CallSlice(calls[j], 0)
    ensures k + 1 < |calls| && calls[k].enter.probe.now == calls[k + 1].enter.probe.now
    ensures CallSlice(calls[k], 0) != CallSlice(calls[k + 1], 0)
    decreases j - i
  {
    hide CallSlice;
    if CallSlice(calls[i], 0) != CallSlice(calls[i + 1], 0) {
      k := i;
    } else {
      k := FirstUnlike(calls, i + 1, j);
    }
  }

  /** If two tied calls differ, some sort prints them the other way round. */
  lemma {:induction false} UnlikeMeansSwapped(arrivals: seq<Arrival>, calls: seq<Leaf>, key: uint64)
    returns (order: seq<UnifiedEvent>)
    requires Matches(Keep(TaggedAll(arrivals), GpuOf(key)), calls)
    requires LeavesOk(calls) && !TiesAlike(calls)
    ensures SortedPermutation(order, TaggedAll(arrivals))
    ensures Slices(TraceEvents(order), key) != CallSlices(calls, MinTimestamp(order, |order|))
  {
    hide *;
    var kept := Keep(TaggedAll(arrivals), GpuOf(key));
    var k := UnlikePair(kept, calls);
    MatchSorted(kept, calls);
    SwapIsSorted(kept, k);
    order := Arrange(TaggedAll(arrivals), GpuOf(key), Swapped(kept, k));
    PrintedAre(arrivals, order, key);
    var base := MinTimestamp(order, |order|);
    SwappedAt(kept, k);
    MatchLong(kept, calls);
    MatchSlice(kept, calls, k + 1, base);
    SameAtBase(calls[k], calls[k + 1], base);
    assert Slices(TraceEvents(order), key)[k] == EventSlice(kept[k + 1], base);
    assert CallSlices(calls, base)[k] == CallSlice(calls[k], base);
  }

  lemma SwappedAt(events: seq<UnifiedEvent>, i: nat)
    requires i + 1 < |events|
    ensures |Swapped(events, i)| == |events| && Swapped(events, i)[i] == events[i + 1]
  {
  }

  lemma UnlikePair(kept: seq<UnifiedEvent>, calls: seq<Leaf>) returns (k: nat)
    requires Matches(kept, calls) && LeavesOk(calls) && !TiesAlike(calls)
    ensures Tied(kept, k) && k + 1 < |kept| == |calls|
    ensures LeafOk(calls[k]) && LeafOk(calls[k + 1]) && calls[k].enter.probe.now == calls[k + 1].enter.probe.now
    ensures CallSlice(calls[k], 0) != CallSlice(calls[k + 1], 0)
  {
    hide ReportOf, Expected, CallSlice;
    var i, j :| 0 <= i < j < |calls| && calls[i].enter.probe.now == calls[j].enter.probe.now &&
                CallSlice(calls[i], 0) != CallSlice(calls[j], 0);
    k := FirstUnlike(calls, i, j);
  }

  // ---- from calls to slices ----

  /** From calls to slices, for any number of arrivals, any interleaving with other threads and any sort.
      The slices printed for a well-nested thread are those of its childless calls that found room, the
      first ones if not all fit the event array: each call has its one slice, whose start, duration,
      process, row, operation, printed arguments and result are the call's own.  They are in return
      order if calls entered at one clock reading have the same slice, in particular if there are no
      such calls. */
  lemma {:induction false} LeafCallsPrinted(cfg: Config, counters: map<nat, uint64>, run: seq<Probe>, key: uint64,
                                            done: seq<Call>, open: seq<OpenCall>, arrivals: seq<Arrival>,
                                            order: seq<UnifiedEvent>)
    requires Observed(cfg, counters, run, key, done, open, arrivals)
    requires SortedPermutation(order, First(TaggedAll(arrivals), MAX_EVENTS))
    ensures var calls, lucky := StoredCalls(done, open, arrivals, key), Lucky(LeavesAll(done) + LeavesOpen(open));
            && calls <= lucky && (|arrivals| <= MAX_EVENTS ==> calls == lucky) && LeavesOk(calls)
            && var expected := CallSlices(calls, MinTimestamp(order, |order|));
            && multiset(Slices(TraceEvents(order), key)) == multiset(expected)
            && (TiesAlike(calls) ==> Slices(TraceEvents(order), key) == expected)
  {
    hide *;
    var calls := StoredCalls(done, open, arrivals, key);
    StoredMatch(cfg, counters, run, key, done, open, arrivals);
    TagFirst(arrivals);
    PrintedArePermuted(First(arrivals, MAX_EVENTS), order, calls, key);
    if TiesAlike(calls) {
      AlikeMeansPrinted(First(arrivals, MAX_EVENTS), order, calls, key);
    }
  }

  lemma StoredMatch(cfg: Config, counters: map<nat, uint64>, run: seq<Probe>, key: uint64,
                    done: seq<Call>, open: seq<OpenCall>, arrivals: seq<Arrival>)
    requires Observed(cfg, counters, run, key, done, open, arrivals)
    ensures var calls, lucky := StoredCalls(done, open, arrivals, key), Lucky(LeavesAll(done) + LeavesOpen(open));
            && LeavesOk(calls) && calls <= lucky && (|arrivals| <= MAX_EVENTS ==> calls == lucky)
            && Matches(Keep(TaggedAll(First(arrivals, MAX_EVENTS)), GpuOf(key)), calls)
  {
    hide *;
    CallsStored(cfg, counters, run, key, done, open, arrivals);
    TagFirst(arrivals);
    KeptMatches(First(arrivals, MAX_EVENTS), StoredCalls(done, open, arrivals, key), key);
  }

  /** The slices of the thread are its calls in return order for every sort if and only if calls entered
      at one clock reading have the same slice. */
  lemma {:induction false} AlwaysPrintedIff(cfg: Config, counters: map<nat, uint64>, run: seq<Probe>, key: uint64,
                                            done: seq<Call>, open: seq<OpenCall>, arrivals: seq<Arrival>)
    requires Observed(cfg, counters, run, key, done, open, arrivals)
    ensures LeavesOk(StoredCalls(done, open, arrivals, key))
    ensures AlwaysPrinted(arrivals, key, StoredCalls(done, open, arrivals, key)) <==>
            TiesAlike(StoredCalls(done, open, arrivals, key))
  {
    hide *;
    var calls := StoredCalls(done, open, arrivals, key);
    StoredMatch(cfg, counters, run, key, done, open, arrivals);
    TagFirst(arrivals);
    if TiesAlike(calls) {
      forall order: seq<UnifiedEvent> | SortedPermutation(order, First(TaggedAll(arrivals), MAX_EVENTS))
        ensures Slices(TraceEvents(order), key) == CallSlices(calls, MinTimestamp(order, |order|))
      {
        AlikeMeansPrinted(First(arrivals, MAX_EVENTS), order, calls, key);
      }
      AlwaysPrintedMeans(arrivals, key, calls);
    } else {
      var order := UnlikeMeansSwapped(First(arrivals, MAX_EVENTS), calls, key);
      AlwaysPrintedMeans(arrivals, key, calls);
    }
  }

  lemma AlwaysPrintedMeans(arrivals: seq<Arrival>, key: uint64, calls: seq<Leaf>)
    requires LeavesOk(calls)
    ensures AlwaysPrinted(arrivals, key, calls) <==>
            forall order: seq<UnifiedEvent> :: SortedPermutation(order, First(TaggedAll(arrivals), MAX_EVENTS)) ==>
              Slices(TraceEvents(order), key) == CallSlices(calls, MinTimestamp(order, |order|))
  {
    hide Slices, TraceEvents, CallSlices, MinTimestamp, SortedPermutation, First, TaggedAll;
  }

  // ---- the order is not always forced ----

  /** A copy and a kernel launch, both begun and ended in one clock reading. */
  function CopyAndLaunch(key: uint64, t: uint64): seq<Probe> {
    [Entry(key, t, 3, 0, Regs(0, 0, 0, 0), 0), Return(key, t, 3, 0, "", true),
     Entry(key, t, 4, 0, Regs(0, 0, 0, 0), 0), Return(key, t, 4, 0, "", true)]
  }

  function CopyCall(key: uint64, t: uint64): Call {
    Call(Fired(CopyAndLaunch(key, t)[0], true), Fired(CopyAndLaunch(key, t)[1], true), [])
  }

  function LaunchCall(key: uint64, t: uint64): Call {
    Call(Fired(CopyAndLaunch(key, t)[2], true), Fired(CopyAndLaunch(key, t)[3], true), [])
  }

  lemma CallsOfBoth(key: uint64, t: uint64)
    ensures var a, b := CopyCall(key, t), LaunchCall(key, t);
            && CallsOk(key, [a, b]) && OpensOk(key, [])
            && FlatAll([a, b]) + FlatOpen([]) == [a.enter, a.exit, b.enter, b.exit]
            && Lucky(LeavesAll([a, b]) + LeavesOpen([])) == [Leaf(a.enter, a.exit), Leaf(b.enter, b.exit)]
  {
    hide Lucky;
    var a, b := CopyCall(key, t), LaunchCall(key, t);
    TwoLeafCalls(key, a, b);
    LuckySnoc([], Leaf(a.enter, a.exit));
    LuckySnoc([Leaf(a.enter, a.exit)], Leaf(b.enter, b.exit));
    NoLuck();
    assert [] + [Leaf(a.enter, a.exit)] == [Leaf(a.enter, a.exit)];
    assert [Leaf(a.enter, a.exit)] + [Leaf(b.enter, b.exit)] == [Leaf(a.enter, a.exit), Leaf(b.enter, b.exit)];
  }

  lemma TwoLeafCalls(key: uint64, a: Call, b: Call)
    requires CallOk(key, a) && CallOk(key, b) && a.inner == b.inner == []
    ensures CallsOk(key, [a, b]) && OpensOk(key, [])
    ensures FlatAll([a, b]) + FlatOpen([]) == [a.enter, a.exit, b.enter, b.exit]
    ensures LeavesAll([a, b]) + LeavesOpen([]) == [Leaf(a.enter, a.exit), Leaf(b.enter, b.exit)]
  {
    assert [a, b][1..] == [b] && [b][1..] == [];
    assert FlatAll([]) == [] && LeavesAll([]) == [] && CallsOk(key, []);
    assert FlatAll([b]) == Flat(b) && LeavesAll([b]) == Leaves(b) && CallsOk(key, [b]);
  }

  lemma NoLuck()
    ensures Lucky([]) == []
  {
  }

  lemma BothFired(cfg: Config, counters: map<nat, uint64>, key: uint64, t: uint64)
    requires Traced(cfg, key)
    ensures var run, a, b := CopyAndLaunch(key, t), CopyCall(key, t), LaunchCall(key, t);
            && MonotoneClock(run)
            && Thread(cfg, counters, run, key, |run|) == [a.enter, a.exit, b.enter, b.exit]
  {
    hide Traced, Callers, After, HasRoom;
    var run := CopyAndLaunch(key, t);
    RoomForOne(cfg, counters, key, t, 0);
    RoomForOne(cfg, counters, key, t, 2);
    assert FiredAt(cfg, counters, run, 0) == CopyCall(key, t).enter;
    assert FiredAt(cfg, counters, run, 1) == CopyCall(key, t).exit;
    assert FiredAt(cfg, counters, run, 2) == LaunchCall(key, t).enter;
    assert FiredAt(cfg, counters, run, 3) == LaunchCall(key, t).exit;
    hide FiredAt;
    assert Thread(cfg, counters, run, key, 1) == [] + [FiredAt(cfg, counters, run, 0)];
    assert Thread(cfg, counters, run, key, 2) == Thread(cfg, counters, run, key, 1) + [FiredAt(cfg, counters, run, 1)];
    assert Thread(cfg, counters, run, key, 3) == Thread(cfg, counters, run, key, 2) + [FiredAt(cfg, counters, run, 2)];
    assert Thread(cfg, counters, run, key, 4) == Thread(cfg, counters, run, key, 3) + [FiredAt(cfg, counters, run, 3)];
  }

  lemma RoomForOne(cfg: Config, counters: map<nat, uint64>, key: uint64, t: uint64, i: nat)
    requires Traced(cfg, key) && (i == 0 || i == 2)
    ensures Recorded(cfg, counters, CopyAndLaunch(key, t), i)
  {
    hide Traced, After, HasRoom, Recorded;
    OneCaller(cfg, key, t);
    AlwaysStored(cfg, counters, CopyAndLaunch(key, t), i);
  }

  lemma OneCaller(cfg: Config, key: uint64, t: uint64)
    ensures |Callers(cfg, CopyAndLaunch(key, t))| <= MAX_CALLS
  {
    hide Traced;
    SubsetSize(Callers(cfg, CopyAndLaunch(key, t)), {key});
  }

  /** Two different calls in one clock reading: some sort prints the later one first. */
  lemma {:induction false} TieSwapsCalls(cfg: Config, counters: map<nat, uint64>, key: uint64, t: uint64,
                                         arrivals: seq<Arrival>)
    requires Traced(cfg, key) && |arrivals| <= MAX_EVENTS
    requires GpuOnly(arrivals) == After(cfg, counters, CopyAndLaunch(key, t), 4).ring
    ensures var done := [CopyCall(key, t), LaunchCall(key, t)];
            && Observed(cfg, counters, CopyAndLaunch(key, t), key, done, [], arrivals)
            && LeavesOk(StoredCalls(done, [], arrivals, key))
            && !AlwaysPrinted(arrivals, key, StoredCalls(done, [], arrivals, key))
  {
    hide *;
    var run, done := CopyAndLaunch(key, t), [CopyCall(key, t), LaunchCall(key, t)];
    CallsOfBoth(key, t);
    BothFired(cfg, counters, key, t);
    FourProbes(key, t);
    ObservedIs(cfg, counters, run, key, done, [], arrivals);
    StoredMatch(cfg, counters, run, key, done, [], arrivals);
    AlwaysPrintedIff(cfg, counters, run, key, done, [], arrivals);
    Unlike(key, t, StoredCalls(done, [], arrivals, key));
  }

  lemma FourProbes(key: uint64, t: uint64)
    ensures |CopyAndLaunch(key, t)| == 4
  {
  }

  lemma ObservedIs(cfg: Config, counters: map<nat, uint64>, run: seq<Probe>, key: uint64,
                   done: seq<Call>, open: seq<OpenCall>, arrivals: seq<Arrival>)
    requires CallsOk(key, done) && OpensOk(key, open) && MonotoneClock(run)
    requires Thread(cfg, counters, run, key, |run|) == FlatAll(done) + FlatOpen(open)
    requires GpuOnly(arrivals) == After(cfg, counters, run, |run|).ring
    ensures Observed(cfg, counters, run, key, done, open, arrivals)
  {
  }

  lemma Unlike(key: uint64, t: uint64, calls: seq<Leaf>)
    requires var a, b := CopyCall(key, t), LaunchCall(key, t);
             calls == [Leaf(a.enter, a.exit), Leaf(b.enter, b.exit)]
    requires LeavesOk(calls)
    ensures !TiesAlike(calls)
  {
    assert calls[0].enter.probe.now == calls[1].enter.probe.now;
    assert CallSlice(calls[0], 0).name != CallSlice(calls[1], 0).name;
  }
}
