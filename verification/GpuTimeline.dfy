// From the CUDA probes to the printed slices: the complete records of one thread never overlap.
module GpuTimeline {

  import opened Types
  import opened CudaTracer
  import opened CudaRuns
  import opened CallTrees
  import opened StreamRows
  import opened Collector
  import opened Sorting
  import opened ChromeTrace
  import opened TraceProofs

  /** The CUDA records among some arrivals. */
  function GpuOnly(arrivals: seq<Arrival>): seq<CudaEvent> {
    if arrivals == [] then []
    else
      var init := GpuOnly(arrivals[..|arrivals| - 1]);
      match arrivals[|arrivals| - 1]
      case FromCpu(_) => init
      case FromGpu(e) => init + [e]
  }

  /** Two CUDA arrivals are two records of the ring, in the same order. */
  lemma {:induction false} TwoOfRing(arrivals: seq<Arrival>, i: nat, j: nat) returns (a: nat, b: nat)
    requires i < j < |arrivals| && arrivals[i].FromGpu? && arrivals[j].FromGpu?
    ensures a < b < |GpuOnly(arrivals)|
    ensures GpuOnly(arrivals)[a] == arrivals[i].gpu && GpuOnly(arrivals)[b] == arrivals[j].gpu
  {
    var init := arrivals[..|arrivals| - 1];
    if j < |init| {
      a, b := TwoOfRing(init, i, j);
    } else {
      a := OneOfRing(init, i);
      b := |GpuOnly(init)|;
    }
  }

  lemma {:induction false} OneOfRing(arrivals: seq<Arrival>, i: nat) returns (a: nat)
    requires i < |arrivals| && arrivals[i].FromGpu?
    ensures a < |GpuOnly(arrivals)| && GpuOnly(arrivals)[a] == arrivals[i].gpu
  {
    var init := arrivals[..|arrivals| - 1];
    if i < |init| {
      a := OneOfRing(init, i);
    } else {
      a := |GpuOnly(init)|;
    }
  }

  /** Two places of a rearrangement come from two different places of the original. */
  lemma TwoSources(after: seq<UnifiedEvent>, before: seq<UnifiedEvent>, i: nat, j: nat) returns (a: nat, b: nat)
    requires multiset(after) == multiset(before) && i < j < |after|
    ensures a < |before| && b < |before| && a != b && before[a] == after[i] && before[b] == after[j]
  {
    a := Place(before, after[i], after);
    if after[i] != after[j] {
      b := Place(before, after[j], after);
    } else {
      TwiceThere(after, i, j);
      b := OtherPlace(before, a);
    }
  }

  lemma Place(s: seq<UnifiedEvent>, e: UnifiedEvent, t: seq<UnifiedEvent>) returns (a: nat)
    requires multiset(s) == multiset(t) && e in t
    ensures a < |s| && s[a] == e
  {
    assert e in multiset(t);
    a :| 0 <= a < |s| && s[a] == e;
  }

  lemma TwiceThere(s: seq<UnifiedEvent>, i: nat, j: nat)
    requires i < j < |s| && s[i] == s[j]
    ensures multiset(s)[s[i]] >= 2
  {
    assert s == s[..j] + [s[j]] + s[j + 1..];
    assert s[..j][i] == s[i];
  }

  lemma OtherPlace(s: seq<UnifiedEvent>, a: nat) returns (b: nat)
    requires a < |s| && multiset(s)[s[a]] >= 2
    ensures b < |s| && a != b && s[b] == s[a]
  {
    var rest := s[..a] + s[a + 1..];
    assert s == s[..a] + [s[a]] + s[a + 1..];
    assert multiset(s) == multiset(rest) + multiset{s[a]};
    assert s[a] in rest;
    var c :| 0 <= c < |rest| && rest[c] == s[a];
    b := if c < a then c else c + 1;
  }

  /** The two time spans share at most an end point. */
  predicate Apart(a: CudaEvent, b: CudaEvent) {
    a.timestamp + a.durationNs <= b.timestamp || b.timestamp + b.durationNs <= a.timestamp
  }

  /** Whatever probes were missed and whatever was dropped on the way: any two slices printed for one
      thread occupy disjoint stretches of the normalised timeline. */
  lemma {:induction false} SlicesDisjoint(cfg: Config, counters: map<nat, uint64>, run: seq<Probe>,
                                          arrivals: seq<Arrival>, order: seq<UnifiedEvent>, i: nat, j: nat)
    requires MonotoneClock(run) && GpuOnly(arrivals) == After(cfg, counters, run, |run|).ring
    requires SortedPermutation(order, First(TaggedAll(arrivals), MAX_EVENTS))
    requires i < j < |order| && order[i].Gpu? && order[j].Gpu?
    requires order[i].gpu.pid == order[j].gpu.pid && order[i].gpu.tid == order[j].gpu.tid
    ensures var base := MinTimestamp(order, |order|);
            var x, y := BodyAt(order, i, base), BodyAt(order, j, base);
            && |x| == |y| == 1 && x[0].Complete? && y[0].Complete?
            && x[0].gpu == order[i].gpu && y[0].gpu == order[j].gpu
            && (x[0].ts + x[0].gpu.durationNs <= y[0].ts || y[0].ts + y[0].gpu.durationNs <= x[0].ts)
  {
    var kept := First(TaggedAll(arrivals), MAX_EVENTS);
    var a, b := TwoSources(order, kept, i, j);
    assert kept[a] == Tagged(arrivals[a]) && kept[b] == Tagged(arrivals[b]);
    ApartInRing(cfg, counters, run, arrivals, Min(a, b), a + b - Min(a, b));
    NoUnderflow(order, i, 0);
    NoUnderflow(order, j, 0);
    hide MinTimestamp, TaggedAll, First, SubU64;
  }

  lemma ApartInRing(cfg: Config, counters: map<nat, uint64>, run: seq<Probe>, arrivals: seq<Arrival>, a: nat, b: nat)
    requires MonotoneClock(run) && GpuOnly(arrivals) == After(cfg, counters, run, |run|).ring
    requires a < b < |arrivals| && arrivals[a].FromGpu? && arrivals[b].FromGpu?
    requires arrivals[a].gpu.pid == arrivals[b].gpu.pid && arrivals[a].gpu.tid == arrivals[b].gpu.tid
    ensures Apart(arrivals[a].gpu, arrivals[b].gpu)
  {
    hide After, GpuOnly;
    var k, l := TwoOfRing(arrivals, a, b);
    DisjointSpans(cfg, counters, run, k, l);
  }

  // ---- the slices of a well-nested thread ----

  predicate OfThread(g: CudaEvent, key: uint64) {
    g.pid == PidOf(key) && g.tid == TidOf(key)
  }

  /** Selects the CUDA events of a thread. */
  function GpuOf(key: uint64): UnifiedEvent -> bool {
    (e: UnifiedEvent) => e.Gpu? && OfThread(e.gpu, key)
  }

  /** What the collected CUDA events of a thread say. */
  function ToldBy(events: seq<UnifiedEvent>, key: uint64): (r: seq<Report>)
    ensures var kept := Keep(events, GpuOf(key));
            && |r| == |kept|
            && forall i :: 0 <= i < |r| ==> kept[i].Gpu? && r[i] == ReportOf(kept[i].gpu)
  {
    var kept := Keep(events, GpuOf(key));
    assert forall i :: 0 <= i < |kept| ==> GpuOf(key)(kept[i]);
    seq(|kept|, i requires 0 <= i < |kept| => ReportOf(kept[i].gpu))
  }

  lemma ToldSnoc(events: seq<UnifiedEvent>, e: UnifiedEvent, key: uint64)
    ensures ToldBy(events + [e], key) ==
            if e.Gpu? && OfThread(e.gpu, key) then ToldBy(events, key) + [ReportOf(e.gpu)] else ToldBy(events, key)
    ensures ToldBy([], key) == []
  {
    hide ReportOf;
    assert (events + [e])[..|events|] == events;
  }

  /** The slices printed for a thread, in output order. */
  function Slices(rs: seq<Record>, key: uint64): seq<Slice> {
    if rs == [] then []
    else
      var init, last := Slices(rs[..|rs| - 1], key), rs[|rs| - 1];
      if last.Complete? && OfThread(last.gpu, key) then init + [SliceOf(last)] else init
  }

  lemma {:induction false} SlicesConcat(a: seq<Record>, b: seq<Record>, key: uint64)
    ensures Slices(a + b, key) == Slices(a, key) + Slices(b, key)
  {
    hide SliceOf;
    if b == [] {
      assert a + b == a;
    } else {
      assert (a + b)[..|a + b| - 1] == a + b[..|b| - 1];
      SlicesConcat(a, b[..|b| - 1], key);
    }
  }

  /** The slice that a report should be printed as, on a timeline that starts at `base`. */
  function SliceFor(r: Report, base: uint64): Slice {
    Slice(SubU64(r.timestamp, base), r.durationNs, r.pid, Row(r.tid, r.streamId), OpName(r.opType),
          OpCategory(r.opType), r.retVal, r.comm,
          if r.streamId != 0 then Some(r.streamId) else None,
          r.async,
          if HasSize(r.opType) then Some(r.size) else None,
          if r.opType == 2 && r.ptr != 0 then Some(r.ptr) else None)
  }

  function SlicesFor(reports: seq<Report>, base: uint64): seq<Slice> {
    seq(|reports|, i requires 0 <= i < |reports| => SliceFor(reports[i], base))
  }

  /** Every CUDA event is filed under its own time. */
  predicate Timed(events: seq<UnifiedEvent>) {
    forall i :: 0 <= i < |events| && events[i].Gpu? ==> events[i].timestamp == events[i].gpu.timestamp
  }

  lemma NewSlices(events: seq<UnifiedEvent>, i: nat, base: uint64, key: uint64)
    requires i < |events| && Timed(events)
    ensures Slices(MetaAt(events, i), key) == []
    ensures Slices(BodyAt(events, i, base), key) ==
            if events[i].Gpu? && OfThread(events[i].gpu, key) then [SliceFor(ReportOf(events[i].gpu), base)] else []
  {
    hide OfThread, SubU64, OnTime, SomeCpu, Row, OpName, OpCategory;
    var meta, body := MetaAt(events, i), BodyAt(events, i, base);
    assert body != [] ==> body[..0] == [];
    if meta != [] {
      assert meta[..1][..0] == [] && meta[..|meta| - 1] == meta[..1];
      assert Slices(meta[..1][..0], key) == [];
      assert Slices(meta[..1], key) == [];
    }
  }

  lemma SlicesForSnoc(reports: seq<Report>, r: Report, base: uint64)
    ensures SlicesFor(reports + [r], base) == SlicesFor(reports, base) + [SliceFor(r, base)]
  {
    hide SliceFor;
  }

  /** The emitter prints every collected CUDA event of the thread as one slice, in order, at its
      normalised time and on its stream's row. */
  lemma {:induction false} SlicesAreTold(events: seq<UnifiedEvent>, n: nat, base: uint64, key: uint64)
    requires n <= |events| && Timed(events)
    ensures Slices(Records(events, n, base), key) == SlicesFor(ToldBy(events[..n], key), base)
  {
    hide *;
    if n == 0 {
      NoSlices(events, base, key);
    } else {
      SlicesAreTold(events, n - 1, base, key);
      RecordsStep(events, n - 1, base);
      NewSlices(events, n - 1, base, key);
      SlicesConcat(Records(events, n - 1, base) + MetaAt(events, n - 1), BodyAt(events, n - 1, base), key);
      SlicesConcat(Records(events, n - 1, base), MetaAt(events, n - 1), key);
      assert events[..n] == events[..n - 1] + [events[n - 1]];
      ToldSnoc(events[..n - 1], events[n - 1], key);
      if events[n - 1].Gpu? {
        SlicesForSnoc(ToldBy(events[..n - 1], key), ReportOf(events[n - 1].gpu), base);
      }
    }
  }

  lemma NoSlices(events: seq<UnifiedEvent>, base: uint64, key: uint64)
    ensures Slices(Records(events, 0, base), key) == SlicesFor(ToldBy(events[..0], key), base)
  {
  }

  /** What was collected of a thread is what its ring records say. */
  lemma {:induction false} ToldIsRing(arrivals: seq<Arrival>, key: uint64)
    ensures ToldBy(TaggedAll(arrivals), key) == ThreadEvents(GpuOnly(arrivals), key)
  {
    hide ToldBy, ReportOf, ThreadEvents;
    if arrivals == [] {
      ToldSnoc([], Cpu(0, CpuSchedEvent(0, 0, 0, 0, 0, 0, 0, "")), key);
      NoEvents(key);
    } else {
      var init, last := arrivals[..|arrivals| - 1], arrivals[|arrivals| - 1];
      ToldIsRing(init, key);
      assert TaggedAll(arrivals) == TaggedAll(init) + [Tagged(last)];
      ToldSnoc(TaggedAll(init), Tagged(last), key);
      if last.FromGpu? {
        ThreadEventsSnoc(GpuOnly(init), last.gpu, key);
      }
    }
  }

  lemma NoEvents(key: uint64)
    ensures ThreadEvents([], key) == []
  {
  }
}
