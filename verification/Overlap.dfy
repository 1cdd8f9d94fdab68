// Begin/end pairing on any list of switches, overlapping or not: exactly when everything that was
// begun and is over gets its end.
module Overlap {

  import opened Types
  import opened SchedProbes
  import opened Collector
  import opened Sorting
  import opened ChromeTrace
  import opened TraceProofs
  import opened Pipeline

  predicate AllSwitches(switches: seq<UnifiedEvent>, tid: uint32) {
    forall i :: 0 <= i < |switches| ==> IsOn(switches[i], tid) || IsOff(switches[i], tid)
  }

  /** How many ONs have not been matched by an OFF yet. */
  function Depth(switches: seq<UnifiedEvent>, tid: uint32): nat {
    if switches == [] then 0
    else
      var d := Depth(switches[..|switches| - 1], tid);
      if IsOn(switches[|switches| - 1], tid) then d + 1 else if d > 0 then d - 1 else 0
  }

  /** An OFF that arrives while some ON is unmatched: something begun is over. */
  predicate Owed(switches: seq<UnifiedEvent>, i: nat, tid: uint32)
    requires i < |switches|
  {
    !IsOn(switches[i], tid) && Depth(switches[..i], tid) > 0
  }

  /** It directly follows an ON at a nonzero time, on a thread id below the limit. */
  predicate DirectlyAfterOn(switches: seq<UnifiedEvent>, i: nat, tid: uint32)
    requires i < |switches|
  {
    i > 0 && IsOn(switches[i - 1], tid) && switches[i - 1].timestamp != 0 && tid < TID_LIMIT
  }

  predicate AllDirect(switches: seq<UnifiedEvent>, tid: uint32) {
    forall i :: 0 <= i < |switches| && Owed(switches, i, tid) ==> DirectlyAfterOn(switches, i, tid)
  }

  function OwedCount(switches: seq<UnifiedEvent>, tid: uint32): nat {
    if switches == [] then 0
    else OwedCount(switches[..|switches| - 1], tid) + if Owed(switches, |switches| - 1, tid) then 1 else 0
  }

  /** Number of end records. */
  function Ends(track: seq<Record>): nat {
    if track == [] then 0 else Ends(track[..|track| - 1]) + if track[|track| - 1].End? then 1 else 0
  }

  lemma EndsSnoc(track: seq<Record>, r: Record)
    ensures Ends(track + [r]) == Ends(track) + if r.End? then 1 else 0
    ensures Ends([]) == 0
  {
    assert (track + [r])[..|track|] == track;
  }

  /** The last switch is closed exactly if it is an OFF directly after such an ON. */
  lemma LastClosed(switches: seq<UnifiedEvent>, base: uint64, tid: uint32)
    requires AllSwitches(switches, tid) && switches != []
    ensures var n := |switches| - 1;
            var init := switches[..n];
            && AllSwitches(init, tid)
            && Ends(Marks(switches, base, tid)) ==
               Ends(Marks(init, base, tid)) +
               (if !IsOn(switches[n], tid) && DirectlyAfterOn(switches, n, tid) then 1 else 0)
            && (!IsOn(switches[n], tid) && DirectlyAfterOn(switches, n, tid) ==> Owed(switches, n, tid))
  {
    hide SubU64, Ends;
    var n := |switches| - 1;
    var init, e := switches[..n], switches[n];
    assert init + [e] == switches;
    MarksSnoc(init, e, base, tid);
    var c := e.cpu;
    EndsSnoc(Marks(init, base, tid),
             Begin(SubU64(e.timestamp, base), c.pid, tid, c.cpu, c.comm, StackIf(c.stackId, c.pid)));
    EndsSnoc(Marks(init, base, tid),
             End(SubU64(e.timestamp, base), c.pid, tid, SubU64(e.timestamp, Pending(init, tid)), c.prevState));
  }

  lemma {:induction false} EndsCount(switches: seq<UnifiedEvent>, base: uint64, tid: uint32)
    requires AllSwitches(switches, tid)
    ensures var ends, owed := Ends(Marks(switches, base, tid)), OwedCount(switches, tid);
            ends <= owed && (ends == owed <==> AllDirect(switches, tid))
  {
    hide Marks, Ends, Depth, DirectlyAfterOn, IsOn, IsOff;
    if switches == [] {
      NoEnds(base, tid);
    } else {
      var n := |switches| - 1;
      var init := switches[..n];
      LastClosed(switches, base, tid);
      EndsCount(init, base, tid);
      forall i | 0 <= i < n
        ensures Owed(init, i, tid) <==> Owed(switches, i, tid)
        ensures DirectlyAfterOn(init, i, tid) <==> DirectlyAfterOn(switches, i, tid)
      {
        SamePrefix(switches, n, i, tid);
      }
    }
  }

  lemma NoEnds(base: uint64, tid: uint32)
    ensures Ends(Marks([], base, tid)) == 0
  {
  }

  lemma SamePrefix(switches: seq<UnifiedEvent>, n: nat, i: nat, tid: uint32)
    requires i < n <= |switches|
    ensures Owed(switches[..n], i, tid) <==> Owed(switches, i, tid)
    ensures DirectlyAfterOn(switches[..n], i, tid) <==> DirectlyAfterOn(switches, i, tid)
  {
    assert switches[..n][..i] == switches[..i];
  }

  /** For every sequence of events and every thread id, idle or not, with drops, overlaps and unmatched
      switches: as many ends are printed as are owed if and only if every owed OFF directly follows,
      on its thread, an ON at a nonzero time, and the thread id is below the limit. */
  lemma EveryEndPrintedIff(events: seq<UnifiedEvent>, tid: uint32)
    ensures var switches, ends := OnlyOf(events, tid), Ends(Track(TraceEvents(events), tid));
            ends <= OwedCount(switches, tid) && (ends == OwedCount(switches, tid) <==> AllDirect(switches, tid))
  {
    hide *;
    OrderTrack(events, tid);
    SwitchesOnly(events, tid);
    EndsCount(OnlyOf(events, tid), MinTimestamp(events, |events|), tid);
  }

  lemma SwitchesOnly(events: seq<UnifiedEvent>, tid: uint32)
    ensures AllSwitches(OnlyOf(events, tid), tid)
  {
  }

  // ---- two CPUs that go idle ----

  function At(cpu: uint32, prev: uint32, next: uint32, now: uint64): SchedStep {
    OnSwitch(Switch(cpu, prev, next, 0, "", "", Slot(true, now), Slot(true, now), -1))
  }

  /** CPU 0 goes idle at `a` and CPU 1 at `b`; they leave idle at `c` and `d`. */
  function IdleRun(a: uint64, b: uint64, c: uint64, d: uint64): seq<SchedStep> {
    [At(0, 1, 0, a), At(1, 2, 0, b), At(0, 0, 1, c), At(1, 0, 2, d)]
  }

  lemma IdleRunIsPossible(a: uint64, b: uint64, c: uint64, d: uint64)
    ensures ValidRun(map[0 := 1, 1 := 2], IdleRun(a, b, c, d)) && NoDrops(IdleRun(a, b, c, d), 0)
  {
    var start, run := map[0 := 1, 1 := 2], IdleRun(a, b, c, d);
    assert RunningAt(start, run, 0) == start;
    assert RunningAt(start, run, 1) == start[0 := 0];
    assert RunningAt(start, run, 2) == start[0 := 0][1 := 0];
    assert RunningAt(start, run, 3) == start[0 := 0][1 := 0][0 := 1];
    hide RunningAt;
    assert ValidUpTo(start, run, 0);
    assert ValidUpTo(start, run, 1);
    assert ValidUpTo(start, run, 2);
    assert ValidUpTo(start, run, 3);
    assert ValidUpTo(start, run, 4);
  }

  function IdleOn(now: uint64, cpu: uint32): UnifiedEvent {
    Cpu(now, CpuSchedEvent(now, CPU_SCHED_ON, 0, 0, cpu, 0, -1, ""))
  }

  function IdleOff(now: uint64, cpu: uint32): UnifiedEvent {
    Cpu(now, CpuSchedEvent(now, CPU_SCHED_OFF, 0, 0, cpu, 0, -1, ""))
  }

  /** What the run reports of the idle thread. */
  lemma IdleReports(a: uint64, b: uint64, c: uint64, d: uint64)
    ensures Reported(0, IdleRun(a, b, c, d), 4, 0) == [IdleOn(a, 0), IdleOn(b, 1), IdleOff(c, 0), IdleOff(d, 1)]
  {
    var start, run := map[0 := 1, 1 := 2], IdleRun(a, b, c, d);
    IdleRunIsPossible(a, b, c, d);
    hide *;
    IdleSteps(a, b, c, d);
    WantedAll();
    NothingAtStart(0, run, 0);
    ReportedStep(start, 0, run, 0, 0);
    IdleRecord(0, 1, 0, a);
    assert Reported(0, run, 1, 0) == [] + [IdleOn(a, 0)];
    ReportedStep(start, 0, run, 1, 0);
    IdleRecord(1, 2, 0, b);
    assert Reported(0, run, 2, 0) == [IdleOn(a, 0)] + [IdleOn(b, 1)];
    ReportedStep(start, 0, run, 2, 0);
    IdleRecord(0, 0, 1, c);
    assert Reported(0, run, 3, 0) == [IdleOn(a, 0), IdleOn(b, 1)] + [IdleOff(c, 0)];
    ReportedStep(start, 0, run, 3, 0);
    IdleRecord(1, 0, 2, d);
    assert Reported(0, run, 4, 0) == [IdleOn(a, 0), IdleOn(b, 1), IdleOff(c, 0)] + [IdleOff(d, 1)];
  }

  lemma IdleSteps(a: uint64, b: uint64, c: uint64, d: uint64)
    ensures var run := IdleRun(a, b, c, d);
            |run| == 4 && run[0] == At(0, 1, 0, a) && run[1] == At(1, 2, 0, b) && run[2] == At(0, 0, 1, c) &&
            run[3] == At(1, 0, 2, d)
  {
  }

  lemma IdleRecord(cpu: uint32, prev: uint32, next: uint32, now: uint64)
    ensures var step := At(cpu, prev, next, now);
            && step.OnSwitch? && step.s.prev == prev && step.s.next == next && step.s.on.now == step.s.off.now == now
            && (next == 0 ==> Cpu(now, OnRecord(step.s)) == IdleOn(now, cpu))
            && (prev == 0 ==> Cpu(now, OffRecord(step.s)) == IdleOff(now, cpu))
  {
  }

  lemma WantedAll()
    ensures forall t: uint32 :: Wanted(0, t)
  {
  }

  /** The idle thread runs on both CPUs at once.  Of its two finished intervals only one gets an end,
      and with a duration that belongs to neither. */
  lemma {:induction false} OverlapLosesAnEnd(a: uint64, b: uint64, c: uint64, d: uint64,
                                             arrivals: seq<Arrival>, order: seq<UnifiedEvent>)
    requires 0 < a < b < c < d
    requires Collected(0, IdleRun(a, b, c, d), arrivals, order) && |arrivals| <= MAX_EVENTS
    ensures OnlyOf(order, 0) == [IdleOn(a, 0), IdleOn(b, 1), IdleOff(c, 0), IdleOff(d, 1)]
    ensures OwedCount(OnlyOf(order, 0), 0) == 2
    ensures var track := Track(TraceEvents(order), 0);
            && |track| == 3 && track[0].Begin? && track[1].Begin? && track[2].End?
            && track[2].durationNs == c - b
  {
    hide *;
    var run, base := IdleRun(a, b, c, d), MinTimestamp(order, |order|);
    IdleLength(a, b, c, d);
    IdleReports(a, b, c, d);
    StoredIs(arrivals, order, 0, run);
    var stored := StoredSwitches(0, run, arrivals, order, 0);
    var n := Min(|arrivals|, MAX_EVENTS);
    FourIncrease(a, b, c, d);
    OnlyOfIs(TaggedAll(arrivals[..n]), 0);
    OnlyOfIs(order, 0);
    SortKeeps(order, TaggedAll(arrivals[..n]), SwitchOf(0));
    OrderTrack(order, 0);
    FourMarks(a, b, c, d, base);
  }

  lemma IdleLength(a: uint64, b: uint64, c: uint64, d: uint64)
    ensures |IdleRun(a, b, c, d)| == 4
  {
  }

  lemma FourIncrease(a: uint64, b: uint64, c: uint64, d: uint64)
    requires 0 < a < b < c < d
    ensures Increasing([IdleOn(a, 0), IdleOn(b, 1), IdleOff(c, 0), IdleOff(d, 1)])
  {
  }

  lemma FourMarks(a: uint64, b: uint64, c: uint64, d: uint64, base: uint64)
    requires 0 < a < b < c < d
    ensures var switches := [IdleOn(a, 0), IdleOn(b, 1), IdleOff(c, 0), IdleOff(d, 1)];
            && OwedCount(switches, 0) == 2
            && AllSwitches(switches, 0)
            && var track := Marks(switches, base, 0);
            && |track| == 3 && track[0].Begin? && track[1].Begin? && track[2].End?
            && track[2].durationNs == c - b
  {
    var s1 := [IdleOn(a, 0)];
    var s2 := s1 + [IdleOn(b, 1)];
    var s3 := s2 + [IdleOff(c, 0)];
    var s4 := s3 + [IdleOff(d, 1)];
    assert s4 == [IdleOn(a, 0), IdleOn(b, 1), IdleOff(c, 0), IdleOff(d, 1)];
    FourOwed(s1, s2, s3, s4);
    hide Marks, Pending, OwedCount;
    NoMarks(base, 0);
    assert [] + [IdleOn(a, 0)] == s1;
    MarksSnoc([], IdleOn(a, 0), base, 0);
    MarksSnoc(s1, IdleOn(b, 1), base, 0);
    MarksSnoc(s2, IdleOff(c, 0), base, 0);
    MarksSnoc(s3, IdleOff(d, 1), base, 0);
  }

  lemma FourOwed(s1: seq<UnifiedEvent>, s2: seq<UnifiedEvent>, s3: seq<UnifiedEvent>, s4: seq<UnifiedEvent>)
    requires |s1| == 1 && |s2| == 2 && |s3| == 3 && |s4| == 4
    requires s1 == s4[..1] && s2 == s4[..2] && s3 == s4[..3]
    requires IsOn(s4[0], 0) && IsOn(s4[1], 0) && IsOff(s4[2], 0) && IsOff(s4[3], 0)
    ensures OwedCount(s4, 0) == 2
  {
    assert s3[..2] == s2 && s2[..1] == s1 && s1[..0] == [];
    assert Depth([], 0) == 0;
    assert Depth(s1, 0) == 1;
    assert Depth(s2, 0) == 2;
    assert Depth(s3, 0) == 1;
    hide Depth;
    assert OwedCount([], 0) == 0;
    assert OwedCount(s1, 0) == 0;
    assert OwedCount(s2, 0) == 0;
    assert OwedCount(s3, 0) == 1;
  }
}
