// From the scheduler to the trace: the begin and end records of a thread are exactly its on-CPU
// intervals, for any machine run, any interleaving of the rings and any tie-break of the sort.
module Pipeline {

  import opened Types
  import opened SchedProbes
  import opened Collector
  import opened Sorting
  import opened ChromeTrace
  import opened TraceProofs

  // ---- the switch events of one thread ----

  predicate Switches(e: CpuSchedEvent, tid: uint32) {
    (e.eventType == CPU_SCHED_ON || e.eventType == CPU_SCHED_OFF) && e.tid == tid
  }

  /** The ON and OFF records of one thread. */
  function Only(es: seq<CpuSchedEvent>, tid: uint32): (r: seq<CpuSchedEvent>)
    ensures forall i :: 0 <= i < |r| ==> Switches(r[i], tid)
  {
    if es == [] then []
    else
      var init, last := Only(es[..|es| - 1], tid), es[|es| - 1];
      if Switches(last, tid) then init + [last] else init
  }

  lemma {:induction false} OnlyConcat(a: seq<CpuSchedEvent>, b: seq<CpuSchedEvent>, tid: uint32)
    ensures Only(a + b, tid) == Only(a, tid) + Only(b, tid)
  {
    if b == [] {
      assert a + b == a;
    } else {
      assert (a + b)[..|a + b| - 1] == a + b[..|b| - 1];
      OnlyConcat(a, b[..|b| - 1], tid);
    }
  }

  /** Selects the ON and OFF events of a thread. */
  function SwitchOf(tid: uint32): UnifiedEvent -> bool {
    e => IsOn(e, tid) || IsOff(e, tid)
  }

  /** The same on collected events. */
  function OnlyOf(events: seq<UnifiedEvent>, tid: uint32): (r: seq<UnifiedEvent>)
    ensures forall i :: 0 <= i < |r| ==> IsOn(r[i], tid) || IsOff(r[i], tid)
  {
    var r := Keep(events, SwitchOf(tid));
    assert forall i :: 0 <= i < |r| ==> SwitchOf(tid)(r[i]);
    r
  }

  lemma OnlyOfIs(events: seq<UnifiedEvent>, tid: uint32)
    ensures OnlyOf(events, tid) == Keep(events, SwitchOf(tid))
  {
  }

  function TagCpu(es: seq<CpuSchedEvent>): seq<UnifiedEvent> {
    seq(|es|, i requires 0 <= i < |es| => Cpu(es[i].timestamp, es[i]))
  }

  /** GPU records in between do not matter. */
  lemma {:induction false} OnlyOfArrivals(arrivals: seq<Arrival>, tid: uint32)
    ensures OnlyOf(TaggedAll(arrivals), tid) == TagCpu(Only(CpuOnly(arrivals), tid))
  {
    if arrivals != [] {
      var init, last := arrivals[..|arrivals| - 1], arrivals[|arrivals| - 1];
      OnlyOfArrivals(init, tid);
      assert TaggedAll(arrivals) == TaggedAll(init) + [Tagged(last)];
      assert TaggedAll(arrivals)[..|arrivals| - 1] == TaggedAll(init);
      if last.FromCpu? {
        assert (CpuOnly(init) + [last.cpu])[..|CpuOnly(init)|] == CpuOnly(init);
        var was := Only(CpuOnly(init), tid);
        assert TagCpu(was + [last.cpu]) == TagCpu(was) + [Tagged(last)];
      }
    }
  }

  // ---- the emitter on one thread ----

  /** When the last switch put the thread on CPU; 0 otherwise. */
  function Pending(switches: seq<UnifiedEvent>, tid: uint32): uint64 {
    if switches != [] && IsOn(switches[|switches| - 1], tid) then switches[|switches| - 1].timestamp else 0
  }

  /** The begin and end records for a list of one thread's switches. */
  function Marks(switches: seq<UnifiedEvent>, base: uint64, tid: uint32): seq<Record>
    requires forall i :: 0 <= i < |switches| ==> IsOn(switches[i], tid) || IsOff(switches[i], tid)
  {
    if switches == [] then []
    else
      var init, e := switches[..|switches| - 1], switches[|switches| - 1];
      assert IsOn(e, tid) || IsOff(e, tid);
      var c, ts := e.cpu, SubU64(e.timestamp, base);
      if IsOn(e, tid) then Marks(init, base, tid) + [Begin(ts, c.pid, tid, c.cpu, c.comm, StackIf(c.stackId, c.pid))]
      else if tid < TID_LIMIT && Pending(init, tid) != 0 then
        Marks(init, base, tid) + [End(ts, c.pid, tid, SubU64(e.timestamp, Pending(init, tid)), c.prevState)]
      else Marks(init, base, tid)
  }

  lemma MarksSnoc(was: seq<UnifiedEvent>, e: UnifiedEvent, base: uint64, tid: uint32)
    requires forall i :: 0 <= i < |was| ==> IsOn(was[i], tid) || IsOff(was[i], tid)
    requires IsOn(e, tid) || IsOff(e, tid)
    ensures var marks := Marks(was, base, tid);
            var c, ts := e.cpu, SubU64(e.timestamp, base);
            Marks(was + [e], base, tid) ==
            if IsOn(e, tid) then marks + [Begin(ts, c.pid, tid, c.cpu, c.comm, StackIf(c.stackId, c.pid))]
            else if tid < TID_LIMIT && Pending(was, tid) != 0 then
              marks + [End(ts, c.pid, tid, SubU64(e.timestamp, Pending(was, tid)), c.prevState)]
            else marks
    ensures Pending(was + [e], tid) == if IsOn(e, tid) then e.timestamp else 0
  {
    assert (was + [e])[..|was|] == was;
  }

  /** The emitter treats each thread as if its events were the only ones. */
  lemma {:induction false} TrackIsMarks(events: seq<UnifiedEvent>, n: nat, base: uint64, tid: uint32)
    requires n <= |events|
    ensures var switches := OnlyOf(events[..n], tid);
            && OnTime(events, n, tid) == Pending(switches, tid)
            && Track(Records(events, n, base), tid) == Marks(switches, base, tid)
  {
    hide *;
    if n == 0 {
      NoRecords(events, base, tid);
      assert events[..0] == [];
      NoMarks(base, tid);
    } else {
      TrackIsMarks(events, n - 1, base, tid);
      TrackOfNext(events, n - 1, base, tid);
      MarksStep(events, n - 1, base, tid);
    }
  }

  lemma NoMarks(base: uint64, tid: uint32)
    ensures OnlyOf([], tid) == [] && Marks([], base, tid) == [] && Pending([], tid) == 0
  {
  }

  lemma MarksStep(events: seq<UnifiedEvent>, i: nat, base: uint64, tid: uint32)
    requires i < |events| && OnTime(events, i, tid) == Pending(OnlyOf(events[..i], tid), tid)
    ensures var was, now := OnlyOf(events[..i], tid), OnlyOf(events[..i + 1], tid);
            && Marks(now, base, tid) == Marks(was, base, tid) + TrackStep(events, i, base, tid)
            && OnTime(events, i + 1, tid) == Pending(now, tid)
  {
    hide SubU64;
    var was, now := OnlyOf(events[..i], tid), OnlyOf(events[..i + 1], tid);
    assert events[..i + 1][..i] == events[..i];
    StepContent(events, i, base, tid);
    assert now == if IsOn(events[i], tid) || IsOff(events[i], tid) then was + [events[i]] else was;
    assert (was + [events[i]])[..|was|] == was;
  }

  // ---- the scheduler on one thread ----

  /** The switches of a wanted thread that one step reports. */
  lemma StepSwitches(target: uint32, step: SchedStep, tid: uint32)
    requires Wanted(target, tid)
    requires step.OnSwitch? ==>
               && step.s.prev != step.s.next
               && (step.s.prev == tid ==> step.s.off.reserved)
               && (step.s.next == tid ==> step.s.on.reserved)
    ensures Only(StepRecords(target, step), tid) ==
            if step.OnSwitch? && step.s.prev == tid then [OffRecord(step.s)]
            else if step.OnSwitch? && step.s.next == tid then [OnRecord(step.s)]
            else []
  {
    assert Only([], tid) == [];
    match step
    case OnSwitch(s) =>
      OnlyConcat(OffPart(target, s), OnPart(target, s), tid);
      assert [OffRecord(s)][..0] == [] && [OnRecord(s)][..0] == [];
    case OnWake(w) =>
      assert [WakeRecord(w)][..0] == [];
  }

  /** A thread's switches as they reach the collector. */
  function Reported(target: uint32, run: seq<SchedStep>, n: nat, tid: uint32): (r: seq<UnifiedEvent>)
    requires n <= |run|
    ensures forall i :: 0 <= i < |r| ==> IsOn(r[i], tid) || IsOff(r[i], tid)
  {
    TagCpu(Only(Ring(target, run, n), tid))
  }

  lemma ReportedStep(start: Running, target: uint32, run: seq<SchedStep>, i: nat, tid: uint32)
    requires ValidRun(start, run) && NoDrops(run, tid) && Wanted(target, tid) && i < |run|
    ensures var was, now, step := Reported(target, run, i, tid), Reported(target, run, i + 1, tid), run[i];
            now ==
            if step.OnSwitch? && step.s.prev == tid then was + [Cpu(step.s.off.now, OffRecord(step.s))]
            else if step.OnSwitch? && step.s.next == tid then was + [Cpu(step.s.on.now, OnRecord(step.s))]
            else was
  {
    ThisStep(start, run, i);
    StepSwitches(target, run[i], tid);
    OnlyConcat(Ring(target, run, i), StepRecords(target, run[i]), tid);
    hide Only, StepRecords;
    var es := Only(Ring(target, run, i), tid);
    assert es + [] == es;
    if run[i].OnSwitch? {
      TagOneMore(es, OffRecord(run[i].s));
      TagOneMore(es, OnRecord(run[i].s));
    }
  }

  lemma TagOneMore(es: seq<CpuSchedEvent>, e: CpuSchedEvent)
    ensures TagCpu(es + [e]) == TagCpu(es) + [Cpu(e.timestamp, e)]
  {
  }

  lemma SpanStep(start: Running, run: seq<SchedStep>, i: nat, tid: uint32)
    requires ValidRun(start, run) && i < |run| && tid != 0
    ensures var was, now, step := Spans(start, run, i, tid), Spans(start, run, i + 1, tid), run[i];
            var ran, runs := IsRunning(RunningAt(start, run, i), tid), IsRunning(RunningAt(start, run, i + 1), tid);
            if step.OnSwitch? && step.s.prev == tid then
              && ran && !runs && step.s.next != tid
              && (if was == [] then now == []
                  else now == was[..|was| - 1] +
                              [was[|was| - 1].(stop := Some(Stop(step.s.off.now, step.s.prevState)))])
            else if step.OnSwitch? && step.s.next == tid then
              && !ran && runs
              && now == was + [Span(step.s.on.now, step.s.cpu, step.s.nextComm, step.s.stackId, None)]
            else now == was && ran == runs
  {
    hide IsRunning, Exclusive;
    StaysExclusive(start, run, i);
    ThisStep(start, run, i);
    StepOccupancy(RunningAt(start, run, i), run[i], tid);
  }

  // ---- exactness ----

  /** An interval whose end the emitter can close. */
  predicate Closable(span: Span, tid: uint32) {
    tid < TID_LIMIT && span.start != 0
  }

  function BeginOf(span: Span, base: uint64, tid: uint32): Record {
    Begin(SubU64(span.start, base), tid, tid, span.cpu, span.comm, StackIf(span.stackId, tid))
  }

  function EndOf(span: Span, base: uint64, tid: uint32): Record
    requires span.stop.Some?
  {
    var stop := span.stop.value;
    End(SubU64(stop.time, base), tid, tid, SubU64(stop.time, span.start), stop.state)
  }

  function SpanRecords(span: Span, base: uint64, tid: uint32): seq<Record> {
    if span.stop.Some? && Closable(span, tid) then [BeginOf(span, base, tid), EndOf(span, base, tid)]
    else [BeginOf(span, base, tid)]
  }

  function SpanTrack(spans: seq<Span>, base: uint64, tid: uint32): seq<Record> {
    if spans == [] then []
    else SpanTrack(spans[..|spans| - 1], base, tid) + SpanRecords(spans[|spans| - 1], base, tid)
  }

  /** What the pairing state knows about the run. */
  predicate InStep(switches: seq<UnifiedEvent>, spans: seq<Span>, runs: bool, base: uint64, tid: uint32)
    requires forall i :: 0 <= i < |switches| ==> IsOn(switches[i], tid) || IsOff(switches[i], tid)
  {
    && Marks(switches, base, tid) == SpanTrack(spans, base, tid)
    && Pending(switches, tid) == (if spans != [] && runs then spans[|spans| - 1].start else 0)
  }

  lemma {:induction false} MarksAreSpans(start: Running, run: seq<SchedStep>, n: nat, target: uint32, base: uint64,
                                         tid: uint32)
    requires ValidRun(start, run) && NoDrops(run, tid) && tid != 0 && Wanted(target, tid) && n <= |run|
    ensures InStep(Reported(target, run, n, tid), Spans(start, run, n, tid), IsRunning(RunningAt(start, run, n), tid),
                   base, tid)
  {
    hide *;
    if n == 0 {
      NothingReported(start, run, target, base, tid);
    } else {
      MarksAreSpans(start, run, n - 1, target, base, tid);
      ReportedStep(start, target, run, n - 1, tid);
      SpanStep(start, run, n - 1, tid);
      OnlyLastOpen(start, run, n - 1, tid);
      var was, spans, step := Reported(target, run, n - 1, tid), Spans(start, run, n - 1, tid), run[n - 1];
      if step.OnSwitch? && step.s.prev == tid {
        GoesOff(was, spans, step.s, base, tid);
      } else if step.OnSwitch? && step.s.next == tid {
        GoesOn(was, spans, step.s, base, tid);
      }
    }
  }

  lemma NothingReported(start: Running, run: seq<SchedStep>, target: uint32, base: uint64, tid: uint32)
    ensures InStep(Reported(target, run, 0, tid), Spans(start, run, 0, tid), IsRunning(RunningAt(start, run, 0), tid),
                   base, tid)
  {
  }

  lemma SpanTrackSnoc(spans: seq<Span>, span: Span, base: uint64, tid: uint32)
    ensures SpanTrack(spans + [span], base, tid) == SpanTrack(spans, base, tid) + SpanRecords(span, base, tid)
  {
    assert (spans + [span])[..|spans|] == spans;
  }

  lemma GoesOn(was: seq<UnifiedEvent>, spans: seq<Span>, s: Switch, base: uint64, tid: uint32)
    requires forall i :: 0 <= i < |was| ==> IsOn(was[i], tid) || IsOff(was[i], tid)
    requires s.next == tid && InStep(was, spans, false, base, tid)
    ensures InStep(was + [Cpu(s.on.now, OnRecord(s))], spans + [Span(s.on.now, s.cpu, s.nextComm, s.stackId, None)],
                   true, base, tid)
  {
    hide SubU64, Marks, SpanTrack, Pending;
    MarksSnoc(was, Cpu(s.on.now, OnRecord(s)), base, tid);
    SpanTrackSnoc(spans, Span(s.on.now, s.cpu, s.nextComm, s.stackId, None), base, tid);
  }

  lemma GoesOff(was: seq<UnifiedEvent>, spans: seq<Span>, s: Switch, base: uint64, tid: uint32)
    requires forall i :: 0 <= i < |was| ==> IsOn(was[i], tid) || IsOff(was[i], tid)
    requires s.prev == tid && InStep(was, spans, true, base, tid)
    requires spans != [] ==> spans[|spans| - 1].stop.None?
    ensures var now := was + [Cpu(s.off.now, OffRecord(s))];
            if spans == [] then InStep(now, [], false, base, tid)
            else
              var closed := spans[|spans| - 1].(stop := Some(Stop(s.off.now, s.prevState)));
              InStep(now, spans[..|spans| - 1] + [closed], false, base, tid)
  {
    hide SubU64, Marks, SpanTrack, Pending;
    MarksSnoc(was, Cpu(s.off.now, OffRecord(s)), base, tid);
    if spans != [] {
      var init, open := spans[..|spans| - 1], spans[|spans| - 1];
      var closed := open.(stop := Some(Stop(s.off.now, s.prevState)));
      assert init + [open] == spans;
      SpanTrackSnoc(init, open, base, tid);
      SpanTrackSnoc(init, closed, base, tid);
      CloseRecords(SpanTrack(init, base, tid), open, closed, base, tid);
    }
  }

  lemma CloseRecords(track: seq<Record>, open: Span, closed: Span, base: uint64, tid: uint32)
    requires open.stop.None? && closed.stop.Some? && closed == open.(stop := closed.stop)
    ensures SpanRecords(open, base, tid) == [BeginOf(closed, base, tid)]
    ensures track + SpanRecords(closed, base, tid) ==
            if Closable(open, tid) then track + [BeginOf(closed, base, tid)] + [EndOf(closed, base, tid)]
            else track + [BeginOf(closed, base, tid)]
  {
    hide SubU64;
  }

  /** Strictly increasing timestamps. */
  predicate TimesIncrease(es: seq<CpuSchedEvent>) {
    forall i, j :: 0 <= i < j < |es| ==> es[i].timestamp < es[j].timestamp
  }

  /** A possible run, and in it a non-idle thread that is traced without dropped records. */
  predicate Watched(start: Running, run: seq<SchedStep>, target: uint32, tid: uint32) {
    ValidRun(start, run) && tid != 0 && Wanted(target, tid) && NoDrops(run, tid)
  }

  /** The thread's own switches have strictly increasing timestamps. */
  predicate InTime(target: uint32, run: seq<SchedStep>, tid: uint32) {
    TimesIncrease(Only(Ring(target, run, |run|), tid))
  }

  /** The scheduler ring of the run reaches the collector, mixed in any way with GPU records, and is
      sorted with any tie-break. */
  predicate Collected(target: uint32, run: seq<SchedStep>, arrivals: seq<Arrival>, order: seq<UnifiedEvent>) {
    && CpuOnly(arrivals) == Ring(target, run, |run|)
    && SortedPermutation(order, First(TaggedAll(arrivals), MAX_EVENTS))
  }

  /** Scheduler-to-trace exactness, for any number of arrivals: the begin and end records of the thread
      are its on-CPU intervals within some first steps of the run, one after the other; and within the
      whole run if everything fits the event array.  Each interval that began after tracing started
      has its begin record, directly followed by its end record if it is over and closable. */
  lemma {:induction false} TraceIsEarlierSchedule(start: Running, run: seq<SchedStep>, target: uint32,
                                                  arrivals: seq<Arrival>, order: seq<UnifiedEvent>, tid: uint32)
    returns (m: nat)
    requires Watched(start, run, target, tid) && InTime(target, run, tid) && Collected(target, run, arrivals, order)
    ensures m <= |run| && (|arrivals| <= MAX_EVENTS ==> m == |run|)
    ensures Track(TraceEvents(order), tid) == SpanTrack(Spans(start, run, m, tid), MinTimestamp(order, |order|), tid)
  {
    hide *;
    var base, n := MinTimestamp(order, |order|), Min(|arrivals|, MAX_EVENTS);
    WatchedMeans(start, run, target, tid);
    InTimeMeans(target, run, tid);
    var stored := StoredSwitches(target, run, arrivals, order, tid);
    if |arrivals| <= MAX_EVENTS {
      m := |run|;
    } else {
      m := RunOfPrefix(start, run, |run|, target, tid, stored);
    }
    PrefixIncreases(stored, Reported(target, run, |run|, tid));
    StoredIs(arrivals, order, target, run);
    OnlyOfIs(TaggedAll(arrivals[..n]), tid);
    OnlyOfIs(order, tid);
    SortKeeps(order, TaggedAll(arrivals[..n]), SwitchOf(tid));
    OrderTrack(order, tid);
    MarksAreSpans(start, run, m, target, base, tid);
    StepResult(start, run, m, target, base, tid);
  }

  /** The same when everything fits. */
  lemma {:induction false} TraceIsSchedule(start: Running, run: seq<SchedStep>, target: uint32, arrivals: seq<Arrival>,
                                           order: seq<UnifiedEvent>, tid: uint32)
    requires Watched(start, run, target, tid) && InTime(target, run, tid) && Collected(target, run, arrivals, order)
    requires |arrivals| <= MAX_EVENTS
    ensures Track(TraceEvents(order), tid) ==
            SpanTrack(Spans(start, run, |run|, tid), MinTimestamp(order, |order|), tid)
  {
    hide *;
    var m := TraceIsEarlierSchedule(start, run, target, arrivals, order, tid);
  }

  lemma WatchedMeans(start: Running, run: seq<SchedStep>, target: uint32, tid: uint32)
    requires Watched(start, run, target, tid)
    ensures ValidRun(start, run) && NoDrops(run, tid) && tid != 0 && Wanted(target, tid)
  {
  }

  lemma InTimeMeans(target: uint32, run: seq<SchedStep>, tid: uint32)
    requires InTime(target, run, tid)
    ensures Increasing(Reported(target, run, |run|, tid))
  {
    hide Only, Ring;
  }

  /** What the collector stores, before and after the sort. */
  lemma StoredIs(arrivals: seq<Arrival>, order: seq<UnifiedEvent>, target: uint32, run: seq<SchedStep>)
    requires Collected(target, run, arrivals, order)
    ensures CpuOnly(arrivals) == Ring(target, run, |run|)
    ensures SortedPermutation(order, TaggedAll(arrivals[..Min(|arrivals|, MAX_EVENTS)]))
  {
    hide CpuOnly, Ring, SortedPermutation;
    var n := Min(|arrivals|, MAX_EVENTS);
    assert First(TaggedAll(arrivals), MAX_EVENTS) == TaggedAll(arrivals[..n]);
  }

  /** The switches of the thread that are stored are the first ones. */
  lemma StoredSwitches(target: uint32, run: seq<SchedStep>, arrivals: seq<Arrival>, order: seq<UnifiedEvent>,
                       tid: uint32)
    returns (stored: seq<UnifiedEvent>)
    requires Collected(target, run, arrivals, order)
    ensures stored == OnlyOf(TaggedAll(arrivals[..Min(|arrivals|, MAX_EVENTS)]), tid)
    ensures stored <= Reported(target, run, |run|, tid)
    ensures |arrivals| <= MAX_EVENTS ==> stored == Reported(target, run, |run|, tid)
  {
    hide *;
    var n := Min(|arrivals|, MAX_EVENTS);
    StoredIs(arrivals, order, target, run);
    RingLosesSuffix(arrivals, n);
    OnlyOfArrivals(arrivals[..n], tid);
    stored := OnlyOf(TaggedAll(arrivals[..n]), tid);
    OnlyPrefix(CpuOnly(arrivals[..n]), CpuOnly(arrivals), tid);
    TagPrefix(Only(CpuOnly(arrivals[..n]), tid), Only(CpuOnly(arrivals), tid));
    ReportedIs(target, run, |run|, tid);
    if |arrivals| <= MAX_EVENTS {
      assert arrivals[..n] == arrivals;
    }
  }

  lemma ReportedIs(target: uint32, run: seq<SchedStep>, n: nat, tid: uint32)
    requires n <= |run|
    ensures Reported(target, run, n, tid) == TagCpu(Only(Ring(target, run, n), tid))
  {
  }

  lemma OnlyPrefix(a: seq<CpuSchedEvent>, b: seq<CpuSchedEvent>, tid: uint32)
    requires a <= b
    ensures Only(a, tid) <= Only(b, tid)
  {
    assert b == a + b[|a|..];
    OnlyConcat(a, b[|a|..], tid);
  }

  lemma TagPrefix(a: seq<CpuSchedEvent>, b: seq<CpuSchedEvent>)
    requires a <= b
    ensures TagCpu(a) <= TagCpu(b)
  {
    assert forall i :: 0 <= i < |a| ==> a[i] == b[i];
  }

  lemma PrefixIncreases(a: seq<UnifiedEvent>, b: seq<UnifiedEvent>)
    requires a <= b && Increasing(b)
    ensures Increasing(a)
  {
    assert forall i :: 0 <= i < |a| ==> a[i] == b[i];
  }

  /** Any first part of a thread's switches is what it reports within some first steps. */
  lemma {:induction false} RunOfPrefix(start: Running, run: seq<SchedStep>, n: nat, target: uint32, tid: uint32,
                                       stored: seq<UnifiedEvent>) returns (m: nat)
    requires ValidRun(start, run) && NoDrops(run, tid) && Wanted(target, tid) && n <= |run|
    requires stored <= Reported(target, run, n, tid)
    ensures m <= n && Reported(target, run, m, tid) == stored
  {
    hide ValidRun, NoDrops, Reported, Wanted;
    if stored == Reported(target, run, n, tid) {
      m := n;
    } else {
      NothingAtStart(target, run, tid);
      ReportedStep(start, target, run, n - 1, tid);
      m := RunOfPrefix(start, run, n - 1, target, tid, stored);
    }
  }

  lemma NothingAtStart(target: uint32, run: seq<SchedStep>, tid: uint32)
    ensures Reported(target, run, 0, tid) == []
  {
  }

  /** The track of a sorted file. */
  lemma OrderTrack(order: seq<UnifiedEvent>, tid: uint32)
    ensures Track(TraceEvents(order), tid) == Marks(OnlyOf(order, tid), MinTimestamp(order, |order|), tid)
  {
    hide *;
    TrackIsMarks(order, |order|, MinTimestamp(order, |order|), tid);
    assert order[..|order|] == order;
    TraceEventsAre(order);
  }

  lemma StepResult(start: Running, run: seq<SchedStep>, n: nat, target: uint32, base: uint64, tid: uint32)
    requires n <= |run|
    requires InStep(Reported(target, run, n, tid), Spans(start, run, n, tid), IsRunning(RunningAt(start, run, n), tid),
                    base, tid)
    ensures Marks(Reported(target, run, n, tid), base, tid) == SpanTrack(Spans(start, run, n, tid), base, tid)
  {
  }

  // ---- one begin and one end per interval ----

  /** The ideal track: every finished interval has both records. */
  function FullTrack(spans: seq<Span>, base: uint64, tid: uint32): seq<Record> {
    if spans == [] then []
    else
      var init, last := FullTrack(spans[..|spans| - 1], base, tid), spans[|spans| - 1];
      if last.stop.Some? then init + [BeginOf(last, base, tid), EndOf(last, base, tid)]
      else init + [BeginOf(last, base, tid)]
  }

  /** Every finished interval of the thread started at a nonzero time, and its id is below the limit. */
  predicate AllClosable(spans: seq<Span>, tid: uint32) {
    forall k :: 0 <= k < |spans| && spans[k].stop.Some? ==> Closable(spans[k], tid)
  }

  /** The emitter's sentinel 0 and its bound on thread ids are the only reasons to miss an end. */
  lemma {:induction false} FullIffClosable(spans: seq<Span>, base: uint64, tid: uint32)
    ensures SpanTrack(spans, base, tid) == FullTrack(spans, base, tid) <==> AllClosable(spans, tid)
    ensures |SpanTrack(spans, base, tid)| <= |FullTrack(spans, base, tid)|
    ensures |SpanTrack(spans, base, tid)| == |FullTrack(spans, base, tid)| ==> AllClosable(spans, tid)
  {
    hide BeginOf, EndOf, Closable;
    if spans != [] {
      var init := spans[..|spans| - 1];
      FullIffClosable(init, base, tid);
      assert spans == init + [spans[|spans| - 1]];
    }
  }

  predicate LastOpen(spans: seq<Span>) {
    spans != [] && spans[|spans| - 1].stop.None?
  }

  /** Begin and end alternate: interval k owns records 2k and 2k + 1, and at most the last interval
      lacks its end. */
  predicate OneToOne(track: seq<Record>, spans: seq<Span>, base: uint64, tid: uint32) {
    && |track| == (if LastOpen(spans) then 2 * |spans| - 1 else 2 * |spans|)
    && (forall k :: 0 <= k < |spans| ==> track[2 * k] == BeginOf(spans[k], base, tid))
    && (forall k :: 0 <= k < |spans| && 2 * k + 1 < |track| ==>
          spans[k].stop.Some? && track[2 * k + 1] == EndOf(spans[k], base, tid))
  }

  lemma {:induction false} FullTrackShape(spans: seq<Span>, base: uint64, tid: uint32)
    requires forall k :: 0 <= k < |spans| - 1 ==> spans[k].stop.Some?
    ensures OneToOne(FullTrack(spans, base, tid), spans, base, tid)
  {
    hide BeginOf, EndOf;
    if spans != [] {
      FullTrackShape(spans[..|spans| - 1], base, tid);
    }
  }

  /** Total length of the finished intervals. */
  function BusyTime(spans: seq<Span>): int {
    if spans == [] then 0
    else
      var last := spans[|spans| - 1];
      BusyTime(spans[..|spans| - 1]) + if last.stop.Some? then last.stop.value.time - last.start else 0
  }

  /** Total of the durations printed. */
  function Durations(track: seq<Record>): int {
    if track == [] then 0
    else
      var last := track[|track| - 1];
      Durations(track[..|track| - 1]) + if last.End? then last.durationNs else 0
  }

  predicate Forward(spans: seq<Span>) {
    forall k :: 0 <= k < |spans| && spans[k].stop.Some? ==> spans[k].start <= spans[k].stop.value.time
  }

  lemma {:induction false} DurationsAddUp(spans: seq<Span>, base: uint64, tid: uint32)
    requires Forward(spans)
    ensures Durations(FullTrack(spans, base, tid)) == BusyTime(spans)
  {
    hide BeginOf;
    if spans != [] {
      var init, last := spans[..|spans| - 1], spans[|spans| - 1];
      DurationsAddUp(init, base, tid);
      var full, b := FullTrack(init, base, tid), BeginOf(last, base, tid);
      BeginHasNoDuration(full, last, base, tid);
      if last.stop.Some? {
        var e := EndOf(last, base, tid);
        assert full + [b, e] == full + [b] + [e];
        assert (full + [b] + [e])[..|full| + 1] == full + [b];
      }
    }
  }

  lemma BeginHasNoDuration(track: seq<Record>, span: Span, base: uint64, tid: uint32)
    ensures Durations(track + [BeginOf(span, base, tid)]) == Durations(track)
  {
    assert (track + [BeginOf(span, base, tid)])[..|track|] == track;
  }

  /** The thread's clock readings bound its intervals. */
  lemma {:induction false} SpansGoForward(start: Running, run: seq<SchedStep>, n: nat, target: uint32, tid: uint32)
    requires ValidRun(start, run) && NoDrops(run, tid) && tid != 0 && Wanted(target, tid) && n <= |run|
    requires Increasing(Reported(target, run, n, tid))
    ensures var spans, reported := Spans(start, run, n, tid), Reported(target, run, n, tid);
            && Forward(spans)
            && (spans != [] && spans[|spans| - 1].stop.None? ==>
                  reported != [] && reported[|reported| - 1].timestamp == spans[|spans| - 1].start)
  {
    hide *;
    if n == 0 {
      NothingForward(start, run, target, tid);
    } else {
      ReportedStep(start, target, run, n - 1, tid);
      SpanStep(start, run, n - 1, tid);
      OnlyLastOpen(start, run, n - 1, tid);
      ShorterIncreases(Reported(target, run, n - 1, tid), Reported(target, run, n, tid));
      SpansGoForward(start, run, n - 1, target, tid);
      var was, spans, s := Reported(target, run, n - 1, tid), Spans(start, run, n - 1, tid), run[n - 1];
      if s.OnSwitch? && s.s.prev == tid && spans != [] {
        LastTwoIncrease(was, Cpu(s.s.off.now, OffRecord(s.s)));
        CloseForward(spans, Stop(s.s.off.now, s.s.prevState));
      } else if s.OnSwitch? && s.s.next == tid {
        OpenForward(spans, Span(s.s.on.now, s.s.cpu, s.s.nextComm, s.s.stackId, None));
      }
    }
  }

  lemma NothingForward(start: Running, run: seq<SchedStep>, target: uint32, tid: uint32)
    ensures Spans(start, run, 0, tid) == [] && Forward([])
  {
  }

  lemma ShorterIncreases(was: seq<UnifiedEvent>, now: seq<UnifiedEvent>)
    requires was <= now && Increasing(now)
    ensures Increasing(was)
  {
    assert forall i :: 0 <= i < |was| ==> was[i] == now[i];
  }

  lemma LastTwoIncrease(was: seq<UnifiedEvent>, e: UnifiedEvent)
    requires Increasing(was + [e])
    ensures was != [] ==> was[|was| - 1].timestamp < e.timestamp
  {
    var now := was + [e];
    if was != [] {
      assert now[|was| - 1].timestamp < now[|was|].timestamp;
    }
  }

  lemma CloseForward(spans: seq<Span>, stop: Stop)
    requires spans != [] && Forward(spans) && spans[|spans| - 1].start <= stop.time
    ensures Forward(spans[..|spans| - 1] + [spans[|spans| - 1].(stop := Some(stop))])
  {
  }

  lemma OpenForward(spans: seq<Span>, span: Span)
    requires Forward(spans) && span.stop.None?
    ensures Forward(spans + [span])
  {
  }

  /** The begin and end records correspond one to one with the thread's on-CPU intervals exactly when
      every finished interval started at a nonzero time on a thread id below the limit. */
  lemma {:induction false} ExactIff(start: Running, run: seq<SchedStep>, target: uint32, arrivals: seq<Arrival>,
                                    order: seq<UnifiedEvent>, tid: uint32)
    requires Watched(start, run, target, tid) && InTime(target, run, tid) && Collected(target, run, arrivals, order)
    requires |arrivals| <= MAX_EVENTS
    ensures var spans, base := Spans(start, run, |run|, tid), MinTimestamp(order, |order|);
            Track(TraceEvents(order), tid) == FullTrack(spans, base, tid) <==> AllClosable(spans, tid)
  {
    hide *;
    TraceIsSchedule(start, run, target, arrivals, order, tid);
    FullIffClosable(Spans(start, run, |run|, tid), MinTimestamp(order, |order|), tid);
  }

  /** Then begins and ends alternate, only the last begin may stay open, and the durations add up to
      the thread's finished on-CPU time. */
  lemma {:induction false} ExactShape(start: Running, run: seq<SchedStep>, target: uint32, arrivals: seq<Arrival>,
                                      order: seq<UnifiedEvent>, tid: uint32)
    requires Watched(start, run, target, tid) && InTime(target, run, tid) && Collected(target, run, arrivals, order)
    requires |arrivals| <= MAX_EVENTS
    requires AllClosable(Spans(start, run, |run|, tid), tid)
    ensures var spans, track := Spans(start, run, |run|, tid), Track(TraceEvents(order), tid);
            && OneToOne(track, spans, MinTimestamp(order, |order|), tid)
            && Durations(track) == BusyTime(spans)
  {
    hide *;
    var spans, base := Spans(start, run, |run|, tid), MinTimestamp(order, |order|);
    ExactIff(start, run, target, arrivals, order, tid);
    WatchedMeans(start, run, target, tid);
    InTimeMeans(target, run, tid);
    OnlyLastOpen(start, run, |run|, tid);
    FullTrackShape(spans, base, tid);
    SpansGoForward(start, run, |run|, target, tid);
    DurationsAddUp(spans, base, tid);
  }
}
