// Dropped scheduler records: which printed begin/end pairs are real on-CPU intervals.
module Drops {

  import opened Types
  import opened SchedProbes
  import opened Collector
  import opened Sorting
  import opened ChromeTrace
  import opened TraceProofs
  import opened Pipeline

  /** The step takes the thread off or puts it on a CPU. */
  predicate Moves(step: SchedStep, tid: uint32) {
    step.OnSwitch? && (step.s.prev == tid || step.s.next == tid)
  }

  /** The step's record of the thread reaches the ring. */
  predicate Shows(step: SchedStep, tid: uint32) {
    step.OnSwitch? && ((step.s.prev == tid && step.s.off.reserved) || (step.s.next == tid && step.s.on.reserved))
  }

  /** The event that a step reports of the thread. */
  function SwitchEvent(step: SchedStep, tid: uint32): UnifiedEvent
    requires Moves(step, tid)
  {
    if step.s.prev == tid then Cpu(step.s.off.now, OffRecord(step.s)) else Cpu(step.s.on.now, OnRecord(step.s))
  }

  /** The steps whose record of the thread reaches the ring. */
  function Shown(run: seq<SchedStep>, n: nat, tid: uint32): (r: seq<nat>)
    requires n <= |run|
    ensures forall k :: 0 <= k < |r| ==> r[k] < n && Moves(run[r[k]], tid)
  {
    if n == 0 then []
    else if Shows(run[n - 1], tid) then Shown(run, n - 1, tid) + [n - 1]
    else Shown(run, n - 1, tid)
  }

  /** They are in order, and every other step that moves the thread was dropped. */
  lemma {:induction false} ShownIsComplete(run: seq<SchedStep>, n: nat, tid: uint32)
    requires n <= |run|
    ensures var shown := Shown(run, n, tid);
            && (forall k, l :: 0 <= k < l < |shown| ==> shown[k] < shown[l])
            && (forall i :: 0 <= i < n ==> (i in shown <==> Shows(run[i], tid)))
  {
    if n > 0 {
      ShownIsComplete(run, n - 1, tid);
    }
  }

  /** What reaches the collector of the thread, with any drops, is what the shown steps report. */
  lemma {:induction false} ReportedIsShown(start: Running, run: seq<SchedStep>, n: nat, target: uint32, tid: uint32)
    requires ValidRun(start, run) && Wanted(target, tid) && n <= |run|
    ensures var shown, reported := Shown(run, n, tid), Reported(target, run, n, tid);
            && |reported| == |shown|
            && forall k :: 0 <= k < |shown| ==> reported[k] == SwitchEvent(run[shown[k]], tid)
  {
    hide SwitchEvent, ValidRun, Possible, RunningAt, StepRecords;
    ReportedIs(target, run, n, tid);
    if n > 0 {
      ReportedIsShown(start, run, n - 1, target, tid);
      ReportedIs(target, run, n - 1, tid);
      ThisStep(start, run, n - 1);
      StepShows(start, run, n - 1, target, tid);
      OnlyConcat(Ring(target, run, n - 1), StepRecords(target, run[n - 1]), tid);
      var es := Only(Ring(target, run, n - 1), tid);
      hide Only, Ring;
      assert es + [] == es;
      if Shows(run[n - 1], tid) {
        TagOneMore(es, SwitchEvent(run[n - 1], tid).cpu);
      }
    }
  }

  lemma StepShows(start: Running, run: seq<SchedStep>, i: nat, target: uint32, tid: uint32)
    requires i < |run| && Possible(RunningAt(start, run, i), run[i]) && Wanted(target, tid)
    ensures Shows(run[i], tid) ==>
              && Moves(run[i], tid) && SwitchEvent(run[i], tid).Cpu?
              && SwitchEvent(run[i], tid) == Cpu(SwitchEvent(run[i], tid).cpu.timestamp, SwitchEvent(run[i], tid).cpu)
              && Only(StepRecords(target, run[i]), tid) == [SwitchEvent(run[i], tid).cpu]
    ensures !Shows(run[i], tid) ==> Only(StepRecords(target, run[i]), tid) == []
  {
    hide Only, RunningAt;
    NoSwitches(tid);
    match run[i]
    case OnSwitch(s) =>
      OneSwitch(OffRecord(s), tid);
      OneSwitch(OnRecord(s), tid);
      OnlyConcat(OffPart(target, s), OnPart(target, s), tid);
    case OnWake(w) =>
      OneSwitch(WakeRecord(w), tid);
  }

  lemma NoSwitches(tid: uint32)
    ensures Only([], tid) == []
  {
  }

  lemma OneSwitch(e: CpuSchedEvent, tid: uint32)
    ensures Only([e], tid) == if Switches(e, tid) then [e] else []
  {
    assert [e][..0] == [];
  }

  /** The thread runs from step `p` to step `q` without a break. */
  predicate RunsBetween(start: Running, run: seq<SchedStep>, p: nat, q: nat, tid: uint32)
    requires q < |run|
  {
    forall m :: p < m <= q ==> IsRunning(RunningAt(start, run, m), tid)
  }

  lemma {:induction false} StillRuns(start: Running, run: seq<SchedStep>, p: nat, m: nat, tid: uint32)
    requires ValidRun(start, run) && tid != 0 && p < m <= |run|
    requires run[p].OnSwitch? && run[p].s.next == tid
    requires forall i :: p < i < m ==> !Moves(run[i], tid)
    ensures IsRunning(RunningAt(start, run, m), tid)
  {
    hide IsRunning, Exclusive, ValidRun, Possible;
    StaysExclusive(start, run, m - 1);
    ThisStep(start, run, m - 1);
    StepOccupancy(RunningAt(start, run, m - 1), run[m - 1], tid);
    if m > p + 1 {
      StillRuns(start, run, p, m - 1, tid);
    }
  }

  /** From a step that puts the thread on a CPU to one that takes it off, the thread runs without a
      break exactly if nothing moves it in between. */
  lemma RunsIffUnmoved(start: Running, run: seq<SchedStep>, p: nat, q: nat, tid: uint32)
    requires ValidRun(start, run) && tid != 0 && p < q < |run|
    requires run[p].OnSwitch? && run[p].s.next == tid
    ensures RunsBetween(start, run, p, q, tid) <==> forall i :: p < i < q ==> !Moves(run[i], tid)
  {
    hide IsRunning, Exclusive, ValidRun, Possible, RunningAt;
    if forall i :: p < i < q ==> !Moves(run[i], tid) {
      forall m | p < m <= q ensures IsRunning(RunningAt(start, run, m), tid) {
        StillRuns(start, run, p, m, tid);
      }
    }
    if RunsBetween(start, run, p, q, tid) {
      forall i | p < i < q ensures !Moves(run[i], tid) {
        assert IsRunning(RunningAt(start, run, i), tid) && IsRunning(RunningAt(start, run, i + 1), tid);
        StaysExclusive(start, run, i);
        ThisStep(start, run, i);
        StepOccupancy(RunningAt(start, run, i), run[i], tid);
      }
    }
  }

  /** No record of the thread was lost between two steps. */
  predicate NoneLost(run: seq<SchedStep>, p: nat, q: nat, tid: uint32)
    requires q < |run|
  {
    forall i :: p < i < q && Moves(run[i], tid) ==> Shows(run[i], tid)
  }

  /** With any drops: the file's track of the thread is the pairing of the shown steps, and a pair of an
      ON and the OFF that is shown next is a real on-CPU interval exactly if no record of the thread
      was lost between the two. */
  lemma PairIsRealIff(start: Running, run: seq<SchedStep>, target: uint32, tid: uint32, k: nat)
    requires ValidRun(start, run) && tid != 0 && Wanted(target, tid)
    requires 0 < k < |Reported(target, run, |run|, tid)|
    requires IsOn(Reported(target, run, |run|, tid)[k - 1], tid) && IsOff(Reported(target, run, |run|, tid)[k], tid)
    ensures var shown := Shown(run, |run|, tid);
            && k < |shown| && shown[k - 1] < shown[k]
            && run[shown[k - 1]].s.next == tid && run[shown[k]].s.prev == tid
            && Reported(target, run, |run|, tid)[k - 1].timestamp == run[shown[k - 1]].s.on.now
            && Reported(target, run, |run|, tid)[k].timestamp == run[shown[k]].s.off.now
            && (RunsBetween(start, run, shown[k - 1], shown[k], tid) <==> NoneLost(run, shown[k - 1], shown[k], tid))
  {
    hide RunsBetween, ValidRun, Reported;
    var shown := Shown(run, |run|, tid);
    ReportedIsShown(start, run, |run|, target, tid);
    ShownIsComplete(run, |run|, tid);
    var p, q := shown[k - 1], shown[k];
    assert p == shown[k - 1] && q == shown[k] && p < q;
    StepKind(run[p], tid);
    StepKind(run[q], tid);
    RunsIffUnmoved(start, run, p, q, tid);
    forall i | p < i < q ensures !Shows(run[i], tid) {
      NoneBetween(shown, k, i);
    }
  }

  lemma NoneBetween(shown: seq<nat>, k: nat, i: nat)
    requires 0 < k < |shown| && forall a, b :: 0 <= a < b < |shown| ==> shown[a] < shown[b]
    ensures i in shown ==> i <= shown[k - 1] || i >= shown[k]
  {
    if i in shown {
      var l :| 0 <= l < |shown| && shown[l] == i;
      assert l < k - 1 ==> shown[l] < shown[k - 1];
      assert l > k ==> shown[k] < shown[l];
    }
  }

  lemma StepKind(step: SchedStep, tid: uint32)
    requires Moves(step, tid)
    ensures IsOn(SwitchEvent(step, tid), tid) ==>
            step.s.next == tid && SwitchEvent(step, tid).timestamp == step.s.on.now
    ensures IsOff(SwitchEvent(step, tid), tid) ==>
            step.s.prev == tid && SwitchEvent(step, tid).timestamp == step.s.off.now
  {
  }

  /** The track of the file, with any drops. */
  lemma {:induction false} TrackWithDrops(run: seq<SchedStep>, target: uint32, arrivals: seq<Arrival>,
                                          order: seq<UnifiedEvent>, tid: uint32)
    requires InTime(target, run, tid) && Collected(target, run, arrivals, order) && |arrivals| <= MAX_EVENTS
    ensures Track(TraceEvents(order), tid) ==
            Marks(Reported(target, run, |run|, tid), MinTimestamp(order, |order|), tid)
  {
    hide *;
    var n := Min(|arrivals|, MAX_EVENTS);
    InTimeMeans(target, run, tid);
    var stored := StoredSwitches(target, run, arrivals, order, tid);
    StoredIs(arrivals, order, target, run);
    OnlyOfIs(TaggedAll(arrivals[..n]), tid);
    OnlyOfIs(order, tid);
    SortKeeps(order, TaggedAll(arrivals[..n]), SwitchOf(tid));
    OrderTrack(order, tid);
  }
}
