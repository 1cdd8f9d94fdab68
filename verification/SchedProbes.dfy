// The two scheduler tracepoint handlers of src/bpf/trace_cpu_sched.bpf.c.
module SchedProbes {

  import opened Types

  /** What one ring reservation obtains: whether there was room, and the clock read behind it. */
  datatype Slot = Slot(reserved: bool, now: uint64)

  /** One firing of sched_switch.  `off` and `on` are the reservations for the outgoing and the
      incoming thread, `stackId` the answer of bpf_get_stackid. */
  datatype Switch = Switch(
    cpu: uint32,
    prev: uint32,
    next: uint32,
    prevState: uint64,
    prevComm: string,
    nextComm: string,
    off: Slot,
    on: Slot,
    stackId: int)

  /** One firing of sched_wakeup on CPU `cpu`. */
  datatype Wake = Wake(cpu: uint32, pid: uint32, comm: string, slot: Slot)

  predicate Wanted(target: uint32, tid: uint32) {
    target == 0 || tid == target
  }

  function OffRecord(s: Switch): CpuSchedEvent {
    CpuSchedEvent(s.off.now, CPU_SCHED_OFF, s.prev, s.prev, s.cpu, s.prevState, -1, s.prevComm)
  }

  function OnRecord(s: Switch): CpuSchedEvent {
    CpuSchedEvent(s.on.now, CPU_SCHED_ON, s.next, s.next, s.cpu, 0, s.stackId, s.nextComm)
  }

  function WakeRecord(w: Wake): CpuSchedEvent {
    CpuSchedEvent(w.slot.now, CPU_SCHED_WAKEUP, w.pid, w.pid, w.cpu, 0, -1, w.comm)
  }

  /** The outgoing thread is reported if it is wanted. */
  function OffPart(target: uint32, s: Switch): seq<CpuSchedEvent> {
    if Wanted(target, s.prev) && s.off.reserved then [OffRecord(s)] else []
  }

  /** The incoming thread is reported if it is wanted, except that a targeted thread that follows
      itself only goes off. */
  function OnPart(target: uint32, s: Switch): seq<CpuSchedEvent> {
    if Wanted(target, s.next) && !(target != 0 && s.prev == s.next) && s.on.reserved then [OnRecord(s)] else []
  }

  function SwitchRecords(target: uint32, s: Switch): seq<CpuSchedEvent> {
    OffPart(target, s) + OnPart(target, s)
  }

  function WakeRecords(target: uint32, w: Wake): seq<CpuSchedEvent> {
    if Wanted(target, w.pid) && w.slot.reserved then [WakeRecord(w)] else []
  }

  class SchedTracer {
    const targetPid: uint32
    var cpuEvents: seq<CpuSchedEvent>

    constructor (targetPid: uint32)
      ensures this.targetPid == targetPid && cpuEvents == []
    {
      this.targetPid := targetPid;
      cpuEvents := [];
    }

    /** bpf_ringbuf_submit of a filled record. */
    method Submit(timestamp: uint64, eventType: uint32, tid: uint32, cpu: uint32, prevState: uint64, stackId: int,
                  comm: string)
      modifies this`cpuEvents
      ensures cpuEvents == old(cpuEvents) +
              [CpuSchedEvent(timestamp, eventType, tid, tid, cpu, prevState, stackId, comm)]
    {
      cpuEvents := cpuEvents + [CpuSchedEvent(timestamp, eventType, tid, tid, cpu, prevState, stackId, comm)];
    }

    method TraceSchedSwitch(s: Switch)
      modifies this`cpuEvents
      ensures cpuEvents == old(cpuEvents) + SwitchRecords(targetPid, s)
    {
      if targetPid != 0 && s.prev != targetPid && s.next != targetPid {
        return;
      }
      if targetPid != 0 {
        if s.prev == targetPid {
          if !s.off.reserved {
            return;
          }
          Submit(s.off.now, CPU_SCHED_OFF, s.prev, s.cpu, s.prevState, -1, s.prevComm);
        } else if s.next == targetPid {
          if !s.on.reserved {
            return;
          }
          Submit(s.on.now, CPU_SCHED_ON, s.next, s.cpu, 0, s.stackId, s.nextComm);
        }
      } else {
        if s.off.reserved {
          Submit(s.off.now, CPU_SCHED_OFF, s.prev, s.cpu, s.prevState, -1, s.prevComm);
        }
        if s.on.reserved {
          Submit(s.on.now, CPU_SCHED_ON, s.next, s.cpu, 0, s.stackId, s.nextComm);
        }
      }
    }

    method TraceSchedWakeup(w: Wake)
      modifies this`cpuEvents
      ensures cpuEvents == old(cpuEvents) + WakeRecords(targetPid, w)
    {
      if targetPid != 0 && w.pid != targetPid {
        return;
      }
      if !w.slot.reserved {
        return;
      }
      Submit(w.slot.now, CPU_SCHED_WAKEUP, w.pid, w.cpu, 0, -1, w.comm);
    }
  }

  // ---- a machine with several CPUs ----

  /** What each CPU runs; thread 0 is the idle thread of every CPU. */
  type Running = map<uint32, uint32>

  datatype SchedStep = OnSwitch(s: Switch) | OnWake(w: Wake)

  /** Each non-idle thread runs on at most one CPU. */
  predicate Exclusive(running: Running) {
    forall c, d :: c in running && d in running && running[c] == running[d] != 0 ==> c == d
  }

  predicate IsRunning(running: Running, tid: uint32) {
    exists c :: c in running && running[c] == tid
  }

  /** A switch takes the thread running on its CPU away and puts one there that runs nowhere, or idle. */
  predicate Possible(running: Running, step: SchedStep) {
    match step
    case OnSwitch(s) =>
      && s.cpu in running && running[s.cpu] == s.prev
      && s.next != s.prev
      && (s.next != 0 ==> !IsRunning(running, s.next))
    case OnWake(_) => true
  }

  function Next(running: Running, step: SchedStep): Running {
    match step
    case OnSwitch(s) => running[s.cpu := s.next]
    case OnWake(_) => running
  }

  /** The machine after `n` steps. */
  function RunningAt(start: Running, run: seq<SchedStep>, n: nat): Running
    requires n <= |run|
  {
    if n == 0 then start else Next(RunningAt(start, run, n - 1), run[n - 1])
  }

  /** The first `n` steps are possible, one after the other. */
  predicate ValidUpTo(start: Running, run: seq<SchedStep>, n: nat)
    requires n <= |run|
  {
    if n == 0 then Exclusive(start)
    else ValidUpTo(start, run, n - 1) && Possible(RunningAt(start, run, n - 1), run[n - 1])
  }

  predicate ValidRun(start: Running, run: seq<SchedStep>) {
    ValidUpTo(start, run, |run|)
  }

  lemma {:induction false} ValidBefore(start: Running, run: seq<SchedStep>, m: nat, n: nat)
    requires m <= n <= |run| && ValidUpTo(start, run, n)
    ensures ValidUpTo(start, run, m)
    decreases n
  {
    if m < n {
      ValidBefore(start, run, m, n - 1);
    }
  }

  lemma ThisStep(start: Running, run: seq<SchedStep>, i: nat)
    requires ValidRun(start, run) && i < |run|
    ensures Possible(RunningAt(start, run, i), run[i])
    ensures RunningAt(start, run, i + 1) == Next(RunningAt(start, run, i), run[i])
  {
    ValidBefore(start, run, i + 1, |run|);
  }

  lemma {:induction false} StaysExclusive(start: Running, run: seq<SchedStep>, n: nat)
    requires ValidRun(start, run) && n <= |run|
    ensures Exclusive(RunningAt(start, run, n))
  {
    if n == 0 {
      ValidBefore(start, run, 0, |run|);
    } else {
      StaysExclusive(start, run, n - 1);
      ThisStep(start, run, n - 1);
    }
  }

  /** How one step changes whether a non-idle thread runs. */
  lemma StepOccupancy(running: Running, step: SchedStep, tid: uint32)
    requires tid != 0 && Exclusive(running) && Possible(running, step)
    ensures step.OnSwitch? && step.s.prev == tid ==>
              IsRunning(running, tid) && !IsRunning(Next(running, step), tid)
    ensures step.OnSwitch? && step.s.next == tid ==>
              !IsRunning(running, tid) && IsRunning(Next(running, step), tid) && Next(running, step)[step.s.cpu] == tid
    ensures step.OnWake? || (step.s.prev != tid && step.s.next != tid) ==>
              (IsRunning(Next(running, step), tid) <==> IsRunning(running, tid))
  {
    if step.OnSwitch? {
      var s, after := step.s, Next(running, step);
      if s.next == tid {
        assert after[s.cpu] == tid;
      }
      if s.prev != tid && s.next != tid && IsRunning(running, tid) {
        var c :| c in running && running[c] == tid;
        assert c in after && after[c] == tid;
      }
    }
  }

  // ---- the intervals a thread really runs ----

  datatype Stop = Stop(time: uint64, state: uint64)

  /** An interval on one CPU; `stop` is None while it lasts. */
  datatype Span = Span(start: uint64, cpu: uint32, comm: string, stackId: int, stop: Option<Stop>)

  /** The on-CPU intervals of `tid` within the first `n` steps that began after tracing started, read
      off the machine states: one begins when the thread starts to run, and ends when it stops. */
  function Spans(start: Running, run: seq<SchedStep>, n: nat, tid: uint32): seq<Span>
    requires n <= |run|
  {
    if n == 0 then []
    else
      var spans, step := Spans(start, run, n - 1, tid), run[n - 1];
      var was, now := IsRunning(RunningAt(start, run, n - 1), tid), IsRunning(RunningAt(start, run, n), tid);
      if step.OnSwitch? && !was && now then
        spans + [Span(step.s.on.now, step.s.cpu, step.s.nextComm, step.s.stackId, None)]
      else if step.OnSwitch? && was && !now && spans != [] then
        spans[|spans| - 1 := spans[|spans| - 1].(stop := Some(Stop(step.s.off.now, step.s.prevState)))]
      else spans
  }

  /** All intervals but the last are over, and the last one lasts exactly while the thread runs. */
  lemma {:induction false} OnlyLastOpen(start: Running, run: seq<SchedStep>, n: nat, tid: uint32)
    requires ValidRun(start, run) && n <= |run| && tid != 0
    ensures var spans := Spans(start, run, n, tid);
            && (forall k :: 0 <= k < |spans| - 1 ==> spans[k].stop.Some?)
            && (spans != [] ==> (spans[|spans| - 1].stop.None? <==> IsRunning(RunningAt(start, run, n), tid)))
  {
    hide IsRunning, Exclusive, RunningAt, ValidRun, Possible;
    if n > 0 {
      ThisStep(start, run, n - 1);
      OnlyLastOpen(start, run, n - 1, tid);
      StaysExclusive(start, run, n - 1);
      StepOccupancy(RunningAt(start, run, n - 1), run[n - 1], tid);
    }
  }

  // ---- what reaches the ring ----

  function StepRecords(target: uint32, step: SchedStep): seq<CpuSchedEvent> {
    match step
    case OnSwitch(s) => SwitchRecords(target, s)
    case OnWake(w) => WakeRecords(target, w)
  }

  /** The ring after `n` steps. */
  function Ring(target: uint32, run: seq<SchedStep>, n: nat): seq<CpuSchedEvent>
    requires n <= |run|
  {
    if n == 0 then [] else Ring(target, run, n - 1) + StepRecords(target, run[n - 1])
  }

  /** With a target no other thread gets into the ring. */
  lemma {:induction false} OnlyTarget(target: uint32, run: seq<SchedStep>, n: nat)
    requires n <= |run| && target != 0
    ensures forall e :: e in Ring(target, run, n) ==> e.tid == e.pid == target
  {
    if n > 0 {
      OnlyTarget(target, run, n - 1);
    }
  }

  /** No reservation for this thread's records fails. */
  predicate NoDrops(run: seq<SchedStep>, tid: uint32) {
    forall i :: 0 <= i < |run| && run[i].OnSwitch? ==>
      (run[i].s.prev == tid ==> run[i].s.off.reserved) && (run[i].s.next == tid ==> run[i].s.on.reserved)
  }
}
