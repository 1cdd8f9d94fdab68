// The CUDA entry and return probes of src/bpf/trace_cuda.bpf.c over their three maps: in-flight
// calls keyed by thread, the per-CPU sampling counter and the event ring.
module CudaTracer {

  import opened Types
  import opened CudaApi

  /** max_entries of cuda_calls. */
  const MAX_CALLS: nat := 10240

  /** struct cuda_tracer_cfg. */
  datatype Config = Config(
    targetPid: uint32,
    samplePeriodSync: uint32,
    samplePeriodAsync: uint32,
    captureStacks: bool)

  /** struct cuda_call_info. */
  datatype CallInfo = CallInfo(
    timestamp: uint64,
    opType: uint32,
    pid: uint32,
    size: uint64,
    ptr: uint64,
    streamId: uint64,
    stackId: int,
    flags: bv32)

  datatype CallArgs = CallArgs(flags: bv32, size: uint64, ptr: uint64, streamId: uint64)

  /** One firing of a probe, with everything it obtains from the kernel.  `sid` is the answer of
      bpf_get_stackid if it is asked, `reserved` whether the ring has room. */
  datatype Probe =
    | Entry(key: uint64, now: uint64, op: uint32, cpu: nat, regs: Regs, sid: int)
    | Return(key: uint64, now: uint64, op: uint32, ret: int, comm: string, reserved: bool)

  /** The fourteen entry probes: what each one passes to record_entry. */
  function EntryArgs(op: uint32, r: Regs): CallArgs {
    match op
    case 1 => CallArgs(0, r.p2, 0, 0)
    case 2 => CallArgs(0, 0, r.p1, 0)
    case 3 => CallArgs(0, r.p3, 0, 0)
    case 4 => CallArgs(0, 0, r.p1, 0)
    case 6 => CallArgs(FLAG_ASYNC, r.p3, 0, r.p5)
    case 7 => CallArgs(0, 0, 0, r.p1)
    case 8 => CallArgs(0, 0, r.p1, 0)
    case 9 => CallArgs(0, 0, 0, r.p1)
    case 10 => CallArgs(FLAG_ASYNC, 0, r.p1, r.p2)
    case 11 => CallArgs(0, 0, r.p1, 0)
    case 12 => CallArgs(0, 0, r.p1, 0)
    case 13 => CallArgs(FLAG_ASYNC, 0, r.p2, 0)
    case 14 => CallArgs(FLAG_ASYNC, 0, r.p1, r.p2)
    case _ => CallArgs(0, 0, 0, 0)
  }

  predicate IsAsync(flags: bv32) {
    flags & FLAG_ASYNC != 0
  }

  /** What an entry probe records is what the call was made with: its own bytes, object and stream, and
      whether it returns early. */
  lemma ArgsAreOwn(op: uint32, r: Regs)
    ensures var args, made := EntryArgs(op, r), CallMade(op, r);
            && (made.None? ==> args == CallArgs(0, 0, 0, 0))
            && (made.Some? ==>
                  && args.size == Bytes(made.value).UnwrapOr(0)
                  && args.ptr == Object(made.value) && args.streamId == Stream(made.value)
                  && args.flags == if ReturnsEarly(made.value) then FLAG_ASYNC else 0)
  {
  }

  /** Thread group id, the upper half of pid_tgid. */
  function PidOf(key: uint64): uint32 {
    key / U32_MODULUS
  }

  /** Thread id, the lower half of pid_tgid. */
  function TidOf(key: uint64): uint32 {
    key % U32_MODULUS
  }

  predicate Traced(cfg: Config, key: uint64) {
    cfg.targetPid == 0 || PidOf(key) == cfg.targetPid
  }

  function Period(cfg: Config, flags: bv32): (p: nat)
    ensures p > 0
  {
    var p := if IsAsync(flags) then cfg.samplePeriodAsync else cfg.samplePeriodSync;
    if p == 0 then 1 else p
  }

  // ---- the three maps as one value ----

  datatype Tracer = Tracer(calls: map<uint64, CallInfo>, counters: map<nat, uint64>, ring: seq<CudaEvent>)

  /** Whether this entry probe asks the kernel for a stack. */
  predicate Attempts(cfg: Config, counters: map<nat, uint64>, cpu: nat, flags: bv32) {
    cfg.captureStacks && cpu in counters && counters[cpu] % Period(cfg, flags) == 0
  }

  function Count(cfg: Config, counters: map<nat, uint64>, cpu: nat): map<nat, uint64> {
    if cfg.captureStacks && cpu in counters then counters[cpu := (counters[cpu] + 1) % U64_MODULUS] else counters
  }

  /** The in-flight record made by an entry probe. */
  function InfoOf(cfg: Config, counters: map<nat, uint64>, e: Probe): CallInfo
    requires e.Entry?
  {
    var args := EntryArgs(e.op, e.regs);
    var sid := if Attempts(cfg, counters, e.cpu, args.flags) then e.sid else -1;
    CallInfo(e.now, e.op, PidOf(e.key), args.size, args.ptr, args.streamId, sid,
             if sid >= 0 then args.flags | FLAG_STACK_SAMPLED else args.flags)
  }

  /** The record says when, where and with which arguments the call was made. */
  predicate HoldsEntry(info: CallInfo, p: Probe)
    requires p.Entry?
  {
    var made := CallMade(p.op, p.regs);
    && info.timestamp == p.now && info.opType == p.op && info.pid == PidOf(p.key)
    && (made.Some? ==>
          && info.size == Bytes(made.value).UnwrapOr(0)
          && info.ptr == Object(made.value) && info.streamId == Stream(made.value))
  }

  lemma InfoHoldsEntry(cfg: Config, counters: map<nat, uint64>, p: Probe)
    requires p.Entry?
    ensures HoldsEntry(InfoOf(cfg, counters, p), p)
  {
    hide EntryArgs, CallMade;
    ArgsAreOwn(p.op, p.regs);
  }

  /** BPF_ANY: an existing key is always overwritten, a new one needs a free slot. */
  predicate HasRoom(calls: map<uint64, CallInfo>, key: uint64) {
    key in calls || |calls| < MAX_CALLS
  }

  /** The event made from an in-flight record and the return probe that consumes it. */
  function EventOf(info: CallInfo, r: Probe): CudaEvent
    requires r.Return?
  {
    CudaEvent(info.timestamp, SubU64(r.now, info.timestamp), info.pid, TidOf(r.key), r.op, info.size, info.ptr,
              r.ret, r.comm, info.streamId, info.stackId, info.flags)
  }

  /** One probe on the three maps. */
  function Step(cfg: Config, t: Tracer, p: Probe): Tracer {
    match p
    case Entry(key, now, op, cpu, regs, sid) =>
      if !Traced(cfg, key) then t
      else t.(calls := if HasRoom(t.calls, key) then t.calls[key := InfoOf(cfg, t.counters, p)] else t.calls,
              counters := Count(cfg, t.counters, cpu))
    case Return(key, now, op, ret, comm, reserved) =>
      if key !in t.calls then t
      else if t.calls[key].opType == op && reserved then
        t.(calls := t.calls - {key}, ring := t.ring + [EventOf(t.calls[key], p)])
      else t.(calls := t.calls - {key})
  }

  /** What an entry probe leaves behind: nothing if the call is made outside the target process, otherwise
      a record of the call, if there is room for one. */
  predicate Enters(cfg: Config, before: Tracer, after: Tracer, p: Probe)
    requires p.Entry?
  {
    if cfg.targetPid != 0 && PidOf(p.key) != cfg.targetPid then after == before
    else HasRoom(before.calls, p.key) ==>
      after.calls.Keys == before.calls.Keys + {p.key} && HoldsEntry(after.calls[p.key], p)
  }

  lemma StepEnters(cfg: Config, t: Tracer, p: Probe)
    requires p.Entry?
    ensures Enters(cfg, t, Step(cfg, t, p), p)
  {
    hide InfoOf, HoldsEntry, HasRoom, Count;
    InfoHoldsEntry(cfg, t.counters, p);
  }

  // ---- the probes themselves ----

  class Maps {
    const cfg: Config
    var cudaCalls: map<uint64, CallInfo>
    var sampleCounter: map<nat, uint64>
    var cudaEvents: seq<CudaEvent>

    ghost function State(): Tracer
      reads this
    {
      Tracer(cudaCalls, sampleCounter, cudaEvents)
    }

    /** Freshly loaded maps: a zero counter per CPU. */
    constructor (cfg: Config, cpus: set<nat>)
      ensures this.cfg == cfg
      ensures State() == Tracer(map[], map c | c in cpus :: 0, [])
    {
      this.cfg := cfg;
      cudaCalls, cudaEvents := map[], [];
      sampleCounter := map c | c in cpus :: 0;
    }

    /** maybe_capture_stack. */
    method MaybeCaptureStack(cpu: nat, flags: bv32, sid: int) returns (r: int)
      modifies this`sampleCounter
      ensures r == if Attempts(cfg, old(sampleCounter), cpu, flags) then sid else -1
      ensures sampleCounter == Count(cfg, old(sampleCounter), cpu)
    {
      if !cfg.captureStacks {
        return -1;
      }
      if cpu !in sampleCounter {
        return -1;
      }
      var period := if flags & FLAG_ASYNC != 0 then cfg.samplePeriodAsync else cfg.samplePeriodSync;
      if period == 0 {
        period := 1;
      }
      var c := sampleCounter[cpu];
      sampleCounter := sampleCounter[cpu := (c + 1) % U64_MODULUS];
      if c % period != 0 {
        return -1;
      }
      return sid;
    }

    /** record_entry, called with the arguments of one of the fourteen entry probes. */
    method RecordEntry(p: Probe) returns (filtered: bool)
      requires p.Entry?
      modifies this
      ensures State() == Step(cfg, old(State()), p)
      ensures Enters(cfg, old(State()), State(), p)
      ensures filtered <==> cfg.targetPid != 0 && PidOf(p.key) != cfg.targetPid
    {
      hide EntryArgs, Attempts, Count, PidOf, HasRoom, Enters;
      StepEnters(cfg, State(), p);
      var args := EntryArgs(p.op, p.regs);
      var pid := PidOf(p.key);
      if cfg.targetPid != 0 && pid != cfg.targetPid {
        return true;
      }
      var sid := MaybeCaptureStack(p.cpu, args.flags, p.sid);
      var flags := args.flags;
      if sid >= 0 {
        flags := flags | FLAG_STACK_SAMPLED;
      }
      var info := CallInfo(p.now, p.op, pid, args.size, args.ptr, args.streamId, sid, flags);
      assert info == InfoOf(cfg, old(sampleCounter), p);
      if HasRoom(cudaCalls, p.key) {
        cudaCalls := cudaCalls[p.key := info];
      }
      return false;
    }

    /** submit_event. */
    method SubmitEvent(p: Probe)
      requires p.Return?
      modifies this
      ensures State() == Step(cfg, old(State()), p)
    {
      if p.key !in cudaCalls {
        return;
      }
      var info := cudaCalls[p.key];
      if info.opType != p.op {
        cudaCalls := cudaCalls - {p.key};
        return;
      }
      if !p.reserved {
        cudaCalls := cudaCalls - {p.key};
        return;
      }
      var event := CudaEvent(info.timestamp, SubU64(p.now, info.timestamp), info.pid, p.key % U32_MODULUS, p.op,
                             info.size, info.ptr, p.ret, p.comm, info.streamId, info.stackId, info.flags);
      cudaEvents := cudaEvents + [event];
      cudaCalls := cudaCalls - {p.key};
    }
  }
}
