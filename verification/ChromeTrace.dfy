// output_chrome_tracing_json of src/user/unified_trace.c: the records it prints, stated without
// its running state, and the JSON tree of each record.
module ChromeTrace {

  import opened Types
  import opened Escaping
  import opened JsonText
  import opened StackJson
  import opened Collector
  import opened StreamRows

  /** Length of cpu_on_time. */
  const TID_LIMIT: nat := 10000000

  /** A stack that is printed: its id and the process it is symbolized for. */
  datatype StackRef = StackRef(stackId: int, pid: uint32)

  /** One element of traceEvents; times are nanoseconds. */
  datatype Record =
    | ThreadName(pid: uint32, tid: uint32, title: string)
    | Begin(ts: uint64, pid: uint32, tid: uint32, cpu: uint32, comm: string, stack: Option<StackRef>)
    | End(ts: uint64, pid: uint32, tid: uint32, durationNs: uint64, state: uint64)
    | Wakeup(ts: uint64, pid: uint32, tid: uint32)
    | Complete(ts: uint64, pid: uint32, tid: uint32, gpu: CudaEvent, stack: Option<StackRef>)

  // ---- the records of a sequence of events ----

  /** The smallest timestamp of the first `n` events, UINT64_MAX if there are none. */
  function MinTimestamp(events: seq<UnifiedEvent>, n: nat): (m: uint64)
    requires n <= |events|
    ensures forall i :: 0 <= i < n ==> m <= events[i].timestamp
    ensures n > 0 ==> exists i :: 0 <= i < n && m == events[i].timestamp
  {
    if n == 0 then U64_MAX
    else
      var m := MinTimestamp(events, n - 1);
      if events[n - 1].timestamp < m then events[n - 1].timestamp
      else
        assert n == 1 ==> events[0].timestamp == U64_MAX;
        m
  }

  predicate IsOn(e: UnifiedEvent, tid: uint32) {
    e.Cpu? && e.cpu.eventType == CPU_SCHED_ON && e.cpu.tid == tid
  }

  predicate IsOff(e: UnifiedEvent, tid: uint32) {
    e.Cpu? && e.cpu.eventType == CPU_SCHED_OFF && e.cpu.tid == tid
  }

  predicate IsWakeup(e: UnifiedEvent) {
    e.Cpu? && e.cpu.eventType == CPU_SCHED_WAKEUP
  }

  /** The last ON or OFF event of thread `tid` before position `n`, or -1. */
  function LastSwitch(events: seq<UnifiedEvent>, n: nat, tid: uint32): (p: int)
    requires n <= |events|
    ensures -1 <= p < n
    ensures p >= 0 ==> IsOn(events[p], tid) || IsOff(events[p], tid)
    ensures forall i :: p < i < n ==> !IsOn(events[i], tid) && !IsOff(events[i], tid)
  {
    if n == 0 then -1
    else if IsOn(events[n - 1], tid) || IsOff(events[n - 1], tid) then n - 1
    else LastSwitch(events, n - 1, tid)
  }

  /** When the thread last went on CPU and has not gone off since; 0 otherwise. */
  function OnTime(events: seq<UnifiedEvent>, n: nat, tid: uint32): uint64
    requires n <= |events|
  {
    var p := LastSwitch(events, n, tid);
    if p >= 0 && IsOn(events[p], tid) then events[p].timestamp else 0
  }

  /** An OFF event that closes something. */
  predicate Closes(events: seq<UnifiedEvent>, i: nat)
    requires i < |events|
  {
    && events[i].Cpu? && events[i].cpu.eventType == CPU_SCHED_OFF
    && events[i].cpu.tid < TID_LIMIT
    && OnTime(events, i, events[i].cpu.tid) != 0
  }

  predicate SomeCpu(events: seq<UnifiedEvent>, n: nat)
    requires n <= |events|
  {
    exists i :: 0 <= i < n && events[i].Cpu?
  }

  function StackIf(stackId: int, pid: uint32): Option<StackRef> {
    if stackId >= 0 then Some(StackRef(stackId, pid)) else None
  }

  /** The two metadata records, printed in front of the first CPU event. */
  function MetaAt(events: seq<UnifiedEvent>, i: nat): seq<Record>
    requires i < |events|
  {
    if events[i].Cpu? && !SomeCpu(events, i) then
      var c := events[i].cpu;
      [ThreadName(c.pid, c.tid, "CPU [" + c.comm + "]"), ThreadName(c.pid, AddU32(c.tid, GPU_ROW), "GPU (CUDA)")]
    else []
  }

  /** The record of event `i` itself, if it has one. */
  function BodyAt(events: seq<UnifiedEvent>, i: nat, base: uint64): seq<Record>
    requires i < |events|
  {
    var e := events[i];
    var ts := SubU64(e.timestamp, base);
    match e
    case Cpu(_, c) =>
      if c.eventType == CPU_SCHED_ON then [Begin(ts, c.pid, c.tid, c.cpu, c.comm, StackIf(c.stackId, c.pid))]
      else if c.eventType == CPU_SCHED_OFF then
        if Closes(events, i) then [End(ts, c.pid, c.tid, SubU64(e.timestamp, OnTime(events, i, c.tid)), c.prevState)]
        else []
      else if c.eventType == CPU_SCHED_WAKEUP then [Wakeup(ts, c.pid, c.tid)]
      else []
    case Gpu(_, g) => [Complete(ts, g.pid, Row(g.tid, g.streamId), g, StackIf(g.stackId, g.pid))]
  }

  /** All records of the first `n` events. */
  function Records(events: seq<UnifiedEvent>, n: nat, base: uint64): seq<Record>
    requires n <= |events|
  {
    if n == 0 then [] else Records(events, n - 1, base) + MetaAt(events, n - 1) + BodyAt(events, n - 1, base)
  }

  /** The whole traceEvents array. */
  function TraceEvents(events: seq<UnifiedEvent>): seq<Record> {
    Records(events, |events|, MinTimestamp(events, |events|))
  }

  // ---- records as JSON ----

  function Int(n: nat): Json {
    Num(false, n, "")
  }

  /** %.3f of a nanosecond count divided by 1000. */
  function Micros(ns: nat): Json {
    Num(false, ns / 1000, [Digit(ns / 100 % 10), Digit(ns / 10 % 10), Digit(ns % 10)])
  }

  function Signed(n: int): Json {
    if n < 0 then Num(true, -n, "") else Num(false, n, "")
  }

  function OpName(op: uint32): string {
    match op
    case 1 => "cudaMalloc"
    case 2 => "cudaFree"
    case 3 => "cudaMemcpy"
    case 4 => "cudaLaunchKernel"
    case 5 => "cudaDeviceSynchronize"
    case 6 => "cudaMemcpyAsync"
    case 7 => "cudaStreamSynchronize"
    case 8 => "cudaStreamCreate"
    case 9 => "cudaStreamDestroy"
    case 10 => "cudaEventRecord"
    case 11 => "cudaEventSynchronize"
    case 12 => "cudaEventQuery"
    case 13 => "cudaLaunchKernelExC"
    case 14 => "cudaGraphLaunch"
    case _ => "Unknown"
  }

  function OpCategory(op: uint32): string {
    match op
    case 5 => "gpu_sync"
    case 7 => "gpu_sync"
    case 11 => "gpu_sync"
    case 3 => "gpu_xfer"
    case 6 => "gpu_xfer"
    case 4 => "gpu_compute"
    case 13 => "gpu_compute"
    case 14 => "gpu_compute"
    case 1 => "gpu_mem"
    case 2 => "gpu_mem"
    case _ => "gpu"
  }

  /** Operations whose record carries a size. */
  predicate HasSize(op: uint32) {
    op == 1 || op == 3 || op == 6
  }

  /** Members in front of "args"; all of them for a wakeup. */
  function HeadMembers(r: Record): seq<Member> {
    match r
    case ThreadName(pid, tid, _) =>
      [Member("name", Str("thread_name")), Member("ph", Str("M")), Member("pid", Int(pid)), Member("tid", Int(tid))]
    case Begin(ts, pid, tid, _, _, _) => CpuHead("On-CPU", "B", ts, pid, tid)
    case End(ts, pid, tid, _, _) => CpuHead("On-CPU", "E", ts, pid, tid)
    case Wakeup(ts, pid, tid) => CpuHead("Wakeup", "i", ts, pid, tid) + [Member("s", Str("t"))]
    case Complete(ts, pid, tid, g, _) =>
      [Member("name", Str(OpName(g.opType))), Member("cat", Str(OpCategory(g.opType))), Member("ph", Str("X")),
       Member("ts", Micros(ts)), Member("dur", Micros(g.durationNs)), Member("pid", Int(pid)), Member("tid", Int(tid))]
  }

  function CpuHead(name: string, ph: string, ts: uint64, pid: uint32, tid: uint32): seq<Member> {
    [Member("name", Str(name)), Member("cat", Str("cpu")), Member("ph", Str(ph)),
     Member("ts", Micros(ts)), Member("pid", Int(pid)), Member("tid", Int(tid))]
  }

  /** Members of "args" in front of the stack. */
  function ArgMembers(r: Record): seq<Member>
    requires !r.Wakeup?
  {
    match r
    case ThreadName(_, _, title) => [Member("name", Str(title))]
    case Begin(_, _, _, cpu, comm, _) => [Member("cpu", Int(cpu)), Member("comm", Str(comm))]
    case End(_, _, _, dur, state) => [Member("duration_us", Micros(dur)), Member("state", Int(state))]
    case Complete(_, _, _, g, _) => GpuArgs(g)
  }

  function GpuArgs(g: CudaEvent): seq<Member> {
    var m0 := [Member("ret", Signed(g.retVal)), Member("comm", Str(g.comm))];
    var m1 := With(m0, g.streamId != 0, "stream_id", Str("0x" + Hex(g.streamId)));
    var m2 := With(m1, g.flags & FLAG_ASYNC != 0, "async", Word("true"));
    var m3 := With(m2, HasSize(g.opType), "size_bytes", Int(g.size));
    var m4 := With(m3, HasSize(g.opType), "size", Str(SizeText(g.size)));
    With(m4, g.opType == 2 && g.ptr != 0, "ptr", Str("0x" + Hex(g.ptr)))
  }

  /** n / d in hundredths, rounding half to even. */
  function InHundredths(n: nat, d: nat): nat
    requires d > 0
  {
    var q, r := 100 * n / d, 100 * n % d;
    if 2 * r > d || (2 * r == d && q % 2 == 1) then q + 1 else q
  }

  /** A number of hundredths with two decimals. */
  function TwoDecimals(h: nat): string {
    Decimal(h / 100) + "." + [Digit(h / 10 % 10), Digit(h % 10)]
  }

  /** printf's "%.2f" of n / d. */
  function Hundredths(n: nat, d: nat): string
    requires d > 0
  {
    TwoDecimals(InHundredths(n, d))
  }

  function SizeText(n: uint64): string {
    if n >= 1024 * 1024 * 1024 then Hundredths(n, 1024 * 1024 * 1024) + " GB"
    else if n >= 1024 * 1024 then Hundredths(n, 1024 * 1024) + " MB"
    else if n >= 1024 then Hundredths(n, 1024) + " KB"
    else Decimal(n) + " B"
  }

  function StackOf(r: Record): Option<StackRef> {
    if r.Begin? || r.Complete? then r.stack else None
  }

  function StackMember(host: Host, s: Option<StackRef>): seq<Member> {
    match s
    case None => []
    case Some(StackRef(stackId, pid)) => [Member("stack", StackTree(host, stackId, pid))]
  }

  function RecordTree(host: Host, r: Record): Json {
    if r.Wakeup? then Obj(HeadMembers(r))
    else Obj(HeadMembers(r) + [Member("args", Obj(ArgMembers(r) + StackMember(host, StackOf(r))))])
  }

  function RecordTrees(host: Host, rs: seq<Record>): (ts: seq<Json>)
    ensures |ts| == |rs|
  {
    if rs == [] then [] else RecordTrees(host, rs[..|rs| - 1]) + [RecordTree(host, rs[|rs| - 1])]
  }

  /** What a complete record shows: only what is printed of its event. */
  datatype Slice = Slice(ts: int, durationNs: int, pid: uint32, row: uint32, name: string, category: string,
                         ret: int, comm: string, streamId: Option<uint64>, async: bool,
                         size: Option<uint64>, ptr: Option<uint64>)

  function SliceOf(r: Record): Slice
    requires r.Complete?
  {
    var g := r.gpu;
    Slice(r.ts, g.durationNs, r.pid, r.tid, OpName(g.opType), OpCategory(g.opType), g.retVal, g.comm,
          if g.streamId != 0 then Some(g.streamId) else None,
          g.flags & FLAG_ASYNC != 0,
          if HasSize(g.opType) then Some(g.size) else None,
          if g.opType == 2 && g.ptr != 0 then Some(g.ptr) else None)
  }

  function MetadataTree(eventCount: nat): Json {
    Obj([Member("event_count", Int(eventCount)), Member("tool", Str("ebpf-unified-trace"))])
  }

  /** The whole file. */
  function DocumentTree(host: Host, events: seq<UnifiedEvent>): Json {
    Obj([Member("traceEvents", Arr(RecordTrees(host, TraceEvents(events)))),
         Member("displayTimeUnit", Str("ms")),
         Member("metadata", MetadataTree(|events|))])
  }

  function FileText(host: Host, events: seq<UnifiedEvent>): string {
    Render(DocumentTree(host, events), Document) + "\n"
  }
}
