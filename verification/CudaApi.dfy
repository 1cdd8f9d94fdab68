// The CUDA runtime calls behind the fourteen pairs of probes: what they are called with, and which
// registers carry their arguments.
module CudaApi {

  import opened Types

  /** The argument registers that the entry probes read.  The kind of a copy travels in the fourth. */
  datatype Regs = Regs(p1: uint64, p2: uint64, p3: uint64, p5: uint64)

  /** A call of the runtime, with the arguments that the tracer can tell. */
  datatype ApiCall =
    | Malloc(devPtr: uint64, size: uint64)
    | Free(devPtr: uint64)
    | Memcpy(dst: uint64, src: uint64, count: uint64)
    | LaunchKernel(func: uint64)
    | DeviceSynchronize
    | MemcpyAsync(dst: uint64, src: uint64, count: uint64, stream: uint64)
    | StreamSynchronize(stream: uint64)
    | StreamCreate(pStream: uint64)
    | StreamDestroy(stream: uint64)
    | EventRecord(event: uint64, stream: uint64)
    | EventSynchronize(event: uint64)
    | EventQuery(event: uint64)
    | LaunchKernelExC(config: uint64, func: uint64, args: uint64)
    | GraphLaunch(graphExec: uint64, stream: uint64)

  /** enum cuda_op_type. */
  function Code(c: ApiCall): uint32 {
    match c
    case Malloc(_, _) => 1
    case Free(_) => 2
    case Memcpy(_, _, _) => 3
    case LaunchKernel(_) => 4
    case DeviceSynchronize => 5
    case MemcpyAsync(_, _, _, _) => 6
    case StreamSynchronize(_) => 7
    case StreamCreate(_) => 8
    case StreamDestroy(_) => 9
    case EventRecord(_, _) => 10
    case EventSynchronize(_) => 11
    case EventQuery(_) => 12
    case LaunchKernelExC(_, _, _) => 13
    case GraphLaunch(_, _) => 14
  }

  /** The function that the probes of a call are attached to. */
  function Symbol(c: ApiCall): string {
    match c
    case Malloc(_, _) => "cudaMalloc"
    case Free(_) => "cudaFree"
    case Memcpy(_, _, _) => "cudaMemcpy"
    case LaunchKernel(_) => "cudaLaunchKernel"
    case DeviceSynchronize => "cudaDeviceSynchronize"
    case MemcpyAsync(_, _, _, _) => "cudaMemcpyAsync"
    case StreamSynchronize(_) => "cudaStreamSynchronize"
    case StreamCreate(_) => "cudaStreamCreate"
    case StreamDestroy(_) => "cudaStreamDestroy"
    case EventRecord(_, _) => "cudaEventRecord"
    case EventSynchronize(_) => "cudaEventSynchronize"
    case EventQuery(_) => "cudaEventQuery"
    case LaunchKernelExC(_, _, _) => "cudaLaunchKernelExC"
    case GraphLaunch(_, _) => "cudaGraphLaunch"
  }

  /** The calling convention: integer and pointer arguments in order. */
  predicate PassedIn(c: ApiCall, r: Regs) {
    match c
    case Malloc(devPtr, size) => r.p1 == devPtr && r.p2 == size
    case Free(devPtr) => r.p1 == devPtr
    case Memcpy(dst, src, count) => r.p1 == dst && r.p2 == src && r.p3 == count
    case LaunchKernel(func) => r.p1 == func
    case DeviceSynchronize => true
    case MemcpyAsync(dst, src, count, stream) => r.p1 == dst && r.p2 == src && r.p3 == count && r.p5 == stream
    case StreamSynchronize(stream) => r.p1 == stream
    case StreamCreate(pStream) => r.p1 == pStream
    case StreamDestroy(stream) => r.p1 == stream
    case EventRecord(event, stream) => r.p1 == event && r.p2 == stream
    case EventSynchronize(event) => r.p1 == event
    case EventQuery(event) => r.p1 == event
    case LaunchKernelExC(config, func, args) => r.p1 == config && r.p2 == func && r.p3 == args
    case GraphLaunch(graphExec, stream) => r.p1 == graphExec && r.p2 == stream
  }

  /** The call that the probe of operation `op` sees. */
  function CallMade(op: uint32, r: Regs): (c: Option<ApiCall>)
    ensures c.Some? ==> op == Code(c.value) && PassedIn(c.value, r)
    ensures c.None? <==> op == 0 || op > 14
  {
    match op
    case 1 => Some(Malloc(r.p1, r.p2))
    case 2 => Some(Free(r.p1))
    case 3 => Some(Memcpy(r.p1, r.p2, r.p3))
    case 4 => Some(LaunchKernel(r.p1))
    case 5 => Some(DeviceSynchronize)
    case 6 => Some(MemcpyAsync(r.p1, r.p2, r.p3, r.p5))
    case 7 => Some(StreamSynchronize(r.p1))
    case 8 => Some(StreamCreate(r.p1))
    case 9 => Some(StreamDestroy(r.p1))
    case 10 => Some(EventRecord(r.p1, r.p2))
    case 11 => Some(EventSynchronize(r.p1))
    case 12 => Some(EventQuery(r.p1))
    case 13 => Some(LaunchKernelExC(r.p1, r.p2, r.p3))
    case 14 => Some(GraphLaunch(r.p1, r.p2))
    case _ => None
  }

  /** It is the only call with this number whose arguments are in these registers. */
  lemma CallMadeIff(op: uint32, r: Regs, c: ApiCall)
    ensures CallMade(op, r) == Some(c) <==> op == Code(c) && PassedIn(c, r)
  {
  }

  // ---- what a call is made with ----

  /** Bytes to allocate or to copy. */
  function Bytes(c: ApiCall): Option<uint64> {
    match c
    case Malloc(_, size) => Some(size)
    case Memcpy(_, _, count) => Some(count)
    case MemcpyAsync(_, _, count, _) => Some(count)
    case _ => None
  }

  /** The stream a call names; 0 is the default stream. */
  function Stream(c: ApiCall): uint64 {
    match c
    case MemcpyAsync(_, _, _, stream) => stream
    case StreamSynchronize(stream) => stream
    case StreamDestroy(stream) => stream
    case EventRecord(_, stream) => stream
    case GraphLaunch(_, stream) => stream
    case _ => 0
  }

  /** The object a call is about, other than its stream. */
  function Object(c: ApiCall): uint64 {
    match c
    case Free(devPtr) => devPtr
    case LaunchKernel(func) => func
    case StreamCreate(pStream) => pStream
    case EventRecord(event, _) => event
    case EventSynchronize(event) => event
    case EventQuery(event) => event
    case LaunchKernelExC(_, func, _) => func
    case GraphLaunch(graphExec, _) => graphExec
    case _ => 0
  }

  /** The memory a call frees. */
  function Freed(c: ApiCall): Option<uint64> {
    if c.Free? && c.devPtr != 0 then Some(c.devPtr) else None
  }

  /** The host does not wait for the work. */
  predicate ReturnsEarly(c: ApiCall) {
    c.MemcpyAsync? || c.EventRecord? || c.LaunchKernelExC? || c.GraphLaunch?
  }

  function Category(c: ApiCall): string {
    if c.DeviceSynchronize? || c.StreamSynchronize? || c.EventSynchronize? then "gpu_sync"
    else if c.Memcpy? || c.MemcpyAsync? then "gpu_xfer"
    else if c.LaunchKernel? || c.LaunchKernelExC? || c.GraphLaunch? then "gpu_compute"
    else if c.Malloc? || c.Free? then "gpu_mem"
    else "gpu"
  }
}
