// Fixed-width integers and the kernel/user event structures of include/common.h.
module Types {

  const U32_MODULUS: int := 0x1_0000_0000
  const U64_MODULUS: int := 0x1_0000_0000_0000_0000
  const U64_MAX: int := 0xFFFF_FFFF_FFFF_FFFF

  type uint32 = x: int | 0 <= x < 0x1_0000_0000
  type uint64 = x: int | 0 <= x < 0x1_0000_0000_0000_0000

  /** C subtraction of two u64 values, wrapping below zero. */
  function SubU64(a: uint64, b: uint64): (r: uint64)
    ensures b <= a ==> r == a - b
    ensures a < b ==> r == a - b + U64_MODULUS
  {
    (a - b) % U64_MODULUS
  }

  /** C addition of two u32 values, wrapping above 2^32. */
  function AddU32(a: uint32, b: uint32): (r: uint32)
    ensures a + b < U32_MODULUS ==> r == a + b
  {
    (a + b) % U32_MODULUS
  }

  datatype Option<+T> = None | Some(value: T) {
    predicate IsFailure() {
      None?
    }

    function UnwrapOr(default: T): T {
      if Some? then value else default
    }

    function PropagateFailure<U>(): Option<U>
      requires None?
    {
      None
    }

    function Extract(): T
      requires Some?
    {
      value
    }
  }

  /** The value of CUDA_EV_FLAG_ASYNC. */
  const FLAG_ASYNC: bv32 := 1

  /** The value of CUDA_EV_FLAG_STACK_SAMPLED. */
  const FLAG_STACK_SAMPLED: bv32 := 2

  const CPU_SCHED_ON: uint32 := 1
  const CPU_SCHED_OFF: uint32 := 2
  const CPU_SCHED_WAKEUP: uint32 := 3

  /** struct cpu_sched_event; `comm` is the text before the NUL of the fixed 16-byte field. */
  datatype CpuSchedEvent = CpuSchedEvent(
    timestamp: uint64,
    eventType: uint32,
    pid: uint32,
    tid: uint32,
    cpu: uint32,
    prevState: uint64,
    stackId: int,
    comm: string)

  /** struct cuda_event. */
  datatype CudaEvent = CudaEvent(
    timestamp: uint64,
    durationNs: uint64,
    pid: uint32,
    tid: uint32,
    opType: uint32,
    size: uint64,
    ptr: uint64,
    retVal: int,
    comm: string,
    streamId: uint64,
    stackId: int,
    flags: bv32)

  /** The shorter of two lengths. */
  function Min(a: int, b: int): (r: int)
    ensures r <= a && r <= b && (r == a || r == b)
  {
    if a < b then a else b
  }

  /** Quotient and remainder are unique. */
  lemma DivisionIs(n: nat, p: nat, q: nat, r: nat)
    requires p > 0 && n == q * p + r && r < p
    ensures n / p == q && n % p == r
  {
    assert n == n / p * p + n % p;
    ProductOrder(n / p, q, p);
    ProductOrder(q, n / p, p);
  }

  lemma {:induction false} ProductOrder(a: nat, b: nat, p: nat)
    ensures a < b ==> a * p + p <= b * p
  {
    if a < b {
      assert b * p == (b - 1) * p + p;
      ProductOrder(a, b - 1, p);
    }
  }
}
