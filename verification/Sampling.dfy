// What the shared per-CPU sampling counter of src/bpf/trace_cuda.bpf.c guarantees, and what it
// does not.
module Sampling {

  import opened Types
  import opened CudaApi
  import opened CudaTracer
  import opened CudaRuns

  /** An entry probe on `cpu` that passes the process filter. */
  predicate CallOn(cfg: Config, p: Probe, cpu: nat) {
    p.Entry? && p.cpu == cpu && Traced(cfg, p.key)
  }

  /** Unfiltered calls on `cpu` among the first `n` probes, both classes together. */
  function CallsOn(cfg: Config, run: seq<Probe>, cpu: nat, n: nat): nat
    requires n <= |run|
  {
    if n == 0 then 0 else CallsOn(cfg, run, cpu, n - 1) + if CallOn(cfg, run[n - 1], cpu) then 1 else 0
  }

  /** The asynchronous calls are cudaMemcpyAsync, cudaEventRecord, cudaLaunchKernelExC and
      cudaGraphLaunch; all others are synchronous. */
  predicate InClass(p: Probe, async: bool)
    requires p.Entry?
  {
    (p.op in {6, 10, 13, 14}) == async
  }

  /** The period configured for a class, where 0 means 1. */
  function ClassPeriod(cfg: Config, async: bool): (p: nat)
    ensures p > 0
  {
    var n := if async then cfg.samplePeriodAsync else cfg.samplePeriodSync;
    if n == 0 then 1 else n
  }

  /** The probe at position `i` asks the kernel for a stack. */
  predicate AttemptAt(cfg: Config, counters: map<nat, uint64>, run: seq<Probe>, i: nat)
    requires i < |run|
  {
    && run[i].Entry?
    && Traced(cfg, run[i].key)
    && Attempts(cfg, After(cfg, counters, run, i).counters, run[i].cpu, EntryArgs(run[i].op, run[i].regs).flags)
  }

  function ClassAttempts(cfg: Config, counters: map<nat, uint64>, run: seq<Probe>, cpu: nat, async: bool, n: nat): nat
    requires n <= |run|
  {
    if n == 0 then 0
    else ClassAttempts(cfg, counters, run, cpu, async, n - 1) +
         if CallOn(cfg, run[n - 1], cpu) && InClass(run[n - 1], async) && AttemptAt(cfg, counters, run, n - 1)
         then 1 else 0
  }

  /** Sampling is on, this CPU's counter starts at zero and does not wrap during the run. */
  predicate Counting(cfg: Config, counters: map<nat, uint64>, run: seq<Probe>, cpu: nat) {
    cfg.captureStacks && cpu in counters && counters[cpu] == 0 && |run| < U64_MODULUS
  }

  lemma {:induction false} CallsBound(cfg: Config, run: seq<Probe>, cpu: nat, n: nat)
    requires n <= |run|
    ensures CallsOn(cfg, run, cpu, n) <= n
  {
    if n > 0 {
      CallsBound(cfg, run, cpu, n - 1);
    }
  }

  /** The counter counts the unfiltered calls of its CPU; filtered calls and returns leave it alone. */
  lemma {:induction false} CounterCountsCalls(cfg: Config, counters: map<nat, uint64>, run: seq<Probe>, cpu: nat,
                                              n: nat)
    requires n <= |run| && Counting(cfg, counters, run, cpu)
    ensures var c := After(cfg, counters, run, n).counters; cpu in c && c[cpu] == CallsOn(cfg, run, cpu, n)
  {
    hide InfoOf, EventOf, HasRoom;
    if n > 0 {
      CounterCountsCalls(cfg, counters, run, cpu, n - 1);
      CallsBound(cfg, run, cpu, n - 1);
    }
  }

  /** A call asks for a stack exactly when the number of unfiltered calls made before it on its CPU, of
      either class, is a multiple of its own class's period. */
  lemma ClassLaw(cfg: Config, counters: map<nat, uint64>, run: seq<Probe>, i: nat)
    requires i < |run| && run[i].Entry? && CallOn(cfg, run[i], run[i].cpu) && Counting(cfg, counters, run, run[i].cpu)
    ensures AttemptAt(cfg, counters, run, i) <==>
            CallsOn(cfg, run, run[i].cpu, i) % ClassPeriod(cfg, InClass(run[i], true)) == 0
  {
    hide EntryArgs, Period, ClassPeriod, InClass;
    CounterCountsCalls(cfg, counters, run, run[i].cpu, i);
    PeriodOfCall(cfg, run[i]);
  }

  /** Sampling law, with the configuration written out: the period is the asynchronous one for
      cudaMemcpyAsync, cudaEventRecord, cudaLaunchKernelExC and cudaGraphLaunch and the synchronous one for
      all others, and 0 means 1. */
  lemma AttemptLaw(cfg: Config, counters: map<nat, uint64>, run: seq<Probe>, i: nat)
    requires i < |run| && run[i].Entry? && CallOn(cfg, run[i], run[i].cpu) && Counting(cfg, counters, run, run[i].cpu)
    ensures var n := if run[i].op in {6, 10, 13, 14} then cfg.samplePeriodAsync else cfg.samplePeriodSync;
            AttemptAt(cfg, counters, run, i) <==>
            CallsOn(cfg, run, run[i].cpu, i) % (if n == 0 then 1 else n) == 0
  {
    hide AttemptAt, CallsOn, Counting, CallOn;
    ClassLaw(cfg, counters, run, i);
  }

  /** The flag that the entry probe passes selects the period of the call's class. */
  lemma PeriodOfCall(cfg: Config, p: Probe)
    requires p.Entry?
    ensures Period(cfg, EntryArgs(p.op, p.regs).flags) == ClassPeriod(cfg, InClass(p, true))
  {
    FlagBits(FLAG_ASYNC);
    FlagBits(0);
  }

  /** Number of multiples of `p` below `n`. */
  function CeilDiv(n: nat, p: nat): nat
    requires p > 0
  {
    (n + p - 1) / p
  }

  lemma CeilDivStep(n: nat, p: nat)
    requires p > 0
    ensures CeilDiv(0, p) == 0
    ensures CeilDiv(n + 1, p) == CeilDiv(n, p) + if n % p == 0 then 1 else 0
  {
    var q, r := n / p, n % p;
    assert n == q * p + r;
    DivisionIs(n + p, p, q + 1, r);
    if r == 0 {
      DivisionIs(n + p - 1, p, q, p - 1);
    } else {
      DivisionIs(n + p - 1, p, q + 1, r - 1);
    }
    DivisionIs(p - 1, p, 0, p - 1);
  }

  /** In any mix of classes, at most ceil(n / period) of `n` calls are attempts of one class; and when
      all calls of the CPU belong to that class there are exactly that many. */
  lemma {:induction false} AttemptBound(cfg: Config, counters: map<nat, uint64>, run: seq<Probe>, cpu: nat,
                                        async: bool, n: nat)
    requires n <= |run| && Counting(cfg, counters, run, cpu)
    ensures var attempts := ClassAttempts(cfg, counters, run, cpu, async, n);
            var ceil := CeilDiv(CallsOn(cfg, run, cpu, n), ClassPeriod(cfg, async));
            && attempts <= ceil
            && ((forall i :: 0 <= i < n && CallOn(cfg, run[i], cpu) ==> InClass(run[i], async)) ==> attempts == ceil)
  {
    hide CeilDiv, AttemptAt, ClassPeriod, InClass;
    CeilDivStep(0, ClassPeriod(cfg, async));
    if n > 0 {
      AttemptBound(cfg, counters, run, cpu, async, n - 1);
      CeilDivStep(CallsOn(cfg, run, cpu, n - 1), ClassPeriod(cfg, async));
      if CallOn(cfg, run[n - 1], cpu) {
        ClassLaw(cfg, counters, run, n - 1);
        Classes(run[n - 1], async);
      }
    }
  }

  lemma Classes(p: Probe, async: bool)
    requires p.Entry?
    ensures InClass(p, async) <==> InClass(p, true) == async
  {
  }

  // ---- one attempt for every N calls of a class ----

  /** An unfiltered call of the class on `cpu`. */
  predicate ClassCall(cfg: Config, p: Probe, cpu: nat, async: bool) {
    CallOn(cfg, p, cpu) && InClass(p, async)
  }

  /** Unfiltered calls of the class on `cpu` among the first `n` probes. */
  function ClassCalls(cfg: Config, run: seq<Probe>, cpu: nat, async: bool, n: nat): nat
    requires n <= |run|
  {
    if n == 0 then 0
    else ClassCalls(cfg, run, cpu, async, n - 1) + if ClassCall(cfg, run[n - 1], cpu, async) then 1 else 0
  }

  /** "1 in N calls of the class": at every moment, one attempt for each N of its calls so far, the
      first call included. */
  predicate OneInN(cfg: Config, counters: map<nat, uint64>, run: seq<Probe>, cpu: nat, async: bool) {
    forall n :: 0 <= n <= |run| ==>
      ClassAttempts(cfg, counters, run, cpu, async, n) ==
      CeilDiv(ClassCalls(cfg, run, cpu, async, n), ClassPeriod(cfg, async))
  }

  /** At every call of the class, the count of all calls is a multiple of N whenever the count of the
      class's own calls is, and only then. */
  predicate CountsAgree(cfg: Config, run: seq<Probe>, cpu: nat, async: bool) {
    forall i :: 0 <= i < |run| && ClassCall(cfg, run[i], cpu, async) ==>
      (CallsOn(cfg, run, cpu, i) % ClassPeriod(cfg, async) == 0 <==>
       ClassCalls(cfg, run, cpu, async, i) % ClassPeriod(cfg, async) == 0)
  }

  /** What one probe adds to the attempts and to the number that "1 in N" asks for. */
  lemma AttemptsStep(cfg: Config, counters: map<nat, uint64>, run: seq<Probe>, cpu: nat, async: bool, i: nat)
    requires i < |run| && Counting(cfg, counters, run, cpu)
    ensures var p, called := ClassPeriod(cfg, async), ClassCall(cfg, run[i], cpu, async);
            && ClassAttempts(cfg, counters, run, cpu, async, i + 1) ==
               ClassAttempts(cfg, counters, run, cpu, async, i) +
               (if called && CallsOn(cfg, run, cpu, i) % p == 0 then 1 else 0)
            && CeilDiv(ClassCalls(cfg, run, cpu, async, i + 1), p) ==
               CeilDiv(ClassCalls(cfg, run, cpu, async, i), p) +
               (if called && ClassCalls(cfg, run, cpu, async, i) % p == 0 then 1 else 0)
  {
    hide CeilDiv, AttemptAt, ClassPeriod, InClass, Counting;
    CeilDivStep(ClassCalls(cfg, run, cpu, async, i), ClassPeriod(cfg, async));
    if CallOn(cfg, run[i], cpu) {
      ClassLaw(cfg, counters, run, i);
      Classes(run[i], async);
    }
  }

  lemma {:induction false} CountsAgreeOneInN(cfg: Config, counters: map<nat, uint64>, run: seq<Probe>, cpu: nat,
                                             async: bool, n: nat)
    requires n <= |run| && Counting(cfg, counters, run, cpu) && CountsAgree(cfg, run, cpu, async)
    ensures ClassAttempts(cfg, counters, run, cpu, async, n) ==
            CeilDiv(ClassCalls(cfg, run, cpu, async, n), ClassPeriod(cfg, async))
  {
    hide AttemptAt, ClassPeriod, ClassCall, Counting;
    if n == 0 {
      CeilDivStep(0, ClassPeriod(cfg, async));
    } else {
      hide CeilDiv, CallsOn, ClassCalls, ClassAttempts;
      CountsAgreeOneInN(cfg, counters, run, cpu, async, n - 1);
      AttemptsStep(cfg, counters, run, cpu, async, n - 1);
    }
  }

  /** For every mix of the two classes: the class has its one attempt in N exactly when it stays in
      step with the shared counter. */
  lemma OneInNIff(cfg: Config, counters: map<nat, uint64>, run: seq<Probe>, cpu: nat, async: bool)
    requires Counting(cfg, counters, run, cpu)
    ensures OneInN(cfg, counters, run, cpu, async) <==> CountsAgree(cfg, run, cpu, async)
  {
    hide CeilDiv, AttemptAt, ClassPeriod, ClassCall, Counting, CallsOn, ClassCalls, ClassAttempts;
    if OneInN(cfg, counters, run, cpu, async) {
      forall i | 0 <= i < |run| && ClassCall(cfg, run[i], cpu, async)
        ensures CallsOn(cfg, run, cpu, i) % ClassPeriod(cfg, async) == 0 <==>
                ClassCalls(cfg, run, cpu, async, i) % ClassPeriod(cfg, async) == 0
      {
        AttemptsStep(cfg, counters, run, cpu, async, i);
      }
    }
    if CountsAgree(cfg, run, cpu, async) {
      forall n | 0 <= n <= |run|
        ensures ClassAttempts(cfg, counters, run, cpu, async, n) ==
                CeilDiv(ClassCalls(cfg, run, cpu, async, n), ClassPeriod(cfg, async))
      {
        CountsAgreeOneInN(cfg, counters, run, cpu, async, n);
      }
    }
  }

  /** "1 in N" holds of the class whatever else is called on the CPU. */
  ghost predicate AlwaysOneInN(cfg: Config, counters: map<nat, uint64>, cpu: nat, async: bool) {
    forall run: seq<Probe> :: Counting(cfg, counters, run, cpu) && MonotoneClock(run) ==>
      OneInN(cfg, counters, run, cpu, async)
  }

  /** A copy of one class, synchronous or asynchronous. */
  function CopyOp(async: bool): uint32 {
    if async then 6 else 3
  }

  lemma CopyClass(key: uint64, now: uint64, cpu: nat, async: bool, other: bool)
    ensures InClass(Entry(key, now, CopyOp(async), cpu, Regs(0, 0, 0, 0), 0), other) <==> async == other
  {
  }

  /** A copy of the other class, then one of this class. */
  function OtherFirst(key: uint64, cpu: nat, async: bool): seq<Probe> {
    [Entry(key, 0, CopyOp(!async), cpu, Regs(0, 0, 0, 0), 0), Return(key, 1, CopyOp(!async), 0, "", true),
     Entry(key, 2, CopyOp(async), cpu, Regs(0, 0, 0, 0), 0), Return(key, 3, CopyOp(async), 0, "", true)]
  }

  /** The second call is the first of its class, and is not sampled. */
  lemma OtherFirstFails(cfg: Config, key: uint64, cpu: nat, async: bool)
    requires Traced(cfg, key) && ClassPeriod(cfg, async) > 1
    ensures !CountsAgree(cfg, OtherFirst(key, cpu, async), cpu, async) && MonotoneClock(OtherFirst(key, cpu, async))
  {
    hide InClass, ClassPeriod, Traced;
    var run, p := OtherFirst(key, cpu, async), ClassPeriod(cfg, async);
    CopyClass(key, 0, cpu, !async, async);
    CopyClass(key, 2, cpu, async, async);
    assert CallsOn(cfg, run, cpu, 0) == 0 && CallsOn(cfg, run, cpu, 1) == 1 && CallsOn(cfg, run, cpu, 2) == 1;
    assert ClassCalls(cfg, run, cpu, async, 0) == 0 && ClassCalls(cfg, run, cpu, async, 1) == 0;
    assert ClassCalls(cfg, run, cpu, async, 2) == 0;
    DivisionIs(1, p, 0, 1);
    DivisionIs(0, p, 0, 0);
    assert ClassCall(cfg, run[2], cpu, async);
  }

  /** A class has its one attempt in N next to every mix of other calls exactly when N is 1: for any
      greater N a single call of the other class in front takes the first call's attempt away. */
  lemma AlwaysOneInNIff(cfg: Config, counters: map<nat, uint64>, key: uint64, cpu: nat, async: bool)
    requires cfg.captureStacks && cpu in counters && counters[cpu] == 0 && Traced(cfg, key)
    ensures AlwaysOneInN(cfg, counters, cpu, async) <==> ClassPeriod(cfg, async) == 1
  {
    hide CountsAgree, OneInN, ClassPeriod, Traced, MonotoneClock, OtherFirst;
    if ClassPeriod(cfg, async) > 1 {
      var run := OtherFirst(key, cpu, async);
      OtherFirstFails(cfg, key, cpu, async);
      OtherFirstLong(key, cpu, async);
      OneInNIff(cfg, counters, run, cpu, async);
      assert Counting(cfg, counters, run, cpu) && MonotoneClock(run) && !OneInN(cfg, counters, run, cpu, async);
    } else {
      forall run: seq<Probe> | Counting(cfg, counters, run, cpu) && MonotoneClock(run)
        ensures OneInN(cfg, counters, run, cpu, async)
      {
        OneAgrees(cfg, run, cpu, async);
        OneInNIff(cfg, counters, run, cpu, async);
      }
    }
  }

  lemma OtherFirstLong(key: uint64, cpu: nat, async: bool)
    ensures |OtherFirst(key, cpu, async)| == 4
  {
  }

  lemma OneAgrees(cfg: Config, run: seq<Probe>, cpu: nat, async: bool)
    requires ClassPeriod(cfg, async) == 1
    ensures CountsAgree(cfg, run, cpu, async)
  {
    hide ClassPeriod, ClassCall;
  }

  // ---- agents that make every m-th call asynchronous ----

  /** Of the unfiltered calls of the CPU every `m`-th is asynchronous, the others synchronous.  Returns,
      other CPUs, filtered calls and the clock are arbitrary. */
  predicate Cycles(cfg: Config, run: seq<Probe>, cpu: nat, m: nat)
    requires m > 0
  {
    forall i :: 0 <= i < |run| && CallOn(cfg, run[i], cpu) ==>
      (InClass(run[i], true) <==> CallsOn(cfg, run, cpu, i) % m == m - 1)
  }

  /** The two classes in turn, starting with a synchronous call. */
  predicate Alternates(cfg: Config, run: seq<Probe>, cpu: nat) {
    Cycles(cfg, run, cpu, 2)
  }

  /** An asynchronous call of this CPU at position `i` that asks for a stack. */
  predicate AsyncAttempt(cfg: Config, counters: map<nat, uint64>, run: seq<Probe>, cpu: nat, i: nat)
    requires i < |run|
  {
    ClassCall(cfg, run[i], cpu, true) && AttemptAt(cfg, counters, run, i)
  }

  predicate Divides(d: nat, n: nat)
    requires d > 0
  {
    n % d == 0
  }

  ghost predicate Coprime(m: nat, p: nat) {
    forall d: nat :: d > 1 && Divides(d, m) ==> !Divides(d, p)
  }

  lemma DividesSum(d: nat, a: nat, b: nat)
    requires d > 0 && Divides(d, b)
    ensures Divides(d, a + b) <==> Divides(d, a)
  {
    assert b == b / d * d;
    DivisionIs(a + b, d, a / d + b / d, a % d);
  }

  lemma DividesProduct(d: nat, a: nat, k: nat)
    requires d > 0 && Divides(d, a)
    ensures Divides(d, k * a)
  {
    assert a == a / d * d;
    assert k * a == k * (a / d) * d;
    DivisionIs(k * a, d, k * (a / d), 0);
  }

  /** A number that is 0 modulo `p` and -1 modulo `m` leaves no room for a common divisor. */
  lemma MeetIsCoprime(c: nat, m: nat, p: nat)
    requires m > 0 && p > 0 && c % m == m - 1 && c % p == 0
    ensures Coprime(m, p)
  {
    forall d: nat | d > 1 && Divides(d, m) ensures !Divides(d, p) {
      if Divides(d, p) {
        assert c + 1 == (c / m + 1) * m && c == c / p * p;
        DividesProduct(d, m, c / m + 1);
        DividesProduct(d, p, c / p);
        DividesSum(d, 1, c);
        DivisionIs(1, d, 0, 1);
      }
    }
  }

  /** Coprime numbers have a combination of 1, found by subtracting the smaller from the larger. */
  lemma {:induction false} Bezout(a: nat, b: nat) returns (x: int, y: int)
    requires a > 0 && b > 0 && Coprime(a, b)
    ensures x * a + y * b == 1
    decreases a + b
  {
    if a == b {
      assert Divides(a, a) && Divides(a, b);
      x, y := 1, 0;
    } else if a > b {
      CoprimeRest(a, b);
      var u, v := Bezout(a - b, b);
      x, y := u, v - u;
      assert u * (a - b) == u * a - u * b && (v - u) * b == v * b - u * b;
    } else {
      CoprimeRest(b, a);
      var u, v := Bezout(a, b - a);
      x, y := u - v, v;
      assert v * (b - a) == v * b - v * a && (u - v) * a == u * a - v * a;
    }
  }

  lemma CoprimeRest(a: nat, b: nat)
    requires a > b > 0
    ensures Coprime(a, b) ==> Coprime(a - b, b)
    ensures Coprime(b, a) ==> Coprime(b, a - b)
  {
    hide Divides;
    forall d: nat | d > 1 && Divides(d, b) ensures Divides(d, a) <==> Divides(d, a - b) {
      DividesSum(d, a - b, b);
    }
  }

  /** Coprime numbers meet before their product. */
  lemma CoprimeMeet(m: nat, p: nat) returns (c: nat)
    requires m > 0 && p > 0 && Coprime(m, p)
    ensures c < m * p && c % m == m - 1 && c % p == 0
  {
    var x, y := Bezout(m, p);
    assert m * p > 0;
    c := (x * m - 1) % (m * p);
    var q := (x * m - 1) / (m * p);
    assert x * m - 1 == q * (m * p) + c;
    MeetAt(c, x, y, q, m, p);
  }

  lemma NotNegative(k: int, m: nat, r: nat)
    requires r < m && k * m + r >= 0
    ensures k >= 0
  {
    if k < 0 {
      BelowZero(k, m);
    }
  }

  lemma {:induction false} BelowZero(k: int, m: nat)
    requires k < 0
    ensures k * m + m <= 0
    decreases -k
  {
    assert k * m + m == (k + 1) * m;
    if k < -1 {
      BelowZero(k + 1, m);
    }
  }

  lemma MeetAt(c: nat, x: int, y: int, q: int, m: nat, p: nat)
    requires m > 0 && p > 0 && x * m + y * p == 1 && x * m - 1 == q * (m * p) + c
    ensures c % m == m - 1 && c % p == 0
  {
    MeetFirst(c, x, q, m, p);
    MeetSecond(c, x, y, q, m, p);
  }

  lemma MeetFirst(c: nat, x: int, q: int, m: nat, p: nat)
    requires m > 0 && x * m - 1 == q * (m * p) + c
    ensures c % m == m - 1
  {
    var k := x - q * p - 1;
    assert (x - q * p - 1) * m == x * m - q * p * m - m;
    assert q * (m * p) == q * p * m;
    assert c == k * m + (m - 1);
    NotNegative(k, m, m - 1);
    DivisionIs(c, m, k, m - 1);
  }

  lemma MeetSecond(c: nat, x: int, y: int, q: int, m: nat, p: nat)
    requires p > 0 && x * m + y * p == 1 && x * m - 1 == q * (m * p) + c
    ensures c % p == 0
  {
    var l := -y - q * m;
    assert (-y - q * m) * p == -(y * p) - q * m * p;
    assert q * (m * p) == q * m * p;
    assert c == l * p;
    NotNegative(l, p, 0);
    DivisionIs(c, p, l, 0);
  }

  /** The position of the call before which `k` calls were made. */
  lemma {:induction false} NthCall(cfg: Config, run: seq<Probe>, cpu: nat, n: nat, k: nat) returns (i: nat)
    requires n <= |run| && k < CallsOn(cfg, run, cpu, n)
    ensures i < n && CallOn(cfg, run[i], cpu) && CallsOn(cfg, run, cpu, i) == k
  {
    if CallOn(cfg, run[n - 1], cpu) && k == CallsOn(cfg, run, cpu, n - 1) {
      i := n - 1;
    } else {
      i := NthCall(cfg, run, cpu, n - 1, k);
    }
  }

  /** If the cycle and the asynchronous period have a common divisor, no asynchronous call is ever
      sampled, however long the agent runs. */
  lemma NeverSampled(cfg: Config, counters: map<nat, uint64>, run: seq<Probe>, cpu: nat, m: nat, i: nat)
    requires m > 0 && Counting(cfg, counters, run, cpu) && Cycles(cfg, run, cpu, m)
    requires !Coprime(m, ClassPeriod(cfg, true))
    requires i < |run|
    ensures !AsyncAttempt(cfg, counters, run, cpu, i)
  {
    hide AttemptAt, ClassPeriod, InClass, Coprime, Counting;
    if AsyncAttempt(cfg, counters, run, cpu, i) {
      ClassLaw(cfg, counters, run, i);
      MeetIsCoprime(CallsOn(cfg, run, cpu, i), m, ClassPeriod(cfg, true));
    }
  }

  /** For an agent whose every `m`-th call is asynchronous and that makes at least m * N calls: some
      asynchronous call is sampled exactly when m and N are coprime. */
  lemma SampledIffCoprime(cfg: Config, counters: map<nat, uint64>, run: seq<Probe>, cpu: nat, m: nat)
    requires m > 0 && Counting(cfg, counters, run, cpu) && Cycles(cfg, run, cpu, m)
    requires CallsOn(cfg, run, cpu, |run|) >= m * ClassPeriod(cfg, true)
    ensures (exists i :: 0 <= i < |run| && AsyncAttempt(cfg, counters, run, cpu, i)) <==>
            Coprime(m, ClassPeriod(cfg, true))
  {
    hide AttemptAt, ClassPeriod, InClass, Coprime, Counting;
    var p := ClassPeriod(cfg, true);
    if Coprime(m, p) {
      var c := CoprimeMeet(m, p);
      var i := NthCall(cfg, run, cpu, |run|, c);
      ClassLaw(cfg, counters, run, i);
      assert AsyncAttempt(cfg, counters, run, cpu, i);
    } else {
      hide AsyncAttempt;
      forall i | 0 <= i < |run| ensures !AsyncAttempt(cfg, counters, run, cpu, i) {
        NeverSampled(cfg, counters, run, cpu, m, i);
      }
    }
  }

  lemma CoprimeToTwo(p: nat)
    requires p > 0
    ensures Coprime(2, p) <==> p % 2 == 1
  {
    if p % 2 == 0 {
      assert Divides(2, 2) && Divides(2, p);
    } else {
      forall d: nat | d > 1 && Divides(d, 2) ensures d == 2 {
        if d > 2 {
          DivisionIs(2, d, 0, 2);
        }
      }
    }
  }

  /** The cycle of two: an agent that alternates the classes never has an asynchronous call sampled
      when the period is even. */
  lemma AsyncNeverSampled(cfg: Config, counters: map<nat, uint64>, run: seq<Probe>, cpu: nat, i: nat)
    requires Counting(cfg, counters, run, cpu) && Alternates(cfg, run, cpu)
    requires ClassPeriod(cfg, true) % 2 == 0
    requires i < |run|
    ensures !AsyncAttempt(cfg, counters, run, cpu, i)
  {
    hide AsyncAttempt, ClassPeriod, Cycles, Counting, Coprime;
    CoprimeToTwo(ClassPeriod(cfg, true));
    NeverSampled(cfg, counters, run, cpu, 2, i);
  }

  /** For an agent that alternates long enough, some asynchronous call is sampled exactly when the
      asynchronous period is odd. */
  lemma SampledIffOddPeriod(cfg: Config, counters: map<nat, uint64>, run: seq<Probe>, cpu: nat)
    requires Counting(cfg, counters, run, cpu) && Alternates(cfg, run, cpu)
    requires CallsOn(cfg, run, cpu, |run|) > ClassPeriod(cfg, true)
    ensures (exists i :: 0 <= i < |run| && AsyncAttempt(cfg, counters, run, cpu, i)) <==>
            ClassPeriod(cfg, true) % 2 == 1
  {
    hide AttemptAt, ClassPeriod, InClass, Counting;
    var p := ClassPeriod(cfg, true);
    if p % 2 == 0 {
      forall i | 0 <= i < |run| ensures !AsyncAttempt(cfg, counters, run, cpu, i) {
        AsyncNeverSampled(cfg, counters, run, cpu, i);
      }
    } else {
      var i := NthCall(cfg, run, cpu, |run|, p);
      ClassLaw(cfg, counters, run, i);
      assert AsyncAttempt(cfg, counters, run, cpu, i);
    }
  }

  /** Such agents exist for every cycle and thread: each call returns before the next is made. */
  function AgentProbe(key: uint64, cpu: nat, now: uint64, m: nat, i: nat): Probe
    requires m > 0
  {
    var op := CopyOp(i / 2 % m == m - 1);
    if i % 2 == 0 then Entry(key, now, op, cpu, Regs(0, 0, 0, 0), 0) else Return(key, now, op, 0, "", true)
  }

  function Agent(key: uint64, cpu: nat, start: uint64, m: nat, calls: nat): (r: seq<Probe>)
    requires m > 0 && start + 2 * calls < U64_MODULUS
    ensures |r| == 2 * calls
  {
    seq(2 * calls, i requires 0 <= i < 2 * calls => AgentProbe(key, cpu, start + i, m, i))
  }

  lemma AgentAt(key: uint64, cpu: nat, start: uint64, m: nat, calls: nat, i: nat)
    requires m > 0 && start + 2 * calls < U64_MODULUS && i < 2 * calls
    ensures var p := Agent(key, cpu, start, m, calls)[i];
            && p == AgentProbe(key, cpu, start + i, m, i)
            && p.key == key && p.now == start + i
            && (p.Entry? <==> i % 2 == 0)
            && (p.Entry? ==> p.cpu == cpu && (InClass(p, true) <==> i / 2 % m == m - 1))
  {
    hide InClass;
    CopyClass(key, start + i, cpu, i / 2 % m == m - 1, true);
  }

  lemma {:induction false} AgentCalls(cfg: Config, key: uint64, cpu: nat, start: uint64, m: nat, calls: nat, i: nat)
    requires m > 0 && start + 2 * calls < U64_MODULUS && i <= 2 * calls && Traced(cfg, key)
    ensures CallsOn(cfg, Agent(key, cpu, start, m, calls), cpu, i) == (i + 1) / 2
  {
    hide Agent, InClass, Traced, AgentProbe;
    if i > 0 {
      AgentCalls(cfg, key, cpu, start, m, calls, i - 1);
      AgentAt(key, cpu, start, m, calls, i - 1);
    }
  }

  lemma AgentCycles(cfg: Config, key: uint64, cpu: nat, start: uint64, m: nat, calls: nat)
    requires m > 0 && start + 2 * calls < U64_MODULUS && Traced(cfg, key)
    ensures var run := Agent(key, cpu, start, m, calls);
            Cycles(cfg, run, cpu, m) && MonotoneClock(run) && CallsOn(cfg, run, cpu, |run|) == calls
  {
    hide Agent, InClass, CallsOn, Traced, AgentProbe;
    var run := Agent(key, cpu, start, m, calls);
    AgentCalls(cfg, key, cpu, start, m, calls, 2 * calls);
    forall i | 0 <= i < |run| && CallOn(cfg, run[i], cpu)
      ensures InClass(run[i], true) <==> CallsOn(cfg, run, cpu, i) % m == m - 1
    {
      AgentAt(key, cpu, start, m, calls, i);
      AgentCalls(cfg, key, cpu, start, m, calls, i);
      assert (i + 1) / 2 == i / 2;
    }
    AgentClock(key, cpu, start, m, calls);
  }

  lemma AgentClock(key: uint64, cpu: nat, start: uint64, m: nat, calls: nat)
    requires m > 0 && start + 2 * calls < U64_MODULUS
    ensures MonotoneClock(Agent(key, cpu, start, m, calls))
  {
    hide Agent, InClass, AgentProbe;
    var run := Agent(key, cpu, start, m, calls);
    forall i | 0 <= i < |run| ensures run[i].now == start + i {
      AgentAt(key, cpu, start, m, calls, i);
    }
  }
}
