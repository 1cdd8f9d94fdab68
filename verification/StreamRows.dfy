// The timeline row of a CUDA event: src/user/unified_trace.c spreads streams over 256 rows per
// thread by hashing the stream id.
module StreamRows {

  import opened Types

  /** Offset between a thread's id and its GPU base row. */
  const GPU_ROW: uint32 := 1000000

  /** Bitwise exclusive or of the low `n` bits. */
  function XorBits(a: nat, b: nat, n: nat): (r: nat)
    decreases n
  {
    if n == 0 then 0
    else 2 * XorBits(a / 2, b / 2, n - 1) + if a % 2 == b % 2 then 0 else 1
  }

  lemma {:induction false} XorBitsCancel(a: nat, b: nat, n: nat, limit: nat)
    requires a < limit && limit == Power2(n)
    ensures XorBits(a, b, n) < limit
    ensures XorBits(XorBits(a, b, n), b, n) == a
    decreases n
  {
    if n > 0 {
      XorBitsCancel(a / 2, b / 2, n - 1, limit / 2);
    }
  }

  function Power2(n: nat): (r: nat)
    ensures r > 0
  {
    if n == 0 then 1 else 2 * Power2(n - 1)
  }

  /** Exclusive or of two byte values. */
  function Xor(a: nat, b: nat): (r: nat)
    requires a < 256 && b < 256
    ensures r < 256
  {
    XorOfBytes(a, b);
    XorBits(a, b, 8)
  }

  lemma XorCancels(a: nat, b: nat)
    requires a < 256 && b < 256
    ensures Xor(Xor(a, b), b) == a
  {
    hide XorBits;
    XorOfBytes(a, b);
  }

  lemma XorOfBytes(a: nat, b: nat)
    requires a < 256 && b < 256
    ensures XorBits(a, b, 8) < 256
    ensures XorBits(XorBits(a, b, 8), b, 8) == a
  {
    hide XorBits;
    assert Power2(4) == 16;
    assert Power2(8) == 256;
    XorBitsCancel(a, b, 8, 256);
  }

  // ---- the arithmetic form is C's operator on bytes ----

  function ByteValue(a: bv8): nat {
    a as nat
  }

  function XorValue(a: bv8, b: bv8): nat {
    (a ^ b) as nat
  }

  function Halved(a: bv8): bv8 {
    a >> 1
  }

  lemma HalvedValue(a: bv8)
    ensures ByteValue(Halved(a)) == ByteValue(a) / 2
  {
  }

  lemma LowBit(a: bv8)
    ensures (a & 1) as nat == a as nat % 2
  {
  }

  lemma XorBitwise(a: bv8, b: bv8)
    ensures (a ^ b) >> 1 == (a >> 1) ^ (b >> 1)
    ensures (a ^ b) & 1 == if a & 1 == b & 1 then 0 else 1
  {
  }

  lemma SameValue(a: bv8, b: bv8)
    ensures a == b <==> a as nat == b as nat
  {
    assert a == a as nat as bv8;
    assert b == b as nat as bv8;
  }

  lemma BitValue(z: bv8, same: bool)
    requires z == if same then 0 else 1
    ensures z as nat == if same then 0 else 1
  {
  }

  lemma XorStep(a: bv8, b: bv8)
    ensures XorValue(a, b) == 2 * XorValue(Halved(a), Halved(b)) + if ByteValue(a) % 2 == ByteValue(b) % 2 then 0 else 1
  {
    HalvedValue(a ^ b);
    LowBit(a);
    LowBit(b);
    LowBit(a ^ b);
    XorBitwise(a, b);
    SameValue(a & 1, b & 1);
    BitValue((a ^ b) & 1, a & 1 == b & 1);
  }

  lemma ZeroXor(a: bv8, b: bv8)
    requires ByteValue(a) < 1 && ByteValue(b) < 1
    ensures XorValue(a, b) == 0
  {
    assert a == a as nat as bv8;
    assert b == b as nat as bv8;
  }

  lemma {:induction false} XorBitsIsXor(a: bv8, b: bv8, n: nat)
    requires ByteValue(a) < Power2(n) && ByteValue(b) < Power2(n)
    ensures XorValue(a, b) == XorBits(ByteValue(a), ByteValue(b), n)
    decreases n
  {
    hide ByteValue, XorValue, Halved;
    if n == 0 {
      ZeroXor(a, b);
    } else {
      HalvedValue(a);
      HalvedValue(b);
      XorStep(a, b);
      XorBitsIsXor(Halved(a), Halved(b), n - 1);
    }
  }

  /** Xor is C's `^` on bytes. */
  lemma {:induction false} XorIsBitwise(a: bv8, b: bv8)
    ensures (a ^ b) as nat == Xor(a as nat, b as nat)
  {
    hide XorBits;
    assert Power2(4) == 16;
    assert Power2(8) == 256;
    XorBitsIsXor(a, b, 8);
  }

  /** `(s ^ (s >> 32)) & 0xFF`, written on the two bytes it depends on. */
  function Mix(s: uint64): (r: nat)
    ensures r < 256
  {
    Xor(s % 256, s / U32_MODULUS % 256)
  }

  lemma {:induction false} XorLowBits(a: nat, b: nat, k: nat, n: nat)
    requires k <= n
    ensures XorBits(a, b, n) % Power2(k) == XorBits(a % Power2(k), b % Power2(k), k)
    decreases k
  {
    if k > 0 {
      XorLowBits(a / 2, b / 2, k - 1, n - 1);
      var m := Power2(k - 1);
      HalfOfRest(a, m);
      HalfOfRest(b, m);
      RestOfDouble(XorBits(a / 2, b / 2, n - 1), if a % 2 == b % 2 then 0 else 1, m);
    }
  }

  lemma HalfOfRest(a: nat, m: nat)
    requires m > 0
    ensures a % (2 * m) / 2 == a / 2 % m && a % (2 * m) % 2 == a % 2
  {
    var q, r := a / 2 / m, a / 2 % m;
    assert a / 2 == q * m + r;
    assert a == 2 * (q * m + r) + a % 2;
    DivisionIs(a, 2 * m, q, 2 * r + a % 2);
  }

  lemma RestOfDouble(x: nat, bit: nat, m: nat)
    requires m > 0 && bit < 2
    ensures (2 * x + bit) % (2 * m) == 2 * (x % m) + bit
  {
    DivisionIs(2 * x + bit, 2 * m, x / m, 2 * (x % m) + bit);
  }

  /** Mix is the code's expression `(s ^ (s >> 32)) & 0xFF` on the whole 64-bit id: the exclusive or of
      all 64 bits, of which the low byte is kept. */
  lemma MixIsExpression(s: uint64)
    ensures XorBits(s, s / U32_MODULUS, 64) % 256 == Mix(s)
  {
    hide XorBits;
    assert Power2(4) == 16;
    assert Power2(8) == 256;
    XorLowBits(s, s / U32_MODULUS, 8, 64);
  }

  function StreamOffset(streamId: uint64): (r: nat)
    ensures r < 256
    ensures r == 0 <==> streamId == 0
  {
    if streamId == 0 then 0
    else if Mix(streamId) == 0 then 1
    else Mix(streamId)
  }

  /** gpu_virtual_tid, in u32 arithmetic. */
  function Row(tid: uint32, streamId: uint64): uint32 {
    AddU32(AddU32(tid, GPU_ROW), StreamOffset(streamId))
  }

  /** Every GPU row of a thread lies in a band of 256 that starts at its base row, in 32-bit
      arithmetic; the base row is the default stream's.  The band is the plain interval as long as the
      sum does not wrap, which it does only for thread ids above 2^32 - 1000256. */
  lemma RowBand(tid: uint32, streamId: uint64)
    ensures Row(tid, streamId) == (tid + 1000000 + StreamOffset(streamId)) % U32_MODULUS
    ensures Row(tid, streamId) == AddU32(tid, GPU_ROW) <==> streamId == 0
    ensures tid + 1000000 <= Row(tid, streamId) <= tid + 1000255 <==>
            tid + 1000000 + StreamOffset(streamId) < U32_MODULUS
  {
    hide StreamOffset;
  }

  // ---- which streams share a row ----

  /** "Each unique stream gets its own row" on one thread: two streams share a row exactly when both
      are the default one, or neither is and their hashes are equal or both at most 1. */
  lemma SameRowIff(tid: uint32, a: uint64, b: uint64)
    ensures Row(tid, a) == Row(tid, b) <==>
            if a == 0 || b == 0 then a == b else Mix(a) == Mix(b) || (Mix(a) <= 1 && Mix(b) <= 1)
  {
    hide Mix;
    RowsMeetIff(tid, a, tid, b);
    SameRest(tid, StreamOffset(a), StreamOffset(b));
  }

  lemma SameRest(t: uint32, m: nat, n: nat)
    requires m < 256 && n < 256
    ensures (t + m) % U32_MODULUS == (t + n) % U32_MODULUS <==> m == n
  {
  }

  /** Across threads, two streams share a row exactly when the thread ids and the offsets add up to the
      same number, in 32-bit arithmetic. */
  lemma RowsMeetIff(t: uint32, s: uint64, u: uint32, v: uint64)
    ensures Row(t, s) == Row(u, v) <==>
            (t + StreamOffset(s)) % U32_MODULUS == (u + StreamOffset(v)) % U32_MODULUS
  {
    hide StreamOffset, Row;
    RowBand(t, s);
    RowBand(u, v);
    Shifted(t + StreamOffset(s), u + StreamOffset(v));
  }

  lemma Shifted(a: nat, b: nat)
    ensures (a + 1000000) % U32_MODULUS == (b + 1000000) % U32_MODULUS <==> a % U32_MODULUS == b % U32_MODULUS
  {
  }

  lemma {:induction false} XorWithZero(a: nat, n: nat)
    requires a < Power2(n)
    ensures XorBits(a, 0, n) == a
  {
    if n > 0 {
      XorWithZero(a / 2, n - 1);
    }
  }

  /** Small stream ids are their own offsets. */
  lemma {:induction false} SmallOffset(d: nat)
    requires d < 256
    ensures StreamOffset(d) == d
  {
    hide XorBits;
    assert Power2(4) == 16;
    assert Power2(8) == 256;
    XorWithZero(d, 8);
  }

  /** "Keep default-stream row clean" holds within a thread (`RowBand`) but not between threads: some
      stream of thread `t` is put on the default row of thread `u` exactly when `u` is 1 to 255 above
      `t`, as thread ids of one process often are. */
  lemma {:induction false} DefaultRowTaken(t: uint32, u: uint32)
    ensures (exists s: uint64 :: s != 0 && Row(t, s) == Row(u, 0)) <==> 0 < (u - t) % U32_MODULUS < 256
  {
    hide StreamOffset, Row;
    SmallOffset(0);
    forall s: uint64 | s != 0 && Row(t, s) == Row(u, 0) ensures (u - t) % U32_MODULUS == StreamOffset(s) {
      RowsMeetIff(t, s, u, 0);
      Difference(t, u, StreamOffset(s));
    }
    var d := (u - t) % U32_MODULUS;
    if 0 < d < 256 {
      SmallOffset(d);
      RowsMeetIff(t, d, u, 0);
      Difference(t, u, d);
      assert d != 0 && Row(t, d) == Row(u, 0);
    }
  }

  lemma Difference(t: uint32, u: uint32, d: nat)
    requires d < 256
    ensures (t + d) % U32_MODULUS == u % U32_MODULUS <==> (u - t) % U32_MODULUS == d
  {
  }

  /** The input: stream 1 of a thread is drawn on the default row of the thread with the next id. */
  lemma NeighbourRow(t: uint32)
    ensures Row(t, 1) == Row(AddU32(t, 1), 0)
  {
    hide StreamOffset;
    SmallOffset(0);
    SmallOffset(1);
  }

  /** A window of 256 consecutive stream ids that excludes 0 and shares its upper half. */
  predicate Window(base: uint64) {
    1 <= base && base + 255 < U64_MODULUS && base / U32_MODULUS == (base + 255) / U32_MODULUS
  }

  predicate InWindow(base: uint64, s: uint64) {
    base <= s <= base + 255
  }

  /** Every hash value is taken exactly once in a window. */
  lemma {:induction false} MixIsOnto(base: uint64, r: nat) returns (s: uint64)
    requires Window(base) && r < 256
    ensures InWindow(base, s) && Mix(s) == r
    ensures forall t: uint64 :: InWindow(base, t) && Mix(t) == r ==> t == s
  {
    hide Xor, XorBits, InWindow, Window;
    var h := base / U32_MODULUS % 256;
    var low := Xor(r, h);
    s := OneWithLowByte(base, low);
    XorCancels(r, h);
    forall t: uint64 | InWindow(base, t) && Mix(t) == r ensures t == s {
      SameUpper(base, t);
      XorCancels(t % 256, h);
    }
  }

  lemma SameUpper(base: uint64, t: uint64)
    requires Window(base) && InWindow(base, t)
    ensures t / U32_MODULUS == base / U32_MODULUS
  {
  }

  /** A window holds each low byte once. */
  lemma OneWithLowByte(base: uint64, low: nat) returns (s: uint64)
    requires Window(base) && low < 256
    ensures InWindow(base, s) && s % 256 == low && s / U32_MODULUS == base / U32_MODULUS
    ensures forall t: uint64 :: InWindow(base, t) && t % 256 == low ==> t == s
  {
    s := base + (low - base) % 256;
  }

  /** Two streams of a window share a row in exactly one case, and then the row is at offset 1. */
  lemma {:induction false} OneCollision(base: uint64) returns (s0: uint64, s1: uint64)
    requires Window(base)
    ensures InWindow(base, s0) && InWindow(base, s1) && s0 != s1
    ensures StreamOffset(s0) == StreamOffset(s1) == 1
    ensures forall a: uint64, b: uint64 :: InWindow(base, a) && InWindow(base, b) && a != b ==>
              (StreamOffset(a) == StreamOffset(b) <==> {a, b} == {s0, s1})
  {
    hide Mix;
    s0 := MixIsOnto(base, 0);
    s1 := MixIsOnto(base, 1);
    forall a: uint64, b: uint64 | InWindow(base, a) && InWindow(base, b) && a != b
      ensures StreamOffset(a) == StreamOffset(b) <==> {a, b} == {s0, s1}
    {
      var m := MixIsOnto(base, Mix(a));
      var n := MixIsOnto(base, Mix(b));
      assert Mix(a) != Mix(b);
      if StreamOffset(a) == StreamOffset(b) {
        assert {Mix(a), Mix(b)} == {0, 1};
      }
    }
  }
}
