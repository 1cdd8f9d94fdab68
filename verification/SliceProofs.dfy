// A Slice is exactly what a complete record prints besides its stack.
module SliceProofs {

  import opened Types
  import opened JsonText
  import opened StackJson
  import opened StackReader
  import opened ChromeTrace
  import opened NameProofs

  // ---- numbers ----

  lemma MicrosSame(a: nat, b: nat)
    requires Micros(a) == Micros(b)
    ensures a == b
  {
    MicrosParts(a);
    MicrosParts(b);
    hide Micros, Digit;
    var p, q, r, u, v, w := a / 100 % 10, a / 10 % 10, a % 10, b / 100 % 10, b / 10 % 10, b % 10;
    DigitSame(p, u);
    DigitSame(q, v);
    DigitSame(r, w);
  }

  lemma MicrosParts(n: nat)
    ensures Micros(n).whole == n / 1000 && |Micros(n).frac| == 3
    ensures Micros(n).frac[0] == Digit(n / 100 % 10) && Micros(n).frac[1] == Digit(n / 10 % 10) &&
            Micros(n).frac[2] == Digit(n % 10)
    ensures n == 1000 * (n / 1000) + 100 * (n / 100 % 10) + 10 * (n / 10 % 10) + n % 10
  {
    hide Digit;
    assert n / 100 / 10 == n / 1000 && n / 10 / 10 == n / 100;
  }

  lemma DigitSame(a: nat, b: nat)
    requires a < 10 && b < 10
    ensures Digit(a) == Digit(b) ==> a == b
  {
  }

  lemma HexSame(a: nat, b: nat)
    requires "0x" + Hex(a) == "0x" + Hex(b)
    ensures a == b
  {
    hide Hex;
    assert ("0x" + Hex(a))[2..] == Hex(a) && ("0x" + Hex(b))[2..] == Hex(b);
    HexReads(a);
    HexReads(b);
  }

  // ---- the optional arguments ----

  lemma GpuKeyNames()
    ensures "stream_id" !in {"ret", "comm", "async", "size_bytes", "size", "ptr", "stack"}
    ensures "async" !in {"ret", "comm", "stream_id", "size_bytes", "size", "ptr", "stack"}
    ensures "size_bytes" !in {"ret", "comm", "stream_id", "async", "size", "ptr", "stack"}
    ensures "ptr" !in {"ret", "comm", "stream_id", "async", "size_bytes", "size", "stack"}
    ensures "size" !in {"ret", "comm", "stream_id", "async", "size_bytes", "ptr", "stack"}
    ensures "stack" !in {"ret", "comm", "stream_id", "async", "size_bytes", "size", "ptr"}
  {
    assert "stream_id"[2] == 'r' && "stack"[2] == 'a' && "size"[1] == 'i' && "stream_id"[1] == 't' &&
           "size_bytes"[1] == 'i';
    assert "ret"[0] == 'r' && "comm"[0] == 'c' && "async"[0] == 'a' && "ptr"[0] == 'p' && "size"[0] == 's' &&
           "stack"[1] == 't';
    assert |"size_bytes"| == 10 && |"size"| == 4;
  }

  /** What a member list shows under a key, if anything. */
  function OptionalValue(present: bool, v: Json): Option<Json> {
    if present then Some(v) else None
  }

  lemma GpuFinds(g: CudaEvent, key: string)
    requires key in {"stream_id", "async", "size_bytes", "size", "ptr", "stack"}
    ensures Find(GpuArgs(g), key) ==
            if key == "stack" then None
            else if key == "size" then OptionalValue(HasSize(g.opType), Str(SizeText(g.size)))
            else if key == "stream_id" then OptionalValue(g.streamId != 0, Str("0x" + Hex(g.streamId)))
            else if key == "async" then OptionalValue(g.flags & FLAG_ASYNC != 0, Word("true"))
            else if key == "size_bytes" then OptionalValue(HasSize(g.opType), Int(g.size))
            else OptionalValue(g.opType == 2 && g.ptr != 0, Str("0x" + Hex(g.ptr)))
  {
    hide With, Find, Hex, SizeText, Int, Signed, HasSize;
    GpuKeyNames();
    var m0 := [Member("ret", Signed(g.retVal)), Member("comm", Str(g.comm))];
    var m1 := With(m0, g.streamId != 0, "stream_id", Str("0x" + Hex(g.streamId)));
    var m2 := With(m1, g.flags & FLAG_ASYNC != 0, "async", Word("true"));
    var m3 := With(m2, HasSize(g.opType), "size_bytes", Int(g.size));
    var m4 := With(m3, HasSize(g.opType), "size", Str(SizeText(g.size)));
    NotInTwo(Signed(g.retVal), Str(g.comm), key);
    FindWith(m0, g.streamId != 0, "stream_id", Str("0x" + Hex(g.streamId)), key);
    FindWith(m1, g.flags & FLAG_ASYNC != 0, "async", Word("true"), key);
    FindWith(m2, HasSize(g.opType), "size_bytes", Int(g.size), key);
    FindWith(m3, HasSize(g.opType), "size", Str(SizeText(g.size)), key);
    FindWith(m4, g.opType == 2 && g.ptr != 0, "ptr", Str("0x" + Hex(g.ptr)), key);
  }

  lemma NotInTwo(a: Json, b: Json, key: string)
    requires key != "ret" && key != "comm"
    ensures Find([Member("ret", a), Member("comm", b)], key) == None
  {
    hide Find;
    NothingFound(key);
    FindStep(Member("comm", b), [], key);
    FindStep(Member("ret", a), [Member("comm", b)], key);
    assert [Member("comm", b)] + [] == [Member("comm", b)];
    assert [Member("ret", a)] + [Member("comm", b)] == [Member("ret", a), Member("comm", b)];
  }

  lemma FrontArgs(g: CudaEvent)
    ensures |GpuArgs(g)| >= 2
    ensures GpuArgs(g)[0] == Member("ret", Signed(g.retVal)) && GpuArgs(g)[1] == Member("comm", Str(g.comm))
  {
    hide Hex, SizeText, Signed;
  }

  lemma SignedSame(a: int, b: int)
    requires Signed(a) == Signed(b)
    ensures a == b
  {
  }

  lemma SameArgs(host: Host, a: Record, b: Record)
    requires a.Complete? && b.Complete?
    requires GpuArgs(a.gpu) + StackMember(host, a.stack) == GpuArgs(b.gpu) + StackMember(host, b.stack)
    ensures a.gpu.retVal == b.gpu.retVal && a.gpu.comm == b.gpu.comm
    ensures forall key :: key in {"stream_id", "async", "size_bytes", "ptr"} ==>
            Find(GpuArgs(a.gpu), key) == Find(GpuArgs(b.gpu), key)
  {
    hide GpuArgs, Find, StackTree, Signed;
    FrontArgs(a.gpu);
    FrontArgs(b.gpu);
    var x, y := GpuArgs(a.gpu) + StackMember(host, a.stack), GpuArgs(b.gpu) + StackMember(host, b.stack);
    assert x[0] == GpuArgs(a.gpu)[0] && y[0] == GpuArgs(b.gpu)[0] && x[1] == GpuArgs(a.gpu)[1] &&
           y[1] == GpuArgs(b.gpu)[1];
    SignedSame(a.gpu.retVal, b.gpu.retVal);
    GpuKeyNames();
    forall key | key in {"stream_id", "async", "size_bytes", "ptr"}
      ensures Find(GpuArgs(a.gpu), key) == Find(GpuArgs(b.gpu), key)
    {
      FindJoin(GpuArgs(a.gpu), StackMember(host, a.stack), key);
      FindJoin(GpuArgs(b.gpu), StackMember(host, b.stack), key);
      NotTheStack(host, a.stack, key);
      NotTheStack(host, b.stack, key);
    }
  }

  lemma NotTheStack(host: Host, s: Option<StackRef>, key: string)
    requires key != "stack"
    ensures Find(StackMember(host, s), key) == None
  {
    hide StackTree;
    if s.Some? {
      assert StackMember(host, s)[1..] == [];
    }
  }

  lemma HeadsSame(a: Record, b: Record)
    requires a.Complete? && b.Complete? && HeadMembers(a) == HeadMembers(b)
    ensures a.ts == b.ts && a.gpu.durationNs == b.gpu.durationNs && a.pid == b.pid && a.tid == b.tid
    ensures OpName(a.gpu.opType) == OpName(b.gpu.opType) && OpCategory(a.gpu.opType) == OpCategory(b.gpu.opType)
  {
    hide OpName, OpCategory, Micros, GpuArgs, CpuHead;
    var x, y := HeadMembers(a), HeadMembers(b);
    assert x[0] == y[0] && x[1] == y[1] && x[3] == y[3] && x[4] == y[4] && x[5] == y[5] && x[6] == y[6];
    MicrosSame(a.ts, b.ts);
    MicrosSame(a.gpu.durationNs, b.gpu.durationNs);
  }

  lemma OptionsSame(a: CudaEvent, b: CudaEvent)
    requires forall key :: key in {"stream_id", "async", "size_bytes", "ptr"} ==>
             Find(GpuArgs(a), key) == Find(GpuArgs(b), key)
    ensures (a.streamId != 0) == (b.streamId != 0) && (a.streamId != 0 ==> a.streamId == b.streamId)
    ensures (a.flags & FLAG_ASYNC != 0) == (b.flags & FLAG_ASYNC != 0)
    ensures HasSize(a.opType) == HasSize(b.opType) && (HasSize(a.opType) ==> a.size == b.size)
    ensures (a.opType == 2 && a.ptr != 0) == (b.opType == 2 && b.ptr != 0) &&
            (a.opType == 2 && a.ptr != 0 ==> a.ptr == b.ptr)
  {
    hide GpuArgs, Find, Hex, HasSize;
    GpuKeyNames();
    GpuFinds(a, "stream_id");
    GpuFinds(b, "stream_id");
    GpuFinds(a, "async");
    GpuFinds(b, "async");
    GpuFinds(a, "size_bytes");
    GpuFinds(b, "size_bytes");
    GpuFinds(a, "ptr");
    GpuFinds(b, "ptr");
    if a.streamId != 0 && b.streamId != 0 {
      HexSame(a.streamId, b.streamId);
    }
    if a.opType == 2 && b.opType == 2 && a.ptr != 0 && b.ptr != 0 {
      HexSame(a.ptr, b.ptr);
    }
  }

  lemma SamePrint(host: Host, a: Record, b: Record)
    requires a.Complete? && b.Complete? && SliceOf(a) == SliceOf(b) && a.stack == b.stack
    ensures RecordTree(host, a) == RecordTree(host, b)
  {
    hide OpName, OpCategory, Hex, SizeText, Micros, StackTree;
  }

  /** Two complete records with the same stack print the same JSON if and only if their slices are the
      same: nothing of the event that is not in the slice is printed, and all of the slice is. */
  lemma SliceIsPrinted(host: Host, a: Record, b: Record)
    requires a.Complete? && b.Complete? && a.stack == b.stack
    ensures RecordTree(host, a) == RecordTree(host, b) <==> SliceOf(a) == SliceOf(b)
  {
    if SliceOf(a) == SliceOf(b) {
      SamePrint(host, a, b);
    }
    hide HeadMembers, GpuArgs, StackMember, Find, OpName, OpCategory, HasSize;
    if RecordTree(host, a) == RecordTree(host, b) {
      TreesSame(host, a, b);
      HeadsSame(a, b);
      SameArgs(host, a, b);
      OptionsSame(a.gpu, b.gpu);
    }
  }

  lemma TreesSame(host: Host, a: Record, b: Record)
    requires a.Complete? && b.Complete? && RecordTree(host, a) == RecordTree(host, b)
    ensures HeadMembers(a) == HeadMembers(b)
    ensures GpuArgs(a.gpu) + StackMember(host, a.stack) == GpuArgs(b.gpu) + StackMember(host, b.stack)
  {
    hide GpuArgs, StackMember, OpName, OpCategory, Micros;
    var x, y := RecordTree(host, a).members, RecordTree(host, b).members;
    assert |HeadMembers(a)| == |HeadMembers(b)| == 7;
    assert x[..7] == HeadMembers(a) && y[..7] == HeadMembers(b);
    assert x[7].value == Obj(GpuArgs(a.gpu) + StackMember(host, a.stack));
    assert y[7].value == Obj(GpuArgs(b.gpu) + StackMember(host, b.stack));
  }
}
