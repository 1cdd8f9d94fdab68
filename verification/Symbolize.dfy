// Frame expansion of src/symbolize/blazesym_wrap.rs: bounded string copies, one output frame
// per address and per inlined function, cut at the capacity of the caller's array.
module Symbolize {

  import opened Types
  import opened Escaping

  /** STR_MAX and BSW_STR_MAX. */
  const STR_MAX: nat := 512

  /** struct bsw_frame: the three strings are whole fixed-size buffers. */
  datatype BswFrame = BswFrame(addr: uint64, line: uint32, inlined: nat, sym: string, file: string, lib: string) {
    predicate Valid() {
      |sym| == |file| == |lib| == STR_MAX && '\0' in sym && '\0' in file && '\0' in lib
    }
  }

  /** Source position; `file` is None when the path is not UTF-8. */
  datatype CodeInfo = CodeInfo(file: Option<string>, line: Option<uint32>)

  datatype InlinedFn = InlinedFn(name: string, code: Option<CodeInfo>)

  /** One result of the symbolizer; `lib` is None when there is no module or its path is not UTF-8. */
  datatype Symbolized =
    | Sym(name: string, code: Option<CodeInfo>, lib: Option<string>, inlinedFns: seq<InlinedFn>)
    | Unknown

  // ---- copy_str, basename, fill_frame ----

  /** What a fixed buffer keeps of a string. */
  function Cut(src: string): (r: string)
    ensures |r| == Min(|src|, STR_MAX - 1) && r <= src
  {
    src[..Min(|src|, STR_MAX - 1)]
  }

  /** copy_str, in place. */
  method CopyStr(dst: array<char>, src: string)
    requires dst.Length == STR_MAX
    modifies dst
    ensures dst[..] == Terminated(Cut(src), old(dst[..]))
    ensures '\0' in dst[..]
  {
    var n := Min(|src|, STR_MAX - 1);
    forall i | 0 <= i < n {
      dst[i] := src[i];
    }
    dst[n] := '\0';
    assert dst[..][n] == '\0';
  }

  /** The buffer copy_str leaves behind when it starts from zeroes. */
  function Buffer(src: string): (r: string)
    ensures |r| == STR_MAX && '\0' in r
    ensures '\0' !in src ==> CStr(r) == Cut(src)
  {
    var zeroes := seq(STR_MAX, _ => '\0');
    var r := Terminated(Cut(src), zeroes);
    assert r[|Cut(src)|] == '\0';
    if '\0' !in src then
      CStrOfTerminated(Cut(src), zeroes[|Cut(src)| + 1..]); r
    else r
  }

  /** The part of a path after its last slash. */
  function Basename(path: string): (r: string)
    ensures '/' !in r && |r| <= |path| && r == path[|path| - |r|..]
    ensures |r| < |path| ==> path[|path| - |r| - 1] == '/'
  {
    if path == [] || path[|path| - 1] == '/' then []
    else Basename(path[..|path| - 1]) + [path[|path| - 1]]
  }

  function ZeroedFrame(addr: uint64): (r: BswFrame)
    ensures r.Valid() && r.addr == addr && r.inlined == 0
  {
    BswFrame(addr, 0, 0, Buffer(""), Buffer(""), Buffer(""))
  }

  function WithCode(frame: BswFrame, code: Option<CodeInfo>): (r: BswFrame)
    requires frame.Valid()
    ensures r.Valid() && r.addr == frame.addr && r.inlined == frame.inlined
  {
    match code
    case None => frame
    case Some(c) =>
      var f := if c.file.Some? then frame.(file := Buffer(Basename(c.file.value))) else frame;
      f.(line := if c.line.Some? then c.line.value else 0)
  }

  /** fill_frame. */
  function FillFrame(frame: BswFrame, s: Symbolized): (r: BswFrame)
    requires s.Sym? && frame.Valid()
    ensures r.Valid() && r.addr == frame.addr && r.inlined == frame.inlined
  {
    var f := WithCode(frame.(sym := Buffer(s.name)), s.code);
    if s.lib.Some? then f.(lib := Buffer(Basename(s.lib.value))) else f
  }

  function InlinedFrame(addr: uint64, fn: InlinedFn): (r: BswFrame)
    ensures r.Valid() && r.addr == addr && r.inlined == 1
  {
    WithCode(ZeroedFrame(addr).(inlined := 1, sym := Buffer(fn.name)), fn.code)
  }

  function UnknownFrame(addr: uint64): (r: BswFrame)
    ensures r.Valid() && r.addr == addr && r.inlined == 0
  {
    ZeroedFrame(addr).(sym := Buffer("??"))
  }

  // ---- flattening ----

  /** All frames of one address: the enclosing function, then what was inlined into it. */
  function Expand(addr: uint64, res: Symbolized): (r: seq<BswFrame>)
    ensures |r| == 1 + (if res.Sym? then |res.inlinedFns| else 0)
  {
    match res
    case Sym(_, _, _, fns) =>
      [FillFrame(ZeroedFrame(addr), res)] + seq(|fns|, i requires 0 <= i < |fns| => InlinedFrame(addr, fns[i]))
    case Unknown => [UnknownFrame(addr)]
  }

  /** Every frame carries its source address and a flag saying whether it was inlined. */
  lemma ExpandTags(addr: uint64, res: Symbolized)
    ensures var r := Expand(addr, res);
            && (forall f :: f in r ==> f.Valid() && f.addr == addr)
            && r[0].inlined == 0
            && (forall j :: 1 <= j < |r| ==> r[j].inlined == 1)
  {
    hide FillFrame, InlinedFrame, UnknownFrame, ZeroedFrame;
    var r := Expand(addr, res);
    forall j | 0 <= j < |r|
      ensures r[j].Valid() && r[j].addr == addr && r[j].inlined == if j == 0 then 0 else 1
    {
    }
  }

  /** The expansion of the first `n` addresses, in order. */
  function Flatten(addrs: seq<uint64>, results: seq<Symbolized>, n: nat): (r: seq<BswFrame>)
    requires n <= |addrs| && n <= |results|
    ensures n <= |r|
  {
    if n == 0 then [] else Flatten(addrs, results, n - 1) + Expand(addrs[n - 1], results[n - 1])
  }

  lemma FlattenStep(addrs: seq<uint64>, results: seq<Symbolized>, n: nat)
    requires n < |addrs| && n < |results|
    ensures Flatten(addrs, results, 0) == []
    ensures Flatten(addrs, results, n + 1) == Flatten(addrs, results, n) + Expand(addrs[n], results[n])
  {
    hide Expand;
  }

  lemma {:induction false} FlattenPrefix(addrs: seq<uint64>, results: seq<Symbolized>, m: nat, n: nat)
    requires m <= n <= |addrs| && n <= |results|
    ensures Flatten(addrs, results, m) <= Flatten(addrs, results, n)
    decreases n - m
  {
    hide Expand;
    if m < n {
      FlattenPrefix(addrs, results, m, n - 1);
    }
  }

  predicate BlockAt<T(==)>(all: seq<T>, start: nat, block: seq<T>) {
    start + |block| <= |all| && all[start..start + |block|] == block
  }

  lemma MiddleOfPrefix<T>(a: seq<T>, b: seq<T>, all: seq<T>)
    requires a + b <= all
    ensures BlockAt(all, |a|, b)
  {
    assert all[..|a| + |b|] == a + b;
  }

  /** Every address owns one contiguous block of the result, headed by its own frame and followed
      by its inlined functions in the order the symbolizer reported them. */
  lemma {:induction false} BlockOfAddress(addrs: seq<uint64>, results: seq<Symbolized>, n: nat, i: nat)
    requires i < n <= |addrs| && n <= |results|
    ensures BlockAt(Flatten(addrs, results, n), |Flatten(addrs, results, i)|, Expand(addrs[i], results[i]))
  {
    hide Expand;
    FlattenPrefix(addrs, results, i + 1, n);
    MiddleOfPrefix(Flatten(addrs, results, i), Expand(addrs[i], results[i]), Flatten(addrs, results, n));
  }

  lemma {:induction false} FlattenValid(addrs: seq<uint64>, results: seq<Symbolized>, n: nat)
    requires n <= |addrs| && n <= |results|
    ensures forall f :: f in Flatten(addrs, results, n) ==> f.Valid()
  {
    hide Expand;
    if n > 0 {
      FlattenValid(addrs, results, n - 1);
      ExpandTags(addrs[n - 1], results[n - 1]);
    }
  }

  /** `count` items of `written` were produced from the sequence `all` under the capacity `cap`. */
  predicate WrittenFrom(out: seq<BswFrame>, was: seq<BswFrame>, written: nat, all: seq<BswFrame>, cap: nat) {
    && |out| == |was| && written == Min(|all|, cap) && written <= |out|
    && out[..written] == all[..written] && out[written..] == was[written..]
  }

  lemma WriteStart(was: seq<BswFrame>, cap: nat)
    ensures WrittenFrom(was, was, 0, [], cap)
  {
  }

  lemma WriteOne(out: seq<BswFrame>, was: seq<BswFrame>, written: nat, all: seq<BswFrame>, cap: nat, f: BswFrame)
    requires WrittenFrom(out, was, written, all, cap) && written < cap <= |out|
    ensures WrittenFrom(out[written := f], was, written + 1, all + [f], cap)
  {
  }

  lemma WriteNone(out: seq<BswFrame>, was: seq<BswFrame>, written: nat,
                  all: seq<BswFrame>, more: seq<BswFrame>, cap: nat)
    requires WrittenFrom(out, was, written, all, cap) && cap <= written && all <= more
    ensures WrittenFrom(out, was, written, more, cap)
  {
  }

  /** `out[written] = f; written += 1`, in place. */
  method PutFrame(out: array<BswFrame>, written: nat, f: BswFrame,
                  ghost was: seq<BswFrame>, ghost all: seq<BswFrame>, ghost cap: nat)
    returns (next: nat)
    requires written < cap <= out.Length && WrittenFrom(out[..], was, written, all, cap)
    modifies out
    ensures next == written + 1 && WrittenFrom(out[..], was, next, all + [f], cap)
    ensures out[..] == old(out[..])[written := f]
  {
    WriteOne(out[..], was, written, all, cap, f);
    out[written] := f;
    next := written + 1;
  }

  /** The body of the loop over addresses, with its inner loop over inlined functions. */
  method PutExpansion(out: array<BswFrame>, start: nat, addr: uint64, res: Symbolized,
                      ghost was: seq<BswFrame>, ghost done: seq<BswFrame>, cap: nat)
    returns (written: nat)
    requires start < cap <= out.Length && WrittenFrom(out[..], was, start, done, cap)
    modifies out
    ensures WrittenFrom(out[..], was, written, done + Expand(addr, res), cap)
  {
    hide WrittenFrom, FillFrame, InlinedFrame, UnknownFrame, ZeroedFrame, Part;
    ghost var block := Expand(addr, res);
    PartSteps(done, block);
    match res {
      case Sym(_, _, _, fns) =>
        written := PutFrame(out, start, FillFrame(ZeroedFrame(addr), res), was, done, cap);
        var j := 0;
        while j < |fns|
          invariant j <= |fns|
          invariant WrittenFrom(out[..], was, written, Part(done, block, j + 1), cap)
        {
          if written >= cap {
            WriteNone(out[..], was, written, Part(done, block, j + 1), done + block, cap);
            return;
          }
          written := PutFrame(out, written, InlinedFrame(addr, fns[j]), was, Part(done, block, j + 1), cap);
          j := j + 1;
        }
      case Unknown =>
        written := PutFrame(out, start, UnknownFrame(addr), was, done, cap);
    }
  }

  function Part(done: seq<BswFrame>, block: seq<BswFrame>, k: nat): seq<BswFrame>
    requires k <= |block|
  {
    done + block[..k]
  }

  lemma PartSteps(done: seq<BswFrame>, block: seq<BswFrame>)
    ensures Part(done, block, 0) == done && Part(done, block, |block|) == done + block
    ensures forall k :: 0 <= k < |block| ==> Part(done, block, k + 1) == Part(done, block, k) + [block[k]]
    ensures forall k :: 0 <= k <= |block| ==> Part(done, block, k) <= done + block
  {
    assert block[..|block|] == block;
    forall k | 0 <= k < |block| ensures Part(done, block, k + 1) == Part(done, block, k) + [block[k]] {
      assert block[..k + 1] == block[..k] + [block[k]];
    }
  }

  /** bsw_resolve: `outcome` is what the symbolizer answers for these addresses, None on error. */
  method BswResolve(pointersOk: bool, addrs: seq<uint64>, outcome: Option<seq<Symbolized>>,
                    out: array<BswFrame>, outCap: nat)
    returns (written: nat)
    requires outCap <= out.Length
    modifies out
    ensures WrittenFrom(out[..], old(out[..]), written, Resolved(pointersOk, addrs, outcome), outCap)
  {
    hide Expand, WrittenFrom, Flatten, Resolved;
    ghost var was := out[..];
    WriteStart(was, outCap);
    ResolvedIs(pointersOk, addrs, outcome);
    if !pointersOk || |addrs| == 0 || outCap == 0 {
      if outCap == 0 {
        WriteNone(was, was, 0, [], Resolved(pointersOk, addrs, outcome), outCap);
      }
      return 0;
    }
    if outcome.None? {
      return 0;
    }
    var results := outcome.value;
    var n := Min(|addrs|, |results|);
    written := 0;
    var i := 0;
    if n > 0 {
      FlattenStep(addrs, results, 0);
    }
    while i < n
      invariant i <= n
      invariant WrittenFrom(out[..], was, written, Flatten(addrs, results, i), outCap)
    {
      if written >= outCap {
        FlattenPrefix(addrs, results, i, n);
        WriteNone(out[..], was, written, Flatten(addrs, results, i), Flatten(addrs, results, n), outCap);
        return;
      }
      FlattenStep(addrs, results, i);
      written := PutExpansion(out, written, addrs[i], results[i], was, Flatten(addrs, results, i), outCap);
      i := i + 1;
    }
  }

  lemma ResolvedIs(pointersOk: bool, addrs: seq<uint64>, outcome: Option<seq<Symbolized>>)
    ensures var all := Resolved(pointersOk, addrs, outcome);
            && (!pointersOk || addrs == [] || outcome.None? || outcome.value == [] ==> all == [])
            && (pointersOk && outcome.Some? ==> all == Flatten(addrs, outcome.value, Min(|addrs|, |outcome.value|)))
  {
  }

  /** The frames that an unbounded output array would receive. */
  function Resolved(pointersOk: bool, addrs: seq<uint64>, outcome: Option<seq<Symbolized>>): seq<BswFrame> {
    if !pointersOk || outcome.None? then []
    else Flatten(addrs, outcome.value, Min(|addrs|, |outcome.value|))
  }
}
