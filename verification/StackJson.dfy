// read_stack_addrs and emit_stack_json of src/user/unified_trace.c, and the reader that undoes them.
module StackJson {

  import opened Types
  import opened Escaping
  import opened JsonText
  import opened Symbolize

  const PERF_MAX_STACK_DEPTH: nat := 127

  /** Size of the three escape buffers of emit_stack_json. */
  const ESC_LEN: nat := 2 * STR_MAX

  /** Everything emit_stack_json obtains from outside: the stack map, the command line and the
      symbolizer, each as a function of what it is asked. */
  datatype Host = Host(
    mapFd: int,
    lookup: int -> Option<seq<uint64>>,
    symbolizeEnabled: bool,
    symbolizerOk: bool,
    maxFrames: nat,
    calloc: nat -> bool,
    symbolize: (uint32, seq<uint64>) -> Option<seq<Symbolized>>)
  {
    /** The kernel fills a whole fixed-depth entry or none. */
    ghost predicate Valid() {
      forall id {:trigger lookup(id)} :: lookup(id).Some? ==> |lookup(id).value| == PERF_MAX_STACK_DEPTH
    }
  }

  /** An output stream opened for writing. */
  class TextFile {
    var text: string

    constructor ()
      ensures text == ""
    {
      text := "";
    }

    method Print(s: string)
      modifies this
      ensures text == old(text) + s
    {
      text := text + s;
    }
  }

  // ---- read_stack_addrs ----

  /** The entries of a stack before its first zero. */
  function UntilZero(stack: seq<uint64>): (r: seq<uint64>)
    ensures r <= stack && forall k :: 0 <= k < |r| ==> stack[k] != 0
    ensures |r| < |stack| ==> stack[|r|] == 0
  {
    if stack == [] || stack[0] == 0 then [] else [stack[0]] + UntilZero(stack[1..])
  }

  function StackAddrs(host: Host, stackId: int, cap: nat): seq<uint64> {
    if stackId < 0 || host.mapFd < 0 || host.lookup(stackId).None? then []
    else
      var all := UntilZero(host.lookup(stackId).value);
      all[..Min(|all|, cap)]
  }

  method ReadStackAddrs(host: Host, stackId: int, out: array<uint64>, outCap: nat) returns (n: nat)
    requires host.Valid() && outCap <= out.Length
    modifies out
    ensures n == |StackAddrs(host, stackId, outCap)| <= outCap
    ensures out[..n] == StackAddrs(host, stackId, outCap)
    ensures out[n..] == old(out[n..])
  {
    if stackId < 0 || host.mapFd < 0 {
      return 0;
    }
    var found := host.lookup(stackId);
    if found.None? {
      return 0;
    }
    var stack := found.value;
    ghost var valid := UntilZero(stack);
    n := 0;
    var i := 0;
    while i < PERF_MAX_STACK_DEPTH && n < outCap
      invariant n == i <= |valid| && n <= outCap
      invariant out[..n] == valid[..n] && out[n..] == old(out[n..])
    {
      if stack[i] == 0 {
        break;
      }
      out[n] := stack[i];
      n := n + 1;
      i := i + 1;
    }
  }

  // ---- what is printed ----

  /** printf's %llx. */
  function Hex(n: nat): (s: string)
    ensures s != []
    ensures forall c :: c in s ==> IsHex(c)
  {
    if n < 16 then [HexDigit(n)] else Hex(n / 16) + [HexDigit(n % 16)]
  }

  function AddrTree(addr: uint64): Json {
    Obj([Member("addr", Str("0x" + Hex(addr)))])
  }

  function AddrTrees(addrs: seq<uint64>): (r: seq<Json>)
    ensures |r| == |addrs|
  {
    if addrs == [] then [] else AddrTrees(addrs[..|addrs| - 1]) + [AddrTree(addrs[|addrs| - 1])]
  }

  /** The symbol text passed to the escaper. */
  function SymText(frame: BswFrame): string {
    if CStr(frame.sym) == [] then "??" else CStr(frame.sym)
  }

  /** An optional field. */
  function With(ms: seq<Member>, present: bool, key: string, v: Json): seq<Member> {
    if present then ms + [Member(key, v)] else ms
  }

  function FrameMembers(frame: BswFrame): seq<Member> {
    var sym := Escaped(SymText(frame), ESC_LEN);
    var file := Escaped(CStr(frame.file), ESC_LEN);
    var lib := Escaped(CStr(frame.lib), ESC_LEN);
    var m0 := [Member("sym", Str(sym))];
    var m1 := With(m0, file != [], "file", Str(file));
    var m2 := With(m1, frame.line != 0, "line", Num(false, frame.line, ""));
    var m3 := With(m2, lib != [], "lib", Str(lib));
    var flag := if frame.inlined == 0 then 0 else 1;
    With(m3, flag != 0, "inlined", Num(false, flag, ""))
  }

  function FrameTrees(frames: seq<BswFrame>): (r: seq<Json>)
    ensures |r| == |frames|
  {
    if frames == [] then []
    else FrameTrees(frames[..|frames| - 1]) + [Obj(FrameMembers(frames[|frames| - 1]))]
  }

  /** The addresses that survive --max-stack-frames. */
  function ShownAddrs(host: Host, stackId: int): seq<uint64> {
    var addrs := StackAddrs(host, stackId, PERF_MAX_STACK_DEPTH);
    addrs[..Min(|addrs|, host.maxFrames)]
  }

  /** The frames that fit the array allocated for them. */
  function ShownFrames(host: Host, stackId: int, pid: uint32): seq<BswFrame> {
    var addrs := ShownAddrs(host, stackId);
    if host.calloc(4 * |addrs|) then
      var all := Resolved(true, addrs, host.symbolize(pid, addrs));
      all[..Min(|all|, 4 * |addrs|)]
    else []
  }

  function StackTree(host: Host, stackId: int, pid: uint32): Json {
    if host.symbolizeEnabled && host.symbolizerOk then Arr(FrameTrees(ShownFrames(host, stackId, pid)))
    else Arr(AddrTrees(ShownAddrs(host, stackId)))
  }

  /** The bytes of one more member in the compact layout. */
  lemma FieldText(ms: seq<Member>, key: string, v: Json)
    ensures RenderMember(Member(key, v), Tight) == "\"" + key + "\":" + Render(v, Tight)
    ensures ms != [] ==>
              RenderMembers(ms + [Member(key, v)], Tight) ==
              RenderMembers(ms, Tight) + (",\"" + key + "\":" + Render(v, Tight))
  {
    hide Render, RenderMembers, Quoted;
    var r := Render(v, Tight);
    Punctuate(key, r);
    assert RenderMember(Member(key, v), Tight) == "\"" + key + "\":" + r;
    hide RenderMember;
    RenderMembersSnoc(ms, Member(key, v), Tight);
    assert "," + "" == ",";
    Cat3(RenderMembers(ms, Tight), ",", "\"" + key + "\":" + r);
  }

  lemma Punctuate(key: string, r: string)
    ensures "" + (Quoted(key) + (":" + ("" + r))) == "\"" + key + "\":" + r
    ensures "," + ("\"" + key + "\":" + r) == ",\"" + key + "\":" + r
  {
  }

  /** emit_stack_json. */
  method EmitStackJson(f: TextFile, host: Host, stackId: int, pid: uint32)
    requires host.Valid()
    modifies f
    ensures f.text == old(f.text) + Render(StackTree(host, stackId, pid), Tight)
  {
    hide UntilZero, Resolved, Render, AddrTrees, FrameTrees;
    var addrs := new uint64[PERF_MAX_STACK_DEPTH];
    var n := ReadStackAddrs(host, stackId, addrs, PERF_MAX_STACK_DEPTH);
    if n == 0 {
      f.Print("[]");
      EmptyStack(host, stackId, pid);
      return;
    }
    if n > host.maxFrames {
      n := host.maxFrames;
    }
    var shown := addrs[..n];
    assert shown == ShownAddrs(host, stackId);
    if !host.symbolizeEnabled || !host.symbolizerOk {
      PrintAddrs(f, shown);
      return;
    }
    var frameCap := n * 4;
    if !host.calloc(frameCap) {
      f.Print("[]");
      EmptyArrays();
      return;
    }
    var frames := ResolveFrames(host, shown, pid, frameCap);
    PrintFrames(f, frames);
  }

  /** The frame array, filled by bsw_resolve and read up to the returned count. */
  method ResolveFrames(host: Host, addrs: seq<uint64>, pid: uint32, frameCap: nat) returns (shown: seq<BswFrame>)
    ensures var all := Resolved(true, addrs, host.symbolize(pid, addrs)); shown == all[..Min(|all|, frameCap)]
    ensures forall x :: x in shown ==> x.Valid()
  {
    hide Resolved, ZeroedFrame;
    var frames := new BswFrame[frameCap](_ => ZeroedFrame(0));
    var outcome := host.symbolize(pid, addrs);
    var nout := BswResolve(true, addrs, outcome, frames, frameCap);
    ResolvedValid(addrs, outcome);
    shown := frames[..nout];
  }

  lemma EmptyArrays()
    ensures Render(Arr(AddrTrees([])), Tight) == Render(Arr(FrameTrees([])), Tight) == "[]"
  {
    assert "[" + ("" + ("" + ("" + "]"))) == "[]";
  }

  lemma EmptyStack(host: Host, stackId: int, pid: uint32)
    requires StackAddrs(host, stackId, PERF_MAX_STACK_DEPTH) == []
    ensures Render(StackTree(host, stackId, pid), Tight) == "[]"
  {
    EmptyArrays();
    assert ShownAddrs(host, stackId) == [];
    var outcome := host.symbolize(pid, []);
    assert Resolved(true, [], outcome) == [];
  }

  lemma ResolvedValid(addrs: seq<uint64>, outcome: Option<seq<Symbolized>>)
    ensures forall x :: x in Resolved(true, addrs, outcome) ==> x.Valid()
  {
    if outcome.Some? {
      FlattenValid(addrs, outcome.value, Min(|addrs|, |outcome.value|));
    }
  }

  method PrintAddrs(f: TextFile, addrs: seq<uint64>)
    modifies f
    ensures f.text == old(f.text) + Render(Arr(AddrTrees(addrs)), Tight)
  {
    hide AddrTrees, Hex, Render, RenderItems;
    f.Print("[");
    NoItems();
    assert addrs[..0] == [];
    var i := 0;
    while i < |addrs|
      invariant i <= |addrs|
      invariant f.text == old(f.text) + ("[" + RenderItems(AddrTrees(addrs[..i]), Tight))
    {
      AddrStep(addrs, i);
      ghost var printed := "[" + RenderItems(AddrTrees(addrs[..i]), Tight);
      f.Print(if i > 0 then "," else "");
      f.Print("{\"addr\":\"0x" + Hex(addrs[i]) + "\"}");
      Cat4(old(f.text), printed, if i > 0 then "," else "", "{\"addr\":\"0x" + Hex(addrs[i]) + "\"}");
      i := i + 1;
    }
    f.Print("]");
    assert addrs[..|addrs|] == addrs;
    ArrayText(AddrTrees(addrs));
  }

  lemma NoItems()
    ensures RenderItems(AddrTrees([]), Tight) == RenderItems(FrameTrees([]), Tight) == ""
  {
  }

  lemma ArrayText(items: seq<Json>)
    ensures Render(Arr(items), Tight) == "[" + RenderItems(items, Tight) + "]"
  {
    var r := RenderItems(items, Tight);
    assert "[" + ("" + (r + ("" + "]"))) == "[" + r + "]";
  }

  lemma AddrStep(addrs: seq<uint64>, i: nat)
    requires i < |addrs|
    ensures "[" + RenderItems(AddrTrees(addrs[..i + 1]), Tight) ==
            "[" + RenderItems(AddrTrees(addrs[..i]), Tight) +
            ((if i > 0 then "," else "") + ("{\"addr\":\"0x" + Hex(addrs[i]) + "\"}"))
  {
    var h := Hex(addrs[i]);
    var item := RenderItem(AddrTree(addrs[i]), Tight);
    assert item == "{\"addr\":\"0x" + h + "\"}" by {
      var m := Member("addr", Str("0x" + h));
      FieldText([], "addr", m.value);
      assert Render(Obj([m]), Tight) == "{" + ("" + (RenderMember(m, Tight) + ("" + "}")));
      AddrPieces(h);
    }
    ItemStep(AddrTrees(addrs[..i]), AddrTree(addrs[i]));
    assert addrs[..i + 1][..i] == addrs[..i];
  }

  lemma AddrPieces(h: string)
    ensures "" + ("{" + ("" + ("\"" + "addr" + "\":" + Quoted("0x" + h) + ("" + "}")))) == "{\"addr\":\"0x" + h + "\"}"
  {
  }

  lemma ItemStep(xs: seq<Json>, x: Json)
    ensures "[" + RenderItems(xs + [x], Tight) ==
            "[" + RenderItems(xs, Tight) + ((if |xs| > 0 then "," else "") + RenderItem(x, Tight))
  {
    hide RenderItem, RenderItems, Render;
    var r, i := RenderItems(xs, Tight), RenderItem(x, Tight);
    var c := if |xs| > 0 then "," else "";
    RenderItemsSnoc(xs, x, Tight);
    assert "," + "" == ",";
    Cat3(r, c, i);
    Cat3("[", r, c + i);
  }

  method PrintFrames(f: TextFile, frames: seq<BswFrame>)
    requires forall x :: x in frames ==> x.Valid()
    modifies f
    ensures f.text == old(f.text) + Render(Arr(FrameTrees(frames)), Tight)
  {
    hide FrameTrees, FrameMembers, Render, RenderItem, RenderItems;
    f.Print("[");
    var escSym, escFile, escLib := new char[ESC_LEN], new char[ESC_LEN], new char[ESC_LEN];
    NoItems();
    assert frames[..0] == [];
    var i := 0;
    while i < |frames|
      invariant i <= |frames|
      invariant f.text == old(f.text) + ("[" + RenderItems(FrameTrees(frames[..i]), Tight))
    {
      var frame := frames[i];
      FrameStep(frames, i);
      ghost var printed := "[" + RenderItems(FrameTrees(frames[..i]), Tight);
      f.Print(if i > 0 then "," else "");
      PrintFrame(f, frame, escSym, escFile, escLib);
      Cat4(old(f.text), printed, if i > 0 then "," else "", RenderItem(Obj(FrameMembers(frame)), Tight));
      i := i + 1;
    }
    f.Print("]");
    assert frames[..|frames|] == frames;
    ArrayText(FrameTrees(frames));
  }

  lemma FrameStep(frames: seq<BswFrame>, i: nat)
    requires i < |frames|
    ensures "[" + RenderItems(FrameTrees(frames[..i + 1]), Tight) ==
            "[" + RenderItems(FrameTrees(frames[..i]), Tight) +
            ((if i > 0 then "," else "") + RenderItem(Obj(FrameMembers(frames[i])), Tight))
  {
    hide FrameMembers, Render;
    assert frames[..i + 1][..i] == frames[..i];
    ItemStep(FrameTrees(frames[..i]), Obj(FrameMembers(frames[i])));
  }

  /** The body of the frame loop, with its three reused buffers. */
  method PrintFrame(f: TextFile, frame: BswFrame, escSym: array<char>, escFile: array<char>, escLib: array<char>)
    requires frame.Valid()
    requires escSym.Length == escFile.Length == escLib.Length == ESC_LEN
    requires escSym != escFile && escFile != escLib && escSym != escLib
    modifies f, escSym, escFile, escLib
    ensures f.text == old(f.text) + RenderItem(Obj(FrameMembers(frame)), Tight)
  {
    hide CStr, SymText, Escaped, FrameMembers, Render, RenderItem;
    SymChoice(frame);
    var sym := EscapeInto(escSym, if frame.sym[0] != '\0' then frame.sym else "??\0");
    var file := EscapeInto(escFile, frame.file);
    var lib := EscapeInto(escLib, frame.lib);
    PrintFields(f, frame, sym, if escFile[0] != '\0' then file else "", if escLib[0] != '\0' then lib else "",
                frame.line, frame.inlined);
  }

  lemma SymChoice(frame: BswFrame)
    requires frame.Valid()
    ensures var src := if frame.sym[0] != '\0' then frame.sym else "??\0";
            '\0' in src && CStr(src) == SymText(frame)
  {
    assert "??\0"[2] == '\0';
    assert CStr("??\0") == "??";
  }

  /** The fprintf calls for one frame. */
  method PrintFields(f: TextFile, ghost frame: BswFrame, sym: string, file: string, lib: string,
                     line: uint32, inlined: nat)
    requires sym == Escaped(SymText(frame), ESC_LEN)
    requires file == Escaped(CStr(frame.file), ESC_LEN) && lib == Escaped(CStr(frame.lib), ESC_LEN)
    requires line == frame.line && inlined == frame.inlined
    modifies f
    ensures f.text == old(f.text) + RenderItem(Obj(FrameMembers(frame)), Tight)
  {
    ghost var start := f.text;
    ghost var m0 := [Member("sym", Str(sym))];
    ghost var m1 := With(m0, file != [], "file", Str(file));
    ghost var m2 := With(m1, frame.line != 0, "line", Num(false, frame.line, ""));
    ghost var m3 := With(m2, lib != [], "lib", Str(lib));
    ghost var flag := if frame.inlined == 0 then 0 else 1;
    ghost var m4 := With(m3, flag != 0, "inlined", Num(false, flag, ""));
    assert Obj(m4) == Obj(FrameMembers(frame));
    hide FrameMembers, Escaped, CStr, SymText;
    ObjectText(start, m4);
    Leads();
    hide Render, RenderItem, RenderMembers, Quoted, Decimal, Opened, With;
    FirstText(start, sym);
    f.Print("{\"sym\":\"" + sym + "\"");
    PrintText(f, ",\"file\":\"", file, start, m0, "file");
    PrintNum(f, ",\"line\":", line, start, m1, "line");
    PrintText(f, ",\"lib\":\"", lib, start, m2, "lib");
    PrintNum(f, ",\"inlined\":", if inlined == 0 then 0 else 1, start, m3, "inlined");
    f.Print("}");
  }

  /** The constant parts of the four optional formats. */
  lemma Leads()
    ensures ",\"file\":\"" == ",\"" + "file" + "\":\""
    ensures ",\"line\":" == ",\"" + "line" + "\":"
    ensures ",\"lib\":\"" == ",\"" + "lib" + "\":\""
    ensures ",\"inlined\":" == ",\"" + "inlined" + "\":"
  {
  }

  /** An optional string field; `lead` is the constant part of its format. */
  method PrintText(f: TextFile, lead: string, body: string, ghost start: string, ghost ms: seq<Member>,
                   ghost key: string)
    requires lead == ",\"" + key + "\":\"" && ms != [] && f.text == Opened(start, ms)
    modifies f
    ensures f.text == Opened(start, With(ms, body != [], key, Str(body)))
    ensures With(ms, body != [], key, Str(body)) != []
  {
    hide Opened;
    OptText(start, ms, key, body);
    if body != "" {
      f.Print(lead + body + "\"");
    }
  }

  /** An optional number field. */
  method PrintNum(f: TextFile, lead: string, n: nat, ghost start: string, ghost ms: seq<Member>, ghost key: string)
    requires lead == ",\"" + key + "\":" && ms != [] && f.text == Opened(start, ms)
    modifies f
    ensures f.text == Opened(start, With(ms, n != 0, key, Num(false, n, "")))
    ensures With(ms, n != 0, key, Num(false, n, "")) != []
  {
    hide Opened;
    OptNum(start, ms, key, n);
    if n != 0 {
      f.Print(lead + Decimal(n));
    }
  }

  /** The stream after an opening brace and some members. */
  function Opened(start: string, ms: seq<Member>): string {
    start + ("{" + RenderMembers(ms, Tight))
  }

  lemma ObjectText(start: string, ms: seq<Member>)
    ensures Opened(start, ms) + "}" == start + RenderItem(Obj(ms), Tight)
  {
    var r := RenderMembers(ms, Tight);
    Cat3(start, "{" + r, "}");
    assert RenderItem(Obj(ms), Tight) == "{" + r + "}" by {
      assert "" + ("{" + ("" + (r + ("" + "}")))) == "{" + r + "}";
    }
  }

  lemma FirstText(start: string, sym: string)
    ensures Opened(start, [Member("sym", Str(sym))]) == start + ("{\"sym\":\"" + sym + "\"")
  {
    FieldText([], "sym", Str(sym));
    var m := "\"" + "sym" + "\":" + Quoted(sym);
    assert "{" + m == "{\"sym\":\"" + sym + "\"";
  }

  lemma OptText(start: string, ms: seq<Member>, key: string, body: string)
    requires ms != []
    ensures var out := Opened(start, With(ms, body != [], key, Str(body)));
            if body == [] then out == Opened(start, ms)
            else out == Opened(start, ms) + (",\"" + key + "\":\"" + body + "\"")
    ensures With(ms, body != [], key, Str(body)) != []
  {
    var field := ",\"" + key + "\":" + Quoted(body);
    FieldText(ms, key, Str(body));
    assert field == ",\"" + key + "\":\"" + body + "\"";
    Cat3("{", RenderMembers(ms, Tight), field);
    Cat3(start, "{" + RenderMembers(ms, Tight), field);
  }

  lemma OptNum(start: string, ms: seq<Member>, key: string, n: nat)
    requires ms != []
    ensures var out := Opened(start, With(ms, n != 0, key, Num(false, n, "")));
            if n == 0 then out == Opened(start, ms) else out == Opened(start, ms) + (",\"" + key + "\":" + Decimal(n))
    ensures With(ms, n != 0, key, Num(false, n, "")) != []
  {
    var field := ",\"" + key + "\":" + Decimal(n);
    FieldText(ms, key, Num(false, n, ""));
    assert Render(Num(false, n, ""), Tight) == Decimal(n) by {
      assert "" + (Decimal(n) + "") == Decimal(n);
    }
    Cat3("{", RenderMembers(ms, Tight), field);
    Cat3(start, "{" + RenderMembers(ms, Tight), field);
  }

  /** json_escape into one of the buffers; `body` is what %s prints from it afterwards. */
  method EscapeInto(esc: array<char>, src: string) returns (body: string)
    requires esc.Length == ESC_LEN && '\0' in src
    modifies esc
    ensures body == Escaped(CStr(src), ESC_LEN) == CStr(esc[..])
    ensures esc[0] == '\0' <==> body == []
  {
    ghost var was := esc[..];
    JsonEscape(esc, ESC_LEN, src);
    body := CStr(esc[..]);
    ghost var e := Escaped(CStr(src), ESC_LEN);
    BufferDecodes(CStr(src), ESC_LEN, was[|e| + 1..]);
  }
}
