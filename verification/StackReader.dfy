// Reading printed stacks back: the JSON text of a stack determines its frames.
module StackReader {

  import opened Types
  import opened Escaping
  import opened JsonText
  import opened Symbolize
  import opened StackJson

  // ---- an independent reader of stack arrays ----

  /** What a consumer of the trace sees of one frame. */
  datatype FrameView = FrameView(sym: string, file: string, line: nat, lib: string, inlined: bool)

  function Find(ms: seq<Member>, key: string): Option<Json> {
    if ms == [] then None
    else if ms[0].key == key then Some(ms[0].value)
    else Find(ms[1..], key)
  }

  /** A string field; absent means empty. */
  function TextField(ms: seq<Member>, key: string): Option<string> {
    match Find(ms, key)
    case None => Some("")
    case Some(Str(body)) => Decode(body)
    case Some(_) => None
  }

  /** A number field; absent means zero. */
  function NumField(ms: seq<Member>, key: string): Option<nat> {
    match Find(ms, key)
    case None => Some(0)
    case Some(Num(neg, whole, frac)) => if neg || frac != [] then None else Some(whole)
    case Some(_) => None
  }

  function ReadFrame(v: Json): Option<FrameView> {
    if !v.Obj? then None
    else
      var sym :- TextField(v.members, "sym");
      var file :- TextField(v.members, "file");
      var line :- NumField(v.members, "line");
      var lib :- TextField(v.members, "lib");
      var inlined :- NumField(v.members, "inlined");
      Some(FrameView(sym, file, line, lib, inlined != 0))
  }

  function HexNumber(s: string): Option<nat> {
    if s == [] then Some(0)
    else if !IsHex(s[|s| - 1]) then None
    else
      var high :- HexNumber(s[..|s| - 1]);
      Some(high * 16 + HexValue(s[|s| - 1]))
  }

  function ReadAddr(v: Json): Option<nat> {
    if !v.Obj? then None
    else
      var text :- TextField(v.members, "addr");
      if "0x" <= text && |text| > 2 then HexNumber(text[2..]) else None
  }

  function ReadAll<T>(items: seq<Json>, read: Json -> Option<T>): Option<seq<T>> {
    if items == [] then Some([])
    else
      var init :- ReadAll(items[..|items| - 1], read);
      var last :- read(items[|items| - 1]);
      Some(init + [last])
  }

  /** Parse a stack array from its text. */
  function ReadStack<T>(text: string, read: Json -> Option<T>): Option<seq<T>> {
    var v :- ReadDocument(text);
    if v.Arr? then ReadAll(v.items, read) else None
  }

  // ---- what should be read ----

  /** The longest prefix whose escape fits the escape buffer. */
  function Fitted(s: string): string {
    s[..Fit(s, Room(ESC_LEN))]
  }

  function ViewOf(frame: BswFrame): FrameView {
    FrameView(Fitted(SymText(frame)), Fitted(CStr(frame.file)), frame.line, Fitted(CStr(frame.lib)), frame.inlined != 0)
  }

  function Views(frames: seq<BswFrame>): seq<FrameView> {
    seq(|frames|, i requires 0 <= i < |frames| => ViewOf(frames[i]))
  }

  // ---- proofs ----

  lemma {:induction false} FindWith(ms: seq<Member>, present: bool, k: string, v: Json, key: string)
    ensures Find(With(ms, present, k, v), key) ==
            if Find(ms, key).Some? then Find(ms, key) else if present && k == key then Some(v) else None
  {
    if ms == [] {
      assert present ==> With(ms, present, k, v) == [Member(k, v)];
    } else {
      FindWith(ms[1..], present, k, v, key);
      assert present ==> (ms + [Member(k, v)])[1..] == ms[1..] + [Member(k, v)];
    }
  }

  lemma EscapedField(s: string)
    ensures Legal(Escaped(s, ESC_LEN)) && Decode(Escaped(s, ESC_LEN)) == Some(Fitted(s))
    ensures Escaped(s, ESC_LEN) == [] ==> Fitted(s) == []
  {
    DecodeEscape(Fitted(s));
  }

  lemma FrameReads(frame: BswFrame)
    ensures ReadFrame(Obj(FrameMembers(frame))) == Some(ViewOf(frame))
  {
    var sym, file, lib := SymText(frame), CStr(frame.file), CStr(frame.lib);
    EscapedField(sym);
    EscapedField(file);
    EscapedField(lib);
    var flag := if frame.inlined == 0 then 0 else 1;
    hide Escaped, Fitted, Decode, SymText, With, Find, Legal, CStr;
    FieldsFound(Escaped(sym, ESC_LEN), Escaped(file, ESC_LEN), frame.line, Escaped(lib, ESC_LEN), flag);
  }

  lemma FieldsFound(sym: string, file: string, line: nat, lib: string, flag: nat)
    ensures var m0 := [Member("sym", Str(sym))];
            var m1 := With(m0, file != [], "file", Str(file));
            var m2 := With(m1, line != 0, "line", Num(false, line, ""));
            var m3 := With(m2, lib != [], "lib", Str(lib));
            var ms := With(m3, flag != 0, "inlined", Num(false, flag, ""));
            && Find(ms, "sym") == Some(Str(sym))
            && Find(ms, "file") == (if file == [] then None else Some(Str(file)))
            && Find(ms, "line") == (if line == 0 then None else Some(Num(false, line, "")))
            && Find(ms, "lib") == (if lib == [] then None else Some(Str(lib)))
            && Find(ms, "inlined") == (if flag == 0 then None else Some(Num(false, flag, "")))
  {
    var keys := ["sym", "file", "line", "lib", "inlined"];
    var m0 := [Member("sym", Str(sym))];
    var m1 := With(m0, file != [], "file", Str(file));
    var m2 := With(m1, line != 0, "line", Num(false, line, ""));
    var m3 := With(m2, lib != [], "lib", Str(lib));
    forall key | key in keys
      ensures Find(m0, key) == if key == "sym" then Some(Str(sym)) else None
    {
      assert m0[1..] == [];
    }
    hide With, Find;
    forall key | key in keys
      ensures Find(m1, key) == if file != [] && key == "file" then Some(Str(file)) else Find(m0, key)
    {
      FindWith(m0, file != [], "file", Str(file), key);
    }
    forall key | key in keys
      ensures Find(m2, key) == if line != 0 && key == "line" then Some(Num(false, line, "")) else Find(m1, key)
    {
      FindWith(m1, line != 0, "line", Num(false, line, ""), key);
    }
    forall key | key in keys
      ensures Find(m3, key) == if lib != [] && key == "lib" then Some(Str(lib)) else Find(m2, key)
    {
      FindWith(m2, lib != [], "lib", Str(lib), key);
    }
    forall key | key in keys {
      FindWith(m3, flag != 0, "inlined", Num(false, flag, ""), key);
    }
    assert keys[0] in keys && keys[1] in keys && keys[2] in keys && keys[3] in keys && keys[4] in keys;
  }

  lemma {:induction false} WellFormedSnoc(ms: seq<Member>, present: bool, key: string, v: Json)
    requires WellFormedMembers(ms) && Legal(key) && WellFormed(v)
    ensures WellFormedMembers(With(ms, present, key, v))
  {
    if ms == [] {
      assert present ==> With(ms, present, key, v)[1..] == [];
    } else {
      WellFormedSnoc(ms[1..], present, key, v);
      assert present ==> (ms + [Member(key, v)])[1..] == ms[1..] + [Member(key, v)];
    }
  }

  lemma FrameWellFormed(frame: BswFrame)
    ensures WellFormed(Obj(FrameMembers(frame)))
  {
    var sym, file, lib := SymText(frame), CStr(frame.file), CStr(frame.lib);
    EscapedField(sym);
    EscapedField(file);
    EscapedField(lib);
    var flag := if frame.inlined == 0 then 0 else 1;
    hide Escaped, Fitted, Decode, SymText, With, Legal;
    FieldsLegal(Escaped(sym, ESC_LEN), Escaped(file, ESC_LEN), frame.line, Escaped(lib, ESC_LEN), flag);
  }

  lemma KeysLegal()
    ensures Legal("sym") && Legal("file") && Legal("line") && Legal("lib") && Legal("inlined")
  {
    hide Legal;
    PlainIsLegal("sym");
    PlainIsLegal("file");
    PlainIsLegal("line");
    PlainIsLegal("lib");
    PlainIsLegal("inlined");
  }

  lemma FieldsLegal(sym: string, file: string, line: nat, lib: string, flag: nat)
    requires Legal(sym) && Legal(file) && Legal(lib)
    ensures var m0 := [Member("sym", Str(sym))];
            var m1 := With(m0, file != [], "file", Str(file));
            var m2 := With(m1, line != 0, "line", Num(false, line, ""));
            var m3 := With(m2, lib != [], "lib", Str(lib));
            WellFormedMembers(With(m3, flag != 0, "inlined", Num(false, flag, "")))
  {
    hide With, Legal, WellFormed, WellFormedMembers;
    KeysLegal();
    LeavesWellFormed(sym, line);
    LeavesWellFormed(file, flag);
    LeavesWellFormed(lib, flag);
    OneMember("sym", Str(sym));
    var m0 := [Member("sym", Str(sym))];
    var m1 := With(m0, file != [], "file", Str(file));
    var m2 := With(m1, line != 0, "line", Num(false, line, ""));
    var m3 := With(m2, lib != [], "lib", Str(lib));
    WellFormedSnoc(m0, file != [], "file", Str(file));
    WellFormedSnoc(m1, line != 0, "line", Num(false, line, ""));
    WellFormedSnoc(m2, lib != [], "lib", Str(lib));
    WellFormedSnoc(m3, flag != 0, "inlined", Num(false, flag, ""));
  }

  lemma LeavesWellFormed(body: string, n: nat)
    requires Legal(body)
    ensures WellFormed(Str(body)) && WellFormed(Num(false, n, ""))
  {
  }

  lemma OneMember(key: string, v: Json)
    requires Legal(key) && WellFormed(v)
    ensures WellFormedMembers([Member(key, v)]) && WellFormed(Obj([Member(key, v)]))
  {
    assert [Member(key, v)][1..] == [];
  }

  lemma {:induction false} ItemsSnoc(xs: seq<Json>, x: Json)
    requires WellFormedItems(xs) && WellFormed(x)
    ensures WellFormedItems(xs + [x])
  {
    if xs != [] {
      ItemsSnoc(xs[1..], x);
      assert (xs + [x])[1..] == xs[1..] + [x];
    }
  }

  lemma ReadAllSnoc<T>(xs: seq<Json>, x: Json, read: Json -> Option<T>, ys: seq<T>, y: T)
    requires ReadAll(xs, read) == Some(ys) && read(x) == Some(y)
    ensures ReadAll(xs + [x], read) == Some(ys + [y])
  {
    assert (xs + [x])[..|xs|] == xs;
  }

  lemma {:induction false} FramesRead(frames: seq<BswFrame>)
    ensures WellFormedItems(FrameTrees(frames))
    ensures ReadAll(FrameTrees(frames), ReadFrame) == Some(Views(frames))
  {
    hide FrameMembers, ReadFrame, ViewOf;
    if frames == [] {
      assert Views(frames) == [];
    } else {
      var init, last := frames[..|frames| - 1], frames[|frames| - 1];
      FramesRead(init);
      FrameReads(last);
      FrameWellFormed(last);
      var tree := Obj(FrameMembers(last));
      assert FrameTrees(frames) == FrameTrees(init) + [tree];
      assert Views(frames) == Views(init) + [ViewOf(last)];
      hide *;
      ItemsSnoc(FrameTrees(init), tree);
      ReadAllSnoc(FrameTrees(init), tree, ReadFrame, Views(init), ViewOf(last));
    }
  }

  lemma {:induction false} HexReads(n: nat)
    ensures HexNumber(Hex(n)) == Some(n)
  {
    var s := Hex(n);
    if n < 16 {
      assert s[..|s| - 1] == [];
    } else {
      HexReads(n / 16);
      assert s[..|s| - 1] == Hex(n / 16);
    }
  }

  lemma AddrReads(addr: uint64)
    ensures ReadAddr(AddrTree(addr)) == Some(addr as nat) && WellFormed(AddrTree(addr))
  {
    hide Hex, HexNumber, Legal, Decode, Plain, WellFormed, TextField;
    var h := Hex(addr);
    var body := "0x" + h;
    HexReads(addr);
    HexBody(addr);
    PlainDecodes(body);
    PlainIsLegal(body);
    AddrKey();
    LeavesWellFormed(body, 0);
    OneMember("addr", Str(body));
    AddrField(body);
  }

  lemma AddrKey()
    ensures Legal("addr")
  {
    hide Legal;
    PlainIsLegal("addr");
  }

  lemma HexBody(addr: uint64)
    ensures var body := "0x" + Hex(addr); Plain(body) && "0x" <= body && |body| > 2 && body[2..] == Hex(addr)
  {
    HexPlain(Hex(addr));
  }

  lemma AddrField(body: string)
    requires Decode(body) == Some(body)
    ensures TextField([Member("addr", Str(body))], "addr") == Some(body)
  {
    hide Decode;
    assert Find([Member("addr", Str(body))], "addr") == Some(Str(body));
  }

  lemma HexPlain(h: string)
    requires forall c :: c in h ==> IsHex(c)
    ensures Plain("0x" + h)
  {
    var body := "0x" + h;
    forall i | 0 <= i < |body| ensures NeedsNoEscape(body[i]) {
      assert i >= 2 ==> body[i] == h[i - 2] && h[i - 2] in h;
    }
  }

  lemma {:induction false} AddrsRead(addrs: seq<uint64>)
    ensures WellFormedItems(AddrTrees(addrs))
    ensures ReadAll(AddrTrees(addrs), ReadAddr) == Some(addrs)
  {
    hide AddrTree, ReadAddr;
    if addrs != [] {
      var init, last := addrs[..|addrs| - 1], addrs[|addrs| - 1];
      AddrsRead(init);
      AddrReads(last);
      assert AddrTrees(addrs) == AddrTrees(init) + [AddrTree(last)];
      assert init + [last] == addrs;
      hide *;
      ItemsSnoc(AddrTrees(init), AddrTree(last));
      ReadAllSnoc<nat>(AddrTrees(init), AddrTree(last), ReadAddr, init, last);
    }
  }

  /** The text printed for a stack is one JSON array, and parsing it gives back the shown frames
      (or, without symbols, exactly the shown addresses). */
  lemma StackRoundTrip(host: Host, stackId: int, pid: uint32)
    ensures var text := Render(StackTree(host, stackId, pid), Tight);
            && WellFormed(StackTree(host, stackId, pid))
            && (if host.symbolizeEnabled && host.symbolizerOk then
                  ReadStack(text, ReadFrame) == Some(Views(ShownFrames(host, stackId, pid)))
                else
                  ReadStack(text, ReadAddr) == Some(ShownAddrs(host, stackId)))
  {
    var tree := StackTree(host, stackId, pid);
    FramesRead(ShownFrames(host, stackId, pid));
    AddrsRead(ShownAddrs(host, stackId));
    hide ReadFrame, ReadAddr, ReadAll, FrameTrees, AddrTrees, ShownFrames, ShownAddrs, Views, Render;
    ReadsBackIffWellFormed(tree, Tight, "");
    assert Render(tree, Tight) + "" == Render(tree, Tight);
  }

  /** At most four frames per address survive, and nothing is lost when the expansion fits. */
  lemma {:induction false} FrameBound(host: Host, stackId: int, pid: uint32)
    ensures |ShownFrames(host, stackId, pid)| <=
            4 * Min(|StackAddrs(host, stackId, PERF_MAX_STACK_DEPTH)|, host.maxFrames)
    ensures var addrs := ShownAddrs(host, stackId);
            var all := Resolved(true, addrs, host.symbolize(pid, addrs));
            host.calloc(4 * |addrs|) ==>
              (ShownFrames(host, stackId, pid) == all <==> |all| <= 4 * |addrs|)
  {
    var addrs := ShownAddrs(host, stackId);
    var all := Resolved(true, addrs, host.symbolize(pid, addrs));
    assert all[..|all|] == all;
  }

  /** One entry is printed for each frame, or for each address. */
  lemma EntriesLong(host: Host, stackId: int, pid: uint32)
    ensures StackTree(host, stackId, pid).Arr?
    ensures |StackTree(host, stackId, pid).items| ==
            if host.symbolizeEnabled && host.symbolizerOk then |ShownFrames(host, stackId, pid)|
            else |ShownAddrs(host, stackId)|
  {
    hide ShownFrames, ShownAddrs;
  }

  /** The number of entries printed for a stack. */
  function EntryCount(host: Host, stackId: int, pid: uint32): nat {
    var tree := StackTree(host, stackId, pid);
    if tree.Arr? then |tree.items| else 0
  }

  /** "Truncate to N frames": the array printed for a stack has at most N entries exactly when it holds
      raw addresses, or the frame array could not be allocated, or the whole expansion has at most N
      frames, or even four frames per shown address are at most N. */
  lemma FrameLimitIff(host: Host, stackId: int, pid: uint32)
    ensures var addrs, tree := ShownAddrs(host, stackId), StackTree(host, stackId, pid);
            var all := Resolved(true, addrs, host.symbolize(pid, addrs));
            && tree.Arr? && EntryCount(host, stackId, pid) == |tree.items|
            && (|tree.items| <= host.maxFrames <==>
                || !(host.symbolizeEnabled && host.symbolizerOk) || !host.calloc(4 * |addrs|)
                || |all| <= host.maxFrames || 4 * |addrs| <= host.maxFrames)
  {
    hide StackTree, Resolved;
    EntriesLong(host, stackId, pid);
  }

  type Symbolizer = (uint32, seq<uint64>) -> Option<seq<Symbolized>>

  /** A symbolizer that reports three inlined functions for every address. */
  function Inlining(): Symbolizer {
    (_, addrs: seq<uint64>) => Some(ThreeEach(|addrs|))
  }

  function ThreeEach(n: nat): (r: seq<Symbolized>)
    ensures |r| == n
  {
    var fn := InlinedFn("g", None);
    seq(n, _ => Sym("f", None, None, [fn, fn, fn]))
  }

  lemma {:induction false} FourEach(addrs: seq<uint64>, n: nat)
    requires n <= |addrs|
    ensures |Flatten(addrs, ThreeEach(|addrs|), n)| == 4 * n
  {
    hide Flatten, ThreeEach, Expand;
    FourOf();
    NoneFlat(addrs, ThreeEach(|addrs|));
    if n > 0 {
      FourEach(addrs, n - 1);
      FlattenStep(addrs, ThreeEach(|addrs|), n - 1);
      AllThree(|addrs|, n - 1);
    }
  }

  lemma NoneFlat(addrs: seq<uint64>, results: seq<Symbolized>)
    ensures Flatten(addrs, results, 0) == []
  {
  }

  lemma AllThree(n: nat, i: nat)
    requires i < n
    ensures ThreeEach(n)[i] == ThreeEach(1)[0]
  {
  }

  lemma FourOf()
    ensures forall addr: uint64 :: |Expand(addr, ThreeEach(1)[0])| == 4
  {
    hide FillFrame, InlinedFrame;
  }

  /** What a caller can check beforehand: where frames are printed, the limit holds for every answer of
      the symbolizer exactly when it is at least four times the number of shown addresses. */
  lemma LimitHoldsForEveryAnswer(host: Host, stackId: int, pid: uint32)
    ensures (forall f: Symbolizer :: EntryCount(host.(symbolize := f), stackId, pid) <= host.maxFrames) <==>
            || !(host.symbolizeEnabled && host.symbolizerOk) || !host.calloc(4 * |ShownAddrs(host, stackId)|)
            || 4 * |ShownAddrs(host, stackId)| <= host.maxFrames
  {
    var addrs := ShownAddrs(host, stackId);
    forall f: Symbolizer
      ensures EntryCount(host.(symbolize := f), stackId, pid) <= host.maxFrames <==>
              || !(host.symbolizeEnabled && host.symbolizerOk) || !host.calloc(4 * |addrs|)
              || |Resolved(true, addrs, f(pid, addrs))| <= host.maxFrames || 4 * |addrs| <= host.maxFrames
    {
      FrameLimitIff(host.(symbolize := f), stackId, pid);
      assert ShownAddrs(host.(symbolize := f), stackId) == addrs;
    }
    FourEach(addrs, |addrs|);
    var worst := Inlining();
    hide ShownAddrs, Flatten, EntryCount;
    assert |Resolved(true, addrs, worst(pid, addrs))| == 4 * |addrs|;
  }

  /** Such stacks exist: with a limit of 1, four frames are shown. */
  lemma LimitIsOnAddresses() returns (host: Host)
    ensures host.Valid() && host.maxFrames == 1 && |ShownFrames(host, 0, 0)| == EntryCount(host, 0, 0) == 4
  {
    var stack: seq<uint64> := [1] + seq(PERF_MAX_STACK_DEPTH - 1, _ => 0);
    host := Host(0, _ => Some(stack), true, true, 1, _ => true, Inlining());
    assert UntilZero(stack) == [1] by {
      assert stack[1..][0] == 0;
    }
    assert ShownAddrs(host, 0) == [1];
    FourEach([1], 1);
  }

  // ---- what survives of a name from the symbolizer to the reader ----

  /** No NUL, no control byte. */
  predicate Clean(s: string) {
    forall i :: 0 <= i < |s| ==> s[i] >= ' '
  }

  lemma {:induction false} CleanAtMostDoubles(s: string)
    requires Clean(s)
    ensures |Escape(s)| <= 2 * |s|
  {
    if s != [] {
      CleanAtMostDoubles(s[1..]);
    }
  }

  /** What of a string reaches a reader of the trace: copied to a frame, escaped into the bounded
      buffer, printed and decoded. */
  function Seen(s: string): string {
    Fitted(CStr(Cut(s)))
  }

  lemma {:induction false} CStrStopsAtNul(a: string, tail: string)
    ensures CStr(a + ['\0'] + tail) == CStr(a)
  {
    var t := a + ['\0'] + tail;
    if a != [] {
      assert t[0] == a[0] && t[1..] == a[1..] + ['\0'] + tail;
      CStrStopsAtNul(a[1..], tail);
    }
  }

  lemma BufferHolds(s: string)
    ensures CStr(Buffer(s)) == CStr(Cut(s)) && Fitted(CStr(Buffer(s))) == Seen(s)
  {
    var zeroes := seq(STR_MAX, _ => '\0');
    CStrStopsAtNul(Cut(s), zeroes[|Cut(s)| + 1..]);
  }

  /** The two bounded copies in a row lose no more than the first one does exactly when what the first
      one kept has no NUL and its escape fits 1022 bytes. */
  lemma TwoCopiesExact(s: string)
    ensures Fitted(CStr(Buffer(s))) == Cut(s) <==> '\0' !in Cut(s) && |Escape(Cut(s))| <= ESC_LEN - 2
  {
    var c := Cut(s);
    BufferHolds(s);
    if '\0' in c {
      assert |CStr(c)| < |c| by {
        assert |CStr(c)| == |c| ==> CStr(c) == c;
      }
    } else {
      NoNul(c);
      LosslessIffFits(c, ESC_LEN);
      assert c[..|c|] == c;
    }
  }

  lemma NoNul(s: string)
    requires '\0' !in s
    ensures CStr(s) == s
  {
  }

  /** Without control bytes that is always so: 2 * 511 == 1024 - 2. */
  lemma CleanTextSurvives(s: string)
    requires Clean(s)
    ensures Fitted(CStr(Buffer(s))) == Seen(s) == Cut(s)
  {
    BufferHolds(s);
    assert Clean(Cut(s));
    assert '\0' !in Cut(s);
    CleanAtMostDoubles(Cut(s));
    TwoCopiesExact(s);
  }

  /** The bound has no slack: 511 quotes fill the buffer, and control bytes overflow it. */
  lemma BoundIsTight()
    ensures |Escape(seq(STR_MAX - 1, _ => '"'))| == ESC_LEN - 2
    ensures var s := seq(STR_MAX - 1, _ => '\n'); Fitted(CStr(Buffer(s))) != Cut(s)
  {
    var quotes := seq(STR_MAX - 1, _ => '"');
    var breaks := seq(STR_MAX - 1, _ => '\n');
    EscapeLength(quotes, '"');
    EscapeLength(breaks, '\n');
    TwoCopiesExact(breaks);
    assert Cut(breaks) == breaks;
  }

  lemma {:induction false} EscapeLength(s: string, c: char)
    requires forall i :: 0 <= i < |s| ==> s[i] == c
    ensures |Escape(s)| == |s| * |EscapeChar(c)|
  {
    if s != [] {
      EscapeLength(s[1..], c);
    }
  }

  /** What a reader sees of a source file, and of a line. */
  function SeenFile(code: Option<CodeInfo>): string {
    if code.Some? && code.value.file.Some? then Seen(Basename(code.value.file.value)) else ""
  }

  function SeenLine(code: Option<CodeInfo>): nat {
    if code.Some? && code.value.line.Some? then code.value.line.value else 0
  }

  function SeenName(name: string): string {
    if CStr(Cut(name)) == "" then "??" else Seen(name)
  }

  lemma EmptySeen()
    ensures Seen("") == "" && Fitted("??") == "??" && SeenName("??") == "??"
  {
    CleanTextSurvives("");
    CleanTextSurvives("??");
    LosslessIffFits("??", ESC_LEN);
    CleanAtMostDoubles("??");
    NoNul("??");
    assert "??"[..2] == "??";
  }

  lemma CodeView(frame: BswFrame, code: Option<CodeInfo>)
    requires frame.Valid() && frame.file == Buffer("") && frame.line == 0
    ensures var f := WithCode(frame, code);
            && f.sym == frame.sym && f.lib == frame.lib
            && Fitted(CStr(f.file)) == SeenFile(code) && f.line == SeenLine(code)
  {
    hide Buffer, Fitted, CStr, Basename;
    EmptySeen();
    BufferHolds("");
    if code.Some? && code.value.file.Some? {
      BufferHolds(Basename(code.value.file.value));
    }
  }

  /** End to end for one resolved symbol, whatever bytes its strings hold: what a reader of the trace
      sees. */
  lemma {:induction false} SymbolView(addr: uint64, s: Symbolized)
    requires s.Sym?
    ensures ViewOf(FillFrame(ZeroedFrame(addr), s)) == FrameView(
              SeenName(s.name), SeenFile(s.code), SeenLine(s.code),
              if s.lib.Some? then Seen(Basename(s.lib.value)) else "", false)
  {
    hide Buffer, Fitted, CStr, Basename, SeenFile, SeenLine;
    EmptySeen();
    CodeView(ZeroedFrame(addr).(sym := Buffer(s.name)), s.code);
    hide WithCode;
    BufferHolds("");
    BufferHolds(s.name);
    if s.lib.Some? {
      BufferHolds(Basename(s.lib.value));
    }
  }

  /** End to end for an inlined function: its own name and position, no library, marked inlined; and
      for an unknown address. */
  lemma {:induction false} InlinedView(addr: uint64, fn: InlinedFn)
    ensures ViewOf(InlinedFrame(addr, fn)) ==
            FrameView(SeenName(fn.name), SeenFile(fn.code), SeenLine(fn.code), "", true)
    ensures ViewOf(UnknownFrame(addr)) == FrameView("??", "", 0, "", false)
  {
    hide Buffer, Fitted, CStr, Basename, SeenFile, SeenLine;
    EmptySeen();
    CodeView(ZeroedFrame(addr).(inlined := 1, sym := Buffer(fn.name)), fn.code);
    hide WithCode;
    BufferHolds("");
    BufferHolds("??");
    BufferHolds(fn.name);
  }
}
