// The emit loop of output_chrome_tracing_json (src/user/unified_trace.c), which keeps its pairing
// state in cpu_on_time, output_count and thread_name_written, and prints exactly FileText.
module Emitter {

  import opened Types
  import opened JsonText
  import opened StackJson
  import opened Collector
  import opened ChromeTrace
  import opened StreamRows
  import opened TraceProofs

  const HEADER: string := "{\n  \"traceEvents\": [\n"

  /** The file after the header and some records. */
  function Progress(host: Host, rs: seq<Record>): string {
    HEADER + RenderItems(RecordTrees(host, rs), EventList)
  }

  // ---- the pieces of a record's format string ----

  /** printf's %.3f of a nanosecond count divided by 1000. */
  function MicrosText(ns: nat): string {
    Decimal(ns / 1000) + "." + [Digit(ns / 100 % 10), Digit(ns / 10 % 10), Digit(ns % 10)]
  }

  /** printf's %d. */
  function SignedText(n: int): string {
    if n < 0 then "-" + Decimal(-n) else Decimal(n)
  }

  lemma ValueTexts(n: nat, i: int, l: Layout)
    ensures Render(Int(n), l) == Decimal(n)
    ensures Render(Micros(n), l) == MicrosText(n)
    ensures Render(Signed(i), l) == SignedText(i)
    ensures Render(Word("true"), l) == "true"
  {
    NumText(n, l);
    var d := Decimal(n / 1000);
    var digits := [Digit(n / 100 % 10), Digit(n / 10 % 10), Digit(n % 10)];
    assert "" + (d + ("." + digits)) == d + "." + digits;
    assert i < 0 ==> "-" + (Decimal(-i) + "") == "-" + Decimal(-i);
    assert i >= 0 ==> "" + (Decimal(i) + "") == Decimal(i);
  }

  /** The file after `start`, an opening brace and some members. */
  function OpenLine(start: string, ms: seq<Member>): string {
    start + ("{" + RenderMembers(ms, Line))
  }

  lemma FirstOnLine(start: string, key: string, v: Json)
    ensures OpenLine(start, [Member(key, v)]) == start + ("{\"" + key + "\": " + Render(v, Line.Inner(key)))
  {
    var r := Render(v, Line.Inner(key));
    assert RenderMembers([Member(key, v)], Line) == "" + (Quoted(key) + (":" + (" " + r)));
    hide Render, RenderMembers;
    assert "{" + ("" + (Quoted(key) + (":" + (" " + r)))) == "{\"" + key + "\": " + r;
  }

  lemma NextOnLine(start: string, ms: seq<Member>, key: string, v: Json)
    requires ms != []
    ensures OpenLine(start, ms + [Member(key, v)]) ==
            OpenLine(start, ms) + (", \"" + key + "\": " + Render(v, Line.Inner(key)))
  {
    var m := RenderMembers(ms, Line);
    var r := Render(v, Line.Inner(key));
    RenderMembersSnoc(ms, Member(key, v), Line);
    assert RenderMember(Member(key, v), Line) == "" + (Quoted(key) + (":" + (" " + r)));
    hide RenderMember, RenderMembers, Render;
    assert ("," + " ") + ("" + (Quoted(key) + (":" + (" " + r)))) == ", \"" + key + "\": " + r;
    Cat3(m, "," + " ", "" + (Quoted(key) + (":" + (" " + r))));
    Cat3("{", m, ", \"" + key + "\": " + r);
    Cat3(start, "{" + m, ", \"" + key + "\": " + r);
  }

  /** One more member; `lead` is the constant part of its format. */
  method Field(f: TextFile, lead: string, text: string, ghost start: string, ghost ms: seq<Member>, ghost key: string,
               ghost v: Json)
    requires ms != [] && f.text == OpenLine(start, ms)
    requires lead == ", \"" + key + "\": " && text == Render(v, Line.Inner(key))
    modifies f
    ensures f.text == OpenLine(start, ms + [Member(key, v)])
  {
    hide *;
    NextOnLine(start, ms, key, v);
    f.Print(lead + text);
  }

  /** The beginning of the arguments. */
  method OpenArgs(f: TextFile, lead: string, text: string, ghost key: string, ghost v: Json)
    requires lead == ", \"args\": {\"" + key + "\": " && text == Render(v, Line.Inner(key))
    modifies f
    ensures f.text == OpenLine(old(f.text) + ", \"args\": ", [Member(key, v)])
  {
    hide *;
    FirstOnLine(f.text + ", \"args\": ", key, v);
    f.Print(lead + text);
    ArgsLead(old(f.text), key, text);
  }

  lemma ArgsLead(t: string, key: string, text: string)
    ensures t + (", \"args\": {\"" + key + "\": " + text) == t + ", \"args\": " + ("{\"" + key + "\": " + text)
  {
    assert ", \"args\": {\"" == ", \"args\": " + "{\"";
    assert ", \"args\": {\"" + key + "\": " + text == ", \"args\": " + ("{\"" + key + "\": " + text);
  }

  lemma HeadLeads()
    ensures ", \"cat\": " == ", \"" + "cat" + "\": "
    ensures ", \"ph\": " == ", \"" + "ph" + "\": "
    ensures ", \"ts\": " == ", \"" + "ts" + "\": "
    ensures ", \"dur\": " == ", \"" + "dur" + "\": "
    ensures ", \"pid\": " == ", \"" + "pid" + "\": "
    ensures ", \"tid\": " == ", \"" + "tid" + "\": "
    ensures ", \"s\": " == ", \"" + "s" + "\": "
  {
  }

  lemma HeadValues(l: Layout)
    ensures Render(Str("M"), l) == "\"M\"" && Render(Str("B"), l) == "\"B\"" && Render(Str("E"), l) == "\"E\""
    ensures Render(Str("i"), l) == "\"i\"" && Render(Str("X"), l) == "\"X\"" && Render(Str("t"), l) == "\"t\""
    ensures Render(Str("cpu"), l) == "\"cpu\""
  {
  }

  lemma ArgLeads()
    ensures ", \"args\": {\"name\": " == ", \"args\": {\"" + "name" + "\": "
    ensures ", \"args\": {\"cpu\": " == ", \"args\": {\"" + "cpu" + "\": "
    ensures ", \"args\": {\"duration_us\": " == ", \"args\": {\"" + "duration_us" + "\": "
    ensures ", \"args\": {\"ret\": " == ", \"args\": {\"" + "ret" + "\": "
    ensures ", \"comm\": " == ", \"" + "comm" + "\": "
    ensures ", \"state\": " == ", \"" + "state" + "\": "
  {
  }

  lemma GpuLeads()
    ensures ", \"stream_id\": " == ", \"" + "stream_id" + "\": "
    ensures ", \"async\": " == ", \"" + "async" + "\": "
    ensures ", \"size_bytes\": " == ", \"" + "size_bytes" + "\": "
    ensures ", \"size\": " == ", \"" + "size" + "\": "
    ensures ", \"ptr\": " == ", \"" + "ptr" + "\": "
  {
  }

  lemma FirstPiece(start: string, name: string)
    ensures start + ("    {\"name\": \"" + name + "\"") == OpenLine(start + "    ", [Member("name", Str(name))])
  {
    FirstOnLine(start + "    ", "name", Str(name));
    StrText(name, Line);
    hide OpenLine, Render;
    assert start + ("    {\"name\": \"" + name + "\"") ==
           start + "    " + ("{\"" + "name" + "\": " + ("\"" + name + "\""));
  }

  // ---- the parts of a record ----

  /** The common beginning of the three kinds of CPU records. */
  method PrintCpuHead(f: TextFile, name: string, ph: string, phText: string, ts: uint64, pid: uint32, tid: uint32)
    requires phText == Render(Str(ph), Line)
    modifies f
    ensures f.text == OpenLine(old(f.text) + "    ", CpuHead(name, ph, ts, pid, tid))
  {
    hide OpenLine, Render, Int, Micros, MicrosText, Decimal;
    ghost var start := f.text + "    ";
    FirstPiece(f.text, name);
    HeadLeads();
    HeadValues(Line);
    ValueTexts(ts, 0, Line);
    ValueTexts(pid, 0, Line);
    ValueTexts(tid, 0, Line);
    f.Print("    {\"name\": \"" + name + "\"");
    ghost var ms := [Member("name", Str(name))];
    Field(f, ", \"cat\": ", "\"cpu\"", start, ms, "cat", Str("cpu"));
    ms := ms + [Member("cat", Str("cpu"))];
    Field(f, ", \"ph\": ", phText, start, ms, "ph", Str(ph));
    ms := ms + [Member("ph", Str(ph))];
    Field(f, ", \"ts\": ", MicrosText(ts), start, ms, "ts", Micros(ts));
    ms := ms + [Member("ts", Micros(ts))];
    Field(f, ", \"pid\": ", Decimal(pid), start, ms, "pid", Int(pid));
    ms := ms + [Member("pid", Int(pid))];
    Field(f, ", \"tid\": ", Decimal(tid), start, ms, "tid", Int(tid));
    assert ms + [Member("tid", Int(tid))] == CpuHead(name, ph, ts, pid, tid);
  }

  /** The optional stack. */
  method PrintStack(f: TextFile, host: Host, s: Option<StackRef>, ghost start: string, ghost args: seq<Member>)
    requires host.Valid() && args != [] && f.text == OpenLine(start, args)
    modifies f
    ensures f.text == OpenLine(start, args + StackMember(host, s))
  {
    hide OpenLine, Render, StackTree;
    match s {
      case None =>
        assert args + [] == args;
      case Some(ref) =>
        ghost var tree := StackTree(host, ref.stackId, ref.pid);
        StackLead();
        NextOnLine(start, args, "stack", tree);
        f.Print(", \"stack\": ");
        EmitStackJson(f, host, ref.stackId, ref.pid);
        Cat3(OpenLine(start, args), ", \"stack\": ", Render(tree, Tight));
    }
  }

  lemma StackLead()
    ensures ", \"stack\": " == ", \"" + "stack" + "\": " && Line.Inner("stack") == Tight
  {
  }

  /** The closing braces of the arguments and of the record. */
  method CloseRecord(f: TextFile, ghost start: string, ghost head: seq<Member>, ghost args: seq<Member>)
    requires head != [] && f.text == OpenLine(OpenLine(start + "    ", head) + ", \"args\": ", args)
    modifies f
    ensures f.text == start + RenderItem(Obj(head + [Member("args", Obj(args))]), EventList)
  {
    hide *;
    f.Print("}}");
    ArgsText(start, head, args);
  }

  lemma ArgsText(start: string, head: seq<Member>, args: seq<Member>)
    requires head != []
    ensures OpenLine(OpenLine(start + "    ", head) + ", \"args\": ", args) + "}}" ==
            start + RenderItem(Obj(head + [Member("args", Obj(args))]), EventList)
  {
    var h := OpenLine(start + "    ", head);
    NextOnLine(start + "    ", head, "args", Obj(args));
    ObjLine(args);
    ObjLine(head + [Member("args", Obj(args))]);
    ItemText(head + [Member("args", Obj(args))], start);
    ArgsInner();
    hide Render, RenderMembers, RenderItem;
    var m := RenderMembers(args, Line);
    assert h + ", \"args\": " + ("{" + m) + "}}" == h + (", \"args\": " + ("{" + m + "}")) + "}";
  }

  lemma ArgsInner()
    ensures Line.Inner("args") == Line && ", \"" + "args" + "\": " == ", \"args\": "
  {
  }

  lemma ItemText(ms: seq<Member>, start: string)
    ensures start + RenderItem(Obj(ms), EventList) == OpenLine(start + "    ", ms) + "}"
  {
    ObjLine(ms);
    hide Render, RenderMembers;
    var m := RenderMembers(ms, Line);
    assert start + ("    " + ("{" + m + "}")) == start + "    " + ("{" + m) + "}";
  }

  lemma ObjLine(ms: seq<Member>)
    ensures Render(Obj(ms), Line) == "{" + RenderMembers(ms, Line) + "}"
  {
    var m := RenderMembers(ms, Line);
    hide RenderMembers;
    assert "{" + ("" + (m + ("" + "}"))) == "{" + m + "}";
  }

  // ---- the five kinds of records ----

  method PrintThreadName(f: TextFile, host: Host, pid: uint32, tid: uint32, title: string)
    modifies f
    ensures f.text == old(f.text) + RenderItem(RecordTree(host, ThreadName(pid, tid, title)), EventList)
  {
    hide OpenLine, Render, RenderItem, Int, Micros, Decimal;
    ghost var start := f.text;
    FirstPiece(start, "thread_name");
    HeadLeads();
    ArgLeads();
    HeadValues(Line);
    ValueTexts(pid, 0, Line);
    ValueTexts(tid, 0, Line);
    StrText(title, Line);
    ThreadNamePiece();
    f.Print("    {\"name\": \"thread_name\"");
    ghost var ms := [Member("name", Str("thread_name"))];
    Field(f, ", \"ph\": ", "\"M\"", start + "    ", ms, "ph", Str("M"));
    ms := ms + [Member("ph", Str("M"))];
    Field(f, ", \"pid\": ", Decimal(pid), start + "    ", ms, "pid", Int(pid));
    ms := ms + [Member("pid", Int(pid))];
    Field(f, ", \"tid\": ", Decimal(tid), start + "    ", ms, "tid", Int(tid));
    ms := ms + [Member("tid", Int(tid))];
    assert ms == HeadMembers(ThreadName(pid, tid, title));
    OpenArgs(f, ", \"args\": {\"name\": ", "\"" + title + "\"", "name", Str(title));
    CloseRecord(f, start, ms, [Member("name", Str(title))]);
    assert [Member("name", Str(title))] + [] == [Member("name", Str(title))];
  }

  lemma ThreadNamePiece()
    ensures "    {\"name\": \"thread_name\"" == "    {\"name\": \"" + "thread_name" + "\""
  {
  }

  method PrintBegin(f: TextFile, host: Host, r: Record)
    requires host.Valid() && r.Begin?
    modifies f
    ensures f.text == old(f.text) + RenderItem(RecordTree(host, r), EventList)
  {
    hide OpenLine, Render, RenderItem, Int, Micros, Decimal, CpuHead, StackMember;
    ghost var start := f.text;
    ArgLeads();
    HeadValues(Line);
    ValueTexts(r.cpu, 0, Line);
    StrText(r.comm, Line);
    CpuHeadShape("On-CPU", "B", r.ts, r.pid, r.tid);
    PrintCpuHead(f, "On-CPU", "B", "\"B\"", r.ts, r.pid, r.tid);
    ghost var args := OpenLine(start + "    ", HeadMembers(r)) + ", \"args\": ";
    OpenArgs(f, ", \"args\": {\"cpu\": ", Decimal(r.cpu), "cpu", Int(r.cpu));
    Field(f, ", \"comm\": ", "\"" + r.comm + "\"", args, [Member("cpu", Int(r.cpu))], "comm", Str(r.comm));
    assert [Member("cpu", Int(r.cpu))] + [Member("comm", Str(r.comm))] == ArgMembers(r);
    PrintStack(f, host, r.stack, args, ArgMembers(r));
    CloseRecord(f, start, HeadMembers(r), ArgMembers(r) + StackMember(host, r.stack));
  }

  lemma CpuHeadShape(name: string, ph: string, ts: uint64, pid: uint32, tid: uint32)
    ensures CpuHead(name, ph, ts, pid, tid) != []
  {
  }

  method PrintEnd(f: TextFile, host: Host, r: Record)
    requires r.End?
    modifies f
    ensures f.text == old(f.text) + RenderItem(RecordTree(host, r), EventList)
  {
    hide OpenLine, Render, RenderItem, Int, Micros, MicrosText, Decimal, CpuHead;
    ghost var start := f.text;
    ArgLeads();
    HeadValues(Line);
    ValueTexts(r.durationNs, 0, Line);
    ValueTexts(r.state, 0, Line);
    CpuHeadShape("On-CPU", "E", r.ts, r.pid, r.tid);
    PrintCpuHead(f, "On-CPU", "E", "\"E\"", r.ts, r.pid, r.tid);
    ghost var args := OpenLine(start + "    ", HeadMembers(r)) + ", \"args\": ";
    OpenArgs(f, ", \"args\": {\"duration_us\": ", MicrosText(r.durationNs), "duration_us", Micros(r.durationNs));
    Field(f, ", \"state\": ", Decimal(r.state), args, [Member("duration_us", Micros(r.durationNs))], "state",
          Int(r.state));
    assert [Member("duration_us", Micros(r.durationNs))] + [Member("state", Int(r.state))] == ArgMembers(r);
    assert ArgMembers(r) + [] == ArgMembers(r);
    CloseRecord(f, start, HeadMembers(r), ArgMembers(r));
  }

  method PrintWakeup(f: TextFile, host: Host, r: Record)
    requires r.Wakeup?
    modifies f
    ensures f.text == old(f.text) + RenderItem(RecordTree(host, r), EventList)
  {
    hide OpenLine, Render, RenderItem, CpuHead;
    ghost var start := f.text;
    HeadLeads();
    HeadValues(Line);
    CpuHeadShape("Wakeup", "i", r.ts, r.pid, r.tid);
    PrintCpuHead(f, "Wakeup", "i", "\"i\"", r.ts, r.pid, r.tid);
    Field(f, ", \"s\": ", "\"t\"", start + "    ", CpuHead("Wakeup", "i", r.ts, r.pid, r.tid), "s", Str("t"));
    f.Print("}");
    ItemText(HeadMembers(r), start);
  }

  /** The members in front of the arguments of a slice. */
  method PrintGpuHead(f: TextFile, r: Record)
    requires r.Complete?
    modifies f
    ensures f.text == OpenLine(old(f.text) + "    ", HeadMembers(r))
  {
    hide OpenLine, Render, Int, Micros, MicrosText, Decimal, OpName, OpCategory, CpuHead;
    var g := r.gpu;
    ghost var start := f.text + "    ";
    FirstPiece(f.text, OpName(g.opType));
    HeadLeads();
    HeadValues(Line);
    StrText(OpCategory(g.opType), Line);
    ValueTexts(r.ts, 0, Line);
    ValueTexts(g.durationNs, 0, Line);
    ValueTexts(r.pid, 0, Line);
    ValueTexts(r.tid, 0, Line);
    f.Print("    {\"name\": \"" + OpName(g.opType) + "\"");
    ghost var ms := [Member("name", Str(OpName(g.opType)))];
    Field(f, ", \"cat\": ", "\"" + OpCategory(g.opType) + "\"", start, ms, "cat", Str(OpCategory(g.opType)));
    ms := ms + [Member("cat", Str(OpCategory(g.opType)))];
    Field(f, ", \"ph\": ", "\"X\"", start, ms, "ph", Str("X"));
    ms := ms + [Member("ph", Str("X"))];
    Field(f, ", \"ts\": ", MicrosText(r.ts), start, ms, "ts", Micros(r.ts));
    ms := ms + [Member("ts", Micros(r.ts))];
    Field(f, ", \"dur\": ", MicrosText(g.durationNs), start, ms, "dur", Micros(g.durationNs));
    ms := ms + [Member("dur", Micros(g.durationNs))];
    Field(f, ", \"pid\": ", Decimal(r.pid), start, ms, "pid", Int(r.pid));
    ms := ms + [Member("pid", Int(r.pid))];
    Field(f, ", \"tid\": ", Decimal(r.tid), start, ms, "tid", Int(r.tid));
    assert ms + [Member("tid", Int(r.tid))] == HeadMembers(r);
  }

  /** The size in the unit that suits it. */
  method PrintSize(f: TextFile, size: uint64, ghost start: string, ghost ms: seq<Member>)
    requires ms != [] && f.text == OpenLine(start, ms)
    modifies f
    ensures f.text == OpenLine(start, ms + [Member("size", Str(SizeText(size)))])
  {
    hide OpenLine, Render, Hundredths, Decimal;
    GpuLeads();
    StrText(SizeText(size), Line);
    var text;
    if size >= 1024 * 1024 * 1024 {
      text := Hundredths(size, 1024 * 1024 * 1024) + " GB";
    } else if size >= 1024 * 1024 {
      text := Hundredths(size, 1024 * 1024) + " MB";
    } else if size >= 1024 {
      text := Hundredths(size, 1024) + " KB";
    } else {
      text := Decimal(size) + " B";
    }
    Field(f, ", \"size\": ", "\"" + text + "\"", start, ms, "size", Str(SizeText(size)));
  }

  /** The arguments of a slice, with the optional ones. */
  method PrintGpuArgs(f: TextFile, g: CudaEvent)
    modifies f
    ensures f.text == OpenLine(old(f.text) + ", \"args\": ", GpuArgs(g))
  {
    hide OpenLine, Render, Decimal, SignedText, Signed, Int, Hex, SizeText;
    ghost var start := f.text + ", \"args\": ";
    ArgLeads();
    GpuLeads();
    ValueTexts(g.size, g.retVal, Line);
    StrText(g.comm, Line);
    HexText(g.streamId);
    HexText(g.ptr);
    OpenArgs(f, ", \"args\": {\"ret\": ", SignedText(g.retVal), "ret", Signed(g.retVal));
    ghost var ms := [Member("ret", Signed(g.retVal))];
    Field(f, ", \"comm\": ", "\"" + g.comm + "\"", start, ms, "comm", Str(g.comm));
    ms := ms + [Member("comm", Str(g.comm))];
    assert ms == [Member("ret", Signed(g.retVal)), Member("comm", Str(g.comm))];
    if g.streamId != 0 {
      Field(f, ", \"stream_id\": ", "\"0x" + Hex(g.streamId) + "\"", start, ms, "stream_id",
            Str("0x" + Hex(g.streamId)));
    }
    ms := With(ms, g.streamId != 0, "stream_id", Str("0x" + Hex(g.streamId)));
    if g.flags & FLAG_ASYNC != 0 {
      Field(f, ", \"async\": ", "true", start, ms, "async", Word("true"));
    }
    ms := With(ms, g.flags & FLAG_ASYNC != 0, "async", Word("true"));
    if HasSize(g.opType) {
      Field(f, ", \"size_bytes\": ", Decimal(g.size), start, ms, "size_bytes", Int(g.size));
      PrintSize(f, g.size, start, ms + [Member("size_bytes", Int(g.size))]);
    }
    ms := With(ms, HasSize(g.opType), "size_bytes", Int(g.size));
    ms := With(ms, HasSize(g.opType), "size", Str(SizeText(g.size)));
    if g.opType == 2 && g.ptr != 0 {
      Field(f, ", \"ptr\": ", "\"0x" + Hex(g.ptr) + "\"", start, ms, "ptr", Str("0x" + Hex(g.ptr)));
    }
  }

  lemma HexText(n: nat)
    ensures Render(Str("0x" + Hex(n)), Line) == "\"0x" + Hex(n) + "\""
  {
    var h := Hex(n);
    hide Hex;
    StrText("0x" + h, Line);
    assert "\"" + ("0x" + h) + "\"" == "\"0x" + h + "\"";
  }

  method PrintComplete(f: TextFile, host: Host, r: Record)
    requires host.Valid() && r.Complete?
    modifies f
    ensures f.text == old(f.text) + RenderItem(RecordTree(host, r), EventList)
  {
    hide OpenLine, Render, RenderItem, GpuArgs, Int, Micros, OpName, OpCategory, StackMember;
    ghost var start := f.text;
    PrintGpuHead(f, r);
    PrintGpuArgs(f, r.gpu);
    GpuArgsShape(r.gpu);
    PrintStack(f, host, r.stack, OpenLine(start + "    ", HeadMembers(r)) + ", \"args\": ", GpuArgs(r.gpu));
    CloseRecord(f, start, HeadMembers(r), GpuArgs(r.gpu) + StackMember(host, r.stack));
  }

  lemma GpuArgsShape(g: CudaEvent)
    ensures GpuArgs(g) != []
  {
    hide Hex, SizeText;
  }

  /** One record, piece by piece as its format string has it. */
  method PrintRecord(f: TextFile, host: Host, r: Record)
    requires host.Valid()
    modifies f
    ensures f.text == old(f.text) + RenderItem(RecordTree(host, r), EventList)
  {
    hide RecordTree, RenderItem;
    match r {
      case ThreadName(pid, tid, title) => PrintThreadName(f, host, pid, tid, title);
      case Begin(_, _, _, _, _, _) => PrintBegin(f, host, r);
      case End(_, _, _, _, _) => PrintEnd(f, host, r);
      case Wakeup(_, _, _) => PrintWakeup(f, host, r);
      case Complete(_, _, _, _, _) => PrintComplete(f, host, r);
    }
  }

  /** A record with the separator in front of it; returns the new output_count. */
  method PrintNext(f: TextFile, host: Host, ghost rs: seq<Record>, r: Record, outputCount: nat) returns (count: nat)
    requires host.Valid() && f.text == Progress(host, rs) && outputCount == |rs|
    modifies f
    ensures f.text == Progress(host, rs + [r]) && count == |rs + [r]|
  {
    hide RecordTrees, RecordTree, RenderItem, RenderItems;
    ghost var start := f.text;
    if outputCount > 0 {
      f.Print(",\n");
    }
    PrintRecord(f, host, r);
    count := outputCount + 1;
    OneMore(host, rs, r);
    assert "," + "\n" == ",\n";
  }

  lemma OneMore(host: Host, rs: seq<Record>, r: Record)
    ensures var text := RenderItem(RecordTree(host, r), EventList);
            Progress(host, rs + [r]) ==
            if rs == [] then Progress(host, rs) + text else Progress(host, rs) + ("," + "\n") + text
  {
    hide RecordTree, RenderItem, RenderItems;
    assert (rs + [r])[..|rs|] == rs;
    RenderItemsSnoc(RecordTrees(host, rs), RecordTree(host, r), EventList);
    var a, s, t := RenderItems(RecordTrees(host, rs), EventList), "," + "\n",
                   RenderItem(RecordTree(host, r), EventList);
    hide RecordTrees;
    if rs == [] {
      assert a + "" == a;
      Cat3(HEADER, a, t);
    } else {
      Cat3(a, s, t);
      Cat3(HEADER, a, s + t);
      Cat3(HEADER + a, s, t);
    }
  }

  // ---- the loop ----

  /** What the running variables of the loop hold after the first `i` events. */
  ghost predicate LoopState(f: TextFile, host: Host, cpuOnTime: array<uint64>, outputCount: nat, named: bool,
                          events: seq<UnifiedEvent>, i: nat, base: uint64)
    requires i <= |events|
    reads f, cpuOnTime
  {
    && cpuOnTime.Length == TID_LIMIT
    && (forall t: uint32 :: t < TID_LIMIT ==> cpuOnTime[t] == OnTime(events, i, t))
    && f.text == Progress(host, Records(events, i, base))
    && outputCount == |Records(events, i, base)|
    && (named <==> SomeCpu(events, i))
  }

  /** The two metadata records, once. */
  method NameThread(f: TextFile, host: Host, e: UnifiedEvent, outputCount: nat, named: bool,
                    ghost events: seq<UnifiedEvent>, ghost i: nat, ghost rs: seq<Record>)
    returns (count: nat, nowNamed: bool)
    requires host.Valid() && i < |events| && events[i] == e
    requires f.text == Progress(host, rs) && outputCount == |rs| && (named <==> SomeCpu(events, i))
    modifies f
    ensures f.text == Progress(host, rs + MetaAt(events, i)) && count == |rs + MetaAt(events, i)|
    ensures nowNamed <==> SomeCpu(events, i + 1)
  {
    hide Progress;
    count, nowNamed := outputCount, named;
    assert rs + [] == rs;
    if !named && e.Cpu? {
      var seenPid, seenTid := e.cpu.pid, e.cpu.tid;
      var cpuRow := ThreadName(seenPid, seenTid, "CPU [" + e.cpu.comm + "]");
      var gpuRow := ThreadName(seenPid, AddU32(seenTid, GPU_ROW), "GPU (CUDA)");
      count := PrintNext(f, host, rs, cpuRow, count);
      count := PrintNext(f, host, rs + [cpuRow], gpuRow, count);
      nowNamed := true;
      assert rs + [cpuRow] + [gpuRow] == rs + [cpuRow, gpuRow];
    }
  }

  /** The record of one event, with the pairing state. */
  method EmitBody(f: TextFile, host: Host, e: UnifiedEvent, base: uint64, cpuOnTime: array<uint64>, outputCount: nat,
                  ghost events: seq<UnifiedEvent>, ghost i: nat, ghost rs: seq<Record>)
    returns (count: nat)
    requires host.Valid() && i < |events| && events[i] == e
    requires f.text == Progress(host, rs) && outputCount == |rs|
    requires cpuOnTime.Length == TID_LIMIT
    requires forall t: uint32 :: t < TID_LIMIT ==> cpuOnTime[t] == OnTime(events, i, t)
    modifies f, cpuOnTime
    ensures f.text == Progress(host, rs + BodyAt(events, i, base)) && count == |rs + BodyAt(events, i, base)|
    ensures forall t: uint32 :: t < TID_LIMIT ==> cpuOnTime[t] == OnTime(events, i + 1, t)
  {
    hide Progress, Row;
    count := outputCount;
    var ts := SubU64(e.timestamp, base);
    assert rs + [] == rs;
    match e {
      case Cpu(_, cpu) =>
        if cpu.eventType == CPU_SCHED_ON {
          if cpu.tid < TID_LIMIT {
            cpuOnTime[cpu.tid] := e.timestamp;
          }
          count := PrintNext(f, host, rs,
                             Begin(ts, cpu.pid, cpu.tid, cpu.cpu, cpu.comm, StackIf(cpu.stackId, cpu.pid)), count);
        } else if cpu.eventType == CPU_SCHED_OFF {
          if cpu.tid < TID_LIMIT && cpuOnTime[cpu.tid] != 0 {
            var dur := SubU64(e.timestamp, cpuOnTime[cpu.tid]);
            count := PrintNext(f, host, rs, End(ts, cpu.pid, cpu.tid, dur, cpu.prevState), count);
            cpuOnTime[cpu.tid] := 0;
          }
        } else if cpu.eventType == CPU_SCHED_WAKEUP {
          count := PrintNext(f, host, rs, Wakeup(ts, cpu.pid, cpu.tid), count);
        }
      case Gpu(_, gpu) =>
        count := PrintNext(f, host, rs,
                          Complete(ts, gpu.pid, Row(gpu.tid, gpu.streamId), gpu, StackIf(gpu.stackId, gpu.pid)), count);
    }
  }

  /** The minimum scan. */
  method FindBase(store: EventStore) returns (base: uint64)
    requires store.Valid()
    ensures base == MinTimestamp(store.Stored(), |store.Stored()|)
  {
    ghost var events := store.Stored();
    base := U64_MAX;
    var i := 0;
    while i < store.eventCount
      invariant i <= store.eventCount && base == MinTimestamp(events, i)
    {
      assert store.events[i] == events[i];
      if store.events[i].timestamp < base {
        base := store.events[i].timestamp;
      }
      i := i + 1;
    }
  }

  /** One pass of the loop body. */
  method EmitEvent(f: TextFile, host: Host, e: UnifiedEvent, base: uint64, cpuOnTime: array<uint64>, outputCount: nat,
                   named: bool, ghost events: seq<UnifiedEvent>, ghost i: nat)
    returns (count: nat, nowNamed: bool)
    requires host.Valid() && i < |events| && events[i] == e
    requires LoopState(f, host, cpuOnTime, outputCount, named, events, i, base)
    modifies f, cpuOnTime
    ensures LoopState(f, host, cpuOnTime, count, nowNamed, events, i + 1, base)
  {
    hide Progress, Records, MetaAt, BodyAt, SomeCpu, OnTime;
    ghost var rs := Records(events, i, base);
    count, nowNamed := NameThread(f, host, e, outputCount, named, events, i, rs);
    count := EmitBody(f, host, e, base, cpuOnTime, count, events, i, rs + MetaAt(events, i));
    RecordsStep(events, i, base);
  }

  /** The loop, from the allocation of cpu_on_time on. */
  method EmitAll(store: EventStore, f: TextFile, host: Host, base: uint64)
    requires store.Valid() && host.Valid() && f.text == HEADER
    modifies f
    ensures f.text == Progress(host, Records(store.Stored(), |store.Stored()|, base))
  {
    hide *;
    var cpuOnTime := new uint64[TID_LIMIT](_ => 0);
    ghost var events := store.Stored();
    StoredEvents(store);
    var outputCount, named, i := 0, false, 0;
    Starting(f, host, cpuOnTime, events, base);
    while i < store.eventCount
      invariant i <= store.eventCount == |events|
      invariant LoopState(f, host, cpuOnTime, outputCount, named, events, i, base)
    {
      outputCount, named := EmitEvent(f, host, store.events[i], base, cpuOnTime, outputCount, named, events, i);
      i := i + 1;
    }
    Finished(f, host, cpuOnTime, outputCount, named, events, base);
  }

  lemma StoredEvents(store: EventStore)
    requires store.Valid()
    ensures |store.Stored()| == store.eventCount <= store.events.Length
    ensures forall i :: 0 <= i < store.eventCount ==> store.Stored()[i] == store.events[i]
  {
  }

  lemma Starting(f: TextFile, host: Host, cpuOnTime: array<uint64>, events: seq<UnifiedEvent>, base: uint64)
    requires f.text == HEADER && cpuOnTime.Length == TID_LIMIT
    requires forall t :: 0 <= t < TID_LIMIT ==> cpuOnTime[t] == 0
    ensures LoopState(f, host, cpuOnTime, 0, false, events, 0, base)
  {
    hide Progress, Records, SomeCpu, OnTime;
    NothingYet(host, events, base);
  }

  lemma Finished(f: TextFile, host: Host, cpuOnTime: array<uint64>, outputCount: nat, named: bool,
                 events: seq<UnifiedEvent>, base: uint64)
    requires LoopState(f, host, cpuOnTime, outputCount, named, events, |events|, base)
    ensures f.text == Progress(host, Records(events, |events|, base))
  {
  }

  /** output_chrome_tracing_json. The flags say whether the file could be opened for writing and
      whether cpu_on_time could be allocated. */
  method OutputChromeTracingJson(store: EventStore, f: TextFile, host: Host, fileOpened: bool, callocOk: bool)
    requires store.Valid() && host.Valid()
    modifies f
    ensures !fileOpened ==> f.text == old(f.text)
    ensures fileOpened && !callocOk ==> f.text == HEADER
    ensures fileOpened && callocOk ==> f.text == FileText(host, store.Stored())
  {
    hide *;
    if !fileOpened {
      return;
    }
    f.text := "";
    var base := FindBase(store);
    f.Print("{\n");
    f.Print("  \"traceEvents\": [\n");
    Literals();
    if !callocOk {
      return;
    }
    EmitAll(store, f, host, base);
    StoredEvents(store);
    TraceEventsAre(store.Stored());
    PrintFooter(f, host, store.eventCount, store.Stored());
  }

  /** Everything behind the last record. */
  method PrintFooter(f: TextFile, host: Host, eventCount: nat, ghost events: seq<UnifiedEvent>)
    requires eventCount == |events| && f.text == Progress(host, TraceEvents(events))
    modifies f
    ensures f.text == FileText(host, events)
  {
    hide *;
    f.Print("\n  ],\n");
    f.Print("  \"displayTimeUnit\": \"ms\",\n");
    f.Print("  \"metadata\": {\n");
    f.Print("    \"event_count\": " + Decimal(eventCount) + ",\n");
    f.Print("    \"tool\": \"ebpf-unified-trace\"\n");
    f.Print("  }\n");
    f.Print("}\n");
    Footer(host, events);
  }

  lemma NothingYet(host: Host, events: seq<UnifiedEvent>, base: uint64)
    ensures Progress(host, Records(events, 0, base)) == HEADER == "{\n" + "  \"traceEvents\": [\n"
    ensures Records(events, 0, base) == [] && !SomeCpu(events, 0)
    ensures forall t: uint32 :: OnTime(events, 0, t) == 0
  {
  }

  // ---- header and footer ----

  lemma SectionText(ms: seq<Member>, l: Layout)
    requires l.Document? || l.Metadata?
    ensures Render(Obj(ms), l) == "{\n" + RenderMembers(ms, l) + (l.Close() + "}")
  {
    var m := RenderMembers(ms, l);
    hide RenderMembers;
    assert "{" + ("\n" + (m + (l.Close() + "}"))) == "{\n" + m + (l.Close() + "}");
  }

  lemma KeyText(key: string, v: Json, l: Layout)
    requires l.Document? || l.Metadata?
    ensures RenderMember(Member(key, v), l) == l.Before() + ("\"" + key + "\": ") + Render(v, l.Inner(key))
  {
    var r, b := Render(v, l.Inner(key)), l.Before();
    hide Render;
    assert b + (Quoted(key) + (":" + (" " + r))) == b + ("\"" + key + "\": ") + r;
  }

  lemma PairText(a: Member, b: Member, l: Layout)
    requires l.Document? || l.Metadata?
    ensures RenderMembers([a, b], l) == RenderMember(a, l) + ",\n" + RenderMember(b, l)
    ensures RenderMembers([a], l) == RenderMember(a, l)
  {
    assert [a] + [b] == [a, b];
    RenderMembersSnoc([a], b, l);
    hide RenderMember;
    assert "," + "\n" == ",\n";
  }

  lemma TripleText(a: Member, b: Member, c: Member)
    ensures RenderMembers([a, b, c], Document) ==
            RenderMember(a, Document) + ",\n" + RenderMember(b, Document) + ",\n" + RenderMember(c, Document)
  {
    hide RenderMember, RenderMembers;
    PairText(a, b, Document);
    assert [a, b] + [c] == [a, b, c];
    RenderMembersSnoc([a, b], c, Document);
    assert "," + "\n" == ",\n";
  }

  lemma NumText(n: nat, l: Layout)
    ensures Render(Int(n), l) == Decimal(n)
  {
    assert "" + (Decimal(n) + "") == Decimal(n);
  }

  lemma MetadataText(n: nat)
    ensures Render(MetadataTree(n), Metadata) ==
            "{\n" + ("    \"event_count\": " + Decimal(n) + ",\n" + "    \"tool\": \"ebpf-unified-trace\"") + "\n  }"
  {
    hide Render, RenderMember, RenderMembers, Decimal;
    var count, tool := Member("event_count", Int(n)), Member("tool", Str("ebpf-unified-trace"));
    NumText(n, Metadata);
    StrText("ebpf-unified-trace", Metadata);
    KeyText("event_count", Int(n), Metadata);
    KeyText("tool", tool.value, Metadata);
    PairText(count, tool, Metadata);
    SectionText([count, tool], Metadata);
    MetadataKeys();
  }

  lemma MetadataKeys()
    ensures "    " + ("\"" + "event_count" + "\": ") == "    \"event_count\": "
    ensures "    " + ("\"" + "tool" + "\": ") + ("\"" + "ebpf-unified-trace" + "\"") ==
            "    \"tool\": \"ebpf-unified-trace\""
    ensures "\n  " + "}" == "\n  }"
  {
  }

  lemma StrText(body: string, l: Layout)
    ensures Render(Str(body), l) == "\"" + body + "\""
  {
  }

  lemma DocumentText(host: Host, events: seq<UnifiedEvent>)
    ensures var items := RenderItems(RecordTrees(host, TraceEvents(events)), EventList);
            FileText(host, events) ==
            "{\n" + ("  \"traceEvents\": " + ("[\n" + items + "\n  ]") + ",\n" +
                     "  \"displayTimeUnit\": \"ms\"" + ",\n" +
            ("  \"metadata\": " + Render(MetadataTree(|events|), Metadata))) + "\n}" + "\n"
  {
    var trees := RecordTrees(host, TraceEvents(events));
    var metadata := MetadataTree(|events|);
    hide RenderMember, RenderMembers, RenderItems, RecordTrees, TraceEvents, MetadataTree;
    EventArrayText(trees);
    StrText("ms", Document);
    hide Render;
    KeyText("traceEvents", Arr(trees), Document);
    KeyText("displayTimeUnit", Str("ms"), Document);
    KeyText("metadata", metadata, Document);
    var a, b, c := Member("traceEvents", Arr(trees)), Member("displayTimeUnit", Str("ms")),
                   Member("metadata", metadata);
    TripleText(a, b, c);
    SectionText([a, b, c], Document);
    Keys();
  }

  lemma Keys()
    ensures "  " + ("\"" + "traceEvents" + "\": ") == "  \"traceEvents\": "
    ensures "  " + ("\"" + "displayTimeUnit" + "\": ") + ("\"" + "ms" + "\"") == "  \"displayTimeUnit\": \"ms\""
    ensures "  " + ("\"" + "metadata" + "\": ") == "  \"metadata\": "
    ensures "\n" + "}" == "\n}"
  {
  }

  lemma EventArrayText(items: seq<Json>)
    ensures Render(Arr(items), EventList) == "[\n" + RenderItems(items, EventList) + "\n  ]"
  {
    var r := RenderItems(items, EventList);
    hide RenderItems;
    assert "[" + ("\n" + (r + ("\n  " + "]"))) == "[\n" + r + "\n  ]";
  }

  lemma Footer(host: Host, events: seq<UnifiedEvent>)
    ensures FileText(host, events) ==
            Progress(host, TraceEvents(events)) + "\n  ],\n" + "  \"displayTimeUnit\": \"ms\",\n" +
            "  \"metadata\": {\n" + ("    \"event_count\": " + Decimal(|events|) + ",\n") +
            "    \"tool\": \"ebpf-unified-trace\"\n" + "  }\n" + "}\n"
  {
    hide FileText, RenderItems, Render, Decimal, RecordTrees, TraceEvents, MetadataTree;
    DocumentText(host, events);
    MetadataText(|events|);
    Literals();
    Regroup("{\n", "  \"traceEvents\": ", "[\n", RenderItems(RecordTrees(host, TraceEvents(events)), EventList),
            "\n  ]", ",\n",
            "  \"displayTimeUnit\": \"ms\"", "  \"metadata\": ", "    \"event_count\": " + Decimal(|events|),
            "    \"tool\": \"ebpf-unified-trace\"", "\n  }", "\n}", "\n", "  }\n", "}\n");
  }

  lemma Literals()
    ensures HEADER == "{\n" + "  \"traceEvents\": " + "[\n" == "" + "{\n" + "  \"traceEvents\": [\n"
    ensures "\n  ],\n" == "\n  ]" + ",\n"
    ensures "  \"displayTimeUnit\": \"ms\",\n" == "  \"displayTimeUnit\": \"ms\"" + ",\n"
    ensures "  \"metadata\": {\n" == "  \"metadata\": " + "{\n"
    ensures "    \"tool\": \"ebpf-unified-trace\"\n" == "    \"tool\": \"ebpf-unified-trace\"" + "\n"
    ensures "\n  }" + "\n}" + "\n" == "\n" + "  }\n" + "}\n"
  {
  }

  lemma Regroup(o: string, p: string, b: string, items: string, q: string, c: string, d: string, m: string,
                n: string, t: string, e: string, g: string, nl: string, x: string, y: string)
    requires e + g + nl == nl + x + y
    ensures o + (p + (b + items + q) + c + d + c + (m + (o + (n + c + t) + e))) + g + nl ==
            (o + p + b) + items + (q + c) + (d + c) + (m + o) + (n + c) + (t + nl) + x + y
  {
    var inner := o + (n + c + t) + e;
    assert inner == (o + n + c) + (t + e);
    var front := o + p + b + items + q + c + d + c + m;
    assert o + (p + (b + items + q) + c + d + c + (m + inner)) == front + inner;
    assert (o + p + b) + items + (q + c) + (d + c) + (m + o) == front + o;
    RegroupEnd(front, o, n, c, t, e, g, nl, x, y);
  }

  lemma RegroupEnd(front: string, o: string, n: string, c: string, t: string, e: string, g: string, nl: string,
                   x: string, y: string)
    requires e + g + nl == nl + x + y
    ensures front + ((o + n + c) + (t + e)) + g + nl == front + o + (n + c) + (t + nl) + x + y
  {
    var whole := front + o + n + c + t;
    assert front + ((o + n + c) + (t + e)) + g + nl == whole + (e + g + nl);
    assert front + o + (n + c) + (t + nl) + x + y == whole + (nl + x + y);
  }

  // ---- the tail of main ----

  /** Collect, sort, print: the file is FileText of a sorted rearrangement of exactly the first
      MAX_EVENTS arrivals. */
  method ProcessTrace(store: EventStore, f: TextFile, host: Host, arrivals: seq<Arrival>, order: seq<UnifiedEvent>,
                      fileOpened: bool, callocOk: bool)
    requires store.Valid() && store.Stored() == [] && host.Valid()
    requires SortedPermutation(order, First(TaggedAll(arrivals), MAX_EVENTS))
    modifies store, store.events, f
    ensures store.Valid() && store.Stored() == order
    ensures fileOpened && callocOk ==> f.text == FileText(host, order)
    ensures fileOpened && !callocOk ==> f.text == HEADER
    ensures !fileOpened ==> f.text == old(f.text)
  {
    hide TaggedAll, SortedPermutation, FileText;
    assert [] + TaggedAll(arrivals) == TaggedAll(arrivals);
    store.Poll(arrivals);
    store.Qsort(order);
    OutputChromeTracingJson(store, f, host, fileOpened, callocOk);
  }
}
