// The printed file as JSON: it parses back to the tree of exactly the printed records if and only
// if every thread name printed into it is a legal string body.
module DocumentProofs {

  import opened Types
  import opened Escaping
  import opened JsonText
  import opened StackJson
  import opened StackReader
  import opened Collector
  import opened ChromeTrace
  import opened TraceProofs

  // ---- constant strings ----

  lemma OpNamePlain(op: uint32)
    ensures Plain(OpName(op))
  {
    hide Plain;
    LowOpNames();
    MiddleOpNames();
    HighOpNames();
  }

  lemma LowOpNames()
    ensures Plain("cudaMalloc") && Plain("cudaFree") && Plain("cudaMemcpy") && Plain("cudaLaunchKernel")
    ensures Plain("cudaDeviceSynchronize")
  {
  }

  lemma MiddleOpNames()
    ensures Plain("cudaMemcpyAsync") && Plain("cudaStreamSynchronize") && Plain("cudaStreamCreate")
    ensures Plain("cudaStreamDestroy") && Plain("cudaEventRecord")
  {
  }

  lemma HighOpNames()
    ensures Plain("cudaEventSynchronize") && Plain("cudaEventQuery") && Plain("cudaLaunchKernelExC")
    ensures Plain("cudaGraphLaunch") && Plain("Unknown")
  {
  }

  lemma OpCategoryPlain(op: uint32)
    ensures Plain(OpCategory(op))
  {
  }

  lemma HeadKeysPlain()
    ensures Plain("name") && Plain("cat") && Plain("ph") && Plain("ts") && Plain("dur")
    ensures Plain("pid") && Plain("tid") && Plain("s") && Plain("args")
  {
  }

  lemma HeadValuesPlain()
    ensures Plain("thread_name") && Plain("M") && Plain("On-CPU") && Plain("Wakeup") && Plain("cpu")
    ensures Plain("B") && Plain("E") && Plain("i") && Plain("t") && Plain("X")
  {
  }

  lemma ArgKeysPlain()
    ensures Plain("comm") && Plain("duration_us") && Plain("state") && Plain("ret") && Plain("stack")
    ensures Plain("stream_id") && Plain("async") && Plain("size_bytes") && Plain("size") && Plain("ptr")
  {
  }

  lemma DocumentKeysPlain()
    ensures Plain("traceEvents") && Plain("displayTimeUnit") && Plain("metadata")
    ensures Plain("event_count") && Plain("tool") && Plain("ms") && Plain("ebpf-unified-trace")
  {
  }

  lemma DecimalPlain(n: nat)
    ensures Plain(Decimal(n))
  {
    DecimalIsWhole(n);
    var s := Decimal(n);
    forall i | 0 <= i < |s| ensures NeedsNoEscape(s[i]) {
      assert s[i] in s && IsDigit(s[i]);
    }
  }

  lemma PlainConcat(a: string, b: string)
    requires Plain(a) && Plain(b)
    ensures Plain(a + b)
  {
  }

  lemma SizeTextPlain(n: uint64)
    ensures Plain(SizeText(n))
  {
    UnitsPlain();
    hide Decimal, Plain, TwoDecimals, InHundredths;
    TwoDecimalsPlain(InHundredths(n, 1024 * 1024 * 1024), " GB");
    TwoDecimalsPlain(InHundredths(n, 1024 * 1024), " MB");
    TwoDecimalsPlain(InHundredths(n, 1024), " KB");
    DecimalPlain(n);
    PlainConcat(Decimal(n), " B");
  }

  lemma UnitsPlain()
    ensures Plain(" GB") && Plain(" MB") && Plain(" KB") && Plain(" B")
  {
  }

  lemma TwoDecimalsPlain(h: nat, unit: string)
    requires Plain(unit)
    ensures Plain(TwoDecimals(h) + unit)
  {
    hide Decimal, Plain, Digit;
    DecimalPlain(h / 100);
    TwoDigitsPlain(h / 10 % 10, h % 10);
    PlainConcat(Decimal(h / 100), ".");
    PlainConcat(Decimal(h / 100) + ".", [Digit(h / 10 % 10), Digit(h % 10)]);
    PlainConcat(TwoDecimals(h), unit);
  }

  lemma TwoDigitsPlain(a: nat, b: nat)
    requires a < 10 && b < 10
    ensures Plain(".") && Plain([Digit(a), Digit(b)])
  {
  }

  lemma HexTextPlain(n: nat)
    ensures Plain("0x" + Hex(n))
  {
    HexPlain(Hex(n));
  }

  // ---- members ----

  /** A member whose key is plain and whose value is well formed. */
  predicate GoodMember(m: Member) {
    Legal(m.key) && WellFormed(m.value)
  }

  lemma {:induction false} MembersAreGood(ms: seq<Member>)
    ensures WellFormedMembers(ms) <==> forall i :: 0 <= i < |ms| ==> GoodMember(ms[i])
  {
    if ms != [] {
      MembersAreGood(ms[1..]);
      assert GoodMember(ms[0]) <==> Legal(ms[0].key) && WellFormed(ms[0].value);
      assert forall i :: 0 < i < |ms| ==> ms[i] == ms[1..][i - 1];
      assert forall i :: 0 <= i < |ms[1..]| ==> ms[1..][i] == ms[i + 1];
    }
  }

  lemma MembersConcat(a: seq<Member>, b: seq<Member>)
    ensures WellFormedMembers(a + b) <==> WellFormedMembers(a) && WellFormedMembers(b)
  {
    MembersAreGood(a);
    MembersAreGood(b);
    MembersAreGood(a + b);
    hide WellFormedMembers;
    var ms := a + b;
    assert forall i :: 0 <= i < |a| ==> a[i] == ms[i];
    assert forall i :: 0 <= i < |b| ==> b[i] == ms[|a| + i];
  }

  lemma {:induction false} ItemsConcat(xs: seq<Json>, x: Json)
    ensures WellFormedItems(xs + [x]) <==> WellFormedItems(xs) && WellFormed(x)
  {
    if xs == [] {
      assert xs + [x] == [x];
    } else {
      ItemsConcat(xs[1..], x);
      assert (xs + [x])[1..] == xs[1..] + [x];
    }
  }

  lemma PlainMember(key: string, body: string)
    requires Plain(key) && Plain(body)
    ensures GoodMember(Member(key, Str(body)))
  {
    PlainIsLegal(key);
    PlainIsLegal(body);
  }

  lemma NumMember(key: string, v: Json)
    requires Plain(key) && v.Num? && forall c :: c in v.frac ==> IsDigit(c)
    ensures GoodMember(Member(key, v))
  {
    PlainIsLegal(key);
  }

  lemma NumbersGood(n: nat, i: int)
    ensures Int(n).Num? && Int(n).frac == ""
    ensures Signed(i).Num? && Signed(i).frac == ""
    ensures Micros(n).Num? && forall c :: c in Micros(n).frac ==> IsDigit(c)
  {
  }

  // ---- records ----

  /** The name printed by a record, if it prints one. */
  function NameText(r: Record): Option<string> {
    match r
    case ThreadName(_, _, title) => Some(title)
    case Begin(_, _, _, _, comm, _) => Some(comm)
    case Complete(_, _, _, g, _) => Some(g.comm)
    case _ => None
  }

  /** Every name printed by this record is a legal string body. */
  predicate NamesLegal(r: Record) {
    NameText(r).Some? ==> Legal(NameText(r).value)
  }

  lemma CpuHeadGood(name: string, ph: string, ts: uint64, pid: uint32, tid: uint32)
    requires Plain(name) && Plain(ph)
    ensures WellFormedMembers(CpuHead(name, ph, ts, pid, tid))
  {
    hide Plain, GoodMember, WellFormed, WellFormedMembers, Legal, Int, Micros;
    HeadKeysPlain();
    HeadValuesPlain();
    NumbersGood(ts, 0);
    NumbersGood(pid, 0);
    NumbersGood(tid, 0);
    PlainMember("name", name);
    PlainMember("cat", "cpu");
    PlainMember("ph", ph);
    NumMember("ts", Micros(ts));
    NumMember("pid", Int(pid));
    NumMember("tid", Int(tid));
    SixMembers(Member("name", Str(name)), Member("cat", Str("cpu")), Member("ph", Str(ph)),
               Member("ts", Micros(ts)), Member("pid", Int(pid)), Member("tid", Int(tid)));
  }

  lemma SixMembers(a: Member, b: Member, c: Member, d: Member, e: Member, f: Member)
    requires GoodMember(a) && GoodMember(b) && GoodMember(c) && GoodMember(d) && GoodMember(e) && GoodMember(f)
    ensures WellFormedMembers([a, b, c, d, e, f])
  {
    hide *;
    TwoMembers(a, b);
    TwoMembers(c, d);
    TwoMembers(e, f);
    MembersConcat([a, b], [c, d]);
    MembersConcat([a, b] + [c, d], [e, f]);
    assert [a, b] + [c, d] + [e, f] == [a, b, c, d, e, f];
  }

  lemma HeadGood(r: Record)
    ensures WellFormedMembers(HeadMembers(r))
  {
    HeadKeysPlain();
    HeadValuesPlain();
    hide Plain, GoodMember, WellFormedMembers, Int, Micros, CpuHead, OpName, OpCategory;
    match r
    case ThreadName(pid, tid, _) =>
      NumbersGood(pid, 0);
      NumbersGood(tid, 0);
      PlainMember("name", "thread_name");
      PlainMember("ph", "M");
      NumMember("pid", Int(pid));
      NumMember("tid", Int(tid));
      MembersAreGood(HeadMembers(r));
    case Begin(ts, pid, tid, _, _, _) => CpuHeadGood("On-CPU", "B", ts, pid, tid);
    case End(ts, pid, tid, _, _) => CpuHeadGood("On-CPU", "E", ts, pid, tid);
    case Wakeup(ts, pid, tid) =>
      CpuHeadGood("Wakeup", "i", ts, pid, tid);
      PlainMember("s", "t");
      MembersAreGood([Member("s", Str("t"))]);
      MembersConcat(CpuHead("Wakeup", "i", ts, pid, tid), [Member("s", Str("t"))]);
    case Complete(ts, pid, tid, g, _) => GpuHeadGood(r);
  }

  lemma GpuHeadGood(r: Record)
    requires r.Complete?
    ensures WellFormedMembers(HeadMembers(r))
  {
    hide Plain, GoodMember, WellFormed, WellFormedMembers, Legal, Int, Micros, OpName, OpCategory, CpuHead, GpuArgs;
    HeadKeysPlain();
    HeadValuesPlain();
    NumbersGood(r.ts, 0);
    NumbersGood(r.gpu.durationNs, 0);
    NumbersGood(r.pid, 0);
    NumbersGood(r.tid, 0);
    OpNamePlain(r.gpu.opType);
    OpCategoryPlain(r.gpu.opType);
    var a, b, c := Member("name", Str(OpName(r.gpu.opType))), Member("cat", Str(OpCategory(r.gpu.opType))),
                   Member("ph", Str("X"));
    var d, e := Member("ts", Micros(r.ts)), Member("dur", Micros(r.gpu.durationNs));
    var f, g := Member("pid", Int(r.pid)), Member("tid", Int(r.tid));
    PlainMember("name", OpName(r.gpu.opType));
    PlainMember("cat", OpCategory(r.gpu.opType));
    PlainMember("ph", "X");
    NumMember("ts", Micros(r.ts));
    NumMember("dur", Micros(r.gpu.durationNs));
    NumMember("pid", Int(r.pid));
    NumMember("tid", Int(r.tid));
    SixMembers(a, b, c, d, e, f);
    TwoMembers(g, g);
    MembersConcat([a, b, c, d, e, f], [g]);
    assert HeadMembers(r) == [a, b, c, d, e, f] + [g];
  }

  lemma TwoMembers(a: Member, b: Member)
    ensures WellFormedMembers([a, b]) <==> GoodMember(a) && GoodMember(b)
    ensures WellFormedMembers([a]) <==> GoodMember(a)
  {
    MembersAreGood([a, b]);
    MembersAreGood([a]);
    hide WellFormedMembers, GoodMember;
    assert [a, b][0] == a && [a, b][1] == b && [a][0] == a;
  }

  lemma WithGood(ms: seq<Member>, present: bool, key: string, v: Json)
    requires GoodMember(Member(key, v))
    ensures WellFormedMembers(With(ms, present, key, v)) <==> WellFormedMembers(ms)
  {
    TwoMembers(Member(key, v), Member(key, v));
    MembersConcat(ms, [Member(key, v)]);
  }

  lemma StrMember(key: string, body: string)
    requires Plain(key)
    ensures GoodMember(Member(key, Str(body))) <==> Legal(body)
  {
    PlainIsLegal(key);
  }

  lemma GpuArgsGood(g: CudaEvent)
    ensures WellFormedMembers(GpuArgs(g)) <==> Legal(g.comm)
  {
    ArgKeysPlain();
    NumbersGood(g.size, g.retVal);
    HexTextPlain(g.streamId);
    HexTextPlain(g.ptr);
    SizeTextPlain(g.size);
    hide Plain, Int, Signed, Hex, SizeText;
    NumMember("ret", Signed(g.retVal));
    StrMember("comm", g.comm);
    PlainMember("stream_id", "0x" + Hex(g.streamId));
    AsyncMember();
    NumMember("size_bytes", Int(g.size));
    PlainMember("size", SizeText(g.size));
    PlainMember("ptr", "0x" + Hex(g.ptr));
    hide GoodMember, WellFormedMembers, With, Legal;
    TwoMembers(Member("ret", Signed(g.retVal)), Member("comm", Str(g.comm)));
    var m0 := [Member("ret", Signed(g.retVal)), Member("comm", Str(g.comm))];
    var m1 := With(m0, g.streamId != 0, "stream_id", Str("0x" + Hex(g.streamId)));
    var m2 := With(m1, g.flags & FLAG_ASYNC != 0, "async", Word("true"));
    var m3 := With(m2, HasSize(g.opType), "size_bytes", Int(g.size));
    var m4 := With(m3, HasSize(g.opType), "size", Str(SizeText(g.size)));
    WithGood(m0, g.streamId != 0, "stream_id", Str("0x" + Hex(g.streamId)));
    WithGood(m1, g.flags & FLAG_ASYNC != 0, "async", Word("true"));
    WithGood(m2, HasSize(g.opType), "size_bytes", Int(g.size));
    WithGood(m3, HasSize(g.opType), "size", Str(SizeText(g.size)));
    WithGood(m4, g.opType == 2 && g.ptr != 0, "ptr", Str("0x" + Hex(g.ptr)));
  }

  lemma AsyncMember()
    ensures GoodMember(Member("async", Word("true")))
  {
    ArgKeysPlain();
    PlainIsLegal("async");
  }

  lemma ArgsGood(r: Record)
    requires !r.Wakeup?
    ensures WellFormedMembers(ArgMembers(r)) <==> NamesLegal(r)
  {
    HeadKeysPlain();
    HeadValuesPlain();
    ArgKeysPlain();
    hide Plain, WellFormedMembers, GoodMember, Int, Micros, GpuArgs, Legal;
    match r
    case ThreadName(_, _, title) =>
      StrMember("name", title);
      TwoMembers(Member("name", Str(title)), Member("name", Str(title)));
    case Begin(_, _, _, cpu, comm, _) =>
      NumbersGood(cpu, 0);
      NumMember("cpu", Int(cpu));
      StrMember("comm", comm);
      TwoMembers(Member("cpu", Int(cpu)), Member("comm", Str(comm)));
    case End(_, _, _, dur, state) =>
      NumbersGood(dur, 0);
      NumbersGood(state, 0);
      NumMember("duration_us", Micros(dur));
      NumMember("state", Int(state));
      TwoMembers(Member("duration_us", Micros(dur)), Member("state", Int(state)));
    case Complete(_, _, _, g, _) =>
      GpuArgsGood(g);
  }

  lemma StackGood(host: Host, s: Option<StackRef>)
    ensures WellFormedMembers(StackMember(host, s))
  {
    match s
    case None =>
    case Some(StackRef(stackId, pid)) =>
      ArgKeysPlain();
      PlainIsLegal("stack");
      StackRoundTrip(host, stackId, pid);
      hide StackTree;
      OneMember("stack", StackTree(host, stackId, pid));
  }

  lemma RecordGood(host: Host, r: Record)
    ensures WellFormed(RecordTree(host, r)) <==> NamesLegal(r)
  {
    hide *;
    HeadGood(r);
    RecordParts(host, r);
    if !r.Wakeup? {
      ArgsGood(r);
      StackGood(host, StackOf(r));
      MembersConcat(ArgMembers(r), StackMember(host, StackOf(r)));
    }
  }

  lemma RecordParts(host: Host, r: Record)
    ensures r.Wakeup? ==> NamesLegal(r) && WellFormed(RecordTree(host, r)) == WellFormedMembers(HeadMembers(r))
    ensures !r.Wakeup? ==>
              (WellFormed(RecordTree(host, r)) <==>
                 WellFormedMembers(HeadMembers(r)) && WellFormedMembers(ArgMembers(r) + StackMember(host, StackOf(r))))
  {
    hide HeadMembers, ArgMembers, StackMember, StackOf, WellFormedMembers, Legal, Plain;
    if !r.Wakeup? {
      var args := ArgMembers(r) + StackMember(host, StackOf(r));
      ArgsMember(args);
      MembersConcat(HeadMembers(r), [Member("args", Obj(args))]);
    }
  }

  lemma ArgsMember(args: seq<Member>)
    ensures WellFormedMembers([Member("args", Obj(args))]) <==> WellFormedMembers(args)
  {
    HeadKeysPlain();
    PlainIsLegal("args");
    hide Legal, Plain;
    TwoMembers(Member("args", Obj(args)), Member("args", Obj(args)));
  }

  /** Every name printed by these records satisfies `p`. */
  predicate AllNames(rs: seq<Record>, p: string -> bool) {
    forall i :: 0 <= i < |rs| && NameText(rs[i]).Some? ==> p(NameText(rs[i]).value)
  }

  lemma {:induction false} RecordsGood(host: Host, rs: seq<Record>)
    ensures WellFormedItems(RecordTrees(host, rs)) <==> AllNames(rs, Legal)
  {
    hide RecordTree, NameText, WellFormedItems, Legal;
    if rs == [] {
      NoItemsGood(host);
    } else {
      var init, last := rs[..|rs| - 1], rs[|rs| - 1];
      RecordsGood(host, init);
      RecordGood(host, last);
      ItemsConcat(RecordTrees(host, init), RecordTree(host, last));
      assert forall i :: 0 <= i < |init| ==> init[i] == rs[i];
    }
  }

  lemma NoItemsGood(host: Host)
    ensures WellFormedItems(RecordTrees(host, []))
  {
  }

  // ---- the file ----

  lemma MetadataGood(n: nat)
    ensures GoodMember(Member("metadata", MetadataTree(n)))
  {
    DocumentKeysPlain();
    NumbersGood(n, 0);
    hide Plain, Int, WellFormedMembers, Legal;
    NumMember("event_count", Int(n));
    PlainMember("tool", "ebpf-unified-trace");
    TwoMembers(Member("event_count", Int(n)), Member("tool", Str("ebpf-unified-trace")));
    PlainIsLegal("metadata");
  }

  lemma ArrayMember(key: string, items: seq<Json>)
    requires Plain(key)
    ensures GoodMember(Member(key, Arr(items))) <==> WellFormedItems(items)
  {
    PlainIsLegal(key);
  }

  lemma ThreeMembers(a: Member, b: Member, c: Member)
    ensures WellFormed(Obj([a, b, c])) <==> GoodMember(a) && GoodMember(b) && GoodMember(c)
  {
    TwoMembers(a, b);
    TwoMembers(c, c);
    MembersConcat([a, b], [c]);
    hide GoodMember, WellFormedMembers;
    assert [a, b] + [c] == [a, b, c];
  }

  lemma DocumentGood(host: Host, events: seq<UnifiedEvent>)
    ensures WellFormed(DocumentTree(host, events)) <==> AllNames(TraceEvents(events), Legal)
  {
    hide RecordTrees, TraceEvents, MetadataTree, AllNames, Legal, Plain, GoodMember, WellFormed, WellFormedItems;
    var rs := TraceEvents(events);
    RecordsGood(host, rs);
    DocumentKeysPlain();
    ArrayMember("traceEvents", RecordTrees(host, rs));
    PlainMember("displayTimeUnit", "ms");
    MetadataGood(|events|);
    ThreeMembers(Member("traceEvents", Arr(RecordTrees(host, rs))), Member("displayTimeUnit", Str("ms")),
                 Member("metadata", MetadataTree(|events|)));
  }

  /** An event whose thread name is printed: an ON or GPU event, or the first CPU event. */
  predicate PrintsName(events: seq<UnifiedEvent>, i: nat)
    requires i < |events|
  {
    events[i].Gpu? || events[i].cpu.eventType == CPU_SCHED_ON || !SomeCpu(events, i)
  }

  function NameOf(e: UnifiedEvent): string {
    match e
    case Cpu(_, c) => c.comm
    case Gpu(_, g) => g.comm
  }

  /** A bracket behind a text does not change its first element. */
  lemma BracketUnit(comm: string)
    requires comm != []
    ensures UnitLen(comm + "]") == UnitLen(comm)
  {
    assert forall i :: 0 <= i < |comm| ==> (comm + "]")[i] == comm[i];
  }

  lemma {:induction false} ClosingBracketIsNoEscape(comm: string)
    ensures Legal(comm + "]") <==> Legal(comm)
  {
    var t := comm + "]";
    if comm == [] {
      assert t == "]" && t[1..] == [];
    } else {
      hide UnitLen;
      var n := UnitLen(comm);
      BracketUnit(comm);
      assert t[n..] == comm[n..] + "]";
      if n > 0 {
        ClosingBracketIsNoEscape(comm[n..]);
      }
    }
  }

  lemma {:induction false} PlainPrefix(a: string, b: string)
    requires Plain(a)
    ensures Legal(a + b) <==> Legal(b)
  {
    if a == [] {
      assert a + b == b;
    } else {
      assert NeedsNoEscape(a[0]) && (a + b)[0] == a[0] && (a + b)[1..] == a[1..] + b;
      PlainPrefix(a[1..], b);
    }
  }

  lemma TitleLegal(comm: string)
    ensures Legal("CPU [" + comm + "]") <==> Legal(comm)
    ensures Legal("GPU (CUDA)")
  {
    hide Legal;
    ClosingBracketIsNoEscape(comm);
    PlainPrefix("CPU [", comm + "]");
    assert "CPU [" + (comm + "]") == "CPU [" + comm + "]";
    PlainIsLegal("GPU (CUDA)");
  }

  /** A property of names that the titles of the metadata records do not change. */
  ghost predicate TitleBlind(p: string -> bool) {
    (forall comm: string {:trigger "CPU [" + comm + "]"} :: p("CPU [" + comm + "]") <==> p(comm)) && p("GPU (CUDA)")
  }

  lemma TitlesLegal()
    ensures TitleBlind(Legal)
  {
    hide Legal;
    forall comm: string ensures Legal("CPU [" + comm + "]") <==> Legal(comm) {
      TitleLegal(comm);
    }
    TitleLegal("");
  }

  lemma TitlesPlain()
    ensures TitleBlind(Plain)
  {
    forall comm: string ensures Plain("CPU [" + comm + "]") <==> Plain(comm) {
      TitlePlain(comm);
    }
  }

  lemma TitlePlain(comm: string)
    ensures Plain("CPU [" + comm + "]") <==> Plain(comm)
  {
    var t := "CPU [" + comm + "]";
    assert forall i :: 0 <= i < |comm| ==> t[5 + i] == comm[i];
    assert t[0] == 'C' && t[1] == 'P' && t[2] == 'U' && t[3] == ' ' && t[4] == '[' && t[|t| - 1] == ']';
  }

  lemma AddedNames(events: seq<UnifiedEvent>, i: nat, base: uint64, p: string -> bool)
    requires i < |events| && TitleBlind(p)
    ensures AllNames(MetaAt(events, i) + BodyAt(events, i, base), p) <==>
            (PrintsName(events, i) ==> p(NameOf(events[i])))
  {
    MetaNames(events, i, p);
    BodyNames(events, i, base, p);
    hide MetaAt, BodyAt, NameOf, AllNames, SomeCpu;
    NamesConcat(MetaAt(events, i), BodyAt(events, i, base), p);
  }

  lemma MetaNames(events: seq<UnifiedEvent>, i: nat, p: string -> bool)
    requires i < |events| && TitleBlind(p)
    ensures AllNames(MetaAt(events, i), p) <==>
            (events[i].Cpu? && !SomeCpu(events, i) ==> p(NameOf(events[i])))
  {
    var comm, meta := NameOf(events[i]), MetaAt(events, i);
    assert p("CPU [" + comm + "]") <==> p(comm);
    if meta != [] {
      assert NameText(meta[0]) == Some("CPU [" + comm + "]") && NameText(meta[1]) == Some("GPU (CUDA)");
    }
  }

  lemma BodyNames(events: seq<UnifiedEvent>, i: nat, base: uint64, p: string -> bool)
    requires i < |events|
    ensures AllNames(BodyAt(events, i, base), p) <==>
            (events[i].Gpu? || events[i].cpu.eventType == CPU_SCHED_ON ==> p(NameOf(events[i])))
  {
    hide Closes;
    var body := BodyAt(events, i, base);
    if body != [] {
      assert body == [body[0]];
      OneRecord(body[0], p);
    }
  }

  lemma OneRecord(r: Record, p: string -> bool)
    ensures AllNames([r], p) <==> (NameText(r).Some? ==> p(NameText(r).value))
  {
    assert [r][0] == r;
  }

  lemma NamesConcat(a: seq<Record>, b: seq<Record>, p: string -> bool)
    ensures AllNames(a + b, p) <==> AllNames(a, p) && AllNames(b, p)
  {
    hide NameText;
    var rs := a + b;
    assert forall i :: 0 <= i < |a| ==> a[i] == rs[i];
    assert forall i :: 0 <= i < |b| ==> b[i] == rs[|a| + i];
  }

  lemma {:induction false} NamesOfEvents(events: seq<UnifiedEvent>, n: nat, base: uint64, p: string -> bool)
    requires n <= |events| && TitleBlind(p)
    ensures AllNames(Records(events, n, base), p) <==>
            forall i :: 0 <= i < n && PrintsName(events, i) ==> p(NameOf(events[i]))
  {
    hide MetaAt, BodyAt, PrintsName, NameOf, NameText, TitleBlind;
    if n > 0 {
      var j := n - 1;
      NamesOfEvents(events, j, base, p);
      AddedNames(events, j, base, p);
      NamesConcat(Records(events, j, base), MetaAt(events, j) + BodyAt(events, j, base), p);
      assert Records(events, n, base) ==
             Records(events, j, base) + (MetaAt(events, j) + BodyAt(events, j, base));
    }
  }

  /** Every printed name of these events satisfies `p`. */
  predicate PrintedNames(events: seq<UnifiedEvent>, p: string -> bool) {
    forall i :: 0 <= i < |events| && PrintsName(events, i) ==> p(NameOf(events[i]))
  }

  lemma PrintedNamesAre(events: seq<UnifiedEvent>, p: string -> bool)
    requires TitleBlind(p)
    ensures AllNames(TraceEvents(events), p) <==> PrintedNames(events, p)
  {
    hide AllNames, NameOf, PrintsName, TitleBlind, Records;
    NamesOfEvents(events, |events|, MinTimestamp(events, |events|), p);
    TraceEventsAre(events);
  }

  /** The printed file is one JSON document whose tree is exactly DocumentTree, so its traceEvents
      array is exactly the list of printed records, if and only if every thread name printed is a
      legal string body; names are printed without escaping. */
  lemma {:induction false} FileParsesIff(host: Host, events: seq<UnifiedEvent>)
    ensures ReadDocument(FileText(host, events)) == Some(DocumentTree(host, events)) <==> PrintedNames(events, Legal)
  {
    hide DocumentTree, TraceEvents, Render, ReadDocument, Legal, PrintedNames;
    ReadsBackIffWellFormed(DocumentTree(host, events), Document, "\n");
    DocumentGood(host, events);
    TitlesLegal();
    PrintedNamesAre(events, Legal);
  }
}
