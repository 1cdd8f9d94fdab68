// Reading the printed file back: an independent reader looks up the fields of every record by key and
// turns them into numbers again; what it finds are the records' own values.
module TraceReader {

  import opened Types
  import opened Escaping
  import opened JsonText
  import opened StackJson
  import opened StackReader
  import opened Collector
  import opened ChromeTrace
  import opened TraceProofs
  import opened DocumentProofs
  import opened NameProofs
  import opened SliceProofs

  // ---- the reader ----

  /** A printed stack: frames, or raw addresses. */
  datatype SeenStack = SeenFrames(frames: seq<FrameView>) | SeenAddrs(addrs: seq<nat>)

  /** A size for humans: a number of hundredths of a unit. */
  datatype Human = Human(hundredths: nat, unit: nat)

  /** One element of traceEvents as a reader sees it; times are nanoseconds, names are the text between
      the quotes. */
  datatype Element =
    | RowName(pid: nat, row: nat, title: string)
    | GoesOn(ts: nat, pid: nat, tid: nat, cpu: nat, comm: string, stack: Option<SeenStack>)
    | GoesOff(ts: nat, pid: nat, tid: nat, durationNs: nat, state: nat)
    | Wakes(ts: nat, pid: nat, tid: nat)
    | Calls(slice: Slice, human: Option<Human>, stack: Option<SeenStack>)

  function TextAt(ms: seq<Member>, key: string): Option<string> {
    match Find(ms, key)
    case Some(Str(body)) => Some(body)
    case _ => None
  }

  function IntAt(ms: seq<Member>, key: string): Option<int> {
    match Find(ms, key)
    case Some(Num(neg, whole, frac)) =>
      var i: int := whole;
      if frac != "" then None else if neg then Some(-i) else Some(i)
    case _ => None
  }

  function NatAt(ms: seq<Member>, key: string): Option<nat> {
    match IntAt(ms, key)
    case Some(i) => if i < 0 then None else Some(i)
    case None => None
  }

  /** Microseconds with three decimals, as nanoseconds. */
  function NanosAt(ms: seq<Member>, key: string): Option<nat> {
    match Find(ms, key)
    case Some(Num(neg, whole, frac)) =>
      if neg || |frac| != 3 || !(forall c :: c in frac ==> IsDigit(c)) then None
      else Some(1000 * whole + DigitsValue(frac))
    case _ => None
  }

  /** A number with the prefix 0x in a string. */
  function HexIn(s: string): Option<nat> {
    if "0x" <= s && |s| > 2 then HexNumber(s[2..]) else None
  }

  /** An optional field: absent, or read by `read`. */
  function Optional<T>(ms: seq<Member>, key: string, read: Json -> Option<T>): Option<Option<T>> {
    match Find(ms, key)
    case None => Some(None)
    case Some(v) => match read(v) case None => None case Some(x) => Some(Some(x))
  }

  function ReadPointer(v: Json): Option<uint64> {
    if !v.Str? then None
    else match HexIn(v.body) case Some(n) => (if n <= U64_MAX then Some(n) else None) case None => None
  }

  function ReadTrue(v: Json): Option<bool> {
    if v == Word("true") then Some(true) else None
  }

  function ReadBytes(v: Json): Option<uint64> {
    if v.Num? && !v.neg && v.frac == "" && v.whole <= U64_MAX then Some(v.whole) else None
  }

  /** "n B", or "w.dd" and a larger unit. */
  function ReadHuman(v: Json): Option<Human> {
    if !v.Str? then None
    else
      var s := v.body;
      var whole := DigitRun(s);
      var rest := s[|whole|..];
      if whole == [] then None
      else if rest == " B" then Some(Human(100 * DigitsValue(whole), 1))
      else if |rest| != 6 || rest[0] != '.' || !IsDigit(rest[1]) || !IsDigit(rest[2]) then None
      else
        var unit :- UnitOf(rest[3..]);
        Some(Human(100 * DigitsValue(whole) + DigitsValue(rest[1..3]), unit))
  }

  function UnitOf(suffix: string): Option<nat> {
    if suffix == " KB" then Some(0x400)
    else if suffix == " MB" then Some(0x10_0000)
    else if suffix == " GB" then Some(0x4000_0000)
    else None
  }

  function StackReading(symbols: bool): Json -> Option<SeenStack> {
    (v: Json) =>
      if !v.Arr? then None
      else if symbols then
        match ReadAll(v.items, ReadFrame) case Some(frames) => Some(SeenFrames(frames)) case None => None
      else
        match ReadAll(v.items, ReadAddr) case Some(addrs) => Some(SeenAddrs(addrs)) case None => None
  }

  function ReadSlice(ms: seq<Member>, args: seq<Member>): Option<Slice> {
    var name :- TextAt(ms, "name");
    var category :- TextAt(ms, "cat");
    var ts :- NanosAt(ms, "ts");
    var dur :- NanosAt(ms, "dur");
    var pid :- NatAt(ms, "pid");
    var row :- NatAt(ms, "tid");
    var ret :- IntAt(args, "ret");
    var comm :- TextAt(args, "comm");
    var stream :- Optional(args, "stream_id", ReadPointer);
    var async :- Optional(args, "async", ReadTrue);
    var size :- Optional(args, "size_bytes", ReadBytes);
    var ptr :- Optional(args, "ptr", ReadPointer);
    if pid < U32_MODULUS && row < U32_MODULUS then
      Some(Slice(ts, dur, pid, row, name, category, ret, comm, stream, async == Some(true), size, ptr))
    else None
  }

  predicate OfCpu(ms: seq<Member>) {
    TextAt(ms, "cat") == Some("cpu")
  }

  /** One element, by its phase. */
  function ReadElement(v: Json, symbols: bool): Option<Element> {
    if !v.Obj? then None
    else
      var ms := v.members;
      var ph :- TextAt(ms, "ph");
      var name :- TextAt(ms, "name");
      var pid :- NatAt(ms, "pid");
      var tid :- NatAt(ms, "tid");
      if ph == "i" then
        var ts :- NanosAt(ms, "ts");
        if name == "Wakeup" && OfCpu(ms) && Find(ms, "s") == Some(Str("t")) then Some(Wakes(ts, pid, tid)) else None
      else
        match Find(ms, "args")
        case Some(Obj(args)) => ReadWithArgs(ph, name, pid, tid, ms, args, symbols)
        case _ => None
  }

  function ReadWithArgs(ph: string, name: string, pid: nat, tid: nat, ms: seq<Member>, args: seq<Member>, symbols: bool)
    : Option<Element>
  {
    if ph == "M" then
      var title :- TextAt(args, "name");
      if name == "thread_name" then Some(RowName(pid, tid, title)) else None
    else if ph == "B" then
      var ts :- NanosAt(ms, "ts");
      var cpu :- NatAt(args, "cpu");
      var comm :- TextAt(args, "comm");
      var stack :- Optional(args, "stack", StackReading(symbols));
      if name == "On-CPU" && OfCpu(ms) then Some(GoesOn(ts, pid, tid, cpu, comm, stack)) else None
    else if ph == "E" then
      var ts :- NanosAt(ms, "ts");
      var dur :- NanosAt(args, "duration_us");
      var state :- NatAt(args, "state");
      if name == "On-CPU" && OfCpu(ms) then Some(GoesOff(ts, pid, tid, dur, state)) else None
    else if ph == "X" then
      var slice :- ReadSlice(ms, args);
      var human :- Optional(args, "size", ReadHuman);
      var stack :- Optional(args, "stack", StackReading(symbols));
      Some(Calls(slice, human, stack))
    else None
  }

  function Reading(symbols: bool): Json -> Option<Element> {
    (v: Json) => ReadElement(v, symbols)
  }

  /** All elements of traceEvents. */
  function ReadTrace(text: string, symbols: bool): Option<seq<Element>> {
    var v :- ReadDocument(text);
    if !v.Obj? then None
    else
      match Find(v.members, "traceEvents")
      case Some(Arr(items)) => ReadAll(items, Reading(symbols))
      case _ => None
  }

  // ---- what should be read ----

  predicate Symbols(host: Host) {
    host.symbolizeEnabled && host.symbolizerOk
  }

  function StackSeen(host: Host, s: Option<StackRef>): Option<SeenStack> {
    match s
    case None => None
    case Some(StackRef(id, pid)) =>
      Some(if Symbols(host) then SeenFrames(Views(ShownFrames(host, id, pid))) else SeenAddrs(ShownAddrs(host, id)))
  }

  /** The largest of the four units that is not above `n`, and the number of its hundredths. */
  function HumanOf(n: uint64): Human {
    var unit := if n >= 0x4000_0000 then 0x4000_0000 else if n >= 0x10_0000 then 0x10_0000 else if n >= 0x400
                then 0x400 else 1;
    Human(InHundredths(n, unit), unit)
  }

  /** The record's own values. */
  function ElementOf(host: Host, r: Record): Element {
    match r
    case ThreadName(pid, tid, title) => RowName(pid, tid, title)
    case Begin(ts, pid, tid, cpu, comm, stack) => GoesOn(ts, pid, tid, cpu, comm, StackSeen(host, stack))
    case End(ts, pid, tid, dur, state) => GoesOff(ts, pid, tid, dur, state)
    case Wakeup(ts, pid, tid) => Wakes(ts, pid, tid)
    case Complete(_, _, _, g, stack) =>
      Calls(SliceOf(r), if HasSize(g.opType) then Some(HumanOf(g.size)) else None, StackSeen(host, stack))
  }

  function Elements(host: Host, rs: seq<Record>): (r: seq<Element>)
    ensures |r| == |rs| && forall i :: 0 <= i < |rs| ==> r[i] == ElementOf(host, rs[i])
  {
    seq(|rs|, i requires 0 <= i < |rs| => ElementOf(host, rs[i]))
  }

  // ---- looking up a key ----

  lemma {:induction false} FindIndex(ms: seq<Member>, i: nat, key: string)
    requires i < |ms| && ms[i].key == key
    requires forall j :: 0 <= j < i ==> ms[j].key != key
    ensures Find(ms, key) == Some(ms[i].value)
  {
    if i > 0 {
      assert forall j :: 0 <= j < i - 1 ==> ms[1..][j] == ms[j + 1];
      FindIndex(ms[1..], i - 1, key);
    }
  }

  lemma {:induction false} FindMissing(ms: seq<Member>, key: string)
    requires forall j :: 0 <= j < |ms| ==> ms[j].key != key
    ensures Find(ms, key) == None
  {
    if ms != [] {
      assert forall j :: 0 <= j < |ms| - 1 ==> ms[1..][j] == ms[j + 1];
      FindMissing(ms[1..], key);
    }
  }

  lemma HeadKeys()
    ensures "cat" != "name" && "ph" !in {"name", "cat"} && "ts" !in {"name", "cat", "ph"}
    ensures "dur" !in {"name", "cat", "ph", "ts"} && "pid" !in {"name", "cat", "ph", "ts", "dur"}
    ensures "tid" !in {"name", "cat", "ph", "ts", "dur", "pid"}
    ensures "args" !in {"name", "cat", "ph", "ts", "dur", "pid", "tid"}
    ensures "s" !in {"name", "cat", "ph", "ts", "pid", "tid"}
  {
    assert "name"[0] == 'n' && "cat"[0] == 'c' && "ph"[0] == 'p' && "ts"[0] == 't' && "dur"[0] == 'd' &&
           "pid"[0] == 'p';
    assert "tid"[0] == 't' && "args"[0] == 'a' && "ph"[1] == 'h' && "pid"[1] == 'i' && "ts"[1] == 's' &&
           "tid"[1] == 'i';
    assert "s"[0] == 's';
  }

  lemma Phases()
    ensures "M" != "i" && "B" !in {"i", "M"} && "E" !in {"i", "M", "B"} && "X" !in {"i", "M", "B", "E"}
  {
    assert "M"[0] == 'M' && "B"[0] == 'B' && "E"[0] == 'E' && "X"[0] == 'X' && "i"[0] == 'i';
  }

  // ---- numbers ----

  lemma MicrosRead(n: nat)
    ensures |Micros(n).frac| == 3 && forall c :: c in Micros(n).frac ==> IsDigit(c)
    ensures 1000 * Micros(n).whole + DigitsValue(Micros(n).frac) == n
  {
    MicrosParts(n);
    var a, b, c := n / 100 % 10, n / 10 % 10, n % 10;
    ThreeDigits(Digit(a), Digit(b), Digit(c));
    assert Micros(n).frac == [Digit(a), Digit(b), Digit(c)];
  }

  lemma ThreeDigits(a: char, b: char, c: char)
    requires IsDigit(a) && IsDigit(b) && IsDigit(c)
    ensures forall d :: d in [a, b, c] ==> IsDigit(d)
    ensures forall d :: d in [a, b] ==> IsDigit(d)
    ensures DigitsValue([a, b]) == 10 * (a as int - '0' as int) + (b as int - '0' as int)
    ensures DigitsValue([a, b, c]) ==
            100 * (a as int - '0' as int) + 10 * (b as int - '0' as int) + (c as int - '0' as int)
  {
    assert [a, b, c][..2] == [a, b] && [a, b][..1] == [a] && [a][..0] == [];
    assert DigitsValue([]) == 0;
    assert DigitsValue([a]) == a as int - '0' as int;
  }

  lemma HexInReads(n: nat)
    ensures HexIn("0x" + Hex(n)) == Some(n)
  {
    hide Hex, HexNumber;
    HexReads(n);
    var s := "0x" + Hex(n);
    assert s[..2] == "0x" && s[2..] == Hex(n);
  }

  // ---- sizes for humans ----

  /** Of all multiples of d / 100, h * d / 100 is nearest to n; of two it is the even one. */
  predicate Nearest(n: nat, d: nat, h: nat) {
    var twice := 2 * (h * d);
    && twice <= 200 * n + d && 200 * n <= twice + d
    && (twice == 200 * n + d || 200 * n == twice + d ==> h % 2 == 0)
  }

  /** The printed number is the nearest one, and the even one of two that are equally near. */
  lemma HumanIsNearest(n: uint64)
    ensures var h := HumanOf(n);
            && (h.unit == 1 || h.unit <= n < 1024 * h.unit || h.unit == 0x4000_0000)
            && (h.unit == 1 ==> n < 1024) && (h.unit == 0x4000_0000 ==> h.unit <= n)
            && Nearest(n, h.unit, h.hundredths)
            && (h.unit == 1 ==> h.hundredths == 100 * n)
  {
    hide InHundredths;
    NearestHundredths(n, HumanOf(n).unit);
  }

  lemma NearestHundredths(n: nat, d: nat)
    requires d > 0
    ensures Nearest(n, d, InHundredths(n, d)) && (d == 1 ==> InHundredths(n, d) == 100 * n)
  {
    var q, r := 100 * n / d, 100 * n % d;
    assert 100 * n == q * d + r;
    assert (q + 1) * d == q * d + d;
  }

  lemma {:induction false} HumanReads(n: uint64)
    ensures ReadHuman(Str(SizeText(n))) == Some(HumanOf(n))
  {
    hide Decimal, InHundredths, DigitsValue, ReadHuman, TwoDecimals;
    Units();
    if n >= 0x4000_0000 {
      LargeReads(InHundredths(n, 0x4000_0000), " GB", 0x4000_0000);
    } else if n >= 0x10_0000 {
      LargeReads(InHundredths(n, 0x10_0000), " MB", 0x10_0000);
    } else if n >= 0x400 {
      LargeReads(InHundredths(n, 0x400), " KB", 0x400);
    } else {
      BytesRead(n);
      NearestHundredths(n, 1);
    }
  }

  lemma Units()
    ensures UnitOf(" KB") == Some(0x400) && UnitOf(" MB") == Some(0x10_0000) && UnitOf(" GB") == Some(0x4000_0000)
  {
    assert " KB"[1] == 'K' && " MB"[1] == 'M' && " GB"[1] == 'G';
  }

  lemma BytesRead(n: nat)
    ensures ReadHuman(Str(Decimal(n) + " B")) == Some(Human(100 * n, 1))
  {
    hide Decimal, DigitsValue, DigitRun;
    DecimalIsWhole(n);
    DigitRunEnds(Decimal(n), " B");
    assert (Decimal(n) + " B")[|Decimal(n)|..] == " B";
  }

  lemma LargeReads(h: nat, suffix: string, unit: nat)
    requires UnitOf(suffix) == Some(unit)
    ensures ReadHuman(Str(TwoDecimals(h) + suffix)) == Some(Human(h, unit))
  {
    hide Decimal, DigitsValue, DigitRun, Digit, UnitOf, TwoDecimals;
    var a, b := Digit(h / 10 % 10), Digit(h % 10);
    ThreeDigits(a, b, a);
    DecimalIsWhole(h / 100);
    TwoDecimalsText(h, suffix);
    assert h / 10 / 10 == h / 100;
  }

  lemma TwoDecimalsText(h: nat, suffix: string)
    requires UnitOf(suffix).Some?
    ensures var s, whole := TwoDecimals(h) + suffix, Decimal(h / 100);
            && DigitRun(s) == whole && |s| == |whole| + 6
            && var rest := s[|whole|..];
            && rest != " B" && rest[0] == '.' && rest[1..3] == [Digit(h / 10 % 10), Digit(h % 10)] &&
                 rest[3..] == suffix
  {
    hide Decimal, DigitRun, Digit;
    var whole, rest := Decimal(h / 100), "." + [Digit(h / 10 % 10), Digit(h % 10)] + suffix;
    var s := TwoDecimals(h) + suffix;
    DecimalIsWhole(h / 100);
    assert |suffix| == 3;
    assert s == whole + rest && rest[0] == '.';
    hide TwoDecimals;
    DigitRunEnds(whole, rest);
    assert s[|whole|..] == rest;
  }

  // ---- the fields of each kind of record ----

  /** The members of a record in front of "args" do not hide it. */
  lemma HeadRead(ms: seq<Member>, n: nat)
    requires n < |ms| && ms[n].key == "args"
    requires forall j :: 0 <= j < n ==> ms[j].key in {"name", "cat", "ph", "ts", "dur", "pid", "tid"}
    ensures Find(ms, "args") == Some(ms[n].value)
  {
    HeadKeys();
    FindIndex(ms, n, "args");
  }

  lemma CpuHeadRead(ms: seq<Member>, name: string, ph: string, ts: uint64, pid: uint32, tid: uint32)
    requires CpuHead(name, ph, ts, pid, tid) <= ms
    ensures TextAt(ms, "name") == Some(name) && TextAt(ms, "cat") == Some("cpu") && TextAt(ms, "ph") == Some(ph)
    ensures NanosAt(ms, "ts") == Some(ts) && NatAt(ms, "pid") == Some(pid) && NatAt(ms, "tid") == Some(tid)
  {
    hide Find, Micros, DigitsValue;
    HeadKeys();
    MicrosRead(ts);
    MicrosShape(ts);
    var head := CpuHead(name, ph, ts, pid, tid);
    assert ms[0] == head[0] && ms[1] == head[1] && ms[2] == head[2] && ms[3] == head[3] && ms[4] == head[4] &&
           ms[5] == head[5];
    FindIndex(ms, 0, "name");
    FindIndex(ms, 1, "cat");
    FindIndex(ms, 2, "ph");
    FindIndex(ms, 3, "ts");
    FindIndex(ms, 4, "pid");
    FindIndex(ms, 5, "tid");
  }

  lemma MicrosShape(n: nat)
    ensures Micros(n).Num? && !Micros(n).neg
  {
  }

  lemma NameHeadRead(ms: seq<Member>, pid: uint32, tid: uint32, title: string)
    requires HeadMembers(ThreadName(pid, tid, title)) <= ms
    ensures TextAt(ms, "name") == Some("thread_name") && TextAt(ms, "ph") == Some("M")
    ensures NatAt(ms, "pid") == Some(pid) && NatAt(ms, "tid") == Some(tid)
  {
    hide Find;
    HeadKeys();
    var head := HeadMembers(ThreadName(pid, tid, title));
    assert ms[0] == head[0] && ms[1] == head[1] && ms[2] == head[2] && ms[3] == head[3];
    FindIndex(ms, 0, "name");
    FindIndex(ms, 1, "ph");
    FindIndex(ms, 2, "pid");
    FindIndex(ms, 3, "tid");
  }

  /** The seven members in front of the arguments of a slice. */
  lemma CallHeadFinds(ms: seq<Member>, name: string, category: string, ts: Json, dur: Json, pid: uint32, tid: uint32)
    requires [Member("name", Str(name)), Member("cat", Str(category)), Member("ph", Str("X")), Member("ts", ts),
              Member("dur", dur), Member("pid", Int(pid)), Member("tid", Int(tid))] <= ms
    ensures Find(ms, "name") == Some(Str(name)) && Find(ms, "cat") == Some(Str(category))
    ensures Find(ms, "ph") == Some(Str("X")) && Find(ms, "ts") == Some(ts) && Find(ms, "dur") == Some(dur)
    ensures Find(ms, "pid") == Some(Int(pid)) && Find(ms, "tid") == Some(Int(tid))
  {
    hide Find, Int;
    HeadKeys();
    FindIndex(ms, 0, "name");
    FindIndex(ms, 1, "cat");
    FindIndex(ms, 2, "ph");
    FindIndex(ms, 3, "ts");
    FindIndex(ms, 4, "dur");
    FindIndex(ms, 5, "pid");
    FindIndex(ms, 6, "tid");
  }

  lemma CallHeadRead(ms: seq<Member>, r: Record)
    requires r.Complete? && HeadMembers(r) <= ms
    ensures TextAt(ms, "name") == Some(OpName(r.gpu.opType)) && TextAt(ms, "cat") == Some(OpCategory(r.gpu.opType))
    ensures TextAt(ms, "ph") == Some("X") && NanosAt(ms, "ts") == Some(r.ts)
    ensures NanosAt(ms, "dur") == Some(r.gpu.durationNs)
    ensures NatAt(ms, "pid") == Some(r.pid) && NatAt(ms, "tid") == Some(r.tid)
  {
    var name, category := OpName(r.gpu.opType), OpCategory(r.gpu.opType);
    var ts, dur := Micros(r.ts), Micros(r.gpu.durationNs);
    hide Find, Micros, DigitsValue, OpName, OpCategory, CpuHead;
    MicrosRead(r.ts);
    MicrosShape(r.ts);
    MicrosRead(r.gpu.durationNs);
    MicrosShape(r.gpu.durationNs);
    CallHeadFinds(ms, name, category, ts, dur, r.pid, r.tid);
  }

  // ---- the stack ----

  lemma {:induction false} StackReads(host: Host, s: Option<StackRef>)
    ensures Optional(StackMember(host, s), "stack", StackReading(Symbols(host))) == Some(StackSeen(host, s))
  {
    hide ReadFrame, ReadAddr, ReadAll, FrameTrees, AddrTrees, ShownFrames, ShownAddrs, Views;
    if s.Some? {
      var id, pid := s.value.stackId, s.value.pid;
      FramesRead(ShownFrames(host, id, pid));
      AddrsRead(ShownAddrs(host, id));
      assert Find(StackMember(host, s), "stack") == Some(StackTree(host, id, pid));
    }
  }

  lemma OptionalBehind<T>(a: seq<Member>, b: seq<Member>, key: string, read: Json -> Option<T>)
    requires Find(a, key) == None
    ensures Optional(a + b, key, read) == Optional(b, key, read)
  {
    hide Find;
    FindJoin(a, b, key);
  }

  // ---- the arguments ----

  lemma BeginRead(host: Host, r: Record)
    requires r.Begin?
    ensures var args := ArgMembers(r) + StackMember(host, StackOf(r));
            && NatAt(args, "cpu") == Some(r.cpu) && TextAt(args, "comm") == Some(r.comm)
            && Optional(args, "stack", StackReading(Symbols(host))) == Some(StackSeen(host, r.stack))
  {
    hide Find, StackTree, StackReading, StackSeen;
    BeginKeys();
    var front := ArgMembers(r);
    var args := front + StackMember(host, StackOf(r));
    assert args[0] == front[0] && args[1] == front[1];
    FindIndex(args, 0, "cpu");
    FindIndex(args, 1, "comm");
    FindMissing(front, "stack");
    StackReads(host, r.stack);
    OptionalBehind(front, StackMember(host, r.stack), "stack", StackReading(Symbols(host)));
  }

  lemma BeginKeys()
    ensures "cpu" != "comm" && "stack" !in {"cpu", "comm"} && "state" != "duration_us"
  {
    assert "cpu"[1] == 'p' && "comm"[1] == 'o' && "stack"[0] == 's' && "state"[0] == 's' && "duration_us"[0] == 'd';
  }

  lemma EndRead(args: seq<Member>, r: Record)
    requires r.End? && args == ArgMembers(r)
    ensures NanosAt(args, "duration_us") == Some(r.durationNs) && NatAt(args, "state") == Some(r.state)
  {
    hide Find, Micros, DigitsValue;
    BeginKeys();
    MicrosRead(r.durationNs);
    MicrosShape(r.durationNs);
    FindIndex(args, 0, "duration_us");
    FindIndex(args, 1, "state");
  }

  lemma CallKeys()
    ensures "ret" != "comm"
  {
    assert "ret"[0] == 'r' && "comm"[0] == 'c';
  }

  lemma CallFront(host: Host, r: Record)
    requires r.Complete?
    ensures var args := ArgMembers(r) + StackMember(host, StackOf(r));
            IntAt(args, "ret") == Some(r.gpu.retVal) && TextAt(args, "comm") == Some(r.gpu.comm)
  {
    hide Find, GpuArgs, StackMember;
    CallKeys();
    FrontArgs(r.gpu);
    var args := ArgMembers(r) + StackMember(host, StackOf(r));
    assert args[0] == GpuArgs(r.gpu)[0] && args[1] == GpuArgs(r.gpu)[1];
    FindIndex(args, 0, "ret");
    FindIndex(args, 1, "comm");
  }

  /** An optional field in front of the stack. */
  lemma CallOption<T>(host: Host, r: Record, key: string, read: Json -> Option<T>, x: Option<T>)
    requires r.Complete? && key in {"stream_id", "async", "size_bytes", "size", "ptr"}
    requires match Find(GpuArgs(r.gpu), key) case None => x == None case Some(v) => x.Some? && read(v) == x
    ensures Optional(ArgMembers(r) + StackMember(host, StackOf(r)), key, read) == Some(x)
  {
    hide Find, GpuArgs, StackMember;
    GpuKeyNames();
    FindJoin(GpuArgs(r.gpu), StackMember(host, r.stack), key);
    NotTheStack(host, r.stack, key);
  }

  lemma CallOptions(host: Host, r: Record)
    requires r.Complete?
    ensures var args, slice := ArgMembers(r) + StackMember(host, StackOf(r)), SliceOf(r);
            && Optional(args, "stream_id", ReadPointer) == Some(slice.streamId)
            && Optional(args, "async", ReadTrue) == Some(if slice.async then Some(true) else None)
            && Optional(args, "size_bytes", ReadBytes) == Some(slice.size)
            && Optional(args, "ptr", ReadPointer) == Some(slice.ptr)
  {
    hide GpuArgs, Find, Hex, OpName, OpCategory, HexIn, HasSize, Optional, StackMember, ArgMembers;
    var g := r.gpu;
    GpuFinds(g, "stream_id");
    GpuFinds(g, "async");
    GpuFinds(g, "size_bytes");
    GpuFinds(g, "ptr");
    HexInReads(g.streamId);
    HexInReads(g.ptr);
    CallOption(host, r, "stream_id", ReadPointer, SliceOf(r).streamId);
    CallOption(host, r, "async", ReadTrue, if SliceOf(r).async then Some(true) else None);
    CallOption(host, r, "size_bytes", ReadBytes, SliceOf(r).size);
    CallOption(host, r, "ptr", ReadPointer, SliceOf(r).ptr);
  }

  lemma CallHumanAndStack(host: Host, r: Record)
    requires r.Complete?
    ensures var args := ArgMembers(r) + StackMember(host, StackOf(r));
            && Optional(args, "size", ReadHuman) ==
                 Some(if HasSize(r.gpu.opType) then Some(HumanOf(r.gpu.size)) else None)
            && Optional(args, "stack", StackReading(Symbols(host))) == Some(StackSeen(host, r.stack))
  {
    hide GpuArgs, Find, SizeText, HumanOf, ReadHuman, HasSize, Optional, StackMember, StackReading, StackSeen;
    GpuFinds(r.gpu, "size");
    GpuFinds(r.gpu, "stack");
    HumanReads(r.gpu.size);
    CallOption(host, r, "size", ReadHuman, if HasSize(r.gpu.opType) then Some(HumanOf(r.gpu.size)) else None);
    StackReads(host, r.stack);
    OptionalBehind(GpuArgs(r.gpu), StackMember(host, r.stack), "stack", StackReading(Symbols(host)));
  }

  // ---- one record ----

  lemma NameRowReads(host: Host, r: Record)
    requires r.ThreadName?
    ensures ReadElement(RecordTree(host, r), Symbols(host)) == Some(ElementOf(host, r))
  {
    hide Find, TextAt, NatAt;
    var ms := RecordTree(host, r).members;
    Phases();
    NameHeadRead(ms, r.pid, r.tid, r.title);
    HeadRead(ms, 4);
    TitleRead(r.title);
    assert [Member("name", Str(r.title))] + [] == [Member("name", Str(r.title))];
  }

  lemma TitleRead(title: string)
    ensures TextAt([Member("name", Str(title))], "name") == Some(title)
  {
  }

  lemma BeginReads(host: Host, r: Record)
    requires r.Begin?
    ensures ReadElement(RecordTree(host, r), Symbols(host)) == Some(ElementOf(host, r))
  {
    hide Find, TextAt, NatAt, NanosAt, Optional, StackMember, StackSeen, StackReading, Micros;
    var ms := RecordTree(host, r).members;
    Phases();
    CpuHeadRead(ms, "On-CPU", "B", r.ts, r.pid, r.tid);
    HeadRead(ms, 6);
    BeginRead(host, r);
  }

  lemma EndReads(host: Host, r: Record)
    requires r.End?
    ensures ReadElement(RecordTree(host, r), Symbols(host)) == Some(ElementOf(host, r))
  {
    hide Find, TextAt, NatAt, NanosAt, Micros;
    var ms := RecordTree(host, r).members;
    Phases();
    CpuHeadRead(ms, "On-CPU", "E", r.ts, r.pid, r.tid);
    HeadRead(ms, 6);
    EndRead(ArgMembers(r), r);
    assert ArgMembers(r) + [] == ArgMembers(r);
  }

  lemma WakeupReads(host: Host, r: Record)
    requires r.Wakeup?
    ensures ReadElement(RecordTree(host, r), Symbols(host)) == Some(ElementOf(host, r))
  {
    hide Find, TextAt, NatAt, NanosAt, Micros;
    var ms := RecordTree(host, r).members;
    CpuHeadRead(ms, "Wakeup", "i", r.ts, r.pid, r.tid);
    HeadKeys();
    FindIndex(ms, 6, "s");
  }

  lemma CallReads(host: Host, r: Record)
    requires r.Complete?
    ensures ReadElement(RecordTree(host, r), Symbols(host)) == Some(ElementOf(host, r))
  {
    hide Find, TextAt, NatAt, IntAt, NanosAt, Optional, StackMember, StackSeen, StackReading, Micros, HumanOf, GpuArgs,
      OpName, OpCategory, HasSize;
    var ms := RecordTree(host, r).members;
    Phases();
    CallHeadRead(ms, r);
    HeadRead(ms, 7);
    CallFront(host, r);
    CallOptions(host, r);
    CallHumanAndStack(host, r);
  }

  /** Looking its fields up by key, a reader finds every record's own values. */
  lemma RecordReads(host: Host, r: Record)
    ensures ReadElement(RecordTree(host, r), Symbols(host)) == Some(ElementOf(host, r))
  {
    hide *;
    match r
    case ThreadName(_, _, _) => NameRowReads(host, r);
    case Begin(_, _, _, _, _, _) => BeginReads(host, r);
    case End(_, _, _, _, _) => EndReads(host, r);
    case Wakeup(_, _, _) => WakeupReads(host, r);
    case Complete(_, _, _, _, _) => CallReads(host, r);
  }

  lemma {:induction false} RecordsRead(host: Host, rs: seq<Record>)
    ensures ReadAll(RecordTrees(host, rs), Reading(Symbols(host))) == Some(Elements(host, rs))
  {
    hide RecordTree, ReadElement, ElementOf;
    if rs == [] {
      assert Elements(host, rs) == [];
    } else {
      var init, last := rs[..|rs| - 1], rs[|rs| - 1];
      RecordsRead(host, init);
      RecordReads(host, last);
      assert Elements(host, rs) == Elements(host, init) + [ElementOf(host, last)];
      ReadAllSnoc(RecordTrees(host, init), RecordTree(host, last), Reading(Symbols(host)), Elements(host, init),
                  ElementOf(host, last));
    }
  }

  // ---- the file ----

  lemma TraceOfDocument(text: string, symbols: bool, w: Json, items: seq<Json>)
    requires ReadDocument(text) == Some(w) && w.Obj? && Find(w.members, "traceEvents") == Some(Arr(items))
    ensures ReadTrace(text, symbols) == ReadAll(items, Reading(symbols))
  {
    hide ReadDocument, Find, ReadAll, Reading;
  }

  lemma LegalMeansRead(host: Host, events: seq<UnifiedEvent>)
    requires PrintedNames(events, Legal)
    ensures ReadTrace(FileText(host, events), Symbols(host)) == Some(Elements(host, TraceEvents(events)))
  {
    hide *;
    FileParsesIff(host, events);
    DocumentEvents(host, events);
    RecordsRead(host, TraceEvents(events));
    TraceOfDocument(FileText(host, events), Symbols(host), DocumentTree(host, events),
                    RecordTrees(host, TraceEvents(events)));
  }

  // ---- names that are not legal are not read ----

  lemma {:induction false} FoundIsWell(ms: seq<Member>, key: string)
    requires WellFormedMembers(ms) && Find(ms, key).Some?
    ensures WellFormed(Find(ms, key).value)
  {
    if ms[0].key != key {
      FoundIsWell(ms[1..], key);
    }
  }

  lemma TextIsLegal(ms: seq<Member>, key: string)
    requires WellFormedMembers(ms) && TextAt(ms, key).Some?
    ensures Legal(TextAt(ms, key).value)
  {
    hide Find;
    FoundIsWell(ms, key);
  }

  function NameIn(e: Element): Option<string> {
    match e
    case RowName(_, _, title) => Some(title)
    case GoesOn(_, _, _, _, comm, _) => Some(comm)
    case Calls(slice, _, _) => Some(slice.comm)
    case _ => None
  }

  lemma ElementNameIsLegal(v: Json, symbols: bool)
    requires WellFormed(v) && ReadElement(v, symbols).Some? && NameIn(ReadElement(v, symbols).value).Some?
    ensures Legal(NameIn(ReadElement(v, symbols).value).value)
  {
    hide Find, TextAt, NatAt, IntAt, NanosAt, Optional, Legal, ReadPointer, ReadTrue, ReadBytes, ReadHuman,
    StackReading;
    FoundIsWell(v.members, "args");
    var args := Find(v.members, "args").value.members;
    if TextAt(args, "name").Some? {
      TextIsLegal(args, "name");
    }
    if TextAt(args, "comm").Some? {
      TextIsLegal(args, "comm");
    }
  }

  lemma {:induction false} ReadAllAt<T>(items: seq<Json>, read: Json -> Option<T>, k: nat)
    requires ReadAll(items, read).Some? && k < |items|
    ensures |ReadAll(items, read).value| == |items| && read(items[k]) == Some(ReadAll(items, read).value[k])
  {
    var n := |items| - 1;
    ReadAllLong(items[..n], read);
    if k < n {
      ReadAllAt(items[..n], read, k);
    }
  }

  lemma {:induction false} ReadAllLong<T>(items: seq<Json>, read: Json -> Option<T>)
    requires ReadAll(items, read).Some?
    ensures |ReadAll(items, read).value| == |items|
  {
    if items != [] {
      ReadAllLong(items[..|items| - 1], read);
    }
  }

  lemma DocumentIsWell(text: string)
    requires ReadDocument(text).Some?
    ensures WellFormed(ReadDocument(text).value)
  {
  }

  lemma TraceParts(text: string, symbols: bool) returns (items: seq<Json>)
    requires ReadTrace(text, symbols).Some?
    ensures WellFormedItems(items) && ReadTrace(text, symbols) == ReadAll(items, Reading(symbols))
  {
    hide ReadDocument, Find, ReadAll, Reading;
    var w := ReadDocument(text).value;
    DocumentIsWell(text);
    FoundIsWell(w.members, "traceEvents");
    items := Find(w.members, "traceEvents").value.items;
  }

  lemma {:induction false} ReadNamesAreLegal(text: string, symbols: bool, k: nat)
    requires ReadTrace(text, symbols).Some? && k < |ReadTrace(text, symbols).value|
    ensures var name := NameIn(ReadTrace(text, symbols).value[k]); name.Some? ==> Legal(name.value)
  {
    hide *;
    var items := TraceParts(text, symbols);
    ReadAllLong(items, Reading(symbols));
    ReadAllAt(items, Reading(symbols), k);
    ItemIsWell(items, k);
    ReadingIs(items[k], symbols);
    if NameIn(ReadTrace(text, symbols).value[k]).Some? {
      ElementNameIsLegal(items[k], symbols);
    }
  }

  lemma ReadingIs(v: Json, symbols: bool)
    ensures Reading(symbols)(v) == ReadElement(v, symbols)
  {
  }

  lemma NameOfElement(host: Host, r: Record)
    ensures NameIn(ElementOf(host, r)) == NameText(r)
  {
    hide HumanOf, StackSeen;
  }

  lemma {:induction false} ReadMeansLegal(host: Host, events: seq<UnifiedEvent>)
    requires ReadTrace(FileText(host, events), Symbols(host)) == Some(Elements(host, TraceEvents(events)))
    ensures AllNames(TraceEvents(events), Legal)
  {
    hide FileText, TraceEvents, ReadTrace, Legal, NameIn, NameText, ElementOf;
    var rs := TraceEvents(events);
    forall i | 0 <= i < |rs| && NameText(rs[i]).Some? ensures Legal(NameText(rs[i]).value) {
      ReadNamesAreLegal(FileText(host, events), Symbols(host), i);
      NameOfElement(host, rs[i]);
    }
  }

  /** Looking up every field by key, a reader of the file finds exactly the printed records' own values,
      if and only if every printed thread name is a legal string body.  Times are nanoseconds again. */
  lemma {:induction false} TraceReadIff(host: Host, events: seq<UnifiedEvent>)
    ensures ReadTrace(FileText(host, events), Symbols(host)) == Some(Elements(host, TraceEvents(events))) <==>
            PrintedNames(events, Legal)
  {
    hide *;
    TitlesLegal();
    PrintedNamesAre(events, Legal);
    if ReadTrace(FileText(host, events), Symbols(host)) == Some(Elements(host, TraceEvents(events))) {
      ReadMeansLegal(host, events);
    }
    if PrintedNames(events, Legal) {
      LegalMeansRead(host, events);
    }
  }

  // ---- the rest of the document ----

  /** The number of events that the metadata gives, in a file that shows milliseconds. */
  function ReadEventCount(text: string): Option<nat> {
    var v :- ReadDocument(text);
    if !v.Obj? || TextAt(v.members, "displayTimeUnit") != Some("ms") then None
    else
      match Find(v.members, "metadata")
      case Some(Obj(ms)) => if TextAt(ms, "tool") == Some("ebpf-unified-trace") then NatAt(ms, "event_count") else None
      case _ => None
  }

  lemma {:induction false} EventCountRead(host: Host, events: seq<UnifiedEvent>)
    requires PrintedNames(events, Legal)
    ensures ReadEventCount(FileText(host, events)) == Some(|events|)
  {
    hide ReadDocument, FileText, DocumentTree, RecordTrees, MetadataTree, TraceEvents, PrintedNames, Find, NatAt,
    TextAt;
    FileParsesIff(host, events);
    MetadataFound(host, events);
    CountFound(|events|);
  }

  lemma MetadataFound(host: Host, events: seq<UnifiedEvent>)
    ensures DocumentTree(host, events).Obj?
    ensures Find(DocumentTree(host, events).members, "metadata") == Some(MetadataTree(|events|))
    ensures TextAt(DocumentTree(host, events).members, "displayTimeUnit") == Some("ms")
  {
    hide RecordTrees, TraceEvents, MetadataTree, Find;
    assert "traceEvents"[0] == 't' && "displayTimeUnit"[0] == 'd' && "metadata"[0] == 'm';
    FindIndex(DocumentTree(host, events).members, 1, "displayTimeUnit");
    FindIndex(DocumentTree(host, events).members, 2, "metadata");
  }

  lemma CountFound(n: nat)
    ensures MetadataTree(n).Obj? && TextAt(MetadataTree(n).members, "tool") == Some("ebpf-unified-trace")
    ensures NatAt(MetadataTree(n).members, "event_count") == Some(n)
  {
    hide Find;
    assert "event_count"[0] == 'e' && "tool"[0] == 't';
    FindIndex(MetadataTree(n).members, 0, "event_count");
    FindIndex(MetadataTree(n).members, 1, "tool");
  }
}
