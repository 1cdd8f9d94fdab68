// The names a reader finds in the printed file: they are the names of the traced threads if and only
// if no printed name contains a quote, a backslash or a control byte.
module NameProofs {

  import opened Types
  import opened Escaping
  import opened JsonText
  import opened Misreading
  import opened StackJson
  import opened StackReader
  import opened Collector
  import opened ChromeTrace
  import opened TraceProofs
  import opened DocumentProofs

  // ---- an independent reader of names ----

  /** The name in one element of traceEvents: "name" of a metadata record, "comm" of any other. */
  function ReadName(item: Json): Option<string> {
    if !item.Obj? then None
    else
      match Find(item.members, "args")
      case Some(Obj(args)) =>
        var key := if Find(item.members, "ph") == Some(Str("M")) then "name" else "comm";
        (match Find(args, key)
         case Some(Str(body)) => Decode(body)
         case _ => None)
      case _ => None
  }

  /** The names of all elements of traceEvents, in order. */
  function ReadNames(text: string): Option<seq<Option<string>>> {
    var v :- ReadDocument(text);
    if !v.Obj? then None
    else
      match Find(v.members, "traceEvents")
      case Some(Arr(items)) => Some(NamesIn(items))
      case _ => None
  }

  function NamesIn(items: seq<Json>): seq<Option<string>> {
    seq(|items|, i requires 0 <= i < |items| => ReadName(items[i]))
  }

  /** The names that should be found. */
  function Names(rs: seq<Record>): seq<Option<string>> {
    seq(|rs|, i requires 0 <= i < |rs| => NameText(rs[i]))
  }

  // ---- framing ----

  predicate FramedMember(m: Member) {
    Legal(m.key) && Framed(m.value)
  }

  lemma {:induction false} FramedByIndex(ms: seq<Member>)
    ensures FramedMembers(ms) <==> forall i :: 0 <= i < |ms| ==> FramedMember(ms[i])
  {
    if ms != [] {
      FramedByIndex(ms[1..]);
      assert FramedMember(ms[0]) <==> Legal(ms[0].key) && Framed(ms[0].value);
      assert forall i :: 0 < i < |ms| ==> ms[i] == ms[1..][i - 1];
      assert forall i :: 0 <= i < |ms[1..]| ==> ms[1..][i] == ms[i + 1];
    }
  }

  lemma FramedJoin(a: seq<Member>, b: seq<Member>)
    requires FramedMembers(a) && FramedMembers(b)
    ensures FramedMembers(a + b)
  {
    FramedByIndex(a);
    FramedByIndex(b);
    FramedByIndex(a + b);
    hide FramedMembers, FramedMember;
    var ms := a + b;
    forall i | 0 <= i < |ms| ensures FramedMember(ms[i]) {
      assert ms[i] == if i < |a| then a[i] else b[i - |a|];
    }
  }

  /** Putting any string body into a member keeps the frame. */
  lemma FramedPut(ms: seq<Member>, i: nat, key: string, body: string)
    requires FramedMembers(ms) && i < |ms| && Legal(key)
    ensures FramedMembers(ms[i := Member(key, Str(body))])
  {
    FramedByIndex(ms);
    FramedByIndex(ms[i := Member(key, Str(body))]);
    hide FramedMembers;
  }

  // ---- where the name stands in a record ----

  /** The record with another name. */
  function Renamed(r: Record, name: string): Record {
    match r
    case ThreadName(_, _, _) => r.(title := name)
    case Begin(_, _, _, _, _, _) => r.(comm := name)
    case Complete(_, _, _, g, _) => r.(gpu := g.(comm := name))
    case _ => r
  }

  function NameKey(r: Record): string {
    if r.ThreadName? then "name" else "comm"
  }

  /** Its index among the members of "args". */
  function NameAt(r: Record): nat {
    if r.ThreadName? then 0 else 1
  }

  lemma WithPut(ms: seq<Member>, present: bool, key: string, v: Json, m: Member)
    requires |ms| >= 2
    ensures With(ms, present, key, v)[1 := m] == With(ms[1 := m], present, key, v)
    ensures |With(ms, present, key, v)| >= 2 && With(ms, present, key, v)[0] == ms[0]
  {
  }

  lemma GpuRenamed(g: CudaEvent, name: string)
    ensures |GpuArgs(g)| >= 2 && GpuArgs(g)[0].key == "ret"
    ensures GpuArgs(g.(comm := name)) == GpuArgs(g)[1 := Member("comm", Str(name))]
  {
    hide With, Hex, SizeText, Int, Signed;
    var m := Member("comm", Str(name));
    var m0 := [Member("ret", Signed(g.retVal)), Member("comm", Str(g.comm))];
    var m1 := With(m0, g.streamId != 0, "stream_id", Str("0x" + Hex(g.streamId)));
    var m2 := With(m1, g.flags & FLAG_ASYNC != 0, "async", Word("true"));
    var m3 := With(m2, HasSize(g.opType), "size_bytes", Int(g.size));
    var m4 := With(m3, HasSize(g.opType), "size", Str(SizeText(g.size)));
    WithPut(m0, g.streamId != 0, "stream_id", Str("0x" + Hex(g.streamId)), m);
    WithPut(m1, g.flags & FLAG_ASYNC != 0, "async", Word("true"), m);
    WithPut(m2, HasSize(g.opType), "size_bytes", Int(g.size), m);
    WithPut(m3, HasSize(g.opType), "size", Str(SizeText(g.size)), m);
    WithPut(m4, g.opType == 2 && g.ptr != 0, "ptr", Str("0x" + Hex(g.ptr)), m);
    assert m0[1 := m] == [Member("ret", Signed(g.retVal)), m];
  }

  /** The arguments of a record are those of a renamed one, with the name put back. */
  lemma ArgsRenamed(r: Record, name: string)
    requires NameText(r).Some?
    ensures !r.Wakeup? && !Renamed(r, name).Wakeup?
    ensures NameAt(r) < |ArgMembers(Renamed(r, name))|
    ensures ArgMembers(r) == ArgMembers(Renamed(r, name))[NameAt(r) := Member(NameKey(r), Str(NameText(r).value))]
    ensures HeadMembers(Renamed(r, name)) == HeadMembers(r)
    ensures StackOf(Renamed(r, name)) == StackOf(r)
  {
    hide GpuArgs, Int, Micros;
    if r.Complete? {
      GpuRenamed(r.gpu.(comm := name), r.gpu.comm);
      assert r.gpu.(comm := name).(comm := r.gpu.comm) == r.gpu;
    }
  }

  lemma RecordFramed(host: Host, r: Record)
    ensures Framed(RecordTree(host, r))
  {
    HeadGood(r);
    WellFramedMembers(HeadMembers(r));
    KeysPlain();
    hide HeadMembers, ArgMembers, StackMember, FramedMembers, Legal;
    if !r.Wakeup? {
      ArgsFramed(r);
      StackGood(host, StackOf(r));
      WellFramedMembers(StackMember(host, StackOf(r)));
      FramedJoin(ArgMembers(r), StackMember(host, StackOf(r)));
      var args := Obj(ArgMembers(r) + StackMember(host, StackOf(r)));
      OneFramed("args", args);
      FramedJoin(HeadMembers(r), [Member("args", args)]);
    }
  }

  lemma KeysPlain()
    ensures Legal("args") && Legal("name") && Legal("comm")
  {
    HeadKeysPlain();
    ArgKeysPlain();
    PlainIsLegal("args");
    PlainIsLegal("name");
    PlainIsLegal("comm");
  }

  lemma OneFramed(key: string, v: Json)
    requires Legal(key) && Framed(v)
    ensures FramedMembers([Member(key, v)])
  {
    assert [Member(key, v)][1..] == [];
  }

  lemma ArgsFramed(r: Record)
    requires !r.Wakeup?
    ensures FramedMembers(ArgMembers(r))
  {
    KeysPlain();
    var plain := Renamed(r, "");
    hide ArgMembers, FramedMembers;
    assert NamesLegal(plain);
    ArgsGood(plain);
    WellFramedMembers(ArgMembers(plain));
    if NameText(r).Some? {
      ArgsRenamed(r, "");
      FramedPut(ArgMembers(plain), NameAt(r), NameKey(r), NameText(r).value);
    } else {
      assert plain == r;
    }
  }

  lemma {:induction false} RecordsFramed(host: Host, rs: seq<Record>)
    ensures FramedItems(RecordTrees(host, rs))
  {
    hide RecordTree;
    if rs != [] {
      var init, last := rs[..|rs| - 1], rs[|rs| - 1];
      RecordsFramed(host, init);
      RecordFramed(host, last);
      FramedSnoc(RecordTrees(host, init), RecordTree(host, last));
    }
  }

  lemma {:induction false} FramedSnoc(xs: seq<Json>, x: Json)
    requires FramedItems(xs) && Framed(x)
    ensures FramedItems(xs + [x])
  {
    hide Framed;
    if xs == [] {
      assert xs + [x] == [x] && [x][1..] == [];
    } else {
      FramedSnoc(xs[1..], x);
      assert (xs + [x])[1..] == xs[1..] + [x];
    }
  }

  lemma DocumentFramed(host: Host, events: seq<UnifiedEvent>)
    ensures Framed(DocumentTree(host, events))
  {
    hide RecordTrees, TraceEvents, MetadataTree, FramedMembers, FramedItems, Legal, WellFormed;
    var trees := RecordTrees(host, TraceEvents(events));
    var a, b, c := Member("traceEvents", Arr(trees)), Member("displayTimeUnit", Str("ms")),
                   Member("metadata", MetadataTree(|events|));
    RecordsFramed(host, TraceEvents(events));
    DocumentKeysPlain();
    PlainIsLegal("traceEvents");
    PlainIsLegal("displayTimeUnit");
    MetadataFramed(|events|);
    OneFramed("traceEvents", Arr(trees));
    OneFramed("displayTimeUnit", Str("ms"));
    FramedJoin([a], [b]);
    FramedJoin([a] + [b], [c]);
    assert [a] + [b] + [c] == [a, b, c];
  }

  lemma MetadataFramed(n: nat)
    ensures FramedMembers([Member("metadata", MetadataTree(n))])
  {
    MetadataGood(n);
    WellFramed(MetadataTree(n));
    OneFramed("metadata", MetadataTree(n));
  }

  // ---- what is found where a name was printed ----

  lemma {:induction false} FollowsPrefix(ws: seq<Member>, pre: seq<Member>, m: Member, post: seq<Member>)
    requires FollowsMembers(ws, pre + ([m] + post)) && WellFormedMembers(pre)
    ensures |ws| > |pre| && ws[..|pre|] == pre && ws[|pre|].key == m.key && Follows(ws[|pre|].value, m.value)
  {
    var ms := pre + ([m] + post);
    if pre == [] {
      assert ms[0] == m;
    } else {
      assert ms[0] == pre[0] && ms[1..] == pre[1..] + ([m] + post);
      FollowsPrefix(ws[1..], pre[1..], m, post);
      assert ws[0] == pre[0] && ws[1..][..|pre| - 1] == pre[1..];
      assert ws[..|pre|] == [ws[0]] + ws[1..][..|pre| - 1];
    }
  }

  lemma {:induction false} FindAfter(ws: seq<Member>, n: nat, key: string)
    requires n < |ws| && Find(ws[..n], key).None? && ws[n].key == key
    ensures Find(ws, key) == Some(ws[n].value)
  {
    if n > 0 {
      assert ws[..n][0] == ws[0] && ws[..n][1..] == ws[1..][..n - 1];
      FindAfter(ws[1..], n - 1, key);
    }
  }

  lemma {:induction false} FindWithin(ws: seq<Member>, n: nat, key: string)
    requires n <= |ws| && Find(ws[..n], key).Some?
    ensures Find(ws, key) == Find(ws[..n], key)
  {
    if n > 0 {
      assert ws[..n][0] == ws[0] && ws[..n][1..] == ws[1..][..n - 1];
      if ws[0].key != key {
        FindWithin(ws[1..], n - 1, key);
      }
    }
  }

  lemma HeadFinds(r: Record)
    ensures var head := HeadMembers(r);
            && Find(head, "args") == None
            && Find(head, "ph").Some?
            && (Find(head, "ph") == Some(Str("M")) <==> r.ThreadName?)
  {
    hide Int, Micros, OpName, OpCategory;
    Differ();
    match r
    case ThreadName(pid, tid, _) => FindFour(Str("thread_name"), Str("M"), Int(pid), Int(tid));
    case Begin(ts, pid, tid, _, _, _) => FindSix(Str("On-CPU"), Str("cpu"), Str("B"), Micros(ts), Int(pid), Int(tid));
    case End(ts, pid, tid, _, _) => FindSix(Str("On-CPU"), Str("cpu"), Str("E"), Micros(ts), Int(pid), Int(tid));
    case Wakeup(ts, pid, tid) =>
      FindSix(Str("Wakeup"), Str("cpu"), Str("i"), Micros(ts), Int(pid), Int(tid));
      KeyNames();
      FindNothing("s", Str("t"));
      FindJoin(CpuHead("Wakeup", "i", ts, pid, tid), [Member("s", Str("t"))], "args");
      FindJoin(CpuHead("Wakeup", "i", ts, pid, tid), [Member("s", Str("t"))], "ph");
    case Complete(ts, pid, tid, g, _) =>
      FindSeven(Str(OpName(g.opType)), Str(OpCategory(g.opType)), Micros(ts), Micros(g.durationNs), Int(pid), Int(tid));
  }

  lemma Differ()
    ensures "M" != "B" && "M" != "E" && "M" != "i" && "M" != "X"
  {
    assert "M"[0] != "B"[0] && "M"[0] != "E"[0] && "M"[0] != "i"[0] && "M"[0] != "X"[0];
  }

  lemma FindNothing(key: string, v: Json)
    ensures key != "args" ==> Find([Member(key, v)], "args") == None
    ensures Find([], "args") == None
  {
    assert [Member(key, v)][1..] == [];
  }

  /** One step of the search. */
  lemma FindStep(m: Member, ms: seq<Member>, key: string)
    ensures Find([m] + ms, key) == if m.key == key then Some(m.value) else Find(ms, key)
  {
    assert ([m] + ms)[1..] == ms;
  }

  lemma KeyNames()
    ensures "args" !in {"name", "cat", "ph", "ts", "dur", "pid", "tid", "s"}
    ensures "ph" !in {"name", "cat"}
  {
    assert "args"[0] == 'a' && "name"[0] == 'n' && "cat"[0] == 'c' && "ph"[0] == 'p' && "ts"[0] == 't' &&
           "dur"[0] == 'd'
           && "pid"[0] == 'p' && "tid"[0] == 't' && "s"[0] == 's';
  }

  lemma FindFour(a: Json, b: Json, c: Json, d: Json)
    ensures var ms := [Member("name", a), Member("ph", b), Member("pid", c), Member("tid", d)];
            Find(ms, "args") == None && Find(ms, "ph") == Some(b)
  {
    hide Find;
    KeyNames();
    FindNothing("tid", d);
    var m3 := [Member("tid", d)];
    var m2 := [Member("pid", c)] + m3;
    var m1 := [Member("ph", b)] + m2;
    FindStep(Member("pid", c), m3, "args");
    FindStep(Member("ph", b), m2, "args");
    FindStep(Member("ph", b), m2, "ph");
    FindStep(Member("name", a), m1, "args");
    FindStep(Member("name", a), m1, "ph");
    assert [Member("name", a)] + m1 == [Member("name", a), Member("ph", b), Member("pid", c), Member("tid", d)];
  }

  lemma {:induction false} FindJoin(a: seq<Member>, b: seq<Member>, key: string)
    ensures Find(a + b, key) == if Find(a, key).Some? then Find(a, key) else Find(b, key)
  {
    if a == [] {
      assert a + b == b;
    } else {
      assert (a + b)[1..] == a[1..] + b;
      FindJoin(a[1..], b, key);
    }
  }

  lemma FindSix(a: Json, b: Json, c: Json, d: Json, e: Json, f: Json)
    ensures var ms := [Member("name", a), Member("cat", b), Member("ph", c), Member("ts", d), Member("pid", e),
                       Member("tid", f)];
            Find(ms, "args") == None && Find(ms, "ph") == Some(c)
  {
    hide Find;
    KeyNames();
    FindNothing("tid", f);
    var m5 := [Member("tid", f)];
    var m4 := [Member("pid", e)] + m5;
    var m3 := [Member("ts", d)] + m4;
    var m2 := [Member("ph", c)] + m3;
    var m1 := [Member("cat", b)] + m2;
    FindStep(Member("pid", e), m5, "args");
    FindStep(Member("ts", d), m4, "args");
    FindStep(Member("ph", c), m3, "args");
    FindStep(Member("ph", c), m3, "ph");
    FindStep(Member("cat", b), m2, "args");
    FindStep(Member("cat", b), m2, "ph");
    FindStep(Member("name", a), m1, "args");
    FindStep(Member("name", a), m1, "ph");
    assert [Member("name", a)] + m1 ==
           [Member("name", a), Member("cat", b), Member("ph", c), Member("ts", d), Member("pid", e), Member("tid", f)];
  }

  lemma FindSeven(a: Json, b: Json, d: Json, e: Json, f: Json, g: Json)
    ensures var ms := [Member("name", a), Member("cat", b), Member("ph", Str("X")), Member("ts", d), Member("dur", e),
                       Member("pid", f), Member("tid", g)];
            Find(ms, "args") == None && Find(ms, "ph") == Some(Str("X"))
  {
    hide Find;
    KeyNames();
    var tail := [Member("ts", d), Member("dur", e), Member("pid", f), Member("tid", g)];
    FindNothing("tid", g);
    FindStep(Member("pid", f), [Member("tid", g)], "args");
    FindStep(Member("dur", e), [Member("pid", f)] + [Member("tid", g)], "args");
    FindStep(Member("ts", d), [Member("dur", e)] + ([Member("pid", f)] + [Member("tid", g)]), "args");
    assert tail == [Member("ts", d)] + ([Member("dur", e)] + ([Member("pid", f)] + [Member("tid", g)]));
    var m2 := [Member("ph", Str("X"))] + tail;
    var m1 := [Member("cat", b)] + m2;
    FindStep(Member("ph", Str("X")), tail, "args");
    FindStep(Member("ph", Str("X")), tail, "ph");
    FindStep(Member("cat", b), m2, "args");
    FindStep(Member("cat", b), m2, "ph");
    FindStep(Member("name", a), m1, "args");
    FindStep(Member("name", a), m1, "ph");
    assert [Member("name", a)] + m1 == [Member("name", a), Member("cat", b), Member("ph", Str("X"))] + tail;
    assert [Member("name", a), Member("cat", b), Member("ph", Str("X"))] + tail ==
           [Member("name", a), Member("cat", b), Member("ph", Str("X")), Member("ts", d), Member("dur", e),
            Member("pid", f), Member("tid", g)];
  }

  lemma ArgKeyNames()
    ensures "comm" !in {"cpu", "duration_us", "state", "ret", "name", "stack"}
  {
    assert "comm"[1] == 'o' && "cpu"[1] == 'p' && "duration_us"[0] == 'd' && "state"[0] == 's' && "ret"[0] == 'r'
           && "name"[0] == 'n' && "stack"[0] == 's';
  }

  /** The arguments in front of the name do not hold its key. */
  lemma ArgsSplit(r: Record)
    requires NameText(r).Some?
    ensures !r.Wakeup? && NameAt(r) < |ArgMembers(r)|
    ensures ArgMembers(r)[NameAt(r)] == Member(NameKey(r), Str(NameText(r).value))
    ensures Find(ArgMembers(r)[..NameAt(r)], NameKey(r)) == None
    ensures WellFormedMembers(ArgMembers(r)[..NameAt(r)])
  {
    ArgsRenamed(r, "");
    ArgKeyNames();
    ArgKeysPlain();
    HeadValuesPlain();
    PlainIsLegal("cpu");
    PlainIsLegal("ret");
    hide Legal, Plain, ArgMembers;
    var front := ArgMembers(r)[..NameAt(r)];
    if r.ThreadName? {
      assert front == [];
    } else {
      FirstArg(r);
      assert front == [ArgMembers(r)[0]] && front[1..] == [];
    }
  }

  lemma FirstArg(r: Record)
    requires r.Begin? || r.Complete?
    ensures |ArgMembers(r)| >= 2 && (ArgMembers(r)[0].key == "cpu" || ArgMembers(r)[0].key == "ret")
    ensures ArgMembers(r)[0].value.Num? && ArgMembers(r)[0].value.frac == ""
  {
    if r.Complete? {
      FirstGpuArg(r.gpu);
    }
  }

  lemma FirstGpuArg(g: CudaEvent)
    ensures |GpuArgs(g)| >= 2 && GpuArgs(g)[0] == Member("ret", Signed(g.retVal))
  {
    hide Hex, SizeText;
  }

  /** Where a record's tree was printed, the name found is the record's name exactly when that name
      needs no escaping. */
  lemma NameFoundIff(host: Host, r: Record, w: Json)
    requires NameText(r).Some? && Follows(w, RecordTree(host, r))
    ensures ReadName(w) == NameText(r) <==> Plain(NameText(r).value)
  {
    hide HeadMembers, ArgMembers, StackMember, Legal, Plain, Decode, WellFormedMembers, Follows, FollowsMembers, Find;
    ArgsSplit(r);
    HeadGood(r);
    HeadFinds(r);
    KeysPlain();
    RecordGood(host, r);
    var name, key, i := NameText(r).value, NameKey(r), NameAt(r);
    var args := ArgMembers(r) + StackMember(host, StackOf(r));
    var head, m := HeadMembers(r), Member("args", Obj(args));
    var n := Member(key, Str(name));
    TreeFollows(w, head, m);
    var ws := w.members;
    FindWithin(ws, |head|, "ph");
    FindAfter(ws, |head|, "args");
    var post := ArgMembers(r)[i + 1..] + StackMember(host, StackOf(r));
    assert args == ArgMembers(r)[..i] + ([n] + post);
    ArgsFollow(ws[|head|].value, ArgMembers(r)[..i], n, post);
    var was := ws[|head|].value.members;
    FindAfter(was, i, key);
    NameFollows(was[i].value, name);
  }

  lemma TreeFollows(w: Json, head: seq<Member>, m: Member)
    requires Follows(w, Obj(head + [m])) && WellFormedMembers(head)
    ensures w.Obj? && |w.members| > |head| && w.members[..|head|] == head
    ensures w.members[|head|].key == m.key && Follows(w.members[|head|].value, m.value)
  {
    ArgsFollow(w, head, m, []);
    assert [m] + [] == [m];
  }

  lemma ArgsFollow(w: Json, pre: seq<Member>, m: Member, post: seq<Member>)
    requires Follows(w, Obj(pre + ([m] + post))) && WellFormedMembers(pre)
    ensures w.Obj? && |w.members| > |pre| && w.members[..|pre|] == pre
    ensures w.members[|pre|].key == m.key && Follows(w.members[|pre|].value, m.value)
  {
    var ms := pre + ([m] + post);
    if WellFormedMembers(ms) {
      MembersConcat(pre, [m] + post);
      assert ([m] + post)[0] == m && ms[|pre|] == m && ms[..|pre|] == pre;
    } else {
      FollowsPrefix(w.members, pre, m, post);
    }
  }

  lemma NameFollows(w: Json, name: string)
    requires Follows(w, Str(name))
    ensures w.Str? && (Decode(w.body) == Some(name) <==> Plain(name))
  {
    if Legal(name) {
      DenotesItself(name);
    } else if Plain(name) {
      PlainIsLegal(name);
    }
  }

  /** A record without a name gives none. */
  lemma NoNameFound(host: Host, r: Record)
    requires NameText(r).None?
    ensures ReadName(RecordTree(host, r)) == None
  {
    HeadFinds(r);
    hide HeadMembers, Micros, Int, Find, Decode;
    if r.End? {
      ArgKeyNames();
      var args := [Member("duration_us", Micros(r.durationNs)), Member("state", Int(r.state))];
      FindStep(Member("duration_us", Micros(r.durationNs)), [Member("state", Int(r.state))], "comm");
      FindStep(Member("state", Int(r.state)), [], "comm");
      NothingFound("comm");
      assert [Member("state", Int(r.state))] + [] == [Member("state", Int(r.state))];
      assert [Member("duration_us", Micros(r.durationNs))] + [Member("state", Int(r.state))] == args;
      assert args + [] == args;
      FindJoin(HeadMembers(r), [Member("args", Obj(args))], "args");
      FindJoin(HeadMembers(r), [Member("args", Obj(args))], "ph");
      FindStep(Member("args", Obj(args)), [], "args");
      assert [Member("args", Obj(args))] + [] == [Member("args", Obj(args))];
    }
  }

  lemma NothingFound(key: string)
    ensures Find([], key) == None
  {
  }

  // ---- the whole file ----

  lemma {:induction false} TreeAt(host: Host, rs: seq<Record>, k: nat)
    requires k < |rs|
    ensures RecordTrees(host, rs)[k] == RecordTree(host, rs[k])
  {
    hide RecordTree;
    if k < |rs| - 1 {
      TreeAt(host, rs[..|rs| - 1], k);
    }
  }

  lemma {:induction false} FollowsAt(ws: seq<Json>, vs: seq<Json>, k: nat)
    requires FollowsItems(ws, vs) && k < |vs|
    requires forall j :: 0 <= j < k ==> WellFormed(vs[j])
    ensures k < |ws| && Follows(ws[k], vs[k])
  {
    if k > 0 {
      assert WellFormed(vs[0]);
      assert forall j :: 0 <= j < k - 1 ==> vs[1..][j] == vs[j + 1];
      FollowsAt(ws[1..], vs[1..], k - 1);
    }
  }

  /** Up to the first ill-formed element, what was read follows what was printed. */
  lemma ArrayAt(w: Json, vs: seq<Json>, k: nat)
    requires Follows(w, Arr(vs)) && k < |vs|
    requires forall j :: 0 <= j < k ==> WellFormed(vs[j])
    ensures w.Arr? && k < |w.items| && Follows(w.items[k], vs[k])
  {
    if WellFormedItems(vs) {
      ItemIsWell(vs, k);
    } else {
      FollowsAt(w.items, vs, k);
    }
  }

  lemma {:induction false} ItemIsWell(vs: seq<Json>, k: nat)
    requires WellFormedItems(vs) && k < |vs|
    ensures WellFormed(vs[k])
  {
    if k > 0 {
      ItemIsWell(vs[1..], k - 1);
    }
  }

  /** The array of events in what was read of a file. */
  lemma EventsFollow(host: Host, events: seq<UnifiedEvent>, w: Json)
    requires Follows(w, DocumentTree(host, events))
    ensures w.Obj? && var f := Find(w.members, "traceEvents");
            f.Some? && Follows(f.value, Arr(RecordTrees(host, TraceEvents(events))))
  {
    hide Follows, FollowsMembers, RecordTrees, TraceEvents, MetadataTree, WellFormedMembers;
    var m := Member("traceEvents", Arr(RecordTrees(host, TraceEvents(events))));
    var post := [Member("displayTimeUnit", Str("ms")), Member("metadata", MetadataTree(|events|))];
    NothingBefore();
    assert [] + ([m] + post) == [m] + post ==
           [m, Member("displayTimeUnit", Str("ms")), Member("metadata", MetadataTree(|events|))];
    ArgsFollow(w, [], m, post);
    assert w.members[..0] == [];
    NothingFound("traceEvents");
    FindAfter(w.members, 0, "traceEvents");
  }

  lemma NothingBefore()
    ensures WellFormedMembers([])
  {
  }

  /** What a reader obtains from the file follows the intended tree. */
  lemma FileFollows(host: Host, events: seq<UnifiedEvent>)
    ensures var r := ReadDocument(FileText(host, events)); r.Some? ==> Follows(r.value, DocumentTree(host, events))
  {
    hide DocumentTree, Read, Render, Follows;
    var v := DocumentTree(host, events);
    if WellFormed(v) {
      ReadsBackIffWellFormed(v, Document, "\n");
      AsWritten(v);
    } else {
      DocumentFramed(host, events);
      ReadFollows(v, Document, "\n");
    }
  }

  /** If the names found are the records' names, all names up to any record need no escaping. */
  lemma {:induction false} FoundMeansPlain(host: Host, events: seq<UnifiedEvent>, k: nat)
    requires ReadNames(FileText(host, events)) == Some(Names(TraceEvents(events)))
    requires k <= |TraceEvents(events)|
    ensures forall j :: 0 <= j < k ==>
            (NameText(TraceEvents(events)[j]).Some? ==> Plain(NameText(TraceEvents(events)[j]).value))
  {
    hide *;
    var rs := TraceEvents(events);
    if k > 0 {
      FoundMeansPlain(host, events, k - 1);
      PlainMeansWell(host, rs, k - 1);
      ReadParts(host, events);
      var w := ReadDocument(FileText(host, events)).value;
      FileFollows(host, events);
      EventsFollow(host, events, w);
      var items := Find(w.members, "traceEvents").value;
      ArrayAt(items, RecordTrees(host, rs), k - 1);
      TreeAt(host, rs, k - 1);
      if NameText(rs[k - 1]).Some? {
        NameFoundIff(host, rs[k - 1], items.items[k - 1]);
        NamesAt(rs, k - 1);
      }
    }
  }

  lemma PlainMeansWell(host: Host, rs: seq<Record>, k: nat)
    requires k <= |rs|
    requires forall j :: 0 <= j < k ==> (NameText(rs[j]).Some? ==> Plain(NameText(rs[j]).value))
    ensures forall j :: 0 <= j < k ==> WellFormed(RecordTrees(host, rs)[j])
  {
    hide RecordTree, RecordTrees, Plain, Legal, NameText, WellFormed;
    forall j | 0 <= j < k ensures WellFormed(RecordTrees(host, rs)[j]) {
      TreeAt(host, rs, j);
      RecordGood(host, rs[j]);
      if NameText(rs[j]).Some? {
        PlainIsLegal(NameText(rs[j]).value);
      }
    }
  }

  lemma ReadParts(host: Host, events: seq<UnifiedEvent>)
    requires ReadNames(FileText(host, events)).Some?
    ensures var w := ReadDocument(FileText(host, events));
            && w.Some? && w.value.Obj?
            && var f := Find(w.value.members, "traceEvents");
               f.Some? && f.value.Arr? &&
               var names := ReadNames(FileText(host, events)).value;
               && |names| == |f.value.items|
               && forall k :: 0 <= k < |names| ==> names[k] == ReadName(f.value.items[k])
  {
    hide ReadDocument, FileText, ReadName, Find;
  }

  lemma NamesAt(rs: seq<Record>, k: nat)
    requires k < |rs|
    ensures |Names(rs)| == |rs| && Names(rs)[k] == NameText(rs[k])
  {
  }

  lemma PlainMeansFound(host: Host, events: seq<UnifiedEvent>)
    requires AllNames(TraceEvents(events), Plain)
    ensures ReadNames(FileText(host, events)) == Some(Names(TraceEvents(events)))
  {
    hide *;
    var rs := TraceEvents(events);
    var trees := RecordTrees(host, rs);
    PlainAll(host, rs);
    DocumentGood(host, events);
    ReadsBack(host, events);
    var w := DocumentTree(host, events);
    AsWritten(w);
    EventsFollow(host, events, w);
    DocumentEvents(host, events);
    forall k | 0 <= k < |rs| ensures ReadName(trees[k]) == NameText(rs[k]) {
      TreeAt(host, rs, k);
      if NameText(rs[k]).Some? {
        RecordGood(host, rs[k]);
        AsWritten(RecordTree(host, rs[k]));
        PlainNameAt(rs, k);
        NameFoundIff(host, rs[k], trees[k]);
      } else {
        NoNameFound(host, rs[k]);
      }
    }
    NamesOfDocument(FileText(host, events), w, trees, rs);
  }

  lemma PlainNameAt(rs: seq<Record>, k: nat)
    requires AllNames(rs, Plain) && k < |rs| && NameText(rs[k]).Some?
    ensures Plain(NameText(rs[k]).value) && NamesLegal(rs[k])
  {
    hide Plain, Legal;
    PlainIsLegal(NameText(rs[k]).value);
  }

  lemma PlainAll(host: Host, rs: seq<Record>)
    requires AllNames(rs, Plain)
    ensures AllNames(rs, Legal)
  {
    hide Plain, Legal, NameText;
    forall i | 0 <= i < |rs| && NameText(rs[i]).Some? ensures Legal(NameText(rs[i]).value) {
      PlainIsLegal(NameText(rs[i]).value);
    }
  }

  lemma ReadsBack(host: Host, events: seq<UnifiedEvent>)
    requires WellFormed(DocumentTree(host, events))
    ensures ReadDocument(FileText(host, events)) == Some(DocumentTree(host, events))
  {
    hide DocumentTree, Render, ReadDocument;
    ReadsBackIffWellFormed(DocumentTree(host, events), Document, "\n");
  }

  lemma DocumentEvents(host: Host, events: seq<UnifiedEvent>)
    ensures DocumentTree(host, events).Obj?
    ensures Find(DocumentTree(host, events).members, "traceEvents") == Some(Arr(RecordTrees(host, TraceEvents(events))))
  {
    hide RecordTrees, TraceEvents, MetadataTree;
  }

  lemma NamesOfDocument(text: string, w: Json, trees: seq<Json>, rs: seq<Record>)
    requires ReadDocument(text) == Some(w) && w.Obj? && Find(w.members, "traceEvents") == Some(Arr(trees))
    requires |trees| == |rs| && forall k :: 0 <= k < |rs| ==> ReadName(trees[k]) == NameText(rs[k])
    ensures ReadNames(text) == Some(Names(rs))
  {
    hide ReadName, NameText;
    assert NamesIn(trees) == Names(rs);
    hide *;
    NamesOfArray(text, w, trees);
  }

  lemma NamesOfArray(text: string, w: Json, trees: seq<Json>)
    requires ReadDocument(text) == Some(w) && w.Obj? && Find(w.members, "traceEvents") == Some(Arr(trees))
    ensures ReadNames(text) == Some(NamesIn(trees))
  {
    hide ReadDocument, NamesIn, Find;
  }

  /** Reading the file and decoding the name of every printed record gives every record its own name
      if and only if no printed thread name contains a quote, a backslash or a control byte. */
  lemma {:induction false} NamesReadIffPlain(host: Host, events: seq<UnifiedEvent>)
    ensures ReadNames(FileText(host, events)) == Some(Names(TraceEvents(events))) <==> PrintedNames(events, Plain)
  {
    hide *;
    TitlesPlain();
    PrintedNamesAre(events, Plain);
    if ReadNames(FileText(host, events)) == Some(Names(TraceEvents(events))) {
      FoundMeansPlain(host, events, |TraceEvents(events)|);
      AllPlain(TraceEvents(events));
    }
    if AllNames(TraceEvents(events), Plain) {
      PlainMeansFound(host, events);
    }
  }

  lemma AllPlain(rs: seq<Record>)
    requires forall j :: 0 <= j < |rs| ==> (NameText(rs[j]).Some? ==> Plain(NameText(rs[j]).value))
    ensures AllNames(rs, Plain)
  {
    hide Plain, NameText;
  }

  // ---- the two ways to fail ----

  function Named(comm: string): seq<UnifiedEvent> {
    [Cpu(1, CpuSchedEvent(1, CPU_SCHED_ON, 7, 7, 0, 0, -1, comm))]
  }

  lemma NamedPrints(comm: string, p: string -> bool)
    ensures PrintedNames(Named(comm), p) <==> p(comm)
  {
    var events := Named(comm);
    assert |events| == 1 && PrintsName(events, 0) && NameOf(events[0]) == comm;
  }

  /** A name with a quote: the file is not the intended document. */
  lemma QuoteBreaksFile(host: Host)
    ensures var events := Named("a\"b");
            && ReadDocument(FileText(host, events)) != Some(DocumentTree(host, events))
            && ReadNames(FileText(host, events)) != Some(Names(TraceEvents(events)))
  {
    QuoteIsIllegal();
    hide *;
    NamedPrints("a\"b", Legal);
    NamedPrints("a\"b", Plain);
    FileParsesIff(host, Named("a\"b"));
    NamesReadIffPlain(host, Named("a\"b"));
  }

  lemma QuoteIsIllegal()
    ensures !Legal("a\"b") && !Plain("a\"b")
  {
    var s := "a\"b";
    assert s[1] == '"' && s[1..][0] == '"';
    assert UnitLen(s) == 1 && UnitLen(s[1..]) == 0 && s[1..] != [];
  }

  /** A name with a backslash and an n: the file is the intended document, but the name it denotes is
      another one. */
  lemma BackslashChangesName(host: Host)
    ensures var events := Named("a\\nb");
            && ReadDocument(FileText(host, events)) == Some(DocumentTree(host, events))
            && ReadNames(FileText(host, events)) != Some(Names(TraceEvents(events)))
    ensures Decode("a\\nb") == Some("a\nb")
  {
    PairIsLegal();
    hide *;
    NamedPrints("a\\nb", Legal);
    NamedPrints("a\\nb", Plain);
    FileParsesIff(host, Named("a\\nb"));
    NamesReadIffPlain(host, Named("a\\nb"));
  }

  lemma PairIsLegal()
    ensures Legal("a\\nb") && Decode("a\\nb") == Some("a\nb") && !Plain("a\\nb")
  {
    var s, t, u := "a\\nb", "\\nb", "b";
    assert s[1..] == t && t[2..] == u && u[1..] == "";
    PlainIsLegal(u);
    PlainDecodes(u);
    assert UnitLen(t) == 2 && UnitValue(t) == Some('\n');
    assert Legal(t) && Decode(t) == Some(['\n'] + "b");
    assert UnitLen(s) == 1 && UnitValue(s) == Some('a');
    assert Decode(s) == Some(['a'] + (['\n'] + "b"));
    assert ['a'] + (['\n'] + "b") == "a\nb";
    assert !NeedsNoEscape(s[1]);
  }
}
