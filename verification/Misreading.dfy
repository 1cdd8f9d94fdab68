// What a reader makes of a printed tree in which some string body was printed without escaping:
// everything before the first illegal body is read as written, and that body is read as something
// that denotes another string.
module Misreading {

  import opened Types
  import opened Escaping
  import opened JsonText

  // ---- one string ----

  /** Decoding never lengthens a body, and keeps its length only if nothing in it is escaped. */
  lemma {:induction false} DecodeShrinks(body: string)
    requires Legal(body) && Decode(body).Some?
    ensures |Decode(body).value| <= |body|
    ensures |Decode(body).value| == |body| ==> Plain(body)
  {
    if body != [] {
      DecodeShrinks(body[UnitLen(body)..]);
      if UnitLen(body) == 1 {
        assert forall i :: 1 <= i < |body| ==> body[i] == body[1..][i - 1];
      }
    }
  }

  /** A legal body denotes itself exactly when nothing in it needs escaping. */
  lemma DenotesItself(body: string)
    requires Legal(body)
    ensures Decode(body) == Some(body) <==> Plain(body)
  {
    if Decode(body).Some? {
      DecodeShrinks(body);
    }
    if Plain(body) {
      PlainDecodes(body);
    }
  }

  /** The strings denoted by one unit and by what follows it. */
  function Prefixed(c: Option<char>, rest: Option<string>): Option<string> {
    if c.Some? && rest.Some? then Some([c.value] + rest.value) else None
  }

  lemma FirstUnit(body: string, n: nat, k: nat)
    requires n == UnitLen(body) > 0 && n <= k <= |body|
    ensures Legal(body[..k]) <==> Legal(body[n..][..k - n])
    ensures Decode(body[..k]) == Prefixed(UnitValue(body), Decode(body[n..][..k - n]))
  {
    var t := body[..k];
    assert t[n..] == body[n..][..k - n];
    assert UnitLen(t) == n && UnitValue(t) == UnitValue(body);
  }

  lemma QuoteInUnit(body: string, i: nat)
    requires Legal(body) && i < UnitLen(body) && body[i] == '"'
    ensures i == 1 && body[0] == '\\' && UnitLen(body) == 2 && UnitValue(body) == Some('"')
  {
  }

  /** A quote inside a legal body belongs to an escape, and splits what the body denotes. */
  lemma {:induction false} SplitAtQuote(body: string, i: nat)
    requires Legal(body) && i < |body| && body[i] == '"'
    ensures i > 0 && body[i - 1] == '\\' && Legal(body[..i - 1])
    ensures Decode(body).Some? ==>
              && Decode(body[..i - 1]).Some? && Decode(body[i + 1..]).Some?
              && Decode(body).value == Decode(body[..i - 1]).value + ['"'] + Decode(body[i + 1..]).value
  {
    hide *;
    var n := UnitLen(body);
    LegalStart(body);
    FirstUnit(body, n, |body|);
    assert body[..|body|] == body && body[n..][..|body| - n] == body[n..];
    if i < n {
      QuoteInUnit(body, i);
      NothingDecodes();
      assert body[..i - 1] == [];
      LeadingQuote(Decode(body[n..]));
    } else {
      var tail := body[n..];
      SplitAtQuote(tail, i - n);
      assert tail[i - n + 1..] == body[i + 1..] && tail[i - n - 1] == body[i - 1];
      FirstUnit(body, n, i - 1);
      BeforeSplit(UnitValue(body), Decode(tail), Decode(tail[..i - n - 1]), Decode(body[i + 1..]));
    }
  }

  lemma LeadingQuote(rest: Option<string>)
    ensures var w := Prefixed(Some('"'), rest); w.Some? ==> rest.Some? && w.value == "" + ['"'] + rest.value
  {
  }

  lemma BeforeSplit(c: Option<char>, whole: Option<string>, left: Option<string>, right: Option<string>)
    requires whole.Some? ==> left.Some? && right.Some? && whole.value == left.value + ['"'] + right.value
    ensures var w, l := Prefixed(c, whole), Prefixed(c, left);
            w.Some? ==> l.Some? && right.Some? && w.value == l.value + ['"'] + right.value
  {
  }

  lemma LegalStart(body: string)
    requires Legal(body) && body != []
    ensures UnitLen(body) > 0 && Legal(body[UnitLen(body)..])
  {
  }

  lemma NothingDecodes()
    ensures Legal("") && Decode("") == Some("")
  {
  }

  /** No legal body denotes a proper prefix of itself that ends in front of one of its quotes. */
  lemma {:induction false} NeverItself(c: string, t: string)
    requires Legal(c + "\"" + t)
    ensures Decode(c + "\"" + t) != Some(c)
    decreases |c|
  {
    hide *;
    var body := c + "\"" + t;
    if Decode(body) == Some(c) {
      SplitAtQuote(body, |c|);
      var w := c[..|c| - 1];
      assert body[..|c| - 1] == w && body[|c| + 1..] == t;
      var d := |Decode(w).value|;
      DecodeShrinks(w);
      assert c[d] == '"' && c[..d] == Decode(w).value;
      assert d < |w| && w[d] == '"' && w[..d] == c[..d];
      assert w == w[..d] + "\"" + w[d + 1..];
      NeverItself(w[..d], w[d + 1..]);
    }
  }

  /** Whatever a reader takes an illegal body for, it denotes another string. */
  lemma BodyMisread(c: string, rest: string)
    requires !Legal(c)
    ensures var r := ReadBody(c + "\"" + rest); r.Some? ==> Decode(r.value.0) != Some(c)
  {
    var r := ReadBody(c + "\"" + rest);
    if r.Some? {
      var (b, after) := r.value;
      var s := c + "\"" + rest;
      assert s == b + "\"" + after;
      if |b| <= |c| {
        assert b == s[..|b|] == c[..|b|];
        assert c[..|c|] == c;
        if Decode(b).Some? {
          DecodeShrinks(b);
        }
      } else {
        var t := b[|c| + 1..];
        assert b == s[..|b|];
        assert b == c + "\"" + t;
        NeverItself(c, t);
      }
    }
  }

  // ---- trees ----

  /** Well formed except for string bodies. */
  predicate Framed(v: Json)
    decreases v, 1
  {
    match v
    case Num(_, _, frac) => forall c :: c in frac ==> IsDigit(c)
    case Word(w) => w == "true" || w == "false" || w == "null"
    case Str(_) => true
    case Arr(items) => FramedItems(items)
    case Obj(members) => FramedMembers(members)
  }

  predicate FramedItems(xs: seq<Json>)
    decreases xs, 0
  {
    xs == [] || (Framed(xs[0]) && FramedItems(xs[1..]))
  }

  predicate FramedMembers(ms: seq<Member>)
    decreases ms, 0
  {
    ms == [] || (Legal(ms[0].key) && Framed(ms[0].value) && FramedMembers(ms[1..]))
  }

  /** `w` is what was read where `v` was printed: the same up to the first illegal body, which is read
      as a string that denotes something else; behind that nothing is known. */
  predicate Follows(w: Json, v: Json)
    decreases v, 1
  {
    if WellFormed(v) then w == v
    else
      match v
      case Str(body) => w.Str? && Decode(w.body) != Some(body)
      case Arr(items) => w.Arr? && FollowsItems(w.items, items)
      case Obj(members) => w.Obj? && FollowsMembers(w.members, members)
      case _ => false
  }

  predicate FollowsItems(ws: seq<Json>, vs: seq<Json>)
    decreases vs, 0
  {
    vs != [] ==>
      && ws != [] && Follows(ws[0], vs[0])
      && (WellFormed(vs[0]) ==> FollowsItems(ws[1..], vs[1..]))
  }

  predicate FollowsMembers(ws: seq<Member>, ms: seq<Member>)
    decreases ms, 0
  {
    ms != [] ==>
      && ws != [] && ws[0].key == ms[0].key && Follows(ws[0].value, ms[0].value)
      && (WellFormed(ms[0].value) ==> FollowsMembers(ws[1..], ms[1..]))
  }

  lemma {:induction false} WellFramed(v: Json)
    ensures WellFormed(v) ==> Framed(v)
    decreases v, 1
  {
    match v
    case Arr(items) => WellFramedItems(items);
    case Obj(members) => WellFramedMembers(members);
    case _ =>
  }

  lemma {:induction false} WellFramedItems(xs: seq<Json>)
    ensures WellFormedItems(xs) ==> FramedItems(xs)
    decreases xs, 0
  {
    if xs != [] {
      WellFramed(xs[0]);
      WellFramedItems(xs[1..]);
    }
  }

  lemma {:induction false} WellFramedMembers(ms: seq<Member>)
    ensures WellFormedMembers(ms) ==> FramedMembers(ms)
    decreases ms, 0
  {
    if ms != [] {
      WellFramed(ms[0].value);
      WellFramedMembers(ms[1..]);
    }
  }

  lemma FramedStart(v: Json, l: Layout)
    requires Framed(v)
    ensures var t := Render(v, l); t != [] && !IsSpace(t[0]) && t[0] != ']'
  {
    if v.Num? || v.Word? {
      ValueStart(v, l);
    }
  }

  /** Reading the text of an ill-formed tree, whatever follows it. */
  lemma {:induction false} ReadFollows(v: Json, l: Layout, rest: string)
    requires Framed(v) && !WellFormed(v)
    ensures var r := Read(Render(v, l) + rest); r.Some? ==> Follows(r.value.0, v)
    decreases v, 2
  {
    hide Read, ReadItems, ReadMembers, Follows, FollowsItems, FollowsMembers;
    match v
    case Str(body) => StringFollows(body, l, rest);
    case Arr(items) =>
      ItemsFollow(l.Open(), items, l, l.Close() + "]" + rest);
      ArrayFollows(items, l, rest);
    case Obj(members) =>
      MembersFollow(l.Open(), members, l, l.Close() + "}" + rest);
      ObjectFollows(members, l, rest);
  }

  lemma StringFollows(body: string, l: Layout, rest: string)
    requires !Legal(body)
    ensures var r := Read(Render(Str(body), l) + rest); r.Some? ==> Follows(r.value.0, Str(body))
  {
    var t := Render(Str(body), l) + rest;
    assert t == "\"" + (body + "\"" + rest);
    SkipNothing('"', body + "\"" + rest);
    assert t[1..] == body + "\"" + rest;
    BodyMisread(body, rest);
  }

  lemma ArrayFollows(items: seq<Json>, l: Layout, rest: string)
    requires items != [] && Framed(items[0]) && !WellFormedItems(items)
    requires var r := ReadItems(l.Open() + RenderItems(items, l) + (l.Close() + "]" + rest));
             r.Some? ==> FollowsItems(r.value.0, items)
    ensures var r := Read(Render(Arr(items), l) + rest); r.Some? ==> Follows(r.value.0, Arr(items))
  {
    hide Read, ReadItems, ReadMembers, FollowsItems, WellFormedItems;
    var inside := l.Open() + RenderItems(items, l) + (l.Close() + "]" + rest);
    Brackets("[", l.Open(), RenderItems(items, l), l.Close(), "]", rest);
    FirstFramed(l.Open(), items, l, l.Close() + "]" + rest);
    OpenArray(inside);
  }

  lemma FirstFramed(pre: string, xs: seq<Json>, l: Layout, tail: string)
    requires xs != [] && Framed(xs[0]) && AllSpace(pre)
    ensures var u := Skip(pre + RenderItems(xs, l) + tail); u != [] && u[0] != ']'
  {
    var head := Render(xs[0], l.Element());
    FramedStart(xs[0], l.Element());
    SplitItems(pre, xs, l, tail);
    var after := AfterItem(xs, l, tail);
    SkipSpaces(pre + l.Before(), head + after);
    assert Skip(head + after) == head + after;
  }

  lemma ObjectFollows(members: seq<Member>, l: Layout, rest: string)
    requires members != [] && Legal(members[0].key) && !WellFormedMembers(members)
    requires var r := ReadMembers(l.Open() + RenderMembers(members, l) + (l.Close() + "}" + rest));
             r.Some? ==> FollowsMembers(r.value.0, members)
    ensures var r := Read(Render(Obj(members), l) + rest); r.Some? ==> Follows(r.value.0, Obj(members))
  {
    hide Read, ReadItems, ReadMembers, FollowsMembers, WellFormedMembers;
    var inside := l.Open() + RenderMembers(members, l) + (l.Close() + "}" + rest);
    Brackets("{", l.Open(), RenderMembers(members, l), l.Close(), "}", rest);
    FirstKey(l.Open(), members, l, l.Close() + "}" + rest);
    OpenObject(inside);
  }

  lemma FirstKey(pre: string, ms: seq<Member>, l: Layout, tail: string)
    requires ms != [] && Legal(ms[0].key) && AllSpace(pre)
    ensures var u := Skip(pre + RenderMembers(ms, l) + tail); u != [] && u[0] == '"'
  {
    var m, after := ms[0], AfterMember(ms, l, tail);
    SplitMembers(pre, ms, l, tail);
    var u := [':'] + (l.Colon() + (Render(m.value, l.Inner(m.key)) + after));
    SplitMember(pre, m, l, after);
    SkipSpaces(pre + l.Before(), Quoted(m.key) + u);
    ReadQuoted(m.key, u);
  }

  lemma {:induction false} ItemsFollow(pre: string, xs: seq<Json>, l: Layout, tail: string)
    requires FramedItems(xs) && !WellFormedItems(xs) && AllSpace(pre)
    ensures var r := ReadItems(pre + RenderItems(xs, l) + tail); r.Some? ==> FollowsItems(r.value.0, xs)
    decreases xs, 1
  {
    hide Read, ReadItems, ReadMembers, Follows;
    var after := AfterItem(xs, l, tail);
    var text := Render(xs[0], l.Element()) + after;
    SplitItems(pre, xs, l, tail);
    ReadSkips(pre + l.Before(), text);
    ItemsStart(pre + l.Before() + text);
    if WellFormed(xs[0]) {
      ReadRender(xs[0], l.Element(), after);
      ReadItemsStep(pre + l.Before() + text, xs[0], after);
      SkipNothing(',', after[1..]);
      ItemsFollow(l.Gap(), xs[1..], l, tail);
      AsWritten(xs[0]);
    } else {
      ReadFollows(xs[0], l.Element(), after);
    }
  }

  lemma AsWritten(v: Json)
    ensures WellFormed(v) ==> Follows(v, v)
  {
  }

  lemma ItemsStart(s: string)
    ensures var r := ReadItems(s); r.Some? ==> Read(s).Some? && r.value.0 != [] && r.value.0[0] == Read(s).value.0
  {
  }

  lemma MembersStart(s: string)
    ensures var r := ReadMembers(s); r.Some? ==>
              && r.value.0 != []
              && var t := Skip(s);
                 && t != [] && t[0] == '"' && ReadBody(t[1..]).Some?
                 && r.value.0[0].key == ReadBody(t[1..]).value.0
                 && var u := Skip(ReadBody(t[1..]).value.1);
                    u != [] && u[0] == ':' && Read(u[1..]).Some? && r.value.0[0].value == Read(u[1..]).value.0
  {
  }

  /** The key of a printed member and the place of its value. */
  lemma KeyOfMember(pre: string, m: Member, l: Layout, after: string)
    requires Legal(m.key) && AllSpace(pre)
    ensures var t := Skip(pre + (RenderMember(m, l) + after));
            && t != [] && t[0] == '"' && ReadBody(t[1..]).Some? && ReadBody(t[1..]).value.0 == m.key
            && var u := Skip(ReadBody(t[1..]).value.1);
               u != [] && u[0] == ':' && Read(u[1..]) == Read(Render(m.value, l.Inner(m.key)) + after)
  {
    hide Read, ReadBody, Render, Legal;
    var va := Render(m.value, l.Inner(m.key)) + after;
    var u := [':'] + (l.Colon() + va);
    SplitMember(pre, m, l, after);
    SkipSpaces(pre + l.Before(), Quoted(m.key) + u);
    ReadQuoted(m.key, u);
    SkipNothing(':', l.Colon() + va);
    ReadSkips(l.Colon(), va);
    QuotedStart(m.key, u);
  }

  lemma QuotedStart(body: string, rest: string)
    requires Legal(body)
    ensures var t := Quoted(body) + rest; Skip(t) == t && t[0] == '"' && ReadBody(t[1..]) == Some((body, rest))
  {
    hide ReadBody, Legal, Skip;
    var t := Quoted(body) + rest;
    assert t == "\"" + (body + "\"" + rest);
    SkipNothing('"', body + "\"" + rest);
    assert t[1..] == body + "\"" + rest;
    ReadBodyQuoted(body, rest);
  }

  lemma {:induction false} MembersFollow(pre: string, ms: seq<Member>, l: Layout, tail: string)
    requires FramedMembers(ms) && !WellFormedMembers(ms) && AllSpace(pre)
    ensures var r := ReadMembers(pre + RenderMembers(ms, l) + tail); r.Some? ==> FollowsMembers(r.value.0, ms)
    decreases ms, 1
  {
    hide Read, ReadItems, ReadMembers, ReadBody, Follows, StartsWithMember, RenderMember, Render;
    var m, after := ms[0], AfterMember(ms, l, tail);
    var s := pre + (RenderMember(m, l) + after);
    SplitMembers(pre, ms, l, tail);
    MembersStart(s);
    KeyOfMember(pre, m, l, after);
    if WellFormed(m.value) {
      ReadRender(m.value, l.Inner(m.key), after);
      ReadMemberRender(pre, m, l, after);
      ReadMembersStep(s, m, after);
      SkipNothing(',', after[1..]);
      MembersFollow(l.Gap(), ms[1..], l, tail);
      AsWritten(m.value);
    } else {
      ReadFollows(m.value, l.Inner(m.key), after);
    }
  }
}
