// JSON text: a tree, the renderer that gives the exact layout of the emitted file, and an
// independent reader for the grammar of RFC 8259.
module JsonText {

  import opened Types
  import opened Escaping

  /** A JSON value as written: strings keep the text between their quotes, numbers keep
      their sign, whole part and fraction digits. */
  datatype Json =
    | Num(neg: bool, whole: nat, frac: string)
    | Word(word: string)
    | Str(body: string)
    | Arr(items: seq<Json>)
    | Obj(members: seq<Member>)

  datatype Member = Member(key: string, value: Json)

  /** The five places of the file that differ in white space. */
  datatype Layout = Document | EventList | Metadata | Line | Tight {

    /** White space after the opening bracket. */
    function Open(): string {
      if Line? || Tight? then "" else "\n"
    }

    /** Indentation of an item. */
    function Before(): string {
      match this
      case Document => "  "
      case EventList => "    "
      case Metadata => "    "
      case _ => ""
    }

    /** White space after the comma between two items. */
    function Gap(): string {
      match this
      case Line => " "
      case Tight => ""
      case _ => "\n"
    }

    /** White space before the closing bracket. */
    function Close(): string {
      match this
      case Document => "\n"
      case EventList => "\n  "
      case Metadata => "\n  "
      case _ => ""
    }

    /** White space after the colon of a member. */
    function Colon(): string {
      if Tight? then "" else " "
    }

    /** The layout of a member's value. */
    function Inner(key: string): Layout {
      if this == Document && key == "traceEvents" then EventList
      else if this == Document && key == "metadata" then Metadata
      else if key == "stack" then Tight
      else this
    }

    /** The layout of an array's element. */
    function Element(): Layout {
      if EventList? then Line else this
    }
  }

  // ---- numbers ----

  predicate IsDigit(c: char) {
    '0' <= c <= '9'
  }

  function Digit(d: nat): (c: char)
    requires d < 10
    ensures IsDigit(c) && c as int == '0' as int + d
  {
    ('0' as int + d) as char
  }

  /** printf's %u and %llu. */
  function Decimal(n: nat): (s: string)
    ensures s != []
  {
    if n < 10 then [Digit(n)] else Decimal(n / 10) + [Digit(n % 10)]
  }

  /** Leading run of decimal digits. */
  function DigitRun(s: string): (r: string)
    ensures |r| <= |s| && r == s[..|r|]
    ensures forall c :: c in r ==> IsDigit(c)
    ensures |r| < |s| ==> !IsDigit(s[|r|])
  {
    if s == [] || !IsDigit(s[0]) then [] else [s[0]] + DigitRun(s[1..])
  }

  function DigitsValue(s: string): nat
    requires forall c :: c in s ==> IsDigit(c)
  {
    if s == [] then 0
    else
      assert IsDigit(s[|s| - 1]);
      DigitsValue(s[..|s| - 1]) * 10 + (s[|s| - 1] as int - '0' as int)
  }

  /** RFC 8259, section 6: no leading zeros. */
  predicate IsWhole(s: string) {
    s != [] && (forall c :: c in s ==> IsDigit(c)) && (s[0] == '0' ==> |s| == 1)
  }

  lemma {:induction false} DecimalIsWhole(n: nat)
    ensures IsWhole(Decimal(n)) && DigitsValue(Decimal(n)) == n
    ensures Decimal(n)[0] == '0' ==> n == 0
  {
    var s := Decimal(n);
    if n < 10 {
      assert s[..|s| - 1] == [];
    } else {
      DecimalIsWhole(n / 10);
      assert s[..|s| - 1] == Decimal(n / 10);
      assert s[0] == Decimal(n / 10)[0];
    }
  }

  lemma {:induction false} DigitRunEnds(digits: string, rest: string)
    requires forall c :: c in digits ==> IsDigit(c)
    requires rest == [] || !IsDigit(rest[0])
    ensures DigitRun(digits + rest) == digits
  {
    var t := digits + rest;
    if digits == [] {
      assert t == rest;
    } else {
      assert digits[0] in digits && t[0] == digits[0];
      assert t[1..] == digits[1..] + rest;
      DigitRunEnds(digits[1..], rest);
    }
  }

  // ---- rendering ----

  lemma Cat3(a: string, b: string, c: string)
    ensures a + b + c == a + (b + c)
  {
  }

  lemma Cat4(a: string, b: string, c: string, d: string)
    ensures a + (b + (c + d)) == a + b + (c + d)
    ensures a + (b + c) + d == a + b + (c + d)
  {
    Cat3(a, b, c + d);
    Cat3(a, b, c);
    Cat3(a + b, c, d);
  }


  function Quoted(body: string): string {
    "\"" + body + "\""
  }

  function Fraction(frac: string): string {
    if frac == [] then "" else "." + frac
  }

  function RenderNum(neg: bool, whole: nat, frac: string): string {
    (if neg then "-" else "") + (Decimal(whole) + Fraction(frac))
  }

  function Render(v: Json, l: Layout): string
    decreases v, 2
  {
    match v
    case Num(neg, whole, frac) => RenderNum(neg, whole, frac)
    case Word(w) => w
    case Str(body) => Quoted(body)
    case Arr(items) => "[" + (l.Open() + (RenderItems(items, l) + (l.Close() + "]")))
    case Obj(members) => "{" + (l.Open() + (RenderMembers(members, l) + (l.Close() + "}")))
  }

  function RenderItem(v: Json, l: Layout): string
    decreases v, 3
  {
    l.Before() + Render(v, l.Element())
  }

  function RenderItems(xs: seq<Json>, l: Layout): string
    decreases xs, 1
  {
    if xs == [] then ""
    else if |xs| == 1 then RenderItem(xs[0], l)
    else RenderItem(xs[0], l) + ("," + (l.Gap() + RenderItems(xs[1..], l)))
  }

  function RenderMember(m: Member, l: Layout): string
    decreases m, 3
  {
    l.Before() + (Quoted(m.key) + (":" + (l.Colon() + Render(m.value, l.Inner(m.key)))))
  }

  function RenderMembers(ms: seq<Member>, l: Layout): string
    decreases ms, 1
  {
    if ms == [] then ""
    else if |ms| == 1 then RenderMember(ms[0], l)
    else RenderMember(ms[0], l) + ("," + (l.Gap() + RenderMembers(ms[1..], l)))
  }

  /** Printing one more element after the others: the separator comes first unless it is the first. */
  lemma {:induction false} RenderItemsSnoc(xs: seq<Json>, x: Json, l: Layout)
    ensures RenderItems(xs + [x], l) ==
            RenderItems(xs, l) + (if xs == [] then "" else "," + l.Gap()) + RenderItem(x, l)
  {
    if xs == [] {
      assert xs + [x] == [x];
    } else {
      var sep, last := "," + l.Gap(), RenderItem(x, l);
      RenderItemsSnoc(xs[1..], x, l);
      RenderItemsCons(xs[0], xs[1..] + [x], l);
      assert xs + [x] == [xs[0]] + (xs[1..] + [x]);
      if |xs| > 1 {
        RenderItemsCons(xs[0], xs[1..], l);
        assert xs == [xs[0]] + xs[1..];
        Cat4(RenderItem(xs[0], l) + sep, RenderItems(xs[1..], l), sep, last);
        Cat3(RenderItems(xs[1..], l), sep, last);
        Cat3(RenderItem(xs[0], l) + sep, RenderItems(xs[1..], l), sep);
      } else {
        assert xs == [xs[0]];
      }
    }
  }

  lemma RenderItemsCons(x: Json, xs: seq<Json>, l: Layout)
    requires xs != []
    ensures RenderItems([x] + xs, l) == RenderItem(x, l) + ("," + l.Gap()) + RenderItems(xs, l)
  {
    assert ([x] + xs)[1..] == xs;
    Cat3(",", l.Gap(), RenderItems(xs, l));
    Cat3(RenderItem(x, l), "," + l.Gap(), RenderItems(xs, l));
  }

  lemma {:induction false} RenderMembersSnoc(xs: seq<Member>, x: Member, l: Layout)
    ensures RenderMembers(xs + [x], l) ==
            RenderMembers(xs, l) + (if xs == [] then "" else "," + l.Gap()) + RenderMember(x, l)
  {
    if xs == [] {
      assert xs + [x] == [x];
    } else {
      var sep, last := "," + l.Gap(), RenderMember(x, l);
      RenderMembersSnoc(xs[1..], x, l);
      RenderMembersCons(xs[0], xs[1..] + [x], l);
      assert xs + [x] == [xs[0]] + (xs[1..] + [x]);
      if |xs| > 1 {
        RenderMembersCons(xs[0], xs[1..], l);
        assert xs == [xs[0]] + xs[1..];
        Cat4(RenderMember(xs[0], l) + sep, RenderMembers(xs[1..], l), sep, last);
        Cat3(RenderMembers(xs[1..], l), sep, last);
        Cat3(RenderMember(xs[0], l) + sep, RenderMembers(xs[1..], l), sep);
      } else {
        assert xs == [xs[0]];
      }
    }
  }

  lemma RenderMembersCons(x: Member, xs: seq<Member>, l: Layout)
    requires xs != []
    ensures RenderMembers([x] + xs, l) == RenderMember(x, l) + ("," + l.Gap()) + RenderMembers(xs, l)
  {
    assert ([x] + xs)[1..] == xs;
    Cat3(",", l.Gap(), RenderMembers(xs, l));
    Cat3(RenderMember(x, l), "," + l.Gap(), RenderMembers(xs, l));
  }

  // ---- legality ----

  /** Every string body and key of the tree is a legal string body, every fraction is digits. */
  predicate WellFormed(v: Json)
    decreases v, 1
  {
    match v
    case Num(neg, whole, frac) => forall c :: c in frac ==> IsDigit(c)
    case Word(w) => w == "true" || w == "false" || w == "null"
    case Str(body) => Legal(body)
    case Arr(items) => WellFormedItems(items)
    case Obj(members) => WellFormedMembers(members)
  }

  predicate WellFormedItems(xs: seq<Json>)
    decreases xs, 0
  {
    xs == [] || (WellFormed(xs[0]) && WellFormedItems(xs[1..]))
  }

  predicate WellFormedMembers(ms: seq<Member>)
    decreases ms, 0
  {
    ms == [] || (Legal(ms[0].key) && WellFormed(ms[0].value) && WellFormedMembers(ms[1..]))
  }

  // ---- reading ----

  predicate IsSpace(c: char) {
    c == ' ' || c == '\n' || c == '\t' || c == '\r'
  }

  function Skip(s: string): (r: string)
    ensures |r| <= |s|
    ensures r == [] || !IsSpace(r[0])
  {
    if s != [] && IsSpace(s[0]) then Skip(s[1..]) else s
  }

  /** The text up to the closing quote and what follows that quote. */
  function ReadBody(s: string): (r: Option<(string, string)>)
    ensures r.Some? ==> Legal(r.value.0) && s == r.value.0 + "\"" + r.value.1
  {
    if s == [] then None
    else if s[0] == '"' then Some(("", s[1..]))
    else
      var n := UnitLen(s);
      if n == 0 then None
      else
        var (body, rest) :- ReadBody(s[n..]);
        UnitPrefix(s[..n], s[n..], body);
        Some((s[..n] + body, rest))
  }

  /** Whether the head of a text is a legal element does not depend on what follows it. */
  lemma UnitPrefix(u: string, a: string, b: string)
    requires UnitLen(u + a) == |u| > 0
    ensures UnitLen(u + b) == |u|
    ensures Legal(u + b) == Legal(b)
  {
    assert (u + b)[|u|..] == b;
    assert forall i :: 0 <= i < |u| ==> (u + a)[i] == u[i] == (u + b)[i];
  }

  function ReadNum(s: string): (r: Option<(Json, string)>)
    ensures r.Some? ==> |r.value.1| < |s| && WellFormed(r.value.0)
  {
    if s != [] && s[0] == '-' then ReadUnsigned(true, s[1..]) else ReadUnsigned(false, s)
  }

  function ReadUnsigned(neg: bool, s: string): (r: Option<(Json, string)>)
    ensures r.Some? ==> |r.value.1| < |s| && WellFormed(r.value.0)
  {
    var whole := DigitRun(s);
    if !IsWhole(whole) then None
    else
      var u := s[|whole|..];
      if u != [] && u[0] == '.' then
        var frac := DigitRun(u[1..]);
        if frac == [] then None
        else Some((Num(neg, DigitsValue(whole), frac), u[1..][|frac|..]))
      else
        Some((Num(neg, DigitsValue(whole), ""), u))
  }

  function ReadWord(s: string): (r: Option<(Json, string)>)
    ensures r.Some? ==> |r.value.1| < |s| && WellFormed(r.value.0)
  {
    if "true" <= s then Some((Word("true"), s[4..]))
    else if "false" <= s then Some((Word("false"), s[5..]))
    else if "null" <= s then Some((Word("null"), s[4..]))
    else None
  }

  /** One JSON value at the head of a text, and what follows it. */
  function Read(s: string): (r: Option<(Json, string)>)
    ensures r.Some? ==> |r.value.1| < |s| && WellFormed(r.value.0)
    decreases |s|, 1
  {
    var t := Skip(s);
    if t == [] then None
    else if t[0] == '"' then
      var (body, rest) :- ReadBody(t[1..]);
      Some((Str(body), rest))
    else if t[0] == '[' then
      var u := Skip(t[1..]);
      if u != [] && u[0] == ']' then Some((Arr([]), u[1..]))
      else
        var (items, rest) :- ReadItems(t[1..]);
        Some((Arr(items), rest))
    else if t[0] == '{' then
      var u := Skip(t[1..]);
      if u != [] && u[0] == '}' then Some((Obj([]), u[1..]))
      else
        var (members, rest) :- ReadMembers(t[1..]);
        Some((Obj(members), rest))
    else if t[0] == '-' || IsDigit(t[0]) then ReadNum(t)
    else ReadWord(t)
  }

  /** The elements of a non-empty array up to and including the closing bracket. */
  function ReadItems(s: string): (r: Option<(seq<Json>, string)>)
    ensures r.Some? ==> |r.value.1| < |s| && WellFormedItems(r.value.0)
    decreases |s|, 2
  {
    var (v, rest) :- Read(s);
    var t := Skip(rest);
    if t == [] then None
    else if t[0] == ']' then Some(([v], t[1..]))
    else if t[0] == ',' then
      var (vs, end) :- ReadItems(t[1..]);
      Some(([v] + vs, end))
    else None
  }

  function ReadMembers(s: string): (r: Option<(seq<Member>, string)>)
    ensures r.Some? ==> |r.value.1| < |s| && WellFormedMembers(r.value.0)
    decreases |s|, 2
  {
    var t := Skip(s);
    if t == [] || t[0] != '"' then None
    else
      var (key, afterKey) :- ReadBody(t[1..]);
      var u := Skip(afterKey);
      if u == [] || u[0] != ':' then None
      else
        var (v, rest) :- Read(u[1..]);
        var w := Skip(rest);
        if w == [] then None
        else if w[0] == '}' then Some(([Member(key, v)], w[1..]))
        else if w[0] == ',' then
          var (ms, end) :- ReadMembers(w[1..]);
          Some(([Member(key, v)] + ms, end))
        else None
  }

  /** A whole text: one value and trailing white space. */
  function ReadDocument(s: string): Option<Json> {
    var (v, rest) :- Read(s);
    if Skip(rest) == [] then Some(v) else None
  }

  // ---- reading a rendered tree ----

  predicate AllSpace(s: string) {
    forall c :: c in s ==> IsSpace(c)
  }

  lemma {:induction false} SkipSpaces(ws: string, s: string)
    requires AllSpace(ws)
    ensures Skip(ws + s) == Skip(s)
  {
    if ws == [] {
      assert ws + s == s;
    } else {
      assert ws[0] in ws && (ws + s)[0] == ws[0] && (ws + s)[1..] == ws[1..] + s;
      SkipSpaces(ws[1..], s);
    }
  }

  /** A text that does not start with white space is left alone. */
  lemma SkipNothing(c: char, s: string)
    requires !IsSpace(c)
    ensures Skip([c] + s) == [c] + s
  {
  }

  lemma {:induction false} ReadBodyQuoted(body: string, rest: string)
    requires Legal(body)
    ensures ReadBody(body + "\"" + rest) == Some((body, rest))
  {
    var t := body + "\"" + rest;
    if body != [] {
      var n := UnitLen(body);
      var tail := body[n..] + "\"" + rest;
      assert body == body[..n] + body[n..] && t == body[..n] + tail;
      UnitPrefix(body[..n], body[n..], tail);
      assert t[..n] == body[..n] && t[n..] == tail;
      ReadBodyQuoted(body[n..], rest);
      assert t[0] == body[0];
    }
  }

  lemma ReadQuoted(body: string, rest: string)
    requires Legal(body)
    ensures Quoted(body) + rest == "\"" + (body + "\"" + rest)
    ensures Skip(Quoted(body) + rest) == Quoted(body) + rest
    ensures ReadBody((Quoted(body) + rest)[1..]) == Some((body, rest))
  {
    var t := Quoted(body) + rest;
    assert t == "\"" + (body + "\"" + rest);
    assert t[1..] == body + "\"" + rest;
    ReadBodyQuoted(body, rest);
  }

  /** A number ends where neither a digit nor a decimal point follows. */
  predicate EndsNumber(rest: string) {
    rest == [] || !(IsDigit(rest[0]) || rest[0] == '.')
  }

  /** What follows the digits of a number. */
  lemma AfterDigits(frac: string, rest: string)
    requires (forall c :: c in frac ==> IsDigit(c)) && EndsNumber(rest)
    ensures var tail := Fraction(frac) + rest;
            && (tail == [] || !IsDigit(tail[0]))
            && if frac == [] then tail == rest && (rest == [] || rest[0] != '.')
               else tail != [] && tail[0] == '.' && tail[1..] == frac + rest
    ensures DigitRun(frac + rest) == frac && (frac + rest)[|frac|..] == rest
  {
    hide DigitRun;
    DigitRunEnds(frac, rest);
    assert frac != [] ==> Fraction(frac) + rest == "." + (frac + rest);
    assert frac == [] ==> Fraction(frac) + rest == rest;
  }

  lemma ReadUnsignedRendered(neg: bool, digits: string, frac: string, rest: string)
    requires IsWhole(digits) && forall c :: c in frac ==> IsDigit(c)
    requires EndsNumber(rest)
    ensures ReadUnsigned(neg, digits + (Fraction(frac) + rest)) == Some((Num(neg, DigitsValue(digits), frac), rest))
  {
    var tail := Fraction(frac) + rest;
    AfterDigits(frac, rest);
    DigitRunEnds(digits, tail);
    assert (digits + tail)[|digits|..] == tail;
    hide DigitsValue, DigitRun, IsWhole, Fraction, IsDigit, EndsNumber;
  }

  lemma ReadNumRendered(neg: bool, whole: nat, frac: string, rest: string)
    requires forall c :: c in frac ==> IsDigit(c)
    requires EndsNumber(rest)
    ensures ReadNum(RenderNum(neg, whole, frac) + rest) == Some((Num(neg, whole, frac), rest))
    ensures var t := RenderNum(neg, whole, frac) + rest; t[0] == '-' || IsDigit(t[0])
  {
    hide ReadUnsigned, DigitsValue;
    var digits := Decimal(whole);
    DecimalIsWhole(whole);
    ReadUnsignedRendered(neg, digits, frac, rest);
    var t := digits + (Fraction(frac) + rest);
    Cat3(digits, Fraction(frac), rest);
    assert digits[0] in digits && t[0] == digits[0];
    var n := RenderNum(neg, whole, frac);
    if neg {
      Cat3("-", digits + Fraction(frac), rest);
      assert n + rest == "-" + t && ("-" + t)[1..] == t;
    } else {
      assert n == digits + Fraction(frac);
    }
  }

  lemma ReadSkips(ws: string, s: string)
    requires AllSpace(ws)
    ensures Read(ws + s) == Read(s)
  {
    SkipSpaces(ws, s);
  }

  /** Reading the rendering of a well-formed tree, in any layout, gives back that tree and
      stops exactly at its end. */
  lemma {:induction false} ReadRender(v: Json, l: Layout, rest: string)
    requires WellFormed(v)
    requires v.Num? ==> EndsNumber(rest)
    ensures Read(Render(v, l) + rest) == Some((v, rest))
    decreases v, 2
  {
    hide Read, ReadItems, ReadMembers;
    match v
    case Num(neg, whole, frac) =>
      ReadNumber(neg, whole, frac, rest);
    case Word(w) =>
      ReadWordRendered(w, rest);
    case Str(body) =>
      ReadString(body, rest);
    case Arr(items) =>
      if items != [] {
        ReadItemsRender(l.Open(), items, l, rest);
      }
      ReadArray(items, l, rest);
    case Obj(members) =>
      if members != [] {
        ReadMembersRender(l.Open(), members, l, rest);
      }
      ReadObject(members, l, rest);
  }

  lemma ReadNumber(neg: bool, whole: nat, frac: string, rest: string)
    requires (forall c :: c in frac ==> IsDigit(c)) && EndsNumber(rest)
    ensures Read(RenderNum(neg, whole, frac) + rest) == Some((Num(neg, whole, frac), rest))
  {
    hide ReadNum;
    ReadNumRendered(neg, whole, frac, rest);
  }

  lemma ReadString(body: string, rest: string)
    requires Legal(body)
    ensures Read(Quoted(body) + rest) == Some((Str(body), rest))
  {
    ReadQuoted(body, rest);
  }

  lemma ReadArray(items: seq<Json>, l: Layout, rest: string)
    requires WellFormedItems(items)
    requires items != [] ==>
               ReadItems(l.Open() + RenderItems(items, l) + (l.Close() + "]" + rest)) == Some((items, rest))
    ensures Read(Render(Arr(items), l) + rest) == Some((Arr(items), rest))
  {
    hide Read, ReadItems, ReadMembers;
    var inside := l.Open() + RenderItems(items, l) + (l.Close() + "]" + rest);
    Brackets("[", l.Open(), RenderItems(items, l), l.Close(), "]", rest);
    if items == [] {
      EmptyInside(l.Open(), l.Close(), ']', rest);
    } else {
      FirstOfItems(l.Open(), items, l, l.Close() + "]" + rest);
    }
    OpenArray(inside);
  }

  lemma OpenArray(inside: string)
    requires Skip(inside) != []
    ensures Read("[" + inside) ==
            if Skip(inside)[0] == ']' then Some((Arr([]), Skip(inside)[1..]))
            else match ReadItems(inside) case None => None case Some(r) => Some((Arr(r.0), r.1))
  {
    SkipNothing('[', inside);
    assert ("[" + inside)[1..] == inside;
  }

  lemma ReadObject(members: seq<Member>, l: Layout, rest: string)
    requires WellFormedMembers(members)
    requires members != [] ==>
               ReadMembers(l.Open() + RenderMembers(members, l) + (l.Close() + "}" + rest)) == Some((members, rest))
    ensures Read(Render(Obj(members), l) + rest) == Some((Obj(members), rest))
  {
    hide Read, ReadItems, ReadMembers;
    var inside := l.Open() + RenderMembers(members, l) + (l.Close() + "}" + rest);
    Brackets("{", l.Open(), RenderMembers(members, l), l.Close(), "}", rest);
    if members == [] {
      EmptyInside(l.Open(), l.Close(), '}', rest);
    } else {
      FirstOfMembers(l.Open(), members, l, l.Close() + "}" + rest);
    }
    OpenObject(inside);
  }

  lemma OpenObject(inside: string)
    requires Skip(inside) != []
    ensures Read("{" + inside) ==
            if Skip(inside)[0] == '}' then Some((Obj([]), Skip(inside)[1..]))
            else match ReadMembers(inside) case None => None case Some(r) => Some((Obj(r.0), r.1))
  {
    SkipNothing('{', inside);
    assert ("{" + inside)[1..] == inside;
  }

  lemma Brackets(left: string, open: string, inner: string, close: string, right: string, rest: string)
    ensures left + (open + (inner + (close + right))) + rest == left + (open + inner + (close + right + rest))
  {
    Cat3(open, inner, close + right);
    Cat3(open + inner, close + right, rest);
    Cat3(left, open + inner + (close + right), rest);
  }

  lemma EmptyInside(open: string, close: string, right: char, rest: string)
    requires AllSpace(open) && AllSpace(close) && !IsSpace(right)
    ensures Skip(open + "" + (close + [right] + rest)) == [right] + rest
  {
    assert open + "" + (close + [right] + rest) == open + close + ([right] + rest);
    SkipSpaces(open + close, [right] + rest);
  }

  lemma ReadWordRendered(w: string, rest: string)
    requires w == "true" || w == "false" || w == "null"
    ensures Read(w + rest) == Some((Word(w), rest))
  {
    var t := w + rest;
    assert t[0] == w[0];
    SkipNothing(t[0], t[1..]);
    assert [t[0]] + t[1..] == t;
    assert t[|w|..] == rest;
  }

  /** A value's text starts with a character that closes nothing. */
  lemma ValueStart(v: Json, l: Layout)
    requires WellFormed(v)
    ensures var t := Render(v, l); t != [] && !IsSpace(t[0]) && t[0] != ']'
  {
    hide RenderNum;
    if v.Num? {
      NumStart(v.neg, v.whole, v.frac);
    }
  }

  lemma NumStart(neg: bool, whole: nat, frac: string)
    requires forall c :: c in frac ==> IsDigit(c)
    ensures var t := RenderNum(neg, whole, frac); t != [] && !IsSpace(t[0]) && t[0] != ']'
  {
    hide ReadNum, RenderNum;
    ReadNumRendered(neg, whole, frac, "");
    assert RenderNum(neg, whole, frac) + "" == RenderNum(neg, whole, frac);
  }

  lemma FirstOfItems(pre: string, xs: seq<Json>, l: Layout, tail: string)
    requires xs != [] && WellFormedItems(xs) && AllSpace(pre)
    ensures var u := Skip(pre + RenderItems(xs, l) + tail); u != [] && u[0] != ']'
  {
    var head := Render(xs[0], l.Element());
    ValueStart(xs[0], l.Element());
    SplitItems(pre, xs, l, tail);
    var after := AfterItem(xs, l, tail);
    SkipSpaces(pre + l.Before(), head + after);
    assert Skip(head + after) == head + after;
  }

  /** What follows the first element in the rendering of a list. */
  function AfterItem(xs: seq<Json>, l: Layout, tail: string): string
    requires xs != []
  {
    if |xs| == 1 then tail else "," + (l.Gap() + RenderItems(xs[1..], l) + tail)
  }

  function AfterMember(ms: seq<Member>, l: Layout, tail: string): string
    requires ms != []
  {
    if |ms| == 1 then tail else "," + (l.Gap() + RenderMembers(ms[1..], l) + tail)
  }

  lemma SplitItems(pre: string, xs: seq<Json>, l: Layout, tail: string)
    requires xs != []
    ensures pre + RenderItems(xs, l) + tail ==
            pre + l.Before() + (Render(xs[0], l.Element()) + AfterItem(xs, l, tail))
  {
    var b, head := l.Before(), Render(xs[0], l.Element());
    if |xs| == 1 {
      Cat4(pre, b, head, tail);
    } else {
      var more := l.Gap() + RenderItems(xs[1..], l);
      Cat3(",", more, tail);
      Cat3(b, head, "," + more);
      Cat4(pre, b, head + ("," + more), tail);
      Cat3(head, "," + more, tail);
    }
  }

  lemma SplitMembers(pre: string, ms: seq<Member>, l: Layout, tail: string)
    requires ms != []
    ensures pre + RenderMembers(ms, l) + tail == pre + (RenderMember(ms[0], l) + AfterMember(ms, l, tail))
  {
    var head := RenderMember(ms[0], l);
    if |ms| == 1 {
      Cat3(pre, head, tail);
    } else {
      var more := l.Gap() + RenderMembers(ms[1..], l);
      Cat3(",", more, tail);
      Cat3(pre, head + ("," + more), tail);
      Cat3(head, "," + more, tail);
    }
  }

  lemma SplitMember(pre: string, m: Member, l: Layout, after: string)
    ensures pre + (RenderMember(m, l) + after) ==
            pre + l.Before() + (Quoted(m.key) + ([':'] + (l.Colon() + (Render(m.value, l.Inner(m.key)) + after))))
  {
    SplitFive(pre, l.Before(), Quoted(m.key), ":", l.Colon(), Render(m.value, l.Inner(m.key)), after);
  }

  lemma SplitFive(p: string, b: string, q: string, k: string, c: string, v: string, after: string)
    ensures p + ((b + (q + (k + (c + v)))) + after) == p + b + (q + (k + (c + (v + after))))
  {
    Cat3(c, v, after);
    Cat3(k, c + v, after);
    Cat3(q, k + (c + v), after);
    Cat3(b, q + (k + (c + v)), after);
    Cat3(p, b, q + (k + (c + (v + after))));
  }

  lemma {:induction false} ReadItemsRender(pre: string, xs: seq<Json>, l: Layout, rest: string)
    requires xs != [] && WellFormedItems(xs) && AllSpace(pre)
    ensures ReadItems(pre + RenderItems(xs, l) + (l.Close() + "]" + rest)) == Some((xs, rest))
    decreases xs, 1
  {
    hide Read, ReadItems, ReadMembers;
    var end := l.Close() + "]" + rest;
    var after := AfterItem(xs, l, end);
    var text := Render(xs[0], l.Element()) + after;
    SplitItems(pre, xs, l, end);
    ReadSkips(pre + l.Before(), text);
    EndsWith(l, ']', rest);
    ReadRender(xs[0], l.Element(), after);
    ReadItemsStep(pre + l.Before() + text, xs[0], after);
    if |xs| == 1 {
      assert xs == [xs[0]];
    } else {
      SkipNothing(',', after[1..]);
      ReadItemsRender(l.Gap(), xs[1..], l, rest);
      assert xs == [xs[0]] + xs[1..];
    }
  }

  lemma ReadItemsStep(s: string, v: Json, after: string)
    requires Read(s) == Some((v, after))
    ensures ReadItems(s) ==
            var t := Skip(after);
            if t == [] then None
            else if t[0] == ']' then Some(([v], t[1..]))
            else if t[0] == ',' then
              match ReadItems(t[1..]) case None => None case Some(r) => Some(([v] + r.0, r.1))
            else None
  {
  }

  lemma EndsWith(l: Layout, right: char, rest: string)
    requires right == ']' || right == '}'
    ensures Skip(l.Close() + [right] + rest) == [right] + rest
    ensures EndsNumber(l.Close() + [right] + rest)
  {
    Cat3(l.Close(), [right], rest);
    SkipSpaces(l.Close(), [right] + rest);
  }

  /** The text `s` starts with the member `m`, and `after` is what follows it. */
  predicate StartsWithMember(s: string, m: Member, after: string) {
    var t := Skip(s);
    && t != [] && t[0] == '"'
    && var r := ReadBody(t[1..]);
       && r.Some? && r.value.0 == m.key
       && var u := Skip(r.value.1);
          u != [] && u[0] == ':' && Read(u[1..]) == Some((m.value, after))
  }

  lemma ReadMemberRender(pre: string, m: Member, l: Layout, after: string)
    requires Legal(m.key) && AllSpace(pre)
    requires Read(Render(m.value, l.Inner(m.key)) + after) == Some((m.value, after))
    ensures StartsWithMember(pre + (RenderMember(m, l) + after), m, after)
  {
    var va := Render(m.value, l.Inner(m.key)) + after;
    var u := [':'] + (l.Colon() + va);
    SplitMember(pre, m, l, after);
    SkipSpaces(pre + l.Before(), Quoted(m.key) + u);
    ReadQuoted(m.key, u);
    SkipNothing(':', l.Colon() + va);
    ReadSkips(l.Colon(), va);
  }

  lemma ReadMembersStep(s: string, m: Member, after: string)
    requires StartsWithMember(s, m, after)
    ensures ReadMembers(s) ==
            var w := Skip(after);
            if w == [] then None
            else if w[0] == '}' then Some(([m], w[1..]))
            else if w[0] == ',' then
              match ReadMembers(w[1..]) case None => None case Some(r) => Some(([m] + r.0, r.1))
            else None
  {
  }

  lemma FirstOfMembers(pre: string, ms: seq<Member>, l: Layout, tail: string)
    requires ms != [] && WellFormedMembers(ms) && AllSpace(pre)
    ensures var u := Skip(pre + RenderMembers(ms, l) + tail); u != [] && u[0] == '"'
  {
    var m, after := ms[0], AfterMember(ms, l, tail);
    SplitMembers(pre, ms, l, tail);
    var u := [':'] + (l.Colon() + (Render(m.value, l.Inner(m.key)) + after));
    SplitMember(pre, m, l, after);
    SkipSpaces(pre + l.Before(), Quoted(m.key) + u);
    ReadQuoted(m.key, u);
  }

  lemma {:induction false} ReadMembersRender(pre: string, ms: seq<Member>, l: Layout, rest: string)
    requires ms != [] && WellFormedMembers(ms) && AllSpace(pre)
    ensures ReadMembers(pre + RenderMembers(ms, l) + (l.Close() + "}" + rest)) == Some((ms, rest))
    decreases ms, 1
  {
    hide Read, ReadItems, ReadMembers, StartsWithMember;
    var end := l.Close() + "}" + rest;
    var after := AfterMember(ms, l, end);
    SplitMembers(pre, ms, l, end);
    EndsWith(l, '}', rest);
    ReadRender(ms[0].value, l.Inner(ms[0].key), after);
    ReadMemberRender(pre, ms[0], l, after);
    ReadMembersStep(pre + (RenderMember(ms[0], l) + after), ms[0], after);
    if |ms| == 1 {
      assert ms == [ms[0]];
    } else {
      SkipNothing(',', after[1..]);
      ReadMembersRender(l.Gap(), ms[1..], l, rest);
      assert ms == [ms[0]] + ms[1..];
    }
  }

  /** A rendered tree, followed by white space only, reads back as itself if and only if all its
      string bodies are legal. */
  lemma ReadsBackIffWellFormed(v: Json, l: Layout, ws: string)
    requires AllSpace(ws)
    ensures ReadDocument(Render(v, l) + ws) == Some(v) <==> WellFormed(v)
  {
    if WellFormed(v) {
      assert EndsNumber(ws) by {
        assert ws != [] ==> ws[0] in ws;
      }
      ReadRender(v, l, ws);
      SkipSpaces(ws, "");
      assert ws + "" == ws;
    }
  }
}
