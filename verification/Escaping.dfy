// The bounded JSON string escaper of src/user/unified_trace.c and the string
// grammar it has to produce (RFC 8259, section 7).  A C byte is a `char` here;
// no definition distinguishes two characters above 0x7F.
module Escaping {

  import opened Types

  /** The part of a C buffer before its first NUL. */
  function CStr(s: string): (r: string)
    ensures |r| <= |s| && r == s[..|r|] && '\0' !in r
    ensures |r| < |s| ==> s[|r|] == '\0'
  {
    if s == [] || s[0] == '\0' then [] else [s[0]] + CStr(s[1..])
  }

  function HexDigit(d: nat): (c: char)
    requires d < 16
    ensures IsHex(c) && HexValue(c) == d
  {
    "0123456789abcdef"[d]
  }

  predicate IsHex(c: char) {
    '0' <= c <= '9' || 'a' <= c <= 'f' || 'A' <= c <= 'F'
  }

  function HexValue(c: char): (v: nat)
    requires IsHex(c)
    ensures v < 16
  {
    if c <= '9' then c as int - '0' as int
    else if c <= 'F' then c as int - 'A' as int + 10
    else c as int - 'a' as int + 10
  }

  /** What the loop body appends for one source character. */
  function EscapeChar(c: char): (r: string)
    ensures |r| == if c == '"' || c == '\\' then 2 else if c < ' ' then 6 else 1
  {
    if c == '"' || c == '\\' then ['\\', c]
    else if c < ' ' then ['\\', 'u', '0', '0', HexDigit(c as int / 16), HexDigit(c as int % 16)]
    else [c]
  }

  /** The complete, unbounded escape of a string. */
  function Escape(s: string): string {
    if s == [] then [] else EscapeChar(s[0]) + Escape(s[1..])
  }

  lemma {:induction false} EscapeConcat(a: string, b: string)
    ensures Escape(a + b) == Escape(a) + Escape(b)
  {
    if a == [] {
      assert a + b == b;
    } else {
      assert (a + b)[0] == a[0] && (a + b)[1..] == a[1..] + b;
      EscapeConcat(a[1..], b);
      var first := EscapeChar(a[0]);
      assert first + (Escape(a[1..]) + Escape(b)) == first + Escape(a[1..]) + Escape(b);
    }
  }

  lemma EscapeSnoc(s: string, i: nat)
    requires i < |s|
    ensures Escape(s[..i + 1]) == Escape(s[..i]) + EscapeChar(s[i])
  {
    EscapeConcat(s[..i], [s[i]]);
    assert s[..i + 1] == s[..i] + [s[i]];
    assert Escape([s[i]]) == EscapeChar(s[i]) + Escape([]);
  }

  /** Every further source character costs at least one more byte. */
  lemma {:induction false} EscapeGrows(s: string, i: nat, j: nat)
    requires i <= j <= |s|
    ensures |Escape(s[..i])| + (j - i) <= |Escape(s[..j])|
    decreases j - i
  {
    if i < j {
      EscapeGrows(s, i, j - 1);
      EscapeSnoc(s, j - 1);
    }
  }

  /** `k` characters are the longest prefix of `s` whose escape fits in `room` bytes. */
  ghost predicate IsLongestFit(s: string, k: nat, room: nat) {
    && k <= |s|
    && |Escape(s[..k])| <= room
    && forall j :: k < j <= |s| ==> |Escape(s[..j])| > room
  }

  /** The length of that longest prefix. */
  function Fit(s: string, room: nat): (k: nat)
    ensures IsLongestFit(s, k, room)
  {
    if s == [] || |EscapeChar(s[0])| > room then
      (if s != [] then FitsNothing(s, room); 0 else 0)
    else
      var k := Fit(s[1..], room - |EscapeChar(s[0])|);
      FitsOneMore(s, k, room);
      k + 1
  }

  lemma FitsNothing(s: string, room: nat)
    requires s != [] && |EscapeChar(s[0])| > room
    ensures IsLongestFit(s, 0, room)
  {
    forall j | 0 < j <= |s| ensures |Escape(s[..j])| > room {
      EscapeGrows(s, 1, j);
      EscapeSnoc(s, 0);
    }
  }

  lemma FitsOneMore(s: string, k: nat, room: nat)
    requires s != [] && |EscapeChar(s[0])| <= room
    requires IsLongestFit(s[1..], k, room - |EscapeChar(s[0])|)
    ensures IsLongestFit(s, k + 1, room)
  {
    forall j | 1 <= j <= |s|
      ensures |Escape(s[..j])| == |EscapeChar(s[0])| + |Escape(s[1..][..j - 1])|
    {
      assert s[..j][1..] == s[1..][..j - 1];
    }
  }

  /** A prefix that fits while the next one does not is the longest one. */
  lemma StuckMeansLongest(s: string, k: nat, room: nat)
    requires k <= |s| && |Escape(s[..k])| <= room
    requires k < |s| ==> |Escape(s[..k])| + |EscapeChar(s[k])| > room
    ensures k == Fit(s, room)
  {
    var f := Fit(s, room);
    if k < |s| {
      EscapeSnoc(s, k);
      forall j | k < j <= |s| ensures |Escape(s[..j])| > room {
        EscapeGrows(s, k + 1, j);
      }
    }
    assert s[..|s|] == s;
  }

  /** Bytes available to the escape itself in a buffer of `dstLen` bytes. */
  function Room(dstLen: nat): nat {
    if dstLen < 2 then 0 else dstLen - 2
  }

  /** What a buffer of `dstLen` bytes holds of `s` after escaping. */
  function Escaped(s: string, dstLen: nat): (r: string)
    ensures |r| <= Room(dstLen)
  {
    Escape(s[..Fit(s, Room(dstLen))])
  }

  /** A buffer after the NUL-terminated text `e` has been written at its start. */
  function Terminated(e: string, buffer: string): string
    requires |e| < |buffer|
  {
    e + ['\0'] + buffer[|e| + 1..]
  }

  /** The writes of one loop iteration; the six-character form is snprintf's, which also
      leaves a NUL behind it. */
  method PutEscape(dst: array<char>, di: nat, c: char) returns (next: nat)
    requires di + |EscapeChar(c)| < dst.Length
    modifies dst
    ensures next == di + |EscapeChar(c)|
    ensures dst[..next] == old(dst[..di]) + EscapeChar(c)
    ensures dst[next + 1..] == old(dst[next + 1..])
  {
    if c == '"' || c == '\\' {
      dst[di], dst[di + 1] := '\\', c;
      next := di + 2;
    } else if c < ' ' {
      dst[di], dst[di + 1], dst[di + 2], dst[di + 3] := '\\', 'u', '0', '0';
      dst[di + 4], dst[di + 5] := HexDigit(c as int / 16), HexDigit(c as int % 16);
      dst[di + 6] := '\0';
      next := di + 6;
    } else {
      dst[di] := c;
      next := di + 1;
    }
  }

  method PutNul(dst: array<char>, di: nat)
    requires di < dst.Length
    modifies dst
    ensures dst[..] == old(dst[..di]) + ['\0'] + old(dst[di + 1..])
  {
    dst[di] := '\0';
  }

  lemma CStrIsShorter(src: string)
    requires '\0' in src
    ensures |CStr(src)| < |src|
  {
    assert |CStr(src)| == |src| ==> CStr(src) == src;
  }

  lemma NothingEscaped()
    ensures Escape([]) == []
  {
  }

  /** The two checks in front of a write reject exactly the characters whose escape does not fit. */
  lemma RoomForNext(s: string, k: nat, dstLen: nat)
    requires k < |s| && |Escape(s[..k])| + 2 < dstLen
    ensures var di, c := |Escape(s[..k])|, s[k];
            (((c == '"' || c == '\\') && di + 3 >= dstLen) || (c < ' ' && di + 7 >= dstLen)) <==>
            di + |EscapeChar(c)| > Room(dstLen)
    ensures Escape(s[..k + 1]) == Escape(s[..k]) + EscapeChar(s[k])
  {
    hide Escape;
    EscapeSnoc(s, k);
  }

  /** json_escape: in-place escape of the C string `src` into the first `dstLen` bytes of `dst`. */
  method JsonEscape(dst: array<char>, dstLen: nat, src: string)
    requires dstLen <= dst.Length
    requires '\0' in src
    modifies dst
    ensures dst[..] == if dstLen == 0 then old(dst[..]) else Terminated(Escaped(CStr(src), dstLen), old(dst[..]))
  {
    hide Escape, Fit, IsLongestFit, CStr, EscapeChar;
    var di := 0;
    if dstLen == 0 {
      return;
    }
    ghost var s := CStr(src);
    CStrIsShorter(src);
    NothingEscaped();
    ghost var room := Room(dstLen);
    var si := 0;
    while src[si] != '\0' && di + 2 < dstLen
      invariant si <= |s| && di == |Escape(s[..si])| <= room
      invariant dst[..di] == Escape(s[..si])
      invariant dst[di + 1..] == old(dst[di + 1..])
      decreases |s| - si
    {
      assert src[si] == s[si];
      RoomForNext(s, si, dstLen);
      var c := src[si];
      if (c == '"' || c == '\\') && di + 3 >= dstLen {
        break;
      }
      if c < ' ' && di + 7 >= dstLen {
        break;
      }
      di := PutEscape(dst, di, c);
      si := si + 1;
    }
    StuckMeansLongest(s, si, room);
    PutNul(dst, di);
  }

  /** Nothing is lost exactly when the whole escape leaves two bytes free. */
  lemma {:induction false} LosslessIffFits(s: string, dstLen: nat)
    requires 2 <= dstLen
    ensures Escaped(s, dstLen) == Escape(s) <==> |Escape(s)| <= dstLen - 2
    ensures Fit(s, Room(dstLen)) == |s| <==> |Escape(s)| <= dstLen - 2
  {
    assert s[..|s|] == s;
    EscapeGrows(s, Fit(s, Room(dstLen)), |s|);
  }

  // ---- the grammar of RFC 8259, section 7 ----

  /** Length of the legal string element at the head of `t`, or 0 when there is none:
      a raw character that needs no escape, a two-character escape, or \uXXXX. */
  function UnitLen(t: string): (n: nat)
    ensures n <= |t|
  {
    if t == [] || t[0] == '"' || t[0] < ' ' then 0
    else if t[0] != '\\' then 1
    else if |t| >= 2 && t[1] in {'"', '\\', '/', 'b', 'f', 'n', 'r', 't'} then 2
    else if |t| >= 6 && t[1] == 'u' && IsHex(t[2]) && IsHex(t[3]) && IsHex(t[4]) && IsHex(t[5]) then 6
    else 0
  }

  /** The characters denoted by such an element; \u escapes above 0x7F, which denote a
      multi-byte sequence, are not decoded. */
  function UnitValue(t: string): Option<char>
    requires UnitLen(t) > 0
  {
    if t[0] != '\\' then Some(t[0])
    else match t[1]
      case 'b' => Some(8 as char)
      case 'f' => Some(12 as char)
      case 'n' => Some('\n')
      case 'r' => Some('\r')
      case 't' => Some('\t')
      case 'u' =>
        var v := ((HexValue(t[2]) * 16 + HexValue(t[3])) * 16 + HexValue(t[4])) * 16 + HexValue(t[5]);
        if v < 0x80 then Some(v as char) else None
      case c => Some(c)
  }

  /** The text between two quotes is a JSON string body. */
  predicate Legal(body: string) {
    body == [] || (UnitLen(body) > 0 && Legal(body[UnitLen(body)..]))
  }

  /** The characters a string body denotes. */
  function Decode(body: string): Option<string> {
    if body == [] then Some([])
    else if UnitLen(body) == 0 then None
    else
      var c :- UnitValue(body);
      var rest :- Decode(body[UnitLen(body)..]);
      Some([c] + rest)
  }

  lemma EscapeCharIsUnit(c: char, rest: string)
    ensures UnitLen(EscapeChar(c) + rest) == |EscapeChar(c)|
    ensures UnitValue(EscapeChar(c) + rest) == Some(c)
  {
    if c < ' ' {
      var t := EscapeChar(c) + rest;
      assert t[0] == '\\' && t[1] == 'u' && t[2] == '0' && t[3] == '0';
      assert t[4] == HexDigit(c as int / 16) && t[5] == HexDigit(c as int % 16);
    }
  }

  lemma DecodeOne(e: string, rest: string, c: char)
    requires UnitLen(e + rest) == |e| > 0 && UnitValue(e + rest) == Some(c)
    ensures Legal(e + rest) == Legal(rest)
    ensures Decode(e + rest) == match Decode(rest) case None => None case Some(s) => Some([c] + s)
  {
    assert (e + rest)[|e|..] == rest;
  }

  /** The escaper writes legal string bodies, and reading one back gives the source string. */
  lemma {:induction false} DecodeEscape(s: string)
    ensures Legal(Escape(s)) && Decode(Escape(s)) == Some(s)
  {
    if s != [] {
      EscapeCharIsUnit(s[0], Escape(s[1..]));
      DecodeOne(EscapeChar(s[0]), Escape(s[1..]), s[0]);
      DecodeEscape(s[1..]);
      assert [s[0]] + s[1..] == s;
    }
  }

  /** No raw control byte, and in particular no NUL, is ever written. */
  lemma {:induction false} EscapeHasNoControl(s: string)
    ensures forall c :: c in Escape(s) ==> c >= ' '
  {
    if s != [] {
      EscapeHasNoControl(s[1..]);
      assert forall c :: c in EscapeChar(s[0]) ==> c >= ' ';
    }
  }

  lemma EscapeInjective(a: string, b: string)
    ensures Escape(a) == Escape(b) ==> a == b
  {
    DecodeEscape(a);
    DecodeEscape(b);
  }

  /** The C string left in the buffer by json_escape is a legal body and decodes to the
      longest prefix of the source that fits, whatever the buffer held before. */
  lemma BufferDecodes(s: string, dstLen: nat, tail: string)
    ensures var e := Escaped(s, dstLen);
            CStr(e + ['\0'] + tail) == e && Legal(e) && Decode(e) == Some(s[..Fit(s, Room(dstLen))])
  {
    var e := Escaped(s, dstLen);
    var p := s[..Fit(s, Room(dstLen))];
    DecodeEscape(p);
    EscapeHasNoControl(p);
    CStrOfTerminated(e, tail);
  }

  lemma {:induction false} CStrOfTerminated(s: string, tail: string)
    requires '\0' !in s
    ensures CStr(s + ['\0'] + tail) == s
  {
    var t := s + ['\0'] + tail;
    if s != [] {
      assert t[0] == s[0] && t[0] in s;
      CStrOfTerminated(s[1..], tail);
      assert t[1..] == s[1..] + ['\0'] + tail;
    }
  }

  // ---- strings that are their own escape ----

  predicate NeedsNoEscape(c: char) {
    c >= ' ' && c != '"' && c != '\\'
  }

  predicate Plain(s: string) {
    forall i :: 0 <= i < |s| ==> NeedsNoEscape(s[i])
  }

  lemma {:induction false} PlainIsLegal(s: string)
    requires Plain(s)
    ensures Legal(s)
  {
    if s != [] {
      PlainIsLegal(s[1..]);
    }
  }

  lemma {:induction false} PlainDecodes(s: string)
    requires Plain(s)
    ensures Decode(s) == Some(s)
  {
    if s != [] {
      PlainDecodes(s[1..]);
      assert [s[0]] + s[1..] == s;
    }
  }
}
