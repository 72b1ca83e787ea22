/** Escaping of locations as xspf_track_set_location asks GLib for it, and undoing it. */
module UriEscape {
  import opened CStrings
  import opened Names
  import opened XspfParse

  /** The unreserved characters of section 2.3 of RFC 3986. */
  predicate Unreserved(c: char) {
    'a' <= c <= 'z' || 'A' <= c <= 'Z' || '0' <= c <= '9' || c == '-' || c == '.' || c == '_' || c == '~'
  }

  const LOWER: string := "abcdefghijklmnopqrstuvwxyz"
  const UPPER: string := "ABCDEFGHIJKLMNOPQRSTUVWXYZ"
  const DIGITS_AND_MARKS: string := "0123456789-._~"

  lemma Lower(c: char)
    ensures 'a' <= c <= 'z' <==> c in LOWER
  {
    if 'a' <= c <= 'z' {
      assert LOWER[c as int - 'a' as int] == c;
    }
  }

  lemma Upper(c: char)
    ensures 'A' <= c <= 'Z' <==> c in UPPER
  {
    if 'A' <= c <= 'Z' {
      assert UPPER[c as int - 'A' as int] == c;
    }
  }

  lemma DigitsAndMarks(c: char)
    ensures '0' <= c <= '9' || c == '-' || c == '.' || c == '_' || c == '~' <==> c in DIGITS_AND_MARKS
  {
    if '0' <= c <= '9' {
      assert DIGITS_AND_MARKS[c as int - '0' as int] == c;
    }
  }

  /** These are all of them. */
  lemma UnreservedChars(c: char)
    ensures Unreserved(c) <==> c in LOWER || c in UPPER || c in DIGITS_AND_MARKS
  {
    Lower(c);
    Upper(c);
    DigitsAndMarks(c);
  }

  /** The characters that g_uri_escape_string leaves alone by themselves; and what is no byte. */
  predicate Plain(c: char) {
    Unreserved(c) || c as int >= 256
  }

  /** A byte that continues a UTF-8 sequence. */
  predicate Continues(s: string, i: nat) {
    i < |s| && 0x80 <= s[i] as int < 0xC0
  }

  /** How long the UTF-8 sequence of more than one byte is that a text starts with (section 4 of
      RFC 3629); 0 if it does not start with one. */
  function SequenceLength(s: string): (n: nat)
    requires s != ""
    ensures n <= |s| && forall i :: 0 <= i < n ==> s[i] as int >= 0x80
  {
    var c := s[0] as int;
    if !Continues(s, 1) then 0
    else
      var next := s[1] as int;
      if 0xC2 <= c < 0xE0 then 2
      else if 0xE0 <= c < 0xF0 then
        if Continues(s, 2) && (c == 0xE0 ==> next >= 0xA0) && (c == 0xED ==> next < 0xA0) then 3 else 0
      else if 0xF0 <= c < 0xF5 then
        if Continues(s, 2) && Continues(s, 3) && (c == 0xF0 ==> next >= 0x90) && (c == 0xF4 ==> next < 0x90) then 4
        else 0
      else 0
  }

  function HexDigit(n: nat): (c: char)
    requires n < 16
    ensures HexValue(c) == Some(n)
  {
    if n < 10 then '0' + n as char else 'A' + (n - 10) as char
  }

  function HexValue(c: char): (n: Option<nat>)
    ensures n.Some? ==> n.value < 16
  {
    if '0' <= c <= '9' then Some((c - '0') as nat)
    else if 'A' <= c <= 'F' then Some((c - 'A') as nat + 10)
    else None
  }

  function Escaped(c: char): string
    requires c as int < 256
  {
    ['%', HexDigit(c as nat / 16), HexDigit(c as nat % 16)]
  }

  /** The rest of a text, of which the first bytes are inside a sequence: these stay, and so does
      the next sequence and every unreserved character; other bytes are escaped. */
  function EncodeFrom(s: string, inside: nat): string {
    if s == "" then ""
    else
      var n := if inside > 0 then inside else SequenceLength(s);
      (if n > 0 || Plain(s[0]) then [s[0]] else Escaped(s[0])) + EncodeFrom(s[1..], if n > 0 then n - 1 else 0)
  }

  /** g_uri_escape_string, with UTF-8 allowed. */
  function PercentEncode(s: string): string {
    EncodeFrom(s, 0)
  }

  function PercentDecode(s: string): string {
    if s == "" then ""
    else if s[0] == '%' && |s| > 2 && HexValue(s[1]).Some? && HexValue(s[2]).Some? then
      [(16 * HexValue(s[1]).value + HexValue(s[2]).value) as char] + PercentDecode(s[3..])
    else [s[0]] + PercentDecode(s[1..])
  }

  lemma DecodeOther(c: char, rest: string, s: string)
    requires c != '%' && PercentDecode(rest) == s
    ensures PercentDecode([c] + rest) == [c] + s
  {
    assert ([c] + rest)[1..] == rest;
  }

  lemma DecodeEscaped(c: char, rest: string, s: string)
    requires c as int < 256 && PercentDecode(rest) == s
    ensures PercentDecode(Escaped(c) + rest) == [c] + s
  {
    var e := Escaped(c) + rest;
    assert e[0] == '%' && e[1] == HexDigit(c as nat / 16) && e[2] == HexDigit(c as nat % 16);
    assert e[3..] == rest;
  }

  lemma {:induction false} PercentRoundTrip(s: string, inside: nat)
    requires inside <= |s| && forall i :: 0 <= i < inside ==> s[i] as int >= 0x80
    ensures PercentDecode(EncodeFrom(s, inside)) == s
  {
    if s == "" {
    } else {
      var n := if inside > 0 then inside else SequenceLength(s);
      var left := if n > 0 then n - 1 else 0;
      PercentRoundTrip(s[1..], left);
      assert [s[0]] + s[1..] == s;
      if n > 0 || Plain(s[0]) {
        DecodeOther(s[0], EncodeFrom(s[1..], left), s[1..]);
      } else {
        DecodeEscaped(s[0], EncodeFrom(s[1..], left), s[1..]);
      }
    }
  }

  lemma {:induction false} EncodedHasNoBracket(s: string, inside: nat)
    requires inside <= |s| && forall i :: 0 <= i < inside ==> s[i] as int >= 0x80
    ensures '<' !in EncodeFrom(s, inside)
  {
    if s == "" {
    } else {
      var n := if inside > 0 then inside else SequenceLength(s);
      EncodedHasNoBracket(s[1..], if n > 0 then n - 1 else 0);
    }
  }

  /** Percent-encoding is an escaper for locations, whatever bytes they are made of. */
  lemma PercentEncodingEscapes()
    ensures Escaper(PercentEncode, PercentDecode)
  {
    forall s: string
      ensures PercentDecode(PercentEncode(s)) == s && '<' !in PercentEncode(s)
    {
      PercentRoundTrip(s, 0);
      EncodedHasNoBracket(s, 0);
    }
  }

  // ---------------------------------------------------------------- what stays

  /** An encoded code point of two, three or four bytes (section 3 of RFC 3629). */
  function Utf8(cp: nat): (s: string)
    requires 0x80 <= cp < 0x11_0000
    ensures 2 <= |s| <= 4
  {
    if cp < 0x800 then [(0xC0 + cp / 0x40) as char, (0x80 + cp % 0x40) as char]
    else if cp < 0x1_0000 then
      [(0xE0 + cp / 0x1000) as char, (0x80 + cp / 0x40 % 0x40) as char, (0x80 + cp % 0x40) as char]
    else
      [(0xF0 + cp / 0x4_0000) as char, (0x80 + cp / 0x1000 % 0x40) as char, (0x80 + cp / 0x40 % 0x40) as char,
       (0x80 + cp % 0x40) as char]
  }

  /** The code points that stand for characters: not the halves of surrogate pairs. */
  predicate IsScalar(cp: nat) {
    0x80 <= cp < 0x11_0000 && !(0xD800 <= cp < 0xE000)
  }

  /** What a slash in a name is replaced by looks like one: U+2215 DIVISION SLASH. */
  lemma SlashLookalike()
    ensures SLASH_REPLACEMENT == Utf8(0x2215)
  {
  }

  /** A text that starts with an encoded code point starts with a valid sequence of its length. */
  lemma SequenceOf(cp: nat, rest: string)
    requires IsScalar(cp)
    ensures SequenceLength(Utf8(cp) + rest) == |Utf8(cp)|
  {
    var s := Utf8(cp) + rest;
    assert forall i :: 0 <= i < |Utf8(cp)| ==> s[i] == Utf8(cp)[i];
  }

  /** And the other way: the bytes of a valid sequence are an encoded code point. */
  lemma SequenceIs(s: string) returns (cp: nat)
    requires s != "" && SequenceLength(s) > 0
    ensures IsScalar(cp) && s[..SequenceLength(s)] == Utf8(cp)
  {
    var n := SequenceLength(s);
    if n == 2 {
      cp := TwoBytes(s[0] as nat - 0xC0, s[1] as nat - 0x80);
    } else if n == 3 {
      cp := ThreeBytes(s[0] as nat - 0xE0, s[1] as nat - 0x80, s[2] as nat - 0x80);
    } else {
      cp := FourBytes(s[0] as nat - 0xF0, s[1] as nat - 0x80, s[2] as nat - 0x80, s[3] as nat - 0x80);
    }
  }

  lemma TwoBytes(a: nat, b: nat) returns (cp: nat)
    requires 2 <= a < 0x20 && b < 0x40
    ensures IsScalar(cp) && Utf8(cp) == [(0xC0 + a) as char, (0x80 + b) as char]
  {
    cp := a * 0x40 + b;
  }

  lemma ThreeBytes(a: nat, b: nat, c: nat) returns (cp: nat)
    requires a < 0x10 && b < 0x40 && c < 0x40 && (a == 0 ==> b >= 0x20) && (a == 0xD ==> b < 0x20)
    ensures IsScalar(cp) && Utf8(cp) == [(0xE0 + a) as char, (0x80 + b) as char, (0x80 + c) as char]
  {
    var high := a * 0x40 + b;
    cp := high * 0x40 + c;
    assert cp / 0x40 == high && cp % 0x40 == c;
    assert cp / 0x1000 == high / 0x40 == a && high % 0x40 == b;
  }

  lemma FourBytes(a: nat, b: nat, c: nat, d: nat) returns (cp: nat)
    requires a < 5 && b < 0x40 && c < 0x40 && d < 0x40 && (a == 0 ==> b >= 0x10) && (a == 4 ==> b < 0x10)
    ensures IsScalar(cp)
    ensures Utf8(cp) == [(0xF0 + a) as char, (0x80 + b) as char, (0x80 + c) as char, (0x80 + d) as char]
  {
    var high := a * 0x40 + b;
    var most := high * 0x40 + c;
    cp := most * 0x40 + d;
    assert cp / 0x40 == most && cp % 0x40 == d && most % 0x40 == c;
    assert cp / 0x1000 == most / 0x40 == high && high % 0x40 == b;
    assert cp / 0x4_0000 == high / 0x40 == a;
  }

  /** Bytes that are inside a sequence are copied. */
  lemma {:induction false} CopiesInside(a: string, rest: string)
    ensures EncodeFrom(a + rest, |a|) == a + EncodeFrom(rest, 0)
  {
    if a == "" {
      assert a + rest == rest;
    } else {
      assert (a + rest)[1..] == a[1..] + rest;
      CopiesInside(a[1..], rest);
    }
  }

  /** What stays: unreserved characters, */
  lemma UnreservedStays(c: char, rest: string)
    requires Unreserved(c)
    ensures PercentEncode([c] + rest) == [c] + PercentEncode(rest)
  {
    assert ([c] + rest)[1..] == rest;
  }

  /** and the characters of other scripts. */
  lemma SequenceStays(cp: nat, rest: string)
    requires IsScalar(cp)
    ensures PercentEncode(Utf8(cp) + rest) == Utf8(cp) + PercentEncode(rest)
  {
    var u := Utf8(cp);
    SequenceOf(cp, rest);
    CopiesFirst(u, rest);
  }

  lemma CopiesFirst(u: string, rest: string)
    requires u != "" && SequenceLength(u + rest) == |u|
    ensures PercentEncode(u + rest) == u + PercentEncode(rest)
  {
    assert (u + rest)[1..] == u[1..] + rest;
    CopiesInside(u[1..], rest);
    assert [u[0]] + (u[1..] + EncodeFrom(rest, 0)) == u + EncodeFrom(rest, 0);
  }

  /** What is written: unreserved characters, percent signs, and bytes of valid sequences. */
  lemma {:induction false} EncodedIsUri(s: string, inside: nat)
    requires inside <= |s| && (forall i :: 0 <= i < inside ==> s[i] as int >= 0x80)
    requires forall i :: 0 <= i < |s| ==> s[i] as int < 0x100
    ensures forall c :: c in EncodeFrom(s, inside) ==> Unreserved(c) || c == '%' || c as int >= 0x80
  {
    if s == "" {
    } else {
      var n := if inside > 0 then inside else SequenceLength(s);
      EncodedIsUri(s[1..], if n > 0 then n - 1 else 0);
    }
  }
}
