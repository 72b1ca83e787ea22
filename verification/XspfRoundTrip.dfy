/** When the sanitizer is the escape map, and when its text can be read back. */
module XspfRoundTrip {
  import opened CStrings
  import opened XspfSanitize

  const BANG_KEY: string := "!amp;"

  /** The texts that are escaped right: at most one ampersand, and no "!amp;". */
  ghost predicate Escapable(s: string) {
    Count(s, '&') <= 1 && !Occurs(s, BANG_KEY)
  }

  // ---------------------------------------------------------------- the map of the marks

  lemma {:induction false} MarkedConcat(s: string, t: string)
    ensures Marked(s + t) == Marked(s) + Marked(t)
  {
    if s == "" {
      assert s + t == t;
    } else {
      assert (s + t)[1..] == s[1..] + t;
      MarkedConcat(s[1..], t);
    }
  }

  predicate IsMark(c: char) {
    c == '"' || c == '\'' || c == '<' || c == '>'
  }

  /** A character that no entity is spelt with comes out as often as it went in, except for the
      quotes and brackets, which do not come out at all. */
  lemma {:induction false} MarkedCount(s: string, c: char)
    requires IsMark(c) || c == '!'
    ensures Count(Marked(s), c) == if IsMark(c) then 0 else Count(s, c)
  {
    if s == "" {
    } else {
      CountConcat(Mark(s[0]), Marked(s[1..]), c);
      MarkCount(s[0], c);
      MarkedCount(s[1..], c);
    }
  }

  lemma MarkCount(d: char, c: char)
    requires IsMark(c) || c == '!'
    ensures Count(Mark(d), c) == if IsMark(c) || d != c then 0 else 1
  {
    CountZeroIffAbsent(Mark(d), c);
  }

  /** Whatever the text, quotes and angle brackets never get through. */
  lemma SanitizedHasNoMarks(s: string)
    ensures forall c :: IsMark(c) ==> c !in Sanitized(s)
  {
    forall c | IsMark(c)
      ensures c !in Sanitized(s)
    {
      MarkedCount(AmpersandEscaped(s), c);
      CountZeroIffAbsent(Sanitized(s), c);
    }
  }

  lemma {:induction false} EscapeMapIsMarked(s: string)
    ensures EscapeMap(s) == Marked(Subst(s, "&", "&amp;"))
  {
    if s == "" {
    } else {
      assert OccursAt(s, "&", 0) <==> s[0] == '&';
      EscapeMapIsMarked(s[1..]);
      var rest := Subst(s[1..], "&", "&amp;");
      if s[0] == '&' {
        MarkedConcat("&amp;", rest);
        NoMarksStay("&amp;");
      } else {
        MarkedConcat([s[0]], rest);
        assert Marked([s[0]]) == Mark(s[0]) + Marked([s[0]][1..]);
      }
    }
  }

  lemma {:induction false} NoMarksStay(s: string)
    requires forall c :: c in s ==> !IsMark(c)
    ensures Marked(s) == s
  {
    if s == "" {
    } else {
      assert [s[0]] + s[1..] == s && s[0] in s;
      NoMarksStay(s[1..]);
    }
  }

  // ---------------------------------------------------------------- counting

  /** How many keys the pass replaces. */
  function Hits(s: string, key: string): nat
    requires key != ""
  {
    if s == "" then 0
    else if OccursAt(s, key, 0) then 1 + Hits(s[|key|..], key)
    else Hits(s[1..], key)
  }

  /** Two keys do not overlap when the first character is nowhere else in the key. */
  lemma Apart(s: string, key: string, i: nat)
    requires key != "" && key[0] !in key[1..] && OccursAt(s, key, 0) && OccursAt(s, key, i)
    ensures i == 0 || i >= |key|
  {
    assert s[i] == s[i..i + |key|][0] == key[0];
    forall j | 0 < j < |key|
      ensures s[j] != key[0]
    {
      assert s[j] == s[..|key|][j] == key[1..][j - 1];
    }
  }

  /** A key covers no character that is not in it. */
  lemma Covers(s: string, key: string, i: nat, p: nat)
    requires OccursAt(s, key, i) && p < |s| && s[p] !in key
    ensures p < i || p >= i + |key|
  {
    forall j | i <= j < i + |key|
      ensures s[j] in key
    {
      assert s[j] == s[i..i + |key|][j - i];
    }
  }

  /** A key counts, and so does every one after it. */
  lemma {:induction false} HitAt(s: string, key: string, i: nat)
    requires key != "" && key[0] !in key[1..] && OccursAt(s, key, i)
    ensures Hits(s, key) >= 1 + Hits(s[i + |key|..], key)
    decreases i
  {
    if i == 0 {
    } else if OccursAt(s, key, 0) {
      Apart(s, key, i);
      OccursLater(s, key, |key|, i);
      HitAt(s[|key|..], key, i - |key|);
    } else {
      OccursLater(s, key, 1, i);
      HitAt(s[1..], key, i - 1);
    }
  }

  lemma OccursLater(s: string, key: string, n: nat, i: nat)
    requires OccursAt(s, key, i) && n <= i
    ensures OccursAt(s[n..], key, i - n) && s[n..][i - n + |key|..] == s[i + |key|..]
  {
    assert s[n..][i - n..i - n + |key|] == s[i..i + |key|];
  }

  /** Each hit takes a '!' away. */
  lemma {:induction false} BangsLeft(s: string)
    ensures Count(Subst(s, BANG_KEY, "&amp;"), '!') + Hits(s, BANG_KEY) == Count(s, '!')
  {
    if s == "" {
    } else {
      if OccursAt(s, BANG_KEY, 0) {
        BangsLeft(s[5..]);
        CountConcat("&amp;", Subst(s[5..], BANG_KEY, "&amp;"), '!');
        CountZeroIffAbsent("&amp;", '!');
        CountConcat(s[..5], s[5..], '!');
        assert s == s[..5] + s[5..];
        assert s[..5] == BANG_KEY;
        CountZeroIffAbsent(BANG_KEY[1..], '!');
      } else {
        BangsLeft(s[1..]);
        CountConcat([s[0]], Subst(s[1..], BANG_KEY, "&amp;"), '!');
      }
    }
  }

  /** The ampersand's own key and one that was in the text are two. */
  lemma TwoHits(s: string, i: nat)
    requires '&' in s && OccursAt(s, BANG_KEY, i)
    ensures Hits(ReplaceFirst(s, "&", BANG_KEY), BANG_KEY) >= 2
  {
    OccursChar(s, '&');
    var p := StrStr(s, "&").value;
    assert s[p] == '&';
    TwoHitsAt(s, ReplaceFirst(s, "&", BANG_KEY), i, p);
  }

  lemma TwoHitsAt(s: string, t: string, i: nat, p: nat)
    requires OccursAt(s, BANG_KEY, i) && p < |s| && s[p] == '&' && t == s[..p] + BANG_KEY + s[p + 1..]
    ensures Hits(t, BANG_KEY) >= 2
  {
    assert t[p..p + 5] == BANG_KEY;
    Covers(s, BANG_KEY, i, p);
    KeyMoves(s, t, i, p);
    if i <= p {
      HitTwice(t, BANG_KEY, i, p);
    } else {
      HitTwice(t, BANG_KEY, p, i + 4);
    }
  }

  /** An occurrence apart from the replaced character is where it was, or four further on. */
  lemma KeyMoves(s: string, t: string, i: nat, p: nat)
    requires OccursAt(s, BANG_KEY, i) && p < |s| && t == s[..p] + BANG_KEY + s[p + 1..] && (p < i || p >= i + 5)
    ensures OccursAt(t, BANG_KEY, if p < i then i + 4 else i)
  {
    if p < i {
      assert t[i + 4..i + 9] == s[i..i + 5];
    } else {
      assert t[i..i + 5] == s[i..i + 5];
    }
  }

  lemma HitTwice(s: string, key: string, i: nat, j: nat)
    requires key != "" && key[0] !in key[1..]
    requires OccursAt(s, key, i) && OccursAt(s, key, j) && i + |key| <= j
    ensures Hits(s, key) >= 2
  {
    HitAt(s, key, i);
    var rest, k := s[i + |key|..], j - i - |key|;
    assert rest[k..k + |key|] == s[j..j + |key|];
    HitAt(rest, key, k);
  }

  /** A "!amp;" in the text loses its '!' and does not get it back. */
  lemma BangLost(s: string)
    requires Occurs(s, BANG_KEY)
    ensures Count(AmpersandEscaped(s), '!') < Count(s, '!')
  {
    var i: nat :| OccursAt(s, BANG_KEY, i);
    var t := ReplaceFirst(s, "&", BANG_KEY);
    BangsLeft(t);
    OccursChar(s, '&');
    if '&' in s {
      ReplaceFirstCount(s, "&", BANG_KEY, '!');
      CountZeroIffAbsent("&", '!');
      CountZeroIffAbsent(BANG_KEY[1..], '!');
      TwoHits(s, i);
    } else {
      HitAt(s, BANG_KEY, i);
    }
  }

  lemma {:induction false} EscapeMapLength(s: string)
    ensures |EscapeMap(s)| == |Marked(s)| + 4 * Count(s, '&')
  {
    if s == "" {
    } else {
      EscapeMapLength(s[1..]);
    }
  }

  // ---------------------------------------------------------------- when it is the map

  /** Without a "!amp;" in the text, the first ampersand is escaped and nothing else. */
  lemma FirstAmpersand(s: string)
    requires !Occurs(s, BANG_KEY)
    ensures AmpersandEscaped(s) == ReplaceFirst(s, "&", "&amp;")
  {
    OccursChar(s, '&');
    if '&' in s {
      var p := StrStr(s, "&").value;
      FirstBang(s, p);
      var t := s[..p] + BANG_KEY + s[p + 1..];
      SubstAtFirst(t, BANG_KEY, "&amp;", p);
      NoBangAfter(s, p + 1);
      SubstNothing(s[p + 1..], BANG_KEY, "&amp;");
      assert t[..p] == s[..p] && t[p + 5..] == s[p + 1..];
    } else {
      SubstNothing(s, BANG_KEY, "&amp;");
    }
  }

  lemma NoBangAfter(s: string, p: nat)
    requires !Occurs(s, BANG_KEY) && p <= |s|
    ensures !Occurs(s[p..], BANG_KEY)
  {
    forall i: nat
      ensures !OccursAt(s[p..], BANG_KEY, i)
    {
      assert !OccursAt(s, BANG_KEY, p + i);
      assert i + 5 <= |s| - p ==> s[p..][i..i + 5] == s[p + i..p + i + 5];
    }
  }

  lemma FirstBang(s: string, p: nat)
    requires !Occurs(s, BANG_KEY) && p < |s|
    ensures var t := s[..p] + BANG_KEY + s[p + 1..];
      OccursAt(t, BANG_KEY, p) && forall j: nat :: j < p ==> !OccursAt(t, BANG_KEY, j)
  {
    var t := s[..p] + BANG_KEY + s[p + 1..];
    assert t[p..p + 5] == BANG_KEY;
    forall j: nat | j < p
      ensures !OccursAt(t, BANG_KEY, j)
    {
      assert !OccursAt(s, BANG_KEY, j);
      if j + 5 <= p {
        assert t[j..j + 5] == s[j..j + 5];
      } else {
        assert t[p] == '!';
        assert j + 5 <= |t| ==> t[j..j + 5][p - j] == t[p];
      }
    }
  }

  /** After the first ampersand: the map escapes the others as well, so it is longer. */
  lemma OnlyOne(s: string)
    requires !Occurs(s, BANG_KEY)
    ensures Sanitized(s) == EscapeMap(s) <==> Count(s, '&') <= 1
  {
    FirstAmpersand(s);
    OccursChar(s, '&');
    CountZeroIffAbsent(s, '&');
    if '&' in s {
      var p := StrStr(s, "&").value;
      var tail := s[p + 1..];
      SplitAtAmpersand(s, p);
      EscapeMapLength(tail);
      CountZeroIffAbsent(tail, '&');
      if '&' !in tail {
        OccursChar(tail, '&');
        EscapeMapIsMarked(tail);
        SubstNothing(tail, "&", "&amp;");
      }
    } else {
      EscapeMapIsMarked(s);
      SubstNothing(s, "&", "&amp;");
    }
  }

  lemma SplitAtAmpersand(s: string, p: nat)
    requires OccursAt(s, "&", p) && forall j: nat :: j < p ==> !OccursAt(s, "&", j)
    ensures Marked(ReplaceFirst(s, "&", "&amp;")) == Marked(s[..p] + "&amp;") + Marked(s[p + 1..])
    ensures EscapeMap(s) == Marked(s[..p] + "&amp;") + EscapeMap(s[p + 1..])
    ensures Count(s, '&') == 1 + Count(s[p + 1..], '&')
  {
    MarkedConcat(s[..p] + "&amp;", s[p + 1..]);
    EscapeMapSplit(s, p);
    CountBefore(s, p);
  }

  lemma EscapeMapSplit(s: string, p: nat)
    requires OccursAt(s, "&", p) && forall j: nat :: j < p ==> !OccursAt(s, "&", j)
    ensures EscapeMap(s) == Marked(s[..p] + "&amp;") + EscapeMap(s[p + 1..])
  {
    EscapeMapIsMarked(s);
    EscapeMapIsMarked(s[p + 1..]);
    SubstAtFirst(s, "&", "&amp;", p);
    MarkedConcat(s[..p] + "&amp;", Subst(s[p + 1..], "&", "&amp;"));
  }

  lemma CountBefore(s: string, p: nat)
    requires OccursAt(s, "&", p) && forall j: nat :: j < p ==> !OccursAt(s, "&", j)
    ensures Count(s, '&') == 1 + Count(s[p + 1..], '&')
  {
    assert s == s[..p] + ("&" + s[p + 1..]);
    CountConcat(s[..p], "&" + s[p + 1..], '&');
    CountConcat("&", s[p + 1..], '&');
    forall j | 0 <= j < p
      ensures s[j] != '&'
    {
      assert !OccursAt(s, "&", j);
      assert s[j..j + 1] == [s[j]];
    }
    CountZeroIffAbsent(s[..p], '&');
  }

  /** The five staged loops are one simultaneous character map exactly on the texts with at
      most one ampersand and no "!amp;". */
  lemma SanitizedIsEscapeMap(s: string)
    ensures Sanitized(s) == EscapeMap(s) <==> Escapable(s)
  {
    if Occurs(s, BANG_KEY) {
      BangLost(s);
      MarkedCount(AmpersandEscaped(s), '!');
      EscapeMapBangs(s);
    } else {
      OnlyOne(s);
    }
  }

  lemma {:induction false} EscapeMapBangs(s: string)
    ensures Count(EscapeMap(s), '!') == Count(s, '!')
  {
    if s == "" {
    } else {
      CountConcat(EscapeChar(s[0]), EscapeMap(s[1..]), '!');
      MarkCount(s[0], '!');
      CountZeroIffAbsent("&amp;", '!');
      EscapeMapBangs(s[1..]);
    }
  }

  // ---------------------------------------------------------------- reading it back

  /** The character of one of the five predefined entities at the start of a text (section 4.6
      of XML 1.0), and how long the entity is. */
  function Entity(s: string): Option<(char, nat)> {
    if OccursAt(s, "&amp;", 0) then Some(('&', 5))
    else if OccursAt(s, "&lt;", 0) then Some(('<', 4))
    else if OccursAt(s, "&gt;", 0) then Some(('>', 4))
    else if OccursAt(s, "&quot;", 0) then Some(('"', 6))
    else if OccursAt(s, "&apos;", 0) then Some(('\'', 6))
    else None
  }

  /** Character data read by an XML parser: every ampersand must start an entity, and a left
      angle bracket cannot be there. */
  function Decode(s: string): Option<string> {
    if s == "" then Some("")
    else if s[0] == '<' then None
    else if s[0] == '&' then
      match Entity(s)
      case None => None
      case Some((c, n)) =>
        (match Decode(s[n..])
         case None => None
         case Some(rest) => Some([c] + rest))
    else
      match Decode(s[1..])
      case None => None
      case Some(rest) => Some([s[0]] + rest)
  }

  lemma EntityOf(c: char, rest: string)
    requires IsMark(c) || c == '&'
    ensures Entity(EscapeChar(c) + rest) == Some((c, |EscapeChar(c)|))
  {
    var e := EscapeChar(c);
    var s := e + rest;
    assert s[0..|e|] == e;
    assert s[1] == e[1] && s[2] == e[2];
    assert c == '\'' ==> s[1] == 'a' && s[2] == 'p';
    forall k: string | OccursAt(s, k, 0) && |k| > 2
      ensures k[1] == s[1] && k[2] == s[2]
    {
      assert s[0..|k|][1] == s[1] && s[0..|k|][2] == s[2];
    }
  }

  /** Every text can be read back from the map. */
  lemma {:induction false} DecodeEscapeMap(s: string)
    ensures Decode(EscapeMap(s)) == Some(s)
  {
    if s == "" {
    } else {
      DecodeEscapeMap(s[1..]);
      DecodeEscapeChar(s[0], EscapeMap(s[1..]), s[1..]);
      assert [s[0]] + s[1..] == s;
    }
  }

  lemma DecodeEscapeChar(c: char, x: string, s: string)
    requires Decode(x) == Some(s)
    ensures Decode(EscapeChar(c) + x) == Some([c] + s)
  {
    assert (EscapeChar(c) + x)[|EscapeChar(c)|..] == x;
    if IsMark(c) || c == '&' {
      EntityOf(c, x);
    }
  }

  lemma EntityIsEscape(x: string)
    requires x != "" && Entity(x).Some?
    ensures var (c, n) := Entity(x).value; (IsMark(c) || c == '&') && n == |EscapeChar(c)| && x[..n] == EscapeChar(c)
  {
  }

  /** A text without quotes and brackets decodes to s only if it is what the map makes of s. */
  lemma {:induction false} DecodesOnlyFromMap(x: string, s: string)
    requires forall c :: IsMark(c) ==> c !in x
    requires Decode(x) == Some(s)
    ensures x == EscapeMap(s)
    decreases |x|
  {
    if x == "" {
    } else {
      var n := 1;
      if x[0] == '&' {
        EntityIsEscape(x);
        n := Entity(x).value.1;
      } else {
        assert !IsMark(x[0]);
      }
      assert x[..n] == EscapeChar(s[0]) && x == x[..n] + x[n..];
      assert s == [s[0]] + s[1..];
      DecodesOnlyFromMap(x[n..], s[1..]);
    }
  }

  /** A reader of the document gets the text back exactly if it has at most one ampersand and
      no "!amp;". */
  lemma SanitizedRoundTrip(s: string)
    ensures Decode(Sanitized(s)) == Some(s) <==> Escapable(s)
  {
    SanitizedIsEscapeMap(s);
    DecodeEscapeMap(s);
    if Decode(Sanitized(s)) == Some(s) {
      SanitizedHasNoMarks(s);
      DecodesOnlyFromMap(Sanitized(s), s);
    }
  }

  /** A second ampersand is left as it is, and no reader accepts the text. */
  lemma TwoAmpersands()
    ensures Sanitized("&&") == "&amp;&" != EscapeMap("&&") && Decode(Sanitized("&&")) == None
  {
    OccursChar("&&", '&');
    FirstAmpersand("&&");
    assert StrStr("&&", "&") == Some(0);
    assert ReplaceFirst("&&", "&", "&amp;") == "&amp;&";
    MarkedOver("&amp;&");
    assert Entity("&amp;&") == Some(('&', 5)) && "&amp;&"[5..] == "&";
    assert Entity("&").None?;
  }

  /** A "!amp;" of the text is read back as an ampersand. */
  lemma BangBecomesAmpersand()
    ensures Sanitized("!amp;") == "&amp;" != EscapeMap("!amp;") && Decode(Sanitized("!amp;")) == Some("&")
  {
    OccursChar("!amp;", '&');
    assert ReplaceFirst("!amp;", "&", BANG_KEY) == "!amp;";
    assert OccursAt("!amp;", BANG_KEY, 0);
    assert Subst("!amp;", BANG_KEY, "&amp;") == "&amp;";
    MarkedOver("&amp;");
    assert EscapeMap("&") == "&amp;";
    DecodeEscapeMap("&");
    DecodeEscapeMap("!amp;");
  }

  lemma {:induction false} MarkedOver(s: string)
    requires '"' !in s && '\'' !in s && '<' !in s && '>' !in s
    ensures Marked(s) == s
  {
    if s == "" {
    } else {
      MarkedOver(s[1..]);
    }
  }
}
