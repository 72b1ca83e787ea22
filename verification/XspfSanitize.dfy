/** Escaping text for XML by repeated first-occurrence replacement (xspf_sanitize.c), the
    character map it is meant to be, and reading the entities back. */
module XspfSanitize {
  import opened CStrings

  // ---------------------------------------------------------------- the loops

  /** replace_all: one replacement, and more of them while there is something to replace. */
  method ReplaceAll(str: string, key: string, val: string, ghost mark: char) returns (r: string)
    requires TakesAway(key, val, mark) && Separate(key, val)
    ensures r == Subst(str, key, val)
  {
    r := StrReplace(str, key, val);
    SubstAbsorbsReplaceFirst(str, key, val);
    while StrStr(r, key).Some?
      invariant Subst(r, key, val) == Subst(str, key, val)
      decreases Count(r, mark)
    {
      Shrinks(r, key, val, mark);
      SubstAbsorbsReplaceFirst(r, key, val);
      r := StrReplace(r, key, val);
    }
    SubstNothing(r, key, val);
  }

  lemma Shrinks(s: string, key: string, val: string, mark: char)
    requires TakesAway(key, val, mark) && Occurs(s, key)
    ensures Count(ReplaceFirst(s, key, val), mark) < Count(s, mark)
  {
    ReplaceFirstCount(s, key, val, mark);
    CountZeroIffAbsent(key, mark);
    CountZeroIffAbsent(val, mark);
  }

  method EscapeDoubleQuote(s: string) returns (r: string)
    ensures r == Subst(s, "\"", "&quot;")
  {
    r := ReplaceAll(s, "\"", "&quot;", '"');
  }

  method EscapeSingleQuote(s: string) returns (r: string)
    ensures r == Subst(s, "'", "&apos;")
  {
    r := ReplaceAll(s, "'", "&apos;", '\'');
  }

  method EscapeLt(s: string) returns (r: string)
    ensures r == Subst(s, "<", "&lt;")
  {
    r := ReplaceAll(s, "<", "&lt;", '<');
  }

  method EscapeGt(s: string) returns (r: string)
    ensures r == Subst(s, ">", "&gt;")
  {
    r := ReplaceAll(s, ">", "&gt;", '>');
  }

  /** What becomes of the ampersands: only the first one is dealt with, and with it every
      "!amp;" that was in the text. */
  function AmpersandEscaped(s: string): string {
    Subst(ReplaceFirst(s, "&", "!amp;"), "!amp;", "&amp;")
  }

  method EscapeAmpersand(s: string) returns (r: string)
    ensures r == AmpersandEscaped(s)
  {
    var t := StrReplace(s, "&", "!amp;");
    r := ReplaceAll(t, "!amp;", "&amp;", '!');
  }

  /** xspf_sanitize: a stage runs only if it has something to do. */
  method Sanitize(s: string) returns (r: string)
    ensures r == Sanitized(s)
  {
    r := EscapeAmpersand(s);
    r := SanitizeQuotes(r);
    r := SanitizeAngles(r);
    FourPasses(AmpersandEscaped(s));
  }

  method SanitizeQuotes(s: string) returns (r: string)
    ensures r == Subst(Subst(s, "\"", "&quot;"), "'", "&apos;")
  {
    r := s;
    if StrStr(r, "\"").Some? {
      r := EscapeDoubleQuote(r);
    } else {
      SubstNothing(r, "\"", "&quot;");
    }
    if StrStr(r, "'").Some? {
      r := EscapeSingleQuote(r);
    } else {
      SubstNothing(r, "'", "&apos;");
    }
  }

  method SanitizeAngles(s: string) returns (r: string)
    ensures r == Subst(Subst(s, "<", "&lt;"), ">", "&gt;")
  {
    r := s;
    if StrStr(r, "<").Some? {
      r := EscapeLt(r);
    } else {
      SubstNothing(r, "<", "&lt;");
    }
    if StrStr(r, ">").Some? {
      r := EscapeGt(r);
    } else {
      SubstNothing(r, ">", "&gt;");
    }
  }

  // ---------------------------------------------------------------- character maps

  /** The entity of a quote or an angle bracket; any other character stands for itself. */
  function Mark(c: char): string {
    match c
    case '"' => "&quot;"
    case '\'' => "&apos;"
    case '<' => "&lt;"
    case '>' => "&gt;"
    case _ => [c]
  }

  function Marked(s: string): string {
    if s == "" then "" else Mark(s[0]) + Marked(s[1..])
  }

  /** What the text becomes: every quote and bracket is an entity, and the ampersands are as
      AmpersandEscaped left them. */
  function Sanitized(s: string): string {
    Marked(AmpersandEscaped(s))
  }

  /** The map that an XML writer wants. */
  function EscapeChar(c: char): string {
    if c == '&' then "&amp;" else Mark(c)
  }

  function EscapeMap(s: string): string {
    if s == "" then "" else EscapeChar(s[0]) + EscapeMap(s[1..])
  }

  /** Four passes over the text, one for each character. */
  function Passes(s: string): string {
    Subst(Subst(Subst(Subst(s, "\"", "&quot;"), "'", "&apos;"), "<", "&lt;"), ">", "&gt;")
  }

  lemma PassesConcat(s: string, t: string)
    ensures Passes(s + t) == Passes(s) + Passes(t)
  {
    var s1, t1 := Subst(s, "\"", "&quot;"), Subst(t, "\"", "&quot;");
    SubstConcat(s, t, '"', "&quot;");
    var s2, t2 := Subst(s1, "'", "&apos;"), Subst(t1, "'", "&apos;");
    SubstConcat(s1, t1, '\'', "&apos;");
    var s3, t3 := Subst(s2, "<", "&lt;"), Subst(t2, "<", "&lt;");
    SubstConcat(s2, t2, '<', "&lt;");
    SubstConcat(s3, t3, '>', "&gt;");
  }

  lemma PassOver(s: string, k: char, val: string)
    requires k !in s
    ensures Subst(s, [k], val) == s
  {
    OccursChar(s, k);
    SubstNothing(s, [k], val);
  }

  lemma PassHit(k: char, val: string)
    ensures Subst([k], [k], val) == val
  {
    assert OccursAt([k], [k], 0);
    assert [k][1..] == "" && val + "" == val;
  }

  lemma PassesOfMark(c: char)
    ensures Passes([c]) == Mark(c)
  {
    var m := Mark(c);
    if c == '"' {
      PassHit('"', "&quot;");
    } else {
      PassOver([c], '"', "&quot;");
    }
    var s1 := if c == '"' then m else [c];
    if c == '\'' {
      PassHit('\'', "&apos;");
    } else {
      PassOver(s1, '\'', "&apos;");
    }
    var s2 := if c == '\'' then m else s1;
    if c == '<' {
      PassHit('<', "&lt;");
    } else {
      PassOver(s2, '<', "&lt;");
    }
    var s3 := if c == '<' then m else s2;
    if c == '>' {
      PassHit('>', "&gt;");
    } else {
      PassOver(s3, '>', "&gt;");
    }
  }

  /** The four passes are one pass with four cases. */
  lemma {:induction false} FourPasses(s: string)
    ensures Passes(s) == Marked(s)
  {
    if s == "" {
    } else {
      PassesConcat([s[0]], s[1..]);
      assert [s[0]] + s[1..] == s;
      PassesOfMark(s[0]);
      FourPasses(s[1..]);
    }
  }
}
