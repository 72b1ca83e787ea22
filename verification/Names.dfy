/** Entity names: spfs_fuse_utils.c. */
module Names {
  import opened CStrings

  /** U+2215 DIVISION SLASH as the three bytes of its UTF-8 encoding. */
  const SLASH_REPLACEMENT: string := ['\U{E2}', '\U{88}', '\U{95}']

  /** g_ascii_isspace: tab, line feed, form feed and carriage return, but no vertical tab. */
  predicate IsSpace(c: char) {
    c == ' ' || ('\t' <= c <= '\r' && c != '\U{0B}')
  }

  predicate SlashFree(s: string) {
    '/' !in s
  }

  /** g_strchug */
  function ChugLeading(s: string): string {
    if s != "" && IsSpace(s[0]) then ChugLeading(s[1..]) else s
  }

  /** g_strchomp */
  function ChompTrailing(s: string): string {
    if s != "" && IsSpace(s[|s| - 1]) then ChompTrailing(s[..|s| - 1]) else s
  }

  /** g_strstrip */
  function Strip(s: string): string {
    ChugLeading(ChompTrailing(s))
  }

  predicate Stripped(s: string) {
    s != "" ==> !IsSpace(s[0]) && !IsSpace(s[|s| - 1])
  }

  predicate Clean(s: string) {
    SlashFree(s) && Stripped(s)
  }

  function Slashless(s: string, replacement: string): string {
    Subst(s, "/", replacement)
  }

  /** spfs_replace_slashes; the loop ends because every turn takes one slash away. */
  method ReplaceSlashes(s: string, replacement: string) returns (r: string)
    requires SlashFree(replacement)
    ensures r == Slashless(s, replacement)
    ensures SlashFree(r)
  {
    ReplaceEachIsSubst(s, "/", replacement, '/');
    SubstRemoves(s, '/', replacement, '/');
    var current := StrReplace(s, "/", replacement);
    if StrStr(s, "/").None? {
      SubstNothing(s, "/", replacement);
    }
    SubstAbsorbsReplaceFirst(s, "/", replacement);
    while StrStr(current, "/").Some?
      invariant Slashless(current, replacement) == Slashless(s, replacement)
      decreases Count(current, '/')
    {
      SubstAbsorbsReplaceFirst(current, "/", replacement);
      ReplaceFirstCount(current, "/", replacement, '/');
      CountZeroIffAbsent("/", '/');
      CountZeroIffAbsent(replacement, '/');
      current := StrReplace(current, "/", replacement);
    }
    SubstNothing(current, "/", replacement);
    r := current;
  }

  function SanitizeName(n: string): string {
    Strip(Slashless(n, SLASH_REPLACEMENT))
  }

  /** spfs_sanitize_name */
  method Sanitize(n: string) returns (r: string)
    ensures r == SanitizeName(n)
  {
    var san := ReplaceSlashes(n, SLASH_REPLACEMENT);
    r := Strip(san);
  }

  /** A name without slashes goes through untouched by the replacement. */
  lemma SlashlessIdentity(s: string, replacement: string)
    requires SlashFree(s)
    ensures Slashless(s, replacement) == s
  {
    OccursChar(s, '/');
    SubstNothing(s, "/", replacement);
  }

  /** The characters that g_ascii_isspace takes for a space. */
  const SPACES: string := " \t\n\U{0C}\r"

  predicate OnlySpaces(s: string) {
    forall i :: 0 <= i < |s| ==> s[i] in SPACES
  }

  lemma {:induction false} ChugTakesSpaces(s: string) returns (a: string)
    ensures s == a + ChugLeading(s) && OnlySpaces(a)
    ensures ChugLeading(s) != "" ==> !IsSpace(ChugLeading(s)[0])
  {
    if s == "" || !IsSpace(s[0]) {
      a := "";
    } else {
      var rest := ChugTakesSpaces(s[1..]);
      a := [s[0]] + rest;
      Assoc([s[0]], rest, ChugLeading(s));
    }
  }

  lemma {:induction false} ChompTakesSpaces(s: string) returns (b: string)
    ensures s == ChompTrailing(s) + b && OnlySpaces(b)
    ensures ChompTrailing(s) != "" ==> !IsSpace(ChompTrailing(s)[|ChompTrailing(s)| - 1])
  {
    if s == "" || !IsSpace(s[|s| - 1]) {
      b := "";
    } else {
      var rest := ChompTakesSpaces(s[..|s| - 1]);
      b := rest + [s[|s| - 1]];
      Assoc(ChompTrailing(s), rest, [s[|s| - 1]]);
    }
  }

  /** A strip takes away spaces at the two ends and nothing else, until there are none. */
  lemma StripTakesSpaces(s: string) returns (a: string, b: string)
    ensures s == a + (Strip(s) + b) && OnlySpaces(a) && OnlySpaces(b) && Stripped(Strip(s))
  {
    b := ChompTakesSpaces(s);
    a := ChugTakesSpaces(ChompTrailing(s));
    Assoc(a, Strip(s), b);
  }

  lemma StripSpec(s: string)
    ensures Stripped(Strip(s))
    ensures SlashFree(s) ==> SlashFree(Strip(s))
    ensures Stripped(s) ==> Strip(s) == s
  {
    var a, b := StripTakesSpaces(s);
    assert forall c :: c in Strip(s) ==> c in s;
  }

  /** Spaces at the two ends can be told from what is between them. */
  lemma StrippedAlone(a: string, m: string, b: string, c: string, n: string, d: string)
    requires a + (m + b) == c + (n + d) && m != ""
    requires OnlySpaces(a) && OnlySpaces(b) && OnlySpaces(c) && OnlySpaces(d)
    requires Stripped(m) && Stripped(n)
    ensures a == c && m == n
  {
    var s := a + (m + b);
    SpaceChars(m[0]);
    SpaceChars(m[|m| - 1]);
    assert s[|a|] == m[0] && s[|a| + |m| - 1] == m[|m| - 1];
    NoSpaceWithin(s, c, n, d, |a|);
    NoSpaceWithin(s, c, n, d, |a| + |m| - 1);
    SpaceChars(n[0]);
    SpaceChars(n[|n| - 1]);
    assert s[|c|] == n[0] && s[|c| + |n| - 1] == n[|n| - 1];
    NoSpaceWithin(s, a, m, b, |c|);
    NoSpaceWithin(s, a, m, b, |c| + |n| - 1);
    assert a == s[..|a|] && c == s[..|c|] && m == s[|a|..|a| + |m|] && n == s[|c|..|c| + |n|];
  }

  lemma NoSpaceWithin(s: string, a: string, m: string, b: string, i: nat)
    requires s == a + (m + b) && OnlySpaces(a) && OnlySpaces(b) && i < |s| && s[i] !in SPACES
    ensures |a| <= i < |a| + |m|
  {
  }

  lemma SpaceChars(c: char)
    ensures IsSpace(c) <==> c in SPACES
  {
  }

  /** What sanitizing does to a name with its slashes mapped: it takes away the spaces around it. */
  lemma SanitizeTakesSpaces(n: string) returns (a: string, b: string)
    ensures Slashless(n, SLASH_REPLACEMENT) == a + (SanitizeName(n) + b) && OnlySpaces(a) && OnlySpaces(b)
    ensures Stripped(SanitizeName(n))
  {
    a, b := StripTakesSpaces(Slashless(n, SLASH_REPLACEMENT));
  }

  /** So the sanitized name is determined: whatever has no space at its ends and spaces around
      it in the mapped name is the sanitized name. */
  lemma SanitizeDetermined(n: string, a: string, m: string, b: string)
    requires Slashless(n, SLASH_REPLACEMENT) == a + (m + b) && OnlySpaces(a) && OnlySpaces(b) && Stripped(m)
    ensures SanitizeName(n) == m
  {
    var c, d := SanitizeTakesSpaces(n);
    if m != "" {
      StrippedAlone(a, m, b, c, SanitizeName(n), d);
    } else if SanitizeName(n) != "" {
      StrippedAlone(c, SanitizeName(n), d, a, m, b);
    }
  }

  /** Every sanitized name is free of slashes and of surrounding space, and the clean names
      are exactly the ones sanitizing leaves alone. Hence sanitizing twice is sanitizing once,
      which is why a lookup by the raw name and one by the stored name agree. */
  lemma SanitizeNameSpec(n: string)
    ensures Clean(SanitizeName(n))
    ensures Clean(n) <==> SanitizeName(n) == n
    ensures SanitizeName(SanitizeName(n)) == SanitizeName(n)
  {
    var s := Slashless(n, SLASH_REPLACEMENT);
    SubstRemoves(n, '/', SLASH_REPLACEMENT, '/');
    StripSpec(s);
    if Clean(n) {
      SlashlessIdentity(n, SLASH_REPLACEMENT);
    }
    SlashlessIdentity(Strip(s), SLASH_REPLACEMENT);
    StripSpec(Strip(s));
  }

  /** A name of letters and dots is clean. */
  lemma PlainName(s: string)
    requires s != "" && forall i :: 0 <= i < |s| ==> s[i] == '.' || 'a' <= s[i] <= 'z'
    ensures Clean(s)
  {
  }

  /** A slash-free start and end that carry no space survive sanitizing. */
  lemma SanitizeKeepsEnds(head: string, middle: string, tail: string)
    requires head != "" && tail != "" && SlashFree(head) && SlashFree(tail)
    requires !IsSpace(head[0]) && !IsSpace(tail[|tail| - 1])
    ensures SanitizeName(head + middle + tail) == head + Slashless(middle, SLASH_REPLACEMENT) + tail
  {
    SubstConcat(head + middle, tail, '/', SLASH_REPLACEMENT);
    SubstConcat(head, middle, '/', SLASH_REPLACEMENT);
    SlashlessIdentity(head, SLASH_REPLACEMENT);
    SlashlessIdentity(tail, SLASH_REPLACEMENT);
    StripSpec(head + Slashless(middle, SLASH_REPLACEMENT) + tail);
  }
}
