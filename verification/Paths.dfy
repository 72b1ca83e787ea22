/** Path strings and relative paths: spfs_path.c. */
module Paths {
  import opened CStrings
  import opened Names

  // ---------------------------------------------------------------- common prefix

  ghost predicate Agree(a: string, b: string, n: nat) {
    n <= |a| && n <= |b| && a[..n] == b[..n]
  }

  predicate EntityEnds(a: string, n: nat)
    requires n <= |a|
  {
    n == |a| || a[n] == '/'
  }

  /** After n bytes a path entity is complete in both paths: either they have just read
      a slash, or each of them stops or goes on with one. */
  ghost predicate Boundary(a: string, b: string, n: nat) {
    && Agree(a, b, n)
    && ((n > 0 && a[n - 1] == '/') || (EntityEnds(a, n) && EntityEnds(b, n)))
  }

  ghost predicate IsLongestBoundary(a: string, b: string, n: nat) {
    Boundary(a, b, n) && forall m: nat :: Boundary(a, b, m) ==> m <= n
  }

  predicate Absolute(a: string) {
    a != "" && a[0] == '/'
  }

  /** spfs_path_common_prefix */
  method CommonPrefix(a: string, b: string) returns (ret: nat)
    ensures !(Absolute(a) && Absolute(b)) ==> ret == 0
    ensures Absolute(a) && Absolute(b) ==> 0 < ret && IsLongestBoundary(a, b, ret)
  {
    if !Absolute(a) || !Absolute(b) {
      return 0;
    }
    ret := 0;
    var i := 0;
    while i < |a| && i < |b|
      invariant Agree(a, b, i)
      invariant ret <= i
      invariant i > 0 ==> ret > 0
      invariant ret > 0 ==> Boundary(a, b, ret) && a[ret - 1] == '/'
      invariant forall m: nat :: m < i && Boundary(a, b, m) ==> m <= ret
      invariant i > 0 && a[i - 1] == '/' ==> ret == i
    {
      if a[i] != b[i] {
        break;
      } else if a[i] == '/' {
        ret := i + 1;
      }
      assert a[..i + 1] == a[..i] + [a[i]];
      assert b[..i + 1] == b[..i] + [b[i]];
      i := i + 1;
    }
    forall m: nat | m > i
      ensures !Boundary(a, b, m)
    {
      if m <= |a| && m <= |b| {
        assert a[..m][i] == a[i] && b[..m][i] == b[i];
      }
    }
    if (i == |a| && i == |b|) || (i == |a| && i < |b| && b[i] == '/') || (i == |b| && i < |a| && a[i] == '/') {
      ret := i;
    }
  }

  /** The length CommonPrefix returns, as a value. */
  ghost function CommonPrefixLen(a: string, b: string): (n: nat)
    ensures Absolute(a) && Absolute(b) ==> 0 < n && IsLongestBoundary(a, b, n)
  {
    if Absolute(a) && Absolute(b) then
      LongestBoundaryExists(a, b);
      var n: nat :| IsLongestBoundary(a, b, n);
      n
    else 0
  }

  lemma {:induction false} LongestBoundaryBelow(a: string, b: string, bound: nat) returns (n: nat)
    requires Boundary(a, b, 1)
    requires forall m: nat :: Boundary(a, b, m) ==> m <= bound
    ensures n > 0 && IsLongestBoundary(a, b, n)
    decreases bound
  {
    if Boundary(a, b, bound) {
      n := bound;
    } else {
      n := LongestBoundaryBelow(a, b, bound - 1);
    }
  }

  lemma LongestBoundaryExists(a: string, b: string)
    requires Absolute(a) && Absolute(b)
    ensures exists n: nat :: IsLongestBoundary(a, b, n)
    ensures forall n: nat :: IsLongestBoundary(a, b, n) ==> n > 0
  {
    assert Boundary(a, b, 1);
    var n := LongestBoundaryBelow(a, b, |a|);
  }

  lemma CommonPrefixSymmetric(a: string, b: string)
    ensures CommonPrefixLen(a, b) == CommonPrefixLen(b, a)
  {
    if Absolute(a) && Absolute(b) {
      var n, m := CommonPrefixLen(a, b), CommonPrefixLen(b, a);
      assert Boundary(b, a, n) && Boundary(a, b, m);
    }
  }

  // ---------------------------------------------------------------- relative path

  function Repeat(s: string, n: nat): string {
    if n == 0 then "" else s + Repeat(s, n - 1)
  }

  lemma {:induction false} RepeatSnoc(s: string, n: nat)
    ensures Repeat(s, n + 1) == Repeat(s, n) + s
  {
    if n == 0 {
    } else {
      RepeatSnoc(s, n - 1);
    }
  }

  /** How the relative path is put together from what is left of both paths. */
  function FromSuffixes(fromSuffix: string, toSuffix: string): string {
    if fromSuffix != "" then
      ".." + Repeat("/..", Count(fromSuffix, '/')) + (if toSuffix != "" then "/" + toSuffix else "")
    else if toSuffix != "" then toSuffix
    else "."
  }

  ghost function RelativePathOf(from: string, to: string): Option<string> {
    var n := CommonPrefixLen(from, to);
    if n == 0 then None else Some(FromSuffixes(from[n..], to[n..]))
  }

  /** spfs_path_get_relative_path */
  method RelativePath(from: string, to: string) returns (r: Option<string>)
    ensures r == RelativePathOf(from, to)
    ensures r.None? <==> !(Absolute(from) && Absolute(to))
  {
    var prefixLen := CommonPrefix(from, to);
    if prefixLen == 0 {
      return None;
    }
    LongestIs(from, to, prefixLen);
    var fromSuffix, toSuffix := from[prefixLen..], to[prefixLen..];
    var relpat := "";
    if fromSuffix != "" {
      relpat := relpat + "..";
      assert relpat == "..";
      var i := 0;
      while i < |fromSuffix|
        invariant i <= |fromSuffix|
        invariant relpat == ".." + Repeat("/..", Count(fromSuffix[..i], '/'))
      {
        assert fromSuffix[..i + 1] == fromSuffix[..i] + [fromSuffix[i]];
        CountConcat(fromSuffix[..i], [fromSuffix[i]], '/');
        if fromSuffix[i] == '/' {
          RepeatSnoc("/..", Count(fromSuffix[..i], '/'));
          relpat := relpat + "/..";
        }
        i := i + 1;
      }
      assert fromSuffix[..i] == fromSuffix;
      assert relpat == relpat + "";
      if toSuffix != "" {
        relpat := relpat + ("/" + toSuffix);
      }
    } else {
      if toSuffix != "" {
        relpat := relpat + toSuffix;
        assert relpat == toSuffix;
      } else {
        relpat := relpat + ".";
        assert relpat == ".";
      }
    }
    r := Some(relpat);
  }

  // ---------------------------------------------------------------- components

  type Components = seq<string>

  predicate IsComponent(c: string) {
    c != "" && SlashFree(c)
  }

  predicate AreComponents(cs: Components) {
    forall c :: c in cs ==> IsComponent(c)
  }

  /** "/" before every component. */
  function Slashed(cs: Components): string {
    if cs == [] then "" else "/" + (cs[0] + Slashed(cs[1..]))
  }

  /** The canonical absolute path. */
  function Print(cs: Components): string {
    if cs == [] then "/" else Slashed(cs)
  }

  function Join(cs: Components): string {
    if cs == [] then "" else cs[0] + Slashed(cs[1..])
  }

  /** g_strsplit at '/': always at least one piece. */
  function Split(s: string): (r: Components)
    ensures |r| == Count(s, '/') + 1
  {
    if s == "" then [""]
    else
      var rest := Split(s[1..]);
      if s[0] == '/' then [""] + rest else [[s[0]] + rest[0]] + rest[1..]
  }

  lemma {:induction false} SlashedConcat(a: Components, b: Components)
    ensures Slashed(a + b) == Slashed(a) + Slashed(b)
  {
    if a == [] {
      assert a + b == b;
    } else {
      assert (a + b)[1..] == a[1..] + b;
      SlashedConcat(a[1..], b);
    }
  }

  lemma SlashedSnoc(cs: Components, c: string)
    ensures Slashed(cs + [c]) == Slashed(cs) + "/" + c
  {
    SlashedConcat(cs, [c]);
    assert c + Slashed([]) == c;
    assert Slashed(cs) + ("/" + c) == Slashed(cs) + "/" + c;
  }

  lemma {:induction false} SplitWord(c: string, rest: string)
    requires SlashFree(c)
    ensures Split(c + ("/" + rest)) == [c] + Split(rest)
    ensures Split(c) == [c]
  {
    if c == "" {
      assert c + ("/" + rest) == "/" + rest;
      assert ("/" + rest)[1..] == rest;
    } else {
      SplitWord(c[1..], rest);
      assert (c + ("/" + rest))[1..] == c[1..] + ("/" + rest);
      assert [c[0]] + c[1..] == c;
    }
  }

  /** Splitting undoes joining. */
  lemma {:induction false} SplitJoin(cs: Components)
    requires cs != [] && forall c :: c in cs ==> SlashFree(c)
    ensures Split(Join(cs)) == cs
  {
    SplitWord(cs[0], "");
    if |cs| > 1 {
      var rest := cs[1..];
      SplitJoin(rest);
      SplitWord(cs[0], Join(rest));
      assert Join(cs) == cs[0] + ("/" + Join(rest));
    } else {
      assert Join(cs) == cs[0] + "";
      assert Join(cs) == cs[0];
    }
  }

  lemma {:induction false} CountSlashed(cs: Components)
    requires forall c :: c in cs ==> SlashFree(c)
    ensures Count(Slashed(cs), '/') == |cs|
  {
    if cs == [] {
    } else {
      assert cs[0] in cs;
      CountSlashed(cs[1..]);
      CountConcat("/", cs[0] + Slashed(cs[1..]), '/');
      CountConcat(cs[0], Slashed(cs[1..]), '/');
      CountZeroIffAbsent(cs[0], '/');
      assert Count("/", '/') == 1;
    }
  }

  // ------------------------------------------- the common prefix of two printed paths

  /** How many leading components the two lists share. */
  function Shared(a: Components, b: Components): (n: nat)
    ensures n <= |a| && n <= |b| && a[..n] == b[..n]
    ensures n < |a| && n < |b| ==> a[n] != b[n]
  {
    if a != [] && b != [] && a[0] == b[0] then
      var m := Shared(a[1..], b[1..]);
      assert a[..m + 1] == [a[0]] + a[1..][..m];
      assert b[..m + 1] == [b[0]] + b[1..][..m];
      m + 1
    else 0
  }

  /** Two different components followed by an end or a slash have no boundary past the first
      byte in common. */
  lemma DifferentComponents(h: string, x: string, y: string, s: string, t: string, m: nat)
    requires IsComponent(x) && IsComponent(y) && x != y
    requires EntityEnds(s, 0) && EntityEnds(t, 0)
    requires m > |h|
    ensures !Boundary(h + x + s, h + y + t, m)
  {
    var a, b := h + x + s, h + y + t;
    if Boundary(a, b, m) {
      var k := if |x| <= |y| then |x| else |y|;
      if m - |h| <= k {
        BoundaryInsideComponent(h, x, y, s, t, m);
      } else {
        SharedPastComponent(h, x, y, s, t, m);
      }
    }
  }

  lemma BoundaryInsideComponent(h: string, x: string, y: string, s: string, t: string, m: nat)
    requires IsComponent(x) && IsComponent(y) && x != y
    requires EntityEnds(s, 0) && EntityEnds(t, 0)
    requires |h| < m <= |h| + |x| && m <= |h| + |y|
    ensures !Boundary(h + x + s, h + y + t, m)
  {
    var a, b := h + x + s, h + y + t;
    assert a[m - 1] == x[m - 1 - |h|];
    if m < |h| + |x| {
      assert a[m] == x[m - |h|];
    } else if m < |h| + |y| {
      assert b[m] == y[m - |h|];
    } else {
      assert a[..m][|h|..] == x;
      assert b[..m][|h|..] == y;
    }
  }

  lemma SharedPastComponent(h: string, x: string, y: string, s: string, t: string, m: nat)
    requires IsComponent(x) && IsComponent(y) && x != y
    requires EntityEnds(s, 0) && EntityEnds(t, 0)
    requires m > |h| + |x| || m > |h| + |y|
    ensures !Agree(h + x + s, h + y + t, m)
  {
    var a, b := h + x + s, h + y + t;
    if m <= |a| && m <= |b| {
      if |x| < |y| {
        assert a[..m][|h| + |x|] == s[0];
        assert b[..m][|h| + |x|] == y[|x|];
      } else if |y| < |x| {
        assert b[..m][|h| + |y|] == t[0];
        assert a[..m][|h| + |y|] == x[|y|];
      } else {
        assert a[..m][|h|..][..|x|] == x;
        assert b[..m][|h|..][..|y|] == y;
      }
    }
  }

  lemma SlashedEnds(cs: Components)
    ensures EntityEnds(Slashed(cs), 0)
    ensures cs != [] ==> Absolute(Slashed(cs)) && Slashed(cs) == "/" + Join(cs)
  {
  }

  lemma LongestIs(a: string, b: string, n: nat)
    requires Absolute(a) && Absolute(b) && IsLongestBoundary(a, b, n)
    ensures CommonPrefixLen(a, b) == n
  {
  }

  lemma PrefixOfDifferentComponents(h: string, x: string, y: string, s: string, t: string)
    requires Absolute(h) && h[|h| - 1] == '/'
    requires IsComponent(x) && IsComponent(y) && x != y
    requires EntityEnds(s, 0) && EntityEnds(t, 0)
    ensures CommonPrefixLen(h + (x + s), h + (y + t)) == |h|
  {
    var p, q := h + (x + s), h + (y + t);
    assert p == h + x + s && q == h + y + t;
    assert p[..|h|] == h && q[..|h|] == h;
    assert Boundary(p, q, |h|);
    forall m: nat | m > |h|
      ensures !Boundary(p, q, m)
    {
      DifferentComponents(h, x, y, s, t, m);
    }
    LongestIs(p, q, |h|);
  }

  lemma SlashedAt(h: Components, a: Components)
    requires a != []
    ensures Slashed(h + a) == Slashed(h) + "/" + Join(a)
    ensures Slashed(h + a)[|Slashed(h)| + 1..] == Join(a)
    ensures Absolute(Slashed(h) + "/")
  {
    SlashedConcat(h, a);
    var sh, sa, ja := Slashed(h), Slashed(a), Join(a);
    assert sa == "/" + ja;
    assert sh + ("/" + ja) == sh + "/" + ja;
  }

  /** The paths part at a component: the prefix ends after the slash in front of it. */
  lemma PrefixWhereTheyPart(h: Components, a: Components, b: Components)
    requires AreComponents(a) && AreComponents(b)
    requires a != [] && b != [] && a[0] != b[0]
    ensures CommonPrefixLen(Slashed(h + a), Slashed(h + b)) == |Slashed(h)| + 1
  {
    SlashedAt(h, a);
    SlashedAt(h, b);
    SlashedEnds(a[1..]);
    SlashedEnds(b[1..]);
    var head, s, t := Slashed(h) + "/", Slashed(a[1..]), Slashed(b[1..]);
    assert a[0] in a && b[0] in b;
    assert Join(a) == a[0] + s && Join(b) == b[0] + t;
    PrefixOfDifferentComponents(head, a[0], b[0], s, t);
  }

  /** One path continues the other: the prefix is the whole shorter one. */
  lemma PrefixOfContinuation(h: Components, a: Components)
    requires h != []
    ensures CommonPrefixLen(Slashed(h), Slashed(h + a)) == |Slashed(h)|
    ensures CommonPrefixLen(Slashed(h + a), Slashed(h)) == |Slashed(h)|
  {
    SlashedConcat(h, a);
    SlashedEnds(h);
    SlashedEnds(h + a);
    SlashedEnds(a);
    var p, q := Slashed(h), Slashed(h + a);
    assert q[..|p|] == p && p[..|p|] == p;
    assert EntityEnds(q, |p|);
    assert Boundary(p, q, |p|);
    LongestIs(p, q, |p|);
    CommonPrefixSymmetric(p, q);
  }

  /** Between the root and anything else the prefix is the one slash. */
  lemma PrefixWithRoot(a: Components)
    requires AreComponents(a)
    ensures CommonPrefixLen("/", Print(a)) == 1
    ensures CommonPrefixLen(Print(a), "/") == 1
  {
    SlashedEnds(a);
    assert Boundary("/", Print(a), 1);
    LongestIs("/", Print(a), 1);
    CommonPrefixSymmetric("/", Print(a));
  }

  // ------------------------------------------- what the relative path looks like

  function Ups(n: nat): Components {
    if n == 0 then [] else [".."] + Ups(n - 1)
  }

  lemma SlashedUp(cs: Components)
    ensures Slashed([".."] + cs) == "/.." + Slashed(cs)
  {
    assert ([".."] + cs)[1..] == cs;
    assert "/" + (".." + Slashed(cs)) == "/.." + Slashed(cs);
  }

  lemma {:induction false} UpsShape(n: nat)
    ensures |Ups(n)| == n && forall c :: c in Ups(n) ==> c == ".."
    ensures Slashed(Ups(n)) == Repeat("/..", n)
  {
    if n == 0 {
    } else {
      UpsShape(n - 1);
      SlashedUp(Ups(n - 1));
    }
  }

  /** A proper ancestor other than the root. */
  predicate ProperAncestor(a: Components, b: Components) {
    a != [] && a < b
  }

  predicate Related(a: Components, b: Components) {
    ProperAncestor(a, b) || ProperAncestor(b, a)
  }

  /** The components a relative path should have. */
  function Route(a: Components, b: Components): Components {
    var n := Shared(a, b);
    if a == b then ["."] else Ups(|a| - n) + b[n..]
  }

  lemma JoinCons(c: string, cs: Components)
    ensures Join([c] + cs) == c + Slashed(cs)
  {
    assert ([c] + cs)[1..] == cs;
  }

  /** One ".." for each of n components. */
  lemma UpsJoin(n: nat, b: Components)
    ensures Join(Ups(n + 1) + b) == ".." + (Repeat("/..", n) + Slashed(b))
  {
    var us := Ups(n);
    assert Ups(n + 1) + b == [".."] + (us + b);
    JoinCons("..", us + b);
    UpsShape(n);
    SlashedConcat(us, b);
  }

  lemma CountJoin(a: Components)
    requires AreComponents(a) && a != []
    ensures Join(a) != "" && Count(Join(a), '/') == |a| - 1
  {
    assert a[0] in a && forall c :: c in a[1..] ==> c in a;
    CountSlashed(a[1..]);
    CountConcat(a[0], Slashed(a[1..]), '/');
    CountZeroIffAbsent(a[0], '/');
  }

  lemma SlashedIsJoin(b: Components)
    requires AreComponents(b)
    ensures Slashed(b) == if Join(b) == "" then "" else "/" + Join(b)
  {
    if b != [] {
      CountJoin(b);
    }
  }

  lemma FromSuffixesBelow(fromSuffix: string, toSuffix: string)
    requires fromSuffix != ""
    ensures FromSuffixes(fromSuffix, toSuffix)
         == ".." + (Repeat("/..", Count(fromSuffix, '/')) + (if toSuffix == "" then "" else "/" + toSuffix))
  {
  }

  /** ".." and the rest, from what is left of both lists. */
  lemma SuffixesJoin(a: Components, b: Components)
    requires AreComponents(a) && AreComponents(b) && a != []
    ensures FromSuffixes(Join(a), Join(b)) == Join(Ups(|a|) + b)
  {
    var n, ja, jb := |a| - 1, Join(a), Join(b);
    var joined, slashed := Join(Ups(n + 1) + b), Slashed(b);
    assert ja != "" && Count(ja, '/') == n by { CountJoin(a); }
    assert slashed == if jb == "" then "" else "/" + jb by { SlashedIsJoin(b); }
    assert joined == ".." + (Repeat("/..", n) + slashed) by { UpsJoin(n, b); }
    FromSuffixesBelow(ja, jb);
  }

  lemma SharedSplits(a: Components, b: Components)
    ensures var n := Shared(a, b); a == a[..n] + a[n..] && b == a[..n] + b[n..]
  {
  }

  /** Where neither path is a proper ancestor of the other below the root, the result has the
      right number of ".." and then the rest of the target. */
  lemma RelativePathShape(a: Components, b: Components)
    requires AreComponents(a) && AreComponents(b) && !Related(a, b)
    ensures RelativePathOf(Print(a), Print(b)) == Some(Join(Route(a, b)))
    ensures Route(a, b) != []
  {
    var n := Shared(a, b);
    var h := a[..n];
    SharedSplits(a, b);
    assert a != [] && b != [] && a != b ==> n < |a| && n < |b|;
    if a == b {
      SameShape(a);
    } else if a == [] {
      RootShape(b);
    } else if b == [] {
      PrefixWithRoot(a);
      SlashedEnds(a);
      assert a[0..] == a && b[0..] == b;
      SuffixesJoin(a, b);
    } else {
      PartingShape(h, a[n..], b[n..]);
    }
  }

  lemma SameShape(a: Components)
    ensures RelativePathOf(Print(a), Print(a)) == Some(".")
    ensures Join(["."]) == "."
  {
    if a == [] {
      PrefixWithRoot([]);
    } else {
      PrefixOfContinuation(a, []);
      assert a + [] == a;
    }
    var p := Print(a);
    assert p[|p|..] == "";
    assert "." + "" == ".";
  }

  lemma RootShape(b: Components)
    requires AreComponents(b) && b != []
    ensures RelativePathOf("/", Print(b)) == Some(Join(Route([], b)))
  {
    PrefixWithRoot(b);
    SlashedEnds(b);
    CountJoin(b);
    assert "/"[1..] == "";
    assert Print(b)[1..] == Join(b);
    assert Ups(0) + b[0..] == b;
  }

  lemma PartingShape(h: Components, a: Components, b: Components)
    requires AreComponents(a) && AreComponents(b)
    requires a != [] && b != [] && a[0] != b[0]
    ensures RelativePathOf(Slashed(h + a), Slashed(h + b)) == Some(Join(Ups(|a|) + b))
  {
    PrefixWhereTheyPart(h, a, b);
    SlashedAt(h, a);
    SlashedAt(h, b);
    SuffixesJoin(a, b);
  }

  /** Downwards from a directory below the root the result is absolute. */
  lemma DescendingShape(h: Components, b: Components)
    requires h != [] && b != []
    ensures RelativePathOf(Slashed(h), Slashed(h + b)) == Some("/" + Join(b))
  {
    PrefixOfContinuation(h, b);
    SlashedConcat(h, b);
    assert Slashed(h)[|Slashed(h)|..] == "";
    assert Slashed(h + b)[|Slashed(h)|..] == Slashed(b);
  }

  /** Upwards to a directory below the root the result has one ".." too many. */
  lemma AscendingShape(h: Components, a: Components)
    requires AreComponents(a) && h != [] && a != []
    ensures RelativePathOf(Slashed(h + a), Slashed(h)) == Some(Join(Ups(|a| + 1)))
  {
    PrefixOfContinuation(h, a);
    SlashedConcat(h, a);
    assert Slashed(h)[|Slashed(h)|..] == "";
    assert Slashed(h + a)[|Slashed(h)|..] == Slashed(a);
    UpwardsJoin(a);
  }

  lemma UpwardsJoin(a: Components)
    requires AreComponents(a) && a != []
    ensures FromSuffixes(Slashed(a), "") == Join(Ups(|a| + 1))
  {
    var n, sa := |a|, Slashed(a);
    var joined := Join(Ups(n + 1));
    assert Count(sa, '/') == n by { CountSlashed(a); }
    assert joined == ".." + (Repeat("/..", n) + "") by {
      UpsJoin(n, []);
      assert Ups(n + 1) + [] == Ups(n + 1);
    }
    FromSuffixesBelow(sa, "");
  }

  // ------------------------------------------- where it leads

  /** One component of a link text, read at a directory given by its components. */
  function Follow(base: Components, c: string): Components {
    if c == "" || c == "." then base
    else if c == ".." then (if base == [] then [] else base[..|base| - 1])
    else base + [c]
  }

  function FollowAll(base: Components, cs: Components): Components
    decreases cs
  {
    if cs == [] then base else FollowAll(Follow(base, cs[0]), cs[1..])
  }

  /** The text of a symbolic link, read at the directory that holds the link. */
  function ReadLink(base: Components, text: string): Components {
    FollowAll(if Absolute(text) then [] else base, Split(text))
  }

  predicate ProperName(c: string) {
    IsComponent(c) && c != "." && c != ".."
  }

  predicate Canonical(cs: Components) {
    forall c :: c in cs ==> ProperName(c)
  }

  lemma {:induction false} FollowConcat(base: Components, cs: Components, ds: Components)
    ensures FollowAll(base, cs + ds) == FollowAll(FollowAll(base, cs), ds)
    decreases cs
  {
    if cs == [] {
      assert cs + ds == ds;
    } else {
      assert (cs + ds)[1..] == cs[1..] + ds;
      FollowConcat(Follow(base, cs[0]), cs[1..], ds);
    }
  }

  lemma {:induction false} FollowUps(base: Components, n: nat)
    ensures FollowAll(base, Ups(n)) == if n <= |base| then base[..|base| - n] else []
  {
    if n == 0 {
      assert base[..|base|] == base;
    } else if base != [] {
      FollowUps(base[..|base| - 1], n - 1);
    } else {
      FollowUps([], n - 1);
    }
  }

  lemma {:induction false} FollowDown(base: Components, cs: Components)
    requires Canonical(cs)
    ensures FollowAll(base, cs) == base + cs
    decreases cs
  {
    if cs == [] {
      assert base + cs == base;
    } else {
      assert ProperName(cs[0]);
      FollowDown(base + [cs[0]], cs[1..]);
      assert base + [cs[0]] + cs[1..] == base + cs;
    }
  }

  lemma RouteArrives(a: Components, b: Components)
    requires Canonical(b) && a != b
    ensures FollowAll(a, Route(a, b)) == b
  {
    var n := Shared(a, b);
    FollowConcat(a, Ups(|a| - n), b[n..]);
    FollowUps(a, |a| - n);
    FollowDown(a[..n], b[n..]);
    SharedSplits(a, b);
  }

  lemma JoinNotAbsolute(cs: Components)
    requires cs != [] && IsComponent(cs[0])
    ensures !Absolute(Join(cs))
  {
    assert Join(cs)[0] == cs[0][0];
  }

  lemma ReadJoined(base: Components, cs: Components)
    requires cs != [] && AreComponents(cs)
    ensures ReadLink(base, Join(cs)) == FollowAll(base, cs)
  {
    JoinNotAbsolute(cs);
    SplitJoin(cs);
  }

  lemma RouteIsComponents(a: Components, b: Components)
    requires AreComponents(b)
    ensures AreComponents(Route(a, b))
  {
    UpsShape(|a| - Shared(a, b));
  }

  /** A relative path leads from the one directory to the other exactly when neither of them
      is a proper ancestor of the other below the root. */
  lemma RelativePathLeads(a: Components, b: Components)
    requires Canonical(a) && Canonical(b)
    ensures RelativePathOf(Print(a), Print(b)).Some?
    ensures ReadLink(a, RelativePathOf(Print(a), Print(b)).value) == b <==> !Related(a, b)
  {
    SlashedEnds(a);
    SlashedEnds(b);
    if !Related(a, b) {
      RelativePathShape(a, b);
      RouteIsComponents(a, b);
      ReadJoined(a, Route(a, b));
      if a != b {
        RouteArrives(a, b);
      }
    } else if ProperAncestor(a, b) {
      DescendingMisses(a, b[|a|..]);
      assert a + b[|a|..] == b;
    } else {
      AscendingMisses(b, a[|b|..]);
      assert b + a[|b|..] == a;
    }
  }

  lemma DescendingMisses(h: Components, b: Components)
    requires Canonical(h) && Canonical(b) && h != [] && b != []
    ensures RelativePathOf(Slashed(h), Slashed(h + b)).Some?
    ensures ReadLink(h, RelativePathOf(Slashed(h), Slashed(h + b)).value) == b
    ensures b != h + b
  {
    DescendingShape(h, b);
    SplitJoin(b);
    assert ("/" + Join(b))[1..] == Join(b);
    assert Split("/" + Join(b)) == [""] + b;
    assert ([""] + b)[1..] == b;
    FollowDown([], b);
    assert [] + b == b;
    assert |b| != |h + b|;
  }

  lemma AscendingMisses(h: Components, a: Components)
    requires Canonical(h) && Canonical(a) && h != [] && a != []
    ensures RelativePathOf(Slashed(h + a), Slashed(h)).Some?
    ensures ReadLink(h + a, RelativePathOf(Slashed(h + a), Slashed(h)).value) == h[..|h| - 1]
    ensures h[..|h| - 1] != h
  {
    AscendingShape(h, a);
    UpsShape(|a| + 1);
    ReadJoined(h + a, Ups(|a| + 1));
    FollowUps(h + a, |a| + 1);
    assert (h + a)[..|h| - 1] == h[..|h| - 1];
    assert |h[..|h| - 1]| != |h|;
  }
}
