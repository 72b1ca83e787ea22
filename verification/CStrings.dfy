/** C strings: the first-occurrence search and replacement of string_utils.c, and what
    repeating that replacement until nothing is left to replace amounts to.

    A string is the bytes before the terminator, one char per byte. */
module CStrings {

  datatype Option<+T> = None | Some(value: T)

  /** Joining three sequences does not depend on which two are joined first. */
  lemma Assoc<X>(a: seq<X>, b: seq<X>, c: seq<X>)
    ensures (a + b) + c == a + (b + c)
  {
  }

  predicate OccursAt(s: string, key: string, i: nat) {
    i + |key| <= |s| && s[i..i + |key|] == key
  }

  ghost predicate Occurs(s: string, key: string) {
    exists i: nat :: OccursAt(s, key, i)
  }

  /** strstr, searching from position i on. */
  function IndexFrom(s: string, key: string, i: nat): (r: Option<nat>)
    requires i <= |s|
    ensures r.Some? ==> i <= r.value && OccursAt(s, key, r.value)
    ensures r.Some? ==> forall j: nat :: i <= j < r.value ==> !OccursAt(s, key, j)
    ensures r.None? ==> forall j: nat :: i <= j ==> !OccursAt(s, key, j)
    decreases |s| - i
  {
    if OccursAt(s, key, i) then Some(i)
    else if i == |s| then None
    else IndexFrom(s, key, i + 1)
  }

  function StrStr(s: string, key: string): (r: Option<nat>)
    ensures r.Some? <==> Occurs(s, key)
  {
    IndexFrom(s, key, 0)
  }

  /** What str_replace computes: the first occurrence replaced, or s itself. */
  function ReplaceFirst(s: string, key: string, val: string): string {
    match StrStr(s, key)
    case None => s
    case Some(p) => s[..p] + val + s[p + |key|..]
  }

  function Count(s: string, c: char): nat {
    if s == "" then 0 else (if s[0] == c then 1 else 0) + Count(s[1..], c)
  }

  lemma {:induction false} CountConcat(s: string, t: string, c: char)
    ensures Count(s + t, c) == Count(s, c) + Count(t, c)
  {
    if s == "" {
      assert s + t == t;
    } else {
      assert (s + t)[1..] == s[1..] + t;
      CountConcat(s[1..], t, c);
    }
  }

  lemma {:induction false} CountZeroIffAbsent(s: string, c: char)
    ensures Count(s, c) == 0 <==> c !in s
  {
    if s == "" {
    } else {
      CountZeroIffAbsent(s[1..], c);
      assert s == [s[0]] + s[1..];
    }
  }

  /** A replacement that takes a character away makes progress. */
  lemma ReplaceFirstCount(s: string, key: string, val: string, c: char)
    requires Occurs(s, key)
    ensures Count(ReplaceFirst(s, key, val), c) + Count(key, c) == Count(s, c) + Count(val, c)
  {
    var p := StrStr(s, key).value;
    assert s == s[..p] + key + s[p + |key|..];
    CountConcat(s[..p] + key, s[p + |key|..], c);
    CountConcat(s[..p], key, c);
    CountConcat(s[..p] + val, s[p + |key|..], c);
    CountConcat(s[..p], val, c);
  }

  /** memcpy of a whole source into an array. */
  method MemCpy<T>(dst: array<T>, at: nat, src: seq<T>)
    requires at + |src| <= dst.Length
    modifies dst
    ensures dst[..at + |src|] == old(dst[..at]) + src
    ensures forall k :: at + |src| <= k < dst.Length ==> dst[k] == old(dst[k])
  {
    forall i | 0 <= i < |src| {
      dst[at + i] := src[i];
    }
  }

  /** The array holds s as a terminated C string. */
  ghost predicate Holds(buf: array<char>, s: string)
    reads buf
  {
    |s| < buf.Length && buf[..|s|] == s && buf[|s|] == '\0'
  }

  /** str_replace: the pieces are copied at computed offsets into a zeroed buffer that is as
      long as the source and the replacement together. */
  method StrReplaceBuffer(s: string, c: string, replacement: string) returns (buf: array<char>)
    ensures fresh(buf) && buf.Length == |s| + |replacement| + 1
    ensures Holds(buf, ReplaceFirst(s, c, replacement))
  {
    buf := new char[|s| + |replacement| + 1](_ => '\0');
    var p := StrStr(s, c);
    if p.None? {
      MemCpy(buf, 0, s);
      return;
    }
    var off := p.value;
    CopyPieces(buf, s[..off], replacement, s[off + |c|..]);
    buf[|s| + |replacement|] := '\0';
  }

  /** Its three copies, one behind the other. */
  method CopyPieces(buf: array<char>, a: string, b: string, c: string)
    requires |a| + |b| + |c| <= buf.Length
    modifies buf
    ensures buf[..|a| + |b| + |c|] == a + b + c
    ensures forall k :: |a| + |b| + |c| <= k < buf.Length ==> buf[k] == old(buf[k])
  {
    MemCpy(buf, 0, a);
    assert buf[..|a|] == a;
    MemCpy(buf, |a|, b);
    MemCpy(buf, |a| + |b|, c);
  }

  /** str_replace as its callers see it. */
  method StrReplace(s: string, c: string, replacement: string) returns (r: string)
    ensures r == ReplaceFirst(s, c, replacement)
  {
    var buf := StrReplaceBuffer(s, c, replacement);
    ghost var expected := ReplaceFirst(s, c, replacement);
    var n := |s| + (if StrStr(s, c).Some? then |replacement| - |c| else 0);
    r := buf[..n];
  }

  /** Replacing takes away a character that the replacement does not bring back. */
  predicate TakesAway(key: string, val: string, mark: char) {
    mark in key && mark !in val
  }

  /** The first occurrence replaced again and again until there is none. */
  ghost function ReplaceEach(s: string, key: string, val: string, mark: char): (r: string)
    requires TakesAway(key, val, mark)
    ensures !Occurs(r, key)
    decreases Count(s, mark)
  {
    if Occurs(s, key) then
      ReplaceFirstCount(s, key, val, mark);
      CountZeroIffAbsent(key, mark);
      CountZeroIffAbsent(val, mark);
      ReplaceEach(ReplaceFirst(s, key, val), key, val, mark)
    else s
  }

  /** The independent reading: one pass from left to right. */
  function Subst(s: string, key: string, val: string): string
    requires key != ""
  {
    if s == "" then ""
    else if OccursAt(s, key, 0) then val + Subst(s[|key|..], key, val)
    else [s[0]] + Subst(s[1..], key, val)
  }

  /** Where no occurrence starts, the one pass copies. */
  lemma {:induction false} SubstSkip(s: string, key: string, val: string, p: nat)
    requires key != "" && p <= |s|
    requires forall i: nat :: i < p ==> !OccursAt(s, key, i)
    ensures Subst(s, key, val) == s[..p] + Subst(s[p..], key, val)
  {
    if p == 0 {
      assert s[0..] == s;
    } else {
      forall i: nat | i < p - 1
        ensures !OccursAt(s[1..], key, i)
      {
        assert !OccursAt(s, key, i + 1);
        assert i + 1 + |key| <= |s| ==> s[1..][i..i + |key|] == s[i + 1..i + 1 + |key|];
      }
      SubstSkip(s[1..], key, val, p - 1);
      assert !OccursAt(s, key, 0);
      assert s[1..][p - 1..] == s[p..];
      assert s[..p] == [s[0]] + s[1..][..p - 1];
    }
  }

  lemma SubstNothing(s: string, key: string, val: string)
    requires key != "" && !Occurs(s, key)
    ensures Subst(s, key, val) == s
  {
    SubstSkip(s, key, val, |s|);
    assert s[|s|..] == "";
    assert s[..|s|] == s;
  }

  /** The key starts with its mark, has it nowhere else, and a replacement cannot be the
      middle of a new key. */
  predicate Separate(key: string, val: string) {
    key != "" && key[0] !in key[1..] && key[0] !in val &&
    (|key| == 1 || (val != "" && val[0] !in key))
  }

  /** After a replacement no key starts before the end of the replacement. */
  lemma NoNewOccurrence(s: string, key: string, val: string, p: nat, i: nat)
    requires Separate(key, val)
    requires OccursAt(s, key, p)
    requires forall j: nat :: j < p ==> !OccursAt(s, key, j)
    requires i < p + |val|
    ensures !OccursAt(s[..p] + val + s[p + |key|..], key, i)
  {
    var t := s[..p] + val + s[p + |key|..];
    if i + |key| <= p {
      assert t[i..i + |key|] == s[i..i + |key|];
      assert !OccursAt(s, key, i);
    } else if i < p {
      assert t[p] == val[0];
      assert i + |key| <= |t| ==> t[i..i + |key|][p - i] == t[p];
    } else {
      assert t[i] == val[i - p];
      assert i + |key| <= |t| ==> t[i..i + |key|][0] == t[i];
    }
  }

  lemma SubstAtFirst(s: string, key: string, val: string, p: nat)
    requires key != "" && OccursAt(s, key, p)
    requires forall j: nat :: j < p ==> !OccursAt(s, key, j)
    ensures Subst(s, key, val) == s[..p] + val + Subst(s[p + |key|..], key, val)
  {
    SubstSkip(s, key, val, p);
    assert s[p..][..|key|] == s[p..p + |key|];
    assert OccursAt(s[p..], key, 0);
    assert s[p..][|key|..] == s[p + |key|..];
  }

  lemma SubstPastReplacement(s: string, key: string, val: string, p: nat)
    requires Separate(key, val) && OccursAt(s, key, p)
    requires forall j: nat :: j < p ==> !OccursAt(s, key, j)
    ensures Subst(s[..p] + val + s[p + |key|..], key, val) == s[..p] + val + Subst(s[p + |key|..], key, val)
  {
    var t := s[..p] + val + s[p + |key|..];
    forall i: nat | i < p + |val|
      ensures !OccursAt(t, key, i)
    {
      NoNewOccurrence(s, key, val, p, i);
    }
    SubstSkip(t, key, val, p + |val|);
    assert t[..p + |val|] == s[..p] + val;
    assert t[p + |val|..] == s[p + |key|..];
  }

  /** One replacement does not change what the one pass computes. */
  lemma SubstAbsorbsReplaceFirst(s: string, key: string, val: string)
    requires Separate(key, val)
    ensures Subst(ReplaceFirst(s, key, val), key, val) == Subst(s, key, val)
  {
    if Occurs(s, key) {
      var p := StrStr(s, key).value;
      assert ReplaceFirst(s, key, val) == s[..p] + val + s[p + |key|..];
      SubstAtFirst(s, key, val, p);
      SubstPastReplacement(s, key, val, p);
    }
  }

  /** Replacing first occurrences until none is left is one pass from left to right. */
  lemma {:induction false} ReplaceEachIsSubst(s: string, key: string, val: string, mark: char)
    requires TakesAway(key, val, mark) && Separate(key, val)
    ensures ReplaceEach(s, key, val, mark) == Subst(s, key, val)
    decreases Count(s, mark)
  {
    if Occurs(s, key) {
      ReplaceFirstCount(s, key, val, mark);
      CountZeroIffAbsent(key, mark);
      CountZeroIffAbsent(val, mark);
      ReplaceEachIsSubst(ReplaceFirst(s, key, val), key, val, mark);
      SubstAbsorbsReplaceFirst(s, key, val);
    } else {
      SubstNothing(s, key, val);
    }
  }

  /** The one pass works piecewise when the key is a single character. */
  lemma {:induction false} SubstConcat(s: string, t: string, k: char, val: string)
    ensures Subst(s + t, [k], val) == Subst(s, [k], val) + Subst(t, [k], val)
  {
    if s == "" {
      assert s + t == t;
    } else {
      assert (s + t)[1..] == s[1..] + t;
      assert OccursAt(s + t, [k], 0) <==> OccursAt(s, [k], 0);
      SubstConcat(s[1..], t, k, val);
    }
  }

  lemma {:induction false} SubstRemoves(s: string, k: char, val: string, c: char)
    requires k !in val
    ensures k !in Subst(s, [k], val)
    ensures c !in s && c !in val ==> c !in Subst(s, [k], val)
  {
    if s == "" {
    } else {
      assert OccursAt(s, [k], 0) <==> s[0] == k;
      SubstRemoves(s[1..], k, val, c);
    }
  }

  lemma OccursChar(s: string, k: char)
    ensures Occurs(s, [k]) <==> k in s
  {
    if k in s {
      var i :| 0 <= i < |s| && s[i] == k;
      assert OccursAt(s, [k], i);
    }
    if Occurs(s, [k]) {
      var i: nat :| OccursAt(s, [k], i);
      assert s[i..i + 1][0] == k;
    }
  }
}
