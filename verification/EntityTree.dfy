/** The linked structure itself: spfs_fuse_entity.c as methods over entities. */
module EntityTrees {
  import opened CStrings
  import opened Names
  import opened Paths
  import opened Entities
  import opened Growth

  class EntityTree {
    /** spfs_root */
    const root: Entity
    /** Every entity created so far, attached or not, with what its fields hold. */
    ghost var t: Tree

    ghost predicate Mirrors(e: Entity)
      reads this, e
    {
      e in t && t[e] == NodeOf(e)
    }

    ghost predicate Mirrored()
      reads this, t.Keys
    {
      forall e {:trigger Mirrors(e)} :: e in t ==> Mirrors(e)
    }

    ghost predicate Valid()
      reads this, t.Keys
    {
      Mirrored() && Forest(t, root)
    }

    /** spfs_entity_root_create */
    constructor ()
      ensures Valid() && fresh(t.Keys)
      ensures t == map[root := NewNode(None, Dir, NoOps, "", "")]
    {
      var r := new Entity(None, Dir, NoOps, "", "");
      root := r;
      t := map[r := NewNode(None, Dir, NoOps, "", "")];
      new;
      assert Mirrors(root);
      assert Grounded(t, root, 0);
    }

    /** spfs_entity_create under one of the three kinds; a link starts out leading to its
        own name. */
    method Create(name: string, kind: Kind, ops: Ops, auxdata: string) returns (e: Entity)
      requires Valid()
      modifies this
      ensures fresh(e)
      ensures t == old(t)[e := NewNode(Some(SanitizeName(name)), kind, ops,
                                       if kind.Link? then SanitizeName(name) else "", auxdata)]
      ensures Valid() && Grown(old(t), t, {})
    {
      var san := Sanitize(name);
      SanitizeNameSpec(name);
      e := new Entity(Some(san), kind, ops, if kind.Link? then san else "", auxdata);
      t := t[e := NodeOf(e)];
      AddedKeepsForest(old(t), root, e, NodeOf(e));
      forall x | x in t
        ensures Mirrors(x)
      {
        assert x in old(t) ==> old(Mirrors(x));
      }
    }

    /** spfs_entity_dir_get_child */
    method GetChild(dir: Entity, name: string) returns (e: Entity?)
      ensures e == if SanitizeName(name) in dir.children then dir.children[SanitizeName(name)] else null
    {
      var san := Sanitize(name);
      e := if san in dir.children then dir.children[san] else null;
    }

    /** spfs_entity_dir_has_child */
    method HasChild(dir: Entity, name: string) returns (b: bool)
      ensures b <==> SanitizeName(name) in dir.children
    {
      var e := GetChild(dir, name);
      b := e != null;
    }

    /** spfs_entity_dir_add_child. It looks at the kind of the parent and at the name; that the
        structure stays a forest is up to the caller, who has to pass the top of another tree. */
    method AddChild(parent: Entity, child: Entity)
      requires Valid() && parent in t && child in t && child != root
      modifies this, parent`children, child`parent
      ensures t == if Accepts(old(t), parent, child) then Attach(old(t), parent, child) else old(t)
      ensures Mirrored()
      ensures Valid() <==> (Accepts(old(t), parent, child) ==> IsTopOfAnother(old(t), parent, child))
    {
      NamedCleanly(t, root, child);
      assert Mirrors(parent) && Mirrors(child);
      if parent.kind != Dir {
        return;
      }
      if child.name.value == "" {
        return;
      }
      var has := HasChild(parent, child.name.value);
      if has {
        return;
      }
      Insert(parent, child);
    }

    /** Its last two statements, behind the guards. */
    method Insert(parent: Entity, child: Entity)
      requires Valid() && Accepts(t, parent, child) && child != root
      modifies this, parent`children, child`parent
      ensures t == Attach(old(t), parent, child)
      ensures Mirrored()
      ensures Forest(t, root) <==> IsTopOfAnother(old(t), parent, child)
    {
      assert Mirrors(parent) && Mirrors(child);
      child.parent := parent;
      parent.children := parent.children[child.name.value := child];
      t := Attach(t, parent, child);
      AttachKeepsForestIff(old(t), root, parent, child);
      forall x | x in t
        ensures Mirrors(x)
      {
        assert old(Mirrors(x));
      }
    }

    /** A new entity created and added to a directory in one statement. */
    method CreateIn(parent: Entity, name: string, kind: Kind, ops: Ops, auxdata: string) returns (e: Entity)
      requires Valid() && parent in t && t[parent].kind.Dir?
      requires Clean(name) && name != "" && name !in t[parent].children
      modifies this, parent`children
      ensures fresh(e)
      ensures t == PutIn(old(t), parent, e, NewNode(Some(name), kind, ops, if kind.Link? then name else "", auxdata))
      ensures Valid()
      ensures Grown(old(t), t, {parent})
    {
      ghost var t0 := t;
      assert NodeOk(t0, root, parent);
      SanitizeNameSpec(name);
      e := Create(name, kind, ops, auxdata);
      assert NodeOk(t, root, parent);
      assert KeptIn(t0, t, parent);
      NotUnderFresh(t0, t, parent, e);
      GrownMore(t0, t, {}, {parent});
      AttachGrows(t0, t, root, parent, e);
      AddChild(parent, e);
    }

    /** spfs_entity_link_set_target */
    method SetTarget(link: Entity, target: string, ghost goal: Entity, ghost about: string)
      requires Valid() && link in t
      modifies this, link`target, link`goal, link`about
      ensures t == if old(t)[link].kind.Link? then Aim(old(t), link, target, goal, about) else old(t)
      ensures Valid()
    {
      assert Mirrors(link);
      if link.kind != Link {
        return;
      }
      link.target := target;
      link.goal, link.about := goal, about;
      t := Aim(t, link, target, goal, about);
      AimKeepsForest(old(t), root, link, target, goal, about);
      forall x | x in t
        ensures Mirrors(x)
      {
        assert old(Mirrors(x));
      }
    }

    /** spfs_entity_find_path: two nested loops that skip empty elements. */
    method FindPath(from: Entity, path: string) returns (found: Entity?)
      requires Valid() && from in t
      ensures found == FindOf(t, from, path)
      ensures found != null ==> found in t
    {
      if path == "" {
        return null;
      }
      if path == "/" {
        return from;
      }
      ghost var result := FindOf(t, from, path);
      var elems := Split(path);
      found := from;
      var i := 0;
      assert elems[0..] == elems;
      while i < |elems| && found != null
        invariant i <= |elems|
        invariant found != null ==> found in t
        invariant result == if i < |elems| && found != null then Walk(t, found, Pieces(elems[i..])) else found
      {
        var current, next := NextElement(elems, i);
        WalkOne(t, root, found, current, NonEmpty(elems[next..]));
        assert Mirrors(found);
        if next == |elems| && found.name == Some(current) {
          return;
        } else if found.kind == Dir {
          found := if current in found.children then found.children[current] else null;
        } else {
          found := null;
        }
        i := next;
      }
    }

    /** The two inner loops: empty elements skipped in front of the current one and after it. */
    static method NextElement(elems: Components, start: nat) returns (current: string, next: nat)
      requires start < |elems|
      ensures start < next <= |elems|
      ensures Pieces(elems[start..]) == [current] + NonEmpty(elems[next..])
      ensures next == |elems| <==> NonEmpty(elems[next..]) == []
      ensures next < |elems| ==> Pieces(elems[next..]) == NonEmpty(elems[next..])
    {
      var i := start;
      while i + 1 < |elems| && elems[i] == ""
        invariant start <= i < |elems|
        invariant Pieces(elems[start..]) == Pieces(elems[i..])
      {
        PiecesSkip(elems, i);
        i := i + 1;
      }
      current := elems[i];
      ghost var rest := NonEmpty(elems[i + 1..]);
      PiecesHead(elems, i);
      while i + 1 < |elems| && elems[i + 1] == ""
        invariant start <= i < |elems|
        invariant rest == NonEmpty(elems[i + 1..])
      {
        NonEmptySkip(elems, i + 1);
        i := i + 1;
      }
      RestOf(elems, i + 1);
      next := i + 1;
    }

    /** spfs_entity_get_full_path: the names from e upwards, then glued together from the top. */
    method FullPath(e: Entity) returns (p: string)
      requires Valid() && e in t && Founded(t, e)
      ensures p == FullPathOf(t, e)
    {
      ParentDepth(t, e);
      assert Mirrors(e);
      if e.name.None? {
        return "/";
      }
      var elems: seq<string> := [];
      var cur: Entity? := e;
      while cur != null
        invariant cur != null ==> cur in t && Founded(t, cur)
        invariant PathOf(t, e) == PathAbove(t, cur) + Reversed(elems)
        decreases if cur == null then 0 else Depth(t, cur) + 1
      {
        ParentDepth(t, cur);
        assert Mirrors(cur);
        OneNameUp(t, cur, elems);
        if cur.name.Some? {
          elems := elems + [cur.name.value];
        }
        cur := cur.parent;
      }
      assert PathOf(t, e) == Reversed(elems);
      p := Glue(elems);
    }

    /** Its second half: the collected names appended from the last to the first. */
    static method Glue(elems: seq<string>) returns (p: string)
      ensures p == Truncated(Slashed(Reversed(elems)))
    {
      p := "";
      var i := |elems|;
      assert elems[i..] == [];
      while i > 0
        invariant 0 <= i <= |elems|
        invariant p == Truncated(Slashed(Reversed(elems[i..])))
      {
        i := i - 1;
        assert elems[i..] == [elems[i]] + elems[i + 1..];
        GlueOne(elems[i + 1..], elems[i]);
        p := StrlCat(p, "/");
        p := StrlCat(p, elems[i]);
      }
      assert elems[0..] == elems;
    }

    /** relpath */
    method Relpath(from: Entity, to: Entity) returns (r: string)
      requires Valid() && from in t && to in t && Founded(t, from) && Founded(t, to)
      ensures RelpathOf(t, from, to) == Some(r)
    {
      var fromPath := FullPath(from);
      var toPath := FullPath(to);
      FullPathAbsolute(t, root, from);
      FullPathAbsolute(t, root, to);
      var rel := RelativePath(fromPath, toPath);
      r := rel.value;
    }
  }

  lemma NamedCleanly(t: Tree, root: Entity, e: Entity)
    requires Forest(t, root) && e in t && e != root
    ensures t[e].name.Some? && SanitizeName(t[e].name.value) == t[e].name.value
  {
    assert NodeOk(t, root, e);
    SanitizeNameSpec(t[e].name.value);
  }

  // ---------------------------------------------------------------- find_path's loops

  lemma NonEmptySkip(elems: Components, i: nat)
    requires i < |elems| && elems[i] == ""
    ensures NonEmpty(elems[i..]) == NonEmpty(elems[i + 1..])
  {
    assert elems[i..][1..] == elems[i + 1..];
  }

  lemma PiecesSkip(elems: Components, i: nat)
    requires i + 1 < |elems| && elems[i] == ""
    ensures Pieces(elems[i..]) == Pieces(elems[i + 1..])
  {
    NonEmptySkip(elems, i);
  }

  lemma PiecesHead(elems: Components, i: nat)
    requires i < |elems| && (i + 1 == |elems| || elems[i] != "")
    ensures Pieces(elems[i..]) == [elems[i]] + NonEmpty(elems[i + 1..])
    ensures elems[i] != "" ==> NonEmpty(elems[i..]) == Pieces(elems[i..])
  {
    assert elems[i..][1..] == elems[i + 1..];
  }

  lemma RestOf(elems: Components, i: nat)
    requires i <= |elems| && (i == |elems| || elems[i] != "")
    ensures i == |elems| ==> NonEmpty(elems[i..]) == []
    ensures i < |elems| ==> NonEmpty(elems[i..]) != [] && Pieces(elems[i..]) == NonEmpty(elems[i..])
  {
  }

  lemma WalkOne(t: Tree, root: Entity, e: Entity, c: string, rest: Components)
    requires Forest(t, root) && e in t
    ensures c in t[e].children ==> t[e].children[c] in t
    ensures Walk(t, e, [c] + rest) ==
            if rest == [] && t[e].name == Some(c) then e
            else if t[e].kind.Dir? && c in t[e].children then Walk(t, t[e].children[c], rest)
            else null
  {
    assert ([c] + rest)[1..] == rest;
    assert NodeOk(t, root, e);
  }

  // ---------------------------------------------------------------- get_full_path's loops

  function Reversed<X>(s: seq<X>): (r: seq<X>)
    ensures |r| == |s|
  {
    if s == [] then [] else Reversed(s[1..]) + [s[0]]
  }

  lemma {:induction false} ReversedSnoc<X>(s: seq<X>, x: X)
    ensures Reversed(s + [x]) == [x] + Reversed(s)
  {
    if s == [] {
      assert s + [x] == [x];
    } else {
      assert (s + [x])[1..] == s[1..] + [x];
      ReversedSnoc(s[1..], x);
    }
  }

  ghost function PathAbove(t: Tree, cur: Entity?): Components
    requires cur != null ==> Founded(t, cur)
  {
    if cur == null then [] else PathOf(t, cur)
  }

  lemma OneNameUp(t: Tree, cur: Entity, elems: seq<string>)
    requires Founded(t, cur) && cur in t
    requires t[cur].parent != null ==> Founded(t, t[cur].parent)
    ensures PathOf(t, cur) + Reversed(elems) ==
            PathAbove(t, t[cur].parent) +
            Reversed(if t[cur].name.Some? then elems + [t[cur].name.value] else elems)
  {
    ParentDepth(t, cur);
    if t[cur].name.Some? {
      ReversedSnoc(elems, t[cur].name.value);
    }
  }

  lemma GlueOne(done: seq<string>, c: string)
    ensures StrlCat(StrlCat(Truncated(Slashed(Reversed(done))), "/"), c)
         == Truncated(Slashed(Reversed([c] + done)))
  {
    var p := Slashed(Reversed(done));
    StrlCatTwice(p, "/");
    StrlCatTwice(p + "/", c);
    assert ([c] + done)[1..] == done;
    SlashedSnoc(Reversed(done), c);
  }

  lemma FullPathAbsolute(t: Tree, root: Entity, e: Entity)
    requires Forest(t, root) && e in t && Founded(t, e)
    ensures Absolute(FullPathOf(t, e))
  {
    assert NodeOk(t, root, e);
    if t[e].name.Some? {
      PathNotEmpty(t, e);
      SlashedEnds(PathOf(t, e));
    }
  }

  lemma PathNotEmpty(t: Tree, e: Entity)
    requires Founded(t, e) && e in t && t[e].name.Some?
    ensures PathOf(t, e) != []
  {
    ParentDepth(t, e);
  }
}
