/** spfs_entity_destroy: what is freed, and how often. */
module Destroying {
  import opened Entities
  import opened EntityTrees

  /** e and everything below it. */
  ghost function Subtree(t: Tree, e: Entity): set<Entity> {
    set x | x in t && Founded(t, x) && Under(t, x, e)
  }

  lemma {:induction false} UnderIsDeeper(t: Tree, root: Entity, x: Entity, c: Entity)
    requires Forest(t, root) && x in t && c in t && Founded(t, x) && Founded(t, c) && Under(t, x, c)
    ensures Depth(t, x) >= Depth(t, c)
    ensures Depth(t, x) == Depth(t, c) ==> x == c
    decreases Depth(t, x)
  {
    ParentDepth(t, x);
    if x == c {
    } else {
      ParentFacts(t, root, x);
      UnderIsDeeper(t, root, t[x].parent, c);
    }
  }

  /** Below at most one of two entities on the same level. */
  lemma {:induction false} UnderOne(t: Tree, root: Entity, x: Entity, c: Entity, d: Entity)
    requires Forest(t, root) && x in t && c in t && d in t
    requires Founded(t, x) && Founded(t, c) && Founded(t, d) && Depth(t, c) == Depth(t, d)
    requires Under(t, x, c) && Under(t, x, d)
    ensures c == d
    decreases Depth(t, x)
  {
    ParentDepth(t, x);
    UnderIsDeeper(t, root, x, c);
    UnderIsDeeper(t, root, x, d);
    if x == c || x == d {
    } else {
      ParentFacts(t, root, x);
      UnderOne(t, root, t[x].parent, c, d);
    }
  }

  /** Anything below e other than e is below one of its children. */
  lemma {:induction false} ChildTowards(t: Tree, root: Entity, e: Entity, x: Entity) returns (k: string)
    requires Forest(t, root) && e in t && x in t && Founded(t, x) && Under(t, x, e) && x != e
    ensures k in t[e].children && Under(t, x, t[e].children[k])
    decreases Depth(t, x)
  {
    ParentFacts(t, root, x);
    if t[x].parent == e {
      k := t[x].name.value;
    } else {
      k := ChildTowards(t, root, e, t[x].parent);
    }
  }

  lemma {:induction false} UnderTrans(t: Tree, root: Entity, x: Entity, c: Entity, e: Entity)
    requires Forest(t, root) && x in t && c in t && Founded(t, x) && Founded(t, c)
    requires Under(t, x, c) && Under(t, c, e)
    ensures Under(t, x, e)
    decreases Depth(t, x)
  {
    ParentDepth(t, x);
    if x == c {
    } else {
      ParentFacts(t, root, x);
      UnderTrans(t, root, t[x].parent, c, e);
    }
  }

  lemma ChildBelow(t: Tree, root: Entity, e: Entity, k: string)
    requires Forest(t, root) && e in t && k in t[e].children
    ensures var c := t[e].children[k];
      && c in t && Founded(t, c) && Founded(t, e) && Under(t, c, e) && Depth(t, c) == Depth(t, e) + 1
      && Subtree(t, c) < Subtree(t, e) && e !in Subtree(t, c)
  {
    var c := t[e].children[k];
    ChildFacts(t, root, e, k);
    ParentFacts(t, root, c);
    assert Under(t, e, e);
    forall x | x in Subtree(t, c)
      ensures x in Subtree(t, e)
    {
      UnderTrans(t, root, x, c, e);
    }
    if Under(t, e, c) {
      UnderIsDeeper(t, root, e, c);
    }
    assert e in Subtree(t, e);
  }

  /** The subtrees of the children with these names. */
  ghost function Below(t: Tree, e: Entity, names: set<string>): set<Entity>
    requires e in t
  {
    set x, k | k in names && k in t[e].children && x in Subtree(t, t[e].children[k]) :: x
  }

  lemma BelowAll(t: Tree, root: Entity, e: Entity)
    requires Forest(t, root) && e in t
    ensures Subtree(t, e) == Below(t, e, t[e].children.Keys) + {e}
    ensures e !in Below(t, e, t[e].children.Keys)
  {
    assert NodeOk(t, root, e);
    forall x | x in Subtree(t, e) && x != e
      ensures x in Below(t, e, t[e].children.Keys)
    {
      var k := ChildTowards(t, root, e, x);
      assert x in Subtree(t, t[e].children[k]);
    }
    forall k | k in t[e].children
      ensures Subtree(t, t[e].children[k]) < Subtree(t, e) && e !in Subtree(t, t[e].children[k])
    {
      ChildBelow(t, root, e, k);
    }
    assert Under(t, e, e);
  }

  lemma ChildrenApart(t: Tree, root: Entity, e: Entity, done: set<string>, k: string)
    requires Forest(t, root) && e in t && k in t[e].children && k !in done
    ensures Below(t, e, done) !! Subtree(t, t[e].children[k])
    ensures Below(t, e, done + {k}) == Below(t, e, done) + Subtree(t, t[e].children[k])
  {
    forall x | x in Below(t, e, done) && x in Subtree(t, t[e].children[k])
      ensures false
    {
      var j :| j in done && j in t[e].children && x in Subtree(t, t[e].children[j]);
      ChildBelow(t, root, e, k);
      ChildBelow(t, root, e, j);
      ChildFacts(t, root, e, k);
      ChildFacts(t, root, e, j);
      UnderOne(t, root, x, t[e].children[k], t[e].children[j]);
    }
  }

  ghost predicate NoDuplicates(s: seq<Entity>) {
    forall i, j :: 0 <= i < j < |s| ==> s[i] != s[j]
  }

  ghost function Elements(s: seq<Entity>): set<Entity> {
    set x | x in s
  }

  /** spfs_entity_destroy, as the order in which entities are freed. It ends, frees every entity
      of the subtree exactly once, and nothing else. */
  method Destroy(tr: EntityTree, e: Entity) returns (freed: seq<Entity>)
    requires tr.Valid() && e in tr.t
    ensures Elements(freed) == Subtree(tr.t, e)
    ensures NoDuplicates(freed)
    ensures freed != [] && freed[|freed| - 1] == e
    decreases Subtree(tr.t, e)
  {
    freed := [];
    assert tr.Mirrors(e);
    ghost var done: set<string> := {};
    var names := e.children.Keys;
    while names != {}
      invariant done + names == tr.t[e].children.Keys && done !! names
      invariant Elements(freed) == Below(tr.t, e, done)
      invariant NoDuplicates(freed)
      decreases names
    {
      var k :| k in names;
      ChildBelow(tr.t, tr.root, e, k);
      var below := Destroy(tr, e.children[k]);
      ChildrenApart(tr.t, tr.root, e, done, k);
      JoinDistinct(freed, below);
      freed := freed + below;
      names := names - {k};
      done := done + {k};
    }
    BelowAll(tr.t, tr.root, e);
    assert done == tr.t[e].children.Keys;
    assert Elements([e]) == {e} && NoDuplicates([e]);
    JoinDistinct(freed, [e]);
    freed := freed + [e];
  }

  lemma JoinDistinct(a: seq<Entity>, b: seq<Entity>)
    requires NoDuplicates(a) && NoDuplicates(b) && Elements(a) !! Elements(b)
    ensures NoDuplicates(a + b) && Elements(a + b) == Elements(a) + Elements(b)
  {
    forall i, j | 0 <= i < j < |a + b|
      ensures (a + b)[i] != (a + b)[j]
    {
      if i < |a| <= j {
        assert a[i] in Elements(a) && b[j - |a|] in Elements(b);
      }
    }
  }
}
