/** How a tree changes: a new entity, a child put into a directory, and growth as such. */
module Growth {
  import opened CStrings
  import opened Names
  import opened Paths
  import opened Entities

  /** A freshly created entity. */
  function NewNode(name: Option<string>, kind: Kind, ops: Ops, target: string, auxdata: string): Node {
    Node(name, kind, ops, null, map[], target, auxdata, null, "")
  }

  /** child put into directory parent under its own name. */
  ghost function Attach(t: Tree, parent: Entity, child: Entity): Tree
    requires parent in t && child in t && t[child].name.Some?
  {
    var t1 := t[child := t[child].(parent := parent)];
    t1[parent := t1[parent].(children := t1[parent].children[t[child].name.value := child])]
  }

  /** A link given its text and, for the record, the entity it leads to and the URI it was
      made for. */
  ghost function Aim(t: Tree, link: Entity, target: string, goal: Entity, about: string): Tree
    requires link in t
  {
    t[link := t[link].(target := target, goal := goal, about := about)]
  }

  ghost predicate Kept(a: Node, b: Node) {
    && a == b.(children := a.children)
    && forall k :: k in a.children ==> k in b.children && b.children[k] == a.children[k]
  }

  ghost predicate KeptIn(t0: Tree, t1: Tree, e: Entity) {
    e in t0 ==> e in t1 && Kept(t0[e], t1[e])
  }

  /** Nothing that was there has changed, except that directories may have more children. */
  ghost predicate Extends(t0: Tree, t1: Tree) {
    forall e {:trigger KeptIn(t0, t1, e)} :: e in t0 ==> KeptIn(t0, t1, e)
  }

  /** Growth in which only the named directories have new children. */
  ghost predicate Grown(t0: Tree, t1: Tree, touched: set<Entity>) {
    && Extends(t0, t1)
    && forall e {:trigger SameIn(t0, t1, e)} :: e in t0 && e !in touched ==> SameIn(t0, t1, e)
  }

  ghost predicate SameIn(t0: Tree, t1: Tree, e: Entity) {
    e in t0 ==> e in t1 && t1[e] == t0[e]
  }

  lemma GrownTransitive(t0: Tree, t1: Tree, t2: Tree, touched: set<Entity>)
    requires Grown(t0, t1, touched) && Grown(t1, t2, touched)
    ensures Grown(t0, t2, touched)
  {
    ExtendsTransitive(t0, t1, t2);
    forall e | e in t0 && e !in touched
      ensures SameIn(t0, t2, e)
    {
      assert SameIn(t0, t1, e) && SameIn(t1, t2, e);
    }
  }

  /** A new entity put into a directory. */
  ghost function PutIn(t: Tree, parent: Entity, e: Entity, n: Node): Tree
    requires parent in t && n.name.Some?
  {
    Attach(t[e := n], parent, e)
  }

  lemma ExtendsTransitive(t0: Tree, t1: Tree, t2: Tree)
    requires Extends(t0, t1) && Extends(t1, t2)
    ensures Extends(t0, t2)
  {
    forall e | e in t0
      ensures KeptIn(t0, t2, e)
    {
      assert KeptIn(t0, t1, e) && KeptIn(t1, t2, e);
    }
  }

  lemma {:induction false} ExtendsGrounded(t0: Tree, t1: Tree, e: Entity, n: nat)
    requires Extends(t0, t1) && Grounded(t0, e, n)
    ensures Grounded(t1, e, n)
    decreases n
  {
    assert KeptIn(t0, t1, e);
    if n == 0 {
    } else {
      ExtendsGrounded(t0, t1, t0[e].parent, n - 1);
    }
  }

  /** Growth moves nothing. */
  lemma {:induction false} ExtendsPath(t0: Tree, t1: Tree, root: Entity, e: Entity)
    requires Extends(t0, t1) && Founded(t0, e)
    ensures Founded(t1, e) && Depth(t1, e) == Depth(t0, e)
    ensures PathOf(t1, e) == PathOf(t0, e)
    ensures Attached(t1, root, e) <==> Attached(t0, root, e)
    decreases Depth(t0, e)
  {
    ExtendsGrounded(t0, t1, e, Depth(t0, e));
    GroundedUnique(t1, e, Depth(t0, e), Depth(t1, e));
    ParentDepth(t0, e);
    ParentDepth(t1, e);
    assert KeptIn(t0, t1, e);
    if t0[e].parent == null {
    } else {
      ExtendsPath(t0, t1, root, t0[e].parent);
    }
  }

  lemma {:induction false} ExtendsStepAll(t0: Tree, t1: Tree, cur: Entity?, cs: Components)
    requires Extends(t0, t1) && StepAll(t0, cur, cs) != null
    ensures StepAll(t1, cur, cs) == StepAll(t0, cur, cs)
    decreases cs
  {
    if cs == [] {
    } else {
      if cur != null {
        assert KeptIn(t0, t1, cur);
      }
      var next := Step(t0, cur, cs[0]);
      if next == null {
        StepNowhere(t0, cs[1..]);
      }
      ExtendsStepAll(t0, t1, next, cs[1..]);
    }
  }

  /** A link that leads somewhere leads to the same place after any growth. */
  lemma ExtendsResolve(t0: Tree, t1: Tree, root: Entity, dir: Entity, text: string)
    requires Extends(t0, t1) && Resolve(t0, root, dir, text) != null
    ensures Resolve(t1, root, dir, text) == Resolve(t0, root, dir, text)
  {
    ExtendsStepAll(t0, t1, if Absolute(text) then root else dir, Split(text));
  }

  /** A name that leads somewhere still does. */
  lemma {:induction false} ExtendsDescend(t0: Tree, t1: Tree, e: Entity, cs: Components)
    requires Extends(t0, t1) && Descend(t0, e, cs) != null
    ensures Descend(t1, e, cs) == Descend(t0, e, cs)
    decreases cs
  {
    if cs == [] {
    } else {
      assert KeptIn(t0, t1, e);
      ExtendsDescend(t0, t1, t0[e].children[cs[0]], cs[1..]);
    }
  }

  // ---------------------------------------------------------------- one step

  lemma AddedKeepsForest(t: Tree, root: Entity, e: Entity, n: Node)
    requires Forest(t, root) && e !in t
    requires n.parent == null && n.children == map[] && n.name.Some? && Clean(n.name.value)
    ensures Forest(t[e := n], root) && Extends(t, t[e := n])
  {
    var t1 := t[e := n];
    assert Extends(t, t1);
    forall x | x in t1
      ensures NodeOk(t1, root, x)
    {
      if x == e {
        assert Grounded(t1, e, 0);
      } else {
        assert NodeOk(t, root, x);
        ExtendsPath(t, t1, root, x);
      }
    }
  }

  /** What add_child needs of its two arguments to put the one into the other: a directory,
      a named top of another tree, and no child of that name yet. */
  ghost predicate CanAttach(t: Tree, root: Entity, parent: Entity, child: Entity) {
    && parent in t && t[parent].kind.Dir?
    && child in t && child != root && t[child].parent == null
    && t[child].name.Some? && t[child].name.value != ""
    && t[child].name.value !in t[parent].children
    && Founded(t, parent) && !Under(t, parent, child)
  }

  /** What add_child itself looks at. */
  ghost predicate Accepts(t: Tree, parent: Entity, child: Entity) {
    && parent in t && t[parent].kind.Dir? && child in t
    && t[child].name.Some? && t[child].name.value != "" && t[child].name.value !in t[parent].children
  }

  /** What it does not look at: the child is in no directory, and not above its new parent. */
  ghost predicate IsTopOfAnother(t: Tree, parent: Entity, child: Entity) {
    child in t && t[child].parent == null && Founded(t, parent) && !Under(t, parent, child)
  }

  lemma {:induction false} AttachGroundsOthers(t: Tree, root: Entity, p: Entity, c: Entity, x: Entity, n: nat)
    requires CanAttach(t, root, p, c) && Grounded(t, x, n) && Founded(t, x) && !Under(t, x, c)
    ensures Grounded(Attach(t, p, c), x, n)
    decreases n
  {
    ParentDepth(t, x);
    if n == 0 {
    } else {
      AttachGroundsOthers(t, root, p, c, t[x].parent, n - 1);
    }
  }

  lemma {:induction false} AttachFounds(t: Tree, root: Entity, p: Entity, c: Entity, x: Entity)
    requires CanAttach(t, root, p, c) && Founded(t, x)
    ensures Founded(Attach(t, p, c), x)
    decreases Depth(t, x)
  {
    var t1 := Attach(t, p, c);
    ParentDepth(t, x);
    if x == c {
      AttachGroundsOthers(t, root, p, c, p, Depth(t, p));
      assert Grounded(t1, x, Depth(t, p) + 1);
    } else if t[x].parent == null {
      assert Grounded(t1, x, 0);
    } else {
      AttachFounds(t, root, p, c, t[x].parent);
      assert Grounded(t1, x, Depth(t1, t[x].parent) + 1);
    }
  }

  /** Putting the top of one tree into a directory of another keeps a forest. */
  lemma AttachKeepsForest(t: Tree, root: Entity, p: Entity, c: Entity)
    requires Forest(t, root) && CanAttach(t, root, p, c)
    ensures Forest(Attach(t, p, c), root)
  {
    var t1 := Attach(t, p, c);
    ParentDepth(t, p);
    forall x | x in t1
      ensures NodeOk(t1, root, x)
    {
      assert NodeOk(t, root, x);
      AttachFounds(t, root, p, c, x);
      AttachNodeOk(t, root, p, c, x);
    }
  }

  lemma AttachNodeOk(t: Tree, root: Entity, p: Entity, c: Entity, x: Entity)
    requires CanAttach(t, root, p, c) && x in t && NodeOk(t, root, x) && p != c
    requires Founded(Attach(t, p, c), x)
    ensures NodeOk(Attach(t, p, c), root, x)
  {
  }

  /** Everything that was below the child would come to be deeper than the child. */
  lemma {:induction false} BelowIsDeeper(t: Tree, p: Entity, c: Entity, x: Entity)
    requires p in t && c in t && t[c].name.Some? && Founded(t, x) && Under(t, x, c)
    requires Founded(Attach(t, p, c), x) && Founded(Attach(t, p, c), c)
    ensures Depth(Attach(t, p, c), x) >= Depth(Attach(t, p, c), c)
    decreases Depth(t, x)
  {
    var t1 := Attach(t, p, c);
    ParentDepth(t, x);
    ParentDepth(t1, x);
    if x == c {
    } else {
      assert t1[x].parent == t[x].parent;
      BelowIsDeeper(t, p, c, t[x].parent);
    }
  }

  /** Attaching keeps a forest exactly if the child is the top of another tree. */
  lemma AttachKeepsForestIff(t: Tree, root: Entity, p: Entity, c: Entity)
    requires Forest(t, root) && Accepts(t, p, c) && c != root
    ensures Forest(Attach(t, p, c), root) <==> IsTopOfAnother(t, p, c)
  {
    var t1 := Attach(t, p, c);
    assert NodeOk(t, root, p) && NodeOk(t, root, c);
    if IsTopOfAnother(t, p, c) {
      AttachKeepsForest(t, root, p, c);
    } else if Forest(t1, root) {
      assert NodeOk(t1, root, c) && NodeOk(t1, root, p);
      if t[c].parent != null {
        TwoParents(t, root, p, c);
      } else {
        BelowIsDeeper(t, p, c, p);
        ParentDepth(t1, c);
      }
      assert false;
    }
  }

  /** A child that was in a directory would be in two. */
  lemma TwoParents(t: Tree, root: Entity, p: Entity, c: Entity)
    requires Forest(t, root) && Accepts(t, p, c) && t[c].parent != null
    ensures !Forest(Attach(t, p, c), root)
  {
    var t1, q := Attach(t, p, c), t[c].parent;
    assert NodeOk(t, root, c) && q != p;
    ParentDepth(t, c);
    assert q in t1 && t1[q].children == t[q].children && t1[c].parent == p;
    assert !NodeOk(t1, root, q);
  }

  /** Growth seen from a tree that did not have the child yet. */
  lemma AttachExtends(t0: Tree, t: Tree, root: Entity, p: Entity, c: Entity)
    requires Extends(t0, t) && c !in t0 && CanAttach(t, root, p, c)
    ensures Extends(t0, Attach(t, p, c))
  {
    ParentDepth(t, p);
    var t1 := Attach(t, p, c);
    forall e | e in t0
      ensures KeptIn(t0, t1, e)
    {
      assert KeptIn(t0, t, e);
    }
  }

  /** Growth only in the directory that gets the child. */
  lemma AttachGrows(t0: Tree, t: Tree, root: Entity, p: Entity, c: Entity)
    requires Grown(t0, t, {p}) && c !in t0 && CanAttach(t, root, p, c)
    ensures Grown(t0, Attach(t, p, c), {p})
  {
    AttachExtends(t0, t, root, p, c);
    forall e | e in t0 && e !in {p}
      ensures SameIn(t0, Attach(t, p, c), e)
    {
      assert SameIn(t0, t, e);
    }
  }

  lemma GrownMore(t0: Tree, t1: Tree, some: set<Entity>, more: set<Entity>)
    requires Grown(t0, t1, some) && some <= more
    ensures Grown(t0, t1, more)
  {
  }

  /** A new entity is below nothing and nothing is below it. */
  lemma {:induction false} NotUnderFresh(t0: Tree, t: Tree, x: Entity, c: Entity)
    requires Extends(t0, t) && Founded(t0, x) && Founded(t, x) && c !in t0
    ensures !Under(t, x, c)
    decreases Depth(t0, x)
  {
    ParentDepth(t0, x);
    ParentDepth(t, x);
    assert KeptIn(t0, t, x);
    if t0[x].parent == null {
    } else {
      NotUnderFresh(t0, t, t0[x].parent, c);
    }
  }

  lemma AimKeepsForest(t: Tree, root: Entity, l: Entity, target: string, goal: Entity, about: string)
    requires Forest(t, root) && l in t && t[l].kind.Link?
    ensures Forest(Aim(t, l, target, goal, about), root)
  {
    var t1 := Aim(t, l, target, goal, about);
    forall x | x in t1
      ensures NodeOk(t1, root, x)
    {
      assert NodeOk(t, root, x);
      AimGrounded(t, l, target, goal, about, x, Depth(t, x));
    }
  }

  lemma {:induction false} AimGrounded(t: Tree, l: Entity, target: string, goal: Entity, about: string, x: Entity,
                                       n: nat)
    requires l in t && Grounded(t, x, n)
    ensures Grounded(Aim(t, l, target, goal, about), x, n)
    decreases n
  {
    if n == 0 {
    } else {
      AimGrounded(t, l, target, goal, about, t[x].parent, n - 1);
    }
  }
}
