/** Making one link: the statements that every link maker of the namespace ends with. */
module LinkMaking {
  import opened CStrings
  import opened Names
  import opened Entities
  import opened Growth
  import opened EntityTrees
  import opened Places
  import opened Links
  import opened Sites
  import opened InitialTrees

  /** dir shows the name as a link to goal that was made for the URI. */
  ghost predicate Shows(t: Tree, dir: Entity, k: string, goal: Entity, uri: string) {
    && dir in t && k in t[dir].children && t[dir].children[k] in t
    && var l := t[t[dir].children[k]]; l.kind.Link? && l.goal == goal && l.about == uri
  }

  /** What a link maker has done: nothing if the name was taken, a stray entity if the name is
      empty, and otherwise one link under the name. */
  ghost predicate Linked(t0: Tree, t1: Tree, dir: Entity, k: string, goal: Entity, uri: string) {
    && dir in t0 && dir in t1
    && if k in t0[dir].children then t1 == t0
       else if k == "" then Grown(t0, t1, {})
       else
         && Grown(t0, t1, {dir}) && Shows(t1, dir, k, goal, uri)
         && t1[dir].children == t0[dir].children[k := t1[dir].children[k]]
  }

  /** A new link, not yet put anywhere. */
  ghost predicate NewLink(t: Tree, root: Entity, l: Entity) {
    && l in t && l != root && t[l].kind.Link? && t[l].ops.NoOps? && t[l].parent == null && t[l].name.Some?
  }

  /** The text is computed when the link is already in its directory; that is the same text. */
  lemma SameText(t: Tree, root: Entity, dir: Entity, l: Entity, g: Entity)
    requires Forest(t, root) && NewLink(t, root, l) && CanAttach(t, root, dir, l)
    requires g in t && g != l && Founded(t, g)
    ensures Founded(Attach(t, dir, l), dir) && Founded(Attach(t, dir, l), g)
    ensures RelpathOf(Attach(t, dir, l), dir, g) == RelpathOf(t, dir, g)
  {
    NothingUnderLink(t, root, l, dir);
    NothingUnderLink(t, root, l, g);
    AttachKeepsAttached(t, root, dir, l, dir);
    AttachKeepsAttached(t, root, dir, l, g);
    assert Attach(t, dir, l)[g].name == t[g].name;
  }

  /** The tree after add_child, relpath and set_target, if the name was free. */
  lemma LinkJoins(t: Tree, root: Entity, at: Places, dir: Entity, l: Entity, g: Entity, text: string, uri: string)
    requires Inv(t, root, at) && NewLink(t, root, l) && CanAttach(t, root, dir, l)
    requires GoalFor(t, at, dir, uri) == g && Founded(t, g)
    requires RelpathOf(t, dir, g) == Some(text)
    ensures Inv(Aim(Attach(t, dir, l), l, text, g, uri), root, at)
  {
    AllLocated(t, root, at);
    GoalForIsGoal(t, root, at, dir, g, uri);
    assert NodeOk(t, root, l);
    if Attached(t, root, dir) {
      TextLeads(t, root, at, dir, g);
    }
    AimedLinkKeepsInv(t, root, at, dir, l, text, g, uri);
  }

  /** And if it is empty: the link stays outside the tree. */
  lemma StrayLink(t: Tree, root: Entity, at: Places, l: Entity, text: string, g: Entity, uri: string)
    requires Inv(t, root, at) && NewLink(t, root, l)
    ensures Inv(Aim(t, l, text, g, uri), root, at)
  {
    var t1 := Aim(t, l, text, g, uri);
    AimKeepsForest(t, root, l, text, g, uri);
    PlacesStay(t, t1, root, at, l);
    forall x | x in t1
      ensures PlaceOk(t1, at, x) && LinkOk(t1, root, at, x)
    {
      assert NodeOk(t, root, x) && PlaceOk(t, at, x) && LinkOk(t, root, at, x);
      ParentDepth(t, x);
      AimKeepsOk(t, root, at, l, text, g, uri, x);
    }
  }

  lemma GoalFacts(t: Tree, root: Entity, at: Places, dir: Entity, l: Entity, g: Entity)
    requires Inv(t, root, at) && dir in t && IsGoal(t, at, dir, g) && NewLink(t, root, l)
    ensures g != l && Founded(t, g) && Founded(t, dir) && !Under(t, dir, l)
    ensures MakesLinks(t[dir].ops) ==> t[dir].kind.Dir?
  {
    assert NodeOk(t, root, g) && NodeOk(t, root, dir) && PlaceOk(t, at, dir);
    NothingUnderLink(t, root, l, dir);
  }

  ghost function LinkedTree(t: Tree, dir: Entity, l: Entity, text: string, g: Entity, uri: string): Tree
    requires dir in t && l in t && t[l].name.Some?
  {
    if t[l].name.value == "" then Aim(t, l, text, g, uri) else Aim(Attach(t, dir, l), l, text, g, uri)
  }

  lemma LinkedKeys(t: Tree, dir: Entity, l: Entity, text: string, g: Entity, uri: string)
    requires dir in t && l in t && t[l].name.Some?
    ensures LinkedTree(t, dir, l, text, g, uri).Keys == t.Keys
  {
    var t1 := LinkedTree(t, dir, l, text, g, uri);
    assert forall x :: x in t1 <==> x in t;
  }

  /** The tree between add_child and set_target. */
  ghost function JoinedTree(t: Tree, dir: Entity, l: Entity): Tree
    requires dir in t && l in t && t[l].name.Some?
  {
    if t[l].name.value == "" then t else Attach(t, dir, l)
  }

  /** A link that is about to join a directory. */
  ghost predicate ReadyToLink(t: Tree, root: Entity, at: Places, dir: Entity, l: Entity, g: Entity, uri: string) {
    && Inv(t, root, at) && dir in t && NewLink(t, root, l)
    && GoalFor(t, at, dir, uri) == g && t[l].name.value !in t[dir].children
  }

  lemma JoinedFacts(t: Tree, root: Entity, at: Places, dir: Entity, l: Entity, g: Entity, uri: string)
    requires ReadyToLink(t, root, at, dir, l, g, uri)
    ensures Founded(t, dir) && !Under(t, dir, l)
    ensures JoinedTree(t, dir, l) == if CanAttach(t, root, dir, l) then Attach(t, dir, l) else t
    ensures var t1 := JoinedTree(t, dir, l);
      Founded(t1, dir) && Founded(t1, g) && g in t1 && dir in t1
  {
    GoalForIsGoal(t, root, at, dir, g, uri);
    GoalFacts(t, root, at, dir, l, g);
    if t[l].name.value != "" {
      SameText(t, root, dir, l, g);
    }
  }

  lemma LinkedTreeOk(t: Tree, root: Entity, at: Places, dir: Entity, l: Entity, g: Entity, text: string, uri: string)
    requires ReadyToLink(t, root, at, dir, l, g, uri)
    requires var t1 := JoinedTree(t, dir, l);
      Founded(t1, dir) && Founded(t1, g) && RelpathOf(t1, dir, g) == Some(text)
    ensures Inv(LinkedTree(t, dir, l, text, g, uri), root, at)
  {
    GoalForIsGoal(t, root, at, dir, g, uri);
    GoalFacts(t, root, at, dir, l, g);
    if t[l].name.value != "" {
      SameText(t, root, dir, l, g);
      LinkJoins(t, root, at, dir, l, g, text, uri);
    } else {
      StrayLink(t, root, at, l, text, g, uri);
    }
  }

  /** add_child, relpath, set_target. */
  method LinkTo(tr: EntityTree, ghost at: Places, dir: Entity, link: Entity, goal: Entity, ghost uri: string)
    returns (text: string)
    requires tr.Mirrored() && ReadyToLink(tr.t, tr.root, at, dir, link, goal, uri)
    modifies tr, dir`children, link
    ensures Good(tr, at)
    ensures tr.t == LinkedTree(old(tr.t), dir, link, text, goal, uri)
  {
    ghost var t0 := tr.t;
    JoinedFacts(t0, tr.root, at, dir, link, goal, uri);
    tr.AddChild(dir, link);
    text := tr.Relpath(dir, goal);
    LinkedTreeOk(t0, tr.root, at, dir, link, goal, text, uri);
    tr.SetTarget(link, text, goal, uri);
  }

  /** Seen from a tree without the link. */
  lemma LinkedFrom(t0: Tree, t: Tree, root: Entity, dir: Entity, l: Entity, text: string, g: Entity, uri: string)
    requires Grown(t0, t, {}) && l !in t0 && dir in t0 && dir in t && NewLink(t, root, l)
    requires t[l].name.value !in t[dir].children
    ensures Linked(t0, LinkedTree(t, dir, l, text, g, uri), dir, t[l].name.value, g, uri)
  {
    var t1 := LinkedTree(t, dir, l, text, g, uri);
    assert SameIn(t0, t, dir);
    forall x | x in t0
      ensures KeptIn(t0, t1, x) && (x != dir || t[l].name.value == "" ==> SameIn(t0, t1, x))
    {
      assert SameIn(t0, t, x);
    }
  }

  /** A link under a name that is not taken, for a goal that is already there: the one for the
      given URI. */
  method EnsureLink(tr: EntityTree, ghost at: Places, dir: Entity, name: string, goal: Entity, ghost uri: string)
    requires Good(tr, at) && dir in tr.t && GoalFor(tr.t, at, dir, uri) == goal
    modifies tr, dir`children
    ensures Good(tr, at) && fresh(tr.t.Keys - old(tr.t.Keys))
    ensures Linked(old(tr.t), tr.t, dir, SanitizeName(name), goal, uri)
  {
    ghost var t0 := tr.t;
    assert tr.Mirrors(dir);
    var taken := tr.HasChild(dir, name);
    if !taken {
      var link := tr.Create(name, Link, NoOps, "");
      NewLinkCreated(t0, tr.root, at, dir, link, name, goal, uri);
      ghost var t1 := tr.t;
      var text := LinkTo(tr, at, dir, link, goal, uri);
      LinkedFrom(t0, t1, tr.root, dir, link, text, goal, uri);
    }
  }

  lemma NewLinkCreated(t: Tree, root: Entity, at: Places, dir: Entity, l: Entity, name: string, g: Entity, uri: string)
    requires Inv(t, root, at) && l !in t && dir in t && GoalFor(t, at, dir, uri) == g
    ensures var t1 := t[l := NewNode(Some(SanitizeName(name)), Link, NoOps, SanitizeName(name), "")];
      Inv(t1, root, at) && NewLink(t1, root, l) && GoalFor(t1, at, dir, uri) == g && Grown(t, t1, {})
  {
    var n := NewNode(Some(SanitizeName(name)), Link, NoOps, SanitizeName(name), "");
    SanitizeNameSpec(name);
    RootPath(t, root);
    AddedKeepsInv(t, root, at, l, n);
    AddedKeepsForest(t, root, l, n);
    GoalForGrows(t, t[l := n], at, dir, uri);
  }
}
