/** Symbolic links: at every place where the namespace makes one, the text that relpath
    prints leads from the link's directory to the entity the link is for. */
module Links {
  import opened CStrings
  import opened Paths
  import opened Entities
  import opened Growth
  import opened Places

  // ---------------------------------------------------------------- a link put in and aimed

  lemma {:induction false} AimKeepsStepAll(t: Tree, l: Entity, target: string, goal: Entity, about: string,
                                           cur: Entity?, cs: Components)
    requires l in t
    ensures StepAll(Aim(t, l, target, goal, about), cur, cs) == StepAll(t, cur, cs)
    decreases cs
  {
    if cs == [] {
    } else {
      AimKeepsStepAll(t, l, target, goal, about, Step(t, cur, cs[0]), cs[1..]);
    }
  }

  lemma {:induction false} AimKeepsPath(t: Tree, root: Entity, l: Entity, target: string, goal: Entity,
                                        about: string, x: Entity)
    requires l in t && Founded(t, x)
    ensures Founded(Aim(t, l, target, goal, about), x)
    ensures Attached(Aim(t, l, target, goal, about), root, x) <==> Attached(t, root, x)
    decreases Depth(t, x)
  {
    var t1 := Aim(t, l, target, goal, about);
    AimGrounded(t, l, target, goal, about, x, Depth(t, x));
    ParentDepth(t, x);
    ParentDepth(t1, x);
    if t[x].parent == null {
    } else {
      AimKeepsPath(t, root, l, target, goal, about, t[x].parent);
    }
  }

  lemma AimKeepsGoal(t: Tree, at: Places, l: Entity, target: string, goal: Entity, about: string, dir: Entity,
                     uri: string)
    requires l in t && dir in t
    ensures GoalFor(Aim(t, l, target, goal, about), at, dir, uri) == GoalFor(t, at, dir, uri)
  {
    var t1 := Aim(t, l, target, goal, about);
    assert forall x :: x in t1 <==> x in t;
    assert forall x :: x in t ==> t1[x].children == t[x].children && t1[x].ops == t[x].ops;
    assert DirOf(t1, at.tracks, uri) == DirOf(t, at.tracks, uri);
  }

  lemma AimKeepsOk(t: Tree, root: Entity, at: Places, l: Entity, target: string, goal: Entity, about: string, x: Entity)
    requires Forest(t, root) && l in t && t[l].kind.Link? && x in t
    requires PlaceOk(t, at, x)
    requires x != l ==> LinkOk(t, root, at, x)
    requires x == l && Founded(t, l) && Attached(t, root, l) ==>
               && t[l].parent != null && t[l].parent in t && GoalFor(t, at, t[l].parent, about) == goal
               && Resolve(t, root, t[l].parent, target) == goal
    ensures PlaceOk(Aim(t, l, target, goal, about), at, x)
    ensures LinkOk(Aim(t, l, target, goal, about), root, at, x)
  {
    var t1 := Aim(t, l, target, goal, about);
    assert NodeOk(t, root, x);
    AimKeepsPath(t, root, l, target, goal, about, x);
    var start := if Absolute(t1[x].target) then root else t1[x].parent;
    AimKeepsStepAll(t, l, target, goal, about, start, Split(t1[x].target));
    if t[x].parent != null {
      AimKeepsGoal(t, at, l, target, goal, about, t[x].parent, t1[x].about);
    }
    AimKeepsPlace(t, at, l, target, goal, about, x);
  }

  lemma AimKeepsPlace(t: Tree, at: Places, l: Entity, target: string, goal: Entity, about: string, x: Entity)
    requires l in t && x in t && PlaceOk(t, at, x)
    ensures PlaceOk(Aim(t, l, target, goal, about), at, x)
  {
    AimKeepsBrowse(t, at, l, target, goal, about, x);
    AimKeepsRoles(t, at, l, target, goal, about, x);
  }

  lemma AimKeepsBrowse(t: Tree, at: Places, l: Entity, target: string, goal: Entity, about: string, x: Entity)
    requires l in t && x in t && BrowseOk(t, at, t[x])
    ensures BrowseOk(Aim(t, l, target, goal, about), at, Aim(t, l, target, goal, about)[x])
  {
    var t1 := Aim(t, l, target, goal, about);
    assert forall y :: y in t1 ==>
      t1[y] == if y == l then t[l].(target := target, goal := goal, about := about) else t[y];
  }

  lemma AimKeepsRoles(t: Tree, at: Places, l: Entity, target: string, goal: Entity, about: string, x: Entity)
    requires l in t && x in t && RolesOk(t, at, x)
    ensures RolesOk(Aim(t, l, target, goal, about), at, x)
  {
    var t1 := Aim(t, l, target, goal, about);
    assert forall y :: y in t1 ==>
      t1[y] == if y == l then t[l].(target := target, goal := goal, about := about) else t[y];
  }

  lemma {:induction false} NothingUnderLink(t: Tree, root: Entity, l: Entity, x: Entity)
    requires Forest(t, root) && l in t && t[l].kind.Link? && Founded(t, x) && x in t
    ensures Under(t, x, l) ==> x == l
    decreases Depth(t, x)
  {
    ParentDepth(t, x);
    if t[x].parent == null {
    } else {
      ParentFacts(t, root, x);
      NothingUnderLink(t, root, l, t[x].parent);
    }
  }

  /** A link put into a directory and aimed with a text that leads to its goal keeps the
      invariant. */
  lemma AimedLinkKeepsInv(t: Tree, root: Entity, at: Places, d: Entity, l: Entity, text: string, g: Entity, uri: string)
    requires Inv(t, root, at) && CanAttach(t, root, d, l) && Fits(t, at, d, l) && t[l].kind.Link?
    requires GoalFor(t, at, d, uri) == g && (Attached(t, root, d) ==> Resolve(t, root, d, text) == g)
    ensures Inv(Aim(Attach(t, d, l), l, text, g, uri), root, at)
  {
    var t2 := Aim(Attach(t, d, l), l, text, g, uri);
    AttachKeepsForest(t, root, d, l);
    AimKeepsForest(Attach(t, d, l), root, l, text, g, uri);
    AimedLinkKeepsPlaces(t, root, at, d, l, text, g, uri);
    forall x | x in t2
      ensures PlaceOk(t2, at, x) && LinkOk(t2, root, at, x)
    {
      AimedLinkKeepsOk(t, root, at, d, l, text, g, uri, x);
    }
  }

  lemma AimedLinkKeepsPlaces(t: Tree, root: Entity, at: Places, d: Entity, l: Entity, text: string, g: Entity,
                             uri: string)
    requires PlacesOk(t, root, at) && CanAttach(t, root, d, l)
    ensures PlacesOk(Aim(Attach(t, d, l), l, text, g, uri), root, at)
  {
    PlacesStay(t, Aim(Attach(t, d, l), l, text, g, uri), root, at, l);
  }

  lemma AimedLinkKeepsOk(t: Tree, root: Entity, at: Places, d: Entity, l: Entity, text: string, g: Entity,
                         uri: string, x: Entity)
    requires Inv(t, root, at) && x in t
    requires CanAttach(t, root, d, l) && Fits(t, at, d, l) && t[l].kind.Link?
    requires GoalFor(t, at, d, uri) == g && (Attached(t, root, d) ==> Resolve(t, root, d, text) == g)
    ensures var t2 := Aim(Attach(t, d, l), l, text, g, uri);
      PlaceOk(t2, at, x) && LinkOk(t2, root, at, x)
  {
    var t1 := Attach(t, d, l);
    AttachKeepsForest(t, root, d, l);
    assert NodeOk(t, root, x) && PlaceOk(t, at, x) && LinkOk(t, root, at, x);
    AttachKeepsPlace(t, root, at, d, l, x);
    NothingUnderLink(t, root, l, x);
    if x != l {
      AttachKeepsLink(t, root, at, d, l, x);
    } else {
      NewLinkLeads(t, root, d, l, text, g);
      AttachKeepsGoal(t, root, at, d, l, d, uri);
    }
    AimKeepsOk(t1, root, at, l, text, g, uri, x);
  }

  lemma NewLinkLeads(t: Tree, root: Entity, d: Entity, l: Entity, text: string, g: Entity)
    requires Forest(t, root) && CanAttach(t, root, d, l)
    requires Attached(t, root, d) ==> Resolve(t, root, d, text) == g
    requires Forest(Attach(t, d, l), root)
    ensures var t1 := Attach(t, d, l);
      Founded(t1, l) && Attached(t1, root, l) ==> t1[l].parent == d && Resolve(t1, root, d, text) == g
  {
    var t1 := Attach(t, d, l);
    ParentDepth(t, d);
    assert NodeOk(t1, root, l);
    ParentDepth(t1, l);
    AttachKeepsAttached(t, root, d, l, d);
    if Attached(t1, root, l) {
      RootPath(t, root);
      AttachKeepsStepAll(t, root, d, l, if Absolute(text) then root else d, Split(text));
    }
  }

  // ---------------------------------------------------------------- the places of links

  /** Where links are made. */
  predicate MakesLinks(ops: Ops) {
    ops.MetaPlaylist? || ops.MusicPlaylist? || ops.SearchResults? || ops.TrackArtists? || ops.ArtistAlbums?
  }

  /** The directories that are outside /browse and directly below a named top. */
  predicate Outside(a: Components) {
    |a| >= 2 && a[0] != "browse" && AreComponents(a) && |Slashed(a[..|a| - 1])| + 1 < PATH_MAX - 1
  }

  predicate GoalPath(b: Components) {
    && Canonical(b) && |b| >= 3 && b[0] == "browse"
    && |Slashed(b)| < PATH_MAX
  }

  /** Cutting a path off inside its last component leaves a path with as many components. */
  lemma CutPath(a: Components) returns (a1: Components)
    requires Outside(a)
    ensures Truncated(Slashed(a)) == Print(a1)
    ensures |a1| == |a| && AreComponents(a1) && a1[..|a| - 1] == a[..|a| - 1]
  {
    var init, last := a[..|a| - 1], a[|a| - 1];
    SlashedSnoc(init, last);
    assert a == init + [last];
    assert last in a && forall c :: c in init ==> c in a;
    var head := Slashed(init) + "/";
    var kept := CutName(head, last);
    a1 := init + [kept];
    SlashedSnoc(init, kept);
  }

  /** Cutting off a string inside its last part. */
  lemma CutName(head: string, last: string) returns (kept: string)
    requires |head| < PATH_MAX - 1 && IsComponent(last)
    ensures Truncated(head + last) == head + kept && IsComponent(kept)
  {
    var room := PATH_MAX - 1 - |head|;
    kept := if |last| <= room then last else last[..room];
  }

  /** From outside /browse into it: all the way up and all the way down, whether or not the
      path of the directory was cut off. */
  lemma OutsideRoute(a: Components, a1: Components, b: Components)
    requires |a1| == |a| > 0 && a1[0] == a[0] && b != [] && a[0] != b[0]
    ensures Route(a1, b) == Route(a, b) == Ups(|a|) + b
    ensures !Related(a1, b)
  {
    assert Shared(a1, b) == 0 && Shared(a, b) == 0;
    assert b[0..] == b;
  }

  lemma OutsideText(a: Components, b: Components)
    requires Outside(a) && GoalPath(b)
    ensures RelativePathOf(Truncated(Slashed(a)), Slashed(b)) == Some(Join(Route(a, b)))
    ensures Route(a, b) != []
  {
    var a1 := CutPath(a);
    assert a1[..|a| - 1][0] == a[..|a| - 1][0];
    OutsideRoute(a, a1, b);
    RelativePathShape(a1, b);
  }

  /** Inside /browse, between different parts of it. */
  predicate Across(a: Components, b: Components) {
    |a| >= 2 && |b| >= 2 && a[0] == "browse" && AreComponents(a) && |Slashed(a)| < PATH_MAX && a[1] != b[1]
  }

  lemma AcrossText(a: Components, b: Components)
    requires Across(a, b) && GoalPath(b)
    ensures RelativePathOf(Truncated(Slashed(a)), Slashed(b)) == Some(Join(Route(a, b)))
    ensures Route(a, b) != []
  {
    RelativePathShape(a, b);
  }

  /** Wherever relpath is called, its text resolves. */
  lemma SiteResolves(t: Tree, root: Entity, d: Entity, g: Entity)
    requires Forest(t, root) && d in t && g in t && Founded(t, d) && Founded(t, g)
    requires Attached(t, root, d) && Attached(t, root, g) && t[d].kind.Dir? && d != root && g != root
    requires GoalPath(PathOf(t, g))
    requires Outside(PathOf(t, d)) || Across(PathOf(t, d), PathOf(t, g))
    ensures RelpathOf(t, d, g).Some? && Resolve(t, root, d, RelpathOf(t, d, g).value) == g
  {
    var a, b := PathOf(t, d), PathOf(t, g);
    if Outside(a) {
      OutsideText(a, b);
    } else {
      AcrossText(a, b);
    }
    assert NodeOk(t, root, d) && NodeOk(t, root, g);
    TextResolves(t, root, d, g, RelpathOf(t, d, g).value);
  }
}
