/** The entity tree as a value: what one moment of the linked structure of
    spfs_fuse_entity.c looks like, and what its paths mean. */
module Entities {
  import opened CStrings
  import opened Names
  import opened Paths

  datatype Kind = File | Dir | Link

  /** The callbacks an entity was created with. */
  datatype Ops =
    | NoOps
    | MetaRoot | MusicRoot | MetaPlaylist | MusicPlaylist
    | TrackArtists | ArtistAlbums | ArtistPortraits
    | SearchRoot | SearchResults
    | Attribute | Wav | XspfFile

  /** spfs_entity. The name, the kind and the callbacks never change after creation. */
  class Entity {
    const name: Option<string>
    const kind: Kind
    const ops: Ops
    var parent: Entity?
    var children: map<string, Entity>
    var target: string
    var auxdata: string
    /** For a link, the entity it was made to lead to, and the URI of what it was made for. */
    ghost var goal: Entity?
    ghost var about: string

    constructor (name: Option<string>, kind: Kind, ops: Ops, target: string, auxdata: string)
      ensures this.name == name && this.kind == kind && this.ops == ops
      ensures parent == null && children == map[] && goal == null && about == ""
      ensures this.target == target && this.auxdata == auxdata
    {
      this.name, this.kind, this.ops := name, kind, ops;
      parent, children, goal, about := null, map[], null, "";
      this.target, this.auxdata := target, auxdata;
    }
  }

  /** The fields of one entity. */
  datatype Node = Node(
    name: Option<string>, kind: Kind, ops: Ops, parent: Entity?, children: map<string, Entity>,
    target: string, auxdata: string, goal: Entity?, about: string)

  type Tree = map<Entity, Node>

  ghost function NodeOf(e: Entity): Node
    reads e
  {
    Node(e.name, e.kind, e.ops, e.parent, e.children, e.target, e.auxdata, e.goal, e.about)
  }

  // ---------------------------------------------------------------- depth

  /** e is n parents below the top of its tree. */
  ghost predicate Grounded(t: Tree, e: Entity, n: nat)
    decreases n
  {
    && e in t
    && var p := t[e].parent;
       if p == null then n == 0 else n > 0 && Grounded(t, p, n - 1)
  }

  ghost predicate Founded(t: Tree, e: Entity) {
    exists n: nat :: Grounded(t, e, n)
  }

  lemma {:induction false} GroundedUnique(t: Tree, e: Entity, n: nat, m: nat)
    requires Grounded(t, e, n) && Grounded(t, e, m)
    ensures n == m
    decreases n
  {
    if n == 0 {
    } else {
      GroundedUnique(t, t[e].parent, n - 1, m - 1);
    }
  }

  ghost function Depth(t: Tree, e: Entity): (n: nat)
    requires Founded(t, e)
    ensures Grounded(t, e, n)
  {
    var n: nat :| Grounded(t, e, n);
    n
  }

  lemma ParentDepth(t: Tree, e: Entity)
    requires Founded(t, e)
    ensures e in t
    ensures t[e].parent != null ==>
              Founded(t, t[e].parent) && Depth(t, e) == Depth(t, t[e].parent) + 1
    ensures t[e].parent == null ==> Depth(t, e) == 0
  {
    var n := Depth(t, e);
    if t[e].parent != null {
      assert Grounded(t, t[e].parent, n - 1);
      GroundedUnique(t, t[e].parent, n - 1, Depth(t, t[e].parent));
    }
  }

  // ---------------------------------------------------------------- well-formed trees

  ghost predicate NodeOk(t: Tree, root: Entity, e: Entity) {
    e in t ==>
    var n := t[e];
    && (if e == root then n.name.None? && n.kind.Dir? && n.parent == null
        else n.name.Some? && Clean(n.name.value))
    && (n.parent != null ==>
          && n.parent in t && n.name.Some? && n.name.value in t[n.parent].children
          && t[n.parent].children[n.name.value] == e)
    && (!n.kind.Dir? ==> n.children == map[])
    && (forall k :: k in n.children ==>
          && k != "" && n.children[k] in t
          && t[n.children[k]].parent == e && t[n.children[k]].name == Some(k))
    && Founded(t, e)
  }

  /** Parent pointers and child maps agree, keys are the children's names, names are clean,
      and every chain of parents ends. */
  ghost predicate Forest(t: Tree, root: Entity) {
    && root in t
    && forall e {:trigger NodeOk(t, root, e)} :: e in t ==> NodeOk(t, root, e)
  }

  /** The names from the top of e's tree down to e. */
  ghost function PathOf(t: Tree, e: Entity): (cs: Components)
    requires Founded(t, e)
    decreases Depth(t, e)
  {
    ParentDepth(t, e);
    var own := if t[e].name.None? then [] else [t[e].name.value];
    if t[e].parent == null then own else PathOf(t, t[e].parent) + own
  }

  /** e can be reached from the root. */
  ghost predicate Attached(t: Tree, root: Entity, e: Entity)
    requires Founded(t, e)
    decreases Depth(t, e)
  {
    ParentDepth(t, e);
    e == root || (t[e].parent != null && Attached(t, root, t[e].parent))
  }

  /** x is c or below it. */
  ghost predicate Under(t: Tree, x: Entity, c: Entity)
    requires Founded(t, x)
    decreases Depth(t, x)
  {
    ParentDepth(t, x);
    x == c || (t[x].parent != null && Under(t, t[x].parent, c))
  }

  /** A name followed through the child maps. */
  ghost function Descend(t: Tree, e: Entity, cs: Components): Entity?
    decreases cs
  {
    if cs == [] then e
    else if e in t && t[e].kind.Dir? && cs[0] in t[e].children then
      Descend(t, t[e].children[cs[0]], cs[1..])
    else null
  }

  lemma {:induction false} DescendConcat(t: Tree, e: Entity, cs: Components, ds: Components)
    ensures Descend(t, e, cs + ds)
         == if Descend(t, e, cs) == null then null else Descend(t, Descend(t, e, cs), ds)
    decreases cs
  {
    if cs == [] {
      assert cs + ds == ds;
    } else {
      assert (cs + ds)[1..] == cs[1..] + ds;
      if e in t && t[e].kind.Dir? && cs[0] in t[e].children {
        DescendConcat(t, t[e].children[cs[0]], cs[1..], ds);
      }
    }
  }

  lemma DescendOne(t: Tree, e: Entity, c: string)
    requires e in t && t[e].kind.Dir? && c in t[e].children
    ensures Descend(t, e, [c]) == t[e].children[c]
  {
    assert [c][1..] == [];
  }

  lemma RootPath(t: Tree, root: Entity)
    requires Forest(t, root)
    ensures Founded(t, root) && t[root].name.None? && t[root].kind.Dir? && t[root].parent == null
    ensures PathOf(t, root) == [] && Attached(t, root, root) && Depth(t, root) == 0
  {
    assert NodeOk(t, root, root);
    ParentDepth(t, root);
  }

  lemma ParentFacts(t: Tree, root: Entity, e: Entity)
    requires Forest(t, root) && e in t && t[e].parent != null
    ensures Founded(t, e) && e != root
    ensures var p := t[e].parent;
      && p in t && Founded(t, p) && t[p].kind.Dir? && Depth(t, e) == Depth(t, p) + 1
      && t[e].name.Some? && t[e].name.value in t[p].children && t[p].children[t[e].name.value] == e
      && IsComponent(t[e].name.value)
      && PathOf(t, e) == PathOf(t, p) + [t[e].name.value]
      && (Attached(t, root, e) <==> Attached(t, root, p))
  {
    assert NodeOk(t, root, e);
    ParentDepth(t, e);
    assert NodeOk(t, root, t[e].parent);
  }

  lemma ChildFacts(t: Tree, root: Entity, p: Entity, k: string)
    requires Forest(t, root) && p in t && k in t[p].children
    ensures var c := t[p].children[k];
      && c in t && t[c].parent == p && t[c].name == Some(k) && IsComponent(k) && Founded(t, c)
      && Founded(t, p) && PathOf(t, c) == PathOf(t, p) + [k]
      && (Attached(t, root, c) <==> Attached(t, root, p))
  {
    assert NodeOk(t, root, p);
    ParentFacts(t, root, t[p].children[k]);
  }

  /** In a well-formed tree the path of an attached entity leads to it from the root. */
  lemma {:induction false} DescendPath(t: Tree, root: Entity, e: Entity)
    requires Forest(t, root) && e in t && Founded(t, e) && Attached(t, root, e)
    ensures Descend(t, root, PathOf(t, e)) == e
    ensures AreComponents(PathOf(t, e))
    ensures |PathOf(t, e)| == Depth(t, e)
    decreases Depth(t, e)
  {
    if e == root {
      RootPath(t, root);
    } else {
      ParentFacts(t, root, e);
      var p := t[e].parent;
      DescendPath(t, root, p);
      DescendConcat(t, root, PathOf(t, p), [t[e].name.value]);
      DescendOne(t, p, t[e].name.value);
    }
  }

  /** Paths tell attached entities apart. */
  lemma PathsInjective(t: Tree, root: Entity, d: Entity, e: Entity)
    requires Forest(t, root) && d in t && e in t && Founded(t, d) && Founded(t, e)
    requires Attached(t, root, d) && Attached(t, root, e)
    ensures PathOf(t, d) == PathOf(t, e) <==> d == e
  {
    DescendPath(t, root, d);
    DescendPath(t, root, e);
  }

  // ---------------------------------------------------------------- links

  /** One component of a link text, read at a directory of the tree. */
  ghost function Step(t: Tree, cur: Entity?, c: string): Entity? {
    if cur == null || cur !in t || !t[cur].kind.Dir? then null
    else if c == "" || c == "." then cur
    else if c == ".." then (if t[cur].parent == null then cur else t[cur].parent)
    else if c in t[cur].children then t[cur].children[c]
    else null
  }

  ghost function StepAll(t: Tree, cur: Entity?, cs: Components): Entity?
    decreases cs
  {
    if cs == [] then cur else StepAll(t, Step(t, cur, cs[0]), cs[1..])
  }

  /** Where a link text leads from the directory that holds the link. */
  ghost function Resolve(t: Tree, root: Entity, dir: Entity, text: string): Entity? {
    StepAll(t, if Absolute(text) then root else dir, Split(text))
  }

  lemma {:induction false} StepAllConcat(t: Tree, cur: Entity?, cs: Components, ds: Components)
    ensures StepAll(t, cur, cs + ds) == StepAll(t, StepAll(t, cur, cs), ds)
    decreases cs
  {
    if cs == [] {
      assert cs + ds == ds;
    } else {
      assert (cs + ds)[1..] == cs[1..] + ds;
      StepAllConcat(t, Step(t, cur, cs[0]), cs[1..], ds);
    }
  }

  /** Going up n times reaches the directory named by all but the last n names. */
  lemma {:induction false} StepUps(t: Tree, root: Entity, d: Entity, n: nat)
    requires Forest(t, root) && d in t && Founded(t, d) && Attached(t, root, d) && t[d].kind.Dir?
    requires n <= |PathOf(t, d)|
    ensures StepAll(t, d, Ups(n)) == Descend(t, root, PathOf(t, d)[..|PathOf(t, d)| - n])
    decreases n
  {
    var path := PathOf(t, d);
    if n == 0 {
      DescendPath(t, root, d);
      assert path[..|path|] == path;
    } else {
      if d == root {
        RootPath(t, root);
      }
      ParentFacts(t, root, d);
      var p := t[d].parent;
      StepUps(t, root, p, n - 1);
      assert Ups(n)[0] == ".." && Ups(n)[1..] == Ups(n - 1);
      assert PathOf(t, p)[..|path| - n] == path[..|path| - n];
    }
  }

  lemma {:induction false} StepDown(t: Tree, cur: Entity, cs: Components)
    requires Canonical(cs) && Descend(t, cur, cs) != null
    ensures StepAll(t, cur, cs) == Descend(t, cur, cs)
    decreases cs
  {
    if cs == [] {
    } else {
      assert ProperName(cs[0]);
      assert forall c :: c in cs[1..] ==> c in cs;
      StepDown(t, t[cur].children[cs[0]], cs[1..]);
    }
  }

  /** The route between the paths of two attached entities leads from the one to the other. */
  lemma RouteResolves(t: Tree, root: Entity, d: Entity, g: Entity)
    requires Forest(t, root) && d in t && g in t && Founded(t, d) && Founded(t, g)
    requires Attached(t, root, d) && Attached(t, root, g) && t[d].kind.Dir?
    requires Canonical(PathOf(t, g))
    ensures StepAll(t, d, Route(PathOf(t, d), PathOf(t, g))) == g
  {
    var a, b := PathOf(t, d), PathOf(t, g);
    PathsInjective(t, root, d, g);
    if a == b {
      assert Route(a, b) == ["."];
      assert StepAll(t, d, ["."]) == StepAll(t, Step(t, d, "."), ["."][1..]);
    } else {
      ForkResolves(t, root, d, g, Shared(a, b));
    }
  }

  /** Up to where the two paths part, and down again. */
  lemma ForkResolves(t: Tree, root: Entity, d: Entity, g: Entity, n: nat)
    requires Forest(t, root) && d in t && g in t && Founded(t, d) && Founded(t, g)
    requires Attached(t, root, d) && Attached(t, root, g) && t[d].kind.Dir?
    requires Canonical(PathOf(t, g))
    requires n <= |PathOf(t, d)| && n <= |PathOf(t, g)| && PathOf(t, d)[..n] == PathOf(t, g)[..n]
    ensures StepAll(t, d, Ups(|PathOf(t, d)| - n) + PathOf(t, g)[n..]) == g
  {
    var a, b := PathOf(t, d), PathOf(t, g);
    StepAllConcat(t, d, Ups(|a| - n), b[n..]);
    StepUps(t, root, d, |a| - n);
    DescendPath(t, root, g);
    assert b[..n] + b[n..] == b;
    DescendConcat(t, root, b[..n], b[n..]);
    assert forall c :: c in b[n..] ==> c in b;
    StepDown(t, Descend(t, root, b[..n]), b[n..]);
  }

  /** The link text that the route prints resolves to the route's end. */
  lemma TextResolves(t: Tree, root: Entity, d: Entity, g: Entity, text: string)
    requires Forest(t, root) && d in t && g in t && Founded(t, d) && Founded(t, g)
    requires Attached(t, root, d) && Attached(t, root, g) && t[d].kind.Dir?
    requires Canonical(PathOf(t, g))
    requires Route(PathOf(t, d), PathOf(t, g)) != []
    requires text == Join(Route(PathOf(t, d), PathOf(t, g)))
    ensures Resolve(t, root, d, text) == g
  {
    var a, b := PathOf(t, d), PathOf(t, g);
    RouteIsComponents(a, b);
    JoinNotAbsolute(Route(a, b));
    SplitJoin(Route(a, b));
    RouteResolves(t, root, d, g);
  }

  // ---------------------------------------------------------------- full paths

  const PATH_MAX: nat := 4096

  /** What fits into a buffer of PATH_MAX bytes with its terminator. */
  function Truncated(s: string): string {
    if |s| < PATH_MAX then s else s[..PATH_MAX - 1]
  }

  /** g_strlcat into a buffer of PATH_MAX bytes. */
  function StrlCat(p: string, s: string): string {
    Truncated(p + s)
  }

  lemma StrlCatTwice(p: string, s: string)
    ensures StrlCat(Truncated(p), s) == Truncated(p + s)
  {
    if |p| >= PATH_MAX {
      assert (p[..PATH_MAX - 1] + s)[..PATH_MAX - 1] == (p + s)[..PATH_MAX - 1];
    }
  }

  /** spfs_entity_get_full_path */
  ghost function FullPathOf(t: Tree, e: Entity): string
    requires Founded(t, e)
  {
    ParentDepth(t, e);
    if t[e].name.None? then "/" else Truncated(Slashed(PathOf(t, e)))
  }

  ghost predicate PathFits(t: Tree, e: Entity)
    requires Founded(t, e)
  {
    |Print(PathOf(t, e))| < PATH_MAX
  }

  lemma FullPathPrints(t: Tree, root: Entity, e: Entity)
    requires Forest(t, root) && e in t && Founded(t, e) && Attached(t, root, e) && PathFits(t, e)
    ensures FullPathOf(t, e) == Print(PathOf(t, e))
  {
    if e == root {
      RootPath(t, root);
    } else {
      ParentFacts(t, root, e);
    }
  }

  /** relpath, between two attached entities whose paths fit: the link text leads from the
      directory to the entity exactly when neither is a proper ancestor of the other below
      the root. */
  ghost function RelpathOf(t: Tree, from: Entity, to: Entity): Option<string>
    requires Founded(t, from) && Founded(t, to)
  {
    RelativePathOf(FullPathOf(t, from), FullPathOf(t, to))
  }

  lemma RelpathResolves(t: Tree, root: Entity, d: Entity, g: Entity)
    requires Forest(t, root) && d in t && g in t && Founded(t, d) && Founded(t, g)
    requires Attached(t, root, d) && Attached(t, root, g) && t[d].kind.Dir?
    requires PathFits(t, d) && PathFits(t, g) && Canonical(PathOf(t, g))
    requires !Related(PathOf(t, d), PathOf(t, g))
    ensures RelpathOf(t, d, g).Some?
    ensures Resolve(t, root, d, RelpathOf(t, d, g).value) == g
  {
    FullPathPrints(t, root, d);
    FullPathPrints(t, root, g);
    DescendPath(t, root, d);
    DescendPath(t, root, g);
    RelativePathShape(PathOf(t, d), PathOf(t, g));
    TextResolves(t, root, d, g, RelpathOf(t, d, g).value);
  }

  /** A step in the tree is a step on paths. */
  lemma StepFollows(t: Tree, root: Entity, cur: Entity, c: string)
    requires Forest(t, root) && cur in t && Founded(t, cur) && Attached(t, root, cur)
    ensures var s := Step(t, cur, c);
      s != null ==> s in t && Founded(t, s) && Attached(t, root, s) && PathOf(t, s) == Follow(PathOf(t, cur), c)
  {
    RootPath(t, root);
    if cur != root {
      ParentFacts(t, root, cur);
    }
    if c in t[cur].children {
      ChildFacts(t, root, cur, c);
    }
  }

  lemma {:induction false} StepAllFollows(t: Tree, root: Entity, cur: Entity, cs: Components)
    requires Forest(t, root) && cur in t && Founded(t, cur) && Attached(t, root, cur)
    requires StepAll(t, cur, cs) != null
    ensures var s := StepAll(t, cur, cs);
      s in t && Founded(t, s) && Attached(t, root, s) && PathOf(t, s) == FollowAll(PathOf(t, cur), cs)
    decreases cs
  {
    if cs == [] {
    } else {
      StepFollows(t, root, cur, cs[0]);
      var next := Step(t, cur, cs[0]);
      if next == null {
        StepNowhere(t, cs[1..]);
      }
      StepAllFollows(t, root, next, cs[1..]);
    }
  }

  lemma {:induction false} StepNowhere(t: Tree, cs: Components)
    ensures StepAll(t, null, cs) == null
  {
    if cs == [] {
    } else {
      StepNowhere(t, cs[1..]);
    }
  }

  /** A link text that resolves in the tree is, read as a path, the path of where it leads. */
  lemma ResolveIsReadLink(t: Tree, root: Entity, dir: Entity, text: string)
    requires Forest(t, root) && dir in t && Founded(t, dir) && Attached(t, root, dir)
    requires Resolve(t, root, dir, text) != null
    ensures var g := Resolve(t, root, dir, text);
      g in t && Founded(t, g) && Attached(t, root, g) && PathOf(t, g) == ReadLink(PathOf(t, dir), text)
  {
    RootPath(t, root);
    StepAllFollows(t, root, if Absolute(text) then root else dir, Split(text));
  }

  // ---------------------------------------------------------------- looking a path up

  function NonEmpty(cs: Components): (r: Components)
    ensures forall c :: c in r ==> c != ""
  {
    if cs == [] then [] else (if cs[0] == "" then [] else [cs[0]]) + NonEmpty(cs[1..])
  }

  /** The pieces a lookup goes through: the non-empty ones, or one empty one. */
  function Pieces(cs: Components): Components {
    if NonEmpty(cs) == [] then [""] else NonEmpty(cs)
  }

  /** The plain walk, except that a last piece that is the current entity's own name stays. */
  ghost function Walk(t: Tree, e: Entity, cs: Components): Entity?
    decreases cs
  {
    if cs == [] then e
    else if e !in t then null
    else if |cs| == 1 && t[e].name == Some(cs[0]) then e
    else if t[e].kind.Dir? && cs[0] in t[e].children then Walk(t, t[e].children[cs[0]], cs[1..])
    else null
  }

  /** spfs_entity_find_path */
  ghost function FindOf(t: Tree, e: Entity, path: string): Entity? {
    if path == "" then null
    else if path == "/" then e
    else Walk(t, e, Pieces(Split(path)))
  }

  /** A walk is a descent unless it ends at an entity named like its parent; and where the descent
      to the parent finds nothing, neither does the walk. */
  lemma {:induction false} WalkIsDescend(t: Tree, e: Entity, cs: Components, c: string)
    ensures var d := Descend(t, e, cs);
      Walk(t, e, cs + [c])
      == if d == null || d !in t then null else if t[d].name == Some(c) then d else Descend(t, d, [c])
    decreases cs
  {
    if cs == [] {
      assert cs + [c] == [c];
      assert [c][1..] == [];
    } else {
      assert (cs + [c])[1..] == cs[1..] + [c];
      if e in t && t[e].kind.Dir? && cs[0] in t[e].children {
        WalkIsDescend(t, t[e].children[cs[0]], cs[1..], c);
      }
    }
  }

  lemma {:induction false} NonEmptyComponents(cs: Components)
    requires AreComponents(cs)
    ensures NonEmpty(cs) == cs
  {
    if cs == [] {
    } else {
      assert cs[0] in cs;
      NonEmptyComponents(cs[1..]);
    }
  }

  lemma PiecesOfPrint(cs: Components)
    requires AreComponents(cs) && cs != []
    ensures Pieces(Split(Slashed(cs))) == cs
  {
    SplitJoin(cs);
    assert Slashed(cs)[1..] == Join(cs);
    assert ([""] + cs)[1..] == cs;
    NonEmptyComponents(cs);
  }

  /** What a lookup finds for a path, whether or not something is there: nothing if there is no
      directory that could hold it, or if that does not. */
  lemma FindExactly(t: Tree, root: Entity, cs: Components, c: string)
    requires AreComponents(cs + [c])
    ensures var d := Descend(t, root, cs);
      FindOf(t, root, Print(cs + [c]))
      == if d == null || d !in t then null
         else if t[d].name == Some(c) then d
         else if t[d].kind.Dir? && c in t[d].children then t[d].children[c]
         else null
  {
    PiecesOfPrint(cs + [c]);
    CountJoin(cs + [c]);
    WalkIsDescend(t, root, cs, c);
    assert [c][1..] == [];
  }

  /** Looking up the path of an attached entity, whatever its length, gives the entity back,
      unless its parent has the same name: then it gives the parent. */
  lemma FindPrinted(t: Tree, root: Entity, e: Entity)
    requires Forest(t, root) && e in t && Founded(t, e) && Attached(t, root, e)
    ensures FindOf(t, root, Print(PathOf(t, e))) == Found(t, e)
  {
    if e == root {
      RootPath(t, root);
    } else {
      ParentFacts(t, root, e);
      var p, c := t[e].parent, t[e].name.value;
      DescendPath(t, root, e);
      DescendPath(t, root, p);
      PiecesOfPrint(PathOf(t, e));
      WalkIsDescend(t, root, PathOf(t, p), c);
      DescendOne(t, p, c);
      CountJoin(PathOf(t, e));
    }
  }

  /** What a lookup finds for an entity: the entity, or its parent if that has the same name. */
  ghost function Found(t: Tree, e: Entity): Entity
    requires e in t
  {
    var p := t[e].parent;
    if p != null && p in t && t[p].name == t[e].name then p else e
  }

  /** Looking up the full path of an attached entity gives the entity back, unless its
      parent has the same name: then it gives the parent. */
  lemma FindFullPath(t: Tree, root: Entity, e: Entity)
    requires Forest(t, root) && e in t && Founded(t, e) && Attached(t, root, e) && PathFits(t, e)
    ensures FindOf(t, root, FullPathOf(t, e)) == Found(t, e)
  {
    FullPathPrints(t, root, e);
    FindPrinted(t, root, e);
  }

  /** A path of slashes only, two or more, finds nothing from the root. */
  lemma FindOnlySlashes(t: Tree, root: Entity, path: string)
    requires Forest(t, root) && |path| >= 2 && forall c :: c in path ==> c == '/'
    ensures FindOf(t, root, path) == null
  {
    SplitSlashes(path);
    assert NodeOk(t, root, root);
  }

  lemma {:induction false} SplitSlashes(path: string)
    requires forall c :: c in path ==> c == '/'
    ensures NonEmpty(Split(path)) == []
  {
    if path == "" {
    } else {
      assert path[0] in path && forall c :: c in path[1..] ==> c in path;
      SplitSlashes(path[1..]);
      assert ([""] + Split(path[1..]))[1..] == Split(path[1..]);
    }
  }
}
