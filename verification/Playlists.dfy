/** Entities that are no links: the directories of playlists and searches, the playlist file, and
    the portraits of an artist. */
module Playlists {
  import opened CStrings
  import opened Names
  import opened Numbers
  import opened Entities
  import opened Growth
  import opened EntityTrees
  import opened Places
  import opened InitialTrees

  // ---------------------------------------------------------------- plain entities

  /** Which entities without links are made where. */
  ghost predicate MayHold(t: Tree, at: Places, parent: Entity, kind: Kind, ops: Ops) {
    && parent in t && t[parent].kind.Dir?
    && match ops
       case MetaPlaylist => kind.Dir? && parent == at.meta
       case MusicPlaylist => kind.Dir? && parent == at.music
       case SearchResults => kind.Dir? && parent == at.search
       case XspfFile => kind.File? && t[parent].ops.MusicPlaylist?
       case Attribute => kind.File? && t[parent].ops.ArtistPortraits?
       case _ => false
  }

  /** What creating an entity under a name that may be taken or empty does. */
  ghost predicate Ensured(t0: Tree, t1: Tree, parent: Entity, k: string, kind: Kind, ops: Ops) {
    && parent in t0 && parent in t1
    && if k in t0[parent].children then t1 == t0
       else if k == "" then Grown(t0, t1, {})
       else
         && Grown(t0, t1, {parent}) && k in t1[parent].children && t1[parent].children[k] !in t0
         && t1[parent].children == t0[parent].children[k := t1[parent].children[k]]
         && t1[parent].children[k] in t1
         && t1[t1[parent].children[k]] == NewNode(Some(k), kind, ops, "", "").(parent := parent)
  }

  lemma PlainCreated(t: Tree, root: Entity, at: Places, parent: Entity, e: Entity, k: string, kind: Kind, ops: Ops)
    requires Inv(t, root, at) && e !in t && MayHold(t, at, parent, kind, ops) && Clean(k)
    ensures var t1 := t[e := NewNode(Some(k), kind, ops, "", "")];
      && Inv(t1, root, at) && MayHold(t1, at, parent, kind, ops) && t1[parent] == t[parent] && Grown(t, t1, {})
      && Founded(t1, parent) && !Under(t1, parent, e)
      && (CanAttach(t1, root, parent, e) <==> k != "" && k !in t[parent].children)
  {
    var n := NewNode(Some(k), kind, ops, "", "");
    RootPath(t, root);
    AddedKeepsInv(t, root, at, e, n);
    AddedKeepsForest(t, root, e, n);
    assert NodeOk(t, root, parent) && NodeOk(t[e := n], root, parent);
    NotUnderFresh(t, t[e := n], parent, e);
  }

  lemma PlainJoins(t0: Tree, t: Tree, root: Entity, at: Places, parent: Entity, e: Entity, kind: Kind, ops: Ops)
    requires Inv(t, root, at) && MayHold(t, at, parent, kind, ops) && CanAttach(t, root, parent, e)
    requires t[e] == NewNode(t[e].name, kind, ops, "", "")
    requires Grown(t0, t, {}) && e !in t0 && parent in t0
    ensures Inv(Attach(t, parent, e), root, at) && Grown(t0, Attach(t, parent, e), {parent})
  {
    AllLocated(t, root, at);
    AttachKeepsInv(t, root, at, parent, e);
    GrownMore(t0, t, {}, {parent});
    AttachGrows(t0, t, root, parent, e);
  }

  /** An entity under a name that is not taken. */
  method EnsureEntity(tr: EntityTree, ghost at: Places, parent: Entity, name: string, kind: Kind, ops: Ops)
    requires Good(tr, at) && MayHold(tr.t, at, parent, kind, ops)
    modifies tr, parent`children
    ensures Good(tr, at) && fresh(tr.t.Keys - old(tr.t.Keys))
    ensures Ensured(old(tr.t), tr.t, parent, SanitizeName(name), kind, ops)
  {
    ghost var t0 := tr.t;
    assert tr.Mirrors(parent);
    var taken := tr.HasChild(parent, name);
    if !taken {
      var e := CreateEntity(tr, at, parent, name, kind, ops);
    }
  }

  /** Created and added. */
  method CreateEntity(tr: EntityTree, ghost at: Places, parent: Entity, name: string, kind: Kind, ops: Ops)
    returns (e: Entity)
    requires Good(tr, at) && MayHold(tr.t, at, parent, kind, ops)
    requires SanitizeName(name) !in tr.t[parent].children
    modifies tr, parent`children
    ensures Good(tr, at) && fresh(tr.t.Keys - old(tr.t.Keys))
    ensures fresh(e) && e in tr.t && tr.t[e].ops == ops && tr.t[e].children == map[] && e !in old(tr.t)
    ensures Ensured(old(tr.t), tr.t, parent, SanitizeName(name), kind, ops)
    ensures SanitizeName(name) != "" ==> tr.t[parent].children[SanitizeName(name)] == e
  {
    ghost var t0 := tr.t;
    SanitizeNameSpec(name);
    e := tr.Create(name, kind, ops, "");
    ghost var t1 := tr.t;
    PlainCreated(t0, tr.root, at, parent, e, SanitizeName(name), kind, ops);
    tr.AddChild(parent, e);
    if SanitizeName(name) != "" {
      PlainJoins(t0, t1, tr.root, at, parent, e, kind, ops);
    }
  }

  // ---------------------------------------------------------------- the lists of playlists

  /** The sanitized names that are not empty. */
  ghost function CleanNames(names: seq<string>): set<string> {
    if names == [] then {}
    else
      var k := SanitizeName(names[|names| - 1]);
      CleanNames(names[..|names| - 1]) + (if k == "" then {} else {k})
  }

  /** What listing names does: an entity of this kind for each new name, and nothing else. */
  ghost predicate NamesListed(t0: Tree, t: Tree, dir: Entity, names: seq<string>, kind: Kind, ops: Ops) {
    && dir in t0 && dir in t && Grown(t0, t, {dir})
    && t[dir].children.Keys == t0[dir].children.Keys + CleanNames(names)
    && (forall k {:trigger IsEntryFor(t, dir, k, kind, ops)} :: k in t[dir].children && k !in t0[dir].children ==>
          IsEntryFor(t, dir, k, kind, ops))
  }

  ghost predicate IsEntryFor(t: Tree, dir: Entity, k: string, kind: Kind, ops: Ops) {
    && dir in t && k in t[dir].children && t[dir].children[k] in t
    && t[t[dir].children[k]].kind == kind && t[t[dir].children[k]].ops == ops
    && t[t[dir].children[k]].children == map[]
  }

  lemma NamesListedStep(t0: Tree, t: Tree, t1: Tree, dir: Entity, names: seq<string>, n: nat, kind: Kind, ops: Ops)
    requires n < |names| && NamesListed(t0, t, dir, names[..n], kind, ops)
    requires Ensured(t, t1, dir, SanitizeName(names[n]), kind, ops)
    ensures NamesListed(t0, t1, dir, names[..n + 1], kind, ops)
  {
    assert names[..n + 1][..n] == names[..n];
    EnsuredGrows(t0, t, t1, dir, SanitizeName(names[n]), kind, ops);
    forall k | k in t1[dir].children && k !in t0[dir].children
      ensures IsEntryFor(t1, dir, k, kind, ops)
    {
      if k in t[dir].children {
        assert IsEntryFor(t, dir, k, kind, ops);
        assert KeptIn(t, t1, dir);
        assert t[dir].children[k] != dir;
        assert SameIn(t, t1, t[dir].children[k]);
      }
    }
  }

  lemma EnsuredGrows(t0: Tree, t: Tree, t1: Tree, dir: Entity, k: string, kind: Kind, ops: Ops)
    requires Grown(t0, t, {dir}) && Ensured(t, t1, dir, k, kind, ops)
    ensures Grown(t0, t1, {dir}) && Extends(t, t1) && Grown(t, t1, {dir})
    ensures t1[dir].children.Keys == t[dir].children.Keys + (if k == "" then {} else {k})
  {
    if k !in t[dir].children && k == "" {
      GrownMore(t, t1, {}, {dir});
      assert SameIn(t, t1, dir);
    }
    if t1 != t {
      GrownTransitive(t0, t, t1, {dir});
    }
  }

  /** playlists_meta_dir_readdir and playlists_music_dir_readdir, for the names of the
      playlists libspotify lists. */
  method PlaylistsReaddir(tr: EntityTree, ghost at: Places, dir: Entity, names: seq<string>, ops: Ops)
    requires Good(tr, at) && MayHold(tr.t, at, dir, Dir, ops)
    modifies tr, dir`children
    ensures Good(tr, at) && fresh(tr.t.Keys - old(tr.t.Keys))
    ensures NamesListed(old(tr.t), tr.t, dir, names, Dir, ops)
  {
    ghost var t0 := tr.t;
    var i := 0;
    while i < |names|
      invariant i <= |names|
      invariant Good(tr, at) && fresh(tr.t.Keys - old(tr.t.Keys))
      invariant NamesListed(t0, tr.t, dir, names[..i], Dir, ops)
    {
      ghost var t := tr.t;
      assert KeptIn(t0, t, dir);
      EnsureEntity(tr, at, dir, names[i], Dir, ops);
      assert fresh(tr.t.Keys - t0.Keys);
      NamesListedStep(t0, t, tr.t, dir, names, i, Dir, ops);
      i := i + 1;
    }
    assert names[..i] == names;
  }

  // ---------------------------------------------------------------- portraits

  /** "%d.jpg", counted from 1. */
  function PortraitName(i: nat): string {
    Decimal(i + 1) + ".jpg"
  }

  function PortraitNames(n: nat): (names: seq<string>)
    ensures |names| == n
    ensures forall i :: 0 <= i < n ==> names[i] == PortraitName(i)
  {
    if n == 0 then [] else PortraitNames(n - 1) + [PortraitName(n - 1)]
  }

  /** The names are shown as they are, and tell the portraits apart. */
  lemma PortraitNamesApart(i: nat, j: nat)
    ensures SanitizeName(PortraitName(i)) == PortraitName(i) != ""
    ensures PortraitName(i) == PortraitName(j) <==> i == j
  {
    var a, b := Decimal(i + 1), Decimal(j + 1);
    SanitizeNameSpec(PortraitName(i));
    if PortraitName(i) == PortraitName(j) {
      NoShorterPrefix(a, b, ".jpg", ".jpg");
      NoShorterPrefix(b, a, ".jpg", ".jpg");
      assert (a + ".jpg")[..|a|] == a && (b + ".jpg")[..|b|] == b;
      DecimalValue(i + 1);
      DecimalValue(j + 1);
    }
  }

  /** What a portrait is called: its number, counted from one, and the ending of a picture. */
  lemma PortraitNameReads(i: nat) returns (number: string)
    ensures PortraitName(i) == number + ".jpg" && Value(number) == Some(i + 1) && number[0] != '0'
  {
    number := Decimal(i + 1);
    PrintedValue(i + 1);
    DecimalShape(i + 1);
  }

  lemma OneMoreCleanName(names: seq<string>, k: string)
    requires SanitizeName(k) == k != ""
    ensures CleanNames(names + [k]) == CleanNames(names) + {k}
    ensures k !in CleanNames(names) ==> |CleanNames(names + [k])| == |CleanNames(names)| + 1
  {
    assert (names + [k])[..|names|] == names;
  }

  lemma NewPortraitName(n: nat)
    ensures PortraitName(n) !in PortraitNames(n)
  {
    forall i | 0 <= i < n
      ensures PortraitNames(n)[i] != PortraitName(n)
    {
      PortraitNamesApart(i, n);
    }
  }

  /** So there are as many names as portraits. */
  lemma {:induction false} PortraitsShown(n: nat)
    ensures |CleanNames(PortraitNames(n))| == n
    ensures forall k :: k in CleanNames(PortraitNames(n)) <==> k in PortraitNames(n)
  {
    if n == 0 {
    } else {
      var k := PortraitName(n - 1);
      PortraitsShown(n - 1);
      PortraitNamesApart(n - 1, n - 1);
      NewPortraitName(n - 1);
      OneMoreCleanName(PortraitNames(n - 1), k);
      assert PortraitNames(n) == PortraitNames(n - 1) + [k];
    }
  }

  /** portraits_readdir, for the number of portraits libspotify has. */
  method PortraitsReaddir(tr: EntityTree, ghost at: Places, dir: Entity, portraits: nat)
    requires Good(tr, at) && MayHold(tr.t, at, dir, File, Attribute)
    modifies tr, dir`children
    ensures Good(tr, at) && fresh(tr.t.Keys - old(tr.t.Keys))
    ensures NamesListed(old(tr.t), tr.t, dir, PortraitNames(portraits), File, Attribute)
  {
    ghost var t0, names := tr.t, PortraitNames(portraits);
    var i := 0;
    while i < portraits
      invariant i <= portraits
      invariant Good(tr, at) && fresh(tr.t.Keys - old(tr.t.Keys))
      invariant NamesListed(t0, tr.t, dir, names[..i], File, Attribute)
    {
      ghost var t := tr.t;
      assert KeptIn(t0, t, dir);
      EnsureEntity(tr, at, dir, PortraitName(i), File, Attribute);
      assert fresh(tr.t.Keys - t0.Keys);
      NamesListedStep(t0, t, tr.t, dir, names, i, File, Attribute);
      i := i + 1;
    }
    assert names[..i] == names;
  }
}
