/** The tree that spfs_init builds. */
module InitialTrees {
  import opened CStrings
  import opened Names
  import opened Entities
  import opened Growth
  import opened EntityTrees
  import opened Places
  import opened Links

  /** No entity makes links or is one, and only these have the callbacks of the roots. */
  ghost predicate Bare(t: Tree, roots: set<Entity>) {
    forall e {:trigger IsBare(t, roots, e)} :: e in t ==> IsBare(t, roots, e)
  }

  ghost predicate IsBare(t: Tree, roots: set<Entity>, e: Entity) {
    e in t ==> !t[e].kind.Link? && !MakesLinks(t[e].ops) && (RootOps(t[e].ops) ==> e in roots)
  }

  lemma BareInv(t: Tree, root: Entity, at: Places)
    requires Forest(t, root) && PlacesOk(t, root, at) && Bare(t, {at.search} + {at.meta} + {at.music})
    requires {at.tracks, at.artists, at.albums} <= t.Keys
    requires t[at.tracks].children == t[at.artists].children == t[at.albums].children == map[]
    ensures Inv(t, root, at)
  {
    forall e | e in t
      ensures PlaceOk(t, at, e) && LinkOk(t, root, at, e)
    {
      assert NodeOk(t, root, e) && IsBare(t, {at.search} + {at.meta} + {at.music}, e);
      AllLocated(t, root, at);
    }
  }

  ghost predicate Good(tr: EntityTree, at: Places)
    reads tr, tr.t.Keys
  {
    tr.Mirrored() && Inv(tr.t, tr.root, at)
  }

  /** Exactly the entities that spfs_init makes, and nothing in the last directories. */
  ghost predicate AsBuilt(t: Tree, root: Entity, at: Places) {
    && ShowsOnly(t, root, {"connection"} + {"browse", "search", "playlists"})
    && ShowsOnly(t, at.browse, {"tracks", "artists", "albums"}) && ShowsOnly(t, at.playlists, {"meta", "music"})
    && ShowsOnly(t, at.tracks, {}) && ShowsOnly(t, at.artists, {}) && ShowsOnly(t, at.albums, {})
    && ShowsOnly(t, at.search, {}) && ShowsOnly(t, at.meta, {}) && ShowsOnly(t, at.music, {})
    && "connection" in t[root].children && IsConnection(t, root, t[root].children["connection"])
  }

  ghost predicate ShowsOnly(t: Tree, d: Entity, names: set<string>) {
    d in t && t[d].children.Keys == names
  }

  ghost predicate IsConnection(t: Tree, root: Entity, e: Entity) {
    e in t && t[e] == NewNode(Some("connection"), File, Attribute, "", "").(parent := root)
  }

  ghost function PlaceSet(at: Places): set<Entity> {
    {at.browse, at.tracks, at.artists, at.albums, at.search, at.playlists, at.meta, at.music}
  }

  /** Every other entity is under one of these three, by its name. */
  ghost predicate ByName(t: Tree, root: Entity, at: Places, e: Entity) {
    && e in t && t[e].name.Some?
    && if t[e].parent == root then t[e].name.value in {"connection"} + {"browse", "search", "playlists"}
       else if t[e].parent == at.browse then t[e].name.value in {"tracks", "artists", "albums"}
       else t[e].parent == at.playlists && t[e].name.value in {"meta", "music"}
  }

  lemma AllByName(t: Tree, root: Entity, at: Places, connection: Entity, e: Entity)
    requires Forest(t, root) && PlacesOk(t, root, at) && IsConnection(t, root, connection)
    requires t.Keys == {root, connection} + PlaceSet(at) && e in t && e != root
    ensures ByName(t, root, at, e)
  {
    AllLocated(t, root, at);
    assert at.browse != root && at.playlists != root && at.browse != at.playlists by {
      RootPath(t, root);
    }
  }

  /** A directory shows the names of what is under it. */
  lemma ShowsWhatIsThere(t: Tree, root: Entity, d: Entity, there: map<string, Entity>)
    requires Forest(t, root) && d in t
    requires forall k :: k in there ==> there[k] in t && t[there[k]].parent == d && t[there[k]].name == Some(k)
    requires forall e :: e in t && t[e].parent == d ==> t[e].name.Some? && t[e].name.value in there
    ensures ShowsOnly(t, d, there.Keys)
  {
    forall k | k in t[d].children
      ensures k in there
    {
      ChildFacts(t, root, d, k);
    }
    forall k | k in there
      ensures k in t[d].children
    {
      ParentFacts(t, root, there[k]);
    }
  }

  lemma RootShows(t: Tree, root: Entity, at: Places, connection: Entity)
    requires Forest(t, root) && PlacesOk(t, root, at) && IsConnection(t, root, connection)
    requires t.Keys == {root, connection} + PlaceSet(at) && t[root].parent == null
    ensures ShowsOnly(t, root, {"connection"} + {"browse", "search", "playlists"})
    ensures t[root].children["connection"] == connection
  {
    AllLocated(t, root, at);
    var there := map["connection" := connection, "browse" := at.browse, "search" := at.search,
                     "playlists" := at.playlists];
    forall e | e in t && t[e].parent == root
      ensures t[e].name.Some? && t[e].name.value in there
    {
      AllByName(t, root, at, connection, e);
    }
    ShowsWhatIsThere(t, root, root, there);
    ParentFacts(t, root, connection);
    assert there.Keys == {"connection"} + {"browse", "search", "playlists"};
  }

  lemma BrowseShows(t: Tree, root: Entity, at: Places, connection: Entity)
    requires Forest(t, root) && PlacesOk(t, root, at) && IsConnection(t, root, connection)
    requires t.Keys == {root, connection} + PlaceSet(at) && t[root].parent == null
    ensures ShowsOnly(t, at.browse, {"tracks", "artists", "albums"})
  {
    AllLocated(t, root, at);
    var there := map["tracks" := at.tracks, "artists" := at.artists, "albums" := at.albums];
    forall e | e in t && t[e].parent == at.browse
      ensures t[e].name.Some? && t[e].name.value in there
    {
      AllByName(t, root, at, connection, e);
    }
    ShowsWhatIsThere(t, root, at.browse, there);
    assert there.Keys == {"tracks", "artists", "albums"};
  }

  lemma PlaylistsShow(t: Tree, root: Entity, at: Places, connection: Entity)
    requires Forest(t, root) && PlacesOk(t, root, at) && IsConnection(t, root, connection)
    requires t.Keys == {root, connection} + PlaceSet(at) && t[root].parent == null
    ensures ShowsOnly(t, at.playlists, {"meta", "music"})
  {
    AllLocated(t, root, at);
    var there := map["meta" := at.meta, "music" := at.music];
    forall e | e in t && t[e].parent == at.playlists
      ensures t[e].name.Some? && t[e].name.value in there
    {
      AllByName(t, root, at, connection, e);
    }
    ShowsWhatIsThere(t, root, at.playlists, there);
    assert there.Keys == {"meta", "music"};
  }

  lemma OthersShowNothing(t: Tree, root: Entity, at: Places, connection: Entity, d: Entity)
    requires Forest(t, root) && PlacesOk(t, root, at) && IsConnection(t, root, connection)
    requires t.Keys == {root, connection} + PlaceSet(at) && t[root].parent == null
    requires d in t && d != root && d != at.browse && d != at.playlists
    ensures ShowsOnly(t, d, {})
  {
    forall e | e in t && t[e].parent == d
      ensures false
    {
      AllByName(t, root, at, connection, e);
    }
    ShowsWhatIsThere(t, root, d, map[]);
  }

  /** If these are all entities, then every directory shows just those that are located there. */
  lemma OnlyThese(t: Tree, root: Entity, at: Places, connection: Entity)
    requires Forest(t, root) && PlacesOk(t, root, at) && IsConnection(t, root, connection)
    requires t.Keys == {root, connection} + PlaceSet(at) && t[root].parent == null
    ensures AsBuilt(t, root, at)
  {
    RootShows(t, root, at, connection);
    BrowseShows(t, root, at, connection);
    PlaylistsShow(t, root, at, connection);
    forall d | d in t && d != root && d != at.browse && d != at.playlists
      ensures ShowsOnly(t, d, {})
    {
      OthersShowNothing(t, root, at, connection, d);
    }
    AllLocated(t, root, at);
  }

  method InitialTree() returns (tr: EntityTree, ghost at: Places)
    ensures tr.Valid() && Inv(tr.t, tr.root, at) && fresh(tr) && fresh(tr.t.Keys)
    ensures AsBuilt(tr.t, tr.root, at)
  {
    var browse, tracks, artists, albums;
    ghost var connection;
    tr, browse, tracks, artists, albums, connection := InitFront();
    ghost var t1 := tr.t;
    RootPath(t1, tr.root);
    var search, playlists, meta, music := InitOthers(tr);
    assert fresh(tr.t.Keys);
    at := Places(browse, tracks, artists, albums, search, playlists, meta, music);
    RootPath(tr.t, tr.root);
    AllInPlace(t1, tr.t, tr.root, at, connection);
  }

  lemma AllInPlace(t1: Tree, t: Tree, root: Entity, at: Places, connection: Entity)
    requires Forest(t, root) && Bare(t, {at.search} + {at.meta} + {at.music}) && Grown(t1, t, {root})
    requires root in t1 && t1[root].parent == null && t[root].parent == null && IsConnection(t1, root, connection)
    requires t1.Keys == {root, connection, at.browse, at.tracks, at.artists, at.albums}
    requires t.Keys == t1.Keys + {at.search} + {at.playlists, at.meta, at.music}
    requires Located(t1, at.browse, root, "browse", NoOps)
    requires EmptyDir(t1, at.tracks, at.browse, "tracks")
    requires EmptyDir(t1, at.artists, at.browse, "artists")
    requires EmptyDir(t1, at.albums, at.browse, "albums")
    requires Located(t, at.search, root, "search", SearchRoot)
    requires Located(t, at.playlists, root, "playlists", NoOps)
    requires Located(t, at.meta, at.playlists, "meta", MetaRoot)
    requires Located(t, at.music, at.playlists, "music", MusicRoot)
    ensures Inv(t, root, at) && AsBuilt(t, root, at)
  {
    assert KeptIn(t1, t, at.browse) && SameIn(t1, t, connection);
    assert SameIn(t1, t, at.tracks) && SameIn(t1, t, at.artists) && SameIn(t1, t, at.albums);
    BareInv(t, root, at);
    OnlyThese(t, root, at, connection);
  }

  /** The root with /connection and /browse. */
  method InitFront() returns (tr: EntityTree, browse: Entity, tracks: Entity, artists: Entity, albums: Entity,
                              ghost connection: Entity)
    ensures tr.Valid() && Bare(tr.t, {}) && fresh(tr) && fresh(tr.t.Keys)
    ensures IsConnection(tr.t, tr.root, connection)
    ensures tr.t.Keys == {tr.root, connection, browse, tracks, artists, albums}
    ensures Located(tr.t, browse, tr.root, "browse", NoOps)
    ensures EmptyDir(tr.t, tracks, browse, "tracks")
    ensures EmptyDir(tr.t, artists, browse, "artists")
    ensures EmptyDir(tr.t, albums, browse, "albums")
    ensures "search" !in tr.t[tr.root].children && "playlists" !in tr.t[tr.root].children
  {
    tr, connection := InitConnection();
    ghost var t1 := tr.t;
    browse, tracks, artists, albums := InitBrowse(tr);
    assert fresh(tr.t.Keys) && SameIn(t1, tr.t, connection);
  }

  /** The root with /connection. */
  method InitConnection() returns (tr: EntityTree, connection: Entity)
    ensures tr.Valid() && Bare(tr.t, {}) && fresh(tr) && fresh(tr.t.Keys)
    ensures tr.t.Keys == {tr.root, connection} && connection != tr.root && IsConnection(tr.t, tr.root, connection)
    ensures tr.t[tr.root].children == map["connection" := connection]
  {
    tr := new EntityTree();
    assert Bare(tr.t, {});
    PlainName("connection");
    connection := CreateBare(tr, tr.root, "connection", File, Attribute, {});
  }

  /** /search and /playlists. */
  method InitOthers(tr: EntityTree) returns (search: Entity, playlists: Entity, meta: Entity, music: Entity)
    requires tr.Valid() && Bare(tr.t, {})
    requires "search" !in tr.t[tr.root].children && "playlists" !in tr.t[tr.root].children
    modifies tr, tr.root`children
    ensures tr.Valid() && Bare(tr.t, {search} + {meta} + {music}) && fresh({search, playlists, meta, music})
    ensures tr.t.Keys == old(tr.t.Keys) + {search} + {playlists, meta, music}
    ensures Located(tr.t, search, tr.root, "search", SearchRoot)
    ensures Located(tr.t, playlists, tr.root, "playlists", NoOps)
    ensures Located(tr.t, meta, playlists, "meta", MetaRoot) && tr.t[meta].children == map[]
    ensures Located(tr.t, music, playlists, "music", MusicRoot)
    ensures Grown(old(tr.t), tr.t, {tr.root})
  {
    RootPath(tr.t, tr.root);
    PlainName("search");
    search := CreateBare(tr, tr.root, "search", Dir, SearchRoot, {});
    assert {} + {search} == {search};
    ghost var t1 := tr.t;
    playlists, meta, music := InitPlaylists(tr, {search});
    GrownTransitive(old(tr.t), t1, tr.t, {tr.root});
    assert KeptIn(t1, tr.t, search);
  }

  /** One of the fixed entities. */
  method CreateBare(tr: EntityTree, parent: Entity, name: string, kind: Kind, ops: Ops, ghost roots: set<Entity>)
    returns (e: Entity)
    requires tr.Valid() && Bare(tr.t, roots) && parent in tr.t && tr.t[parent].kind.Dir?
    requires Clean(name) && name != "" && name !in tr.t[parent].children && !kind.Link? && !MakesLinks(ops)
    modifies tr, parent`children
    ensures tr.Valid() && fresh(e) && tr.t.Keys == old(tr.t.Keys) + {e}
    ensures Bare(tr.t, if RootOps(ops) then roots + {e} else roots)
    ensures e in tr.t && tr.t[e] == NewNode(Some(name), kind, ops, "", "").(parent := parent)
    ensures tr.t[parent].children == old(tr.t)[parent].children[name := e]
    ensures Grown(old(tr.t), tr.t, {parent})
  {
    ghost var t0 := tr.t;
    e := tr.CreateIn(parent, name, kind, ops, "");
    ghost var n := NewNode(Some(name), kind, ops, "", "");
    BareAdded(t0, e, n, roots);
    BareAttached(t0[e := n], parent, e, if RootOps(ops) then roots + {e} else roots);
  }

  lemma BareAdded(t: Tree, e: Entity, n: Node, roots: set<Entity>)
    requires Bare(t, roots) && !n.kind.Link? && !MakesLinks(n.ops)
    ensures Bare(t[e := n], if RootOps(n.ops) then roots + {e} else roots)
  {
    var t1, more := t[e := n], if RootOps(n.ops) then roots + {e} else roots;
    forall x | x in t1
      ensures IsBare(t1, more, x)
    {
      assert IsBare(t, roots, x);
    }
  }

  lemma BareAttached(t: Tree, p: Entity, c: Entity, roots: set<Entity>)
    requires Bare(t, roots) && p in t && c in t && t[c].name.Some?
    ensures Bare(Attach(t, p, c), roots)
  {
    forall x | x in t
      ensures IsBare(Attach(t, p, c), roots, x)
    {
      assert IsBare(t, roots, x);
    }
  }

  /** /browse with its three empty directories. */
  method InitBrowse(tr: EntityTree) returns (browse: Entity, tracks: Entity, artists: Entity, albums: Entity)
    requires tr.Valid() && Bare(tr.t, {}) && "browse" !in tr.t[tr.root].children
    modifies tr, tr.root`children
    ensures tr.Valid() && Bare(tr.t, {}) && fresh({browse, tracks, artists, albums})
    ensures tr.t.Keys == old(tr.t.Keys) + {browse, artists, tracks, albums}
    ensures Located(tr.t, browse, tr.root, "browse", NoOps)
    ensures EmptyDir(tr.t, tracks, browse, "tracks")
    ensures EmptyDir(tr.t, artists, browse, "artists")
    ensures EmptyDir(tr.t, albums, browse, "albums")
    ensures tr.t[tr.root].children == old(tr.t)[tr.root].children["browse" := browse]
    ensures Grown(old(tr.t), tr.t, {tr.root})
  {
    browse, tracks, artists, albums := FillBrowse(tr);
    ghost var t1 := tr.t;
    assert SameIn(old(tr.t), t1, tr.root);
    RootNotUnder(t1, tr.root, browse);
    RootPath(t1, tr.root);
    assert CanAttach(t1, tr.root, tr.root, browse);
    tr.AddChild(tr.root, browse);
    BareAttached(t1, tr.root, browse, {});
    GrownMore(old(tr.t), t1, {}, {tr.root});
    AttachGrows(old(tr.t), t1, tr.root, tr.root, browse);
  }

  method FillBrowse(tr: EntityTree) returns (browse: Entity, tracks: Entity, artists: Entity, albums: Entity)
    requires tr.Valid() && Bare(tr.t, {})
    modifies tr
    ensures tr.Valid() && Bare(tr.t, {}) && fresh({browse, tracks, artists, albums})
    ensures tr.t.Keys == old(tr.t.Keys) + {browse, artists, tracks, albums}
    ensures browse in tr.t && tr.t[browse].kind.Dir? && tr.t[browse].ops.NoOps?
    ensures tr.t[browse].name == Some("browse") && tr.t[browse].parent == null
    ensures EmptyDir(tr.t, tracks, browse, "tracks")
    ensures EmptyDir(tr.t, artists, browse, "artists")
    ensures EmptyDir(tr.t, albums, browse, "albums")
    ensures Grown(old(tr.t), tr.t, {})
  {
    PlainName("browse");
    SanitizeNameSpec("browse");
    browse := tr.Create("browse", Dir, NoOps, "");
    ghost var t0 := tr.t;
    BareAdded(old(tr.t), browse, t0[browse], {});
    artists, tracks, albums := FillThree(tr, browse);
    GrownAround(old(tr.t), t0, tr.t, {}, browse);
    assert KeptIn(t0, tr.t, browse);
  }

  method FillThree(tr: EntityTree, browse: Entity) returns (artists: Entity, tracks: Entity, albums: Entity)
    requires tr.Valid() && Bare(tr.t, {}) && browse in tr.t && tr.t[browse].kind.Dir?
    requires tr.t[browse].children == map[]
    modifies tr, browse`children
    ensures tr.Valid() && Bare(tr.t, {}) && fresh({tracks, artists, albums})
    ensures tr.t.Keys == old(tr.t.Keys) + {artists, tracks, albums}
    ensures EmptyDir(tr.t, tracks, browse, "tracks")
    ensures EmptyDir(tr.t, artists, browse, "artists")
    ensures EmptyDir(tr.t, albums, browse, "albums")
    ensures Grown(old(tr.t), tr.t, {browse})
  {
    PlainName("artists");
    artists := CreateBare(tr, browse, "artists", Dir, NoOps, {});
    ghost var t1 := tr.t;
    assert KeptIn(old(tr.t), t1, browse);
    tracks, albums := FillTwo(tr, browse, artists);
    assert SameIn(t1, tr.t, artists);
    GrownTransitive(old(tr.t), t1, tr.t, {browse});
  }

  method FillTwo(tr: EntityTree, browse: Entity, artists: Entity) returns (tracks: Entity, albums: Entity)
    requires tr.Valid() && Bare(tr.t, {}) && browse in tr.t && tr.t[browse].kind.Dir?
    requires tr.t[browse].children == map["artists" := artists]
    modifies tr, browse`children
    ensures tr.Valid() && Bare(tr.t, {}) && fresh({tracks, albums})
    ensures tr.t.Keys == old(tr.t.Keys) + {tracks, albums}
    ensures EmptyDir(tr.t, tracks, browse, "tracks")
    ensures EmptyDir(tr.t, albums, browse, "albums")
    ensures Grown(old(tr.t), tr.t, {browse})
  {
    PlainName("tracks");
    tracks := CreateBare(tr, browse, "tracks", Dir, NoOps, {});
    ghost var t1 := tr.t;
    assert KeptIn(old(tr.t), t1, browse);
    PlainName("albums");
    albums := CreateBare(tr, browse, "albums", Dir, NoOps, {});
    assert SameIn(t1, tr.t, tracks);
    GrownTransitive(old(tr.t), t1, tr.t, {browse});
  }

  method InitPlaylists(tr: EntityTree, ghost roots: set<Entity>) returns (playlists: Entity, meta: Entity,
                       music: Entity)
    requires tr.Valid() && Bare(tr.t, roots) && "playlists" !in tr.t[tr.root].children
    modifies tr, tr.root`children
    ensures tr.Valid() && Bare(tr.t, roots + {meta} + {music}) && fresh({playlists, meta, music})
    ensures tr.t.Keys == old(tr.t.Keys) + {playlists, meta, music}
    ensures Located(tr.t, playlists, tr.root, "playlists", NoOps)
    ensures Located(tr.t, meta, playlists, "meta", MetaRoot) && tr.t[meta].children == map[]
    ensures Located(tr.t, music, playlists, "music", MusicRoot)
    ensures Grown(old(tr.t), tr.t, {tr.root})
  {
    RootPath(tr.t, tr.root);
    PlainName("playlists");
    playlists := CreateBare(tr, tr.root, "playlists", Dir, NoOps, roots);
    ghost var t1 := tr.t;
    meta, music := FillPlaylists(tr, playlists, roots);
    assert KeptIn(t1, tr.t, playlists);
    GrownAround(old(tr.t), t1, tr.t, {tr.root}, playlists);
  }

  method FillPlaylists(tr: EntityTree, playlists: Entity, ghost roots: set<Entity>) returns (meta: Entity,
                       music: Entity)
    requires tr.Valid() && Bare(tr.t, roots) && playlists in tr.t && tr.t[playlists].kind.Dir?
    requires tr.t[playlists].children == map[]
    modifies tr, playlists`children
    ensures tr.Valid() && Bare(tr.t, roots + {meta} + {music}) && fresh({meta, music})
    ensures tr.t.Keys == old(tr.t.Keys) + {meta, music}
    ensures Located(tr.t, meta, playlists, "meta", MetaRoot) && tr.t[meta].children == map[]
    ensures Located(tr.t, music, playlists, "music", MusicRoot)
    ensures Grown(old(tr.t), tr.t, {playlists})
  {
    PlainName("meta");
    meta := CreateBare(tr, playlists, "meta", Dir, MetaRoot, roots);
    ghost var t1 := tr.t;
    assert KeptIn(old(tr.t), t1, playlists);
    PlainName("music");
    music := CreateBare(tr, playlists, "music", Dir, MusicRoot, roots + {meta});
    assert SameIn(t1, tr.t, meta);
    GrownTransitive(old(tr.t), t1, tr.t, {playlists});
  }

  /** Growth in a directory that was not there at first is no growth of what was. */
  lemma GrownAround(t0: Tree, t1: Tree, t2: Tree, touched: set<Entity>, d: Entity)
    requires Grown(t0, t1, touched) && Grown(t1, t2, {d}) && d !in t0
    ensures Grown(t0, t2, touched)
  {
    ExtendsTransitive(t0, t1, t2);
    forall e | e in t0 && e !in touched
      ensures SameIn(t0, t2, e)
    {
      assert SameIn(t0, t1, e) && SameIn(t1, t2, e);
    }
  }

  ghost predicate EmptyDir(t: Tree, e: Entity, parent: Entity, name: string) {
    Located(t, e, parent, name, NoOps) && t[e].children == map[]
  }

  lemma RootNotUnder(t: Tree, root: Entity, c: Entity)
    requires Forest(t, root) && c != root
    ensures Founded(t, root) && !Under(t, root, c)
  {
    RootPath(t, root);
    ParentDepth(t, root);
  }
}
