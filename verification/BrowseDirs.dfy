/** Browse directories, made on first use and shared by URI from then on:
    create_track_browse_dir, create_artist_browse_dir and create_album_browse_dir. */
module BrowseDirs {
  import opened CStrings
  import opened Names
  import opened Paths
  import opened Entities
  import opened Growth
  import opened EntityTrees
  import opened Places
  import opened Sites
  import opened InitialTrees

  /** The top of a tree that is being filled: its children are no links and have none. */
  ghost predicate Nursery(t: Tree, d: Entity, allowed: set<Ops>) {
    && d in t && t[d].kind.Dir? && t[d].parent == null && t[d].name.Some?
    && forall k :: k in t[d].children && t[d].children[k] in t ==>
         var x := t[t[d].children[k]];
         !x.kind.Link? && x.children == map[] && x.ops in allowed
  }

  /** What may be put into a browse directory. */
  predicate Fixture(kind: Kind, ops: Ops, name: string) {
    && Clean(name) && name != "" && !kind.Link?
    && (ops.Attribute? || ops.Wav? || ops.ArtistPortraits?
        || (ops.TrackArtists? && kind.Dir? && name == "artists")
        || (ops.ArtistAlbums? && kind.Dir? && name == "albums"))
  }

  /** A new entity for a browse directory, before it is put there. */
  lemma FixtureCreated(t: Tree, root: Entity, at: Places, d: Entity, e: Entity, n: Node, allowed: set<Ops>)
    requires Inv(t, root, at) && e !in t && Nursery(t, d, allowed)
    requires n.name.Some? && n == NewNode(n.name, n.kind, n.ops, "", n.auxdata)
    requires Fixture(n.kind, n.ops, n.name.value)
    ensures var t1 := t[e := n];
      && Inv(t1, root, at) && Nursery(t1, d, allowed) && Founded(t1, d) && !Under(t1, d, e)
      && t1[d] == t[d] && (n.name.value !in t[d].children ==> CanAttach(t1, root, d, e))
  {
    var t1 := t[e := n];
    AddedKeepsInv(t, root, at, e, n);
    assert NodeOk(t, root, d) && NodeOk(t1, root, d);
    AddedKeepsForest(t, root, e, n);
    NotUnderFresh(t, t1, d, e);
  }

  /** And when it is put there. */
  lemma FixtureAttached(t: Tree, root: Entity, at: Places, d: Entity, e: Entity, allowed: set<Ops>)
    requires Inv(t, root, at) && Nursery(t, d, allowed) && CanAttach(t, root, d, e)
    requires t[e].children == map[] && Fixture(t[e].kind, t[e].ops, t[e].name.value) && t[e].ops in allowed
    ensures Inv(Attach(t, d, e), root, at) && Nursery(Attach(t, d, e), d, allowed)
  {
    AllLocated(t, root, at);
    AttachKeepsInv(t, root, at, d, e);
    NurseryGrows(t, root, d, e, allowed);
  }

  lemma NurseryGrows(t: Tree, root: Entity, d: Entity, e: Entity, allowed: set<Ops>)
    requires Forest(t, root) && Nursery(t, d, allowed) && CanAttach(t, root, d, e)
    requires t[e].children == map[] && !t[e].kind.Link? && t[e].ops in allowed
    ensures Nursery(Attach(t, d, e), d, allowed)
  {
    ParentDepth(t, d);
    assert NodeOk(t, root, d);
  }

  /** Which callbacks may be inside the browse directories of a place. */
  ghost predicate Housed(at: Places, place: Entity, allowed: set<Ops>) {
    && (place == at.tracks || place == at.artists || place == at.albums)
    && (TrackArtists in allowed ==> place == at.tracks)
    && (ArtistAlbums in allowed ==> place == at.artists)
  }

  /** What a browse directory of the place has to have. */
  ghost predicate Equipped(t: Tree, at: Places, place: Entity, d: Entity) {
    && d in t && (place == at.tracks ==> TrackDir(t, t[d])) && (place == at.artists ==> ArtistDir(t, t[d]))
  }

  lemma NurseryFits(t: Tree, at: Places, place: Entity, d: Entity, allowed: set<Ops>)
    requires Nursery(t, d, allowed) && UriDir(t[d]) && Housed(at, place, allowed) && place in t
    requires Equipped(t, at, place, d)
    ensures Fits(t, at, place, d) && Shallow(t, d)
  {
  }

  lemma NurseryCanAttach(base: Tree, t: Tree, root: Entity, place: Entity, d: Entity, allowed: set<Ops>)
    requires Forest(base, root) && Forest(t, root) && Grown(base, t, {}) && d !in base
    requires Nursery(t, d, allowed) && UriDir(t[d])
    requires place in base && base[place].kind.Dir?
    requires SanitizeName(t[d].auxdata) !in base[place].children
    ensures place in t && CanAttach(t, root, place, d)
  {
    assert NodeOk(base, root, place) && NodeOk(t, root, place);
    assert SameIn(base, t, place);
    NotUnderFresh(base, t, place, d);
  }

  /** A filled browse directory put into its place. */
  lemma BrowseDirJoins(base: Tree, t: Tree, root: Entity, at: Places, place: Entity, d: Entity, allowed: set<Ops>)
    requires Inv(base, root, at) && Inv(t, root, at) && Grown(base, t, {}) && d !in base
    requires Nursery(t, d, allowed) && UriDir(t[d]) && Housed(at, place, allowed)
    requires Equipped(t, at, place, d)
    requires place in base && SanitizeName(t[d].auxdata) !in base[place].children
    ensures place in t && CanAttach(t, root, place, d)
    ensures Inv(Attach(t, place, d), root, at)
    ensures Grown(base, Attach(t, place, d), {place})
  {
    AllLocated(base, root, at);
    NurseryCanAttach(base, t, root, place, d, allowed);
    NurseryFits(t, at, place, d, allowed);
    AttachKeepsInv(t, root, at, place, d);
    AttachGrows(base, t, root, place, d);
  }

  /** The lookup of a place by its path. */
  lemma FindPlace(t: Tree, root: Entity, at: Places, place: Entity, part: string, path: string)
    requires Inv(t, root, at) && BrowsePlace(at, place, part) && path == "/browse/" + part
    ensures FindOf(t, root, path) == place && place in t && place != root
  {
    PlacePaths(t, root, at);
    AllLocated(t, root, at);
    FindByPath(t, root, place, part);
  }

  lemma FindByPath(t: Tree, root: Entity, e: Entity, part: string)
    requires Forest(t, root) && HasPath(t, root, e, ["browse", part]) && |part| < 100
    requires t[e].parent != null && t[e].name == Some(part)
    requires t[e].parent in t && t[t[e].parent].name == Some("browse") && part != "browse"
    ensures FindOf(t, root, "/browse/" + part) == e
  {
    SlashedOneMore([], "browse");
    SlashedSnoc(["browse"], part);
    SlashedSnoc([], "browse");
    assert [] + ["browse"] == ["browse"] && ["browse"] + [part] == ["browse", part];
    assert Slashed(["browse", part]) == "/browse/" + part;
    FindFullPath(t, root, e);
    FullPathPrints(t, root, e);
  }

  /** One file or directory of a browse directory that is being filled. The tree base is what
      there was before the browse directory. */
  method AddFixture(tr: EntityTree, ghost at: Places, d: Entity, name: string, kind: Kind, ops: Ops, auxdata: string,
                    ghost base: Tree, ghost allowed: set<Ops>)
    requires Good(tr, at) && Nursery(tr.t, d, allowed) && d != tr.root
    requires Fixture(kind, ops, name) && ops in allowed
    requires Grown(base, tr.t, {}) && d !in base
    modifies tr, d`children
    ensures Good(tr, at) && Nursery(tr.t, d, allowed)
    ensures Grown(base, tr.t, {}) && Grown(old(tr.t), tr.t, {d})
    ensures fresh(tr.t.Keys - old(tr.t.Keys))
    ensures tr.t[d].children.Keys == old(tr.t)[d].children.Keys + {name}
    ensures name !in old(tr.t)[d].children ==>
              && tr.t[d].children[name] in tr.t
              && tr.t[tr.t[d].children[name]] == NewNode(Some(name), kind, ops, "", auxdata).(parent := d)
  {
    ghost var t0 := tr.t;
    SanitizeNameSpec(name);
    var e := tr.Create(name, kind, ops, auxdata);
    ghost var t1 := tr.t;
    FixtureCreated(t0, tr.root, at, d, e, t1[e], allowed);
    GrownTransitive(base, t0, t1, {});
    tr.AddChild(d, e);
    if name !in t0[d].children {
      FixtureAttached(t1, tr.root, at, d, e, allowed);
      FixtureGrows(base, t0, t1, tr.root, d, e);
    }
  }

  lemma FixtureGrows(base: Tree, t0: Tree, t1: Tree, root: Entity, d: Entity, e: Entity)
    requires Grown(base, t1, {}) && d !in base && Grown(t0, t1, {}) && e !in t0 && CanAttach(t1, root, d, e)
    requires d in t0 && e !in base
    ensures Grown(base, Attach(t1, d, e), {}) && Grown(t0, Attach(t1, d, e), {d})
  {
    GrownMore(t0, t1, {}, {d});
    AttachGrows(t0, t1, root, d, e);
    AttachExtends(base, t1, root, d, e);
    forall x | x in base
      ensures SameIn(base, Attach(t1, d, e), x)
    {
      assert SameIn(base, t1, x);
    }
  }

  /** One add_child call of a creator. */
  datatype Entry = Entry(name: string, kind: Kind, ops: Ops, auxdata: string)

  /** The add_child calls of the three creators, in their order. */
  function TrackEntries(uri: string): seq<Entry> {
    [Entry("name", File, Attribute, ""), Entry("track.wav", File, Wav, uri),
     Entry("duration", File, Attribute, ""), Entry("popularity", File, Attribute, ""),
     Entry("index", File, Attribute, ""), Entry("disc", File, Attribute, ""),
     Entry("starred", File, Attribute, ""), Entry("local", File, Attribute, ""),
     Entry("autolinked", File, Attribute, ""), Entry("offlinestatus", File, Attribute, ""),
     Entry("artists", Dir, TrackArtists, "")]
  }

  function ArtistEntries(): seq<Entry> {
    [Entry("name", File, Attribute, ""), Entry("biography", File, Attribute, ""),
     Entry("albums", Dir, ArtistAlbums, ""), Entry("portraits", Dir, ArtistPortraits, "")]
  }

  function AlbumEntries(): seq<Entry> {
    [Entry("name", File, Attribute, ""), Entry("cover.jpg", File, Attribute, "")]
  }

  ghost predicate Distinct(entries: seq<Entry>) {
    forall i, j :: 0 <= i < j < |entries| ==> entries[i].name != entries[j].name
  }

  ghost predicate AllFixtures(entries: seq<Entry>, allowed: set<Ops>) {
    forall i :: 0 <= i < |entries| ==>
      Fixture(entries[i].kind, entries[i].ops, entries[i].name) && entries[i].ops in allowed
  }

  ghost predicate HasEntry(t: Tree, d: Entity, f: Entry)
    requires d in t
  {
    && f.name in t[d].children && t[d].children[f.name] in t
    && t[t[d].children[f.name]] == NewNode(Some(f.name), f.kind, f.ops, "", f.auxdata).(parent := d)
  }

  /** d has exactly these entries, each as it was created. */
  ghost predicate Furnished(t: Tree, d: Entity, entries: seq<Entry>) {
    && d in t
    && t[d].children.Keys == (set i | 0 <= i < |entries| :: entries[i].name)
    && forall i :: 0 <= i < |entries| ==> HasEntry(t, d, entries[i])
  }

  lemma FurnishedGrows(t0: Tree, t1: Tree, d: Entity, entries: seq<Entry>, i: nat)
    requires i < |entries| && Furnished(t0, d, entries[..i]) && Distinct(entries)
    requires d in t1 && HasEntry(t1, d, entries[i])
    requires t1[d].children.Keys == t0[d].children.Keys + {entries[i].name}
    requires Grown(t0, t1, {d}) && t0[d].parent == null
    ensures Furnished(t1, d, entries[..i + 1])
  {
    assert KeptIn(t0, t1, d);
    var more := entries[..i + 1];
    forall j | 0 <= j < |more|
      ensures HasEntry(t1, d, more[j])
    {
      if j < i {
        assert HasEntry(t0, d, entries[..i][j]);
        assert SameIn(t0, t1, t0[d].children[more[j].name]);
      }
    }
    assert more == entries[..i] + [entries[i]];
  }

  /** The directory of place for the URI: the one that was there, with nothing changed, or
      else a new one, and nothing else has changed. */
  ghost predicate Memoized(t0: Tree, t1: Tree, place: Entity, uri: string, d: Entity) {
    && place in t0 && place in t1
    && var k := SanitizeName(uri);
    && k in t1[place].children && t1[place].children[k] == d
    && if k in t0[place].children then t1 == t0
       else
         && Grown(t0, t1, {place}) && d !in t0 && d in t1 && t1[d].auxdata == uri
         && t1[place].children == t0[place].children[k := d]
  }

  lemma BrowseDirCreated(t: Tree, root: Entity, at: Places, d: Entity, uri: Uri, allowed: set<Ops>)
    requires Inv(t, root, at) && d !in t
    ensures var t1 := t[d := NewNode(Some(SanitizeName(uri)), Dir, NoOps, "", uri)];
      Inv(t1, root, at) && Nursery(t1, d, allowed) && Grown(t, t1, {}) && UriDir(t1[d]) && d != root
  {
    var n := NewNode(Some(SanitizeName(uri)), Dir, NoOps, "", uri);
    SanitizeNameSpec(uri);
    AddedKeepsInv(t, root, at, d, n);
    AddedKeepsForest(t, root, d, n);
    RootPath(t, root);
  }

  /** All the add_child calls of a creator. */
  method FillBrowseDir(tr: EntityTree, ghost at: Places, d: Entity, entries: seq<Entry>,
                       ghost base: Tree, ghost allowed: set<Ops>)
    requires Good(tr, at) && Nursery(tr.t, d, allowed) && d != tr.root && tr.t[d].children == map[]
    requires Grown(base, tr.t, {}) && d !in base
    requires Distinct(entries) && AllFixtures(entries, allowed)
    modifies tr, d`children
    ensures Good(tr, at) && Nursery(tr.t, d, allowed) && Grown(base, tr.t, {})
    ensures Furnished(tr.t, d, entries) && tr.t[d] == old(tr.t)[d].(children := tr.t[d].children)
    ensures fresh(tr.t.Keys - old(tr.t.Keys))
  {
    var i := 0;
    while i < |entries|
      invariant i <= |entries|
      invariant Good(tr, at) && Nursery(tr.t, d, allowed) && Grown(base, tr.t, {})
      invariant Furnished(tr.t, d, entries[..i]) && tr.t[d] == old(tr.t)[d].(children := tr.t[d].children)
      invariant fresh(tr.t.Keys - old(tr.t.Keys))
    {
      ghost var t0 := tr.t;
      var f := entries[i];
      AddFixture(tr, at, d, f.name, f.kind, f.ops, f.auxdata, base, allowed);
      assert KeptIn(t0, tr.t, d);
      FurnishedGrows(t0, tr.t, d, entries, i);
      i := i + 1;
    }
    assert entries[..i] == entries;
  }

  /** A browse directory created and filled, not yet in its place. */
  method MakeBrowseDir(tr: EntityTree, ghost at: Places, uri: Uri, entries: seq<Entry>, ghost allowed: set<Ops>)
    returns (d: Entity)
    requires Good(tr, at) && Distinct(entries) && AllFixtures(entries, allowed)
    modifies tr
    ensures Good(tr, at) && Nursery(tr.t, d, allowed) && Grown(old(tr.t), tr.t, {})
    ensures fresh(d) && d !in old(tr.t) && d != tr.root
    ensures Furnished(tr.t, d, entries) && UriDir(tr.t[d]) && tr.t[d].auxdata == uri
    ensures fresh(tr.t.Keys - old(tr.t.Keys))
  {
    ghost var base := tr.t;
    d := tr.Create(uri, Dir, NoOps, uri);
    BrowseDirCreated(base, tr.root, at, d, uri, allowed);
    assert fresh(tr.t.Keys - base.Keys);
    FillBrowseDir(tr, at, d, entries, base, allowed);
    assert fresh(tr.t.Keys - base.Keys);
  }

  /** The last statement of a creator. */
  lemma BrowseDirMemoized(base: Tree, t: Tree, root: Entity, at: Places, place: Entity, d: Entity, uri: string,
                          entries: seq<Entry>, allowed: set<Ops>)
    requires Inv(base, root, at) && Inv(t, root, at) && Grown(base, t, {}) && d !in base
    requires Nursery(t, d, allowed) && UriDir(t[d]) && Housed(at, place, allowed) && t[d].auxdata == uri
    requires Equipped(t, at, place, d)
    requires place in base && SanitizeName(uri) !in base[place].children
    requires Furnished(t, d, entries)
    ensures place in t && CanAttach(t, root, place, d)
    ensures Inv(Attach(t, place, d), root, at)
    ensures Memoized(base, Attach(t, place, d), place, uri, d)
    ensures Furnished(Attach(t, place, d), d, entries)
  {
    BrowseDirJoins(base, t, root, at, place, d, allowed);
    assert SameIn(base, t, place) && NodeOk(base, root, place);
    forall i | 0 <= i < |entries|
      ensures HasEntry(Attach(t, place, d), d, entries[i])
    {
      assert HasEntry(t, d, entries[i]);
    }
  }

  ghost const IN_TRACKS: set<Ops> := {Attribute, Wav, TrackArtists}
  ghost const IN_ARTISTS: set<Ops> := {Attribute, ArtistAlbums, ArtistPortraits}
  ghost const IN_ALBUMS: set<Ops> := {Attribute}

  lemma EntriesDistinct(uri: string)
    ensures Distinct(TrackEntries(uri))
    ensures Distinct(ArtistEntries())
    ensures Distinct(AlbumEntries())
  {
    var e := TrackEntries(uri);
    assert e[0].name[0] == 'n' && ArtistEntries()[0].name[0] == 'n';
  }

  lemma TrackEntriesFit(uri: string)
    ensures AllFixtures(TrackEntries(uri), IN_TRACKS)
  {
    forall i | 0 <= i < |TrackEntries(uri)|
      ensures Fixture(TrackEntries(uri)[i].kind, TrackEntries(uri)[i].ops, TrackEntries(uri)[i].name)
    {
      PlainName(TrackEntries(uri)[i].name);
    }
  }

  lemma OtherEntriesFit()
    ensures AllFixtures(ArtistEntries(), IN_ARTISTS)
    ensures AllFixtures(AlbumEntries(), IN_ALBUMS)
  {
    forall i | 0 <= i < |ArtistEntries()|
      ensures Fixture(ArtistEntries()[i].kind, ArtistEntries()[i].ops, ArtistEntries()[i].name)
    {
      PlainName(ArtistEntries()[i].name);
    }
    PlainName("name");
    PlainName("cover.jpg");
  }

  /** Whether d shows this under the name. */
  ghost predicate Keeps(t: Tree, d: Entity, name: string, kind: Kind, ops: Ops, auxdata: string) {
    && d in t && name in t[d].children && t[d].children[name] in t
    && var e := t[t[d].children[name]];
    && e.kind == kind && e.ops == ops && e.auxdata == auxdata && e.name == Some(name) && e.parent == d
    && e.children == map[]
  }

  lemma EntryHeld(t: Tree, d: Entity, entries: seq<Entry>, i: nat)
    requires Furnished(t, d, entries) && i < |entries|
    ensures var f := entries[i]; Keeps(t, d, f.name, f.kind, f.ops, f.auxdata)
  {
    assert HasEntry(t, d, entries[i]);
  }

  const TRACK_ATTRIBUTES: seq<string> :=
    ["name", "duration", "popularity", "index", "disc", "starred", "local", "autolinked", "offlinestatus"]

  /** A new browse directory of a track: its sound file, which knows the track; the directory
      whose readdir lists its artists; nine attributes; and nothing else. */
  lemma TrackDirHolds(t: Tree, d: Entity, uri: string)
    requires Furnished(t, d, TrackEntries(uri))
    ensures Keeps(t, d, "track.wav", File, Wav, uri) && Keeps(t, d, "artists", Dir, TrackArtists, "")
    ensures forall i :: 0 <= i < |TRACK_ATTRIBUTES| ==> Keeps(t, d, TRACK_ATTRIBUTES[i], File, Attribute, "")
    ensures |t[d].children.Keys| == 11
  {
    EntryHeld(t, d, TrackEntries(uri), 1);
    EntryHeld(t, d, TrackEntries(uri), 10);
    forall i | 0 <= i < |TRACK_ATTRIBUTES|
      ensures Keeps(t, d, TRACK_ATTRIBUTES[i], File, Attribute, "")
    {
      TrackAttribute(t, d, TrackEntries(uri), uri, i);
    }
    NamesCount(t, d, TrackEntries(uri), uri);
  }

  lemma TrackAttribute(t: Tree, d: Entity, entries: seq<Entry>, uri: string, i: nat)
    requires Furnished(t, d, entries) && entries == TrackEntries(uri) && i < |TRACK_ATTRIBUTES|
    ensures Keeps(t, d, TRACK_ATTRIBUTES[i], File, Attribute, "")
  {
    var j := if i == 0 then 0 else i + 1;
    EntryHeld(t, d, entries, j);
    assert entries[j] == Entry(TRACK_ATTRIBUTES[i], File, Attribute, "");
  }

  lemma NamesCount(t: Tree, d: Entity, entries: seq<Entry>, uri: string)
    requires Furnished(t, d, entries)
    requires entries == TrackEntries(uri) || entries == ArtistEntries() || entries == AlbumEntries()
    ensures |t[d].children.Keys| == |entries|
  {
    EntriesDistinct(uri);
    AsManyNames(entries);
  }

  lemma {:induction false} AsManyNames(entries: seq<Entry>)
    requires Distinct(entries)
    ensures |set i | 0 <= i < |entries| :: entries[i].name| == |entries|
  {
    var names := set i | 0 <= i < |entries| :: entries[i].name;
    if entries == [] {
    } else {
      var n := |entries| - 1;
      var fewer := set i | 0 <= i < |entries[..n]| :: entries[..n][i].name;
      AsManyNames(entries[..n]);
      assert forall i :: 0 <= i < n ==> entries[..n][i] == entries[i];
      assert names == fewer + {entries[n].name};
      assert entries[n].name !in fewer;
    }
  }

  /** A new browse directory of an artist: the two directories whose readdirs list the albums and
      the portraits, two attributes, and nothing else. */
  lemma ArtistDirHolds(t: Tree, d: Entity)
    requires Furnished(t, d, ArtistEntries())
    ensures Keeps(t, d, "albums", Dir, ArtistAlbums, "") && Keeps(t, d, "portraits", Dir, ArtistPortraits, "")
    ensures Keeps(t, d, "name", File, Attribute, "") && Keeps(t, d, "biography", File, Attribute, "")
    ensures |t[d].children.Keys| == 4
  {
    var entries := ArtistEntries();
    forall i | 0 <= i < |entries|
      ensures Keeps(t, d, entries[i].name, entries[i].kind, entries[i].ops, entries[i].auxdata)
    {
      EntryHeld(t, d, entries, i);
    }
    assert entries[0].name == "name" && entries[1].name == "biography";
    assert entries[2].name == "albums" && entries[3].name == "portraits";
    NamesCount(t, d, entries, "");
  }

  /** And one of an album: two attributes. */
  lemma AlbumDirHolds(t: Tree, d: Entity)
    requires Furnished(t, d, AlbumEntries())
    ensures Keeps(t, d, "name", File, Attribute, "") && Keeps(t, d, "cover.jpg", File, Attribute, "")
    ensures |t[d].children.Keys| == 2
  {
    EntryHeld(t, d, AlbumEntries(), 0);
    EntryHeld(t, d, AlbumEntries(), 1);
    NamesCount(t, d, AlbumEntries(), "");
  }

  /** A furnished track directory has its sound file and the list of its artists. */
  lemma FurnishedTrackDir(t: Tree, d: Entity)
    requires d in t && Furnished(t, d, TrackEntries(t[d].auxdata))
    ensures TrackDir(t, t[d])
  {
    EntryHeld(t, d, TrackEntries(t[d].auxdata), 1);
    EntryHeld(t, d, TrackEntries(t[d].auxdata), 10);
  }

  lemma FurnishedArtistDir(t: Tree, d: Entity)
    requires d in t && Furnished(t, d, ArtistEntries())
    ensures ArtistDir(t, t[d])
  {
    EntryHeld(t, d, ArtistEntries(), 2);
    EntryHeld(t, d, ArtistEntries(), 3);
  }

  /** A browse directory that only has to be put into its place. */
  ghost predicate Made(tr: EntityTree, at: Places, d: Entity, uri: string, entries: seq<Entry>, allowed: set<Ops>)
    reads tr, tr.t.Keys
  {
    && Good(tr, at) && Nursery(tr.t, d, allowed) && d != tr.root
    && Furnished(tr.t, d, entries) && UriDir(tr.t[d]) && tr.t[d].auxdata == uri
  }

  /** What every creator starts with: the place found by its path, and in it the directory for
      the URI. */
  method LookUp(tr: EntityTree, ghost at: Places, ghost expected: Entity, ghost part: string, path: string, uri: Uri)
    returns (place: Entity, known: Entity?)
    requires Good(tr, at) && BrowsePlace(at, expected, part) && path == "/browse/" + part
    ensures place == expected && place in tr.t
    ensures (part != "tracks" ==> place != at.tracks) && (part != "artists" ==> place != at.artists)
    ensures known == if SanitizeName(uri) in tr.t[place].children then tr.t[place].children[SanitizeName(uri)] else null
  {
    FindPlace(tr.t, tr.root, at, expected, part, path);
    AllLocated(tr.t, tr.root, at);
    place := tr.FindPath(tr.root, path);
    assert tr.Mirrors(place);
    known := tr.GetChild(place, uri);
  }

  /** And what it ends with: the new directory put into its place. */
  method Install(tr: EntityTree, ghost at: Places, place: Entity, d: Entity, ghost uri: Uri, ghost entries: seq<Entry>,
                 ghost allowed: set<Ops>, ghost base: Tree)
    requires Made(tr, at, d, uri, entries, allowed) && Inv(base, tr.root, at) && Grown(base, tr.t, {})
    requires d !in base && place in base && Housed(at, place, allowed)
    requires Equipped(tr.t, at, place, d)
    requires SanitizeName(uri) !in base[place].children
    modifies tr, place`children, d`parent
    ensures Good(tr, at) && tr.t.Keys == old(tr.t.Keys)
    ensures Memoized(base, tr.t, place, uri, d) && Furnished(tr.t, d, entries)
  {
    BrowseDirMemoized(base, tr.t, tr.root, at, place, d, uri, entries, allowed);
    tr.AddChild(place, d);
  }

  /** create_track_browse_dir */
  method CreateTrackBrowseDir(tr: EntityTree, ghost at: Places, track: Track) returns (d: Entity)
    requires Good(tr, at)
    modifies tr, at.tracks`children
    ensures Good(tr, at) && fresh(tr.t.Keys - old(tr.t.Keys))
    ensures Memoized(old(tr.t), tr.t, at.tracks, track.uri, d)
    ensures tr.t != old(tr.t) ==> Furnished(tr.t, d, TrackEntries(track.uri))
  {
    ghost var base := tr.t;
    var place, known := LookUp(tr, at, at.tracks, "tracks", "/browse/tracks", track.uri);
    if known != null {
      return known;
    }
    d := MakeTrackDir(tr, at, track);
    assert fresh(tr.t.Keys - base.Keys);
    Install(tr, at, place, d, track.uri, TrackEntries(track.uri), IN_TRACKS, base);
  }

  method MakeTrackDir(tr: EntityTree, ghost at: Places, track: Track) returns (d: Entity)
    requires Good(tr, at)
    modifies tr
    ensures Made(tr, at, d, track.uri, TrackEntries(track.uri), IN_TRACKS) && Grown(old(tr.t), tr.t, {})
    ensures TrackDir(tr.t, tr.t[d])
    ensures fresh(d) && d !in old(tr.t) && fresh(tr.t.Keys - old(tr.t.Keys))
  {
    EntriesDistinct(track.uri);
    TrackEntriesFit(track.uri);
    d := MakeBrowseDir(tr, at, track.uri, TrackEntries(track.uri), IN_TRACKS);
    FurnishedTrackDir(tr.t, d);
  }

  /** create_artist_browse_dir */
  method CreateArtistBrowseDir(tr: EntityTree, ghost at: Places, artist: Artist) returns (d: Entity)
    requires Good(tr, at)
    modifies tr, at.artists`children
    ensures Good(tr, at) && fresh(tr.t.Keys - old(tr.t.Keys))
    ensures Memoized(old(tr.t), tr.t, at.artists, artist.uri, d)
    ensures tr.t != old(tr.t) ==> Furnished(tr.t, d, ArtistEntries())
  {
    ghost var base := tr.t;
    var place, known := LookUp(tr, at, at.artists, "artists", "/browse/artists", artist.uri);
    if known != null {
      return known;
    }
    d := MakeArtistDir(tr, at, artist);
    assert fresh(tr.t.Keys - base.Keys);
    Install(tr, at, place, d, artist.uri, ArtistEntries(), IN_ARTISTS, base);
  }

  method MakeArtistDir(tr: EntityTree, ghost at: Places, artist: Artist) returns (d: Entity)
    requires Good(tr, at)
    modifies tr
    ensures Made(tr, at, d, artist.uri, ArtistEntries(), IN_ARTISTS) && Grown(old(tr.t), tr.t, {})
    ensures ArtistDir(tr.t, tr.t[d])
    ensures fresh(d) && d !in old(tr.t) && fresh(tr.t.Keys - old(tr.t.Keys))
  {
    EntriesDistinct(artist.uri);
    OtherEntriesFit();
    d := MakeBrowseDir(tr, at, artist.uri, ArtistEntries(), IN_ARTISTS);
    FurnishedArtistDir(tr.t, d);
  }

  /** create_album_browse_dir */
  method CreateAlbumBrowseDir(tr: EntityTree, ghost at: Places, album: Album) returns (d: Entity)
    requires Good(tr, at)
    modifies tr, at.albums`children
    ensures Good(tr, at) && fresh(tr.t.Keys - old(tr.t.Keys))
    ensures Memoized(old(tr.t), tr.t, at.albums, album.uri, d)
    ensures tr.t != old(tr.t) ==> Furnished(tr.t, d, AlbumEntries())
  {
    ghost var base := tr.t;
    var place, known := LookUp(tr, at, at.albums, "albums", "/browse/albums", album.uri);
    if known != null {
      return known;
    }
    d := MakeAlbumDir(tr, at, album);
    assert fresh(tr.t.Keys - base.Keys);
    Install(tr, at, place, d, album.uri, AlbumEntries(), IN_ALBUMS, base);
  }

  method MakeAlbumDir(tr: EntityTree, ghost at: Places, album: Album) returns (d: Entity)
    requires Good(tr, at)
    modifies tr
    ensures Made(tr, at, d, album.uri, AlbumEntries(), IN_ALBUMS) && Grown(old(tr.t), tr.t, {})
    ensures fresh(d) && d !in old(tr.t) && fresh(tr.t.Keys - old(tr.t.Keys))
  {
    EntriesDistinct(album.uri);
    OtherEntriesFit();
    d := MakeBrowseDir(tr, at, album.uri, AlbumEntries(), IN_ALBUMS);
  }
}
