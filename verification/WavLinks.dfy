/** The directories of sound files: a playlist under /playlists/music and the results of a
    search. Their links lead to the track.wav of a track's browse directory. */
module WavLinks {
  import opened CStrings
  import opened Names
  import opened Paths
  import opened Entities
  import opened Growth
  import opened EntityTrees
  import opened Places
  import opened Sites
  import opened InitialTrees
  import opened BrowseDirs
  import opened LinkMaking
  import opened Readdirs

  ghost predicate MakesWavLinks(ops: Ops) {
    ops.MusicPlaylist? || ops.SearchResults?
  }

  /** find_path(browse directory, "track.wav") */
  lemma FindWav(t: Tree, root: Entity, at: Places, uri: string, d: Entity)
    requires Inv(t, root, at) && DirOf(t, at.tracks, uri) == d
    ensures d in t && WavOf(t, at, uri) != null && WavOf(t, at, uri) in t
    ensures FindOf(t, d, "track.wav") == WavOf(t, at, uri)
    ensures t[WavOf(t, at, uri)].parent == d && t[d].parent == at.tracks
    ensures t[WavOf(t, at, uri)].name == Some("track.wav")
  {
    ChildFacts(t, root, at.tracks, SanitizeName(uri));
    assert PlaceOk(t, at, d);
    ChildFacts(t, root, d, "track.wav");
    SplitWord("track.wav", "");
    NonEmptyOne("track.wav");
    assert ["track.wav"][1..] == [];
  }

  lemma NonEmptyOne(c: string)
    requires c != ""
    ensures Pieces([c]) == [c]
  {
    assert [c][1..] == [];
    assert NonEmpty([c]) == [c] + [];
  }

  /** What one call of create_wav_track_link_in_directory does. */
  ghost predicate WavLinked(t0: Tree, t1: Tree, at: Places, dir: Entity, k: string, uri: string) {
    && dir in t0 && dir in t1
    && if k in t0[dir].children then t1 == t0
       else
         && Grown(t0, t1, {dir, at.tracks}) && WavOf(t1, at, uri) != null
         && (k == "" ==> t1[dir].children == t0[dir].children)
         && (k != "" ==>
               && Shows(t1, dir, k, WavOf(t1, at, uri), uri)
               && t1[dir].children == t0[dir].children[k := t1[dir].children[k]])
  }

  /** The link is still as it was when the browse directory has been made or found. */
  lemma StillNewLink(t0: Tree, t1: Tree, t2: Tree, root: Entity, at: Places, dir: Entity, l: Entity, uri: string,
                     d: Entity)
    requires dir in t0 && dir != at.tracks && Grown(t0, t1, {}) && NewLink(t1, root, l)
    requires at.tracks in t1 && t1[at.tracks].kind.Dir?
    requires Memoized(t1, t2, at.tracks, uri, d)
    ensures dir in t1 && dir in t2 && t1[dir] == t0[dir] && t2[dir] == t0[dir]
    ensures NewLink(t2, root, l) && t2[l].name == t1[l].name
    ensures Grown(t0, t2, {at.tracks})
  {
    assert SameIn(t0, t1, dir);
    GrownMore(t0, t1, {}, {at.tracks});
    if t2 != t1 {
      assert SameIn(t1, t2, dir) && SameIn(t1, t2, l);
      GrownTransitive(t0, t1, t2, {at.tracks});
    }
  }

  /** The link joined. */
  lemma WavLinkDone(t0: Tree, t2: Tree, root: Entity, at: Places, dir: Entity, l: Entity, text: string, g: Entity,
                    uri: string)
    requires dir in t0 && dir != at.tracks && l !in t0 && dir in t2 && t2[dir] == t0[dir]
    requires Grown(t0, t2, {at.tracks}) && NewLink(t2, root, l) && t2[dir].kind.Dir?
    requires t2[l].name.value !in t0[dir].children
    requires WavOf(t2, at, uri) == g
    ensures WavLinked(t0, LinkedTree(t2, dir, l, text, g, uri), at, dir, t2[l].name.value, uri)
  {
    var t3 := LinkedTree(t2, dir, l, text, g, uri);
    WavLinkGrows(t0, t2, root, at, dir, l, text, g, uri);
    WavOfStays(t2, at, dir, l, text, g, uri);
  }

  lemma WavLinkGrows(t0: Tree, t2: Tree, root: Entity, at: Places, dir: Entity, l: Entity, text: string, g: Entity,
                     uri: string)
    requires dir in t0 && l !in t0 && dir in t2 && t2[dir] == t0[dir]
    requires Grown(t0, t2, {at.tracks}) && NewLink(t2, root, l)
    requires t2[l].name.value !in t0[dir].children
    ensures Grown(t0, LinkedTree(t2, dir, l, text, g, uri), {dir, at.tracks})
  {
    var t3 := LinkedTree(t2, dir, l, text, g, uri);
    forall x | x in t0
      ensures KeptIn(t0, t3, x) && (x !in {dir, at.tracks} ==> SameIn(t0, t3, x))
    {
      assert KeptIn(t0, t2, x) && (x != at.tracks ==> SameIn(t0, t2, x));
    }
  }

  lemma WavOfStays(t: Tree, at: Places, dir: Entity, l: Entity, text: string, g: Entity, uri: string)
    requires dir in t && l in t && t[l].kind.Link? && t[l].name.Some? && dir != at.tracks && dir != l
    requires t[l].name.value !in t[dir].children
    requires WavOf(t, at, uri) == g
    ensures WavOf(LinkedTree(t, dir, l, text, g, uri), at, uri) == g
  {
  }

  lemma WavIsGoal(t: Tree, root: Entity, at: Places, dir: Entity, l: Entity, uri: string, d: Entity)
    requires Inv(t, root, at) && dir in t && MakesWavLinks(t[dir].ops) && NewLink(t, root, l)
    requires DirOf(t, at.tracks, uri) == d
    ensures WavOf(t, at, uri) != null && GoalFor(t, at, dir, uri) == WavOf(t, at, uri)
    ensures d in t && FindOf(t, d, "track.wav") == WavOf(t, at, uri)
    ensures t[dir].kind.Dir?
  {
    FindWav(t, root, at, uri, d);
    assert PlaceOk(t, at, dir);
  }

  /** create_wav_track_link_in_directory */
  method CreateWavTrackLink(tr: EntityTree, ghost at: Places, dir: Entity, linkname: string, track: Track)
    requires Good(tr, at) && dir in tr.t && MakesWavLinks(tr.t[dir].ops)
    modifies tr, dir`children, at.tracks`children
    ensures Good(tr, at) && fresh(tr.t.Keys - old(tr.t.Keys))
    ensures WavLinked(old(tr.t), tr.t, at, dir, SanitizeName(linkname), track.uri)
  {
    assert tr.Mirrors(dir);
    var taken := tr.HasChild(dir, linkname);
    if taken {
      return;
    }
    ghost var t0 := tr.t;
    var link := tr.Create(linkname, Link, NoOps, "");
    ghost var t1 := tr.t;
    LinkCreated(t0, tr.root, at, link, linkname);
    MakeWavLink(tr, at, dir, link, track, t0);
  }

  lemma LinkCreated(t: Tree, root: Entity, at: Places, l: Entity, name: string)
    requires Inv(t, root, at) && l !in t
    ensures var t1 := t[l := NewNode(Some(SanitizeName(name)), Link, NoOps, SanitizeName(name), "")];
      Inv(t1, root, at) && NewLink(t1, root, l)
  {
    SanitizeNameSpec(name);
    RootPath(t, root);
    AddedKeepsInv(t, root, at, l, NewNode(Some(SanitizeName(name)), Link, NoOps, SanitizeName(name), ""));
  }

  /** Its statements after the link has been created. */
  method MakeWavLink(tr: EntityTree, ghost at: Places, dir: Entity, link: Entity, track: Track, ghost t0: Tree)
    requires Good(tr, at) && Grown(t0, tr.t, {}) && link !in t0 && NewLink(tr.t, tr.root, link)
    requires dir in t0 && MakesWavLinks(t0[dir].ops) && tr.t[link].name.value !in t0[dir].children
    modifies tr, dir`children, at.tracks`children, link
    ensures Good(tr, at) && fresh(tr.t.Keys - old(tr.t.Keys))
    ensures WavLinked(t0, tr.t, at, dir, old(tr.t)[link].name.value, track.uri)
  {
    ghost var t1 := tr.t;
    AllLocated(t1, tr.root, at);
    assert SameIn(t0, t1, dir);
    var d := CreateTrackBrowseDir(tr, at, track);
    assert fresh(tr.t.Keys - t1.Keys);
    StillNewLink(t0, t1, tr.t, tr.root, at, dir, link, track.uri, d);
    LinkToWav(tr, at, dir, link, d, track.uri, t0);
  }

  /** find_path to the sound file, and then the link to it. */
  method LinkToWav(tr: EntityTree, ghost at: Places, dir: Entity, link: Entity, d: Entity, ghost uri: string,
                   ghost t0: Tree)
    requires Good(tr, at) && Grown(t0, tr.t, {at.tracks}) && link !in t0 && NewLink(tr.t, tr.root, link)
    requires dir in t0 && dir in tr.t && tr.t[dir] == t0[dir] && dir != at.tracks
    requires MakesWavLinks(t0[dir].ops) && tr.t[link].name.value !in t0[dir].children
    requires DirOf(tr.t, at.tracks, uri) == d
    modifies tr, dir`children, link
    ensures Good(tr, at) && tr.t.Keys == old(tr.t.Keys)
    ensures WavLinked(t0, tr.t, at, dir, old(tr.t)[link].name.value, uri)
  {
    ghost var t2 := tr.t;
    WavIsGoal(t2, tr.root, at, dir, link, uri, d);
    var wav := tr.FindPath(d, "track.wav");
    var text := LinkTo(tr, at, dir, link, wav, uri);
    LinkedKeys(t2, dir, link, text, wav, uri);
    WavLinkDone(t0, t2, tr.root, at, dir, link, text, wav, uri);
  }
}
