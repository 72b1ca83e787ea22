/** The directories of sound files as wholes: a playlist's with its numbered links and its
    playlist file, and a search's. */
module MusicDirs {
  import opened Names
  import opened Numbers
  import opened Entities
  import opened Growth
  import opened EntityTrees
  import opened Places
  import opened InitialTrees
  import opened BrowseDirs
  import opened LinkMaking
  import opened Readdirs
  import opened WavLinks
  import opened Playlists

  /** Item i, the URI of a track and the name of its link, leads to the sound file of that
      track, if its name is not empty, not taken before and not used by an earlier item. */
  ghost predicate WavShown(t0: Tree, t: Tree, at: Places, dir: Entity, items: seq<Media>, i: nat)
    requires i < |items|
  {
    var k := SanitizeName(items[i].name);
    dir in t0 && k != "" && k !in t0[dir].children && IsFirst(items, i) ==>
      WavOf(t, at, items[i].uri) != null && Shows(t, dir, k, WavOf(t, at, items[i].uri), items[i].uri)
  }

  ghost predicate NameTaken(t0: Tree, dir: Entity, item: Media) {
    dir in t0 && SanitizeName(item.name) in t0[dir].children
  }

  ghost predicate AllTaken(t0: Tree, dir: Entity, items: seq<Media>) {
    forall i :: 0 <= i < |items| ==> NameTaken(t0, dir, items[i])
  }

  /** What showing a list of sound files does to the tree. */
  ghost predicate WavsListed(t0: Tree, t: Tree, at: Places, dir: Entity, items: seq<Media>) {
    && dir in t0 && dir in t && Grown(t0, t, {dir, at.tracks})
    && t[dir].children.Keys == t0[dir].children.Keys + ShownNames(items)
    && (forall i :: 0 <= i < |items| ==> WavShown(t0, t, at, dir, items, i))
    && (AllTaken(t0, dir, items) ==> t == t0)
  }

  lemma WavStaysShown(t0: Tree, t: Tree, t1: Tree, at: Places, dir: Entity, items: seq<Media>, n: nat, i: nat)
    requires Extends(t, t1) && i < n < |items| && WavShown(t0, t, at, dir, items[..n], i)
    ensures WavShown(t0, t1, at, dir, items[..n + 1], i)
  {
    var k := SanitizeName(items[i].name);
    assert IsFirst(items[..n + 1], i) ==> IsFirst(items[..n], i);
    if dir in t0 && k != "" && k !in t0[dir].children && IsFirst(items[..n], i) {
      WavOfGrows(t, t1, at, items[i].uri);
      ShowsGrows(t, t1, dir, k, WavOf(t, at, items[i].uri), items[i].uri);
    }
  }

  lemma WavTurnGrows(t0: Tree, t: Tree, t1: Tree, at: Places, dir: Entity, item: Media)
    requires Grown(t0, t, {dir, at.tracks}) && WavLinked(t, t1, at, dir, SanitizeName(item.name), item.uri)
    ensures Grown(t0, t1, {dir, at.tracks}) && Extends(t, t1)
    ensures var k := SanitizeName(item.name);
      t1[dir].children.Keys == t[dir].children.Keys + (if k == "" then {} else {k})
  {
    if t1 != t {
      GrownTransitive(t0, t, t1, {dir, at.tracks});
    }
  }

  lemma WavTurnShows(t0: Tree, t: Tree, t1: Tree, at: Places, dir: Entity, items: seq<Media>, n: nat)
    requires n < |items| && WavsListed(t0, t, at, dir, items[..n])
    requires WavLinked(t, t1, at, dir, SanitizeName(items[n].name), items[n].uri)
    ensures WavShown(t0, t1, at, dir, items[..n + 1], n)
  {
    var k := SanitizeName(items[n].name);
    if k !in t0[dir].children && IsFirst(items[..n + 1], n) {
      NotShownBefore(items, n);
    }
  }

  lemma WavTurnIdle(t0: Tree, t: Tree, t1: Tree, at: Places, dir: Entity, items: seq<Media>, n: nat)
    requires n < |items| && AllTaken(t0, dir, items[..n + 1])
    requires AllTaken(t0, dir, items[..n]) ==> t == t0
    requires WavLinked(t, t1, at, dir, SanitizeName(items[n].name), items[n].uri)
    ensures t1 == t0
  {
    var fewer, more := items[..n], items[..n + 1];
    forall i | 0 <= i < |fewer|
      ensures NameTaken(t0, dir, fewer[i])
    {
      assert NameTaken(t0, dir, more[i]);
    }
    assert NameTaken(t0, dir, more[n]);
  }

  lemma WavTurnKeepsShown(t0: Tree, t: Tree, t1: Tree, at: Places, dir: Entity, items: seq<Media>, n: nat)
    requires n < |items| && WavsListed(t0, t, at, dir, items[..n]) && Extends(t, t1)
    requires WavShown(t0, t1, at, dir, items[..n + 1], n)
    ensures var more := items[..n + 1];
      forall i :: 0 <= i < |more| ==> WavShown(t0, t1, at, dir, more, i)
  {
    var more := items[..n + 1];
    forall i | 0 <= i < |more|
      ensures WavShown(t0, t1, at, dir, more, i)
    {
      if i < n {
        WavStaysShown(t0, t, t1, at, dir, items, n, i);
      }
    }
  }

  /** One turn of the loop. */
  lemma WavsListedStep(t0: Tree, t: Tree, t1: Tree, at: Places, dir: Entity, items: seq<Media>, n: nat)
    requires n < |items| && WavsListed(t0, t, at, dir, items[..n])
    requires WavLinked(t, t1, at, dir, SanitizeName(items[n].name), items[n].uri)
    ensures WavsListed(t0, t1, at, dir, items[..n + 1])
  {
    WavTurnGrows(t0, t, t1, at, dir, items[n]);
    assert items[..n + 1][..n] == items[..n];
    WavTurnShows(t0, t, t1, at, dir, items, n);
    WavTurnKeepsShown(t0, t, t1, at, dir, items, n);
    if AllTaken(t0, dir, items[..n + 1]) {
      WavTurnIdle(t0, t, t1, at, dir, items, n);
    }
  }

  /** The loop over the tracks that both callbacks have. */
  method ShowWavs(tr: EntityTree, ghost at: Places, dir: Entity, items: seq<Media>)
    requires Good(tr, at) && dir in tr.t && MakesWavLinks(tr.t[dir].ops)
    modifies tr, dir`children, at.tracks`children
    ensures Good(tr, at) && fresh(tr.t.Keys - old(tr.t.Keys))
    ensures WavsListed(old(tr.t), tr.t, at, dir, items)
  {
    ghost var t0 := tr.t;
    var i := 0;
    while i < |items|
      invariant i <= |items|
      invariant Good(tr, at) && fresh(tr.t.Keys - old(tr.t.Keys))
      invariant WavsListed(t0, tr.t, at, dir, items[..i])
    {
      ghost var t := tr.t;
      assert KeptIn(t0, t, dir);
      CreateWavTrackLink(tr, at, dir, items[i].name, items[i]);
      assert fresh(tr.t.Keys - t0.Keys);
      WavsListedStep(t0, t, tr.t, at, dir, items, i);
      i := i + 1;
    }
    assert items[..i] == items;
  }

  // ---------------------------------------------------------------- a playlist

  /** "%.2d - %s.wav" */
  function NumberedName(i: nat, title: string): string {
    Padded(i) + (" - " + title) + ".wav"
  }

  /** The links of a playlist: the tracks under their numbered names. */
  function Numbered(tracks: seq<Track>): (items: seq<Media>)
    ensures |items| == |tracks|
    ensures forall i :: 0 <= i < |tracks| ==>
              items[i].uri == tracks[i].uri && items[i].name == NumberedName(i, tracks[i].name)
  {
    seq(|tracks|, i requires 0 <= i < |tracks| => Media(tracks[i].uri, NumberedName(i, tracks[i].name)))
  }

  /** The number in front survives sanitizing, whatever the title is. */
  lemma NumberedClean(i: nat, title: string)
    ensures SanitizeName(NumberedName(i, title))
         == Padded(i) + (" " + Slashless("- " + title, SLASH_REPLACEMENT) + ".wav")
  {
    var m := " - " + title;
    SanitizeKeepsEnds(Padded(i), m, ".wav");
    assert m[1..] == "- " + title;
    assert Slashless(m, SLASH_REPLACEMENT) == " " + Slashless("- " + title, SLASH_REPLACEMENT);
  }

  /** Hence two links of a playlist never have the same name, and none has the name of the
      playlist file. */
  lemma NumberedDistinct(i: nat, j: nat, x: string, y: string)
    ensures SanitizeName(NumberedName(i, x)) == SanitizeName(NumberedName(j, y)) ==> i == j
    ensures SanitizeName(NumberedName(i, x)) != "playlist.xspf" && SanitizeName(NumberedName(i, x)) != ""
  {
    NumberedClean(i, x);
    NumberedClean(j, y);
    var s := " " + Slashless("- " + x, SLASH_REPLACEMENT) + ".wav";
    var u := " " + Slashless("- " + y, SLASH_REPLACEMENT) + ".wav";
    assert (Padded(i) + s)[0] == Padded(i)[0];
    if Padded(i) + s == Padded(j) + u {
      PaddedPrefix(i, j, s, u);
    }
  }

  lemma NumberedAreFirst(tracks: seq<Track>, n: nat, i: nat)
    requires i < n <= |tracks|
    ensures IsFirst(Numbered(tracks)[..n], i)
  {
    forall j | 0 <= j < i
      ensures SanitizeName(Numbered(tracks)[j].name) != SanitizeName(Numbered(tracks)[i].name)
    {
      NumberedDistinct(j, i, tracks[j].name, tracks[i].name);
    }
  }

  /** As many names as tracks. */
  lemma {:induction false} NumberedCount(tracks: seq<Track>, n: nat)
    requires n <= |tracks|
    ensures |ShownNames(Numbered(tracks)[..n])| == n
    ensures "playlist.xspf" !in ShownNames(Numbered(tracks)[..n])
  {
    if n == 0 {
    } else {
      NumberedCount(tracks, n - 1);
      NumberedAreFirst(tracks, n, n - 1);
      NumberedDistinct(n - 1, n - 1, tracks[n - 1].name, "");
      OneMoreName(Numbered(tracks), n - 1);
    }
  }

  lemma OneMoreName(items: seq<Media>, n: nat)
    requires n < |items| && IsFirst(items[..n + 1], n) && SanitizeName(items[n].name) != ""
    ensures ShownNames(items[..n + 1]) == ShownNames(items[..n]) + {SanitizeName(items[n].name)}
    ensures |ShownNames(items[..n + 1])| == |ShownNames(items[..n])| + 1
  {
    assert items[..n + 1][..n] == items[..n];
    NotShownBefore(items, n);
  }

  /** What a playlist's directory shows afterwards. */
  ghost predicate PlaylistShown(t0: Tree, t: Tree, at: Places, dir: Entity, tracks: seq<Track>) {
    && dir in t0 && dir in t && Grown(t0, t, {dir, at.tracks})
    && t[dir].children.Keys == t0[dir].children.Keys + ShownNames(Numbered(tracks)) + {"playlist.xspf"}
    && (forall i :: 0 <= i < |tracks| ==> TrackShown(t0, t, at, dir, tracks, i))
    && (AllTaken(t0, dir, Numbered(tracks)) && "playlist.xspf" in t0[dir].children ==> t == t0)
  }

  /** The link for position i leads to the sound file of track i. */
  ghost predicate TrackShown(t0: Tree, t: Tree, at: Places, dir: Entity, tracks: seq<Track>, i: nat)
    requires i < |tracks|
  {
    var k := SanitizeName(NumberedName(i, tracks[i].name));
    dir in t0 && k !in t0[dir].children ==> LeadsToTrack(t, at, dir, tracks, i)
  }

  lemma PlaylistDone(t0: Tree, t: Tree, t1: Tree, at: Places, dir: Entity, tracks: seq<Track>)
    requires WavsListed(t0, t, at, dir, Numbered(tracks))
    requires Ensured(t, t1, dir, "playlist.xspf", File, XspfFile)
    ensures PlaylistShown(t0, t1, at, dir, tracks)
  {
    EnsuredGrows(t, t, t1, dir, "playlist.xspf", File, XspfFile);
    GrownMore(t, t1, {dir}, {dir, at.tracks});
    GrownTransitive(t0, t, t1, {dir, at.tracks});
    forall i | 0 <= i < |tracks|
      ensures TrackShown(t0, t1, at, dir, tracks, i)
    {
      TrackIsShown(t0, t, t1, at, dir, tracks, i);
    }
  }

  lemma TrackIsShown(t0: Tree, t: Tree, t1: Tree, at: Places, dir: Entity, tracks: seq<Track>, i: nat)
    requires WavsListed(t0, t, at, dir, Numbered(tracks)) && Extends(t, t1) && i < |tracks|
    ensures TrackShown(t0, t1, at, dir, tracks, i)
  {
    var items, k := Numbered(tracks), SanitizeName(NumberedName(i, tracks[i].name));
    assert WavShown(t0, t, at, dir, items, i);
    assert items[..|tracks|] == items;
    NumberedAreFirst(tracks, |tracks|, i);
    NumberedDistinct(i, i, tracks[i].name, "");
    if k !in t0[dir].children {
      WavOfGrows(t, t1, at, tracks[i].uri);
      ShowsGrows(t, t1, dir, k, WavOf(t, at, tracks[i].uri), tracks[i].uri);
    }
  }

  lemma XspfName()
    ensures SanitizeName("playlist.xspf") == "playlist.xspf"
  {
    PlainName("playlist.xspf");
    SanitizeNameSpec("playlist.xspf");
  }

  /** playlist_dir_music_readdir, for the tracks libspotify lists. */
  method MusicReaddir(tr: EntityTree, ghost at: Places, dir: Entity, tracks: seq<Track>)
    requires Good(tr, at) && dir in tr.t && tr.t[dir].ops.MusicPlaylist?
    modifies tr, dir`children, at.tracks`children
    ensures Good(tr, at) && fresh(tr.t.Keys - old(tr.t.Keys))
    ensures PlaylistShown(old(tr.t), tr.t, at, dir, tracks)
  {
    ghost var t0 := tr.t;
    ShowWavs(tr, at, dir, Numbered(tracks));
    ghost var t := tr.t;
    assert fresh(t.Keys - t0.Keys);
    assert KeptIn(t0, t, dir) && PlaceOk(t, at, dir);
    EnsureEntity(tr, at, dir, "playlist.xspf", File, XspfFile);
    assert fresh(tr.t.Keys - t0.Keys);
    XspfName();
    PlaylistDone(t0, t, tr.t, at, dir, tracks);
  }

  /** On a fresh directory: exactly one link for each track, even for equal titles or titles
      with slashes, and the playlist file. */
  lemma FreshPlaylist(t0: Tree, t: Tree, at: Places, dir: Entity, tracks: seq<Track>)
    requires PlaylistShown(t0, t, at, dir, tracks) && dir in t0 && t0[dir].children == map[]
    ensures |t[dir].children| == |tracks| + 1
    ensures forall i :: 0 <= i < |tracks| ==> LeadsToTrack(t, at, dir, tracks, i)
  {
    var items := Numbered(tracks);
    NumberedCount(tracks, |tracks|);
    assert items[..|tracks|] == items;
    assert t[dir].children.Keys == ShownNames(items) + {"playlist.xspf"};
    assert |t[dir].children| == |t[dir].children.Keys|;
    forall i | 0 <= i < |tracks|
      ensures LeadsToTrack(t, at, dir, tracks, i)
    {
      assert TrackShown(t0, t, at, dir, tracks, i);
    }
  }

  /** The link under the number and title of track i is for the sound file of track i. */
  ghost predicate LeadsToTrack(t: Tree, at: Places, dir: Entity, tracks: seq<Track>, i: nat)
    requires i < |tracks|
  {
    && WavOf(t, at, tracks[i].uri) != null
    && Shows(t, dir, SanitizeName(NumberedName(i, tracks[i].name)), WavOf(t, at, tracks[i].uri), tracks[i].uri)
  }

  /** Reading an unchanged playlist again changes nothing. */
  lemma PlaylistAgain(t0: Tree, t1: Tree, t2: Tree, at: Places, dir: Entity, tracks: seq<Track>)
    requires PlaylistShown(t0, t1, at, dir, tracks) && PlaylistShown(t1, t2, at, dir, tracks)
    ensures t2 == t1
  {
    var items := Numbered(tracks);
    forall i | 0 <= i < |items|
      ensures NameTaken(t1, dir, items[i])
    {
      NumberedDistinct(i, i, tracks[i].name, "");
      NamesAreShown(items, i);
    }
  }
}
