/** The readdir callbacks that show links: a playlist under /playlists/meta, the artists of a
    track and the albums of an artist. */
module Readdirs {
  import opened Names
  import opened Entities
  import opened Growth
  import opened EntityTrees
  import opened Places
  import opened Links
  import opened Sites
  import opened InitialTrees
  import opened BrowseDirs
  import opened LinkMaking

  /** No earlier item has the same sanitized name. */
  ghost predicate IsFirst(items: seq<Media>, i: nat)
    requires i < |items|
  {
    forall j :: 0 <= j < i ==> SanitizeName(items[j].name) != SanitizeName(items[i].name)
  }

  /** Item i is shown as a link to its own browse directory, if its name is not empty, not
      taken before and not used by an earlier item. */
  ghost predicate ItemShown(t0: Tree, t: Tree, dir: Entity, place: Entity, items: seq<Media>, i: nat)
    requires i < |items|
  {
    var k := SanitizeName(items[i].name);
    && DirOf(t, place, items[i].uri) != null
    && (dir in t0 && k != "" && k !in t0[dir].children && IsFirst(items, i) ==>
          Shows(t, dir, k, DirOf(t, place, items[i].uri), items[i].uri))
  }

  ghost predicate AlreadyThere(t0: Tree, dir: Entity, place: Entity, item: Media) {
    && dir in t0 && SanitizeName(item.name) in t0[dir].children
    && DirOf(t0, place, item.uri) != null
  }

  ghost predicate AllThere(t0: Tree, dir: Entity, place: Entity, items: seq<Media>) {
    forall i :: 0 <= i < |items| ==> AlreadyThere(t0, dir, place, items[i])
  }

  /** The names an item list shows. */
  ghost function ShownNames(items: seq<Media>): set<string> {
    if items == [] then {}
    else
      var k := SanitizeName(items[|items| - 1].name);
      ShownNames(items[..|items| - 1]) + (if k == "" then {} else {k})
  }

  /** What showing a list of items in a directory does to the tree. */
  ghost predicate Listed(t0: Tree, t: Tree, dir: Entity, place: Entity, items: seq<Media>) {
    && dir in t0 && dir in t && Grown(t0, t, {dir, place})
    && t[dir].children.Keys == t0[dir].children.Keys + ShownNames(items)
    && (forall i :: 0 <= i < |items| ==> ItemShown(t0, t, dir, place, items, i))
    && (AllThere(t0, dir, place, items) ==> t == t0)
  }

  lemma ShowsGrows(t0: Tree, t1: Tree, dir: Entity, k: string, goal: Entity, uri: string)
    requires Extends(t0, t1) && Shows(t0, dir, k, goal, uri)
    ensures Shows(t1, dir, k, goal, uri)
  {
    assert KeptIn(t0, t1, dir) && KeptIn(t0, t1, t0[dir].children[k]);
  }

  /** An item stays shown, also as part of a longer list. */
  lemma ItemStaysShown(t0: Tree, t: Tree, t1: Tree, dir: Entity, place: Entity, items: seq<Media>, n: nat, i: nat)
    requires Extends(t, t1) && i < n <= |items| && ItemShown(t0, t, dir, place, items[..n], i)
    ensures n < |items| ==> ItemShown(t0, t1, dir, place, items[..n + 1], i)
  {
    if n < |items| {
      var k := SanitizeName(items[i].name);
      DirOfGrows(t, t1, place, items[i].uri);
      assert IsFirst(items[..n + 1], i) ==> IsFirst(items[..n], i);
      if dir in t0 && k != "" && k !in t0[dir].children && IsFirst(items[..n], i) {
        ShowsGrows(t, t1, dir, k, DirOf(t, place, items[i].uri), items[i].uri);
      }
    }
  }

  /** The steps of one turn: the browse directory made or found, then the link. */
  ghost predicate OneTurn(t: Tree, tm: Tree, t1: Tree, dir: Entity, place: Entity, item: Media) {
    && place in t && dir in t && dir != place
    && Grown(t, tm, {place}) && DirOf(tm, place, item.uri) != null
    && (DirOf(t, place, item.uri) != null ==> tm == t)
    && Linked(tm, t1, dir, SanitizeName(item.name), DirOf(tm, place, item.uri), item.uri)
  }

  lemma TurnGrows(t0: Tree, t: Tree, tm: Tree, t1: Tree, dir: Entity, place: Entity, item: Media)
    requires Grown(t0, t, {dir, place}) && OneTurn(t, tm, t1, dir, place, item)
    ensures Grown(t0, t1, {dir, place}) && Extends(t, t1)
  {
    var k := SanitizeName(item.name);
    GrownMore(t, tm, {place}, {dir, place});
    if k in tm[dir].children {
    } else if k == "" {
      GrownMore(tm, t1, {}, {dir, place});
    } else {
      GrownMore(tm, t1, {dir}, {dir, place});
    }
    if t1 != tm {
      GrownTransitive(t, tm, t1, {dir, place});
    }
    GrownTransitive(t0, t, t1, {dir, place});
  }

  lemma TurnShows(t0: Tree, t: Tree, tm: Tree, t1: Tree, dir: Entity, place: Entity, items: seq<Media>, n: nat)
    requires n < |items| && Listed(t0, t, dir, place, items[..n])
    requires OneTurn(t, tm, t1, dir, place, items[n])
    ensures dir in t1 && t1[dir].children.Keys == t0[dir].children.Keys + ShownNames(items[..n + 1])
    ensures ItemShown(t0, t1, dir, place, items[..n + 1], n)
  {
    var k := SanitizeName(items[n].name);
    assert SameIn(t, tm, dir);
    assert items[..n + 1][..n] == items[..n];
    TurnGrows(t0, t, tm, t1, dir, place, items[n]);
    TurnDir(t, tm, t1, dir, place, items[n]);
    if k !in t0[dir].children && IsFirst(items[..n + 1], n) {
      NotShownBefore(items, n);
    }
  }

  lemma TurnDir(t: Tree, tm: Tree, t1: Tree, dir: Entity, place: Entity, item: Media)
    requires OneTurn(t, tm, t1, dir, place, item)
    ensures DirOf(t1, place, item.uri) == DirOf(tm, place, item.uri)
    ensures dir in t1 && dir in tm && tm[dir] == t[dir]
    ensures var k := SanitizeName(item.name);
      t1[dir].children.Keys == t[dir].children.Keys + (if k == "" then {} else {k})
  {
    assert SameIn(t, tm, dir);
    var k := SanitizeName(item.name);
    if k !in tm[dir].children {
      assert KeptIn(tm, t1, place);
      if k == "" {
        assert SameIn(tm, t1, dir);
      }
    }
  }

  lemma NotShownBefore(items: seq<Media>, n: nat)
    requires n < |items| && IsFirst(items[..n + 1], n)
    ensures SanitizeName(items[n].name) !in ShownNames(items[..n])
  {
    forall i | 0 <= i < n
      ensures SanitizeName(items[i].name) != SanitizeName(items[n].name)
    {
      assert items[..n + 1][i] == items[i];
    }
    NamesComeFromItems(items[..n], SanitizeName(items[n].name));
  }

  lemma {:induction false} NamesComeFromItems(items: seq<Media>, k: string)
    requires forall i :: 0 <= i < |items| ==> SanitizeName(items[i].name) != k
    ensures k !in ShownNames(items)
  {
    if items == [] {
    } else {
      NamesComeFromItems(items[..|items| - 1], k);
    }
  }

  lemma TurnKeepsShown(t0: Tree, t: Tree, t1: Tree, dir: Entity, place: Entity, items: seq<Media>, n: nat)
    requires n < |items| && Listed(t0, t, dir, place, items[..n]) && Extends(t, t1)
    requires ItemShown(t0, t1, dir, place, items[..n + 1], n)
    ensures var more := items[..n + 1];
      forall i :: 0 <= i < |more| ==> ItemShown(t0, t1, dir, place, more, i)
  {
    var more := items[..n + 1];
    forall i | 0 <= i < |more|
      ensures ItemShown(t0, t1, dir, place, more, i)
    {
      if i < n {
        ItemStaysShown(t0, t, t1, dir, place, items, n, i);
      }
    }
  }

  /** A turn for an item that was there before changes nothing. */
  lemma IdleTurn(t0: Tree, t: Tree, tm: Tree, t1: Tree, dir: Entity, place: Entity, items: seq<Media>, n: nat)
    requires n < |items| && AllThere(t0, dir, place, items[..n + 1])
    requires AllThere(t0, dir, place, items[..n]) ==> t == t0
    requires OneTurn(t, tm, t1, dir, place, items[n])
    ensures t1 == t0
  {
    var fewer, more := items[..n], items[..n + 1];
    forall i | 0 <= i < |fewer|
      ensures AlreadyThere(t0, dir, place, fewer[i])
    {
      assert AlreadyThere(t0, dir, place, more[i]);
    }
    assert AlreadyThere(t0, dir, place, more[n]);
  }

  /** One turn of the loop. */
  lemma ListedStep(t0: Tree, t: Tree, tm: Tree, t1: Tree, dir: Entity, place: Entity, items: seq<Media>, n: nat)
    requires n < |items| && Listed(t0, t, dir, place, items[..n])
    requires OneTurn(t, tm, t1, dir, place, items[n])
    ensures Listed(t0, t1, dir, place, items[..n + 1])
  {
    TurnGrows(t0, t, tm, t1, dir, place, items[n]);
    TurnShows(t0, t, tm, t1, dir, place, items, n);
    TurnKeepsShown(t0, t, t1, dir, place, items, n);
    if AllThere(t0, dir, place, items[..n + 1]) {
      IdleTurn(t0, t, tm, t1, dir, place, items, n);
    }
  }

  // ---------------------------------------------------------------- the loops

  /** A browse directory and the link to it: what the body of the loop does. */
  lemma TurnDone(t: Tree, tm: Tree, t1: Tree, dir: Entity, place: Entity, item: Media, d: Entity)
    requires dir in t && dir != place
    requires Memoized(t, tm, place, item.uri, d) && Linked(tm, t1, dir, SanitizeName(item.name), d, item.uri)
    ensures OneTurn(t, tm, t1, dir, place, item)
  {
  }

  /** What a creator returns may be linked to from here. */
  lemma CreatedIsGoal(t: Tree, tm: Tree, root: Entity, at: Places, dir: Entity, place: Entity, uri: string, d: Entity)
    requires Inv(t, root, at) && Inv(tm, root, at) && dir in t && Memoized(t, tm, place, uri, d)
    requires (t[dir].ops.MetaPlaylist? && place == at.tracks) || (t[dir].ops.TrackArtists? && place == at.artists)
          || (t[dir].ops.ArtistAlbums? && place == at.albums)
    ensures dir in tm && dir != place && GoalFor(tm, at, dir, uri) == d
  {
    AllLocated(t, root, at);
    assert SameIn(t, tm, dir);
  }

  /** playlist_dir_meta_readdir, for the tracks libspotify lists. */
  method MetaReaddir(tr: EntityTree, ghost at: Places, dir: Entity, tracks: seq<Track>)
    requires Good(tr, at) && dir in tr.t && tr.t[dir].ops.MetaPlaylist?
    modifies tr, dir`children, at.tracks`children
    ensures Good(tr, at) && fresh(tr.t.Keys - old(tr.t.Keys))
    ensures Listed(old(tr.t), tr.t, dir, at.tracks, tracks)
  {
    ghost var t0 := tr.t;
    var i := 0;
    while i < |tracks|
      invariant i <= |tracks|
      invariant Good(tr, at) && fresh(tr.t.Keys - old(tr.t.Keys))
      invariant Listed(t0, tr.t, dir, at.tracks, tracks[..i])
    {
      ghost var t := tr.t;
      assert KeptIn(t0, t, dir);
      ghost var tm := ShowTrack(tr, at, dir, tracks[i]);
      assert fresh(tr.t.Keys - t0.Keys);
      ListedStep(t0, t, tm, tr.t, dir, at.tracks, tracks, i);
      i := i + 1;
    }
    assert tracks[..i] == tracks;
  }

  /** The body of its loop. */
  method ShowTrack(tr: EntityTree, ghost at: Places, dir: Entity, track: Track) returns (ghost tm: Tree)
    requires Good(tr, at) && dir in tr.t && tr.t[dir].ops.MetaPlaylist?
    modifies tr, dir`children, at.tracks`children
    ensures Good(tr, at) && fresh(tr.t.Keys - old(tr.t.Keys))
    ensures OneTurn(old(tr.t), tm, tr.t, dir, at.tracks, track)
  {
    ghost var t := tr.t;
    var d := CreateTrackBrowseDir(tr, at, track);
    tm := tr.t;
    assert fresh(tm.Keys - t.Keys);
    CreatedIsGoal(t, tm, tr.root, at, dir, at.tracks, track.uri, d);
    EnsureLink(tr, at, dir, track.name, d, track.uri);
    TurnDone(t, tm, tr.t, dir, at.tracks, track, d);
    assert fresh(tr.t.Keys - t.Keys);
  }

  /** artists_readdir, for the artists libspotify lists for the track. */
  method ArtistsReaddir(tr: EntityTree, ghost at: Places, dir: Entity, artists: seq<Artist>)
    requires Good(tr, at) && dir in tr.t && tr.t[dir].ops.TrackArtists?
    modifies tr, dir`children, at.artists`children
    ensures Good(tr, at) && fresh(tr.t.Keys - old(tr.t.Keys))
    ensures Listed(old(tr.t), tr.t, dir, at.artists, artists)
  {
    ghost var t0 := tr.t;
    var i := 0;
    while i < |artists|
      invariant i <= |artists|
      invariant Good(tr, at) && fresh(tr.t.Keys - old(tr.t.Keys))
      invariant Listed(t0, tr.t, dir, at.artists, artists[..i])
    {
      ghost var t := tr.t;
      assert KeptIn(t0, t, dir);
      ghost var tm := ShowArtist(tr, at, dir, artists[i]);
      assert fresh(tr.t.Keys - t0.Keys);
      ListedStep(t0, t, tm, tr.t, dir, at.artists, artists, i);
      i := i + 1;
    }
    assert artists[..i] == artists;
  }

  /** The body of its loop. */
  method ShowArtist(tr: EntityTree, ghost at: Places, dir: Entity, artist: Artist) returns (ghost tm: Tree)
    requires Good(tr, at) && dir in tr.t && tr.t[dir].ops.TrackArtists?
    modifies tr, dir`children, at.artists`children
    ensures Good(tr, at) && fresh(tr.t.Keys - old(tr.t.Keys))
    ensures OneTurn(old(tr.t), tm, tr.t, dir, at.artists, artist)
  {
    ghost var t := tr.t;
    var d := CreateArtistBrowseDir(tr, at, artist);
    tm := tr.t;
    assert fresh(tm.Keys - t.Keys);
    CreatedIsGoal(t, tm, tr.root, at, dir, at.artists, artist.uri, d);
    EnsureLink(tr, at, dir, artist.name, d, artist.uri);
    TurnDone(t, tm, tr.t, dir, at.artists, artist, d);
    assert fresh(tr.t.Keys - t.Keys);
  }

  /** albums_readdir, for the albums libspotify lists for the artist. */
  method AlbumsReaddir(tr: EntityTree, ghost at: Places, dir: Entity, albums: seq<Album>)
    requires Good(tr, at) && dir in tr.t && tr.t[dir].ops.ArtistAlbums?
    modifies tr, dir`children, at.albums`children
    ensures Good(tr, at) && fresh(tr.t.Keys - old(tr.t.Keys))
    ensures Listed(old(tr.t), tr.t, dir, at.albums, albums)
  {
    ghost var t0 := tr.t;
    var i := 0;
    while i < |albums|
      invariant i <= |albums|
      invariant Good(tr, at) && fresh(tr.t.Keys - old(tr.t.Keys))
      invariant Listed(t0, tr.t, dir, at.albums, albums[..i])
    {
      ghost var t := tr.t;
      assert KeptIn(t0, t, dir);
      ghost var tm := ShowAlbum(tr, at, dir, albums[i]);
      assert fresh(tr.t.Keys - t0.Keys);
      ListedStep(t0, t, tm, tr.t, dir, at.albums, albums, i);
      i := i + 1;
    }
    assert albums[..i] == albums;
  }

  /** The body of its loop. */
  method ShowAlbum(tr: EntityTree, ghost at: Places, dir: Entity, album: Album) returns (ghost tm: Tree)
    requires Good(tr, at) && dir in tr.t && tr.t[dir].ops.ArtistAlbums?
    modifies tr, dir`children, at.albums`children
    ensures Good(tr, at) && fresh(tr.t.Keys - old(tr.t.Keys))
    ensures OneTurn(old(tr.t), tm, tr.t, dir, at.albums, album)
  {
    ghost var t := tr.t;
    var d := CreateAlbumBrowseDir(tr, at, album);
    tm := tr.t;
    assert fresh(tm.Keys - t.Keys);
    CreatedIsGoal(t, tm, tr.root, at, dir, at.albums, album.uri, d);
    EnsureLink(tr, at, dir, album.name, d, album.uri);
    TurnDone(t, tm, tr.t, dir, at.albums, album, d);
    assert fresh(tr.t.Keys - t.Keys);
  }

  /** Listing the same items again changes nothing, when their names are not empty. */
  lemma ListedAgain(t0: Tree, t1: Tree, t2: Tree, dir: Entity, place: Entity, items: seq<Media>)
    requires Listed(t0, t1, dir, place, items) && Listed(t1, t2, dir, place, items)
    requires forall i :: 0 <= i < |items| ==> SanitizeName(items[i].name) != ""
    ensures t2 == t1
  {
    forall i | 0 <= i < |items|
      ensures AlreadyThere(t1, dir, place, items[i])
    {
      assert ItemShown(t0, t1, dir, place, items, i);
      NamesAreShown(items, i);
    }
  }

  /** Whatever the names, a directory that has listed the items shows the same children after
      listing them again. */
  lemma ChildrenListedAgain(t0: Tree, t1: Tree, t2: Tree, dir: Entity, place: Entity, items: seq<Media>)
    requires Listed(t0, t1, dir, place, items) && Listed(t1, t2, dir, place, items)
    ensures t2[dir].children == t1[dir].children
  {
    assert KeptIn(t1, t2, dir);
    assert t1[dir].children.Keys == t2[dir].children.Keys;
  }

  lemma {:induction false} NamesAreShown(items: seq<Media>, i: nat)
    requires i < |items| && SanitizeName(items[i].name) != ""
    ensures SanitizeName(items[i].name) in ShownNames(items)
  {
    if i == |items| - 1 {
    } else {
      NamesAreShown(items[..|items| - 1], i);
    }
  }
}
