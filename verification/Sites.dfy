/** The paths of the places where links are made and of the entities they are made for. */
module Sites {
  import opened CStrings
  import opened Names
  import opened Paths
  import opened Entities
  import opened Places
  import opened Links

  // ---------------------------------------------------------------- lengths

  lemma {:induction false} SlashlessLength(n: string)
    ensures |Slashless(n, SLASH_REPLACEMENT)| <= 3 * |n|
  {
    if n == "" {
    } else {
      SlashlessLength(n[1..]);
    }
  }

  lemma SanitizedLength(n: string)
    ensures |SanitizeName(n)| <= 3 * |n|
  {
    var s := Slashless(n, SLASH_REPLACEMENT);
    SlashlessLength(n);
    var a, b := StripTakesSpaces(s);
  }

  lemma SlashedOneMore(cs: Components, c: string)
    ensures |Slashed(cs + [c])| == |Slashed(cs)| + 1 + |c|
  {
    SlashedSnoc(cs, c);
  }

  // ---------------------------------------------------------------- paths of the places

  lemma PathBelow(t: Tree, root: Entity, e: Entity)
    requires Forest(t, root) && e in t && t[e].parent != null
    ensures Founded(t, e) && t[e].parent in t && Founded(t, t[e].parent) && t[e].name.Some?
    ensures PathOf(t, e) == PathOf(t, t[e].parent) + [t[e].name.value]
    ensures |Slashed(PathOf(t, e))| == |Slashed(PathOf(t, t[e].parent))| + 1 + |t[e].name.value|
    ensures Attached(t, root, e) <==> Attached(t, root, t[e].parent)
    ensures IsComponent(t[e].name.value) && e != root
  {
    ParentFacts(t, root, e);
    SlashedOneMore(PathOf(t, t[e].parent), t[e].name.value);
  }

  ghost predicate HasPath(t: Tree, root: Entity, e: Entity, cs: Components) {
    && e in t && e != root && Founded(t, e) && Attached(t, root, e)
    && PathOf(t, e) == cs && AreComponents(cs)
  }

  lemma PathBelowKnown(t: Tree, root: Entity, e: Entity, cs: Components)
    requires Forest(t, root) && e in t && t[e].parent != null && t[e].name.Some?
    requires (t[e].parent == root && cs == []) || HasPath(t, root, t[e].parent, cs)
    ensures HasPath(t, root, e, cs + [t[e].name.value])
  {
    PathBelow(t, root, e);
    RootPath(t, root);
  }

  lemma PlacePaths(t: Tree, root: Entity, at: Places)
    requires Forest(t, root) && PlacesOk(t, root, at)
    ensures HasPath(t, root, at.browse, ["browse"]) && HasPath(t, root, at.tracks, ["browse", "tracks"])
    ensures HasPath(t, root, at.artists, ["browse", "artists"]) && HasPath(t, root, at.albums, ["browse", "albums"])
    ensures HasPath(t, root, at.search, ["search"]) && HasPath(t, root, at.playlists, ["playlists"])
    ensures HasPath(t, root, at.meta, ["playlists", "meta"]) && HasPath(t, root, at.music, ["playlists", "music"])
  {
    AllLocated(t, root, at);
    PathBelowKnown(t, root, at.browse, []);
    PathBelowKnown(t, root, at.tracks, ["browse"]);
    PathBelowKnown(t, root, at.artists, ["browse"]);
    PathBelowKnown(t, root, at.albums, ["browse"]);
    PathBelowKnown(t, root, at.search, []);
    PathBelowKnown(t, root, at.playlists, []);
    PathBelowKnown(t, root, at.meta, ["playlists"]);
    PathBelowKnown(t, root, at.music, ["playlists"]);
  }

  /** The places of /browse that hold browse directories. */
  ghost predicate BrowsePlace(at: Places, place: Entity, part: string) {
    || (place == at.tracks && part == "tracks")
    || (place == at.artists && part == "artists")
    || (place == at.albums && part == "albums")
  }

  /** A browse directory: its path, which always fits. */
  lemma UriDirPath(t: Tree, root: Entity, at: Places, g: Entity, part: string)
    requires Inv(t, root, at) && g in t && t[g].parent != null && BrowsePlace(at, t[g].parent, part)
    ensures UriDir(t[g])
    ensures HasPath(t, root, g, ["browse", part, SanitizeName(t[g].auxdata)])
    ensures |Slashed(PathOf(t, g))| <= 16 + 3069 && GoalPath(PathOf(t, g))
  {
    assert PlaceOk(t, at, g);
    PlacePaths(t, root, at);
    var u := SanitizeName(t[g].auxdata);
    SanitizedLength(t[g].auxdata);
    PathBelowKnown(t, root, g, ["browse", part]);
    SlashedOneMore([], "browse");
    SlashedOneMore(["browse"], part);
    SlashedOneMore(["browse", part], u);
    assert ["browse", part] + [u] == ["browse", part, u];
    assert IsComponent(u) by { assert ["browse", part, u][2] == u; }
  }

  /** The sound file of a track. */
  lemma WavPath(t: Tree, root: Entity, at: Places, g: Entity)
    requires Inv(t, root, at) && g in t && t[g].parent == at.tracks
    ensures HasWav(t, t[g]) && UriDir(t[g])
    ensures HasPath(t, root, t[g].children["track.wav"],
                    ["browse", "tracks", SanitizeName(t[g].auxdata), "track.wav"])
    ensures GoalPath(PathOf(t, t[g].children["track.wav"]))
  {
    assert PlaceOk(t, at, g);
    UriDirPath(t, root, at, g, "tracks");
    var u, w := SanitizeName(t[g].auxdata), t[g].children["track.wav"];
    ChildFacts(t, root, g, "track.wav");
    PathBelowKnown(t, root, w, ["browse", "tracks", u]);
    SlashedOneMore(["browse", "tracks", u], "track.wav");
    assert ["browse", "tracks", u] + ["track.wav"] == ["browse", "tracks", u, "track.wav"];
  }

  // ---------------------------------------------------------------- paths of the link sites

  /** A playlist's or a search's directory. */
  lemma OutsideSite(t: Tree, root: Entity, at: Places, d: Entity)
    requires Inv(t, root, at) && d in t && Founded(t, d) && Attached(t, root, d)
    requires t[d].ops.MetaPlaylist? || t[d].ops.MusicPlaylist? || t[d].ops.SearchResults?
    ensures t[d].kind.Dir? && d != root && Outside(PathOf(t, d))
  {
    assert PlaceOk(t, at, d);
    assert NodeOk(t, root, d);
    PlacePaths(t, root, at);
    NotRoot(t, root, d);
    PathBelow(t, root, d);
    var up := PathOf(t, t[d].parent);
    assert PathOf(t, d)[..|up|] == up;
    SlashedOneMore([], up[0]);
    if |up| == 2 {
      SlashedOneMore([up[0]], up[1]);
      assert up == [up[0]] + [up[1]];
    } else {
      assert up == [] + [up[0]];
    }
  }

  lemma NotRoot(t: Tree, root: Entity, d: Entity)
    requires Forest(t, root) && d in t && Founded(t, d) && Attached(t, root, d)
    ensures d != root ==> t[d].parent != null
  {
    ParentDepth(t, d);
  }

  /** The artists of a track, the albums of an artist. */
  lemma InsideSite(t: Tree, root: Entity, at: Places, d: Entity, place: Entity, part: string, name: string)
    requires Inv(t, root, at) && d in t && Founded(t, d) && Attached(t, root, d) && d != root
    requires BrowsePlace(at, place, part) && InsideBrowse(t, t[d], name, place) && |name| <= 7
    ensures |PathOf(t, d)| == 4 && PathOf(t, d)[0] == "browse" && PathOf(t, d)[1] == part
    ensures AreComponents(PathOf(t, d)) && |Slashed(PathOf(t, d))| < PATH_MAX
  {
    RootPath(t, root);
    NotRoot(t, root, d);
    PathBelow(t, root, d);
    var p := t[d].parent;
    NotRoot(t, root, p);
    UriDirPath(t, root, at, p, part);
  }

  /** What a link made in a directory may be for. */
  ghost predicate IsGoal(t: Tree, at: Places, d: Entity, g: Entity)
    requires d in t
  {
    && g in t && t[g].parent != null
    && match t[d].ops
       case MetaPlaylist => t[g].parent == at.tracks
       case TrackArtists => t[g].parent == at.artists
       case ArtistAlbums => t[g].parent == at.albums
       case MusicPlaylist => IsWav(t, at, g)
       case SearchResults => IsWav(t, at, g)
       case _ => false
  }

  ghost predicate IsWav(t: Tree, at: Places, g: Entity)
    requires g in t
  {
    var p := t[g].parent;
    p != null && p in t && t[p].parent == at.tracks && t[g].name == Some("track.wav")
  }

  /** What a link is to be made for may be linked to. */
  lemma GoalForIsGoal(t: Tree, root: Entity, at: Places, d: Entity, g: Entity, uri: string)
    requires Inv(t, root, at) && d in t && GoalFor(t, at, d, uri) == g
    ensures MakesLinks(t[d].ops) && IsGoal(t, at, d, g)
  {
    AllLocated(t, root, at);
    if t[d].ops.MusicPlaylist? || t[d].ops.SearchResults? {
      ChildFacts(t, root, at.tracks, SanitizeName(uri));
      ChildFacts(t, root, DirOf(t, at.tracks, uri), "track.wav");
    } else {
      ChildFacts(t, root, if t[d].ops.MetaPlaylist? then at.tracks
                          else if t[d].ops.TrackArtists? then at.artists else at.albums, SanitizeName(uri));
    }
  }

  /** The goal of a link: attached, in /browse, on a path that fits. */
  lemma GoalSite(t: Tree, root: Entity, at: Places, d: Entity, g: Entity)
    requires Inv(t, root, at) && d in t && IsGoal(t, at, d, g)
    ensures Founded(t, g) && Attached(t, root, g) && g != root && GoalPath(PathOf(t, g))
    ensures t[d].ops.TrackArtists? ==> PathOf(t, g)[1] == "artists"
    ensures t[d].ops.ArtistAlbums? ==> PathOf(t, g)[1] == "albums"
  {
    if t[d].ops.MetaPlaylist? {
      UriDirPath(t, root, at, g, "tracks");
    } else if t[d].ops.TrackArtists? {
      UriDirPath(t, root, at, g, "artists");
    } else if t[d].ops.ArtistAlbums? {
      UriDirPath(t, root, at, g, "albums");
    } else {
      ParentFacts(t, root, g);
      WavPath(t, root, at, t[g].parent);
    }
  }

  /** Every relpath call of the namespace, from an attached directory: the text leads to the
      goal, however long the names are. */
  lemma TextLeads(t: Tree, root: Entity, at: Places, d: Entity, g: Entity)
    requires Inv(t, root, at) && d in t && Founded(t, d) && Attached(t, root, d) && IsGoal(t, at, d, g)
    requires Founded(t, g)
    ensures RelpathOf(t, d, g).Some? && Resolve(t, root, d, RelpathOf(t, d, g).value) == g
  {
    GoalSite(t, root, at, d, g);
    assert PlaceOk(t, at, d);
    AllLocated(t, root, at);
    RootPath(t, root);
    if t[d].ops.TrackArtists? {
      InsideSite(t, root, at, d, at.tracks, "tracks", "artists");
    } else if t[d].ops.ArtistAlbums? {
      InsideSite(t, root, at, d, at.artists, "artists", "albums");
    } else {
      OutsideSite(t, root, at, d);
    }
    SiteResolves(t, root, d, g);
  }
}
