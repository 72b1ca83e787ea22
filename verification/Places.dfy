/** Where things are in the namespace, and the invariant of the growing tree: every attached
    link leads to the entity it was made for. */
module Places {
  import opened CStrings
  import opened Names
  import opened Paths
  import opened Entities
  import opened Growth

  // ---------------------------------------------------------------- what libspotify names

  /** Names the tree could not tell from a step of a path, or from the sound file of a track. */
  predicate Usable(n: string) {
    n != "" && n != "." && n != ".." && n != "track.wav"
  }

  /** A link string as spotify_link_as_string leaves it in a buffer of 1024 bytes. */
  type Uri = u: string | |u| < 1024 && Usable(SanitizeName(u)) witness "a"

  /** A track, an artist or an album of libspotify, as far as the namespace looks at it. */
  datatype Media = Media(uri: Uri, name: string)
  type Artist = Media
  type Album = Media
  type Track = Media

  // ---------------------------------------------------------------- the fixed directories

  datatype Places = Places(
    browse: Entity, tracks: Entity, artists: Entity, albums: Entity,
    search: Entity, playlists: Entity, meta: Entity, music: Entity)

  ghost predicate Located(t: Tree, e: Entity, parent: Entity, name: string, ops: Ops) {
    e in t && t[e].kind.Dir? && t[e].parent == parent && t[e].name == Some(name) && t[e].ops == ops
  }

  datatype Place = Browse | Tracks | Artists | Albums | Search | Playlists | Meta | Music

  ghost predicate PlaceLocated(t: Tree, root: Entity, at: Places, p: Place) {
    match p
    case Browse => Located(t, at.browse, root, "browse", NoOps)
    case Tracks => Located(t, at.tracks, at.browse, "tracks", NoOps)
    case Artists => Located(t, at.artists, at.browse, "artists", NoOps)
    case Albums => Located(t, at.albums, at.browse, "albums", NoOps)
    case Search => Located(t, at.search, root, "search", SearchRoot)
    case Playlists => Located(t, at.playlists, root, "playlists", NoOps)
    case Meta => Located(t, at.meta, at.playlists, "meta", MetaRoot)
    case Music => Located(t, at.music, at.playlists, "music", MusicRoot)
  }

  ghost predicate PlacesOk(t: Tree, root: Entity, at: Places) {
    forall p {:trigger PlaceLocated(t, root, at, p)} :: PlaceLocated(t, root, at, p)
  }

  lemma AllLocated(t: Tree, root: Entity, at: Places)
    requires PlacesOk(t, root, at)
    ensures Located(t, at.browse, root, "browse", NoOps)
    ensures Located(t, at.tracks, at.browse, "tracks", NoOps)
    ensures Located(t, at.artists, at.browse, "artists", NoOps)
    ensures Located(t, at.albums, at.browse, "albums", NoOps)
    ensures Located(t, at.search, root, "search", SearchRoot)
    ensures Located(t, at.playlists, root, "playlists", NoOps)
    ensures Located(t, at.meta, at.playlists, "meta", MetaRoot)
    ensures Located(t, at.music, at.playlists, "music", MusicRoot)
  {
    assert PlaceLocated(t, root, at, Browse) && PlaceLocated(t, root, at, Tracks);
    assert PlaceLocated(t, root, at, Artists) && PlaceLocated(t, root, at, Albums);
    assert PlaceLocated(t, root, at, Search) && PlaceLocated(t, root, at, Playlists);
    assert PlaceLocated(t, root, at, Meta) && PlaceLocated(t, root, at, Music);
  }

  /** Places stay where they are when an entity changes that has them among its children, or
      one that is none of them. */
  lemma PlacesStay(t: Tree, t1: Tree, root: Entity, at: Places, c: Entity)
    requires PlacesOk(t, root, at) && c in t && (t[c].parent == null || t1 == t)
    requires forall x :: x in t && x != c ==> x in t1 && t1[x] == t[x].(children := t1[x].children)
    ensures PlacesOk(t1, root, at)
  {
    forall p: Place
      ensures PlaceLocated(t1, root, at, p)
    {
      assert PlaceLocated(t, root, at, p);
    }
  }

  // ---------------------------------------------------------------- what is where

  /** A browse directory named by the URI of what it shows. */
  ghost predicate UriDir(n: Node) {
    && n.kind.Dir? && n.ops.NoOps? && n.name == Some(SanitizeName(n.auxdata))
    && |n.auxdata| < 1024 && Usable(SanitizeName(n.auxdata))
  }

  /** A track's browse directory has the sound file of that track. */
  ghost predicate HasWav(t: Tree, n: Node) {
    && "track.wav" in n.children && n.children["track.wav"] in t
    && var w := t[n.children["track.wav"]];
       w.kind.File? && w.ops.Wav? && w.auxdata == n.auxdata
  }

  /** A directory of this name, with this readdir, is in the directory. */
  ghost predicate HasList(t: Tree, n: Node, name: string, ops: Ops) {
    && name in n.children && n.children[name] in t
    && t[n.children[name]].kind.Dir? && t[n.children[name]].ops == ops
  }

  /** From a track's browse directory its sound can be heard and its artists be listed. */
  ghost predicate TrackDir(t: Tree, n: Node) {
    HasWav(t, n) && HasList(t, n, "artists", TrackArtists)
  }

  /** And from an artist's its albums and portraits be listed. */
  ghost predicate ArtistDir(t: Tree, n: Node) {
    HasList(t, n, "albums", ArtistAlbums) && HasList(t, n, "portraits", ArtistPortraits)
  }

  /** An entity with this callback is a directory of this name two levels below place. */
  ghost predicate InsideBrowse(t: Tree, n: Node, name: string, place: Entity) {
    && n.kind.Dir? && n.name == Some(name)
    && (n.parent != null && n.parent in t ==>
          t[n.parent].name.Some? && (t[n.parent].parent != null ==> t[n.parent].parent == place))
  }

  ghost predicate Directly(n: Node, place: Entity) {
    n.kind.Dir? && n.name.Some? && (n.parent != null ==> n.parent == place)
  }

  /** The callbacks of the three directories that are filled by the user's doing. */
  predicate RootOps(ops: Ops) {
    ops.MetaRoot? || ops.MusicRoot? || ops.SearchRoot?
  }

  /** What is right below a directory of /browse. */
  ghost predicate BrowseOk(t: Tree, at: Places, n: Node) {
    && (n.parent == at.tracks ==> UriDir(n) && TrackDir(t, n))
    && (n.parent == at.artists ==> UriDir(n) && ArtistDir(t, n))
    && (n.parent == at.albums ==> UriDir(n))
  }

  /** Where the callbacks are that make links or are made by the user's doing. */
  ghost predicate RolesOk(t: Tree, at: Places, e: Entity)
    requires e in t
  {
    var n := t[e];
    && (n.ops.TrackArtists? ==> InsideBrowse(t, n, "artists", at.tracks))
    && (n.ops.ArtistAlbums? ==> InsideBrowse(t, n, "albums", at.artists))
    && (n.ops.MetaPlaylist? ==> Directly(n, at.meta))
    && (n.ops.MusicPlaylist? ==> Directly(n, at.music))
    && (n.ops.SearchResults? ==> Directly(n, at.search))
    && (n.ops.MetaRoot? ==> e == at.meta)
    && (n.ops.MusicRoot? ==> e == at.music)
    && (n.ops.SearchRoot? ==> e == at.search)
  }

  ghost predicate PlaceOk(t: Tree, at: Places, e: Entity) {
    e in t ==> BrowseOk(t, at, t[e]) && RolesOk(t, at, e)
  }

  // ---------------------------------------------------------------- what links are for

  /** The browse directory that a place has for a URI, if any. */
  ghost function DirOf(t: Tree, place: Entity, uri: string): Entity? {
    if place in t && SanitizeName(uri) in t[place].children then t[place].children[SanitizeName(uri)] else null
  }

  /** The sound file of the track with this URI, if it has a browse directory. */
  ghost function WavOf(t: Tree, at: Places, uri: string): Entity? {
    var d := DirOf(t, at.tracks, uri);
    if d != null && d in t && "track.wav" in t[d].children then t[d].children["track.wav"] else null
  }

  /** What a link in this directory that is made for this URI has to lead to, by the callback
      that makes the directory's links: a browse directory, or a sound file. */
  ghost function GoalFor(t: Tree, at: Places, dir: Entity, uri: string): Entity?
    requires dir in t
  {
    match t[dir].ops
    case MetaPlaylist => DirOf(t, at.tracks, uri)
    case TrackArtists => DirOf(t, at.artists, uri)
    case ArtistAlbums => DirOf(t, at.albums, uri)
    case MusicPlaylist => WavOf(t, at, uri)
    case SearchResults => WavOf(t, at, uri)
    case _ => null
  }

  /** An attached link is for exactly the browse directory or the sound file of the URI it was
      made for, and its text leads there. */
  ghost predicate LinkOk(t: Tree, root: Entity, at: Places, e: Entity) {
    e in t && t[e].kind.Link? && Founded(t, e) && Attached(t, root, e) ==>
      && t[e].goal != null && t[e].parent != null && t[e].parent in t
      && t[e].goal == GoalFor(t, at, t[e].parent, t[e].about)
      && Resolve(t, root, t[e].parent, t[e].target) == t[e].goal
  }

  lemma DirOfGrows(t0: Tree, t1: Tree, place: Entity, uri: string)
    requires Extends(t0, t1) && DirOf(t0, place, uri) != null
    ensures DirOf(t1, place, uri) == DirOf(t0, place, uri)
  {
    assert KeptIn(t0, t1, place);
  }

  lemma WavOfGrows(t0: Tree, t1: Tree, at: Places, uri: string)
    requires Extends(t0, t1) && WavOf(t0, at, uri) != null
    ensures WavOf(t1, at, uri) == WavOf(t0, at, uri)
  {
    DirOfGrows(t0, t1, at.tracks, uri);
    assert KeptIn(t0, t1, DirOf(t0, at.tracks, uri));
  }

  lemma GoalForGrows(t0: Tree, t1: Tree, at: Places, dir: Entity, uri: string)
    requires Extends(t0, t1) && dir in t0 && GoalFor(t0, at, dir, uri) != null
    ensures dir in t1 && GoalFor(t1, at, dir, uri) == GoalFor(t0, at, dir, uri)
  {
    assert KeptIn(t0, t1, dir);
    if t0[dir].ops.MusicPlaylist? || t0[dir].ops.SearchResults? {
      WavOfGrows(t0, t1, at, uri);
    } else {
      DirOfGrows(t0, t1, if t0[dir].ops.MetaPlaylist? then at.tracks
                         else if t0[dir].ops.TrackArtists? then at.artists else at.albums, uri);
    }
  }

  /** The invariant of the namespace. */
  ghost predicate Inv(t: Tree, root: Entity, at: Places) {
    && Forest(t, root)
    && PlacesOk(t, root, at)
    && (forall e {:trigger PlaceOk(t, at, e)} :: e in t ==> PlaceOk(t, at, e))
    && (forall e {:trigger LinkOk(t, root, at, e)} :: e in t ==> LinkOk(t, root, at, e))
  }

  // ---------------------------------------------------------------- one step

  lemma AddedKeepsInv(t: Tree, root: Entity, at: Places, e: Entity, n: Node)
    requires Inv(t, root, at) && e !in t
    requires n.parent == null && n.children == map[] && n.name.Some? && Clean(n.name.value)
    requires !RootOps(n.ops)
    requires n.ops.TrackArtists? ==> n.kind.Dir? && n.name == Some("artists")
    requires n.ops.ArtistAlbums? ==> n.kind.Dir? && n.name == Some("albums")
    requires n.ops.MetaPlaylist? || n.ops.MusicPlaylist? || n.ops.SearchResults? ==> n.kind.Dir?
    ensures Inv(t[e := n], root, at)
  {
    var t1 := t[e := n];
    AddedKeepsForest(t, root, e, n);
    RootPath(t, root);
    PlacesStay(t, t1, root, at, root);
    forall x | x in t1
      ensures PlaceOk(t1, at, x) && LinkOk(t1, root, at, x)
    {
      if x == e {
        assert Grounded(t1, e, 0);
        ParentDepth(t1, e);
      } else {
        assert PlaceOk(t, at, x) && LinkOk(t, root, at, x);
        ExtendsKeepsOk(t, t1, root, at, x);
      }
    }
  }

  /** Growth keeps what the invariant says of each entity that was there. */
  lemma ExtendsKeepsOk(t: Tree, t1: Tree, root: Entity, at: Places, x: Entity)
    requires Forest(t, root) && Extends(t, t1) && x in t
    requires PlaceOk(t, at, x) && LinkOk(t, root, at, x)
    ensures PlaceOk(t1, at, x) && LinkOk(t1, root, at, x)
  {
    assert NodeOk(t, root, x);
    assert KeptIn(t, t1, x);
    ExtendsPath(t, t1, root, x);
    ExtendsKeepsPlace(t, t1, root, at, x);
    if t[x].kind.Link? && Attached(t, root, x) {
      ExtendsResolve(t, t1, root, t[x].parent, t[x].target);
      GoalForGrows(t, t1, at, t[x].parent, t[x].about);
    }
  }

  lemma ExtendsKeepsPlace(t: Tree, t1: Tree, root: Entity, at: Places, x: Entity)
    requires Extends(t, t1) && x in t && NodeOk(t, root, x) && PlaceOk(t, at, x)
    ensures PlaceOk(t1, at, x)
  {
    var n := t[x];
    assert KeptIn(t, t1, x);
    if n.parent != null {
      assert KeptIn(t, t1, n.parent);
    }
    forall k | k in n.children && n.children[k] in t
      ensures k in t1[x].children && t1[x].children[k] == n.children[k] && KeptIn(t, t1, n.children[k])
    {
    }
  }

  /** No links are brought along: the child is no link, and it has no grandchildren and no
      links for children. */
  ghost predicate Shallow(t: Tree, c: Entity)
    requires c in t
  {
    && !t[c].kind.Link?
    && forall k :: k in t[c].children && t[c].children[k] in t ==>
         var x := t[t[c].children[k]];
         !x.kind.Link? && x.children == map[]
  }

  /** The child may go where it is put. */
  ghost predicate Fits(t: Tree, at: Places, p: Entity, c: Entity)
    requires p in t && c in t
  {
    var n := t[c].(parent := p);
    && (p == at.tracks ==> UriDir(n) && TrackDir(t, n))
    && (p == at.artists ==> UriDir(n) && ArtistDir(t, n))
    && (p == at.albums ==> UriDir(n))
    && (n.ops.TrackArtists? ==> t[p].name.Some? && (t[p].parent == null || t[p].parent == at.tracks))
    && (n.ops.ArtistAlbums? ==> t[p].name.Some? && (t[p].parent == null || t[p].parent == at.artists))
    && (n.ops.MetaPlaylist? ==> p == at.meta)
    && (n.ops.MusicPlaylist? ==> p == at.music)
    && (n.ops.SearchResults? ==> p == at.search)
    && (forall k :: k in n.children && n.children[k] in t ==>
          && (t[n.children[k]].ops.TrackArtists? ==> p == at.tracks)
          && (t[n.children[k]].ops.ArtistAlbums? ==> p == at.artists))
  }

  lemma AttachKeepsPlace(t: Tree, root: Entity, at: Places, p: Entity, c: Entity, x: Entity)
    requires Forest(t, root) && PlacesOk(t, root, at) && CanAttach(t, root, p, c) && Fits(t, at, p, c)
    requires x in t && PlaceOk(t, at, x)
    ensures PlaceOk(Attach(t, p, c), at, x)
  {
    ParentDepth(t, p);
    assert NodeOk(t, root, p) && NodeOk(t, root, x);
    if x == c {
      AttachPlacesChild(t, root, at, p, c);
    } else {
      AttachKeepsOtherPlace(t, root, at, p, c, x);
    }
  }

  lemma AttachPlacesChild(t: Tree, root: Entity, at: Places, p: Entity, c: Entity)
    requires CanAttach(t, root, p, c) && Fits(t, at, p, c) && p != c && PlaceOk(t, at, c)
    ensures PlaceOk(Attach(t, p, c), at, c)
  {
    AttachKeepsLists(t, p, c, c);
  }

  lemma AttachKeepsOtherPlace(t: Tree, root: Entity, at: Places, p: Entity, c: Entity, x: Entity)
    requires CanAttach(t, root, p, c) && Fits(t, at, p, c) && PlacesOk(t, root, at)
    requires x in t && x != c && p != c && PlaceOk(t, at, x) && NodeOk(t, root, x)
    ensures PlaceOk(Attach(t, p, c), at, x)
  {
    AttachKeepsLists(t, p, c, x);
    AttachKeepsRoles(t, root, at, p, c, x);
  }

  lemma AttachKeepsRoles(t: Tree, root: Entity, at: Places, p: Entity, c: Entity, x: Entity)
    requires CanAttach(t, root, p, c) && Fits(t, at, p, c) && PlacesOk(t, root, at)
    requires x in t && x != c && p != c && RolesOk(t, at, x) && NodeOk(t, root, x)
    ensures RolesOk(Attach(t, p, c), at, x)
  {
    AllLocated(t, root, at);
  }

  lemma AttachKeepsLists(t: Tree, p: Entity, c: Entity, x: Entity)
    requires p in t && c in t && x in t && t[c].name.Some? && p != c
    requires t[c].name.value !in t[p].children
    ensures TrackDir(t, t[x]) ==> TrackDir(Attach(t, p, c), Attach(t, p, c)[x])
    ensures ArtistDir(t, t[x]) ==> ArtistDir(Attach(t, p, c), Attach(t, p, c)[x])
  {
  }

  /** Only the child itself and its children are below it. */
  lemma {:induction false} ShallowUnder(t: Tree, root: Entity, c: Entity, x: Entity)
    requires Forest(t, root) && c in t && Shallow(t, c) && Founded(t, x) && x in t && Under(t, x, c)
    ensures x == c || (t[x].parent == c && t[x].children == map[])
    ensures !t[x].kind.Link?
    decreases Depth(t, x)
  {
    ParentDepth(t, x);
    if x == c {
    } else {
      ParentFacts(t, root, x);
      ShallowUnder(t, root, c, t[x].parent);
    }
  }

  /** An entity that is not below the new child is attached as it was before. */
  lemma {:induction false} AttachKeepsAttached(t: Tree, root: Entity, p: Entity, c: Entity, x: Entity)
    requires Forest(t, root) && CanAttach(t, root, p, c) && Founded(t, x) && x in t && !Under(t, x, c)
    ensures Founded(Attach(t, p, c), x)
    ensures Attached(Attach(t, p, c), root, x) <==> Attached(t, root, x)
    ensures PathOf(Attach(t, p, c), x) == PathOf(t, x)
    decreases Depth(t, x)
  {
    var t1 := Attach(t, p, c);
    ParentDepth(t, x);
    AttachGroundsOthers(t, root, p, c, x, Depth(t, x));
    ParentDepth(t1, x);
    if t[x].parent == null {
    } else {
      AttachKeepsAttached(t, root, p, c, t[x].parent);
    }
  }

  /** An attached entity is not below the top of another tree. */
  lemma {:induction false} AttachedNotUnder(t: Tree, root: Entity, c: Entity, x: Entity)
    requires Forest(t, root) && c in t && c != root && t[c].parent == null
    requires Founded(t, x) && x in t && Attached(t, root, x)
    ensures !Under(t, x, c)
    decreases Depth(t, x)
  {
    ParentDepth(t, x);
    if x == root {
      RootPath(t, root);
    } else {
      AttachedNotUnder(t, root, c, t[x].parent);
    }
  }

  lemma StepStaysAttached(t: Tree, root: Entity, cur: Entity, c: string)
    requires Forest(t, root) && cur in t && Founded(t, cur) && Attached(t, root, cur)
    ensures var s := Step(t, cur, c); s != null ==> s in t && Founded(t, s) && Attached(t, root, s)
  {
    if t[cur].parent != null {
      ParentFacts(t, root, cur);
    }
    if c in t[cur].children {
      ChildFacts(t, root, cur, c);
    }
  }

  /** Walking from an attached directory never meets the new child's tree. */
  lemma {:induction false} AttachKeepsStepAll(t: Tree, root: Entity, p: Entity, c: Entity, cur: Entity, cs: Components)
    requires Forest(t, root) && CanAttach(t, root, p, c)
    requires cur in t && Founded(t, cur) && Attached(t, root, cur) && StepAll(t, cur, cs) != null
    ensures StepAll(Attach(t, p, c), cur, cs) == StepAll(t, cur, cs)
    decreases cs
  {
    if cs == [] {
    } else {
      var t1 := Attach(t, p, c);
      AttachedNotUnder(t, root, c, cur);
      ParentDepth(t, cur);
      assert cur != c;
      var next := Step(t, cur, cs[0]);
      if next == null {
        StepNowhere(t, cs[1..]);
      }
      StepStaysAttached(t, root, cur, cs[0]);
      assert Step(t1, cur, cs[0]) == next;
      AttachKeepsStepAll(t, root, p, c, next, cs[1..]);
    }
  }

  lemma AttachKeepsDirOf(t: Tree, root: Entity, p: Entity, c: Entity, place: Entity, uri: string)
    requires CanAttach(t, root, p, c) && p != c && DirOf(t, place, uri) != null
    ensures DirOf(Attach(t, p, c), place, uri) == DirOf(t, place, uri)
  {
  }

  lemma AttachKeepsWavOf(t: Tree, root: Entity, at: Places, p: Entity, c: Entity, uri: string)
    requires CanAttach(t, root, p, c) && p != c && WavOf(t, at, uri) != null
    ensures WavOf(Attach(t, p, c), at, uri) == WavOf(t, at, uri)
  {
    AttachKeepsDirOf(t, root, p, c, at.tracks, uri);
  }

  lemma AttachKeepsGoal(t: Tree, root: Entity, at: Places, p: Entity, c: Entity, dir: Entity, uri: string)
    requires CanAttach(t, root, p, c) && p != c && dir in t && GoalFor(t, at, dir, uri) != null
    ensures GoalFor(Attach(t, p, c), at, dir, uri) == GoalFor(t, at, dir, uri)
  {
    var t1 := Attach(t, p, c);
    assert t1[dir].ops == t[dir].ops;
    if t[dir].ops.MusicPlaylist? || t[dir].ops.SearchResults? {
      AttachKeepsWavOf(t, root, at, p, c, uri);
    } else if t[dir].ops.MetaPlaylist? {
      AttachKeepsDirOf(t, root, p, c, at.tracks, uri);
    } else if t[dir].ops.TrackArtists? {
      AttachKeepsDirOf(t, root, p, c, at.artists, uri);
    } else {
      AttachKeepsDirOf(t, root, p, c, at.albums, uri);
    }
  }

  lemma AttachKeepsLink(t: Tree, root: Entity, at: Places, p: Entity, c: Entity, x: Entity)
    requires Forest(t, root) && CanAttach(t, root, p, c) && x in t && LinkOk(t, root, at, x)
    requires t[x].kind.Link? ==> Founded(t, x) && !Under(t, x, c)
    ensures LinkOk(Attach(t, p, c), root, at, x)
  {
    var t1 := Attach(t, p, c);
    if t[x].kind.Link? {
      AttachKeepsAttached(t, root, p, c, x);
      ParentDepth(t, x);
      assert x != c;
      if Attached(t, root, x) {
        ParentFacts(t, root, x);
        RootPath(t, root);
        var start := if Absolute(t[x].target) then root else t[x].parent;
        AttachKeepsStepAll(t, root, p, c, start, Split(t[x].target));
        AttachKeepsGoal(t, root, at, p, c, t[x].parent, t[x].about);
      }
    }
  }

  /** Attaching anything but a link keeps the invariant. */
  lemma AttachKeepsInv(t: Tree, root: Entity, at: Places, p: Entity, c: Entity)
    requires Inv(t, root, at) && CanAttach(t, root, p, c) && Fits(t, at, p, c) && Shallow(t, c)
    ensures Inv(Attach(t, p, c), root, at)
  {
    var t1 := Attach(t, p, c);
    AttachKeepsForest(t, root, p, c);
    PlacesStay(t, t1, root, at, c);
    forall x | x in t1
      ensures PlaceOk(t1, at, x) && LinkOk(t1, root, at, x)
    {
      assert NodeOk(t, root, x) && PlaceOk(t, at, x) && LinkOk(t, root, at, x);
      AttachKeepsPlace(t, root, at, p, c, x);
      if t[x].kind.Link? && Under(t, x, c) {
        ShallowUnder(t, root, c, x);
      }
      AttachKeepsLink(t, root, at, p, c, x);
    }
  }
}
