/** What a user does and sees, told by paths and link texts alone: short sessions from the initial
    file system on. */
module Sessions {
  import opened CStrings
  import opened Names
  import opened Paths
  import opened Entities
  import opened Growth
  import opened Places
  import opened Sites
  import opened InitialTrees
  import opened LinkMaking
  import opened Readdirs
  import opened Playlists
  import opened MusicDirs
  import opened Namespace

  // ---------------------------------------------------------------- what there is to see

  /** Under this name in the directory at this path there is a link; and reading it from there
      gives the path of its goal. */
  ghost predicate LinkAt(t: Tree, root: Entity, path: Components, k: string, goal: Components) {
    var l := Descend(t, root, path + [k]);
    l != null && l in t && t[l].kind.Link? && ReadLink(path, t[l].target) == goal
  }

  lemma PathOfChild(t: Tree, root: Entity, p: Entity, k: string, cs: Components)
    requires Forest(t, root) && HasPath(t, root, p, cs) && k in t[p].children
    ensures var c := t[p].children[k];
      && HasPath(t, root, c, cs + [k]) && t[c].parent == p && t[c].name == Some(k)
      && FindOf(t, root, Print(cs + [k])) == if t[p].name == Some(k) then p else c
  {
    ChildFacts(t, root, p, k);
    PathBelowKnown(t, root, t[p].children[k], cs);
    FindPrinted(t, root, t[p].children[k]);
  }

  /** A link that a directory shows is one that a user can read. */
  lemma ShownIsLinkAt(t: Tree, root: Entity, at: Places, dir: Entity, path: Components, k: string, g: Entity,
                      uri: string, goal: Components)
    requires Inv(t, root, at) && HasPath(t, root, dir, path) && Shows(t, dir, k, g, uri) && HasPath(t, root, g, goal)
    ensures LinkAt(t, root, path, k, goal)
  {
    var l := t[dir].children[k];
    PathOfChild(t, root, dir, k, path);
    DescendPath(t, root, l);
    LinkFollowed(t, root, at, l);
    assert LinkOk(t, root, at, l);
  }

  /** What a user has read once stays there and reads the same, however the tree grows. */
  lemma LinkAtStays(t0: Tree, t: Tree, root: Entity, path: Components, k: string, goal: Components)
    requires Extends(t0, t) && LinkAt(t0, root, path, k, goal)
    ensures LinkAt(t, root, path, k, goal)
  {
    ExtendsDescend(t0, t, root, path + [k]);
    assert KeptIn(t0, t, Descend(t0, root, path + [k]));
  }

  lemma DirOfPath(t: Tree, root: Entity, at: Places, place: Entity, part: string, uri: string)
    requires Inv(t, root, at) && BrowsePlace(at, place, part) && DirOf(t, place, uri) != null
    ensures var d := DirOf(t, place, uri);
      d in t && t[d].parent == place && HasPath(t, root, d, ["browse", part, SanitizeName(uri)])
  {
    PlacePaths(t, root, at);
    PathOfChild(t, root, place, SanitizeName(uri), ["browse", part]);
    assert ["browse", part] + [SanitizeName(uri)] == ["browse", part, SanitizeName(uri)];
  }

  lemma WavOfPath(t: Tree, root: Entity, at: Places, uri: string)
    requires Inv(t, root, at) && WavOf(t, at, uri) != null
    ensures HasPath(t, root, WavOf(t, at, uri), ["browse", "tracks", SanitizeName(uri), "track.wav"])
  {
    var path := ["browse", "tracks", SanitizeName(uri)];
    DirOfPath(t, root, at, at.tracks, "tracks", uri);
    PathOfChild(t, root, DirOf(t, at.tracks, uri), "track.wav", path);
    assert path + ["track.wav"] == ["browse", "tracks", SanitizeName(uri), "track.wav"];
  }

  // ---------------------------------------------------------------- walking about

  /** The path leads to the directory, also for a lookup. */
  ghost predicate Reaches(t: Tree, root: Entity, dir: Entity, path: Components) {
    && HasPath(t, root, dir, path) && t[dir].kind.Dir? && FindOf(t, root, Print(path)) == dir
  }

  lemma ReachesChild(t: Tree, root: Entity, p: Entity, k: string, cs: Components) returns (path: Components)
    requires Forest(t, root) && HasPath(t, root, p, cs) && k in t[p].children && t[p].name != Some(k)
    requires t[p].children[k] in t && t[t[p].children[k]].kind.Dir?
    ensures path == cs + [k] && Reaches(t, root, t[p].children[k], path)
  {
    path := cs + [k];
    PathOfChild(t, root, p, k, cs);
  }

  lemma ReachesStill(t0: Tree, t: Tree, root: Entity, dir: Entity, path: Components)
    requires Forest(t0, root) && Forest(t, root) && Extends(t0, t) && Reaches(t0, root, dir, path)
    ensures Reaches(t, root, dir, path)
  {
    assert KeptIn(t0, t, dir);
    ExtendsPath(t0, t, root, dir);
    FindPrinted(t0, root, dir);
    FindPrinted(t, root, dir);
    ParentFacts(t0, root, dir);
    assert KeptIn(t0, t, t0[dir].parent);
  }

  /** The directories of playlists. */
  ghost function ListsAt(at: Places, part: string): Entity {
    if part == "meta" then at.meta else at.music
  }

  lemma ListsFound(t: Tree, root: Entity, at: Places, part: string)
    requires Inv(t, root, at) && (part == "meta" || part == "music")
    ensures Reaches(t, root, ListsAt(at, part), ["playlists", part]) && t[ListsAt(at, part)].name == Some(part)
    ensures t[ListsAt(at, part)].ops == if part == "meta" then MetaRoot else MusicRoot
  {
    PlacePaths(t, root, at);
    AllLocated(t, root, at);
    FindPrinted(t, root, ListsAt(at, part));
    assert |"playlists"| == 9 && |part| < 9;
  }

  lemma SearchFound(t: Tree, root: Entity, at: Places)
    requires Inv(t, root, at)
    ensures Reaches(t, root, at.search, ["search"]) && t[at.search].name == Some("search")
    ensures t[at.search].ops == SearchRoot
  {
    PlacePaths(t, root, at);
    AllLocated(t, root, at);
    RootPath(t, root);
    FindPrinted(t, root, at.search);
  }

  /** A readdir where the path leads. */
  method ReadAt(fs: Filesystem, ghost dir: Entity, path: Components, answer: Answer)
    requires fs.Valid() && Reaches(fs.tree.t, fs.tree.root, dir, path)
    modifies fs, fs.tree, fs.tree.t.Keys
    ensures fs.Valid() && fresh(fs.tree.t.Keys - old(fs.tree.t.Keys)) && Extends(old(fs.tree.t), fs.tree.t)
    ensures HasRead(old(fs.tree.t), fs.tree.t, fs.at, dir, answer)
    ensures Reaches(fs.tree.t, fs.tree.root, dir, path)
    ensures fs.tree.t[dir].ops == old(fs.tree.t)[dir].ops && fs.tree.t[dir].name == old(fs.tree.t)[dir].name
  {
    ghost var t0 := fs.tree.t;
    var status := fs.Handle(ReadDirectory(Print(path), answer));
    ReachesStill(t0, fs.tree.t, fs.tree.root, dir, path);
    assert KeptIn(t0, fs.tree.t, dir);
  }

  /** A new file system whose user has looked for playlists and found one. */
  method FindPlaylist(part: string, name: string) returns (fs: Filesystem, ghost dir: Entity)
    requires (part == "meta" || part == "music") && Clean(name) && name != "" && name != part
    ensures fresh(fs) && fresh(fs.tree) && fs.Valid() && fresh(fs.tree.t.Keys)
    ensures Reaches(fs.tree.t, fs.tree.root, dir, ["playlists", part, name])
    ensures fs.tree.t[dir].ops == if part == "meta" then MetaPlaylist else MusicPlaylist
    ensures fs.tree.t[dir].children == map[] && fs.tree.t[dir].name == Some(name)
  {
    fs := new Filesystem();
    SanitizeNameSpec(name);
    ghost var lists := ListsAt(fs.at, part);
    ghost var t0 := fs.tree.t;
    ListsFound(t0, fs.tree.root, fs.at, part);
    ReadAt(fs, lists, ["playlists", part], Answer([name], [], [], [], 0));
    dir := PlaylistReached(t0, fs.tree.t, fs.tree.root, fs.at, part, name);
  }

  lemma PlaylistReached(t0: Tree, t: Tree, root: Entity, at: Places, part: string, name: string)
    returns (dir: Entity)
    requires Inv(t, root, at) && (part == "meta" || part == "music") && SanitizeName(name) == name && name != ""
    requires name != part && ListsAt(at, part) in t0 && t0[ListsAt(at, part)].children == map[]
    requires NamesListed(t0, t, ListsAt(at, part), [name], Dir, if part == "meta" then MetaPlaylist else MusicPlaylist)
    ensures Reaches(t, root, dir, ["playlists", part, name])
    ensures t[dir].ops == if part == "meta" then MetaPlaylist else MusicPlaylist
    ensures t[dir].children == map[] && t[dir].name == Some(name)
  {
    var lists := ListsAt(at, part);
    assert [name][..0] == [] && CleanNames([name]) == {name};
    assert IsEntryFor(t, lists, name, Dir, if part == "meta" then MetaPlaylist else MusicPlaylist);
    dir := t[lists].children[name];
    ListsFound(t, root, at, part);
    var path := ReachesChild(t, root, lists, name, ["playlists", part]);
    ChildFacts(t, root, lists, name);
  }

  // ---------------------------------------------------------------- sessions

  /** Someone reads a playlist under /playlists/music: for each track, in its place, a link that
      leads to the sound file of this very track; and besides them the playlist file. */
  method PlayMusic(name: string, tracks: seq<Track>) returns (fs: Filesystem)
    requires Clean(name) && name != "" && name != "music"
    ensures fs.Valid()
    ensures forall i :: 0 <= i < |tracks| ==>
              LinkAt(fs.tree.t, fs.tree.root, ["playlists", "music", name],
                     SanitizeName(NumberedName(i, tracks[i].name)),
                     ["browse", "tracks", SanitizeName(tracks[i].uri), "track.wav"])
    ensures var d := Descend(fs.tree.t, fs.tree.root, ["playlists", "music", name]);
      d in fs.tree.t && |fs.tree.t[d].children| == |tracks| + 1
  {
    ghost var dir;
    fs, dir := FindPlaylist("music", name);
    ghost var t0, path := fs.tree.t, ["playlists", "music", name];
    ReadAt(fs, dir, ["playlists", "music", name], Answer([], tracks, [], [], 0));
    ghost var t := fs.tree.t;
    FreshPlaylist(t0, t, fs.at, dir, tracks);
    DescendPath(t, fs.tree.root, dir);
    forall i | 0 <= i < |tracks|
      ensures LinkAt(t, fs.tree.root, path, SanitizeName(NumberedName(i, tracks[i].name)),
                     ["browse", "tracks", SanitizeName(tracks[i].uri), "track.wav"])
    {
      MusicLink(t, fs.tree.root, fs.at, dir, path, tracks, i);
    }
  }

  lemma MusicLink(t: Tree, root: Entity, at: Places, dir: Entity, path: Components, tracks: seq<Track>, i: nat)
    requires Inv(t, root, at) && HasPath(t, root, dir, path) && i < |tracks| && LeadsToTrack(t, at, dir, tracks, i)
    ensures LinkAt(t, root, path, SanitizeName(NumberedName(i, tracks[i].name)),
                   ["browse", "tracks", SanitizeName(tracks[i].uri), "track.wav"])
  {
    var uri := tracks[i].uri;
    WavOfPath(t, root, at, uri);
    ShownIsLinkAt(t, root, at, dir, path, SanitizeName(NumberedName(i, tracks[i].name)), WavOf(t, at, uri), uri,
                  ["browse", "tracks", SanitizeName(uri), "track.wav"]);
  }

  /** Someone makes a directory in /search, and libspotify finds something: for the first hit of
      each name, a link that leads to the sound file of this very track. */
  method Search(query: string, hits: seq<Hit>) returns (fs: Filesystem)
    requires Clean(query) && query != "" && query != "search"
    ensures fs.Valid()
    ensures forall i :: 0 <= i < |hits| && IsFirst(HitLinks(hits), i) && SanitizeName(HitName(hits[i])) != "" ==>
              LinkAt(fs.tree.t, fs.tree.root, ["search", query], SanitizeName(HitName(hits[i])),
                     ["browse", "tracks", SanitizeName(hits[i].track.uri), "track.wav"])
  {
    ghost var path := ["search", query];
    ghost var dir;
    fs, dir := StartSearch(query);
    ghost var t0 := fs.tree.t;
    var done := fs.Handle(SearchDone(0, hits));
    ghost var t := fs.tree.t;
    ReachesStill(t0, t, fs.tree.root, dir, path);
    forall i | 0 <= i < |hits| && IsFirst(HitLinks(hits), i) && SanitizeName(HitName(hits[i])) != ""
      ensures LinkAt(t, fs.tree.root, path, SanitizeName(HitName(hits[i])),
                     ["browse", "tracks", SanitizeName(hits[i].track.uri), "track.wav"])
    {
      HitLink(t0, t, fs.tree.root, fs.at, dir, path, hits, i);
    }
  }

  method StartSearch(query: string) returns (fs: Filesystem, ghost dir: Entity)
    requires Clean(query) && query != "" && query != "search"
    ensures fresh(fs) && fresh(fs.tree) && fs.Valid() && fresh(fs.tree.t.Keys)
    ensures Reaches(fs.tree.t, fs.tree.root, dir, ["search", query]) && fs.searches == [dir]
    ensures fs.tree.t[dir].children == map[]
  {
    fs := new Filesystem();
    dir := FirstSearch(fs, query);
  }

  method FirstSearch(fs: Filesystem, query: string) returns (ghost dir: Entity)
    requires fs.Valid() && Clean(query) && query != "" && query != "search"
    requires fs.searches == [] && AsBuilt(fs.tree.t, fs.tree.root, fs.at)
    modifies fs, fs.tree, fs.tree.t.Keys
    ensures fs.Valid() && fresh(fs.tree.t.Keys - old(fs.tree.t.Keys))
    ensures Reaches(fs.tree.t, fs.tree.root, dir, ["search", query]) && fs.searches == [dir]
    ensures fs.tree.t[dir].children == map[]
  {
    SanitizeNameSpec(query);
    ghost var m0 := fs.Now();
    SearchFound(m0.t, fs.tree.root, fs.at);
    var made := fs.Handle(MakeDirectory(Print(["search"]), query));
    dir := NewSearchReached(m0, fs.Now(), fs.tree.root, fs.at, query, made);
  }

  lemma NewSearchReached(m0: Moment, m: Moment, root: Entity, at: Places, query: string, status: Status)
    returns (dir: Entity)
    requires Inv(m.t, root, at) && query != "search" && query != "" && SanitizeName(query) == query
    requires SearchMade(m0, m, at, query, status) && m0.searches == [] && m0.t[at.search].children == map[]
    ensures Reaches(m.t, root, dir, ["search", query]) && m.searches == [dir] && m.t[dir].children == map[]
  {
    dir := m.searches[0];
    SearchFound(m.t, root, at);
    ChildFacts(m.t, root, at.search, query);
    assert PlaceOk(m.t, at, dir);
    var path := ReachesChild(m.t, root, at.search, query, ["search"]);
  }

  lemma HitLink(t0: Tree, t: Tree, root: Entity, at: Places, dir: Entity, path: Components, hits: seq<Hit>, i: nat)
    requires Inv(t, root, at) && HasPath(t, root, dir, path) && i < |hits|
    requires WavsListed(t0, t, at, dir, HitLinks(hits)) && t0[dir].children == map[]
    requires IsFirst(HitLinks(hits), i) && SanitizeName(HitName(hits[i])) != ""
    ensures LinkAt(t, root, path, SanitizeName(HitName(hits[i])),
                   ["browse", "tracks", SanitizeName(hits[i].track.uri), "track.wav"])
  {
    var uri := hits[i].track.uri;
    assert WavShown(t0, t, at, dir, HitLinks(hits), i);
    WavOfPath(t, root, at, uri);
    ShownIsLinkAt(t, root, at, dir, path, SanitizeName(HitName(hits[i])), WavOf(t, at, uri), uri,
                  ["browse", "tracks", SanitizeName(uri), "track.wav"]);
  }

  // ---------------------------------------------------------------- from a track to its artists and albums

  /** In every reachable state the artists of a browsed track are listed where a user looks for
      them, unless the track's directory has that name itself. */
  lemma ArtistsFound(t: Tree, root: Entity, at: Places, uri: string) returns (e: Entity)
    requires Inv(t, root, at) && DirOf(t, at.tracks, uri) != null && SanitizeName(uri) != "artists"
    ensures Reaches(t, root, e, ["browse", "tracks", SanitizeName(uri), "artists"])
    ensures t[e].ops.TrackArtists? && t[e].parent == DirOf(t, at.tracks, uri)
  {
    var path := ["browse", "tracks", SanitizeName(uri)];
    var d := DirOf(t, at.tracks, uri);
    DirOfPath(t, root, at, at.tracks, "tracks", uri);
    ChildFacts(t, root, at.tracks, SanitizeName(uri));
    assert PlaceOk(t, at, d);
    e := t[d].children["artists"];
    var longer := ReachesChild(t, root, d, "artists", path);
    PathOfChild(t, root, d, "artists", path);
    assert longer == ["browse", "tracks", SanitizeName(uri), "artists"];
  }

  /** And so are the albums and the portraits of an artist. */
  lemma AlbumsFound(t: Tree, root: Entity, at: Places, uri: string, list: string) returns (e: Entity)
    requires Inv(t, root, at) && DirOf(t, at.artists, uri) != null && SanitizeName(uri) != list
    requires list == "albums" || list == "portraits"
    ensures Reaches(t, root, e, ["browse", "artists", SanitizeName(uri), list])
    ensures t[e].ops == if list == "albums" then ArtistAlbums else ArtistPortraits
    ensures t[e].parent == DirOf(t, at.artists, uri)
  {
    var path := ["browse", "artists", SanitizeName(uri)];
    var d := DirOf(t, at.artists, uri);
    DirOfPath(t, root, at, at.artists, "artists", uri);
    ChildFacts(t, root, at.artists, SanitizeName(uri));
    assert PlaceOk(t, at, d);
    e := t[d].children[list];
    var longer := ReachesChild(t, root, d, list, path);
    PathOfChild(t, root, d, list, path);
    assert longer == ["browse", "artists", SanitizeName(uri), list];
  }

  /** What a user sees of one listed item. */
  lemma ItemLink(t0: Tree, t: Tree, root: Entity, at: Places, dir: Entity, path: Components, place: Entity,
                 part: string, items: seq<Media>, i: nat)
    requires Inv(t, root, at) && HasPath(t, root, dir, path) && BrowsePlace(at, place, part) && i < |items|
    requires Listed(t0, t, dir, place, items)
    requires SanitizeName(items[i].name) != "" && SanitizeName(items[i].name) !in t0[dir].children && IsFirst(items, i)
    ensures DirOf(t, place, items[i].uri) != null
    ensures LinkAt(t, root, path, SanitizeName(items[i].name), ["browse", part, SanitizeName(items[i].uri)])
  {
    var uri := items[i].uri;
    assert ItemShown(t0, t, dir, place, items, i);
    DirOfPath(t, root, at, place, part, uri);
    ShownIsLinkAt(t, root, at, dir, path, SanitizeName(items[i].name), DirOf(t, place, uri), uri,
                  ["browse", part, SanitizeName(uri)]);
  }

  /** Someone reads a playlist under /playlists/meta with one track in it: a link that leads to the
      browse directory of the track. */
  method BrowseTrack(name: string, track: Track) returns (fs: Filesystem)
    requires Clean(name) && name != "" && name != "meta" && SanitizeName(track.name) != ""
    ensures fresh(fs) && fresh(fs.tree) && fs.Valid() && fresh(fs.tree.t.Keys)
    ensures DirOf(fs.tree.t, fs.at.tracks, track.uri) != null
    ensures LinkAt(fs.tree.t, fs.tree.root, ["playlists", "meta", name], SanitizeName(track.name),
                   ["browse", "tracks", SanitizeName(track.uri)])
  {
    ghost var dir;
    fs, dir := FindPlaylist("meta", name);
    ghost var t0 := fs.tree.t;
    ReadAt(fs, dir, ["playlists", "meta", name], Answer([], [track], [], [], 0));
    ItemLink(t0, fs.tree.t, fs.tree.root, fs.at, dir, ["playlists", "meta", name], fs.at.tracks, "tracks", [track], 0);
  }

  /** Then the artists of the track: */
  method BrowseArtist(fs: Filesystem, track: Track, artist: Artist)
    requires fs.Valid() && DirOf(fs.tree.t, fs.at.tracks, track.uri) != null
    requires SanitizeName(track.uri) != "artists" && SanitizeName(artist.name) != ""
    requires !TakenAt(fs.tree.t, fs.tree.root, ["browse", "tracks", SanitizeName(track.uri), "artists"], artist.name)
    modifies fs, fs.tree, fs.tree.t.Keys
    ensures fs.Valid() && fresh(fs.tree.t.Keys - old(fs.tree.t.Keys)) && Extends(old(fs.tree.t), fs.tree.t)
    ensures DirOf(fs.tree.t, fs.at.artists, artist.uri) != null
    ensures LinkAt(fs.tree.t, fs.tree.root, ["browse", "tracks", SanitizeName(track.uri), "artists"],
                   SanitizeName(artist.name), ["browse", "artists", SanitizeName(artist.uri)])
  {
    ghost var t0 := fs.tree.t;
    ghost var dir := ArtistsFound(t0, fs.tree.root, fs.at, track.uri);
    DescendPath(t0, fs.tree.root, dir);
    ReadAt(fs, dir, ["browse", "tracks", SanitizeName(track.uri), "artists"], Answer([], [], [artist], [], 0));
    ItemLink(t0, fs.tree.t, fs.tree.root, fs.at, dir, ["browse", "tracks", SanitizeName(track.uri), "artists"],
             fs.at.artists, "artists", [artist], 0);
  }

  /** then the albums of the artist. */
  method BrowseAlbum(fs: Filesystem, artist: Artist, album: Album)
    requires fs.Valid() && DirOf(fs.tree.t, fs.at.artists, artist.uri) != null
    requires SanitizeName(artist.uri) != "albums" && SanitizeName(album.name) != ""
    requires !TakenAt(fs.tree.t, fs.tree.root, ["browse", "artists", SanitizeName(artist.uri), "albums"], album.name)
    modifies fs, fs.tree, fs.tree.t.Keys
    ensures fs.Valid() && fresh(fs.tree.t.Keys - old(fs.tree.t.Keys)) && Extends(old(fs.tree.t), fs.tree.t)
    ensures LinkAt(fs.tree.t, fs.tree.root, ["browse", "artists", SanitizeName(artist.uri), "albums"],
                   SanitizeName(album.name), ["browse", "albums", SanitizeName(album.uri)])
  {
    ghost var t0 := fs.tree.t;
    ghost var dir := AlbumsFound(t0, fs.tree.root, fs.at, artist.uri, "albums");
    DescendPath(t0, fs.tree.root, dir);
    ReadAt(fs, dir, ["browse", "artists", SanitizeName(artist.uri), "albums"], Answer([], [], [], [album], 0));
    ItemLink(t0, fs.tree.t, fs.tree.root, fs.at, dir, ["browse", "artists", SanitizeName(artist.uri), "albums"],
             fs.at.albums, "albums", [album], 0);
  }

  /** The directory at this path shows the name already. */
  ghost predicate TakenAt(t: Tree, root: Entity, path: Components, name: string) {
    var d := Descend(t, root, path);
    d != null && d in t && SanitizeName(name) in t[d].children
  }

  /** The portraits of an artist: a file for each, under its number. */
  method LookAtPortraits(fs: Filesystem, artist: Artist, portraits: nat, ghost i: nat)
    requires fs.Valid() && DirOf(fs.tree.t, fs.at.artists, artist.uri) != null
    requires SanitizeName(artist.uri) != "portraits" && i < portraits
    modifies fs, fs.tree, fs.tree.t.Keys
    ensures fs.Valid()
    ensures var e := Descend(fs.tree.t, fs.tree.root,
                             ["browse", "artists", SanitizeName(artist.uri), "portraits", PortraitName(i)]);
      e != null && e in fs.tree.t
  {
    ghost var t0, path := fs.tree.t, ["browse", "artists", SanitizeName(artist.uri), "portraits"];
    ghost var dir := AlbumsFound(t0, fs.tree.root, fs.at, artist.uri, "portraits");
    ReadAt(fs, dir, ["browse", "artists", SanitizeName(artist.uri), "portraits"], Answer([], [], [], [], portraits));
    ghost var t := fs.tree.t;
    PortraitThere(t0, t, fs.tree.root, dir, path, portraits, i);
    assert path + [PortraitName(i)]
        == ["browse", "artists", SanitizeName(artist.uri), "portraits", PortraitName(i)];
  }

  lemma PortraitThere(t0: Tree, t: Tree, root: Entity, dir: Entity, path: Components, portraits: nat, i: nat)
    requires Forest(t, root) && HasPath(t, root, dir, path) && i < portraits
    requires NamesListed(t0, t, dir, PortraitNames(portraits), File, Attribute)
    ensures Descend(t, root, path + [PortraitName(i)]) != null && Descend(t, root, path + [PortraitName(i)]) in t
  {
    PortraitsShown(portraits);
    assert PortraitNames(portraits)[i] == PortraitName(i);
    PathOfChild(t, root, dir, PortraitName(i), path);
    DescendPath(t, root, t[dir].children[PortraitName(i)]);
  }

  // ---------------------------------------------------------------- a name used twice

  /** The exception of the lookup is met: a playlist with a track of its own name in it has a link
      that its full path does not find. */
  method TrackNamedLikePlaylist(name: string, track: Track) returns (fs: Filesystem, ghost link: Entity)
    requires Clean(name) && name != "" && name != "meta" && track.name == name
    ensures fs.Valid() && link in fs.tree.t && fs.tree.t[link].kind.Link?
    ensures HasPath(fs.tree.t, fs.tree.root, link, ["playlists", "meta", name, name])
    ensures FindOf(fs.tree.t, fs.tree.root, Print(["playlists", "meta", name, name])) == fs.tree.t[link].parent != link
  {
    ghost var dir;
    fs, dir := FindPlaylist("meta", name);
    SanitizeNameSpec(name);
    ghost var t0, path := fs.tree.t, ["playlists", "meta", name];
    ReadAt(fs, dir, ["playlists", "meta", name], Answer([], [track], [], [], 0));
    link := SameNameLink(t0, fs.tree.t, fs.tree.root, fs.at, dir, path, track);
    assert path + [name] == ["playlists", "meta", name, name];
  }

  lemma SameNameLink(t0: Tree, t: Tree, root: Entity, at: Places, dir: Entity, path: Components, track: Track)
    returns (link: Entity)
    requires Inv(t, root, at) && HasPath(t, root, dir, path) && Listed(t0, t, dir, at.tracks, [track])
    requires t0[dir].children == map[] && t[dir].name == Some(track.name)
    requires SanitizeName(track.name) == track.name != ""
    ensures link in t && t[link].kind.Link? && HasPath(t, root, link, path + [track.name])
    ensures FindOf(t, root, Print(path + [track.name])) == t[link].parent != link
  {
    assert ItemShown(t0, t, dir, at.tracks, [track], 0);
    link := t[dir].children[track.name];
    PathOfChild(t, root, dir, track.name, path);
    ParentDepth(t, link);
  }
}
