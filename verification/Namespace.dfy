/** The mounted file system as a whole: what a user and libspotify can do to the namespace,
    one event after the other, and what holds after every run of events. */
module Namespace {
  import opened CStrings
  import opened Names
  import opened Paths
  import opened Entities
  import opened Growth
  import opened EntityTrees
  import opened Places
  import opened Sites
  import opened InitialTrees
  import opened LinkMaking
  import opened Readdirs
  import opened Playlists
  import opened MusicDirs

  /** What libspotify answers to whatever question a readdir asks. */
  datatype Answer = Answer(playlists: seq<string>, tracks: seq<Track>, artists: seq<Artist>, albums: seq<Album>,
                           portraits: nat)

  /** A track a search has found, with the name of its first artist. */
  datatype Hit = Hit(artist: string, track: Track)

  datatype Status = Ok | NoEntry | Invalid | NoAccess | Exists

  datatype Event =
    /** opendir and readdir of a path */
    | ReadDirectory(path: string, answer: Answer)
    /** mkdir of a name in the directory at a path */
    | MakeDirectory(parentPath: string, name: string)
    /** the completion callback of a search that was started earlier */
    | SearchDone(search: nat, hits: seq<Hit>)

  /** "%s - %s.wav" */
  function HitName(hit: Hit): string {
    hit.artist + " - " + hit.track.name + ".wav"
  }

  /** What a hit is shown as: the artist, a dash, the title, and the ending of a sound file. */
  lemma HitShown(hit: Hit)
    requires hit.artist != "" && SlashFree(hit.artist) && !IsSpace(hit.artist[0])
    ensures SanitizeName(HitName(hit)) == hit.artist + Slashless(" - " + hit.track.name, SLASH_REPLACEMENT) + ".wav"
    ensures SlashFree(hit.track.name) ==> SanitizeName(HitName(hit)) == hit.artist + " - " + hit.track.name + ".wav"
  {
    var middle := " - " + hit.track.name;
    assert HitName(hit) == hit.artist + middle + ".wav";
    SanitizeKeepsEnds(hit.artist, middle, ".wav");
    if SlashFree(hit.track.name) {
      SlashlessIdentity(middle, SLASH_REPLACEMENT);
    }
  }

  function HitLinks(hits: seq<Hit>): (items: seq<Media>)
    ensures |items| == |hits|
    ensures forall i :: 0 <= i < |hits| ==> items[i] == Media(hits[i].track.uri, HitName(hits[i]))
  {
    seq(|hits|, i requires 0 <= i < |hits| => Media(hits[i].track.uri, HitName(hits[i])))
  }

  /** What a readdir has done, by the callback of the directory. */
  ghost predicate HasRead(t0: Tree, t: Tree, at: Places, dir: Entity, answer: Answer) {
    && dir in t0
    && match t0[dir].ops
       case MetaRoot => NamesListed(t0, t, dir, answer.playlists, Dir, MetaPlaylist)
       case MusicRoot => NamesListed(t0, t, dir, answer.playlists, Dir, MusicPlaylist)
       case MetaPlaylist => Listed(t0, t, dir, at.tracks, answer.tracks)
       case MusicPlaylist => PlaylistShown(t0, t, at, dir, answer.tracks)
       case TrackArtists => Listed(t0, t, dir, at.artists, answer.artists)
       case ArtistAlbums => Listed(t0, t, dir, at.albums, answer.albums)
       case ArtistPortraits => NamesListed(t0, t, dir, PortraitNames(answer.portraits), File, Attribute)
       case _ => t == t0
  }

  ghost predicate LeadsOn(t0: Tree, t: Tree, root: Entity, l: Entity) {
    && l in t0 && t0[l].kind.Link? && Founded(t0, l) && Attached(t0, root, l)
    && t0[l].parent != null && t0[l].goal != null ==>
      && l in t && t[l].parent == t0[l].parent && t[l].target == t0[l].target
      && t[l].goal == t0[l].goal && t[l].about == t0[l].about
      && Resolve(t, root, t0[l].parent, t0[l].target) == t0[l].goal
  }

  /** Every link that was attached before is as it was, and leads where it led. */
  ghost predicate LinksUnbroken(t0: Tree, t: Tree, root: Entity) {
    forall l {:trigger LeadsOn(t0, t, root, l)} :: l in t0 ==> LeadsOn(t0, t, root, l)
  }

  lemma GrowthBreaksNoLink(t0: Tree, t: Tree, root: Entity, at: Places)
    requires Inv(t0, root, at) && Extends(t0, t)
    ensures LinksUnbroken(t0, t, root)
  {
    forall l | l in t0
      ensures LeadsOn(t0, t, root, l)
    {
      assert LinkOk(t0, root, at, l) && KeptIn(t0, t, l) && NodeOk(t0, root, l);
      if t0[l].kind.Link? && Attached(t0, root, l) && t0[l].parent != null && t0[l].goal != null {
        ExtendsResolve(t0, t, root, t0[l].parent, t0[l].target);
      }
    }
  }

  /** There is at most one browse directory for a sanitized URI. */
  lemma OneDirPerUri(t: Tree, root: Entity, at: Places, place: Entity, x: Entity, y: Entity)
    requires Inv(t, root, at) && (place == at.tracks || place == at.artists || place == at.albums)
    requires x in t && y in t && t[x].parent == place && t[y].parent == place
    ensures SanitizeName(t[x].auxdata) == SanitizeName(t[y].auxdata) <==> x == y
  {
    assert PlaceOk(t, at, x) && PlaceOk(t, at, y);
    ParentFacts(t, root, x);
    ParentFacts(t, root, y);
  }

  /** What a user of the mount sees: reading an attached link gives the path of the browse
      directory or the sound file of the URI it was made for, and looking that path up finds it,
      unless it has its parent's name. */
  lemma LinkFollowed(t: Tree, root: Entity, at: Places, l: Entity)
    requires Inv(t, root, at) && l in t && t[l].kind.Link? && Founded(t, l) && Attached(t, root, l)
    ensures t[l].parent != null && t[l].parent in t && Founded(t, t[l].parent)
    ensures var g := GoalFor(t, at, t[l].parent, t[l].about);
      && g != null && g in t && Founded(t, g)
      && ReadLink(PathOf(t, t[l].parent), t[l].target) == PathOf(t, g)
      && FindOf(t, root, Print(ReadLink(PathOf(t, t[l].parent), t[l].target))) == Found(t, g)
      && (Found(t, g) == g <==> !NamedLikePlace(t[t[l].parent].ops, t[l].about))
  {
    assert LinkOk(t, root, at, l);
    ParentFacts(t, root, l);
    var g := t[l].goal;
    ResolveIsReadLink(t, root, t[l].parent, t[l].target);
    FindPrinted(t, root, g);
    FoundUnlessNamedLikePlace(t, root, at, t[l].parent, t[l].about);
  }

  /** The URI sanitizes to the name of the very directory that the browse directories for it
      are in. */
  predicate NamedLikePlace(ops: Ops, uri: string) {
    match ops
    case MetaPlaylist => SanitizeName(uri) == "tracks"
    case TrackArtists => SanitizeName(uri) == "artists"
    case ArtistAlbums => SanitizeName(uri) == "albums"
    case _ => false
  }

  /** A sound file never has its parent's name, and a browse directory only in that case. */
  lemma FoundUnlessNamedLikePlace(t: Tree, root: Entity, at: Places, dir: Entity, uri: string)
    requires Inv(t, root, at) && dir in t && GoalFor(t, at, dir, uri) != null
    ensures GoalFor(t, at, dir, uri) in t
    ensures var g := GoalFor(t, at, dir, uri); Found(t, g) == g <==> !NamedLikePlace(t[dir].ops, uri)
  {
    AllLocated(t, root, at);
    if t[dir].ops.MusicPlaylist? || t[dir].ops.SearchResults? {
      var d := DirOf(t, at.tracks, uri);
      ChildFacts(t, root, at.tracks, SanitizeName(uri));
      assert PlaceOk(t, at, d);
      ChildFacts(t, root, d, "track.wav");
    } else if t[dir].ops.MetaPlaylist? {
      NamedByUri(t, root, at.tracks, uri);
    } else if t[dir].ops.TrackArtists? {
      NamedByUri(t, root, at.artists, uri);
    } else {
      NamedByUri(t, root, at.albums, uri);
    }
  }

  lemma NamedByUri(t: Tree, root: Entity, place: Entity, uri: string)
    requires Forest(t, root) && place in t && DirOf(t, place, uri) != null
    ensures var d := DirOf(t, place, uri);
      d in t && t[d].parent == place && t[d].name == Some(SanitizeName(uri)) && d != place
  {
    ChildFacts(t, root, place, SanitizeName(uri));
    var d := DirOf(t, place, uri);
    ParentFacts(t, root, d);
    ParentDepth(t, d);
  }

  ghost predicate IsSearch(t: Tree, s: Entity) {
    s in t && t[s].ops.SearchResults?
  }

  ghost predicate Searching(t: Tree, searches: seq<Entity>) {
    forall i {:trigger searches[i]} :: 0 <= i < |searches| ==> IsSearch(t, searches[i])
  }

  lemma SearchesStay(t0: Tree, t: Tree, searches: seq<Entity>)
    requires Extends(t0, t) && Searching(t0, searches)
    ensures Searching(t, searches)
  {
    forall i | 0 <= i < |searches|
      ensures IsSearch(t, searches[i])
    {
      assert KeptIn(t0, t, searches[i]);
    }
  }

  class Filesystem {
    const tree: EntityTree
    ghost const at: Places
    /** The directories that libspotify got as the user data of a search. */
    var searches: seq<Entity>

    ghost predicate Valid()
      reads this, tree, tree.t.Keys
    {
      Good(tree, at) && Searching(tree.t, searches)
    }

    ghost function Now(): Moment
      reads this, tree
    {
      Moment(tree.t, searches)
    }

    /** spfs_init */
    constructor ()
      ensures Valid() && fresh(tree) && fresh(tree.t.Keys)
      ensures searches == [] && AsBuilt(tree.t, tree.root, at)
    {
      var tr, where := InitialTree();
      tree := tr;
      at := where;
      searches := [];
    }

    /** spfs_opendir and spfs_readdir */
    method ReadPath(path: string, answer: Answer) returns (status: Status)
      requires Valid()
      modifies tree, tree.t.Keys
      ensures Valid() && fresh(tree.t.Keys - old(tree.t.Keys))
      ensures Extends(old(tree.t), tree.t)
      ensures DirectoryRead(old(tree.t), tree.t, tree.root, at, path, answer, status)
    {
      RootPath(tree.t, tree.root);
      var e := tree.FindPath(tree.root, path);
      if e == null {
        return NoEntry;
      }
      assert tree.Mirrors(e);
      if e.kind != Dir {
        return Invalid;
      }
      Dispatch(tree, at, e, answer);
      SearchesStay(old(tree.t), tree.t, searches);
      return Ok;
    }

    /** spfs_mkdir, with the path cut into its directory and its last name. */
    method MakeDirectoryAt(parentPath: string, name: string) returns (status: Status)
      requires Valid()
      modifies this, tree, tree.t.Keys
      ensures Valid() && fresh(tree.t.Keys - old(tree.t.Keys))
      ensures Extends(old(tree.t), tree.t)
      ensures DirectoryMade(old(Now()), Now(), tree.root, at, parentPath, name, status)
    {
      RootPath(tree.t, tree.root);
      var e := tree.FindPath(tree.root, parentPath);
      if e == null {
        return NoEntry;
      }
      assert tree.Mirrors(e) && PlaceOk(tree.t, at, e);
      if e.kind != Dir {
        return NoEntry;
      }
      if !e.ops.SearchRoot? {
        return NoAccess;
      }
      status := SearchMkdir(e, name);
    }

    /** search_dir_mkdir */
    method SearchMkdir(parent: Entity, name: string) returns (status: Status)
      requires Valid() && parent == at.search
      modifies this, tree, parent`children
      ensures Valid() && fresh(tree.t.Keys - old(tree.t.Keys))
      ensures Extends(old(tree.t), tree.t)
      ensures SearchMade(old(Now()), Now(), at, name, status)
    {
      ghost var t0 := tree.t;
      AllLocated(t0, tree.root, at);
      assert tree.Mirrors(parent);
      var taken := tree.HasChild(parent, name);
      if taken {
        return Exists;
      }
      var e := CreateEntity(tree, at, parent, name, Dir, SearchResults);
      EnsuredGrows(t0, t0, tree.t, parent, SanitizeName(name), Dir, SearchResults);
      SearchesStay(t0, tree.t, searches);
      searches := searches + [e];
      assert SanitizeName(name) == "" ==> SameIn(t0, tree.t, at.search);
      return Ok;
    }

    /** track_search_complete_cb, called for a search that was started earlier. */
    method SearchComplete(search: nat, hits: seq<Hit>)
      requires Valid() && search < |searches|
      modifies tree, tree.t.Keys
      ensures Valid() && fresh(tree.t.Keys - old(tree.t.Keys))
      ensures Extends(old(tree.t), tree.t)
      ensures WavsListed(old(tree.t), tree.t, at, searches[search], HitLinks(hits))
    {
      assert IsSearch(tree.t, searches[search]);
      AllLocated(tree.t, tree.root, at);
      ShowWavs(tree, at, searches[search], HitLinks(hits));
      SearchesStay(old(tree.t), tree.t, searches);
    }

    /** One event. */
    method Handle(event: Event) returns (status: Status)
      requires Valid()
      modifies this, tree, tree.t.Keys
      ensures Valid() && fresh(tree.t.Keys - old(tree.t.Keys))
      ensures Extends(old(tree.t), tree.t)
      ensures Steps(old(Now()), Now(), tree.root, at, event, status)
    {
      status := Ok;
      match event
      case ReadDirectory(path, answer) => status := ReadPath(path, answer);
      case MakeDirectory(parentPath, name) => status := MakeDirectoryAt(parentPath, name);
      case SearchDone(search, hits) =>
        if search < |searches| {
          SearchComplete(search, hits);
        }
    }

    /** A run of events goes through a moment before each event and one after the last, each
        made of the one before by exactly the step of its event. At its end every attached link
        leads to the entity it was made for, and every link that was there at the start is as it
        was and leads where it led. */
    method Run(events: seq<Event>) returns (statuses: seq<Status>, ghost moments: seq<Moment>)
      requires Valid()
      modifies this, tree, tree.t.Keys
      ensures Valid() && Extends(old(tree.t), tree.t)
      ensures |statuses| == |events| && |moments| == |events| + 1
      ensures moments[0] == old(Now()) && moments[|events|] == Now()
      ensures forall i {:trigger StepAt(moments, tree.root, at, events, statuses, i)} :: 0 <= i < |events| ==>
                StepAt(moments, tree.root, at, events, statuses, i)
      ensures forall l {:trigger LinkOk(tree.t, tree.root, at, l)} :: l in tree.t ==> LinkOk(tree.t, tree.root, at, l)
      ensures LinksUnbroken(old(tree.t), tree.t, tree.root)
    {
      statuses, moments := RunSteps(events);
      GrowthBreaksNoLink(old(tree.t), tree.t, tree.root, at);
    }

    method RunSteps(events: seq<Event>) returns (statuses: seq<Status>, ghost moments: seq<Moment>)
      requires Valid()
      modifies this, tree, tree.t.Keys
      ensures Valid() && Extends(old(tree.t), tree.t)
      ensures |statuses| == |events| && |moments| == |events| + 1
      ensures moments[0] == old(Now()) && moments[|events|] == Now()
      ensures forall i {:trigger StepAt(moments, tree.root, at, events, statuses, i)} :: 0 <= i < |events| ==>
                StepAt(moments, tree.root, at, events, statuses, i)
    {
      ghost var t0 := tree.t;
      statuses, moments := [], [Now()];
      while |statuses| < |events|
        invariant |statuses| <= |events| && |moments| == |statuses| + 1
        invariant Valid() && fresh(tree.t.Keys - t0.Keys) && Extends(t0, tree.t)
        invariant moments[0] == old(Now()) && moments[|statuses|] == Now()
        invariant forall i {:trigger StepAt(moments, tree.root, at, events, statuses, i)} :: 0 <= i < |statuses| ==>
                    StepAt(moments, tree.root, at, events, statuses, i)
      {
        ghost var t := tree.t;
        var status := Handle(events[|statuses|]);
        ExtendsTransitive(t0, t, tree.t);
        assert fresh(tree.t.Keys - t0.Keys);
        OneMoreStep(moments, Now(), tree.root, at, events, statuses, status);
        statuses, moments := statuses + [status], moments + [Now()];
      }
    }
  }

  // ---------------------------------------------------------------- what each event does

  /** The tree and the searches at one moment. */
  datatype Moment = Moment(t: Tree, searches: seq<Entity>)

  /** opendir and readdir, by what the path finds. */
  ghost predicate DirectoryRead(t0: Tree, t: Tree, root: Entity, at: Places, path: string, answer: Answer,
                                status: Status)
    requires Forest(t0, root)
  {
    var e := FindOf(t0, root, path);
    if e == null then status == NoEntry && t == t0
    else if e in t0 && !t0[e].kind.Dir? then status == Invalid && t == t0
    else status == Ok && HasRead(t0, t, at, e, answer)
  }

  /** mkdir, by what the path of the parent finds. */
  ghost predicate DirectoryMade(m0: Moment, m: Moment, root: Entity, at: Places, parentPath: string, name: string,
                                status: Status)
    requires Forest(m0.t, root)
  {
    var e := FindOf(m0.t, root, parentPath);
    if e == null || (e in m0.t && !m0.t[e].kind.Dir?) then status == NoEntry && m == m0
    else if e in m0.t && !m0.t[e].ops.SearchRoot? then status == NoAccess && m == m0
    else SearchMade(m0, m, at, name, status)
  }

  /** The completion of a search; nothing happens if there is no such search. */
  ghost predicate SearchFinished(m0: Moment, m: Moment, at: Places, search: nat, hits: seq<Hit>) {
    && m.searches == m0.searches
    && if search < |m0.searches| then WavsListed(m0.t, m.t, at, m0.searches[search], HitLinks(hits)) else m == m0
  }

  ghost predicate Steps(m0: Moment, m: Moment, root: Entity, at: Places, event: Event, status: Status)
    requires Forest(m0.t, root)
  {
    match event
    case ReadDirectory(path, answer) =>
      DirectoryRead(m0.t, m.t, root, at, path, answer, status) && m.searches == m0.searches
    case MakeDirectory(parentPath, name) => DirectoryMade(m0, m, root, at, parentPath, name, status)
    case SearchDone(search, hits) => SearchFinished(m0, m, at, search, hits) && status == Ok
  }

  /** The step of the i-th event of a run. */
  ghost predicate StepAt(moments: seq<Moment>, root: Entity, at: Places, events: seq<Event>, statuses: seq<Status>,
                         i: nat)
  {
    && i < |events| && i < |statuses| && i + 1 < |moments| && Forest(moments[i].t, root)
    && Steps(moments[i], moments[i + 1], root, at, events[i], statuses[i])
  }

  lemma OneMoreStep(moments: seq<Moment>, m: Moment, root: Entity, at: Places, events: seq<Event>,
                    statuses: seq<Status>, status: Status)
    requires |moments| == |statuses| + 1 && |statuses| < |events| && Forest(moments[|statuses|].t, root)
    requires forall i {:trigger StepAt(moments, root, at, events, statuses, i)} :: 0 <= i < |statuses| ==>
               StepAt(moments, root, at, events, statuses, i)
    requires Steps(moments[|statuses|], m, root, at, events[|statuses|], status)
    ensures var ms, ss := moments + [m], statuses + [status];
      forall i {:trigger StepAt(ms, root, at, events, ss, i)} :: 0 <= i < |ss| ==> StepAt(ms, root, at, events, ss, i)
  {
    var ms, ss := moments + [m], statuses + [status];
    forall i | 0 <= i < |ss|
      ensures StepAt(ms, root, at, events, ss, i)
    {
      if i < |statuses| {
        assert StepAt(moments, root, at, events, statuses, i);
      }
    }
  }

  /** What a mkdir in /search has done: refused a name that is there, or else started a search
      whose directory is shown under the name, if the name is not empty. */
  ghost predicate SearchMade(m0: Moment, m: Moment, at: Places, name: string, status: Status) {
    && at.search in m0.t && at.search in m.t
    && var k := SanitizeName(name);
    && if k in m0.t[at.search].children then status == Exists && m == m0
       else
         && status == Ok && |m.searches| == |m0.searches| + 1 && m.searches[..|m0.searches|] == m0.searches
         && var s := m.searches[|m0.searches|];
         && s !in m0.t && IsSearch(m.t, s) && m.t[s].children == map[] && Grown(m0.t, m.t, {at.search})
         && m.t[at.search].children
         == if k == "" then m0.t[at.search].children else m0.t[at.search].children[k := s]
  }

  /** dir->ops->readdir */
  method Dispatch(tr: EntityTree, ghost at: Places, e: Entity, answer: Answer)
    requires Good(tr, at) && e in tr.t && tr.t[e].kind.Dir?
    modifies tr, tr.t.Keys
    ensures Good(tr, at) && fresh(tr.t.Keys - old(tr.t.Keys))
    ensures HasRead(old(tr.t), tr.t, at, e, answer) && Extends(old(tr.t), tr.t)
  {
    assert tr.Mirrors(e) && PlaceOk(tr.t, at, e);
    AllLocated(tr.t, tr.root, at);
    if e.ops.MetaRoot? {
      PlaylistsReaddir(tr, at, e, answer.playlists, MetaPlaylist);
    } else if e.ops.MusicRoot? {
      PlaylistsReaddir(tr, at, e, answer.playlists, MusicPlaylist);
    } else if e.ops.MetaPlaylist? {
      MetaReaddir(tr, at, e, answer.tracks);
    } else if e.ops.MusicPlaylist? {
      MusicReaddir(tr, at, e, answer.tracks);
    } else if e.ops.TrackArtists? {
      ArtistsReaddir(tr, at, e, answer.artists);
    } else if e.ops.ArtistAlbums? {
      AlbumsReaddir(tr, at, e, answer.albums);
    } else if e.ops.ArtistPortraits? {
      PortraitsReaddir(tr, at, e, answer.portraits);
    }
  }
}
