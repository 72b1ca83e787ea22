/** The builder of playlist documents (xspf.c): a string that grows by one element per call,
    and a state that only warns. */
module Xspf {
  import opened CStrings
  import opened Numbers
  import opened XspfSanitize

  datatype State = INIT | PLAYLIST_BEGIN | TRACKLIST_BEGIN | TRACK_BEGIN

  /** The calls of the builder. */
  datatype Call =
    | BeginPlaylist | EndPlaylist
    | BeginTracklist | EndTracklist
    | BeginTrack | EndTrack
    | SetLocation(text: string)
    | SetDuration(duration: int)
    | SetTitle(text: string)
    | SetCreator(text: string)
    | SetAlbum(text: string)

  const XML_DECL: string := "<?xml version=\"1.0\" encoding=\"UTF-8\"?>\n"
  const VERSION: string := "playlist version=\"1\" "
  const NAMESPACE: string := "xmlns=\"http://xspf.org/ns/0/\""
  const PLAYLIST: string := VERSION + NAMESPACE

  predicate IsField(c: Call) {
    c.SetLocation? || c.SetDuration? || c.SetTitle? || c.SetCreator? || c.SetAlbum?
  }

  /** What stands between the angle brackets of the element's first tag. */
  function TagName(c: Call): string {
    match c
    case BeginPlaylist => PLAYLIST
    case EndPlaylist => "/playlist"
    case BeginTracklist => "trackList"
    case EndTracklist => "/trackList"
    case BeginTrack => "track"
    case EndTrack => "/track"
    case SetLocation(_) => "location"
    case SetDuration(_) => "duration"
    case SetTitle(_) => "title"
    case SetCreator(_) => "creator"
    case SetAlbum(_) => "album"
  }

  /** The text within a field; locations are written by the given escaper. */
  function Content(c: Call, escape: string -> string): string
    requires IsField(c)
  {
    match c
    case SetLocation(text) => escape(text)
    case SetDuration(duration) => Printed(duration)
    case SetTitle(text) => Sanitized(text)
    case SetCreator(text) => Sanitized(text)
    case SetAlbum(text) => Sanitized(text)
  }

  function Opening(name: string): string {
    "<" + (name + ">")
  }

  function Closing(name: string): string {
    "</" + (name + ">\n")
  }

  /** What a call appends. */
  function Text(c: Call, escape: string -> string): string {
    if IsField(c) then Opening(TagName(c)) + (Content(c, escape) + Closing(TagName(c)))
    else Opening(TagName(c)) + "\n"
  }

  function Texts(calls: seq<Call>, escape: string -> string): string {
    if calls == [] then "" else Text(calls[0], escape) + Texts(calls[1..], escape)
  }

  /** The state in which a call does not warn, and the state after it; a field does not change
      the state. */
  function Expected(c: Call): State {
    match c
    case BeginPlaylist => INIT
    case EndPlaylist => PLAYLIST_BEGIN
    case BeginTracklist => PLAYLIST_BEGIN
    case EndTracklist => TRACKLIST_BEGIN
    case BeginTrack => TRACKLIST_BEGIN
    case _ => TRACK_BEGIN
  }

  function After(s: State, c: Call): State {
    match c
    case BeginPlaylist => PLAYLIST_BEGIN
    case EndPlaylist => INIT
    case BeginTracklist => TRACKLIST_BEGIN
    case EndTracklist => PLAYLIST_BEGIN
    case BeginTrack => TRACK_BEGIN
    case EndTrack => TRACKLIST_BEGIN
    case _ => s
  }

  /** xspf */
  class Builder {
    var state: State
    var document: string
    /** The warnings that have been logged. */
    var warnings: nat
    const escape: string -> string
    /** What the document starts with, and the calls so far. */
    ghost const head: string
    ghost var calls: seq<Call>

    ghost predicate Valid()
      reads this
    {
      document == head + Texts(calls, escape)
    }

    /** xspf_new */
    constructor (escape: string -> string)
      ensures Valid() && state == INIT && calls == [] && warnings == 0 && this.escape == escape && head == XML_DECL
    {
      state, document, warnings, calls := INIT, XML_DECL, 0, [];
      this.escape, head := escape, XML_DECL;
    }

    /** g_warn_if_fail */
    method WarnIfFail(ok: bool)
      modifies this`warnings
      ensures warnings == old(warnings) + if ok then 0 else 1
    {
      if !ok {
        warnings := warnings + 1;
      }
    }

    /** What every call does to the builder. */
    twostate predicate Did(c: Call)
      reads this
    {
      && Valid() && calls == old(calls) + [c] && state == After(old(state), c)
      && warnings == old(warnings) + if old(state) == Expected(c) then 0 else 1
    }

    /** g_string_append of a tag and the end of its line. */
    method AppendTag(name: string, ghost c: Call)
      requires Valid() && !IsField(c) && name == TagName(c)
      modifies this`document, this`calls
      ensures Valid() && calls == old(calls) + [c]
    {
      TextsSnoc(head, calls, c, escape);
      document := document + (Opening(name) + "\n");
      calls := calls + [c];
    }

    /** g_string_append_printf of an element that has only text in it. */
    method AppendField(name: string, content: string, ghost c: Call)
      requires Valid() && IsField(c) && name == TagName(c) && content == Content(c, escape)
      modifies this`document, this`calls
      ensures Valid() && calls == old(calls) + [c]
    {
      TextsSnoc(head, calls, c, escape);
      document := document + (Opening(name) + (content + Closing(name)));
      calls := calls + [c];
    }

    method BeginPlaylist()
      requires Valid()
      modifies this
      ensures Did(Call.BeginPlaylist)
    {
      WarnIfFail(state == INIT);
      AppendTag(PLAYLIST, Call.BeginPlaylist);
      state := PLAYLIST_BEGIN;
    }

    method EndPlaylist()
      requires Valid()
      modifies this
      ensures Did(Call.EndPlaylist)
    {
      WarnIfFail(state == PLAYLIST_BEGIN);
      AppendTag("/playlist", Call.EndPlaylist);
      state := INIT;
    }

    method BeginTracklist()
      requires Valid()
      modifies this
      ensures Did(Call.BeginTracklist)
    {
      WarnIfFail(state == PLAYLIST_BEGIN);
      AppendTag("trackList", Call.BeginTracklist);
      state := TRACKLIST_BEGIN;
    }

    method EndTracklist()
      requires Valid()
      modifies this
      ensures Did(Call.EndTracklist)
    {
      WarnIfFail(state == TRACKLIST_BEGIN);
      AppendTag("/trackList", Call.EndTracklist);
      state := PLAYLIST_BEGIN;
    }

    method BeginTrack()
      requires Valid()
      modifies this
      ensures Did(Call.BeginTrack)
    {
      WarnIfFail(state == TRACKLIST_BEGIN);
      AppendTag("track", Call.BeginTrack);
      state := TRACK_BEGIN;
    }

    method EndTrack()
      requires Valid()
      modifies this
      ensures Did(Call.EndTrack)
    {
      WarnIfFail(state == TRACK_BEGIN);
      AppendTag("/track", Call.EndTrack);
      state := TRACKLIST_BEGIN;
    }

    method SetLocation(location: string)
      requires Valid()
      modifies this
      ensures Did(Call.SetLocation(location))
    {
      WarnIfFail(state == TRACK_BEGIN);
      var escaped := escape(location);
      AppendField("location", escaped, Call.SetLocation(location));
    }

    method SetDuration(duration: int)
      requires Valid()
      modifies this
      ensures Did(Call.SetDuration(duration))
    {
      WarnIfFail(state == TRACK_BEGIN);
      AppendField("duration", Printed(duration), Call.SetDuration(duration));
    }

    method SetTitle(title: string)
      requires Valid()
      modifies this
      ensures Did(Call.SetTitle(title))
    {
      WarnIfFail(state == TRACK_BEGIN);
      var sanitized := Sanitize(title);
      AppendField("title", sanitized, Call.SetTitle(title));
    }

    method SetCreator(creator: string)
      requires Valid()
      modifies this
      ensures Did(Call.SetCreator(creator))
    {
      WarnIfFail(state == TRACK_BEGIN);
      var sanitized := Sanitize(creator);
      AppendField("creator", sanitized, Call.SetCreator(creator));
    }

    method SetAlbum(album: string)
      requires Valid()
      modifies this
      ensures Did(Call.SetAlbum(album))
    {
      WarnIfFail(state == TRACK_BEGIN);
      var sanitized := Sanitize(album);
      AppendField("album", sanitized, Call.SetAlbum(album));
    }
  }

  lemma {:induction false} TextsConcat(a: seq<Call>, b: seq<Call>, escape: string -> string)
    ensures Texts(a + b, escape) == Texts(a, escape) + Texts(b, escape)
  {
    if a == [] {
      assert a + b == b;
    } else {
      assert (a + b)[1..] == a[1..] + b;
      TextsConcat(a[1..], b, escape);
    }
  }

  lemma TextsSnoc(head: string, calls: seq<Call>, c: Call, escape: string -> string)
    ensures head + Texts(calls + [c], escape) == (head + Texts(calls, escape)) + Text(c, escape)
  {
    TextsConcat(calls, [c], escape);
    assert [c][1..] == [] && Texts([c], escape) == Text(c, escape);
    Assoc(head, Texts(calls, escape), Text(c, escape));
  }

  // ---------------------------------------------------------------- what the states are for

  datatype Element = PlaylistElement | TracklistElement | TrackElement

  function Opens(c: Call): Option<Element> {
    match c
    case BeginPlaylist => Some(PlaylistElement)
    case BeginTracklist => Some(TracklistElement)
    case BeginTrack => Some(TrackElement)
    case _ => None
  }

  function Closes(c: Call): Option<Element> {
    match c
    case EndPlaylist => Some(PlaylistElement)
    case EndTracklist => Some(TracklistElement)
    case EndTrack => Some(TrackElement)
    case _ => None
  }

  function Parent(e: Element): Option<Element> {
    match e
    case PlaylistElement => None
    case TracklistElement => Some(PlaylistElement)
    case TrackElement => Some(TracklistElement)
  }

  function Innermost(open: seq<Element>): Option<Element> {
    if open == [] then None else Some(open[|open| - 1])
  }

  /** An element belongs into its parent, closes what was opened last, and fields belong into
      tracks. */
  predicate Allowed(open: seq<Element>, c: Call) {
    if Opens(c).Some? then Innermost(open) == Parent(Opens(c).value)
    else if Closes(c).Some? then Innermost(open) == Closes(c)
    else Innermost(open) == Some(TrackElement)
  }

  function Entered(open: seq<Element>, c: Call): seq<Element> {
    if Opens(c).Some? then open + [Opens(c).value]
    else if Closes(c).Some? && open != [] then open[..|open| - 1]
    else open
  }

  /** The calls write well-nested elements into those that are open. */
  predicate Nested(open: seq<Element>, calls: seq<Call>)
    decreases calls
  {
    calls != [] ==> Allowed(open, calls[0]) && Nested(Entered(open, calls[0]), calls[1..])
  }

  /** The elements that are open in a state. */
  function OpenIn(s: State): seq<Element> {
    match s
    case INIT => []
    case PLAYLIST_BEGIN => [PlaylistElement]
    case TRACKLIST_BEGIN => [PlaylistElement, TracklistElement]
    case TRACK_BEGIN => [PlaylistElement, TracklistElement, TrackElement]
  }

  /** How often the calls warn. */
  function Warnings(s: State, calls: seq<Call>): nat
    decreases calls
  {
    if calls == [] then 0
    else (if s == Expected(calls[0]) then 0 else 1) + Warnings(After(s, calls[0]), calls[1..])
  }

  lemma CallAllowed(s: State, c: Call)
    ensures s == Expected(c) <==> Allowed(OpenIn(s), c)
    ensures s == Expected(c) ==> Entered(OpenIn(s), c) == OpenIn(After(s, c))
  {
  }

  /** The builder warns if and only if the elements are not well nested: its four states do
      the work of a stack of open elements. */
  lemma {:induction false} NoWarningIffNested(s: State, calls: seq<Call>)
    ensures Warnings(s, calls) == 0 <==> Nested(OpenIn(s), calls)
    decreases calls
  {
    if calls == [] {
    } else {
      CallAllowed(s, calls[0]);
      NoWarningIffNested(After(s, calls[0]), calls[1..]);
    }
  }
}
