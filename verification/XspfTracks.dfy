/** The document of a list of tracks: the calls a playlist file makes of the builder, and a
    reader of the document that gets the tracks back. */
module XspfTracks {
  import opened CStrings
  import opened XspfSanitize
  import opened XspfRoundTrip
  import opened Xspf
  import opened XspfParse

  /** What the document says about a track. */
  datatype Track = Track(location: string, duration: int, title: string, album: string, creators: seq<string>)

  function CreatorCalls(creators: seq<string>): seq<Call> {
    if creators == [] then [] else [SetCreator(creators[0])] + CreatorCalls(creators[1..])
  }

  function DataCalls(t: Track): seq<Call> {
    [SetLocation(t.location), SetDuration(t.duration), SetTitle(t.title), SetAlbum(t.album)]
  }

  /** The location, and populate_xspf_from_sp_track. */
  function FieldCalls(t: Track): seq<Call> {
    DataCalls(t) + CreatorCalls(t.creators)
  }

  function TrackCalls(t: Track): seq<Call> {
    [BeginTrack] + (FieldCalls(t) + [EndTrack])
  }

  function TracksCalls(ts: seq<Track>): seq<Call> {
    if ts == [] then [] else TrackCalls(ts[0]) + TracksCalls(ts[1..])
  }

  /** The calls of xspf_read for the tracks of a directory. */
  function DocumentCalls(ts: seq<Track>): seq<Call> {
    [BeginPlaylist, BeginTracklist] + (TracksCalls(ts) + [EndTracklist, EndPlaylist])
  }

  // ---------------------------------------------------------------- building

  lemma {:induction false} CreatorsSnoc(a: seq<string>, c: string)
    ensures CreatorCalls(a + [c]) == CreatorCalls(a) + [SetCreator(c)]
  {
    if a == [] {
      assert [c][1..] == [];
    } else {
      assert (a + [c])[1..] == a[1..] + [c];
      CreatorsSnoc(a[1..], c);
    }
  }

  lemma {:induction false} TracksSnoc(a: seq<Track>, t: Track)
    ensures TracksCalls(a + [t]) == TracksCalls(a) + TrackCalls(t)
  {
    if a == [] {
      assert [t][1..] == [];
    } else {
      assert (a + [t])[1..] == a[1..] + [t];
      TracksSnoc(a[1..], t);
    }
  }

  lemma CreatorsStep(creators: seq<string>, i: nat)
    requires i < |creators|
    ensures CreatorCalls(creators[..i + 1]) == CreatorCalls(creators[..i]) + [SetCreator(creators[i])]
  {
    CreatorsSnoc(creators[..i], creators[i]);
    assert creators[..i + 1] == creators[..i] + [creators[i]];
  }

  lemma TracksStep(ts: seq<Track>, i: nat)
    requires i < |ts|
    ensures TracksCalls(ts[..i + 1]) == TracksCalls(ts[..i]) + TrackCalls(ts[i])
  {
    TracksSnoc(ts[..i], ts[i]);
    assert ts[..i + 1] == ts[..i] + [ts[i]];
  }

  method AddCreators(b: Builder, creators: seq<string>)
    requires b.Valid() && b.state == TRACK_BEGIN
    modifies b
    ensures b.Valid() && b.state == TRACK_BEGIN && b.warnings == old(b.warnings)
    ensures b.calls == old(b.calls) + CreatorCalls(creators)
  {
    ghost var was, done := b.calls, [];
    assert was + done == was;
    for i := 0 to |creators|
      invariant b.Valid() && b.state == TRACK_BEGIN && b.warnings == old(b.warnings)
      invariant done == CreatorCalls(creators[..i]) && b.calls == was + done
    {
      CreatorsStep(creators, i);
      b.SetCreator(creators[i]);
      Assoc(was, done, [SetCreator(creators[i])]);
      done := done + [SetCreator(creators[i])];
    }
    assert creators[..|creators|] == creators;
  }

  method AddData(b: Builder, t: Track)
    requires b.Valid() && b.state == TRACK_BEGIN
    modifies b
    ensures b.Valid() && b.state == TRACK_BEGIN && b.warnings == old(b.warnings)
    ensures b.calls == old(b.calls) + DataCalls(t)
  {
    b.SetLocation(t.location);
    b.SetDuration(t.duration);
    b.SetTitle(t.title);
    b.SetAlbum(t.album);
  }

  method AddFields(b: Builder, t: Track)
    requires b.Valid() && b.state == TRACK_BEGIN
    modifies b
    ensures b.Valid() && b.state == TRACK_BEGIN && b.warnings == old(b.warnings)
    ensures b.calls == old(b.calls) + FieldCalls(t)
  {
    ghost var was := b.calls;
    AddData(b, t);
    AddCreators(b, t.creators);
    Assoc(was, DataCalls(t), CreatorCalls(t.creators));
  }

  method AddTrack(b: Builder, t: Track)
    requires b.Valid() && b.state == TRACKLIST_BEGIN
    modifies b
    ensures b.Valid() && b.state == TRACKLIST_BEGIN && b.warnings == old(b.warnings)
    ensures b.calls == old(b.calls) + TrackCalls(t)
  {
    ghost var was, fields := b.calls, FieldCalls(t);
    b.BeginTrack();
    AddFields(b, t);
    b.EndTrack();
    Assoc(was + [BeginTrack], fields, [EndTrack]);
    Assoc(was, [BeginTrack], fields + [EndTrack]);
  }

  method AddTracks(b: Builder, ts: seq<Track>)
    requires b.Valid() && b.state == TRACKLIST_BEGIN
    modifies b
    ensures b.Valid() && b.state == TRACKLIST_BEGIN && b.warnings == old(b.warnings)
    ensures b.calls == old(b.calls) + TracksCalls(ts)
  {
    ghost var was, done := b.calls, [];
    assert was + done == was;
    for i := 0 to |ts|
      invariant b.Valid() && b.state == TRACKLIST_BEGIN && b.warnings == old(b.warnings)
      invariant done == TracksCalls(ts[..i]) && b.calls == was + done
    {
      ghost var more := TrackCalls(ts[i]);
      TracksStep(ts, i);
      AddTrack(b, ts[i]);
      Assoc(was, done, more);
      done := done + more;
    }
    assert ts[..|ts|] == ts;
  }

  /** The document of the tracks, and how often the builder has warned. */
  method BuildDocument(ts: seq<Track>, escape: string -> string) returns (doc: string, warnings: nat)
    ensures doc == XML_DECL + Texts(DocumentCalls(ts), escape)
    ensures warnings == 0
  {
    var b := new Builder(escape);
    b.BeginPlaylist();
    b.BeginTracklist();
    ghost var head, tracks := [BeginPlaylist, BeginTracklist], TracksCalls(ts);
    assert b.calls == head;
    AddTracks(b, ts);
    EndDocument(b);
    Assoc(head, tracks, [EndTracklist, EndPlaylist]);
    doc, warnings := b.document, b.warnings;
  }

  method EndDocument(b: Builder)
    requires b.Valid() && b.state == TRACKLIST_BEGIN
    modifies b
    ensures b.Valid() && b.warnings == old(b.warnings)
    ensures b.calls == old(b.calls) + [EndTracklist, EndPlaylist]
  {
    b.EndTracklist();
    b.EndPlaylist();
  }

  // ---------------------------------------------------------------- reading

  const NO_TRACK: Track := Track("", 0, "", "", [])

  /** The fields of a track, in any order, up to its end; and what comes after it. */
  function ReadFields(calls: seq<Call>, t: Track): (r: Option<(Track, seq<Call>)>)
    ensures r.Some? ==> |r.value.1| < |calls|
  {
    if calls == [] then None
    else
      match calls[0]
      case EndTrack => Some((t, calls[1..]))
      case SetLocation(text) => ReadFields(calls[1..], t.(location := text))
      case SetDuration(n) => ReadFields(calls[1..], t.(duration := n))
      case SetTitle(text) => ReadFields(calls[1..], t.(title := text))
      case SetAlbum(text) => ReadFields(calls[1..], t.(album := text))
      case SetCreator(text) => ReadFields(calls[1..], t.(creators := t.creators + [text]))
      case _ => None
  }

  function ReadTracks(calls: seq<Call>): Option<seq<Track>>
    decreases |calls|
  {
    if calls == [EndTracklist, EndPlaylist] then Some([])
    else if calls == [] || calls[0] != BeginTrack then None
    else
      match ReadFields(calls[1..], NO_TRACK)
      case None => None
      case Some((t, rest)) =>
        match ReadTracks(rest)
        case None => None
        case Some(ts) => Some([t] + ts)
  }

  function ReadCalls(calls: seq<Call>): Option<seq<Track>> {
    if [BeginPlaylist, BeginTracklist] <= calls then ReadTracks(calls[2..]) else None
  }

  /** The declaration that a document starts with (section 2.8 of XML 1.0), and the end of its line. */
  const DECLARATION: string := "<?xml version=\"1.0\" encoding=\"UTF-8\"?>\n"

  /** The tracks of a document. */
  function ReadDocument(doc: string, unescape: string -> string): Option<seq<Track>> {
    if DECLARATION <= doc then
      match ParseCalls(doc[|DECLARATION|..], unescape)
      case None => None
      case Some(calls) => ReadCalls(calls)
    else None
  }

  lemma {:induction false} ReadCreators(creators: seq<string>, t: Track, rest: seq<Call>)
    ensures ReadFields(CreatorCalls(creators) + ([EndTrack] + rest), t)
         == Some((t.(creators := t.creators + creators), rest))
  {
    var calls := CreatorCalls(creators) + ([EndTrack] + rest);
    if creators == [] {
      assert calls == [EndTrack] + rest && calls[1..] == rest && t.creators + creators == t.creators;
    } else {
      var more := CreatorCalls(creators[1..]) + ([EndTrack] + rest);
      assert calls == [SetCreator(creators[0])] + more && calls[1..] == more;
      ReadCreators(creators[1..], t.(creators := t.creators + [creators[0]]), rest);
      assert (t.creators + [creators[0]]) + creators[1..] == t.creators + creators;
    }
  }

  /** Reading the calls of a track gives the track, and leaves what follows. */
  lemma ReadTrack(t: Track, rest: seq<Call>)
    ensures ReadFields((FieldCalls(t) + [EndTrack]) + rest, NO_TRACK) == Some((t, rest))
  {
    var creators := CreatorCalls(t.creators) + ([EndTrack] + rest);
    Assoc(FieldCalls(t), [EndTrack], rest);
    Assoc(DataCalls(t), CreatorCalls(t.creators), [EndTrack] + rest);
    var d := NO_TRACK.(location := t.location, duration := t.duration, title := t.title, album := t.album);
    ReadData(t, creators);
    ReadCreators(t.creators, d, rest);
    assert NO_TRACK.creators + t.creators == t.creators;
  }

  lemma ReadData(t: Track, rest: seq<Call>)
    ensures ReadFields(DataCalls(t) + rest, NO_TRACK)
         == ReadFields(rest, NO_TRACK.(location := t.location, duration := t.duration,
                                       title := t.title, album := t.album))
  {
    var c0, c1, c2, c3 := SetLocation(t.location), SetDuration(t.duration), SetTitle(t.title), SetAlbum(t.album);
    var s3 := [c3] + rest;
    var s2 := [c2] + s3;
    var s1 := [c1] + s2;
    var s0 := [c0] + s1;
    assert DataCalls(t) + rest == s0 && s0[1..] == s1 && s1[1..] == s2 && s2[1..] == s3 && s3[1..] == rest;
    var t1 := NO_TRACK.(location := t.location);
    var t2 := t1.(duration := t.duration);
    assert ReadFields(s0, NO_TRACK) == ReadFields(s1, t1) == ReadFields(s2, t2);
    assert ReadFields(s2, t2) == ReadFields(s3, t2.(title := t.title));
  }

  lemma {:induction false} ReadTracksBack(ts: seq<Track>)
    ensures ReadTracks(TracksCalls(ts) + [EndTracklist, EndPlaylist]) == Some(ts)
  {
    var end := [EndTracklist, EndPlaylist];
    var calls := TracksCalls(ts) + end;
    if ts == [] {
      assert calls == end;
    } else {
      var rest := TracksCalls(ts[1..]) + end;
      Assoc(TrackCalls(ts[0]), TracksCalls(ts[1..]), end);
      Assoc([BeginTrack], FieldCalls(ts[0]) + [EndTrack], rest);
      assert calls == [BeginTrack] + ((FieldCalls(ts[0]) + [EndTrack]) + rest);
      assert calls[1..] == (FieldCalls(ts[0]) + [EndTrack]) + rest;
      ReadTrack(ts[0], rest);
      ReadTracksBack(ts[1..]);
      assert ts == [ts[0]] + ts[1..];
    }
  }

  lemma ReadCallsBack(ts: seq<Track>)
    ensures ReadCalls(DocumentCalls(ts)) == Some(ts)
  {
    var calls := DocumentCalls(ts);
    assert calls[2..] == TracksCalls(ts) + [EndTracklist, EndPlaylist];
    ReadTracksBack(ts);
  }

  // ---------------------------------------------------------------- what the reader gets

  function DecodedTexts(ts: seq<string>): Option<seq<string>> {
    if ts == [] then Some([])
    else
      match Decode(Sanitized(ts[0]))
      case None => None
      case Some(t) =>
        match DecodedTexts(ts[1..])
        case None => None
        case Some(us) => Some([t] + us)
  }

  function DecodedTrack(t: Track): Option<Track> {
    match Decode(Sanitized(t.title))
    case None => None
    case Some(title) =>
      match Decode(Sanitized(t.album))
      case None => None
      case Some(album) =>
        match DecodedTexts(t.creators)
        case None => None
        case Some(creators) => Some(Track(t.location, t.duration, title, album, creators))
  }

  function DecodedTracks(ts: seq<Track>): Option<seq<Track>> {
    if ts == [] then Some([])
    else
      match DecodedTrack(ts[0])
      case None => None
      case Some(t) =>
        match DecodedTracks(ts[1..])
        case None => None
        case Some(us) => Some([t] + us)
  }

  /** Two parsed parts one after the other. */
  function Both(a: Option<seq<Call>>, b: Option<seq<Call>>): Option<seq<Call>> {
    if a.None? || b.None? then None else Some(a.value + b.value)
  }

  lemma {:induction false} DecodedBoth(a: seq<Call>, b: seq<Call>, escape: string -> string, unescape: string -> string)
    ensures DecodedAll(a + b, escape, unescape)
         == Both(DecodedAll(a, escape, unescape), DecodedAll(b, escape, unescape))
  {
    if a == [] {
      assert a + b == b;
      var d := DecodedAll(b, escape, unescape);
      assert d.Some? ==> [] + d.value == d.value;
    } else {
      assert (a + b)[1..] == a[1..] + b;
      DecodedBoth(a[1..], b, escape, unescape);
      var d := Decoded(a[0], escape, unescape);
      var x, y := DecodedAll(a[1..], escape, unescape), DecodedAll(b, escape, unescape);
      if d.Some? && x.Some? && y.Some? {
        Assoc([d.value], x.value, y.value);
      }
    }
  }

  /** The text of a title, a creator or an album. */
  lemma DecodedText(c: Call, escape: string -> string, unescape: string -> string)
    requires c.SetTitle? || c.SetCreator? || c.SetAlbum?
    ensures Decoded(c, escape, unescape)
         == match Decode(Sanitized(c.text)) case None => None case Some(t) => Some(c.(text := t))
  {
    assert "title"[0] != "album"[0] && |"creator"| == 7 && |"location"| == 8 && |"duration"| == 8;
  }

  lemma {:induction false} DecodedCreators(creators: seq<string>, escape: string -> string, unescape: string -> string)
    ensures DecodedAll(CreatorCalls(creators), escape, unescape)
         == match DecodedTexts(creators) case None => None case Some(ts) => Some(CreatorCalls(ts))
  {
    if creators == [] {
    } else {
      var calls := CreatorCalls(creators);
      assert calls[0] == SetCreator(creators[0]) && calls[1..] == CreatorCalls(creators[1..]);
      DecodedText(calls[0], escape, unescape);
      DecodedCreators(creators[1..], escape, unescape);
      var t, us := Decode(Sanitized(creators[0])), DecodedTexts(creators[1..]);
      if t.Some? && us.Some? {
        assert ([t.value] + us.value)[1..] == us.value;
      }
    }
  }

  lemma DecodedOne(c: Call, escape: string -> string, unescape: string -> string)
    ensures DecodedAll([c], escape, unescape)
         == match Decoded(c, escape, unescape) case None => None case Some(d) => Some([d])
  {
    assert [c][1..] == [];
    var d := Decoded(c, escape, unescape);
    assert d.Some? ==> [d.value] + [] == [d.value];
  }

  lemma DecodedPair(c: Call, d: Call, escape: string -> string, unescape: string -> string)
    ensures var dc, dd := Decoded(c, escape, unescape), Decoded(d, escape, unescape);
      DecodedAll([c, d], escape, unescape) == if dc.None? || dd.None? then None else Some([dc.value, dd.value])
  {
    var dc, dd := Decoded(c, escape, unescape), Decoded(d, escape, unescape);
    DecodedOne(d, escape, unescape);
    assert [c, d][1..] == [d];
    assert dc.Some? && dd.Some? ==> [dc.value] + [dd.value] == [dc.value, dd.value];
  }

  /** The title and the album, decoded. */
  lemma DecodedTitleAndAlbum(title: string, album: string, escape: string -> string, unescape: string -> string)
    returns (r: Option<seq<Call>>)
    ensures r == DecodedAll([SetTitle(title), SetAlbum(album)], escape, unescape)
    ensures var t, a := Decode(Sanitized(title)), Decode(Sanitized(album));
      r == if t.None? || a.None? then None else Some([SetTitle(t.value), SetAlbum(a.value)])
  {
    var c, d := SetTitle(title), SetAlbum(album);
    DecodedPair(c, d, escape, unescape);
    DecodedText(c, escape, unescape);
    DecodedText(d, escape, unescape);
    r := DecodedAll([c, d], escape, unescape);
  }

  lemma DataOf(location: string, duration: int, title: string, album: string, creators: seq<string>)
    ensures DataCalls(Track(location, duration, title, album, creators))
         == [SetLocation(location), SetDuration(duration)] + [SetTitle(title), SetAlbum(album)]
  {
  }

  lemma DecodedData(t: Track, escape: string -> string, unescape: string -> string) returns (r: Option<seq<Call>>)
    requires Escaper(escape, unescape)
    ensures r == DecodedAll(DataCalls(t), escape, unescape)
    ensures var title, album := Decode(Sanitized(t.title)), Decode(Sanitized(t.album));
      r == if title.None? || album.None? then None
           else Some(DataCalls(Track(t.location, t.duration, title.value, album.value, t.creators)))
  {
    var front, back := [SetLocation(t.location), SetDuration(t.duration)], [SetTitle(t.title), SetAlbum(t.album)];
    DataOf(t.location, t.duration, t.title, t.album, t.creators);
    var a := FrontDecoded(t, escape, unescape);
    var b := DecodedTitleAndAlbum(t.title, t.album, escape, unescape);
    DecodedBoth(front, back, escape, unescape);
    r := Both(a, b);
    var title, album := Decode(Sanitized(t.title)), Decode(Sanitized(t.album));
    if title.Some? && album.Some? {
      DataOf(t.location, t.duration, title.value, album.value, t.creators);
    }
  }

  lemma FrontDecoded(t: Track, escape: string -> string, unescape: string -> string) returns (r: Option<seq<Call>>)
    requires Escaper(escape, unescape)
    ensures r == DecodedAll([SetLocation(t.location), SetDuration(t.duration)], escape, unescape)
    ensures r == Some([SetLocation(t.location), SetDuration(t.duration)])
  {
    r := Some([SetLocation(t.location), SetDuration(t.duration)]);
    DecodedAllSame(r.value, escape, unescape);
  }

  lemma DecodedFields(t: Track, escape: string -> string, unescape: string -> string)
    requires Escaper(escape, unescape)
    ensures DecodedAll(FieldCalls(t), escape, unescape)
         == match DecodedTrack(t) case None => None case Some(u) => Some(FieldCalls(u))
  {
    var data := DecodedData(t, escape, unescape);
    DecodedCreators(t.creators, escape, unescape);
    DecodedBoth(DataCalls(t), CreatorCalls(t.creators), escape, unescape);
  }

  lemma DecodedTrackCalls(t: Track, escape: string -> string, unescape: string -> string)
    requires Escaper(escape, unescape)
    ensures DecodedAll(TrackCalls(t), escape, unescape)
         == match DecodedTrack(t) case None => None case Some(u) => Some(TrackCalls(u))
  {
    DecodedFields(t, escape, unescape);
    DecodedOne(BeginTrack, escape, unescape);
    DecodedOne(EndTrack, escape, unescape);
    DecodedBoth(FieldCalls(t), [EndTrack], escape, unescape);
    DecodedBoth([BeginTrack], FieldCalls(t) + [EndTrack], escape, unescape);
  }

  lemma {:induction false} DecodedTracksCalls(ts: seq<Track>, escape: string -> string, unescape: string -> string)
    requires Escaper(escape, unescape)
    ensures DecodedAll(TracksCalls(ts), escape, unescape)
         == match DecodedTracks(ts) case None => None case Some(us) => Some(TracksCalls(us))
  {
    if ts == [] {
    } else {
      DecodedTrackCalls(ts[0], escape, unescape);
      DecodedTracksCalls(ts[1..], escape, unescape);
      DecodedBoth(TrackCalls(ts[0]), TracksCalls(ts[1..]), escape, unescape);
      var t, us := DecodedTrack(ts[0]), DecodedTracks(ts[1..]);
      if t.Some? && us.Some? {
        assert ([t.value] + us.value)[1..] == us.value;
      }
    }
  }

  lemma DecodedDocument(ts: seq<Track>, escape: string -> string, unescape: string -> string)
    requires Escaper(escape, unescape)
    ensures DecodedAll(DocumentCalls(ts), escape, unescape)
         == match DecodedTracks(ts) case None => None case Some(us) => Some(DocumentCalls(us))
  {
    var begin, end := [BeginPlaylist, BeginTracklist], [EndTracklist, EndPlaylist];
    DecodedTracksCalls(ts, escape, unescape);
    assert DecodedAll(begin, escape, unescape) == Some(begin) by {
      DecodedAllSame(begin, escape, unescape);
    }
    assert DecodedAll(end, escape, unescape) == Some(end) by {
      DecodedAllSame(end, escape, unescape);
    }
    DecodedBoth(TracksCalls(ts), end, escape, unescape);
    DecodedBoth(begin, TracksCalls(ts) + end, escape, unescape);
  }

  /** What a reader of the document of any list of tracks gets: the tracks with their texts
      decoded. */
  lemma ReadDocumentDecodes(ts: seq<Track>, escape: string -> string, unescape: string -> string)
    requires Escaper(escape, unescape)
    ensures ReadDocument(XML_DECL + Texts(DocumentCalls(ts), escape), unescape) == DecodedTracks(ts)
  {
    var body := Texts(DocumentCalls(ts), escape);
    Stripped(XML_DECL, body);
    ParseTexts(DocumentCalls(ts), escape, unescape);
    DecodedDocument(ts, escape, unescape);
    var us := DecodedTracks(ts);
    if us.Some? {
      ReadCallsBack(us.value);
    }
  }

  lemma Stripped(head: string, body: string)
    ensures head <= head + body && (head + body)[|head|..] == body
  {
  }

  // ---------------------------------------------------------------- the round trip

  /** All texts of the track have at most one ampersand and no "!amp;". */
  ghost predicate TrackEscapable(t: Track) {
    Escapable(t.title) && Escapable(t.album) && forall i :: 0 <= i < |t.creators| ==> Escapable(t.creators[i])
  }

  lemma {:induction false} DecodedTextsSame(ts: seq<string>)
    ensures DecodedTexts(ts) == Some(ts) <==> forall i :: 0 <= i < |ts| ==> Escapable(ts[i])
  {
    if ts == [] {
    } else {
      SanitizedRoundTrip(ts[0]);
      DecodedTextsSame(ts[1..]);
      assert ts == [ts[0]] + ts[1..];
      if DecodedTexts(ts) == Some(ts) {
        assert DecodedTexts(ts[1..]).value == ts[1..];
      }
    }
  }

  lemma DecodedTrackSame(t: Track)
    ensures DecodedTrack(t) == Some(t) <==> TrackEscapable(t)
  {
    SanitizedRoundTrip(t.title);
    SanitizedRoundTrip(t.album);
    DecodedTextsSame(t.creators);
  }

  lemma {:induction false} DecodedTracksSame(ts: seq<Track>)
    ensures DecodedTracks(ts) == Some(ts) <==> forall i :: 0 <= i < |ts| ==> TrackEscapable(ts[i])
  {
    if ts == [] {
    } else {
      DecodedTrackSame(ts[0]);
      DecodedTracksSame(ts[1..]);
      assert ts == [ts[0]] + ts[1..];
      if DecodedTracks(ts) == Some(ts) {
        assert DecodedTracks(ts[1..]).value == ts[1..];
      }
    }
  }

  /** The document of a list of tracks parses back to the same locations, durations, titles,
      albums and creators, if and only if every title, album and creator has at most one
      ampersand and no "!amp;". */
  lemma TracksRoundTrip(ts: seq<Track>, escape: string -> string, unescape: string -> string)
    requires Escaper(escape, unescape)
    ensures ReadDocument(XML_DECL + Texts(DocumentCalls(ts), escape), unescape) == Some(ts)
       <==> forall i :: 0 <= i < |ts| ==> TrackEscapable(ts[i])
  {
    ReadDocumentDecodes(ts, escape, unescape);
    DecodedTracksSame(ts);
  }
}
