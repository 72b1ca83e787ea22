/** Reading playlist documents back: a parser that knows nothing of the builder's calls but the
    names of the elements, and what it gets from what the builder writes. */
module XspfParse {
  import opened CStrings
  import opened Numbers
  import opened XspfRoundTrip
  import opened Xspf

  // ---------------------------------------------------------------- the parser

  /** What stands between the angle brackets of a tag, and what comes after it. */
  function SplitTag(s: string): Option<(string, string)> {
    if s == "" || s[0] != '<' then None
    else
      match StrStr(s, ">")
      case None => None
      case Some(p) => if p == 0 then None else Some((s[1..p], s[p + 1..]))
  }

  /** An end tag (section 3.1 of XML 1.0) of the name, and the end of its line. */
  predicate EndTagAt(s: string, at: nat, name: string) {
    var end := at + 2 + |name|;
    && end + 2 <= |s| && s[at] == '<' && s[at + 1] == '/' && s[at + 2..end] == name
    && s[end] == '>' && s[end + 1] == '\n'
  }

  /** Character data up to the end tag of the element, and what comes after the line. */
  function SplitContent(name: string, body: string): Option<(string, string)> {
    match StrStr(body, "<")
    case None => None
    case Some(q) => if EndTagAt(body, q, name) then Some((body[..q], body[q + |name| + 4..])) else None
  }

  /** A field by its name and its character data. */
  function FieldOf(name: string, content: string, unescape: string -> string): Option<Call> {
    if name == "location" then Some(SetLocation(unescape(content)))
    else if name == "duration" then
      match Value(content)
      case None => None
      case Some(n) => Some(SetDuration(n))
    else
      match Decode(content)
      case None => None
      case Some(t) =>
        if name == "title" then Some(SetTitle(t))
        else if name == "creator" then Some(SetCreator(t))
        else if name == "album" then Some(SetAlbum(t))
        else None
  }

  /** An element without text of its own takes a line. */
  function Line(c: Call, body: string): Option<(Call, string)> {
    if body != "" && body[0] == '\n' then Some((c, body[1..])) else None
  }

  function MarkerOf(name: string): Option<Call> {
    if name == "playlist version=\"1\" xmlns=\"http://xspf.org/ns/0/\"" then Some(BeginPlaylist)
    else if name == "/playlist" then Some(EndPlaylist)
    else if name == "trackList" then Some(BeginTracklist)
    else if name == "/trackList" then Some(EndTracklist)
    else if name == "track" then Some(BeginTrack)
    else if name == "/track" then Some(EndTrack)
    else None
  }

  /** The first element of a text, and what comes after it. */
  function ParseCall(s: string, unescape: string -> string): Option<(Call, string)> {
    match SplitTag(s)
    case None => None
    case Some((name, body)) =>
      match MarkerOf(name)
      case Some(c) => Line(c, body)
      case None =>
        match SplitContent(name, body)
        case None => None
        case Some((content, rest)) =>
          match FieldOf(name, content, unescape)
          case None => None
          case Some(c) => Some((c, rest))
  }

  lemma ParseCallShorter(s: string, unescape: string -> string)
    ensures var r := ParseCall(s, unescape); r.Some? ==> |r.value.1| < |s|
  {
  }

  function ParseCalls(s: string, unescape: string -> string): Option<seq<Call>>
    decreases |s|
  {
    if s == "" then Some([])
    else
      match ParseCall(s, unescape)
      case None => None
      case Some((c, rest)) =>
        ParseCallShorter(s, unescape);
        match ParseCalls(rest, unescape)
        case None => None
        case Some(cs) => Some([c] + cs)
  }

  // ---------------------------------------------------------------- one element

  /** Escaping of locations can be undone, and leaves nothing that looks like a tag. */
  ghost predicate Escaper(escape: string -> string, unescape: string -> string) {
    forall s: string :: unescape(escape(s)) == s && '<' !in escape(s)
  }

  lemma FirstAt(a: string, k: char, b: string)
    requires k !in a
    ensures StrStr(a + ([k] + b), [k]) == Some(|a|)
  {
    var s := a + ([k] + b);
    assert s[|a|..|a| + 1] == [k];
    assert OccursAt(s, [k], |a|);
    forall j: nat | j < |a|
      ensures !OccursAt(s, [k], j)
    {
      assert s[j] == a[j] && s[j..j + 1][0] == s[j];
    }
  }

  lemma SplitTagOf(name: string, body: string)
    requires '>' !in name
    ensures SplitTag(Opening(name) + body) == Some((name, body))
  {
    var s := Opening(name) + body;
    assert s == ("<" + name) + ([ '>' ] + body);
    FirstAt("<" + name, '>', body);
    assert s[1..1 + |name|] == name && s[|name| + 2..] == body;
  }

  lemma SplitContentOf(name: string, content: string, rest: string)
    requires '<' !in content
    ensures SplitContent(name, content + (Closing(name) + rest)) == Some((content, rest))
  {
    var close := Closing(name);
    var s := content + (close + rest);
    assert close + rest == ['<'] + (close[1..] + rest);
    FirstAt(content, '<', close[1..] + rest);
    assert s[|content|..|content| + |close|] == close;
    assert s[|content|..][..|close|] == close;
    assert close[2..2 + |name|] == name;
    assert s[..|content|] == content && s[|content| + |close|..] == rest;
  }

  /** What the parser gets from the element of a call. */
  ghost function Decoded(c: Call, escape: string -> string, unescape: string -> string): Option<Call> {
    if IsField(c) then FieldOf(TagName(c), Content(c, escape), unescape) else Some(c)
  }

  lemma ContentIsText(c: Call, escape: string -> string, unescape: string -> string)
    requires Escaper(escape, unescape) && IsField(c)
    ensures '<' !in Content(c, escape)
  {
    match c {
      case SetLocation(t) => assert unescape(escape(t)) == t;
      case SetDuration(n) =>
      case SetTitle(t) => SanitizedHasNoMarks(t); assert IsMark('<');
      case SetCreator(t) => SanitizedHasNoMarks(t); assert IsMark('<');
      case SetAlbum(t) => SanitizedHasNoMarks(t); assert IsMark('<');
    }
  }

  lemma MarkerNames(c: Call)
    ensures MarkerOf(TagName(c)) == if IsField(c) then None else Some(c)
  {
    if IsField(c) {
      FieldIsNoMarker(TagName(c));
    } else {
      assert PLAYLIST == "playlist version=\"1\" xmlns=\"http://xspf.org/ns/0/\"";
      assert |"/playlist"| == |"trackList"| == 9 && "/playlist"[0] != "trackList"[0];
    }
  }

  lemma FieldIsNoMarker(name: string)
    requires name == "location" || name == "duration" || name == "title" || name == "creator" || name == "album"
    ensures MarkerOf(name) == None
  {
    assert name[0] != 'p' && name[0] != '/' && (name[0] == 't' ==> name[1] == 'i');
  }

  lemma NoBracket(c: Call)
    ensures '>' !in TagName(c)
  {
    if c.BeginPlaylist? {
      NoBracketInPlaylist();
    }
  }

  lemma NoBracketInPlaylist()
    ensures '>' !in PLAYLIST
  {
    assert '>' !in VERSION;
    assert '>' !in NAMESPACE;
  }

  /** The parser reads one element the builder has written, whatever follows. */
  lemma ParseText(c: Call, rest: string, escape: string -> string, unescape: string -> string)
    requires Escaper(escape, unescape)
    ensures ParseCall(Text(c, escape) + rest, unescape)
         == match Decoded(c, escape, unescape)
            case None => None
            case Some(d) => Some((d, rest))
  {
    var name := TagName(c);
    NoBracket(c);
    MarkerNames(c);
    if IsField(c) {
      var content := Content(c, escape);
      ContentIsText(c, escape, unescape);
      FieldText(name, content, rest);
      SplitTagOf(name, content + (Closing(name) + rest));
      SplitContentOf(name, content, rest);
    } else {
      Assoc(Opening(name), "\n", rest);
      SplitTagOf(name, "\n" + rest);
      assert ("\n" + rest)[1..] == rest;
    }
  }

  lemma FieldText(name: string, content: string, rest: string)
    ensures (Opening(name) + (content + Closing(name))) + rest
         == Opening(name) + (content + (Closing(name) + rest))
  {
    Assoc(Opening(name), content + Closing(name), rest);
    Assoc(content, Closing(name), rest);
  }

  // ---------------------------------------------------------------- whole documents

  ghost function DecodedAll(calls: seq<Call>, escape: string -> string, unescape: string -> string): Option<seq<Call>> {
    if calls == [] then Some([])
    else
      match Decoded(calls[0], escape, unescape)
      case None => None
      case Some(d) =>
        match DecodedAll(calls[1..], escape, unescape)
        case None => None
        case Some(ds) => Some([d] + ds)
  }

  /** For every sequence of calls, in whatever order and state, the parser gets from the
      document the calls with their texts decoded. */
  lemma {:induction false} ParseTexts(calls: seq<Call>, escape: string -> string, unescape: string -> string)
    requires Escaper(escape, unescape)
    ensures ParseCalls(Texts(calls, escape), unescape) == DecodedAll(calls, escape, unescape)
  {
    if calls == [] {
    } else {
      var c, rest := calls[0], Texts(calls[1..], escape);
      ParseText(c, rest, escape, unescape);
      ParseTexts(calls[1..], escape, unescape);
      assert Text(c, escape) + rest != "" by {
        assert (Text(c, escape) + rest)[0] == '<';
      }
    }
  }

  /** The text of the call is one that is escaped right. */
  ghost predicate CallEscapable(c: Call) {
    c.SetTitle? || c.SetCreator? || c.SetAlbum? ==> Escapable(c.text)
  }

  lemma DecodedSame(c: Call, escape: string -> string, unescape: string -> string)
    requires Escaper(escape, unescape)
    ensures Decoded(c, escape, unescape) == Some(c) <==> CallEscapable(c)
  {
    if c.SetLocation? {
      assert unescape(escape(c.text)) == c.text;
    } else if c.SetDuration? {
      PrintedValue(c.duration);
    } else if IsField(c) {
      SanitizedRoundTrip(c.text);
    }
  }

  ghost predicate AllEscapable(calls: seq<Call>) {
    forall i :: 0 <= i < |calls| ==> CallEscapable(calls[i])
  }

  lemma AllEscapableTail(calls: seq<Call>)
    requires calls != []
    ensures AllEscapable(calls) <==> CallEscapable(calls[0]) && AllEscapable(calls[1..])
  {
    if AllEscapable(calls[1..]) {
      forall i | 0 < i < |calls|
        ensures CallEscapable(calls[i])
      {
        assert calls[1..][i - 1] == calls[i];
      }
    }
  }

  lemma {:induction false} DecodedAllSame(calls: seq<Call>, escape: string -> string, unescape: string -> string)
    requires Escaper(escape, unescape)
    ensures DecodedAll(calls, escape, unescape) == Some(calls) <==> AllEscapable(calls)
  {
    if calls == [] {
    } else {
      DecodedSame(calls[0], escape, unescape);
      DecodedAllSame(calls[1..], escape, unescape);
      AllEscapableTail(calls);
      assert calls == [calls[0]] + calls[1..];
    }
  }

  /** Every document, built by any sequence of calls, parses back to these calls if and only if
      every title, creator and album has at most one ampersand and no "!amp;". */
  lemma CallsRoundTrip(calls: seq<Call>, escape: string -> string, unescape: string -> string)
    requires Escaper(escape, unescape)
    ensures ParseCalls(Texts(calls, escape), unescape) == Some(calls) <==> AllEscapable(calls)
  {
    ParseTexts(calls, escape, unescape);
    DecodedAllSame(calls, escape, unescape);
  }
}
