/** Whole runs of reads on one sound file, each starting where the last one ended: the results
    are the header followed by the audio, for any split into reads and any interleaving of the
    callbacks, up to the end of the track and after it. */
module WavInOrder {
  import opened Audio
  import opened AudioRuns
  import opened CStrings
  import opened WavAnswers
  import opened WavHeader
  import opened WavRuns
  import opened WavSections
  import opened WholeFrames

  /** A read of the run: how much is asked for, whether libspotify would load the track, and
      the callbacks that arrive from the read before it on. */
  datatype Request = Request(size: nat, loads: bool, batches: seq<seq<Event>>)

  ghost predicate RequestOk(r: Request) {
    forall i :: 0 <= i < |r.batches| ==> AreCallbacks(r.batches[i])
  }

  ghost predicate RequestsOk(rs: seq<Request>) {
    forall i :: 0 <= i < |rs| ==> RequestOk(rs[i])
  }

  /** An open sound file: the playback, expoff, the reader's log, all results of its reads so
      far one after the other, and whether the last read still waits. */
  datatype Handle = Handle(w: World, expoff: nat, log: Log, got: seq<byte>, waits: bool)

  ghost predicate HandleOk(h: Handle) {
    Counted(h.w) && h.w.reader == Outside
  }

  /** The call that a request starts. */
  ghost function CallOf(h: Handle, r: Request): (c: Call)
    requires HandleOk(h) && RequestOk(r)
    ensures Free(c)
  {
    Call(h.w, h.expoff, r.batches, h.log)
  }

  /** The next read starts where the last one has ended. */
  ghost function Next(h: Handle, r: Request, track: nat, duration: int): (n: Handle)
    requires HandleOk(h) && RequestOk(r)
    ensures HandleOk(n)
  {
    if h.waits then h
    else
      match Read(CallOf(h, r), track, duration, r.loads, r.size, |h.got|)
      case Stuck => h.(waits := true)
      case Fails(c) => Handle(c.w, c.expoff, c.log, h.got, false)
      case NoTrack(c) => Handle(c.w, c.expoff, c.log, h.got, false)
      case Reads(bytes, _, c) => Handle(c.w, c.expoff, c.log, h.got + bytes, false)
  }

  ghost function ReadAll(h: Handle, rs: seq<Request>, track: nat, duration: int): (n: Handle)
    requires HandleOk(h) && RequestsOk(rs)
    ensures HandleOk(n)
    decreases rs
  {
    if rs == [] then h
    else
      assert RequestOk(rs[0]);
      ReadAll(Next(h, rs[0], track, duration), rs[1..], track, duration)
  }

  // ---------------------------------------------------------------- what a run keeps

  /** The header of the track, if its duration is known. */
  ghost function HeaderOf(duration: int, f: Format): (h: seq<byte>)
    ensures h == [] || |h| == HEADER
  {
    if duration < 0 then [] else Header(f.channels, f.rate, duration)
  }

  /** Frames of one and of two channels fit into the header without a rest. */
  ghost predicate HeaderIsFrames(f: Format) {
    f.channels > 0 && Whole(HEADER, FrameSize(f.channels))
  }

  lemma MonoAndStereo(f: Format)
    requires f.channels == 1 || f.channels == 2
    ensures HeaderIsFrames(f)
  {
    WholeIsNoRest(HEADER, FrameSize(f.channels));
  }

  /** What has been read is the first bytes of the header, or the header and then the audio
      that has been told; and it is whole frames. */
  ghost predicate Ordered(got: seq<byte>, told: seq<byte>, head: seq<byte>, f: Format) {
    && (|got| < HEADER ==> told == [] && got <= head)
    && (|got| >= HEADER ==> got == head + told)
    && f.channels > 0 && Whole(|got|, FrameSize(f.channels))
  }

  /** What a read starts from: the start of the file, or expoff; and results in order, as long
      as all audio has been in the format. */
  ghost predicate Continues(c: Call, got: seq<byte>, head: seq<byte>, f: Format) {
    && Free(c) && Tuned(c) && c.log.format == f
    && (if got == [] then c.log.told == [] else c.expoff == |got|)
    && (c.log.uniform ==> Ordered(got, c.log.told, head, f))
  }

  /** The outcome of the read continues what was read. */
  ghost predicate Continued(o: Outcome, got: seq<byte>, head: seq<byte>, f: Format) {
    && (o.Reads? ==> Continues(o.c, got + o.bytes, head, f))
    && (o.NoTrack? || o.Fails? ==> Continues(o.c, got, head, f))
  }

  /** If all audio is in the format and will be, it was when the read ends; and after the start
      of the file nothing is heard or lost once a callback has flushed. */
  ghost predicate Keeps(c: Call, o: Outcome, got: seq<byte>) {
    !o.Stuck? ==> (Uniform(c) ==> o.c.log.uniform) && (got != [] ==> EndKept(c.log, o.c.log))
  }

  /** The header bytes of a read, if it starts within the header. */
  ghost predicate HeaderBytes(got: seq<byte>, bytes: seq<byte>, size: nat, head: seq<byte>) {
    if |got| >= HEADER then bytes == []
    else
      && |head| == HEADER && got + bytes <= head
      && |bytes| == (if |got| + size > HEADER then HEADER - |got| else size)
  }

  lemma HeaderPartBytes(head: seq<byte>, got: seq<byte>, size: nat)
    requires |head| == HEADER && |got| < HEADER && got <= head
    ensures HeaderBytes(got, HeaderPart(head, size, |got|), size, head)
  {
    var bytes := HeaderPart(head, size, |got|);
    assert got + bytes == head[..|got| + |bytes|];
  }

  lemma HeaderOrdered(got: seq<byte>, told: seq<byte>, bytes: seq<byte>, size: nat, head: seq<byte>, f: Format)
    requires Ordered(got, told, head, f) && HeaderBytes(got, bytes, size, head)
    requires HeaderIsFrames(f) && Whole(size, FrameSize(f.channels))
    ensures Ordered(got + bytes, told, head, f)
  {
    if |got| >= HEADER {
      assert got + bytes == got;
    } else {
      WholeSum(|got|, size, FrameSize(f.channels));
      if |got + bytes| == HEADER {
        assert got + bytes == head + told;
      }
    }
  }

  lemma AudioOrdered(got: seq<byte>, told: seq<byte>, audio: seq<byte>, head: seq<byte>, f: Format)
    requires Ordered(got, told, head, f) && |got| >= HEADER && Whole(|audio|, FrameSize(f.channels))
    ensures Ordered(got + audio, told + audio, head, f)
  {
    WholeJoined(got, audio, FrameSize(f.channels));
    Assoc(head, told, audio);
  }

  lemma WholeJoined(a: seq<byte>, b: seq<byte>, k: nat)
    requires k > 0 && Whole(|a|, k) && Whole(|b|, k)
    ensures Whole(|a + b|, k)
  {
    WholeSum(|a|, |b|, k);
  }

  /** The audio that is asked for after the header is whole frames. */
  lemma RestIsFrames(got: seq<byte>, bytes: seq<byte>, size: nat, head: seq<byte>, k: nat)
    requires k > 0 && Whole(HEADER, k) && Whole(|got|, k) && Whole(size, k)
    requires HeaderBytes(got, bytes, size, head) && |bytes| <= size
    ensures |got| + |bytes| >= HEADER ==> Whole(size - |bytes|, k)
  {
    if |got| < HEADER && |got| + size > HEADER {
      WholeSum(|got|, size, k);
      WholeSum(|got| + size - HEADER, HEADER, k);
    }
  }

  /** So whatever the split into reads: the first 44 bytes announce the format of all the audio
      that follows them. */
  lemma GotAnnounces(got: seq<byte>, told: seq<byte>, duration: int, f: Format)
    requires Ordered(got, told, HeaderOf(duration, f), f) && |got| >= 44
    requires duration >= 0 && Fits(f.channels, f.rate, duration)
    ensures ReadWave(got[..44]) == Some(Announced(f.channels, f.rate, duration))
  {
    HeaderAnnounces(f.channels, f.rate, duration);
    assert got[..44] == HeaderOf(duration, f);
  }

  // ---------------------------------------------------------------- one read

  lemma AudioContinues(c: Call, got: seq<byte>, size: nat, bytes: seq<byte>, sought: Option<nat>,
                       head: seq<byte>, f: Format) returns (o: Outcome)
    requires Continues(c, got, head, f) && c.expoff == |got| && |bytes| <= size
    requires HeaderIsFrames(f) && Whole(size, FrameSize(f.channels))
    requires c.log.uniform ==> HeaderBytes(got, bytes, size, head)
    ensures o == ReadAudio(c, size, |got|, bytes, sought)
    ensures Continued(o, got, head, f) && Keeps(c, o, got)
  {
    if c.log.uniform {
      HeaderOrdered(got, c.log.told, bytes, size, head, f);
    }
    if |bytes| < size && |got| + |bytes| >= HEADER {
      if c.log.uniform {
        RestIsFrames(got, bytes, size, head, FrameSize(f.channels));
      }
      o := RestContinues(c, got, size, bytes, sought, head, f);
    } else {
      o := ReadAudio(c, size, |got|, bytes, sought);
    }
  }

  lemma RestContinues(c: Call, got: seq<byte>, size: nat, bytes: seq<byte>, sought: Option<nat>,
                      head: seq<byte>, f: Format) returns (o: Outcome)
    requires Free(c) && Tuned(c) && c.log.format == f && f.channels > 0 && c.expoff == |got|
    requires |bytes| < size && |got| + |bytes| >= HEADER
    requires c.log.uniform ==> Ordered(got + bytes, c.log.told, head, f) && Whole(size - |bytes|, FrameSize(f.channels))
    ensures o == Appended(GetAudio(c, size - |bytes|), bytes, sought)
    ensures Continued(o, got, head, f) && Keeps(c, o, got)
  {
    var r := AudioGets(c, size - |bytes|);
    o := AppendedContinues(c, r, got, bytes, sought, head, f);
  }

  lemma AppendedContinues(c: Call, r: Option<(seq<byte>, Call)>, got: seq<byte>, bytes: seq<byte>,
                          sought: Option<nat>, head: seq<byte>, f: Format) returns (o: Outcome)
    requires c.log.format == f && f.channels > 0 && c.expoff == |got| && |got| + |bytes| >= HEADER
    requires c.log.uniform ==> Ordered(got + bytes, c.log.told, head, f)
    requires r.Some? ==> Free(r.value.1) && Got(c, r.value.0, r.value.1)
    ensures o == Appended(r, bytes, sought)
    ensures Continued(o, got, head, f) && Keeps(c, o, got)
  {
    o := Appended(r, bytes, sought);
    if r.Some? {
      GotContinues(c, got, bytes, r.value.0, r.value.1, head, f);
    }
  }

  lemma GotContinues(c: Call, got: seq<byte>, bytes: seq<byte>, audio: seq<byte>, d: Call, head: seq<byte>, f: Format)
    requires Free(d) && Got(c, audio, d) && c.log.format == f && f.channels > 0 && c.expoff == |got|
    requires |got| + |bytes| >= HEADER
    requires c.log.uniform ==> Ordered(got + bytes, c.log.told, head, f)
    ensures Continues(d.(expoff := d.expoff + |bytes + audio|), got + (bytes + audio), head, f)
  {
    Assoc(got, bytes, audio);
    if d.log.uniform {
      AudioOrdered(got + bytes, c.log.told, audio, head, f);
    }
  }

  lemma SeekingContinues(c: Call, got: seq<byte>, size: nat, bytes: seq<byte>, duration: int,
                         head: seq<byte>, f: Format) returns (o: Outcome)
    requires Continues(c, got, head, f) && |bytes| <= size
    requires HeaderIsFrames(f) && Whole(size, FrameSize(f.channels))
    requires c.log.uniform ==> HeaderBytes(got, bytes, size, head)
    ensures o == ReadSeeking(c, duration, size, |got|, bytes)
    ensures Continued(o, got, head, f) && Keeps(c, o, got)
  {
    if c.expoff == |got| {
      o := AudioContinues(c, got, size, bytes, None, head, f);
    } else {
      o := ReadSeeking(c, duration, size, |got|, bytes);
      InfoStill(c, duration);
      var i := TrackInfo(c, duration);
      if i.Track? {
        SeekTuned(i.c, |got|);
        var sought := Some(SeekTarget(|got|, i.channels, i.rate));
        o := AudioContinues(Seek(i.c, |got|), got, size, bytes, sought, head, f);
      }
    }
  }

  lemma HeaderContinues(c: Call, got: seq<byte>, size: nat, duration: int, f: Format) returns (o: Outcome)
    requires Continues(c, got, HeaderOf(duration, f), f)
    requires HeaderIsFrames(f) && Whole(size, FrameSize(f.channels))
    ensures o == ReadHeader(c, duration, size, |got|)
    ensures Continued(o, got, HeaderOf(duration, f), f) && Keeps(c, o, got)
  {
    var head := HeaderOf(duration, f);
    if |got| >= HEADER {
      o := SeekingContinues(c, got, size, [], duration, head, f);
    } else {
      o := ReadHeader(c, duration, size, |got|);
      InfoStill(c, duration);
      var i := TrackInfo(c, duration);
      if i.Track? {
        var h := Header(i.channels, i.rate, duration);
        var bytes := HeaderPart(h, size, |got|);
        if i.c.log.uniform {
          HeaderPartBytes(h, got, size);
        }
        o := SeekingContinues(i.c, got, size, bytes, duration, head, f);
      }
    }
  }

  /** Each read takes the run a step further along the header and the audio. */
  lemma ReadContinues(c: Call, got: seq<byte>, track: nat, loads: bool, size: nat, duration: int, f: Format)
    returns (o: Outcome)
    requires Continues(c, got, HeaderOf(duration, f), f)
    requires HeaderIsFrames(f) && Whole(size, FrameSize(f.channels))
    ensures o == Read(c, track, duration, loads, size, |got|)
    ensures Continued(o, got, HeaderOf(duration, f), f)
    ensures Keeps(if |got| == 0 then Play(c, track, loads).1 else c, o, got)
  {
    if |got| == 0 {
      PlayTuned(c, track, loads);
      var (plays, d) := Play(c, track, loads);
      assert got == [];
      o := HeaderContinues(d, got, size, duration, f);
      if !plays {
        o := Fails(d);
      }
    } else {
      o := HeaderContinues(c, got, size, duration, f);
    }
  }

  // ---------------------------------------------------------------- runs of reads

  ghost predicate InOrder(h: Handle, head: seq<byte>, f: Format) {
    Continues(Call(h.w, h.expoff, [], h.log), h.got, head, f)
  }

  /** Every read asks for whole frames. */
  ghost predicate AskFrames(rs: seq<Request>, f: Format) {
    forall i :: 0 <= i < |rs| ==> f.channels > 0 && Whole(rs[i].size, FrameSize(f.channels))
  }

  lemma NextInOrder(h: Handle, r: Request, track: nat, duration: int, f: Format)
    requires InOrder(h, HeaderOf(duration, f), f) && RequestOk(r) && HeaderIsFrames(f)
    requires Whole(r.size, FrameSize(f.channels))
    ensures InOrder(Next(h, r, track, duration), HeaderOf(duration, f), f)
  {
    if !h.waits {
      var o := ReadContinues(CallOf(h, r), h.got, track, r.loads, r.size, duration, f);
    }
  }

  /** What the reads got, what is queued and what a callback has flushed away are, in this order,
      the header and then the audio heard. */
  ghost predicate Accounted(h: Handle, head: seq<byte>)
    requires QueueOk(h.w.pb.queue)
  {
    && h.got <= head + h.log.heard
    && (|h.got| >= HEADER ==> h.got + (Stream(h.w.pb.queue) + h.log.lost) == head + h.log.heard)
    && (h.log.ended ==> h.w.pb.queue == [])
  }

  /** For every run of frame-aligned reads, each starting where the last one has ended, with any
      split of the header and any interleaving of callbacks: as long as all audio of the track is
      in one format, and none is delivered after a callback's flush, the results one after the
      other are the first bytes of the header followed by the audio accepted since the reader
      itself has last flushed. What is missing of it is queued or was flushed by a callback. */
  lemma {:induction false} ReadAllInOrder(h: Handle, rs: seq<Request>, track: nat, duration: int, f: Format)
    requires InOrder(h, HeaderOf(duration, f), f) && HeaderIsFrames(f)
    requires RequestsOk(rs) && AskFrames(rs, f)
    ensures var n := ReadAll(h, rs, track, duration);
      && InOrder(n, HeaderOf(duration, f), f)
      && (n.log.uniform && !n.log.late ==> Accounted(n, HeaderOf(duration, f)))
    decreases rs
  {
    if rs == [] {
      if h.log.uniform && !h.log.late {
        InOrderAccounted(h, HeaderOf(duration, f), f);
      }
    } else {
      assert RequestOk(rs[0]);
      NextInOrder(h, rs[0], track, duration, f);
      ReadAllInOrder(Next(h, rs[0], track, duration), rs[1..], track, duration, f);
    }
  }

  lemma InOrderAccounted(h: Handle, head: seq<byte>, f: Format)
    requires InOrder(h, head, f) && h.log.uniform && !h.log.late
    ensures Accounted(h, head)
  {
    var rest := Stream(h.w.pb.queue) + h.log.lost;
    Assoc(head, h.log.told, rest);
    if |h.got| < HEADER {
      assert h.got <= head;
    }
  }

  /** Reads have got all that was heard if and only if nothing is queued and no callback has
      flushed audio away. */
  lemma AllGot(h: Handle, head: seq<byte>, f: Format)
    requires InOrder(h, head, f) && h.log.uniform && !h.log.late && |h.got| >= HEADER
    ensures h.got == head + h.log.heard <==> h.w.pb.queue == [] && h.log.lost == []
  {
    InOrderAccounted(h, head, f);
    StreamEmpty(h.w.pb.queue);
  }

  /** Whatever the playback was doing, a handle before its first read is in order: the audio
      heard is what is queued and what comes. */
  lemma OpenedInOrder(pb: Playback, expoff: nat, duration: int, f: Format)
    requires QueueOk(pb.queue) && pb.nsamples == Samples(pb.queue) && f.channels > 0
    ensures InOrder(Opened(pb, expoff, f), HeaderOf(duration, f), f)
  {
    var queued := Stream(pb.queue);
    assert [] + (queued + []) == queued;
  }

  /** A sound file that has just been opened. */
  ghost function Opened(pb: Playback, expoff: nat, f: Format): Handle
    requires QueueOk(pb.queue)
  {
    Handle(World(pb, Outside, Stream(pb.queue), []), expoff,
           Log(f, Stream(pb.queue), [], [], false, false, InFormat(pb.queue, f)), [], false)
  }

  /** In such a run no read seeks once anything has been read. */
  lemma NoSeekInOrder(h: Handle, r: Request, track: nat, duration: int, f: Format) returns (o: Outcome)
    requires InOrder(h, HeaderOf(duration, f), f) && RequestOk(r) && h.got != []
    ensures o == Read(CallOf(h, r), track, duration, r.loads, r.size, |h.got|)
    ensures o.Reads? ==> o.sought == None && o.c.expoff == |h.got + o.bytes|
  {
    o := ExpoffFollows(CallOf(h, r), track, duration, r.loads, r.size, |h.got|);
  }

  // ---------------------------------------------------------------- one format

  /** All deliveries of the run are in the format. */
  ghost predicate DeliverFormat(rs: seq<Request>, f: Format) {
    forall i :: 0 <= i < |rs| ==> AllInFormat(rs[i].batches, f)
  }

  /** All audio since the start of the track is in the format; or there is something else in the
      queue, but the track has still to be started. */
  ghost predicate StartsRight(h: Handle, track: nat) {
    h.log.uniform || (h.got == [] && h.w.pb.playing != Some(track))
  }

  lemma NextStartsRight(h: Handle, r: Request, track: nat, duration: int, f: Format)
    requires InOrder(h, HeaderOf(duration, f), f) && RequestOk(r) && HeaderIsFrames(f)
    requires Whole(r.size, FrameSize(f.channels)) && AllInFormat(r.batches, f) && StartsRight(h, track)
    ensures StartsRight(Next(h, r, track, duration), track)
  {
    if !h.waits {
      var c := CallOf(h, r);
      var o := ReadContinues(c, h.got, track, r.loads, r.size, duration, f);
      if h.got == [] {
        PlayTuned(c, track, r.loads);
        if !h.log.uniform {
          OthersStart(c, track);
        }
      }
    }
  }

  lemma {:induction false} ReadAllStartsRight(h: Handle, rs: seq<Request>, track: nat, duration: int, f: Format)
    requires InOrder(h, HeaderOf(duration, f), f) && HeaderIsFrames(f) && StartsRight(h, track)
    requires RequestsOk(rs) && AskFrames(rs, f) && DeliverFormat(rs, f)
    ensures StartsRight(ReadAll(h, rs, track, duration), track)
    decreases rs
  {
    if rs == [] {
    } else {
      assert RequestOk(rs[0]) && AllInFormat(rs[0].batches, f);
      NextInOrder(h, rs[0], track, duration, f);
      NextStartsRight(h, rs[0], track, duration, f);
      ReadAllStartsRight(Next(h, rs[0], track, duration), rs[1..], track, duration, f);
    }
  }

  /** From any playback state, whatever is queued, if all deliveries are in one format and the
      queue is if the track already plays: the results are the header and the audio in order, up
      to the end of the track and after it. */
  lemma OpenedReadsInOrder(pb: Playback, expoff: nat, rs: seq<Request>, track: nat, duration: int, f: Format)
    requires QueueOk(pb.queue) && pb.nsamples == Samples(pb.queue) && HeaderIsFrames(f)
    requires pb.playing == Some(track) ==> InFormat(pb.queue, f)
    requires RequestsOk(rs) && AskFrames(rs, f) && DeliverFormat(rs, f)
    ensures var n := ReadAll(Opened(pb, expoff, f), rs, track, duration);
      !n.log.late && n.got != [] ==> Accounted(n, HeaderOf(duration, f))
  {
    OpenedInOrder(pb, expoff, duration, f);
    ReadAllInOrder(Opened(pb, expoff, f), rs, track, duration, f);
    ReadAllStartsRight(Opened(pb, expoff, f), rs, track, duration, f);
  }

  // ---------------------------------------------------------------- after the end of the track

  lemma NextKeepsEnd(h: Handle, r: Request, track: nat, duration: int, f: Format)
    requires InOrder(h, HeaderOf(duration, f), f) && RequestOk(r) && HeaderIsFrames(f)
    requires Whole(r.size, FrameSize(f.channels)) && h.got != []
    ensures EndKept(h.log, Next(h, r, track, duration).log) && |h.got| <= |Next(h, r, track, duration).got|
  {
    if !h.waits {
      var o := ReadContinues(CallOf(h, r), h.got, track, r.loads, r.size, duration, f);
    }
  }

  lemma {:induction false} ReadAllKeepsEnd(h: Handle, rs: seq<Request>, track: nat, duration: int, f: Format)
    requires InOrder(h, HeaderOf(duration, f), f) && HeaderIsFrames(f) && h.got != []
    requires RequestsOk(rs) && AskFrames(rs, f)
    ensures EndKept(h.log, ReadAll(h, rs, track, duration).log) && |h.got| <= |ReadAll(h, rs, track, duration).got|
    decreases rs
  {
    if rs == [] {
    } else {
      assert RequestOk(rs[0]);
      NextInOrder(h, rs[0], track, duration, f);
      NextKeepsEnd(h, rs[0], track, duration, f);
      ReadAllKeepsEnd(Next(h, rs[0], track, duration), rs[1..], track, duration, f);
    }
  }

  /** Once a callback has flushed, as at the end of the track, reads get no further byte, whatever
      their number; and they have got all that was heard if and only if nothing was lost then. */
  lemma EndDecides(h: Handle, rs: seq<Request>, track: nat, duration: int, f: Format)
    requires InOrder(h, HeaderOf(duration, f), f) && HeaderIsFrames(f) && |h.got| >= HEADER && h.log.ended
    requires RequestsOk(rs) && AskFrames(rs, f)
    ensures var n := ReadAll(h, rs, track, duration);
      n.log.uniform && !n.log.late ==>
        && n.got == h.got && n.log.heard == h.log.heard
        && (n.got == HeaderOf(duration, f) + n.log.heard <==> h.log.lost == [])
  {
    var n := ReadAll(h, rs, track, duration);
    ReadAllInOrder(h, rs, track, duration, f);
    ReadAllKeepsEnd(h, rs, track, duration, f);
    if n.log.uniform && !n.log.late {
      InOrderAccounted(h, HeaderOf(duration, f), f);
      AllGot(n, HeaderOf(duration, f), f);
      assert [] + h.log.lost == h.log.lost;
      SameFront(n.got, h.got, h.log.lost);
    }
  }

  lemma SameFront(a: seq<byte>, b: seq<byte>, c: seq<byte>)
    requires a + c == b + c
    ensures a == b
  {
    assert a == (a + c)[..|a|] && b == (b + c)[..|b|];
  }
}
