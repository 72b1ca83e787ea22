/** What the log of a reader says, and that every section and every callback keeps it true. */
module WavSections {
  import opened Audio
  import opened AudioRuns
  import opened CStrings
  import opened WavHeader
  import opened WavRuns
  import opened WholeFrames

  /** The audio heard is what was told, what is queued, and what callbacks have flushed away. */
  ghost predicate HeardExact(w: World, log: Log)
    requires QueueOk(w.pb.queue)
  {
    && log.told + (Stream(w.pb.queue) + log.lost) == log.heard
    && (if log.ended then w.pb.queue == [] else log.lost == [])
  }

  /** The log is right: the queue is in the format as long as nothing else was accepted, and the
      audio heard is accounted for as long as nothing was accepted after a callback's flush. */
  ghost predicate LogOk(w: World, log: Log)
    requires QueueOk(w.pb.queue)
  {
    && (log.uniform ==> InFormat(w.pb.queue, log.format))
    && (log.uniform && !log.late ==> HeardExact(w, log))
  }

  ghost predicate Tuned(c: Call) {
    CallOk(c) && LogOk(c.w, c.log)
  }

  // ---------------------------------------------------------------- deliveries in the format

  ghost predicate BatchInFormat(events: seq<Event>, f: Format) {
    forall i :: 0 <= i < |events| && events[i].Delivered? ==>
      Format(events[i].delivery.channels, events[i].delivery.rate) == f
  }

  ghost predicate AllInFormat(batches: seq<seq<Event>>, f: Format) {
    forall i :: 0 <= i < |batches| ==> BatchInFormat(batches[i], f)
  }

  /** All audio has been in the format, and all that is to come will be. */
  ghost predicate Uniform(c: Call) {
    c.log.uniform && AllInFormat(c.batches, c.log.format)
  }

  /** After a callback's flush the log counts the same audio as heard and as lost, until more is
      accepted. */
  ghost predicate EndKept(a: Log, b: Log) {
    && (a.late ==> b.late) && (b.uniform ==> a.uniform)
    && (a.ended && b.uniform && !b.late ==> b.ended && b.heard == a.heard && b.lost == a.lost)
  }

  /** Nothing has been told meanwhile, and the log is right. */
  ghost predicate Still(c: Call, d: Call) {
    && Tuned(d) && SameCourse(c, d) && d.log.told == c.log.told && EndKept(c.log, d.log)
    && (AllInFormat(c.batches, c.log.format) ==> AllInFormat(d.batches, d.log.format))
    && (Uniform(c) ==> Uniform(d))
  }

  /** expoff and the format are the same, and audio in another format stays noted. */
  ghost predicate SameCourse(c: Call, d: Call) {
    d.expoff == c.expoff && d.log.format == c.log.format && (d.log.uniform ==> c.log.uniform)
  }

  lemma {:induction false} CallbacksSame(c: Call, events: seq<Event>)
    requires CallOk(c) && AreCallbacks(events)
    ensures SameCourse(c, Callbacks(c, events))
    decreases events
  {
    if events == [] {
    } else {
      assert IsCallback(events[0]);
      CallbacksSame(Callback(c, events[0]), events[1..]);
    }
  }

  lemma OthersSame(c: Call)
    requires CallOk(c)
    ensures SameCourse(c, Others(c))
  {
    if c.batches == [] {
    } else {
      assert AreCallbacks(c.batches[0]);
      CallbacksSame(c.(batches := c.batches[1..]), c.batches[0]);
    }
  }

  lemma {:induction false} RunSame(c: Call)
    requires CallOk(c) && c.w.reader != Outside
    ensures RunReader(c).Some? ==> SameCourse(c, RunReader(c).value.1)
    decreases |c.batches|, c.w.reader.Checking?
  {
    var d := Section(c, ReaderRuns);
    if d.w.reader == Outside || (c.w.reader.Waiting? && c.batches == []) {
    } else {
      OthersSame(d);
      RunSame(Others(d));
    }
  }

  lemma AudioSame(c: Call, size: nat) returns (r: Option<(seq<byte>, Call)>)
    requires Free(c)
    ensures r == GetAudio(c, size)
    ensures r.Some? ==> Free(r.value.1) && |r.value.0| <= size && SameCourse(c, r.value.1)
  {
    r := GetAudio(c, size);
    var called := Section(Others(c), ReadCalled(size));
    OthersSame(c);
    OthersSame(called);
    RunSame(Others(called));
  }

  // ---------------------------------------------------------------- callbacks

  lemma DeliveredKeepsLog(w: World, log: Log, d: Delivery)
    requires Counted(w) && DeliveryOk(d) && LogOk(w, log)
    ensures Counted(Step(w, Delivered(d))) && LogOk(Step(w, Delivered(d)), Noted(log, w, Delivered(d)))
  {
    StepCounts(w, Delivered(d));
    if Deliver(w.pb, d).1 > 0 {
      var q, s := w.pb.queue, Segment(d.channels, d.rate, d.numFrames, d.frames);
      DeliveredSegment(d);
      StreamConcat(q, [s]);
      if log.uniform && !log.late && !log.ended {
        assert Stream(q) + log.lost == Stream(q);
        assert Stream(q + [s]) + log.lost == Stream(q) + d.frames;
        Assoc(log.told, Stream(q), d.frames);
      }
    }
  }

  lemma FlushedKeepsLog(w: World, log: Log)
    requires Counted(w) && LogOk(w, log)
    ensures Counted(Step(w, Flushed)) && LogOk(Step(w, Flushed), Noted(log, w, Flushed))
  {
    StepCounts(w, Flushed);
    var lost := Stream(w.pb.queue) + log.lost;
    assert [] + lost == lost;
  }

  lemma CallbackStill(c: Call, e: Event)
    requires Tuned(c) && IsCallback(e)
    ensures Tuned(Callback(c, e)) && SameCourse(c, Callback(c, e))
    ensures Callback(c, e).log.told == c.log.told && EndKept(c.log, Callback(c, e).log)
    ensures c.log.uniform && (e.Delivered? ==> Format(e.delivery.channels, e.delivery.rate) == c.log.format) ==>
              Callback(c, e).log.uniform
  {
    StepCounts(c.w, e);
    if e.Delivered? {
      DeliveredKeepsLog(c.w, c.log, e.delivery);
    } else if e.Flushed? {
      FlushedKeepsLog(c.w, c.log);
      assert [] + c.log.lost == c.log.lost;
    }
  }

  lemma {:induction false} CallbacksStill(c: Call, events: seq<Event>)
    requires Tuned(c) && AreCallbacks(events)
    ensures Tuned(Callbacks(c, events)) && SameCourse(c, Callbacks(c, events))
    ensures Callbacks(c, events).log.told == c.log.told && EndKept(c.log, Callbacks(c, events).log)
    ensures c.log.uniform && BatchInFormat(events, c.log.format) ==> Callbacks(c, events).log.uniform
    decreases events
  {
    if events == [] {
    } else {
      assert IsCallback(events[0]);
      CallbackStill(c, events[0]);
      CallbacksStill(Callback(c, events[0]), events[1..]);
    }
  }

  lemma OthersStill(c: Call)
    requires Tuned(c)
    ensures Still(c, Others(c))
  {
    if c.batches == [] {
    } else {
      var d := c.(batches := c.batches[1..]);
      assert AreCallbacks(c.batches[0]) && Tuned(d);
      CallbacksStill(d, c.batches[0]);
    }
  }

  // ---------------------------------------------------------------- the reader's own sections

  /** A section that takes no audio and does not flush. */
  lemma SectionStill(c: Call, e: Event)
    requires Tuned(c) && EventOk(e) && !e.Delivered? && !e.Flushed?
    requires e.ReaderRuns? && c.w.reader.Waiting? ==> MustWait(c.w.pb)
    ensures Still(c, Section(c, e))
  {
    StepCounts(c.w, e);
  }

  /** A flush of the reader's own: the log starts over. */
  lemma OwnFlush(c: Call)
    requires Tuned(c)
    ensures Tuned(Section(c, Flushed)) && Section(c, Flushed).log.told == []
    ensures Tuned(NewTrack(Section(c, Flushed)))
    ensures Section(c, Flushed).batches == c.batches && SameCourse(c, Section(c, Flushed))
    ensures Section(c, Flushed).log.uniform == c.log.uniform
  {
    StepCounts(c.w, Flushed);
  }

  /** A read takes audio. */
  lemma TakeSection(c: Call, size: nat)
    requires Tuned(c) && c.w.reader == Waiting(size) && !MustWait(c.w.pb)
    requires c.log.format.channels > 0 && (c.log.uniform ==> Whole(size, FrameSize(c.log.format.channels)))
    ensures Tuned(Section(c, ReaderRuns))
    ensures Section(c, ReaderRuns).log == c.log.(told := c.log.told + Yield(c.w.pb.queue, size))
    ensures Section(c, ReaderRuns).batches == c.batches
  {
    var q := c.w.pb.queue;
    StepCounts(c.w, ReaderRuns);
    if c.log.uniform {
      YieldFrames(q, size, c.log.format);
      ReadConserves(q, size);
      Assoc(c.log.told, Yield(q, size), Stream(Remaining(q, size)) + c.log.lost);
      Assoc(Yield(q, size), Stream(Remaining(q, size)), c.log.lost);
    }
  }

  lemma PlayTuned(c: Call, track: nat, loads: bool)
    requires Free(c) && Tuned(c)
    ensures var d := Play(c, track, loads).1;
      && Tuned(d) && (c.log.told == [] ==> d.log.told == []) && d.log.format == c.log.format && d.expoff == c.expoff
      && (AllInFormat(c.batches, c.log.format) ==> AllInFormat(d.batches, d.log.format))
      && (AllInFormat(c.batches, c.log.format) && (c.log.uniform || Others(c).w.pb.playing != Some(track)) ==>
            Uniform(d))
  {
    OthersStill(c);
    var c0 := Others(c);
    if c0.w.pb.playing != Some(track) {
      RestartTuned(c0);
      var c1 := Restart(c0);
      OthersStill(c1);
      SectionStill(Others(c1), PlayingSet(Some(track)));
      assert Play(c, track, loads) == (loads, StartTrack(c0, track, loads));
    }
  }

  lemma RestartTuned(c: Call)
    requires Free(c) && Tuned(c)
    ensures var d := Restart(c);
      && Tuned(d) && d.log.told == [] && d.log.format == c.log.format && d.expoff == c.expoff
      && (AllInFormat(c.batches, c.log.format) ==> Uniform(d))
  {
    OthersStill(c);
    OwnFlush(Others(c));
    var c1 := NewTrack(Section(Others(c), Flushed));
    OthersStill(c1);
    SectionStill(Others(c1), DoneSet(false));
  }

  lemma SeekTuned(c: Call, offset: nat)
    requires Free(c) && Tuned(c)
    ensures Tuned(Seek(c, offset)) && Seek(c, offset).log.told == []
    ensures Seek(c, offset).log.format == c.log.format && (Seek(c, offset).log.uniform ==> c.log.uniform)
    ensures Uniform(c) ==> Uniform(Seek(c, offset))
  {
    OthersStill(c);
    SectionStill(Others(c), DoneSet(false));
    var c1 := Section(Others(c), DoneSet(false));
    OthersStill(c1);
    OwnFlush(Others(c1));
  }

  lemma {:induction false} AwaitStill(c: Call)
    requires Free(c) && Tuned(c)
    ensures AwaitSegment(c).Some? ==> Still(c, AwaitSegment(c).value)
    decreases |c.batches|
  {
    if c.w.pb.queue != [] || c.batches == [] {
    } else {
      OthersStill(c);
      AwaitStill(Others(c));
    }
  }

  /** The format a reader is told is the format of the log, if all audio is in it. */
  lemma InfoStill(c: Call, duration: int)
    requires Free(c) && Tuned(c)
    ensures var i := TrackInfo(c, duration);
      && (i.Nothing? || i.Track? ==> Still(c, i.c))
      && (i.Track? && i.c.log.uniform ==> Format(i.channels, i.rate) == i.c.log.format)
  {
    OthersStill(c);
    AwaitStill(Others(c));
  }

  // ---------------------------------------------------------------- taking audio

  /** The state after a read of audio, and the bytes. */
  ghost predicate Got(c: Call, bytes: seq<byte>, d: Call) {
    && Tuned(d) && SameCourse(c, d) && d.log.told == c.log.told + bytes && EndKept(c.log, d.log)
    && (Uniform(c) ==> Uniform(d))
    && (d.log.uniform ==> c.log.format.channels > 0 && Whole(|bytes|, FrameSize(c.log.format.channels)))
  }

  lemma NothingGot(c: Call, d: Call)
    requires Still(c, d) && (d.log.uniform ==> c.log.format.channels > 0)
    ensures Got(c, [], d)
  {
    assert c.log.told + [] == c.log.told;
  }

  lemma GotAfter(c: Call, d: Call, r: Option<(seq<byte>, Call)>)
    requires Still(c, d) && (r.Some? ==> Got(d, r.value.0, r.value.1))
    ensures r.Some? ==> Got(c, r.value.0, r.value.1)
  {
  }

  lemma StillAlong(a: Call, b: Call, c: Call)
    requires Still(a, b) && Still(b, c)
    ensures Still(a, c)
  {
  }

  /** What the reader asks for is whole frames. */
  ghost predicate AsksFrames(c: Call) {
    c.log.format.channels > 0 && (c.log.uniform ==> Whole(Asked(c.w.reader), FrameSize(c.log.format.channels)))
  }

  lemma {:induction false} RunGets(c: Call) returns (r: Option<(seq<byte>, Call)>)
    requires Tuned(c) && c.w.reader != Outside && AsksFrames(c)
    ensures r == RunReader(c)
    ensures r.Some? ==> Free(r.value.1) && Got(c, r.value.0, r.value.1)
    decreases |c.batches|, c.w.reader.Checking?
  {
    r := RunReader(c);
    if c.w.reader.Waiting? && !MustWait(c.w.pb) {
      TakeGets(c, c.w.reader.size);
    } else if !c.w.reader.Waiting? || c.batches != [] {
      SectionStill(c, ReaderRuns);
      var d := Section(c, ReaderRuns);
      if d.w.reader == Outside {
        NothingGot(c, d);
      } else {
        OthersStill(d);
        StillAlong(c, d, Others(d));
        r := RunGets(Others(d));
        GotAfter(c, Others(d), r);
      }
    }
  }

  lemma TakeGets(c: Call, size: nat)
    requires Tuned(c) && c.w.reader == Waiting(size) && !MustWait(c.w.pb) && AsksFrames(c)
    ensures Got(c, Yield(c.w.pb.queue, size), Section(c, ReaderRuns))
  {
    TakeSection(c, size);
    if c.log.uniform {
      YieldFrames(c.w.pb.queue, size, c.log.format);
    }
  }

  lemma AudioGets(c: Call, size: nat) returns (r: Option<(seq<byte>, Call)>)
    requires Free(c) && Tuned(c)
    requires c.log.format.channels > 0 && (c.log.uniform ==> Whole(size, FrameSize(c.log.format.channels)))
    ensures r == GetAudio(c, size)
    ensures r.Some? ==> Free(r.value.1) && Got(c, r.value.0, r.value.1)
  {
    OthersStill(c);
    SectionStill(Others(c), ReadCalled(size));
    var called := Section(Others(c), ReadCalled(size));
    StillAlong(c, Others(c), called);
    OthersStill(called);
    StillAlong(c, called, Others(called));
    r := RunGets(Others(called));
    GotAfter(c, Others(called), r);
  }

  // ---------------------------------------------------------------- starting anew

  lemma {:induction false} CallbacksExact(c: Call, events: seq<Event>)
    requires CallOk(c) && Exact(c.w) && AreCallbacks(events)
    ensures Exact(Callbacks(c, events).w)
    decreases events
  {
    if events == [] {
    } else {
      assert IsCallback(events[0]);
      StepExact(c.w, events[0]);
      CallbacksExact(Callback(c, events[0]), events[1..]);
    }
  }

  lemma OthersExact(c: Call)
    requires CallOk(c) && Exact(c.w)
    ensures Exact(Others(c).w)
  {
    if c.batches == [] {
    } else {
      assert AreCallbacks(c.batches[0]);
      CallbacksExact(c.(batches := c.batches[1..]), c.batches[0]);
    }
  }

  lemma FlushedExact(c: Call)
    requires CallOk(c)
    ensures Exact(Section(c, Flushed).w)
  {
    StepCounts(c.w, Flushed);
  }

  /** Whatever reads have done to the stream before, a seek makes it exact again. */
  lemma SeekExact(c: Call, offset: nat)
    requires Free(c)
    ensures Exact(Seek(c, offset).w)
  {
    FlushedExact(Others(Section(Others(c), DoneSet(false))));
  }

  /** And so does a track other than the one that plays: no audio of the old one is left. */
  lemma PlayExact(c: Call, track: nat, loads: bool)
    requires Free(c) && Others(c).w.pb.playing != Some(track)
    ensures Exact(Play(c, track, loads).1.w) && Play(c, track, loads).0 == loads
  {
    var c0 := Others(Others(c));
    FlushedExact(c0);
    var c1 := NewTrack(Section(c0, Flushed));
    OthersExact(c1);
    StepExact(Others(c1).w, DoneSet(false));
    var c2 := Section(Others(c1), DoneSet(false));
    OthersExact(c2);
    StepExact(Others(c2).w, PlayingSet(Some(track)));
  }

  // ---------------------------------------------------------------- the end of a track

  lemma StreamEmpty(q: seq<Segment>)
    requires QueueOk(q)
    ensures Stream(q) == [] <==> q == []
  {
    if q == [] {
    } else {
      SegPositive(q[0]);
    }
  }

  /** A callback's flush, as at the end of a track, loses audio for the reader exactly if some
      is queued at that moment: after it nothing is queued, and what was told so far is all of
      what was heard if and only if the queue was empty. */
  lemma EndLosesQueue(c: Call)
    requires Tuned(c) && c.log.uniform && !c.log.late && !c.log.ended
    ensures var d := Callback(c, Flushed);
      && Tuned(d) && d.log.ended && d.w.pb.queue == [] && d.log.heard == c.log.heard
      && d.log.heard == d.log.told + d.log.lost && d.log.lost == Stream(c.w.pb.queue)
      && (d.log.told == d.log.heard <==> c.w.pb.queue == [])
  {
    CallbackStill(c, Flushed);
    StreamEmpty(c.w.pb.queue);
    var lost := Stream(c.w.pb.queue);
    assert lost + c.log.lost == lost && [] + lost == lost;
  }

  // ---------------------------------------------------------------- seeking

  /** A time of at most the exact time of the offset, and less than a second before it. */
  ghost predicate JustBefore(ms: nat, offset: nat, f: Format) {
    && f.channels > 0 && f.rate > 0
    && var bytesPerSecond := f.rate * FrameSize(f.channels);
    && ms * bytesPerSecond <= 1000 * offset < (ms + 1000) * bytesPerSecond
  }

  lemma SeekTargetClose(offset: nat, f: Format)
    requires f.channels > 0 && f.rate > 0
    ensures JustBefore(SeekTarget(offset, f.channels, f.rate), offset, f)
  {
    BytesPositive(f.channels, f.rate);
    var bps := BytesPerSecond(f.channels, f.rate);
    assert bps == f.rate * FrameSize(f.channels);
    var s := Div(offset, bps);
    DivFacts(offset, bps);
    Thousandfold(s, bps);
  }

  lemma Thousandfold(s: nat, b: nat)
    ensures s * 1000 * b == 1000 * (s * b)
    ensures (s * 1000 + 1000) * b == 1000 * (s * b) + 1000 * b
  {
  }

  /** The end of a read: expoff is where it ended, it has sought exactly if it did not start at
      expoff, and then, if all audio of the track has been in the format, to a time just before
      the offset in that format. */
  ghost predicate EndsWell(o: Outcome, expoff: nat, size: nat, offset: nat) {
    o.Reads? ==>
      && o.c.expoff == offset + |o.bytes| && |o.bytes| <= size
      && (o.sought.Some? <==> expoff != offset)
      && (o.sought.Some? && o.c.log.uniform ==> JustBefore(o.sought.value, offset, o.c.log.format))
  }

  lemma AudioEndsWell(c: Call, size: nat, offset: nat, bytes: seq<byte>, sought: Option<nat>) returns (o: Outcome)
    requires Free(c) && c.expoff == offset && |bytes| <= size
    ensures o == ReadAudio(c, size, offset, bytes, sought)
    ensures o.Reads? ==> o.c.expoff == offset + |o.bytes| && |o.bytes| <= size && o.sought == sought
    ensures o.Reads? ==> o.c.log.format == c.log.format && (o.c.log.uniform ==> c.log.uniform)
  {
    if |bytes| < size && offset + |bytes| >= HEADER {
      var r := AudioSame(c, size - |bytes|);
      o := Appended(r, bytes, sought);
    } else {
      o := ReadAudio(c, size, offset, bytes, sought);
    }
  }

  lemma SeekingEndsWell(c: Call, duration: int, size: nat, offset: nat, bytes: seq<byte>) returns (o: Outcome)
    requires Free(c) && Tuned(c) && |bytes| <= size
    ensures o == ReadSeeking(c, duration, size, offset, bytes)
    ensures EndsWell(o, c.expoff, size, offset)
  {
    if c.expoff == offset {
      o := AudioEndsWell(c, size, offset, bytes, None);
    } else {
      o := ReadSeeking(c, duration, size, offset, bytes);
      InfoStill(c, duration);
      var i := TrackInfo(c, duration);
      if i.Track? {
        SeekTargetClose(offset, Format(i.channels, i.rate));
        SeekTuned(i.c, offset);
        var sought := Some(SeekTarget(offset, i.channels, i.rate));
        o := AudioEndsWell(Seek(i.c, offset), size, offset, bytes, sought);
      }
    }
  }

  lemma HeaderEndsWell(c: Call, duration: int, size: nat, offset: nat) returns (o: Outcome)
    requires Free(c) && Tuned(c)
    ensures o == ReadHeader(c, duration, size, offset)
    ensures EndsWell(o, c.expoff, size, offset)
  {
    if offset >= HEADER {
      o := SeekingEndsWell(c, duration, size, offset, []);
    } else {
      o := ReadHeader(c, duration, size, offset);
      InfoStill(c, duration);
      var i := TrackInfo(c, duration);
      if i.Track? {
        var bytes := HeaderPart(Header(i.channels, i.rate, duration), size, offset);
        o := SeekingEndsWell(i.c, duration, size, offset, bytes);
      }
    }
  }

  /** Every read that reaches its end leaves expoff at its own end, seeks exactly if it does not
      start at expoff, and then to at most the exact time of the offset in the track's format,
      and less than a second before it. */
  lemma ExpoffFollows(c: Call, track: nat, duration: int, loads: bool, size: nat, offset: nat) returns (o: Outcome)
    requires Free(c) && Tuned(c)
    ensures o == Read(c, track, duration, loads, size, offset)
    ensures EndsWell(o, c.expoff, size, offset)
  {
    if offset == 0 {
      PlayTuned(c, track, loads);
      var (plays, d) := Play(c, track, loads);
      o := HeaderEndsWell(d, duration, size, offset);
      if !plays {
        o := Fails(d);
      }
    } else {
      o := HeaderEndsWell(c, duration, size, offset);
    }
  }

  // ---------------------------------------------------------------- the first read

  /** The bytes start with a header from which a player reads this format. */
  ghost predicate Announces(bytes: seq<byte>, channels: nat, rate: nat, duration: nat) {
    && 44 <= |bytes|
    && (Fits(channels, rate, duration) ==> ReadWave(bytes[..44]) == Some(Announced(channels, rate, duration)))
  }

  lemma StartAnnounces(bytes: seq<byte>, channels: nat, rate: nat, duration: nat)
    requires Header(channels, rate, duration) <= bytes
    ensures Announces(bytes, channels, rate, duration)
  {
    assert bytes[..44] == Header(channels, rate, duration);
    if Fits(channels, rate, duration) {
      HeaderAnnounces(channels, rate, duration);
    }
  }

  lemma AudioKeepsBytes(c: Call, size: nat, bytes: seq<byte>, sought: Option<nat>) returns (o: Outcome)
    requires Free(c)
    ensures o == ReadAudio(c, size, 0, bytes, sought) && (o.Reads? ==> bytes <= o.bytes)
  {
    o := ReadAudio(c, size, 0, bytes, sought);
  }

  lemma SeekingKeepsBytes(c: Call, duration: int, size: nat, bytes: seq<byte>) returns (o: Outcome)
    requires Free(c)
    ensures o == ReadSeeking(c, duration, size, 0, bytes) && (o.Reads? ==> bytes <= o.bytes)
  {
    if c.expoff == 0 {
      o := AudioKeepsBytes(c, size, bytes, None);
    } else {
      o := ReadSeeking(c, duration, size, 0, bytes);
      var i := TrackInfo(c, duration);
      if i.Track? {
        o := AudioKeepsBytes(Seek(i.c, 0), size, bytes, Some(SeekTarget(0, i.channels, i.rate)));
      }
    }
  }

  lemma WholeHeader(head: seq<byte>, size: nat)
    requires |head| == HEADER <= size
    ensures HeaderPart(head, size, 0) == head
  {
  }

  lemma HeaderRead(d: Call, duration: int, size: nat) returns (o: Outcome, i: Info)
    requires Free(d) && size >= 44
    ensures o == ReadHeader(d, duration, size, 0) && i == TrackInfo(d, duration)
    ensures o.Reads? ==> i.Track? && Announces(o.bytes, i.channels, i.rate, duration)
  {
    i := TrackInfo(d, duration);
    if i.Track? {
      o := TrackAnnounced(i.c, duration, size, i.channels, i.rate);
    } else {
      o := if i.Waits? then Stuck else NoTrack(i.c);
    }
  }

  lemma TrackAnnounced(c: Call, duration: nat, size: nat, channels: nat, rate: nat) returns (o: Outcome)
    requires Free(c) && size >= 44
    ensures o == ReadSeeking(c, duration, size, 0, HeaderPart(Header(channels, rate, duration), size, 0))
    ensures o.Reads? ==> Announces(o.bytes, channels, rate, duration)
  {
    var head := Header(channels, rate, duration);
    WholeHeader(head, size);
    o := SeekingKeepsBytes(c, duration, size, head);
    if o.Reads? {
      StartAnnounces(o.bytes, channels, rate, duration);
    }
  }

  /** The first read of a sound file, if it asks for the whole header and gets there: a player
      reads from it the format that spotify_get_track_info has answered. */
  lemma FirstReadAnnounces(c: Call, track: nat, duration: int, loads: bool, size: nat) returns (o: Outcome, i: Info)
    requires Free(c) && size >= 44
    ensures o == Read(c, track, duration, loads, size, 0) && i == TrackInfo(Play(c, track, loads).1, duration)
    ensures o.Reads? ==> i.Track? && Announces(o.bytes, i.channels, i.rate, duration)
  {
    var (plays, d) := Play(c, track, loads);
    o, i := HeaderRead(d, duration, size);
    if !plays {
      o := Fails(d);
    }
  }
}
