/** Reading a sound file: wav_read of spfs_fuse_audiofile.c, with the callbacks of libspotify
    that arrive between its critical sections, and whole runs of reads on one handle. */
module WavRuns {
  import opened Audio
  import opened AudioRuns
  import opened CStrings
  import opened WavHeader

  // ---------------------------------------------------------------- one call

  /** What libspotify's threads may do while a read is running: deliver, lose the token, and
      the sections of the end of a track. */
  ghost predicate IsCallback(e: Event) {
    && EventOk(e) && (e.Delivered? || e.Flushed? || e == PlayingSet(None) || e == DoneSet(true))
  }

  ghost predicate AreCallbacks(events: seq<Event>) {
    forall i :: 0 <= i < |events| ==> IsCallback(events[i])
  }

  datatype Format = Format(channels: nat, rate: nat)

  /** What the reader can look back on. Since its own last flush: the audio accepted, the audio
      returned to it, the audio that callbacks have flushed away, whether a callback has flushed,
      and whether audio was accepted after that. And since it last began a new track: whether
      all audio was in the format. */
  datatype Log = Log(format: Format, heard: seq<byte>, told: seq<byte>, lost: seq<byte>,
                     ended: bool, late: bool, uniform: bool)

  /** A callback, as the log notes it. */
  ghost function Noted(log: Log, w: World, e: Event): Log
    requires QueueOk(w.pb.queue)
  {
    match e
    case Delivered(d) =>
      if Deliver(w.pb, d).1 == 0 then log
      else
        log.(heard := log.heard + d.frames, late := log.late || log.ended,
             uniform := log.uniform && log.format == Format(d.channels, d.rate))
    case Flushed => log.(lost := Stream(w.pb.queue) + log.lost, ended := true)
    case _ => log
  }

  /** A section of the reader's own, as the log notes it. */
  ghost function Kept(log: Log, w: World, e: Event): Log
    requires QueueOk(w.pb.queue)
  {
    match e
    case Flushed => Log(log.format, [], [], [], false, false, log.uniform)
    case ReaderRuns =>
      if w.reader.Waiting? && !MustWait(w.pb) then log.(told := log.told + Yield(w.pb.queue, w.reader.size)) else log
    case _ => log
  }

  /** A call at work: the playback state, expoff, the callbacks that are still to come, one
      batch for each place where others get the lock, and the log. */
  datatype Call = Call(w: World, expoff: nat, batches: seq<seq<Event>>, log: Log)

  ghost predicate CallOk(c: Call) {
    Counted(c.w) && forall i :: 0 <= i < |c.batches| ==> AreCallbacks(c.batches[i])
  }

  /** Nobody is in spotify_get_audio. */
  ghost predicate Free(c: Call) {
    CallOk(c) && c.w.reader == Outside
  }

  /** One critical section of the reader's own. */
  ghost function Section(c: Call, e: Event): (r: Call)
    requires CallOk(c) && EventOk(e)
    ensures CallOk(r)
    ensures !e.ReadCalled? && c.w.reader == Outside ==> Free(r)
  {
    StepCounts(c.w, e);
    c.(w := Step(c.w, e), log := Kept(c.log, c.w, e))
  }

  /** One callback. */
  ghost function Callback(c: Call, e: Event): (r: Call)
    requires CallOk(c) && IsCallback(e)
    ensures CallOk(r) && r.w.reader == c.w.reader && r.batches == c.batches
  {
    StepCounts(c.w, e);
    c.(w := Step(c.w, e), log := Noted(c.log, c.w, e))
  }

  ghost function Callbacks(c: Call, events: seq<Event>): (r: Call)
    requires CallOk(c) && AreCallbacks(events)
    ensures CallOk(r) && r.w.reader == c.w.reader && r.batches == c.batches
    decreases events
  {
    if events == [] then c
    else
      assert IsCallback(events[0]);
      Callbacks(Callback(c, events[0]), events[1..])
  }

  /** Others have the lock. */
  ghost function Others(c: Call): (r: Call)
    requires CallOk(c)
    ensures CallOk(r) && r.w.reader == c.w.reader
    ensures |r.batches| <= |c.batches| && (c.batches != [] ==> |r.batches| < |c.batches|)
  {
    if c.batches == [] then c
    else
      assert AreCallbacks(c.batches[0]);
      Callbacks(c.(batches := c.batches[1..]), c.batches[0])
  }

  /** The log of a new track starts when its flush has emptied the queue. */
  ghost function NewTrack(c: Call): (r: Call)
    requires CallOk(c)
    ensures CallOk(r) && (Free(c) ==> Free(r))
  {
    c.(log := c.log.(uniform := true))
  }

  /** What a new track begins with. */
  ghost function Restart(c: Call): (r: Call)
    requires Free(c)
    ensures Free(r)
  {
    Section(Others(NewTrack(Section(Others(c), Flushed))), DoneSet(false))
  }

  /** spotify_play_track: whether the track plays. */
  ghost function Play(c: Call, track: nat, loads: bool): (r: (bool, Call))
    requires Free(c)
    ensures Free(r.1)
  {
    var looked := Others(c);
    if looked.w.pb.playing == Some(track) then (true, looked)
    else (loads, StartTrack(looked, track, loads))
  }

  /** Another track instead of the one that plays. */
  ghost function StartTrack(c: Call, track: nat, loads: bool): (r: Call)
    requires Free(c)
    ensures Free(r)
  {
    var anew := Others(Restart(c));
    if loads then Section(anew, PlayingSet(Some(track))) else anew
  }

  /** The wait loop of spotify_get_track_info. */
  ghost function AwaitSegment(c: Call): (r: Option<Call>)
    requires Free(c)
    ensures r.Some? ==> Free(r.value) && r.value.w.pb.queue != []
    decreases |c.batches|
  {
    if c.w.pb.queue != [] then Some(c)
    else if c.batches == [] then None
    else AwaitSegment(Others(c))
  }

  /** The answer about the current track: the call still waits, there is none, or its format. */
  datatype Info = Waits | Nothing(c: Call) | Track(channels: nat, rate: nat, c: Call)

  /** spotify_get_track_info, with the duration libspotify knows for the track. */
  ghost function TrackInfo(c: Call, duration: int): (r: Info)
    requires Free(c)
    ensures r.Nothing? || r.Track? ==> Free(r.c)
    ensures r.Track? ==> r.channels > 0 && r.rate > 0 && duration >= 0
  {
    var locked := Others(c);
    if locked.w.pb.playing.None? then Nothing(locked)
    else
      match AwaitSegment(locked)
      case None => Waits
      case Some(d) =>
        var head := d.w.pb.queue[0];
        assert SegOk(head);
        if d.w.pb.playing.None? || duration < 0 then Nothing(d) else Track(head.channels, head.rate, d)
  }

  /** spotify_get_audio: the bytes, unless the call still waits. */
  ghost function GetAudio(c: Call, size: nat): (r: Option<(seq<byte>, Call)>)
    requires Free(c)
    ensures r.Some? ==> Free(r.value.1) && |r.value.0| <= size
  {
    RunReader(Others(Section(Others(c), ReadCalled(size))))
  }

  /** How much a reader asks for that has not yet been turned away. */
  function Asked(r: Reader): nat {
    if r.Checking? || r.Waiting? then r.size else 0
  }

  /** The reader's sections of spotify_get_audio, one after the other until it returns, with the
      lock given up in between. */
  ghost function RunReader(c: Call): (r: Option<(seq<byte>, Call)>)
    requires CallOk(c) && c.w.reader != Outside
    ensures r.Some? ==> Free(r.value.1) && |r.value.0| <= Asked(c.w.reader)
    decreases |c.batches|, c.w.reader.Checking?
  {
    var d := Section(c, ReaderRuns);
    if !c.w.reader.Waiting? then if d.w.reader == Outside then Some(([], d)) else RunReader(Others(d))
    else if !MustWait(c.w.pb) then
      YieldAmount(c.w.pb.queue, c.w.reader.size);
      Some((Yield(c.w.pb.queue, c.w.reader.size), d))
    else if c.batches == [] then None
    else RunReader(Others(d))
  }

  function BytesPerSecond(channels: nat, rate: nat): nat {
    channels * 16 * rate / 8
  }

  /** The time a read seeks to, in milliseconds. */
  function SeekTarget(offset: nat, channels: nat, rate: nat): nat
    requires channels > 0 && rate > 0
  {
    BytesPositive(channels, rate);
    Div(offset, BytesPerSecond(channels, rate)) * 1000
  }

  lemma BytesPositive(channels: nat, rate: nat)
    requires channels > 0 && rate > 0
    ensures BytesPerSecond(channels, rate) == 2 * (channels * rate) > 0
  {
    assert channels * 16 * rate == 16 * (channels * rate);
  }

  /** spotify_seek_track, and expoff with it. */
  ghost function Seek(c: Call, offset: nat): (r: Call)
    requires Free(c)
    ensures Free(r) && r.expoff == offset
  {
    Section(Others(Section(Others(c), DoneSet(false))), Flushed).(expoff := offset)
  }

  /** A read: it still waits; -EINVAL; 0 for want of a track; or it has reached its end with
      these bytes, and has sought to a time. */
  datatype Outcome =
    | Stuck
    | Fails(c: Call)
    | NoTrack(c: Call)
    | Reads(bytes: seq<byte>, sought: Option<nat>, c: Call)

  ghost predicate OutcomeOk(o: Outcome) {
    o.Fails? || o.NoTrack? || o.Reads? ==> Free(o.c)
  }

  /** wav_read */
  ghost function Read(c: Call, track: nat, duration: int, loads: bool, size: nat, offset: nat): (o: Outcome)
    requires Free(c)
    ensures OutcomeOk(o)
  {
    if offset == 0 then
      var (plays, d) := Play(c, track, loads);
      if plays then ReadHeader(d, duration, size, offset) else Fails(d)
    else ReadHeader(c, duration, size, offset)
  }

  /** The bytes of the header that a read of this size from this offset gets. */
  function HeaderPart(header: seq<byte>, size: nat, offset: nat): (b: seq<byte>)
    requires |header| == HEADER && offset < HEADER
    ensures |b| <= size
  {
    header[offset..offset + if offset + size > HEADER then HEADER - offset else size]
  }

  ghost function ReadHeader(c: Call, duration: int, size: nat, offset: nat): (o: Outcome)
    requires Free(c)
    ensures OutcomeOk(o)
  {
    if offset < HEADER then
      match TrackInfo(c, duration)
      case Waits => Stuck
      case Nothing(d) => NoTrack(d)
      case Track(channels, rate, d) =>
        ReadSeeking(d, duration, size, offset, HeaderPart(Header(channels, rate, duration), size, offset))
    else ReadSeeking(c, duration, size, offset, [])
  }

  ghost function ReadSeeking(c: Call, duration: int, size: nat, offset: nat, bytes: seq<byte>): (o: Outcome)
    requires Free(c)
    ensures OutcomeOk(o)
  {
    if c.expoff != offset then
      match TrackInfo(c, duration)
      case Waits => Stuck
      case Nothing(d) => NoTrack(d)
      case Track(channels, rate, d) =>
        ReadAudio(Seek(d, offset), size, offset, bytes, Some(SeekTarget(offset, channels, rate)))
    else ReadAudio(c, size, offset, bytes, None)
  }

  /** The end of a read that has asked for audio. */
  ghost function Appended(r: Option<(seq<byte>, Call)>, bytes: seq<byte>, sought: Option<nat>): (o: Outcome)
    requires r.Some? ==> Free(r.value.1)
    ensures OutcomeOk(o)
  {
    match r
    case None => Stuck
    case Some((audio, d)) => Reads(bytes + audio, sought, d.(expoff := d.expoff + |bytes + audio|))
  }

  ghost function ReadAudio(c: Call, size: nat, offset: nat, bytes: seq<byte>, sought: Option<nat>): (o: Outcome)
    requires Free(c)
    ensures OutcomeOk(o)
  {
    if |bytes| < size && offset + |bytes| >= HEADER then Appended(GetAudio(c, size - |bytes|), bytes, sought)
    else Reads(bytes, sought, c.(expoff := c.expoff + |bytes|))
  }
}
