/** The playback state under every interleaving of the critical sections that libspotify's
    callbacks and the reader of a sound file run on it. */
module AudioRuns {
  import opened Audio
  import opened CStrings

  /** spfs_audio_playback, with g_playback_done beside it. */
  datatype Playback = Playback(queue: seq<Segment>, nsamples: int, stutter: nat, playing: Option<nat>, done: bool)

  /** A delivery: the format and the frames, a whole number of samples of every channel. */
  datatype Delivery = Delivery(channels: nat, rate: nat, numFrames: nat, frames: seq<byte>)

  ghost predicate DeliveryOk(d: Delivery) {
    d.channels > 0 && d.rate > 0 && |d.frames| == d.numFrames * FrameSize(d.channels)
  }

  /** spotify_music_delivery: the new state and the number of frames taken. */
  function Deliver(pb: Playback, d: Delivery): (Playback, nat) {
    if d.numFrames == 0 then (pb, 0)
    else if pb.nsamples > 2 * d.rate then (pb, 0)
    else
      (pb.(queue := pb.queue + [Segment(d.channels, d.rate, d.numFrames, d.frames)],
           nsamples := pb.nsamples + d.numFrames), d.numFrames)
  }

  /** The counter after the flush loop has popped everything. */
  function CountedDown(n: int, q: seq<Segment>): int
    decreases q
  {
    if q == [] then n else CountedDown(n - q[0].nsamples, q[1..])
  }

  /** spfs_audio_playback_flush */
  function Flush(pb: Playback): Playback {
    pb.(queue := [], nsamples := CountedDown(pb.nsamples, pb.queue), stutter := 0)
  }

  /** The condition of the reader's wait loop. */
  predicate MustWait(pb: Playback) {
    pb.playing.Some? && pb.queue == []
  }

  /** The reader's pop loop. */
  function Take(pb: Playback, size: nat): (seq<byte>, Playback)
    requires QueueOk(pb.queue)
  {
    (Yield(pb.queue, size),
     pb.(queue := Remaining(pb.queue, size), nsamples := pb.nsamples - SamplesTaken(pb.queue, size, 0)))
  }

  // ---------------------------------------------------------------- runs

  /** Where the reader is in spotify_get_audio: not in it, past the check of playing, past the
      check of the done flag and at its wait loop, or about to return without audio. */
  datatype Reader = Outside | Checking(size: nat) | Waiting(size: nat) | Leaving

  /** One critical section. End of track, loss of the token, a seek and a new track are made of
      flushes and of writes to the two flags, in any order and with anything in between. */
  datatype Event =
    | Delivered(delivery: Delivery)
    | Flushed
    | PlayingSet(playing: Option<nat>)
    | DoneSet(done: bool)
    | ReadCalled(size: nat)
    | ReaderRuns

  /** The state, and the bytes accepted and returned since the last flush. */
  datatype World = World(pb: Playback, reader: Reader, accepted: seq<byte>, returned: seq<byte>)

  const START: World := World(Playback([], 0, 0, None, false), Outside, [], [])

  function Step(w: World, e: Event): World
    requires QueueOk(w.pb.queue)
  {
    match e
    case Delivered(d) =>
      var (pb, n) := Deliver(w.pb, d);
      w.(pb := pb, accepted := w.accepted + if n == 0 then [] else d.frames)
    case Flushed => w.(pb := Flush(w.pb), accepted := [], returned := [])
    case PlayingSet(playing) => w.(pb := w.pb.(playing := playing))
    case DoneSet(done) => w.(pb := w.pb.(done := done))
    case ReadCalled(size) =>
      if w.reader != Outside then w
      else w.(reader := if w.pb.playing.None? then Leaving else Checking(size))
    case ReaderRuns =>
      match w.reader
      case Outside => w
      case Checking(size) => w.(reader := if w.pb.done then Leaving else Waiting(size))
      case Leaving => w.(pb := w.pb.(done := false), reader := Outside)
      case Waiting(size) =>
        if MustWait(w.pb) then w.(pb := w.pb.(stutter := w.pb.stutter + 1))
        else
          var (bytes, pb) := Take(w.pb, size);
          w.(pb := pb, reader := Outside, returned := w.returned + bytes)
  }

  ghost predicate EventOk(e: Event) {
    e.Delivered? ==> DeliveryOk(e.delivery)
  }

  /** The step does not split a sample between two reads. */
  predicate AlignedStep(w: World, e: Event) {
    e.ReaderRuns? && w.reader.Waiting? ==> Aligned(w.pb.queue, w.reader.size)
  }

  /** Every queued segment has something to read, and the counter counts what is queued. */
  ghost predicate Counted(w: World) {
    QueueOk(w.pb.queue) && w.pb.nsamples == Samples(w.pb.queue)
  }

  /** What was accepted is what was returned and then what is queued. */
  ghost predicate Exact(w: World) {
    QueueOk(w.pb.queue) && w.returned + Stream(w.pb.queue) == w.accepted
  }

  lemma {:induction false} CountedDownIs(n: int, q: seq<Segment>)
    ensures CountedDown(n, q) == n - Samples(q)
    decreases q
  {
    if q == [] {
    } else {
      CountedDownIs(n - q[0].nsamples, q[1..]);
    }
  }

  lemma DeliveredSegment(d: Delivery)
    requires DeliveryOk(d) && d.numFrames > 0
    ensures var s := Segment(d.channels, d.rate, d.numFrames, d.frames);
      QueueOk([s]) && Stream([s]) == d.frames && Samples([s]) == d.numFrames
  {
    var s := Segment(d.channels, d.rate, d.numFrames, d.frames);
    assert [s][1..] == [];
    assert Live(s) == d.frames && Stream([s]) == Live(s) + Stream([s][1..]);
  }

  /** Every step keeps the counter right, aligned or not. */
  lemma StepCounts(w: World, e: Event)
    requires Counted(w) && EventOk(e)
    ensures Counted(Step(w, e))
  {
    match e
    case Delivered(d) =>
      if d.numFrames > 0 {
        DeliveredSegment(d);
        StreamConcat(w.pb.queue, [Segment(d.channels, d.rate, d.numFrames, d.frames)]);
      }
    case Flushed => CountedDownIs(w.pb.nsamples, w.pb.queue);
    case ReaderRuns =>
      if w.reader.Waiting? {
        ReadConserves(w.pb.queue, w.reader.size);
        SamplesConserved(w.pb.queue, w.reader.size, 0);
      }
    case _ =>
  }

  /** A delivery is accepted as a whole and put last if it has frames and at most two seconds of
      its rate are queued; else the library is told that nothing was taken, and nothing changes. */
  lemma DeliveryAccepted(w: World, d: Delivery)
    requires Counted(w) && DeliveryOk(d)
    ensures var (pb, n) := Deliver(w.pb, d);
      && n == (if Samples(w.pb.queue) <= 2 * d.rate then d.numFrames else 0)
      && (n == 0 ==> pb == w.pb)
      && (n > 0 ==> QueueOk(pb.queue) && Stream(pb.queue) == Stream(w.pb.queue) + d.frames)
      && (n > 0 ==> Samples(pb.queue) == Samples(w.pb.queue) + d.numFrames)
      && pb.playing == w.pb.playing && pb.done == w.pb.done
  {
    if d.numFrames > 0 && w.pb.nsamples <= 2 * d.rate {
      DeliveredSegment(d);
      StreamConcat(w.pb.queue, [Segment(d.channels, d.rate, d.numFrames, d.frames)]);
    }
  }

  /** A step keeps the stream exact if and only if it does not split a sample. */
  lemma StepExact(w: World, e: Event)
    requires Counted(w) && Exact(w) && EventOk(e)
    ensures Exact(Step(w, e)) <==> AlignedStep(w, e)
  {
    StepCounts(w, e);
    if e.Delivered? {
      DeliveryExact(w, e.delivery);
    } else if e.ReaderRuns? && w.reader.Waiting? {
      ReaderExact(w);
    }
  }

  lemma DeliveryExact(w: World, d: Delivery)
    requires Counted(w) && Exact(w) && DeliveryOk(d)
    ensures Exact(Step(w, Delivered(d)))
  {
    var q, s := w.pb.queue, Segment(d.channels, d.rate, d.numFrames, d.frames);
    if d.numFrames > 0 && w.pb.nsamples <= 2 * d.rate {
      DeliveredSegment(d);
      StreamConcat(q, [s]);
      assert w.returned + (Stream(q) + d.frames) == (w.returned + Stream(q)) + d.frames;
    }
  }

  lemma ReaderExact(w: World)
    requires Counted(w) && Exact(w) && w.reader.Waiting?
    ensures Exact(Step(w, ReaderRuns)) <==> Aligned(w.pb.queue, w.reader.size)
  {
    var q, size := w.pb.queue, w.reader.size;
    ReadConserves(q, size);
    if !MustWait(w.pb) {
      var bytes, left := Yield(q, size), Remaining(q, size);
      SameTail(w.returned, bytes + Stream(left), Stream(q));
      assert w.returned + (bytes + Stream(left)) == (w.returned + bytes) + Stream(left);
    }
  }

  lemma SameTail(a: seq<byte>, x: seq<byte>, y: seq<byte>)
    ensures a + x == a + y <==> x == y
  {
    assert (a + x)[|a|..] == x && (a + y)[|a|..] == y;
  }

  /** No read of the run splits a sample. */
  ghost predicate RunAligned(w: World, events: seq<Event>)
    requires Counted(w) && forall i :: 0 <= i < |events| ==> EventOk(events[i])
    decreases events
  {
    events != [] ==>
      AlignedStep(w, events[0]) && (StepCounts(w, events[0]); RunAligned(Step(w, events[0]), events[1..]))
  }

  ghost function Run(w: World, events: seq<Event>): World
    requires Counted(w) && forall i :: 0 <= i < |events| ==> EventOk(events[i])
    decreases events
  {
    if events == [] then w
    else
      StepCounts(w, events[0]);
      Run(Step(w, events[0]), events[1..])
  }

  /** Over every interleaving the counter counts what is queued and no queued segment is empty. */
  lemma {:induction false} RunCounts(w: World, events: seq<Event>)
    requires Counted(w) && forall i :: 0 <= i < |events| ==> EventOk(events[i])
    ensures Counted(Run(w, events))
    decreases events
  {
    if events == [] {
    } else {
      StepCounts(w, events[0]);
      RunCounts(Step(w, events[0]), events[1..]);
    }
  }

  /** The stream is exact in every state of the run. */
  ghost predicate ExactThroughout(w: World, events: seq<Event>)
    requires Counted(w) && forall i :: 0 <= i < |events| ==> EventOk(events[i])
    decreases events
  {
    && Exact(w)
    && (events != [] ==> (StepCounts(w, events[0]); ExactThroughout(Step(w, events[0]), events[1..])))
  }

  /** Over every interleaving: at every moment the bytes accepted since the last flush are the
      bytes returned since then followed by the bytes in the queue, nothing lost, doubled or
      moved, if and only if no read of the run splits a sample. */
  lemma {:induction false} RunExact(w: World, events: seq<Event>)
    requires Counted(w) && Exact(w) && forall i :: 0 <= i < |events| ==> EventOk(events[i])
    ensures ExactThroughout(w, events) <==> RunAligned(w, events)
    decreases events
  {
    if events == [] {
    } else {
      var w1 := Step(w, events[0]);
      StepCounts(w, events[0]);
      StepExact(w, events[0]);
      if Exact(w1) {
        RunExact(w1, events[1..]);
      }
    }
  }

  /** Two frames of two channels. */
  const TWO_FRAMES: Delivery := Delivery(2, 44100, 2, [1, 2, 3, 4, 5, 6, 7, 8])

  /** A track plays, two stereo frames are delivered, and three bytes are read. */
  const SPLIT_RUN: seq<Event> :=
    [PlayingSet(Some(0)), Delivered(TWO_FRAMES), ReadCalled(3), ReaderRuns, ReaderRuns]

  /** A run in which a read splits a sample: three bytes are returned and all eight stay queued. */
  lemma SplitRunDoubles()
    ensures forall i :: 0 <= i < |SPLIT_RUN| ==> EventOk(SPLIT_RUN[i])
    ensures var w := Run(START, SPLIT_RUN);
      w.returned == [1, 2, 3] && QueueOk(w.pb.queue) && |Stream(w.pb.queue)| == |w.accepted| == 8 && !Exact(w)
  {
    var q := [Segment(2, 44100, 2, TWO_FRAMES.frames)];
    var w1 := START.(pb := START.pb.(playing := Some(0)));
    var w2 := w1.(pb := w1.pb.(queue := q, nsamples := 2), accepted := TWO_FRAMES.frames);
    var w3 := w2.(reader := Checking(3));
    var w4 := w3.(reader := Waiting(3));
    assert START.pb.queue + q == q && [] + TWO_FRAMES.frames == TWO_FRAMES.frames;
    RunsOn(START, SPLIT_RUN, w1);
    RunsOn(w1, SPLIT_RUN[1..], w2);
    RunsOn(w2, SPLIT_RUN[2..], w3);
    RunsOn(w3, SPLIT_RUN[3..], w4);
    SplitYield(q);
    TakingStep(w4, 3);
    RunsOn(w4, SPLIT_RUN[4..], Step(w4, ReaderRuns));
  }

  lemma RunsOn(w: World, events: seq<Event>, w1: World)
    requires Counted(w) && (forall i :: 0 <= i < |events| ==> EventOk(events[i]))
    requires events != [] && w1 == Step(w, events[0])
    ensures Counted(w1) && Run(w, events) == Run(w1, events[1..])
  {
    StepCounts(w, events[0]);
  }

  /** What the reader's section at the wait loop does when it has nothing to wait for. */
  lemma TakingStep(w: World, size: nat)
    requires QueueOk(w.pb.queue) && w.reader == Waiting(size) && w.pb.queue != []
    ensures var n := Step(w, ReaderRuns);
      && n.returned == w.returned + Yield(w.pb.queue, size) && n.accepted == w.accepted
      && n.pb.queue == Remaining(w.pb.queue, size)
  {
  }

  lemma SplitYield(q: seq<Segment>)
    requires q == [Segment(2, 44100, 2, TWO_FRAMES.frames)]
    ensures Yield(q, 3) == [1, 2, 3] && QueueOk(Remaining(q, 3)) && |Stream(Remaining(q, 3))| == 8
  {
    PartialRead(q, 3);
    var left := Shortened(q[0], 3);
    assert q[0].data[..3] == [1, 2, 3] && q[1..] == [];
    assert Remaining(q, 3) == [left] && Stream([left][1..]) == [] && |Live(left)| == 8;
    assert Stream([left]) == Live(left) + Stream([left][1..]);
  }

  /** A read whose size is a multiple of the frame size of everything delivered is aligned. */
  lemma WholeFramesAligned(q: seq<Segment>, size: nat, channels: nat)
    requires channels > 0 && size % FrameSize(channels) == 0
    requires forall i :: 0 <= i < |q| ==> q[i].channels == channels
    ensures Aligned(q, size)
  {
  }

  // ---------------------------------------------------------------- how much is queued

  ghost predicate Within(e: Event, rate: nat, frames: nat) {
    e.Delivered? ==> e.delivery.rate <= rate && e.delivery.numFrames <= frames
  }

  /** The queue never holds more than two seconds of the highest rate and one delivery. */
  lemma {:induction false} RunBounded(w: World, events: seq<Event>, rate: nat, frames: nat)
    requires Counted(w) && w.pb.nsamples <= 2 * rate + frames
    requires forall i :: 0 <= i < |events| ==> EventOk(events[i]) && Within(events[i], rate, frames)
    ensures Run(w, events).pb.nsamples <= 2 * rate + frames
    decreases events
  {
    if events == [] {
    } else {
      var e := events[0];
      StepCounts(w, e);
      assert EventOk(e) && Within(e, rate, frames);
      if e.ReaderRuns? && w.reader.Waiting? {
        SamplesConserved(w.pb.queue, w.reader.size, 0);
      } else if e.Flushed? {
        CountedDownIs(w.pb.nsamples, w.pb.queue);
      }
      RunBounded(Step(w, e), events[1..], rate, frames);
    }
  }
}
