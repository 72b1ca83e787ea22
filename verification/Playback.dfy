/** The playback state as it is in memory: a queue of segments, each with its own buffer that
    is shortened in place. */
module PlaybackState {
  import opened Audio
  import opened AudioRuns
  import opened CStrings

  /** spfs_audio */
  class AudioSegment {
    const channels: nat
    const rate: nat
    var nsamples: nat
    const samples: array<byte>

    constructor (d: Delivery)
      ensures Shows(Segment(d.channels, d.rate, d.numFrames, d.frames))
      ensures fresh(samples)
    {
      channels, rate, nsamples := d.channels, d.rate, d.numFrames;
      var buf := new byte[|d.frames|];
      samples := buf;
      new;
      MemCpy(samples, 0, d.frames);
      assert samples[..] == d.frames;
    }

    /** The value of the segment. */
    ghost predicate Shows(v: Segment)
      reads this, samples
    {
      v == Segment(channels, rate, nsamples, samples[..])
    }

    /** memmove of what is left to the start of the buffer, and the samples counted down. */
    method Shorten(size: nat, ghost v: Segment)
      requires Shows(v) && SegOk(v) && size < SegSize(v)
      modifies this, samples
      ensures Shows(Shortened(v, size))
    {
      var left := nsamples * FrameSize(channels) - size;
      forall i | 0 <= i < left {
        samples[i] := samples[size + i];
      }
      WholeSamplesFewer(v, size);
      nsamples := nsamples - Div(size, FrameSize(channels));
      assert samples[..] == v.data[size..SegSize(v)] + v.data[left..];
    }
  }

  /** spfs_audio_playback */
  class AudioPlayback {
    var queue: seq<AudioSegment>
    var nsamples: int
    var stutter: nat
    var playing: Option<nat>
    /** g_playback_done */
    var done: bool
    /** The values of the queued segments. */
    ghost var values: seq<Segment>
    /** The segments and their buffers. */
    ghost var repr: set<object>

    ghost predicate Valid()
      reads this, repr
    {
      && this !in repr && |values| == |queue|
      && (forall i :: 0 <= i < |queue| ==> queue[i] in repr && queue[i].samples in repr && queue[i].Shows(values[i]))
      && (forall i, j :: 0 <= i < j < |queue| ==> queue[i] != queue[j] && queue[i].samples != queue[j].samples)
      && QueueOk(values)
    }

    ghost function View(): Playback
      reads this
    {
      Playback(values, nsamples, stutter, playing, done)
    }

    /** spfs_audio_playback_new */
    constructor ()
      ensures Valid() && View() == START.pb && repr == {}
    {
      queue, values, repr, nsamples, stutter, playing, done := [], [], {}, 0, 0, None, false;
    }

    /** spotify_music_delivery */
    method MusicDelivery(d: Delivery) returns (n: nat)
      requires Valid() && DeliveryOk(d)
      modifies this
      ensures Valid() && (View(), n) == Deliver(old(View()), d)
      ensures fresh(repr - old(repr))
    {
      if d.numFrames == 0 {
        return 0;
      }
      if nsamples > 2 * d.rate {
        return 0;
      }
      var audio := new AudioSegment(d);
      queue := queue + [audio];
      values := values + [Segment(d.channels, d.rate, d.numFrames, d.frames)];
      nsamples, repr := nsamples + d.numFrames, repr + {audio, audio.samples};
      return d.numFrames;
    }

    /** spfs_audio_playback_flush */
    method FlushAll()
      requires Valid()
      modifies this
      ensures Valid() && View() == Flush(old(View())) && repr == old(repr)
    {
      while queue != []
        invariant Valid()
        invariant CountedDown(nsamples, values) == CountedDown(old(nsamples), old(values))
        invariant playing == old(playing) && done == old(done) && repr == old(repr)
        decreases |queue|
      {
        var audio := queue[0];
        assert audio.Shows(values[0]);
        queue, values := queue[1..], values[1..];
        nsamples := nsamples - audio.nsamples;
      }
      stutter := 0;
    }

    method SetPlaying(p: Option<nat>)
      requires Valid()
      modifies this`playing
      ensures Valid() && View() == old(View()).(playing := p)
    {
      playing := p;
    }

    method SetDone(d: bool)
      requires Valid()
      modifies this`done
      ensures Valid() && View() == old(View()).(done := d)
    {
      done := d;
    }

    /** A turn of the wait loop of spotify_get_audio. */
    method CountStutter()
      requires Valid()
      modifies this`stutter
      ensures Valid() && View() == old(View()).(stutter := old(stutter) + 1)
    {
      stutter := stutter + 1;
    }

    /** spfs_audio_playback_is_playing */
    method IsPlaying() returns (p: bool)
      ensures p == playing.Some?
    {
      p := playing.Some?;
    }

    /** The pop loop of spotify_get_audio, into a buffer from position at on. */
    method TakeAudio(buf: array<byte>, at: nat, size: nat) returns (sz: nat)
      requires Valid() && at + size <= buf.Length
      requires buf !in repr
      modifies this, buf, repr
      ensures Valid() && repr == old(repr) && View() == Take(old(View()), size).1
      ensures sz == |Take(old(View()), size).0|
      ensures Written(buf[..], old(buf[..]), at, Take(old(View()), size).0)
    {
      ghost var before, was := buf[..], View();
      ghost var got;
      sz, got := TakeWhole(buf, at, size);
      ghost var v := View();
      if queue != [] && sz == 0 {
        WrittenNothing(buf[..], before, at);
        ProgressSplits(was, v, size);
        PopPart(buf, at, size);
        sz := size;
      } else {
        ProgressEnds(was, v, size, got);
      }
    }

    /** Its turns that pop whole segments. */
    method TakeWhole(buf: array<byte>, at: nat, size: nat) returns (sz: nat, ghost got: seq<byte>)
      requires Valid() && at + size <= buf.Length
      requires buf !in repr
      modifies this, buf
      ensures Valid() && repr == old(repr)
      ensures queue != [] ==> sz + SegSize(values[0]) > size
      ensures sz == |got| && Written(buf[..], old(buf[..]), at, got)
      ensures Progress(old(View()), View(), size, got)
    {
      sz, got := 0, [];
      ghost var before, was := buf[..], View();
      assert [] + Taken(values, size, 0).0 == Taken(values, size, 0).0;
      while queue != [] && sz + queue[0].nsamples * FrameSize(queue[0].channels) <= size
        invariant Valid() && repr == old(repr)
        invariant sz == |got| && Written(buf[..], before, at, got)
        invariant Progress(was, View(), size, got)
        decreases |queue|
      {
        ghost var now, v := buf[..], View();
        assert queue[0].Shows(values[0]);
        var n := PopWhole(buf, at + sz);
        WrittenMore(buf[..], now, before, at, got, Live(v.queue[0]));
        ProgressMore(was, v, size, got);
        sz, got := sz + n, got + Live(v.queue[0]);
      }
      assert queue != [] ==> queue[0].Shows(values[0]);
    }

    /** A head segment that fits as a whole: copied, taken off the counter and freed. */
    method PopWhole(buf: array<byte>, at: nat) returns (n: nat)
      requires Valid() && queue != [] && at + SegSize(values[0]) <= buf.Length
      requires buf !in repr
      modifies this, buf
      ensures Valid() && repr == old(repr)
      ensures n == SegSize(old(values)[0]) && View() == Popped(old(View()))
      ensures Written(buf[..], old(buf[..]), at, Live(old(values)[0]))
    {
      var audio := queue[0];
      assert audio.Shows(values[0]) && audio.samples in repr;
      n := audio.nsamples * FrameSize(audio.channels);
      CopyOut(buf, at, audio.samples[..n]);
      queue, values := queue[1..], values[1..];
      nsamples := nsamples - audio.nsamples;
    }

    /** A head segment that does not: its first bytes copied, the others moved to the front of
        its buffer, and the segment back at the head of the queue. */
    method PopPart(buf: array<byte>, at: nat, size: nat)
      requires Valid() && queue != [] && SegSize(values[0]) > size && at + size <= buf.Length
      requires buf !in repr
      modifies this, buf, repr
      ensures Valid() && repr == old(repr)
      ensures View() == Split(old(View()), size)
      ensures Written(buf[..], old(buf[..]), at, old(values)[0].data[..size])
    {
      var audio := queue[0];
      assert audio.Shows(values[0]) && audio.samples in repr;
      CopyOut(buf, at, audio.samples[..size]);
      ShortenHead(size);
    }

    method ShortenHead(size: nat)
      requires Valid() && queue != [] && SegSize(values[0]) > size
      modifies this, repr
      ensures Valid() && repr == old(repr)
      ensures View() == Split(old(View()), size)
    {
      var audio := queue[0];
      var readSamples := Div(size, FrameSize(audio.channels));
      audio.Shorten(size, values[0]);
      ShortenedOk(values[0], size);
      nsamples := nsamples - readSamples;
      values := [Shortened(values[0], size)] + values[1..];
    }
  }

  // ---------------------------------------------------------------- one turn of the pop loop

  ghost function Popped(v: Playback): Playback
    requires v.queue != []
  {
    v.(queue := v.queue[1..], nsamples := v.nsamples - v.queue[0].nsamples)
  }

  ghost function Split(v: Playback, size: nat): Playback
    requires v.queue != [] && SegOk(v.queue[0]) && size < SegSize(v.queue[0])
  {
    v.(queue := [Shortened(v.queue[0], size)] + v.queue[1..],
       nsamples := v.nsamples - WholeSamples(v.queue[0], size))
  }

  /** The loop has taken got so far, and finishing it from here takes what it took from the start. */
  ghost predicate Progress(was: Playback, v: Playback, size: nat, got: seq<byte>) {
    && QueueOk(was.queue) && QueueOk(v.queue) && |got| <= size
    && Taken(was.queue, size, 0) == (got + Taken(v.queue, size, |got|).0, Taken(v.queue, size, |got|).1)
    && was.nsamples - SamplesTaken(was.queue, size, 0) == v.nsamples - SamplesTaken(v.queue, size, |got|)
    && v == was.(queue := v.queue, nsamples := v.nsamples)
  }

  lemma ProgressMore(was: Playback, v: Playback, size: nat, got: seq<byte>)
    requires Progress(was, v, size, got) && v.queue != [] && |got| + SegSize(v.queue[0]) <= size
    ensures Progress(was, Popped(v), size, got + Live(v.queue[0]))
  {
    var live, rest := Live(v.queue[0]), Taken(v.queue[1..], size, |got| + SegSize(v.queue[0]));
    assert got + (live + rest.0) == (got + live) + rest.0;
  }

  lemma ProgressEnds(was: Playback, v: Playback, size: nat, got: seq<byte>)
    requires Progress(was, v, size, got)
    requires v.queue != [] ==> got != [] && |got| + SegSize(v.queue[0]) > size
    ensures Take(was, size) == (got, v)
  {
    assert got + [] == got;
  }

  lemma ProgressSplits(was: Playback, v: Playback, size: nat)
    requires Progress(was, v, size, []) && v.queue != [] && SegSize(v.queue[0]) > size
    ensures Take(was, size) == (v.queue[0].data[..size], Split(v, size))
  {
    var first := v.queue[0].data[..size];
    assert [] + first == first;
  }

  /** The bytes of a buffer are those before, with more written at a position. */
  ghost predicate Written(now: seq<byte>, before: seq<byte>, at: nat, more: seq<byte>) {
    && |now| == |before| && at + |more| <= |now|
    && now[..at] == before[..at] && now[at..at + |more|] == more && now[at + |more|..] == before[at + |more|..]
  }

  lemma WrittenNothing(now: seq<byte>, before: seq<byte>, at: nat)
    requires Written(now, before, at, [])
    ensures now == before
  {
    assert now == now[..at] + now[at..];
    assert before == before[..at] + before[at..];
  }

  lemma WrittenMore(now: seq<byte>, mid: seq<byte>, before: seq<byte>, at: nat, a: seq<byte>, b: seq<byte>)
    requires Written(mid, before, at, a) && Written(now, mid, at + |a|, b)
    ensures Written(now, before, at, a + b)
  {
    assert now[..at] == now[..at + |a|][..at] && mid[..at] == mid[..at + |a|][..at];
    assert now[at..at + |a + b|] == now[..at + |a|][at..] + now[at + |a|..at + |a| + |b|];
    assert mid[at..at + |a|] == mid[..at + |a|][at..];
    assert now[at + |a + b|..] == before[at + |a|..][|b|..];
  }

  /** memcpy, by what it does to the three parts of the buffer. */
  method CopyOut(buf: array<byte>, at: nat, src: seq<byte>)
    requires at + |src| <= buf.Length
    modifies buf
    ensures Written(buf[..], old(buf[..]), at, src)
  {
    MemCpy(buf, at, src);
    assert buf[..][at..at + |src|] == buf[..at + |src|][at..];
    assert buf[..][..at] == buf[..at + |src|][..at];
  }
}
