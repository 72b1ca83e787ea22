/** The audio queue between libspotify and a reader, as values: what one critical section of
    spfs_spotify.c and spfs_audio.c does to it. */
module Audio {
  newtype byte = x: int | 0 <= x < 256

  /** spfs_audio: the buffer may be longer than the samples that are left in it. */
  datatype Segment = Segment(channels: nat, rate: nat, nsamples: nat, data: seq<byte>)

  /** Bytes of one sample of every channel: sizeof(int16_t) * channels. */
  function FrameSize(channels: nat): nat {
    2 * channels
  }

  function SegSize(s: Segment): nat {
    s.nsamples * FrameSize(s.channels)
  }

  ghost predicate SegOk(s: Segment) {
    s.channels > 0 && s.rate > 0 && s.nsamples > 0 && SegSize(s) <= |s.data|
  }

  ghost predicate QueueOk(q: seq<Segment>) {
    forall i :: 0 <= i < |q| ==> SegOk(q[i])
  }

  /** The bytes of a segment that are still to be read. */
  function Live(s: Segment): seq<byte>
    requires SegSize(s) <= |s.data|
  {
    s.data[..SegSize(s)]
  }

  /** All bytes in the queue. */
  ghost function Stream(q: seq<Segment>): seq<byte>
    requires QueueOk(q)
  {
    if q == [] then [] else Live(q[0]) + Stream(q[1..])
  }

  /** All samples in the queue. */
  ghost function Samples(q: seq<Segment>): nat {
    if q == [] then 0 else q[0].nsamples + Samples(q[1..])
  }

  lemma {:induction false} StreamConcat(a: seq<Segment>, b: seq<Segment>)
    requires QueueOk(a) && QueueOk(b)
    ensures QueueOk(a + b) && Stream(a + b) == Stream(a) + Stream(b)
    ensures Samples(a + b) == Samples(a) + Samples(b)
  {
    if a == [] {
      assert a + b == b;
    } else {
      assert (a + b)[1..] == a[1..] + b;
      StreamConcat(a[1..], b);
    }
  }

  // ---------------------------------------------------------------- taking audio

  /** The head segment does not fit as a whole. */
  predicate HeadTooLong(q: seq<Segment>, size: nat) {
    q != [] && SegSize(q[0]) > size
  }

  /** A segment after size bytes have been taken from it: memmove within its buffer, and the
      samples counted down by the whole ones among those bytes. */
  function Shortened(s: Segment, size: nat): Segment
    requires SegOk(s) && size < SegSize(s)
  {
    WholeSamplesFewer(s, size);
    s.(data := s.data[size..SegSize(s)] + s.data[SegSize(s) - size..],
       nsamples := s.nsamples - WholeSamples(s, size))
  }

  /** Division of unsigned numbers. */
  function Div(a: nat, b: nat): nat
    requires b > 0
  {
    a / b
  }

  function WholeSamples(s: Segment, size: nat): nat
    requires s.channels > 0
  {
    Div(size, FrameSize(s.channels))
  }

  lemma WholeSamplesFewer(s: Segment, size: nat)
    requires SegOk(s) && size < SegSize(s)
    ensures WholeSamples(s, size) < s.nsamples
  {
    var f := FrameSize(s.channels);
    DivFacts(size, f);
    if s.nsamples <= Div(size, f) {
      MulMono(s.nsamples, Div(size, f), f);
    }
  }

  lemma DivFacts(size: nat, f: nat)
    requires f > 0
    ensures Div(size, f) * f <= size < Div(size, f) * f + f
    ensures size % f == 0 <==> Div(size, f) * f == size
  {
  }

  lemma MulMono(a: nat, b: nat, f: nat)
    requires a <= b
    ensures a * f <= b * f
  {
  }

  /** What the pop loop yields, after sz bytes: the bytes and the queue that is left. */
  function Taken(q: seq<Segment>, size: nat, sz: nat): (seq<byte>, seq<Segment>)
    requires QueueOk(q) && sz <= size
  {
    if q == [] then ([], [])
    else if sz + SegSize(q[0]) <= size then
      var (rest, left) := Taken(q[1..], size, sz + SegSize(q[0]));
      (Live(q[0]) + rest, left)
    else if sz == 0 then (q[0].data[..size], [Shortened(q[0], size)] + q[1..])
    else ([], q)
  }

  /** The bytes a read of this size gets. */
  function Yield(q: seq<Segment>, size: nat): seq<byte>
    requires QueueOk(q)
  {
    Taken(q, size, 0).0
  }

  function Remaining(q: seq<Segment>, size: nat): seq<Segment>
    requires QueueOk(q)
  {
    Taken(q, size, 0).1
  }

  lemma ShortenedOk(s: Segment, size: nat)
    requires SegOk(s) && size < SegSize(s)
    ensures SegOk(Shortened(s, size))
    ensures SegSize(Shortened(s, size)) == SegSize(s) - WholeSamples(s, size) * FrameSize(s.channels)
  {
    WholeSamplesFewer(s, size);
    MulSub(s.nsamples, WholeSamples(s, size), FrameSize(s.channels));
  }

  lemma MulSub(a: nat, b: nat, f: nat)
    requires b <= a
    ensures (a - b) * f == a * f - b * f
  {
  }

  /** Whole segments are popped from the head as long as they fit. */
  lemma {:induction false} WholeSegments(q: seq<Segment>, size: nat, sz: nat) returns (k: nat)
    requires QueueOk(q) && sz <= size && (sz == 0 ==> !HeadTooLong(q, size))
    ensures k <= |q| && Taken(q, size, sz) == (Stream(q[..k]), q[k..])
    ensures sz + |Stream(q[..k])| <= size
    ensures k < |q| ==> sz + |Stream(q[..k])| + SegSize(q[k]) > size
    ensures q != [] && sz + SegSize(q[0]) <= size ==> k > 0
  {
    if q == [] || sz + SegSize(q[0]) > size {
      k := 0;
      assert q[0..] == q;
    } else {
      SegPositive(q[0]);
      var j := WholeSegments(q[1..], size, sz + SegSize(q[0]));
      k := j + 1;
      assert q[..k][1..] == q[1..][..j];
      assert q[k..] == q[1..][j..];
    }
  }

  lemma SegPositive(s: Segment)
    requires SegOk(s)
    ensures SegSize(s) > 0
  {
    MulMono(1, s.nsamples, FrameSize(s.channels));
  }

  /** A read returns the longest run of whole head segments that fits, or exactly as many
      bytes as asked for when the first segment alone does not fit; never more, and something
      if there is something and something is asked for. */
  lemma YieldAmount(q: seq<Segment>, size: nat)
    requires QueueOk(q)
    ensures |Yield(q, size)| <= size
    ensures HeadTooLong(q, size) ==> |Yield(q, size)| == size
    ensures !HeadTooLong(q, size) ==> exists k: nat :: k <= |q| && IsLongestRun(q, size, k)
    ensures q != [] && size > 0 ==> Yield(q, size) != []
  {
    if !HeadTooLong(q, size) {
      var k := WholeSegments(q, size, 0);
      assert IsLongestRun(q, size, k);
      if q != [] {
        assert q[..k][0] == q[0];
        SegPositive(q[0]);
      }
    }
  }

  /** The read yields the first k segments, and the next one would not fit any more. */
  ghost predicate IsLongestRun(q: seq<Segment>, size: nat, k: nat)
    requires QueueOk(q) && k <= |q|
  {
    && |Stream(q[..k])| <= size && (k < |q| ==> |Stream(q[..k])| + SegSize(q[k]) > size)
    && Yield(q, size) == Stream(q[..k]) && Remaining(q, size) == q[k..]
  }

  /** The read does not split a sample. */
  predicate Aligned(q: seq<Segment>, size: nat) {
    HeadTooLong(q, size) && q[0].channels > 0 ==> size % FrameSize(q[0].channels) == 0
  }

  lemma PartialRead(q: seq<Segment>, size: nat)
    requires QueueOk(q) && HeadTooLong(q, size)
    ensures QueueOk(Remaining(q, size))
    ensures Yield(q, size) + Stream(Remaining(q, size)) == Stream(q) <==> size % FrameSize(q[0].channels) == 0
    ensures Samples(Remaining(q, size)) == Samples(q) - WholeSamples(q[0], size)
  {
    var s := q[0];
    var left := [Shortened(s, size)] + q[1..];
    assert left[1..] == q[1..];
    ShortenedOk(s, size);
    ShortenedConserves(s, size);
    var tail := Stream(q[1..]);
    assert s.data[..size] + (Live(Shortened(s, size)) + tail) == (s.data[..size] + Live(Shortened(s, size))) + tail;
    if size % FrameSize(s.channels) != 0 {
      assert |(s.data[..size] + Live(Shortened(s, size))) + tail| != |Live(s) + tail|;
    }
    WholeSamplesFewer(s, size);
  }

  /** The taken bytes and what is left are the segment, exactly if no sample is split: the
      buffer keeps its length, so bytes of a split sample would be read twice. */
  lemma ShortenedConserves(s: Segment, size: nat)
    requires SegOk(s) && size < SegSize(s)
    ensures SegOk(Shortened(s, size))
    ensures size % FrameSize(s.channels) == 0 ==> s.data[..size] + Live(Shortened(s, size)) == Live(s)
    ensures size % FrameSize(s.channels) != 0 ==> size + |Live(Shortened(s, size))| != |Live(s)|
  {
    ShortenedOk(s, size);
    DivFacts(size, FrameSize(s.channels));
  }

  /** Nothing is lost, doubled or moved by a read, exactly when it does not split a sample. */
  lemma ReadConserves(q: seq<Segment>, size: nat)
    requires QueueOk(q)
    ensures QueueOk(Remaining(q, size))
    ensures Yield(q, size) + Stream(Remaining(q, size)) == Stream(q) <==> Aligned(q, size)
  {
    if HeadTooLong(q, size) {
      PartialRead(q, size);
    } else {
      var k := WholeSegments(q, size, 0);
      StreamConcat(q[..k], q[k..]);
      assert q[..k] + q[k..] == q;
    }
  }

  /** The samples a read counts down. */
  function SamplesTaken(q: seq<Segment>, size: nat, sz: nat): nat
    requires QueueOk(q) && sz <= size
  {
    if q == [] then 0
    else if sz + SegSize(q[0]) <= size then q[0].nsamples + SamplesTaken(q[1..], size, sz + SegSize(q[0]))
    else if sz == 0 then WholeSamples(q[0], size)
    else 0
  }

  lemma {:induction false} SamplesConserved(q: seq<Segment>, size: nat, sz: nat)
    requires QueueOk(q) && sz <= size
    ensures Samples(Taken(q, size, sz).1) + SamplesTaken(q, size, sz) == Samples(q)
  {
    if q == [] {
    } else {
      if sz + SegSize(q[0]) <= size {
        SamplesConserved(q[1..], size, sz + SegSize(q[0]));
      } else if sz == 0 {
        var left := [Shortened(q[0], size)] + q[1..];
        assert left[1..] == q[1..];
      }
    }
  }
}
