/** Audio of one format: whole numbers of frames, and reads that get them. */
module WholeFrames {
  import opened Audio
  import opened AudioRuns
  import opened WavRuns

  ghost predicate InFormat(q: seq<Segment>, f: Format) {
    forall i :: 0 <= i < |q| ==> q[i].channels == f.channels && q[i].rate == f.rate
  }

  /** A whole number of frames. */
  ghost predicate Whole(n: nat, f: nat)
    requires f > 0
  {
    n == 0 || (n >= f && Whole(n - f, f))
  }

  lemma {:induction false} WholeSum(a: nat, b: nat, f: nat)
    requires f > 0 && Whole(b, f)
    ensures Whole(a + b, f) <==> Whole(a, f)
    decreases b
  {
    if b == 0 {
    } else {
      WholeSum(a, b - f, f);
    }
  }

  lemma {:induction false} WholeTimes(k: nat, f: nat)
    requires f > 0
    ensures Whole(k * f, f)
  {
    if k == 0 {
    } else {
      MulSub(k, 1, f);
      MulMono(1, k, f);
      WholeTimes(k - 1, f);
    }
  }

  lemma {:induction false} WholeQuotient(n: nat, f: nat) returns (k: nat)
    requires f > 0 && Whole(n, f)
    ensures n == k * f
  {
    if n == 0 {
      k := 0;
    } else {
      k := WholeQuotient(n - f, f);
      MulSub(k + 1, 1, f);
      k := k + 1;
    }
  }

  lemma SmallMultiple(k: int, r: int, f: nat)
    requires k * f == r && -(f as int) < r < f
    ensures r == 0
  {
    if k > 0 {
      MulMono(1, k, f);
    } else if k < 0 {
      MulMono(1, -k, f);
    }
  }

  lemma Distribute(a: int, b: int, f: int)
    ensures (a - b) * f == a * f - b * f
  {
  }

  lemma WholeIsNoRest(n: nat, f: nat)
    requires f > 0
    ensures Whole(n, f) <==> n % f == 0
  {
    var d := Div(n, f);
    DivFacts(n, f);
    if n % f == 0 {
      WholeTimes(d, f);
    } else if Whole(n, f) {
      var k := WholeQuotient(n, f);
      Distribute(k, d, f);
      SmallMultiple(k - d, n - d * f, f);
    }
  }

  lemma {:induction false} StreamLength(q: seq<Segment>, f: Format)
    requires QueueOk(q) && InFormat(q, f)
    ensures |Stream(q)| == Samples(q) * FrameSize(f.channels)
  {
    if q == [] {
    } else {
      StreamLength(q[1..], f);
      assert |Live(q[0])| == q[0].nsamples * FrameSize(f.channels);
    }
  }

  lemma {:induction false} RemainingInFormat(q: seq<Segment>, size: nat, sz: nat, f: Format)
    requires QueueOk(q) && InFormat(q, f) && sz <= size
    ensures InFormat(Taken(q, size, sz).1, f)
  {
    if q == [] || sz + SegSize(q[0]) > size {
    } else {
      RemainingInFormat(q[1..], size, sz + SegSize(q[0]), f);
    }
  }

  lemma StreamWhole(q: seq<Segment>, f: Format)
    requires QueueOk(q) && InFormat(q, f) && f.channels > 0
    ensures Whole(|Stream(q)|, FrameSize(f.channels))
  {
    StreamLength(q, f);
    WholeTimes(Samples(q), FrameSize(f.channels));
  }

  /** A read of whole frames gets whole frames, and leaves the stream exact. */
  lemma YieldFrames(q: seq<Segment>, size: nat, f: Format)
    requires QueueOk(q) && InFormat(q, f) && f.channels > 0 && Whole(size, FrameSize(f.channels))
    ensures Aligned(q, size) && QueueOk(Remaining(q, size)) && InFormat(Remaining(q, size), f)
    ensures |Yield(q, size)| <= size && Whole(|Yield(q, size)|, FrameSize(f.channels))
  {
    WholeIsNoRest(size, FrameSize(f.channels));
    WholeFramesAligned(q, size, f.channels);
    ReadConserves(q, size);
    RemainingInFormat(q, size, 0, f);
    YieldAmount(q, size);
    StreamWhole(q, f);
    StreamWhole(Remaining(q, size), f);
    assert |Yield(q, size)| + |Stream(Remaining(q, size))| == |Stream(q)|;
    WholeSum(|Yield(q, size)|, |Stream(Remaining(q, size))|, FrameSize(f.channels));
  }
}
