/** The reader of sound files as it is in memory: expoff, the playback state it shares with
    libspotify, and the caller's buffer. */
module WavFile {
  import opened Audio
  import opened AudioRuns
  import opened CStrings
  import opened PlaybackState
  import opened WavHeader
  import opened WavRuns

  class SoundFiles {
    const playback: AudioPlayback
    /** The static expoff of wav_read. */
    var expoff: nat
    /** What libspotify's threads are going to do, a batch each time they get the lock. */
    var batches: seq<seq<Event>>
    ghost var now: Call

    ghost function Repr(): set<object>
      reads this, playback
    {
      {this, playback} + playback.repr
    }

    ghost predicate Valid()
      reads this, playback, playback.repr
    {
      && this !in playback.repr && playback.Valid()
      && now.w.pb == playback.View() && now.expoff == expoff && now.batches == batches && CallOk(now)
    }

    constructor (batches: seq<seq<Event>>, ghost f: Format)
      requires forall i :: 0 <= i < |batches| ==> AreCallbacks(batches[i])
      ensures Valid() && fresh(Repr()) && now == Call(START, 0, batches, Log(f, [], [], [], false, false, true))
    {
      playback := new AudioPlayback();
      expoff, this.batches := 0, batches;
      now := Call(START, 0, batches, Log(f, [], [], [], false, false, true));
    }

    /** One critical section on the playback state. */
    method Perform(e: Event)
      requires Valid() && EventOk(e) && !e.ReadCalled? && !e.ReaderRuns?
      modifies playback, playback.repr
      ensures playback.Valid() && fresh(playback.repr - old(playback.repr))
      ensures playback.View() == Step(now.w, e).pb
    {
      match e {
        case Delivered(d) => var n := playback.MusicDelivery(d);
        case Flushed => playback.FlushAll();
        case PlayingSet(p) => playback.SetPlaying(p);
        case DoneSet(d) => playback.SetDone(d);
      }
    }

    /** One critical section of the reader's own. */
    method Act(e: Event)
      requires Valid() && EventOk(e) && !e.ReadCalled? && !e.ReaderRuns?
      modifies Repr()
      ensures Valid() && fresh(Repr() - old(Repr())) && now == Section(old(now), e)
    {
      Perform(e);
      now := Section(now, e);
    }

    /** One critical section of another thread. */
    method LetAct(e: Event)
      requires Valid() && IsCallback(e)
      modifies Repr()
      ensures Valid() && fresh(Repr() - old(Repr())) && now == Callback(old(now), e)
    {
      Perform(e);
      now := Callback(now, e);
    }

    /** Others get the lock. */
    method LetOthers()
      requires Valid()
      modifies Repr()
      ensures Valid() && fresh(Repr() - old(Repr())) && now == Others(old(now))
    {
      if batches == [] {
        return;
      }
      var events := batches[0];
      assert AreCallbacks(events);
      batches := batches[1..];
      now := now.(batches := batches);
      ghost var end := Callbacks(now, events);
      var i := 0;
      while i < |events|
        invariant 0 <= i <= |events| && Valid() && fresh(Repr() - old(Repr()))
        invariant AreCallbacks(events[i..]) && Callbacks(now, events[i..]) == end
      {
        ghost var rest := events[i..];
        assert rest[1..] == events[i + 1..] && rest[0] == events[i] && IsCallback(rest[0]);
        LetAct(events[i]);
        i := i + 1;
      }
    }

    method StartAnew()
      requires Valid() && Free(now)
      modifies Repr()
      ensures Valid() && fresh(Repr() - old(Repr())) && now == Restart(old(now))
    {
      LetOthers();
      Act(Flushed);
      now := NewTrack(now);
      LetOthers();
      Act(DoneSet(false));
    }

    method StartTrack(track: nat, loads: bool)
      requires Valid() && Free(now)
      modifies Repr()
      ensures Valid() && fresh(Repr() - old(Repr())) && now == WavRuns.StartTrack(old(now), track, loads)
    {
      StartAnew();
      LetOthers();
      if loads {
        Act(PlayingSet(Some(track)));
      }
    }

    /** spotify_play_track */
    method PlayTrack(track: nat, loads: bool) returns (plays: bool)
      requires Valid() && Free(now)
      modifies Repr()
      ensures Valid() && fresh(Repr() - old(Repr())) && (plays, now) == Play(old(now), track, loads)
    {
      LetOthers();
      if playback.playing == Some(track) {
        return true;
      }
      StartTrack(track, loads);
      return loads;
    }

    /** The wait loop of spotify_get_track_info; false if it is still waiting when all
        callbacks have come. */
    method WaitForSegment() returns (there: bool)
      requires Valid() && Free(now)
      modifies Repr()
      ensures Valid() && fresh(Repr() - old(Repr()))
      ensures AwaitSegment(old(now)) == if there then Some(now) else None
    {
      while playback.queue == [] && batches != []
        invariant Valid() && Free(now) && fresh(Repr() - old(Repr()))
        invariant AwaitSegment(now) == AwaitSegment(old(now))
        decreases |batches|
      {
        LetOthers();
      }
      there := playback.queue != [];
    }

    /** spotify_get_track_info */
    method GetTrackInfo(duration: int) returns (a: Answer)
      requires Valid() && Free(now)
      modifies Repr()
      ensures Valid() && fresh(Repr() - old(Repr())) && Answers(a, TrackInfo(old(now), duration), now)
    {
      LetOthers();
      if playback.playing == None {
        return NoTrackPlays;
      }
      var there := WaitForSegment();
      if !there {
        return StillWaits;
      }
      var head := playback.queue[0];
      assert head.Shows(playback.values[0]);
      if playback.playing == None || duration < 0 {
        return NoTrackPlays;
      }
      return TrackIs(head.channels, head.rate);
    }

    /** spotify_seek_track, and expoff with it. */
    method SeekTrack(offset: nat)
      requires Valid() && Free(now)
      modifies Repr()
      ensures Valid() && fresh(Repr() - old(Repr())) && now == Seek(old(now), offset)
    {
      LetOthers();
      Act(DoneSet(false));
      LetOthers();
      Act(Flushed);
      expoff := offset;
      now := now.(expoff := offset);
    }

    /** spotify_get_audio, into a buffer from position at on; None if it is still waiting when
        all callbacks have come. */
    method GetAudio(buf: array<byte>, at: nat, size: nat, ghost was: seq<byte>,
                    ghost g: Option<(seq<byte>, Call)>)
      returns (r: Option<nat>, ghost audio: seq<byte>)
      requires Valid() && Free(now) && at + size <= buf.Length && buf !in Repr() && was == buf[..]
      requires g == WavRuns.GetAudio(now, size)
      modifies Repr(), buf
      ensures Valid() && fresh(Repr() - old(Repr()))
      ensures if r.None? then g == None else g == Some((audio, now)) && r.value == |audio|
      ensures r.Some? ==> |audio| <= size && Written(buf[..], was, at, audio)
    {
      var goesOn := BeginAudio(size);
      if goesOn {
        r, audio := WaitThenTake(buf, at, size);
      } else {
        Leave();
        r, audio := Some(0), [];
      }
    }

    /** The checks of spotify_get_audio. */
    method BeginAudio(size: nat) returns (goesOn: bool)
      requires Valid() && Free(now)
      modifies Repr()
      ensures Valid() && fresh(Repr() - old(Repr()))
      ensures now.w.reader == if goesOn then Waiting(size) else Leaving
      ensures WavRuns.GetAudio(old(now), size) == RunReader(Others(now))
    {
      goesOn := CheckPlaying(size);
      if goesOn {
        goesOn := CheckDone(size);
      }
    }

    /** The check whether a track plays. */
    method CheckPlaying(size: nat) returns (plays: bool)
      requires Valid() && Free(now)
      modifies Repr()
      ensures Valid() && fresh(Repr() - old(Repr()))
      ensures now.w.reader == if plays then Checking(size) else Leaving
      ensures WavRuns.GetAudio(old(now), size) == RunReader(Others(now))
    {
      LetOthers();
      plays := playback.IsPlaying();
      now := Section(now, ReadCalled(size));
    }

    /** The check of the done flag. */
    method CheckDone(size: nat) returns (goesOn: bool)
      requires Valid() && now.w.reader == Checking(size)
      modifies Repr()
      ensures Valid() && fresh(Repr() - old(Repr()))
      ensures now.w.reader == if goesOn then Waiting(size) else Leaving
      ensures RunReader(Others(old(now))) == RunReader(Others(now))
    {
      LetOthers();
      goesOn := !playback.done;
      now := Section(now, ReaderRuns);
    }

    method Leave()
      requires Valid() && now.w.reader == Leaving
      modifies Repr()
      ensures Valid() && fresh(Repr() - old(Repr()))
      ensures RunReader(Others(old(now))) == Some(([], now))
    {
      LetOthers();
      playback.SetDone(false);
      now := Section(now, ReaderRuns);
    }

    method WaitThenTake(buf: array<byte>, at: nat, size: nat) returns (r: Option<nat>, ghost audio: seq<byte>)
      requires Valid() && now.w.reader == Waiting(size) && at + size <= buf.Length && buf !in Repr()
      modifies Repr(), buf
      ensures Valid() && fresh(Repr() - old(Repr()))
      ensures r.None? ==> RunReader(Others(old(now))) == None
      ensures r.Some? ==> RunReader(Others(old(now))) == Some((audio, now)) && r.value == |audio|
      ensures r.Some? ==> Written(buf[..], old(buf[..]), at, audio)
    {
      WaitForAudio(size);
      if playback.playing != None && playback.queue == [] {
        return None, [];
      }
      audio := Yield(now.w.pb.queue, size);
      var sz := playback.TakeAudio(buf, at, size);
      now := Section(now, ReaderRuns);
      r := Some(sz);
    }

    /** The wait loop of spotify_get_audio. */
    method WaitForAudio(size: nat)
      requires Valid() && now.w.reader == Waiting(size)
      modifies Repr()
      ensures Valid() && fresh(Repr() - old(Repr()))
      ensures now.w.reader == Waiting(size) && (MustWait(now.w.pb) ==> batches == [])
      ensures RunReader(now) == RunReader(Others(old(now)))
    {
      LetOthers();
      while playback.playing != None && playback.queue == [] && batches != []
        invariant Valid() && fresh(Repr() - old(Repr()))
        invariant now.w.reader == Waiting(size)
        invariant RunReader(now) == RunReader(Others(old(now)))
        decreases |batches|
      {
        WaitOnce(size);
      }
    }

    method WaitOnce(size: nat)
      requires Valid() && now.w.reader == Waiting(size) && MustWait(now.w.pb) && batches != []
      modifies Repr()
      ensures Valid() && fresh(Repr() - old(Repr()))
      ensures now.w.reader == Waiting(size) && |batches| < |old(batches)|
      ensures RunReader(now) == RunReader(old(now))
    {
      playback.CountStutter();
      now := Section(now, ReaderRuns);
      LetOthers();
    }

    // -------------------------------------------------------------- wav_read

    /** wav_read: the number of bytes or -EINVAL; None if it is still waiting when all callbacks
        have come. */
    method Read(buf: array<byte>, track: nat, duration: int, loads: bool, size: nat, offset: nat)
      returns (r: Option<int>, ghost o: Outcome)
      requires Valid() && Free(now) && size <= buf.Length && buf !in Repr()
      modifies Repr(), buf
      ensures Valid() && fresh(Repr() - old(Repr()))
      ensures o == WavRuns.Read(old(now), track, duration, loads, size, offset)
      ensures Results(r, o, now, buf[..], old(buf[..]), size)
    {
      o := WavRuns.Read(now, track, duration, loads, size, offset);
      var goesOn := BeginRead(track, duration, loads, size, offset, o);
      if goesOn {
        r := ReadCleared(buf, duration, size, offset, o);
      } else {
        r := Some(EINVAL);
      }
    }

    /** A read from the start of the file makes sure that the track plays. */
    method BeginRead(track: nat, duration: int, loads: bool, size: nat, offset: nat, ghost o: Outcome)
      returns (goesOn: bool)
      requires Valid() && Free(now) && o == WavRuns.Read(now, track, duration, loads, size, offset)
      modifies Repr()
      ensures Valid() && fresh(Repr() - old(Repr())) && Free(now)
      ensures o == if goesOn then WavRuns.ReadHeader(now, duration, size, offset) else Fails(now)
    {
      goesOn := true;
      if offset == 0 {
        goesOn := PlayTrack(track, loads);
      }
    }

    method ReadCleared(buf: array<byte>, duration: int, size: nat, offset: nat, ghost o: Outcome)
      returns (r: Option<int>)
      requires Valid() && Free(now) && size <= buf.Length && buf !in Repr()
      requires o == WavRuns.ReadHeader(now, duration, size, offset)
      modifies Repr(), buf
      ensures Valid() && fresh(Repr() - old(Repr()))
      ensures Results(r, o, now, buf[..], old(buf[..]), size)
    {
      ghost var before := buf[..];
      Clear(buf, size);
      r := ReadFilled(buf, duration, size, offset, before, o);
    }

    method ReadFilled(buf: array<byte>, duration: int, size: nat, offset: nat, ghost before: seq<byte>,
                      ghost o: Outcome)
      returns (r: Option<int>)
      requires Valid() && Free(now) && buf !in Repr() && Filled(buf[..], before, [], size)
      requires o == WavRuns.ReadHeader(now, duration, size, offset)
      modifies Repr(), buf
      ensures Valid() && fresh(Repr() - old(Repr()))
      ensures Results(r, o, now, buf[..], before, size)
    {
      ghost var p;
      if offset >= HEADER {
        r, p := ReadSeeking(buf, duration, size, offset, 0, [], before);
      } else {
        r, p := ReadHeader(buf, duration, size, offset, before);
      }
    }

    /** From the header on. */
    method ReadHeader(buf: array<byte>, duration: int, size: nat, offset: nat, ghost before: seq<byte>)
      returns (r: Option<int>, ghost o: Outcome)
      requires Valid() && Free(now) && buf !in Repr() && Filled(buf[..], before, [], size) && offset < HEADER
      modifies Repr(), buf
      ensures Valid() && fresh(Repr() - old(Repr()))
      ensures o == WavRuns.ReadHeader(old(now), duration, size, offset)
      ensures Results(r, o, now, buf[..], before, size)
    {
      o := WavRuns.ReadHeader(now, duration, size, offset);
      var a := GetTrackInfo(duration);
      match a {
        case StillWaits => r := None;
        case NoTrackPlays => r := Some(0);
        case TrackIs(channels, rate) =>
          var part := HeaderPart(Header(channels, rate, duration), size, offset);
          assert o == WavRuns.ReadSeeking(now, duration, size, offset, part);
          r := ReadAfterHeader(buf, duration, size, offset, part, before, o);
      }
    }

    method ReadAfterHeader(buf: array<byte>, duration: int, size: nat, offset: nat, part: seq<byte>,
                           ghost before: seq<byte>, ghost o: Outcome)
      returns (r: Option<int>)
      requires Valid() && Free(now) && buf !in Repr() && Filled(buf[..], before, [], size) && |part| <= size
      requires o == WavRuns.ReadSeeking(now, duration, size, offset, part)
      modifies Repr(), buf
      ensures Valid() && fresh(Repr() - old(Repr()))
      ensures Results(r, o, now, buf[..], before, size)
    {
      CopyHeader(buf, part, size, before);
      ghost var p;
      r, p := ReadSeeking(buf, duration, size, offset, |part|, part, before);
    }

    /** From the comparison with expoff on. */
    method ReadSeeking(buf: array<byte>, duration: int, size: nat, offset: nat, read: nat, ghost bytes: seq<byte>,
                       ghost before: seq<byte>)
      returns (r: Option<int>, ghost o: Outcome)
      requires Valid() && Free(now) && buf !in Repr() && Filled(buf[..], before, bytes, size) && read == |bytes|
      modifies Repr(), buf
      ensures Valid() && fresh(Repr() - old(Repr()))
      ensures o == WavRuns.ReadSeeking(old(now), duration, size, offset, bytes)
      ensures Results(r, o, now, buf[..], before, size)
    {
      o := WavRuns.ReadSeeking(now, duration, size, offset, bytes);
      if expoff == offset {
        r := ReadAudio(buf, size, offset, read, bytes, before, None, o);
      } else {
        var a := GetTrackInfo(duration);
        match a {
          case StillWaits => r := None;
          case NoTrackPlays => r := Some(0);
          case TrackIs(channels, rate) =>
            SeekTrack(offset);
            r := ReadAudio(buf, size, offset, read, bytes, before, Some(SeekTarget(offset, channels, rate)), o);
        }
      }
    }

    /** From the audio on. */
    method ReadAudio(buf: array<byte>, size: nat, offset: nat, read: nat, ghost bytes: seq<byte>,
                     ghost before: seq<byte>, ghost sought: Option<nat>, ghost o: Outcome)
      returns (r: Option<int>)
      requires Valid() && Free(now) && buf !in Repr() && Filled(buf[..], before, bytes, size) && read == |bytes|
      requires o == WavRuns.ReadAudio(now, size, offset, bytes, sought)
      modifies Repr(), buf
      ensures Valid() && fresh(Repr() - old(Repr()))
      ensures Results(r, o, now, buf[..], before, size)
    {
      var n := Some(0);
      ghost var all := bytes;
      if read < size && offset + read >= HEADER {
        n, all := ReadMore(buf, read, size, bytes, before, sought, offset, o);
      }
      r := EndRead(buf, read, n, all, before, size, o);
    }

    method ReadMore(buf: array<byte>, read: nat, size: nat, ghost bytes: seq<byte>, ghost before: seq<byte>,
                    ghost sought: Option<nat>, ghost offset: nat, ghost o: Outcome)
      returns (n: Option<nat>, ghost all: seq<byte>)
      requires Valid() && Free(now) && buf !in Repr()
      requires Filled(buf[..], before, bytes, size) && read == |bytes| < size
      requires offset + read >= HEADER && o == WavRuns.ReadAudio(now, size, offset, bytes, sought)
      modifies Repr(), buf
      ensures Valid() && fresh(Repr() - old(Repr()))
      ensures n.None? ==> o == Stuck
      ensures n.Some? ==> o.Reads? && o.bytes == all && o.c == now.(expoff := now.expoff + |all|)
      ensures n.Some? ==> Filled(buf[..], before, all, size) && |all| == read + n.value
    {
      ghost var g := AudioOf(now, size, offset, bytes, sought, size - read, o);
      n, all := AppendAudio(buf, read, size, bytes, before, sought, g, o);
    }

    method EndRead(buf: array<byte>, read: nat, n: Option<nat>, ghost bytes: seq<byte>, ghost before: seq<byte>,
                   size: nat, ghost o: Outcome)
      returns (r: Option<int>)
      requires Valid() && (n.None? ==> o == Stuck)
      requires n.Some? ==> o.Reads? && o.bytes == bytes && o.c == now.(expoff := now.expoff + |bytes|)
      requires n.Some? ==> Filled(buf[..], before, bytes, size) && |bytes| == read + n.value
      modifies this
      ensures Valid() && Repr() == old(Repr()) && Results(r, o, now, buf[..], before, size)
    {
      if n == None {
        return None;
      }
      GoOn(read + n.value);
      r := Some(read + n.value);
    }

    method AppendAudio(buf: array<byte>, read: nat, size: nat, ghost bytes: seq<byte>, ghost before: seq<byte>,
                       ghost sought: Option<nat>, ghost g: Option<(seq<byte>, Call)>, ghost o: Outcome)
      returns (n: Option<nat>, ghost all: seq<byte>)
      requires Valid() && Free(now) && buf !in Repr()
      requires Filled(buf[..], before, bytes, size) && read == |bytes| < size
      requires Gets(now, size - read, bytes, sought, o, g)
      modifies Repr(), buf
      ensures Valid() && fresh(Repr() - old(Repr()))
      ensures n.None? ==> o == Stuck
      ensures n.Some? ==> o.Reads? && o.bytes == all && o.c == now.(expoff := now.expoff + |all|)
      ensures n.Some? ==> Filled(buf[..], before, all, size) && |all| == read + n.value
    {
      ghost var was := buf[..];
      ghost var audio;
      n, audio := GetAudio(buf, read, size - read, was, g);
      all := bytes + audio;
      if n.Some? {
        FilledMore(buf[..], was, before, bytes, audio, size);
      }
    }

    /** expoff moves on. */
    method GoOn(n: nat)
      requires Valid()
      modifies this
      ensures Valid() && Repr() == old(Repr())
      ensures now == old(now).(expoff := old(now).expoff + n)
    {
      expoff := expoff + n;
      now := now.(expoff := expoff);
    }

    method CopyHeader(buf: array<byte>, part: seq<byte>, size: nat, ghost before: seq<byte>)
      requires Filled(buf[..], before, [], size) && |part| <= size
      modifies buf
      ensures Filled(buf[..], before, part, size)
    {
      ghost var was := buf[..];
      CopyOut(buf, 0, part);
      FilledMore(buf[..], was, before, [], part, size);
      assert [] + part == part;
    }
  }

  /** The outcome of a read that has this answer to its request for audio. */
  ghost predicate Gets(c: Call, rest: nat, bytes: seq<byte>, sought: Option<nat>, o: Outcome,
                       g: Option<(seq<byte>, Call)>)
  {
    Free(c) && g == WavRuns.GetAudio(c, rest) && o == Appended(g, bytes, sought)
  }

  lemma AudioOf(c: Call, size: nat, offset: nat, bytes: seq<byte>, sought: Option<nat>, rest: nat, o: Outcome)
    returns (g: Option<(seq<byte>, Call)>)
    requires Free(c) && rest == size - |bytes| > 0 && offset + |bytes| >= HEADER
    requires o == WavRuns.ReadAudio(c, size, offset, bytes, sought)
    ensures Gets(c, rest, bytes, sought, o, g)
  {
    g := WavRuns.GetAudio(c, rest);
  }

  /** The error code of wav_read for a track that does not play. */
  const EINVAL: int := -22

  /** The call's result and buffer are the outcome. */
  ghost predicate Results(r: Option<int>, o: Outcome, now: Call, buf: seq<byte>, before: seq<byte>, size: nat) {
    match o
    case Stuck => r == None
    case Fails(c) => r == Some(EINVAL) && now == c
    case NoTrack(c) => r == Some(0) && now == c
    case Reads(bytes, _, c) => r == Some(|bytes|) && now == c && Filled(buf, before, bytes, size)
  }

  /** The bytes at the front, zeros up to the size asked for, and nothing else touched. */
  ghost predicate Filled(buf: seq<byte>, before: seq<byte>, bytes: seq<byte>, size: nat) {
    && |buf| == |before| && |bytes| <= size <= |buf|
    && buf[..|bytes|] == bytes && buf[size..] == before[size..]
    && forall i :: |bytes| <= i < size ==> buf[i] == 0
  }

  lemma FilledMore(now: seq<byte>, buf: seq<byte>, before: seq<byte>, a: seq<byte>, b: seq<byte>, size: nat)
    requires Filled(buf, before, a, size) && Written(now, buf, |a|, b) && |a| + |b| <= size
    ensures Filled(now, before, a + b, size)
  {
    assert now[..|a + b|] == now[..|a|] + now[|a|..|a| + |b|];
    assert now[size..] == now[|a| + |b|..][size - |a| - |b|..];
    assert buf[size..] == buf[|a| + |b|..][size - |a| - |b|..];
    forall i | |a + b| <= i < size
      ensures now[i] == 0
    {
      assert now[i] == now[|a| + |b|..][i - |a| - |b|] == buf[|a| + |b|..][i - |a| - |b|];
    }
  }

  /** memset of the first bytes to zero. */
  method Clear(buf: array<byte>, size: nat)
    requires size <= buf.Length
    modifies buf
    ensures Filled(buf[..], old(buf[..]), [], size)
  {
    forall i | 0 <= i < size {
      buf[i] := 0;
    }
  }

  /** What spotify_get_track_info answers. */
  datatype Answer = StillWaits | NoTrackPlays | TrackIs(channels: nat, rate: nat)

  ghost predicate Answers(a: Answer, i: Info, now: Call) {
    i == match a
         case StillWaits => Waits
         case NoTrackPlays => Nothing(now)
         case TrackIs(channels, rate) => Track(channels, rate, now)
  }
}
