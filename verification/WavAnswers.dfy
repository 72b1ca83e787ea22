/** What the calls of a sound file's reader answer, and when, told by what there is to see each
    time the reader gets the lock; and what they leave behind. */
module WavAnswers {
  import opened Audio
  import opened AudioRuns
  import opened CStrings
  import opened WavHeader
  import opened WavRuns

  /** The call after others have had the lock k times, if the reader itself does nothing. */
  ghost function Later(c: Call, k: nat): (d: Call)
    requires CallOk(c)
    ensures CallOk(d)
    decreases k
  {
    if k == 0 then c else Later(Others(c), k - 1)
  }

  /** Something is queued, or no track plays. */
  ghost predicate Ready(c: Call) {
    c.w.pb.queue != [] || c.w.pb.playing.None?
  }

  /** It is the first time that the reader has no reason to wait. */
  ghost predicate FirstReady(c: Call, k: nat)
    requires CallOk(c)
  {
    Ready(Later(c, k)) && forall j: nat :: j < k ==> !Ready(Later(c, j))
  }

  ghost predicate NeverReady(c: Call)
    requires CallOk(c)
  {
    forall j: nat :: !Ready(Later(c, j))
  }

  // ---------------------------------------------------------------- what a waiting reader changes

  /** The same but for the count of vain wake-ups, the reader and its log. */
  ghost predicate Alike(a: Call, b: Call) {
    && a.batches == b.batches && a.w.pb.queue == b.w.pb.queue && a.w.pb.nsamples == b.w.pb.nsamples
    && a.w.pb.playing == b.w.pb.playing && a.w.pb.done == b.w.pb.done
  }

  lemma {:induction false} CallbacksAlike(a: Call, b: Call, events: seq<Event>)
    requires CallOk(a) && CallOk(b) && Alike(a, b) && AreCallbacks(events)
    ensures Alike(Callbacks(a, events), Callbacks(b, events))
    decreases events
  {
    if events == [] {
    } else {
      assert IsCallback(events[0]);
      CallbacksAlike(Callback(a, events[0]), Callback(b, events[0]), events[1..]);
    }
  }

  lemma OthersAlike(a: Call, b: Call)
    requires CallOk(a) && CallOk(b) && Alike(a, b)
    ensures Alike(Others(a), Others(b))
  {
    if a.batches == [] {
    } else {
      assert AreCallbacks(a.batches[0]);
      CallbacksAlike(a.(batches := a.batches[1..]), b.(batches := b.batches[1..]), a.batches[0]);
    }
  }

  lemma {:induction false} LaterStays(c: Call, k: nat)
    requires CallOk(c) && c.batches == []
    ensures Later(c, k) == c
    decreases k
  {
    if k == 0 {
    } else {
      LaterStays(c, k - 1);
    }
  }

  // ---------------------------------------------------------------- spotify_get_audio

  /** At the wait loop: the reader takes audio the first time there is no reason to wait, and
      waits for ever if there never is such a time. */
  lemma {:induction false} WaitAnswers(a: Call, b: Call, size: nat) returns (k: nat)
    requires CallOk(a) && CallOk(b) && Alike(a, b) && a.w.reader == Waiting(size)
    ensures RunReader(a).None? ==> NeverReady(b)
    ensures RunReader(a).Some? ==> FirstReady(b, k) && RunReader(a).value.0 == Yield(Later(b, k).w.pb.queue, size)
    decreases |a.batches|
  {
    k := 0;
    if !Ready(b) && a.batches != [] {
      var n := Section(a, ReaderRuns);
      OthersAlike(n, b);
      k := WaitAnswers(Others(n), Others(b), size);
      NotReadyBefore(b, k);
      k := k + 1;
    } else if !Ready(b) {
      forall j: nat
        ensures !Ready(Later(b, j))
      {
        LaterStays(b, j);
      }
    }
  }

  lemma NotReadyBefore(b: Call, k: nat)
    requires CallOk(b) && !Ready(b)
    ensures NeverReady(Others(b)) ==> NeverReady(b)
    ensures FirstReady(Others(b), k) ==> FirstReady(b, k + 1)
  {
    assert forall j: nat :: j > 0 ==> Later(b, j) == Later(Others(b), j - 1);
  }

  /** The checks of spotify_get_audio turn the reader away: at the first no track plays, or at
      the second the done flag is set. */
  ghost predicate TurnedAway(c: Call)
    requires CallOk(c)
  {
    Later(c, 1).w.pb.playing.None? || Later(c, 2).w.pb.done
  }

  /** A call that returns without audio, and leaves the done flag down. */
  ghost predicate EmptyHanded(r: Option<(seq<byte>, Call)>) {
    r.Some? && r.value.0 == [] && !r.value.1.w.pb.done
  }

  lemma FirstTimes(c: Call)
    requires CallOk(c)
    ensures Later(c, 1) == Others(c) && Later(c, 2) == Others(Others(c)) && Later(c, 3) == Others(Others(Others(c)))
  {
    assert Later(Others(c), 0) == Others(c) && Later(Others(Others(c)), 0) == Others(Others(c));
    assert Later(Others(c), 1) == Later(Others(Others(c)), 0);
    assert Later(Others(c), 2) == Later(Others(Others(c)), 1) == Later(Others(Others(Others(c))), 0);
  }

  /** The check of the done flag, with the state b at the time of the check of playing. */
  lemma DoneAnswers(called: Call, b: Call, size: nat) returns (a: Call)
    requires CallOk(called) && CallOk(b) && Alike(called, b) && called.w.reader == Checking(size)
    ensures Others(b).w.pb.done ==> EmptyHanded(RunReader(Others(called)))
    ensures !Others(b).w.pb.done ==>
              CallOk(a) && Alike(a, Others(Others(b))) && a.w.reader == Waiting(size)
              && RunReader(Others(called)) == RunReader(a)
  {
    OthersAlike(called, b);
    var checked := Section(Others(called), ReaderRuns);
    a := Others(checked);
    if !Others(b).w.pb.done {
      OthersAlike(checked, Others(b));
    } else {
      assert a.w.reader == Leaving && Section(a, ReaderRuns).w.reader == Outside;
    }
  }

  /** The two checks. */
  lemma ChecksAnswer(c: Call, size: nat) returns (a: Call)
    requires Free(c)
    ensures TurnedAway(c) ==> EmptyHanded(GetAudio(c, size))
    ensures !TurnedAway(c) ==>
              CallOk(a) && Alike(a, Later(c, 3)) && a.w.reader == Waiting(size) && GetAudio(c, size) == RunReader(a)
  {
    FirstTimes(c);
    var called := Section(Others(c), ReadCalled(size));
    a := called;
    if called.w.reader == Leaving {
      assert Section(Others(called), ReaderRuns).w.reader == Outside;
    } else {
      a := DoneAnswers(called, Others(c), size);
    }
  }

  /** What spotify_get_audio answers: nothing to a reader that is turned away, but the flag is
      down after that; else what is queued
      the first time that, at its wait loop, something is or no track plays; and it waits if there
      is no such time. */
  lemma AudioAnswers(c: Call, size: nat) returns (k: nat)
    requires Free(c)
    ensures var r := GetAudio(c, size);
      && (TurnedAway(c) ==> EmptyHanded(r))
      && (!TurnedAway(c) && r.None? ==> NeverReady(Later(c, 3)))
      && (!TurnedAway(c) && r.Some? ==>
            FirstReady(Later(c, 3), k) && r.value.0 == Yield(Later(Later(c, 3), k).w.pb.queue, size))
  {
    var a := ChecksAnswer(c, size);
    k := 0;
    if !TurnedAway(c) {
      k := WaitAnswers(a, Later(c, 3), size);
    }
  }

  /** A read of audio that comes back empty was turned away, or found no track and an empty queue
      when it gave up: a user takes it for the end of the file. */
  lemma EmptyIsTheEnd(c: Call, size: nat) returns (k: nat)
    requires Free(c) && size > 0 && GetAudio(c, size).Some? && GetAudio(c, size).value.0 == []
    ensures TurnedAway(c) || (Later(Later(c, 3), k).w.pb.playing.None? && Later(Later(c, 3), k).w.pb.queue == [])
  {
    k := AudioAnswers(c, size);
    if !TurnedAway(c) {
      YieldAmount(Later(Later(c, 3), k).w.pb.queue, size);
    }
  }

  /** While a track plays and the flag is not set, a read waits until something is queued, and
      then it is not empty. */
  lemma AudioComes(c: Call, size: nat, j: nat)
    requires Free(c) && size > 0 && !TurnedAway(c)
    requires forall i: nat :: Later(Later(c, 3), i).w.pb.playing.Some?
    ensures Later(Later(c, 3), j).w.pb.queue != [] ==> GetAudio(c, size).Some? && GetAudio(c, size).value.0 != []
    ensures (forall i: nat :: Later(Later(c, 3), i).w.pb.queue == []) ==> GetAudio(c, size) == None
  {
    var k := AudioAnswers(c, size);
    var look := Later(c, 3);
    if look.w.pb.queue == [] || GetAudio(c, size).None? {
      assert Later(look, 0) == look;
    }
    if GetAudio(c, size).Some? {
      YieldAmount(Later(look, k).w.pb.queue, size);
    } else {
      assert !Ready(Later(look, j));
    }
  }

  // ---------------------------------------------------------------- spotify_get_track_info

  /** The first time that something is queued. */
  ghost predicate FirstQueued(c: Call, k: nat)
    requires CallOk(c)
  {
    Later(c, k).w.pb.queue != [] && forall j: nat :: j < k ==> Later(c, j).w.pb.queue == []
  }

  lemma {:induction false} AwaitAnswers(c: Call) returns (k: nat)
    requires Free(c)
    ensures AwaitSegment(c).None? ==> forall j: nat :: Later(c, j).w.pb.queue == []
    ensures AwaitSegment(c).Some? ==> FirstQueued(c, k) && AwaitSegment(c).value == Later(c, k)
    decreases |c.batches|
  {
    k := 0;
    if c.w.pb.queue != [] {
    } else if c.batches == [] {
      forall j: nat
        ensures Later(c, j).w.pb.queue == []
      {
        LaterStays(c, j);
      }
    } else {
      k := AwaitAnswers(Others(c));
      assert forall j: nat :: j > 0 ==> Later(c, j) == Later(Others(c), j - 1);
      k := k + 1;
    }
  }

  /** What spotify_get_track_info answers: nothing if no track plays when it is called; else, the
      first time that something is queued, the format of what is queued first, unless no track
      plays then or its duration is not known; and it waits if there is no such time, even if the
      track is gone meanwhile. */
  lemma InfoAnswers(c: Call, duration: int) returns (k: nat)
    requires Free(c)
    ensures var i, called := TrackInfo(c, duration), Later(c, 1);
      && (called.w.pb.playing.None? ==> i == Nothing(called))
      && (called.w.pb.playing.Some? && i.Waits? ==> forall j: nat :: Later(called, j).w.pb.queue == [])
      && (called.w.pb.playing.Some? && !i.Waits? ==>
            && FirstQueued(called, k) && i.c == Later(called, k)
            && i == if i.c.w.pb.playing.None? || duration < 0 then Nothing(i.c)
                    else Track(i.c.w.pb.queue[0].channels, i.c.w.pb.queue[0].rate, i.c))
  {
    FirstTimes(c);
    k := AwaitAnswers(Others(c));
  }

  // ---------------------------------------------------------------- what is left behind

  /** No callback starts a track. */
  lemma {:induction false} CallbacksStart(c: Call, events: seq<Event>, track: nat)
    requires CallOk(c) && AreCallbacks(events) && c.w.pb.playing != Some(track)
    ensures Callbacks(c, events).w.pb.playing != Some(track)
    decreases events
  {
    if events == [] {
    } else {
      assert IsCallback(events[0]);
      CallbacksStart(Callback(c, events[0]), events[1..], track);
    }
  }

  lemma OthersStart(c: Call, track: nat)
    requires CallOk(c) && c.w.pb.playing != Some(track)
    ensures Others(c).w.pb.playing != Some(track)
  {
    if c.batches == [] {
    } else {
      assert AreCallbacks(c.batches[0]);
      CallbacksStart(c.(batches := c.batches[1..]), c.batches[0], track);
    }
  }

  /** The callbacks neither clear the track nor set the done flag: there are only deliveries
      and flushes. */
  ghost predicate PlaysOn(events: seq<Event>) {
    forall i :: 0 <= i < |events| ==> events[i].Delivered? || events[i].Flushed?
  }

  ghost predicate AllPlayOn(c: Call) {
    forall i :: 0 <= i < |c.batches| ==> PlaysOn(c.batches[i])
  }

  lemma {:induction false} CallbacksPlayOn(c: Call, events: seq<Event>)
    requires CallOk(c) && AreCallbacks(events) && PlaysOn(events)
    ensures var d := Callbacks(c, events); d.w.pb.playing == c.w.pb.playing && d.w.pb.done == c.w.pb.done
    decreases events
  {
    if events == [] {
    } else {
      assert IsCallback(events[0]);
      CallbacksPlayOn(Callback(c, events[0]), events[1..]);
    }
  }

  lemma OthersPlayOn(c: Call)
    requires CallOk(c) && AllPlayOn(c)
    ensures var d := Others(c); AllPlayOn(d) && d.w.pb.playing == c.w.pb.playing && d.w.pb.done == c.w.pb.done
  {
    if c.batches == [] {
    } else {
      assert AreCallbacks(c.batches[0]) && PlaysOn(c.batches[0]);
      CallbacksPlayOn(c.(batches := c.batches[1..]), c.batches[0]);
    }
  }

  /** What a new track starts with, while nothing ends it: the flag is down. */
  lemma RestartLeaves(c: Call)
    requires Free(c) && AllPlayOn(c)
    ensures var d := Restart(c); AllPlayOn(d) && d.w.pb.playing == c.w.pb.playing && !d.w.pb.done
  {
    OthersPlayOn(c);
    var flushed := NewTrack(Section(Others(c), Flushed));
    OthersPlayOn(flushed);
  }

  /** spotify_play_track says whether the track plays, and then it does, whatever the callbacks. */
  lemma PlayLeavesTrack(c: Call, track: nat, loads: bool)
    requires Free(c)
    ensures var (plays, d) := Play(c, track, loads);
      && (plays <==> d.w.pb.playing == Some(track))
      && (plays <==> loads || Others(c).w.pb.playing == Some(track))
  {
    if Others(c).w.pb.playing != Some(track) {
      var c0 := Others(Others(c));
      OthersStart(Others(c), track);
      var c1 := NewTrack(Section(c0, Flushed));
      OthersStart(c1, track);
      OthersStart(Restart(Others(c)), track);
    }
  }

  /** After a new track has been started, and until something ends it, no read of audio is turned
      away: it gets what is delivered. */
  lemma NewTrackIsRead(c: Call, track: nat)
    requires Free(c) && AllPlayOn(c) && c.w.pb.playing != Some(track)
    ensures var d := Play(c, track, true).1; !d.w.pb.done && AllPlayOn(d) && !TurnedAway(d)
  {
    OthersPlayOn(c);
    RestartLeaves(Others(c));
    var anew := Restart(Others(c));
    OthersPlayOn(anew);
    PlayLeavesTrack(c, track, true);
    ReadNotTurnedAway(Play(c, track, true).1);
  }

  lemma ReadNotTurnedAway(d: Call)
    requires Free(d) && AllPlayOn(d) && d.w.pb.playing.Some? && !d.w.pb.done
    ensures !TurnedAway(d)
  {
    FirstTimes(d);
    OthersPlayOn(d);
    OthersPlayOn(Others(d));
  }

  /** A seek leaves an empty queue whatever the callbacks; and until something ends the track, the
      track it found, and the flag down, so no read of audio after it is turned away. */
  lemma SeekLeaves(c: Call, offset: nat)
    requires Free(c)
    ensures var d := Seek(c, offset);
      && d.w.pb.queue == [] && d.w.pb.nsamples == 0 && d.expoff == offset
      && (AllPlayOn(c) ==> d.w.pb.playing == c.w.pb.playing && !d.w.pb.done && AllPlayOn(d))
      && (AllPlayOn(c) && c.w.pb.playing.Some? ==> !TurnedAway(d))
  {
    var lowered := Section(Others(c), DoneSet(false));
    StepCounts(Others(lowered).w, Flushed);
    if AllPlayOn(c) {
      OthersPlayOn(c);
      OthersPlayOn(lowered);
      if c.w.pb.playing.Some? {
        ReadNotTurnedAway(Seek(c, offset));
      }
    }
  }

  // ---------------------------------------------------------------- wav_read

  /** A read fails if and only if it is one from the start of the file, another track plays or
      none, and libspotify does not load this one; otherwise it ends with 0 for want of a track
      only if it has to know the format, within the header or after a jump. */
  lemma ReadFails(c: Call, track: nat, duration: int, loads: bool, size: nat, offset: nat) returns (o: Outcome)
    requires Free(c)
    ensures o == Read(c, track, duration, loads, size, offset)
    ensures o.Fails? <==> offset == 0 && !loads && Later(c, 1).w.pb.playing != Some(track)
    ensures o.NoTrack? ==> offset < 44 || c.expoff != offset
  {
    FirstTimes(c);
    if offset == 0 {
      var (plays, d) := Play(c, track, loads);
      PlayLeavesTrack(c, track, loads);
      o := HeaderNeverFails(d, duration, size, offset);
      if !plays {
        o := Fails(d);
      }
    } else {
      o := HeaderNeverFails(c, duration, size, offset);
    }
  }

  lemma HeaderNeverFails(c: Call, duration: int, size: nat, offset: nat) returns (o: Outcome)
    requires Free(c)
    ensures o == ReadHeader(c, duration, size, offset) && !o.Fails?
    ensures o.NoTrack? ==> offset < 44 || c.expoff != offset
  {
    if offset >= HEADER {
      o := SeekingNeverFails(c, duration, size, offset, []);
    } else {
      var i := TrackInfo(c, duration);
      if i.Track? {
        var part := HeaderPart(Header(i.channels, i.rate, duration), size, offset);
        o := SeekingNeverFails(i.c, duration, size, offset, part);
      } else {
        o := ReadHeader(c, duration, size, offset);
      }
    }
  }

  lemma SeekingNeverFails(c: Call, duration: int, size: nat, offset: nat, bytes: seq<byte>) returns (o: Outcome)
    requires Free(c)
    ensures o == ReadSeeking(c, duration, size, offset, bytes) && !o.Fails?
    ensures o.NoTrack? ==> c.expoff != offset
  {
    o := ReadSeeking(c, duration, size, offset, bytes);
  }
}
