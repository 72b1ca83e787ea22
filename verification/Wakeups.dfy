/** The mutex and the condition variable of the playback state, step by step: the reader, the
    thread that delivers music and the thread that runs libspotify's other callbacks. */
module Wakeups {
  import opened CStrings

  datatype Thread = Reader | Delivery | Callbacks

  /** The two places where the reader waits: for audio, and for the format of the track. */
  datatype Site = Audio | Info

  /** Where the reader is; from Testing on it holds the lock, and Blocked has given it up. */
  datatype ReaderAt =
    | Away
    | Wants(site: Site)
    | Testing(site: Site)
    | Blocked(site: Site)
    | Woken(site: Site)
    | Through(site: Site)
    | FlushWants
    | Flushing
    | FlushSignals

  datatype DeliveryAt = NoMusic | MusicWants | MusicHolds | MusicSignals | MusicLeaves

  /** Loss of the token, and the two locked sections of the end of a track. */
  datatype CallbackAt =
    | Quiet
    | TokenWants | TokenHolds | TokenSignals | TokenLeaves
    | EndWants | EndFlushing | EndSignals | EndLeaves | ClearWants | Clearing | ClearLeaves

  datatype State = State(lock: Option<Thread>, queued: nat, playing: bool,
                         reader: ReaderAt, delivery: DeliveryAt, callback: CallbackAt)

  const START: State := State(None, 0, false, Away, NoMusic, Quiet)

  datatype Move =
    | ReadAt(site: Site)
    | ReaderFlushes
    | ReaderStarts
    | ReaderRuns(popped: nat)
    | DeliveryRuns(refuses: bool)
    | TokenIsLost
    | TrackEnds
    | CallbackRuns
    | Spurious

  /** The condition of the wait loop. */
  predicate MustWait(s: State, site: Site) {
    s.queued == 0 && (site.Audio? ==> s.playing)
  }

  /** g_cond_signal: only the reader ever waits. */
  function Signal(s: State): State {
    if s.reader.Blocked? then s.(reader := Woken(s.reader.site)) else s
  }

  function RunReader(s: State, popped: nat): State {
    match s.reader
    case Wants(site) =>
      if s.lock != None then s
      else if site.Info? && !s.playing then s.(lock := Some(Reader), reader := Through(Info))
      else s.(lock := Some(Reader), reader := Testing(site))
    case Testing(site) =>
      if MustWait(s, site) then s.(lock := None, reader := Blocked(site)) else s.(reader := Through(site))
    case Woken(site) => if s.lock != None then s else s.(lock := Some(Reader), reader := Testing(site))
    case Through(site) =>
      s.(lock := None, reader := Away,
         queued := if site.Info? then s.queued else if popped < s.queued then s.queued - popped else 0)
    case FlushWants => if s.lock != None then s else s.(lock := Some(Reader), reader := Flushing)
    case Flushing => s.(queued := 0, reader := FlushSignals)
    case FlushSignals => Signal(s).(lock := None, reader := Away)
    case Away | Blocked(_) => s
  }

  function RunDelivery(s: State, refuses: bool): State {
    match s.delivery
    case NoMusic => s.(delivery := MusicWants)
    case MusicWants => if s.lock != None then s else s.(lock := Some(Delivery), delivery := MusicHolds)
    case MusicHolds =>
      if refuses then s.(delivery := MusicLeaves) else s.(queued := s.queued + 1, delivery := MusicSignals)
    case MusicSignals => Signal(s).(delivery := MusicLeaves)
    case MusicLeaves => s.(lock := None, delivery := NoMusic)
  }

  function RunCallback(s: State): State {
    match s.callback
    case Quiet => s
    case TokenWants => if s.lock != None then s else s.(lock := Some(Callbacks), callback := TokenHolds)
    case TokenHolds => s.(playing := false, callback := TokenSignals)
    case TokenSignals => Signal(s).(callback := TokenLeaves)
    case TokenLeaves => s.(lock := None, callback := Quiet)
    case EndWants => if s.lock != None then s else s.(lock := Some(Callbacks), callback := EndFlushing)
    case EndFlushing => s.(queued := 0, callback := EndSignals)
    case EndSignals => Signal(s).(callback := EndLeaves)
    case EndLeaves => s.(lock := None, callback := ClearWants)
    case ClearWants => if s.lock != None then s else s.(lock := Some(Callbacks), callback := Clearing)
    case Clearing => s.(playing := false, callback := ClearLeaves)
    case ClearLeaves => s.(lock := None, callback := Quiet)
  }

  /** A step of one thread; a thread that needs the lock and cannot have it does not move. */
  function Step(s: State, m: Move): State {
    match m
    case ReadAt(site) => if s.reader.Away? then s.(reader := Wants(site)) else s
    case ReaderFlushes => if s.reader.Away? then s.(reader := FlushWants) else s
    case ReaderStarts => if s.reader.Away? then s.(playing := true) else s
    case ReaderRuns(popped) => RunReader(s, popped)
    case DeliveryRuns(refuses) => RunDelivery(s, refuses)
    case TokenIsLost => if s.callback.Quiet? then s.(callback := TokenWants) else s
    case TrackEnds => if s.callback.Quiet? then s.(callback := EndWants) else s
    case CallbackRuns => RunCallback(s)
    case Spurious => Signal(s)
  }

  // ---------------------------------------------------------------- the invariant

  predicate ReaderInside(s: State) {
    s.reader.Testing? || s.reader.Through? || s.reader.Flushing? || s.reader.FlushSignals?
  }

  predicate DeliveryInside(s: State) {
    s.delivery.MusicHolds? || s.delivery.MusicSignals? || s.delivery.MusicLeaves?
  }

  predicate CallbackInside(s: State) {
    || s.callback.TokenHolds? || s.callback.TokenSignals? || s.callback.TokenLeaves?
    || s.callback.EndFlushing? || s.callback.EndSignals? || s.callback.EndLeaves?
    || s.callback.Clearing? || s.callback.ClearLeaves?
  }

  /** Exactly the thread that has the lock is inside a locked section. */
  predicate Exclusive(s: State) {
    && (ReaderInside(s) <==> s.lock == Some(Reader))
    && (DeliveryInside(s) <==> s.lock == Some(Delivery))
    && (CallbackInside(s) <==> s.lock == Some(Callbacks))
  }

  /** Some thread is about to signal, before it gives the lock back. */
  predicate SignalComes(s: State) {
    s.delivery.MusicSignals? || s.callback.TokenSignals? || s.callback.EndSignals?
  }

  /** If the reader is blocked there is nothing for it to do, or a signal is on its way. */
  predicate NoLostWakeup(s: State) {
    s.reader.Blocked? ==> MustWait(s, s.reader.site) || SignalComes(s)
  }

  predicate Sound(s: State) {
    Exclusive(s) && NoLostWakeup(s)
  }

  /** The end of a track clears the current track while the reader waits for audio. */
  predicate ClearsUnderWait(s: State, m: Move) {
    m.CallbackRuns? && s.callback.Clearing? && s.reader == Blocked(Audio)
  }

  lemma ReaderSound(s: State, popped: nat)
    requires Sound(s)
    ensures Sound(RunReader(s, popped))
  {
  }

  lemma DeliverySound(s: State, refuses: bool)
    requires Sound(s)
    ensures Sound(RunDelivery(s, refuses))
  {
  }

  lemma CallbackSound(s: State)
    requires Sound(s)
    ensures Exclusive(RunCallback(s))
    ensures NoLostWakeup(RunCallback(s)) <==> !(s.callback.Clearing? && s.reader == Blocked(Audio))
  {
  }

  /** A step loses a wake-up exactly if the end of a track clears the current track, which it
      does without a signal, while the reader waits for audio. */
  lemma StepSound(s: State, m: Move)
    requires Sound(s)
    ensures Exclusive(Step(s, m))
    ensures Sound(Step(s, m)) <==> !ClearsUnderWait(s, m)
  {
    if m.ReaderRuns? {
      ReaderSound(s, m.popped);
    } else if m.DeliveryRuns? {
      DeliverySound(s, m.refuses);
    } else if m.CallbackRuns? {
      CallbackSound(s);
    }
  }

  // ---------------------------------------------------------------- runs

  function Run(s: State, moves: seq<Move>): State
    decreases moves
  {
    if moves == [] then s else Run(Step(s, moves[0]), moves[1..])
  }

  ghost predicate SoundThroughout(s: State, moves: seq<Move>)
    decreases moves
  {
    Sound(s) && (moves != [] ==> SoundThroughout(Step(s, moves[0]), moves[1..]))
  }

  ghost predicate NeverClearsUnderWait(s: State, moves: seq<Move>)
    decreases moves
  {
    moves != [] ==> !ClearsUnderWait(s, moves[0]) && NeverClearsUnderWait(Step(s, moves[0]), moves[1..])
  }

  /** Over every interleaving of the three threads, no state has a lost wake-up, if and only if
      the end of a track never clears the current track while the reader waits for audio. */
  lemma {:induction false} RunSound(s: State, moves: seq<Move>)
    requires Sound(s)
    ensures SoundThroughout(s, moves) <==> NeverClearsUnderWait(s, moves)
    decreases moves
  {
    if moves == [] {
    } else {
      StepSound(s, moves[0]);
      if Sound(Step(s, moves[0])) {
        RunSound(Step(s, moves[0]), moves[1..]);
      }
    }
  }

  predicate NotEnding(s: State) {
    s.callback.Quiet? || s.callback.TokenWants? || s.callback.TokenHolds? || s.callback.TokenSignals?
    || s.callback.TokenLeaves?
  }

  /** With deliveries, losses of the token, seeks, new tracks and spurious wake-ups in any
      interleaving, but no end of a track, no wake-up is ever lost. */
  lemma {:induction false} RunWithoutEnd(s: State, moves: seq<Move>)
    requires Sound(s) && NotEnding(s) && TrackEnds !in moves
    ensures Sound(Run(s, moves))
    decreases moves
  {
    if moves == [] {
    } else {
      StepSound(s, moves[0]);
      assert moves[0] in moves && NotEnding(Step(s, moves[0]));
      RunWithoutEnd(Step(s, moves[0]), moves[1..]);
    }
  }

  lemma {:induction false} RunConcat(s: State, a: seq<Move>, b: seq<Move>)
    ensures Run(s, a + b) == Run(Run(s, a), b)
    decreases a
  {
    if a == [] {
      assert a + b == b;
    } else {
      assert (a + b)[1..] == a[1..] + b;
      RunConcat(Step(s, a[0]), a[1..], b);
    }
  }

  // ---------------------------------------------------------------- what the threads do for each other

  const ARRIVES: seq<Move> :=
    [DeliveryRuns(false), DeliveryRuns(false), DeliveryRuns(false), DeliveryRuns(false), DeliveryRuns(false)]
  const GETS_THROUGH: seq<Move> := [ReaderRuns(0), ReaderRuns(0)]

  /** A delivery that is not refused makes something available and wakes the reader, wherever it
      waits and whether or not a track plays: it gets through the loop. */
  lemma DeliveryServesReader(s: State)
    requires s.reader.Blocked? && s.lock == None && s.delivery == NoMusic
    ensures Run(s, ARRIVES) == s.(queued := s.queued + 1, reader := Woken(s.reader.site))
    ensures Run(s, ARRIVES + GETS_THROUGH)
         == s.(queued := s.queued + 1, lock := Some(Reader), reader := Through(s.reader.site))
  {
    var woken := s.(queued := s.queued + 1, reader := Woken(s.reader.site));
    assert Run(s, ARRIVES) == woken;
    RunConcat(s, ARRIVES, GETS_THROUGH);
    var testing := woken.(lock := Some(Reader), reader := Testing(s.reader.site));
    assert Step(woken, ReaderRuns(0)) == testing;
    assert GETS_THROUGH[1..] == [ReaderRuns(0)] && Run(testing, [ReaderRuns(0)]) == Step(testing, ReaderRuns(0));
  }

  /** One that is refused does neither. */
  lemma RefusedServesNobody(s: State)
    requires s.lock == None && s.delivery == NoMusic
    ensures Run(s, [DeliveryRuns(true), DeliveryRuns(true), DeliveryRuns(true), DeliveryRuns(true)]) == s
  {
    var wants := s.(delivery := MusicWants);
    var leaves := s.(lock := Some(Delivery), delivery := MusicLeaves);
    assert Run(s, [DeliveryRuns(true)]) == wants;
    assert Run(wants, [DeliveryRuns(true), DeliveryRuns(true)]) == leaves;
    assert Run(leaves, [DeliveryRuns(true)]) == s;
    RunConcat(wants, [DeliveryRuns(true), DeliveryRuns(true)], [DeliveryRuns(true)]);
    assert [DeliveryRuns(true), DeliveryRuns(true)] + [DeliveryRuns(true)]
        == [DeliveryRuns(true), DeliveryRuns(true), DeliveryRuns(true)];
    RunConcat(s, [DeliveryRuns(true)], [DeliveryRuns(true), DeliveryRuns(true), DeliveryRuns(true)]);
  }

  function Woke(s: State): State {
    if s.reader.Blocked? then s.(reader := Woken(s.reader.site)) else s
  }

  const TOKEN_TAKES_LOCK: seq<Move> := [TokenIsLost, CallbackRuns]
  const END_TAKES_LOCK: seq<Move> := [TrackEnds, CallbackRuns]
  const THREE: seq<Move> := [CallbackRuns, CallbackRuns, CallbackRuns]

  /** The loss of the token clears the track and wakes the reader; what is queued stays. */
  lemma TokenClears(s: State)
    requires s.lock == None && s.callback == Quiet
    ensures Run(s, TOKEN_TAKES_LOCK + THREE) == Woke(s).(playing := false)
  {
    var holds := s.(lock := Some(Callbacks), callback := TokenHolds);
    assert Run(s, TOKEN_TAKES_LOCK) == holds;
    assert Run(holds, THREE) == Woke(s).(playing := false);
    RunConcat(s, TOKEN_TAKES_LOCK, THREE);
  }

  /** The end of a track empties the queue and wakes the reader; */
  lemma EndFlushes(s: State)
    requires s.lock == None && s.callback == Quiet
    ensures Run(s, END_TAKES_LOCK + THREE) == Woke(s).(queued := 0, callback := ClearWants)
  {
    var flushing := s.(lock := Some(Callbacks), callback := EndFlushing);
    assert Run(s, END_TAKES_LOCK) == flushing;
    assert Run(flushing, THREE) == Woke(s).(queued := 0, callback := ClearWants);
    RunConcat(s, END_TAKES_LOCK, THREE);
  }

  /** and then it clears the track, and wakes nobody. */
  lemma EndClears(s: State)
    requires s.lock == None && s.callback == ClearWants
    ensures Run(s, THREE) == s.(playing := false, callback := Quiet)
  {
    assert Run(s, THREE) == s.(playing := false, callback := Quiet);
  }

  /** A reader that is woken in vain waits again. */
  lemma WaitsAgain(s: State)
    requires s.lock == None && s.reader.Woken? && MustWait(s, s.reader.site)
    ensures Run(s, [ReaderRuns(0), ReaderRuns(0)]) == s.(reader := Blocked(s.reader.site))
  {
    var moves := [ReaderRuns(0), ReaderRuns(0)];
    var testing := s.(lock := Some(Reader), reader := Testing(s.reader.site));
    RunOn(s, moves, testing);
    RunOn(testing, moves[1..], s.(reader := Blocked(s.reader.site)));
  }

  /** A reader that finds something queued gets it, up to as much as it pops, and is done. */
  lemma ReaderTakes(s: State, popped: nat)
    requires s.lock == None && s.reader == Wants(Audio) && s.queued > 0
    ensures var three := [ReaderRuns(popped), ReaderRuns(popped), ReaderRuns(popped)];
      Run(s, three) == s.(reader := Away, queued := if popped < s.queued then s.queued - popped else 0)
  {
    var three := [ReaderRuns(popped), ReaderRuns(popped), ReaderRuns(popped)];
    var testing := s.(lock := Some(Reader), reader := Testing(Audio));
    var through := testing.(reader := Through(Audio));
    RunOn(s, three, testing);
    RunOn(testing, three[1..], through);
    RunOn(through, three[2..], Step(through, ReaderRuns(popped)));
  }

  lemma RunOn(s: State, moves: seq<Move>, s1: State)
    requires moves != [] && s1 == Step(s, moves[0])
    ensures Run(s, moves) == Run(s1, moves[1..])
  {
  }

  // ---------------------------------------------------------------- a lost wake-up

  /** A track starts and the reader waits for audio. */
  const WAITS: seq<Move> := [ReaderStarts, ReadAt(Audio), ReaderRuns(0), ReaderRuns(0)]
  /** The track ends: the flush wakes the reader, which finds nothing. */
  const FLUSHES: seq<Move> := END_TAKES_LOCK + THREE
  /** It waits again, and then the track is cleared. */
  const WAITS_AGAIN: seq<Move> := [ReaderRuns(0), ReaderRuns(0)]

  const LOSING: seq<Move> := WAITS + (FLUSHES + (WAITS_AGAIN + THREE))

  /** The run ends with the reader blocked and every other thread at rest, although no track
      plays any more and the reader should return. */
  lemma EndOfTrackLosesWakeup()
    ensures Run(START, LOSING) == State(None, 0, false, Blocked(Audio), NoMusic, Quiet)
    ensures !NoLostWakeup(Run(START, LOSING))
  {
    var waiting := State(None, 0, true, Blocked(Audio), NoMusic, Quiet);
    assert Run(START, WAITS) == waiting;
    var woken := State(None, 0, true, Woken(Audio), NoMusic, ClearWants);
    EndFlushes(waiting);
    var again := State(None, 0, true, Blocked(Audio), NoMusic, ClearWants);
    WaitsAgain(woken);
    EndClears(again);
    RunConcat(START, WAITS, FLUSHES + (WAITS_AGAIN + THREE));
    RunConcat(waiting, FLUSHES, WAITS_AGAIN + THREE);
    RunConcat(woken, WAITS_AGAIN, THREE);
  }

  // ---------------------------------------------------------------- who wakes a blocked reader

  /** The step signals: a delivery, the loss of the token or a flush does, or the system. */
  predicate Signals(s: State, m: Move) {
    || m.Spurious?
    || (m.DeliveryRuns? && s.delivery.MusicSignals?)
    || (m.CallbackRuns? && (s.callback.TokenSignals? || s.callback.EndSignals?))
  }

  ghost predicate NeverSignals(s: State, moves: seq<Move>)
    decreases moves
  {
    moves != [] ==> !Signals(s, moves[0]) && NeverSignals(Step(s, moves[0]), moves[1..])
  }

  /** The reader is where it is in every state of the run. */
  ghost predicate StaysAt(s: State, moves: seq<Move>, at: ReaderAt)
    decreases moves
  {
    s.reader == at && (moves != [] ==> StaysAt(Step(s, moves[0]), moves[1..], at))
  }

  lemma BlockedStep(s: State, m: Move)
    requires s.reader.Blocked?
    ensures Step(s, m).reader == s.reader <==> !Signals(s, m)
  {
    if m.DeliveryRuns? {
      assert !s.delivery.MusicSignals? ==> RunDelivery(s, m.refuses).reader == s.reader;
    } else if m.CallbackRuns? {
      assert !s.callback.TokenSignals? && !s.callback.EndSignals? ==> RunCallback(s).reader == s.reader;
    }
  }

  /** Over every interleaving a blocked reader stays blocked if and only if no step signals:
      whatever is delivered, flushed or cleared, nothing else gets it going. */
  lemma {:induction false} BlockedUntilSignal(s: State, moves: seq<Move>)
    requires s.reader.Blocked?
    ensures StaysAt(s, moves, s.reader) <==> NeverSignals(s, moves)
    decreases moves
  {
    if moves == [] {
    } else {
      BlockedStep(s, moves[0]);
      if Step(s, moves[0]).reader == s.reader {
        BlockedUntilSignal(Step(s, moves[0]), moves[1..]);
      } else {
        assert !StaysAt(s, moves, s.reader);
      }
    }
  }

  // ---------------------------------------------------------------- hanging

  /** The reader is not blocked without a track, at either of its two places, unless a signal
      is on its way. */
  predicate NotHanging(s: State) {
    s.reader.Blocked? ==> s.playing || SignalComes(s)
  }

  /** The two ways into it: the end of a track clears the track under a blocked reader; and the
      wait for the format, which does not look at the track, is entered without one. */
  predicate StartsHanging(s: State, m: Move) {
    || (m.CallbackRuns? && s.callback.Clearing? && s.reader.Blocked?)
    || (m.ReaderRuns? && s.reader == Testing(Info) && s.queued == 0 && !s.playing)
  }

  lemma ReaderHangs(s: State, popped: nat)
    requires Exclusive(s) && NotHanging(s)
    ensures Exclusive(RunReader(s, popped))
    ensures NotHanging(RunReader(s, popped)) <==> !StartsHanging(s, ReaderRuns(popped))
  {
  }

  lemma CallbackHangs(s: State)
    requires Exclusive(s) && NotHanging(s)
    ensures Exclusive(RunCallback(s))
    ensures NotHanging(RunCallback(s)) <==> !StartsHanging(s, CallbackRuns)
  {
  }

  /** A step leaves the reader hanging exactly in one of these two ways. */
  lemma StepHangs(s: State, m: Move)
    requires Exclusive(s) && NotHanging(s)
    ensures Exclusive(Step(s, m))
    ensures NotHanging(Step(s, m)) <==> !StartsHanging(s, m)
  {
    if m.ReaderRuns? {
      ReaderHangs(s, m.popped);
    } else if m.CallbackRuns? {
      CallbackHangs(s);
    }
  }

  ghost predicate NeverHanging(s: State, moves: seq<Move>)
    decreases moves
  {
    NotHanging(s) && (moves != [] ==> NeverHanging(Step(s, moves[0]), moves[1..]))
  }

  ghost predicate NeverStartsHanging(s: State, moves: seq<Move>)
    decreases moves
  {
    moves != [] ==> !StartsHanging(s, moves[0]) && NeverStartsHanging(Step(s, moves[0]), moves[1..])
  }

  /** Over every interleaving the reader never hangs, at either place, if and only if no track
      is cleared at its end under a blocked reader, and no wait for the format is entered without
      a track. */
  lemma {:induction false} RunHangs(s: State, moves: seq<Move>)
    requires Exclusive(s) && NotHanging(s)
    ensures NeverHanging(s, moves) <==> NeverStartsHanging(s, moves)
    decreases moves
  {
    if moves == [] {
    } else {
      StepHangs(s, moves[0]);
      if NotHanging(Step(s, moves[0])) {
        RunHangs(Step(s, moves[0]), moves[1..]);
      }
    }
  }

  /** A track starts and the reader waits for its format. */
  const WAITS_FOR_FORMAT: seq<Move> := [ReaderStarts, ReadAt(Info), ReaderRuns(0), ReaderRuns(0)]
  /** The token is lost; the reader wakes, finds no segment and waits again. */
  const LOSES_TOKEN: seq<Move> := TOKEN_TAKES_LOCK + THREE

  const HANGING: seq<Move> := WAITS_FOR_FORMAT + (LOSES_TOKEN + WAITS_AGAIN)

  /** A run without an end of track whose reader hangs, every other thread at rest, although no
      wake-up is lost. */
  lemma TokenLossHangs()
    ensures Run(START, HANGING) == State(None, 0, false, Blocked(Info), NoMusic, Quiet)
    ensures !NotHanging(Run(START, HANGING)) && Sound(Run(START, HANGING))
  {
    var waiting := State(None, 0, true, Blocked(Info), NoMusic, Quiet);
    assert Run(START, WAITS_FOR_FORMAT) == waiting;
    var woken := State(None, 0, false, Woken(Info), NoMusic, Quiet);
    TokenClears(waiting);
    RunConcat(START, WAITS_FOR_FORMAT, LOSES_TOKEN + WAITS_AGAIN);
    RunConcat(waiting, LOSES_TOKEN, WAITS_AGAIN);
    WaitsAgain(woken);
  }
}
