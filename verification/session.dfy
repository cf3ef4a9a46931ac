/** The tempo session as a value: the seven module-level variables of the
    counter, and one transition function per operation that changes them
    (an input event, reset, a mode change, a sample-window change and the
    idle tick). The class in TempoTracker is proved against these functions;
    the properties of the counter are proved here, about them. */
module TempoSession {
  import opened Intervals

  datatype Option<T> = None | Some(value: T)

  /** The three numbers handed to the display: current tempo, overall
      average tempo and peak tempo. */
  datatype Reading = Reading(current: real, overall: real, peak: real)

  datatype Session = Session(
    lastKeyTime: Option<int>,
    startTime: Option<int>,
    totalDurationCount: nat,
    recentIntervals: seq<int>,
    maxBpm: real,
    mode: int,
    numSamples: int)

  /** `RESET_SECONDS`: 1.2 seconds of inactivity end a session. */
  const ResetSeconds: real := 1.2
  /** The same threshold in milliseconds, `RESET_SECONDS * 1000`. */
  const ResetMillis: int := 1200
  const DefaultMode: int := 4
  const DefaultNumSamples: int := 16

  /** The state the page starts in. */
  function Initial(): (s: Session)
    ensures WellFormed(s)
  {
    Session(None, None, 0, [], 0.0, DefaultMode, DefaultNumSamples)
  }

  /** What an input event needs to compute a tempo: a positive mode, a
      window size of at least one and positive intervals. */
  predicate Ready(s: Session) {
    s.mode > 0 && s.numSamples >= 1 && AllPositive(s.recentIntervals)
  }

  /** What holds of every reachable state: the window within its bound, a
      non-negative peak; before the first event of a session nothing has been
      recorded; within a session the start is no later than the last event;
      every interval in the window was counted. */
  predicate WellFormed(s: Session) {
    && Ready(s)
    && |s.recentIntervals| <= s.numSamples
    && s.maxBpm >= 0.0
    && |s.recentIntervals| <= s.totalDurationCount
    && (s.lastKeyTime.None? ==>
          s.startTime.None? && s.totalDurationCount == 0 && s.maxBpm == 0.0)
    && (s.lastKeyTime.Some? ==>
          s.startTime.Some? && s.startTime.value <= s.lastKeyTime.value)
  }

  /** Event times strictly increase. */
  predicate CanInput(s: Session, now: int) {
    s.lastKeyTime.Some? ==> now > s.lastKeyTime.value
  }

  /** An accepted input event at time `now`. The first event of a session
      only stamps the times; every later one counts, slides the interval
      into the window and raises the peak to the current tempo. */
  function Input(s: Session, now: int): (r: Session)
    requires Ready(s) && CanInput(s, now)
    ensures Ready(r)
    ensures r.lastKeyTime == Some(now) && r.mode == s.mode && r.numSamples == s.numSamples
    ensures r.maxBpm >= s.maxBpm
  {
    match s.lastKeyTime
    case None => Begin(s, now)
    case Some(last) => Beat(s, now - last, now)
  }

  /** The first event of a session: both times become `now`, the count 0. */
  function Begin(s: Session, now: int): (r: Session)
  {
    s.(lastKeyTime := Some(now), startTime := Some(now), totalDurationCount := 0)
  }

  /** A later event, `interval` milliseconds after the previous one: count
      it, slide the interval into the window, and raise the peak to the
      current tempo if that is higher. */
  function Beat(s: Session, interval: int, now: int): (r: Session)
    requires Ready(s) && interval > 0
    ensures Ready(r)
    ensures r.lastKeyTime == Some(now) && r.mode == s.mode && r.numSamples == s.numSamples
    ensures r.maxBpm >= s.maxBpm
  {
    SlideKeepsPositive(s.recentIntervals, interval, s.numSamples);
    var window := Slide(s.recentIntervals, interval, s.numSamples);
    var currentBpm := Tempo(window, s.mode);
    s.(totalDurationCount := s.totalDurationCount + 1,
       lastKeyTime := Some(now),
       recentIntervals := window,
       maxBpm := if currentBpm > s.maxBpm then currentBpm else s.maxBpm)
  }

  /** Overall average tempo: events counted per elapsed minute since the
      start of the session, divided by the mode; 0 without a start time. */
  function OverallTempo(count: nat, start: Option<int>, now: int, mode: int): (bpm: real)
    requires mode > 0 && (start.Some? ==> now > start.value)
    ensures start.None? ==> bpm == 0.0
    ensures start.Some? ==> bpm >= 0.0
  {
    match start
    case None => 0.0
    case Some(t0) =>
      var totalDurationMin := (now - t0) as real / 60.0 / 1000.0;
      (count as real / totalDurationMin) / mode as real
  }

  /** What the overall tempo means: times the elapsed time and the mode, it
      is one minute per counted event. */
  lemma OverallTimesElapsed(count: nat, t0: int, now: int, mode: int)
    requires mode > 0 && now > t0
    ensures OverallTempo(count, Some(t0), now, mode) * ((now - t0) as real) * (mode as real)
              == (count * MillisPerMinute) as real
  {
  }

  /** The reading displayed after a later event at `now` left the session
      in state `s`. */
  function Shown(s: Session, now: int): Reading
    requires Ready(s) && |s.recentIntervals| > 0
    requires s.startTime.Some? ==> now > s.startTime.value
  {
    Reading(Tempo(s.recentIntervals, s.mode),
            OverallTempo(s.totalDurationCount, s.startTime, now, s.mode),
            s.maxBpm)
  }

  /** `reset`: the session is cleared; mode and window size are kept. */
  function Cleared(s: Session): Session {
    s.(lastKeyTime := None, maxBpm := 0.0, recentIntervals := [],
       startTime := None, totalDurationCount := 0)
  }

  /** The reading `reset` displays. */
  const ClearedReading: Reading := Reading(0.0, 0.0, 0.0)

  /** A change of the mode selector: set the mode, then reset. */
  function ModeChanged(s: Session, m: int): Session {
    Cleared(s.(mode := m))
  }

  /** A change of the sampling selector: set the bound and, when the history
      is longer, keep only its newest entries. */
  function SamplingChanged(s: Session, n: int): Session
    requires n >= 1
  {
    if |s.recentIntervals| > n then
      s.(numSamples := n, recentIntervals := Newest(s.recentIntervals, n))
    else
      s.(numSamples := n)
  }

  /** The periodic idle check at time `now`. */
  function Tick(s: Session, now: int): Session {
    if s.lastKeyTime.Some? && now - s.lastKeyTime.value > ResetMillis then Cleared(s) else s
  }

  /** Event times, each later than the one before and than `last`. */
  predicate Increasing(last: Option<int>, times: seq<int>)
    decreases |times|
  {
    |times| == 0 ||
    ((last.None? || last.value < times[0]) && Increasing(Some(times[0]), times[1..]))
  }

  /** The state after the input events at `times`, in order. */
  function Run(s: Session, times: seq<int>): (r: Session)
    requires Ready(s) && Increasing(s.lastKeyTime, times)
    ensures Ready(r)
    ensures r.mode == s.mode && r.numSamples == s.numSamples
    ensures r.maxBpm >= s.maxBpm
    ensures |times| > 0 ==> r.lastKeyTime == Some(times[|times| - 1])
    ensures |times| == 0 ==> r == s
    decreases |times|
  {
    if |times| == 0 then s else Run(Input(s, times[0]), times[1..])
  }

  /** `k` more events, each `d` milliseconds after the one before (each a
      counted event, since the session has started). */
  function Steadily(s: Session, d: int, k: nat): (r: Session)
    requires Ready(s) && s.lastKeyTime.Some? && d > 0
    ensures Ready(r) && r.lastKeyTime.Some? && r.mode == s.mode && r.numSamples == s.numSamples
    decreases k
  {
    if k == 0 then s else Steadily(Beat(s, d, s.lastKeyTime.value + d), d, k - 1)
  }

  // ---------------------------------------------------------------------
  // One event

  /** The first event of a session sets both times to `now` and the count to
      0; it records no interval and leaves the peak alone. */
  lemma FirstInputOnlyStamps(s: Session, now: int)
    requires WellFormed(s) && s.lastKeyTime.None?
    ensures var r := Input(s, now);
      && r.lastKeyTime == Some(now) && r.startTime == Some(now)
      && r.totalDurationCount == 0
      && r.recentIntervals == s.recentIntervals == []
      && r.maxBpm == s.maxBpm
      && r.mode == s.mode && r.numSamples == s.numSamples
  {
  }

  /** A later event counts exactly once, appends `now - lastKeyTime` as the
      newest interval after the older ones (dropping the oldest only when the
      bound is exceeded) and moves `lastKeyTime` to `now`. */
  lemma LaterInputAppends(s: Session, now: int)
    requires WellFormed(s) && CanInput(s, now) && s.lastKeyTime.Some?
    ensures var r := Input(s, now);
      var w := r.recentIntervals;
      && r.totalDurationCount == s.totalDurationCount + 1
      && |w| > 0 && w[|w| - 1] == now - s.lastKeyTime.value
      && w == Newest(s.recentIntervals + [now - s.lastKeyTime.value], s.numSamples)
      && r.lastKeyTime == Some(now)
      && r.startTime == s.startTime
      && r.mode == s.mode && r.numSamples == s.numSamples
  {
  }

  /** One push and at most one shift keep the window within its bound. */
  lemma InputKeepsWindowBound(s: Session, now: int)
    requires Ready(s) && CanInput(s, now) && |s.recentIntervals| <= s.numSamples
    ensures |Input(s, now).recentIntervals| <= s.numSamples
  {
  }

  /** Every reachable state stays well formed after an input event. */
  lemma InputKeepsWellFormed(s: Session, now: int)
    requires WellFormed(s) && CanInput(s, now)
    ensures WellFormed(Input(s, now))
  {
  }

  /** The peak never falls, and after a later event it is at least the
      tempo just computed, and is either that tempo or the previous peak. */
  lemma InputRaisesPeak(s: Session, now: int)
    requires WellFormed(s) && CanInput(s, now) && s.lastKeyTime.Some?
    ensures var r := Input(s, now);
      && |r.recentIntervals| > 0
      && r.maxBpm >= s.maxBpm
      && r.maxBpm >= Tempo(r.recentIntervals, r.mode)
      && (r.maxBpm == s.maxBpm || r.maxBpm == Tempo(r.recentIntervals, r.mode))
  {
  }

  /** The current tempo shown after a later event is one minute divided by
      the mean of the window as it stands after the push, divided by the
      mode. */
  lemma InputCurrentTempo(s: Session, now: int)
    requires WellFormed(s) && CanInput(s, now) && s.lastKeyTime.Some?
    ensures var r := Input(s, now);
      && |r.recentIntervals| > 0
      && r.startTime.Some? && now > r.startTime.value
      && Mean(r.recentIntervals) > 0.0
      && Shown(r, now).current
           == (MillisPerMinute as real / Mean(r.recentIntervals)) / r.mode as real
  {
  }

  // ---------------------------------------------------------------------
  // Reset, mode change, sample-window change, idle tick

  /** Reset clears the session, keeps mode and window size, and applying it
      twice is the same as applying it once. */
  lemma ResetClearsAndIsIdempotent(s: Session)
    ensures var r := Cleared(s);
      && r.lastKeyTime.None? && r.startTime.None?
      && r.maxBpm == 0.0 && r.totalDurationCount == 0 && r.recentIntervals == []
      && r.mode == s.mode && r.numSamples == s.numSamples
      && Cleared(r) == r
    ensures s.mode > 0 && s.numSamples >= 1 ==> WellFormed(Cleared(s))
  {
  }

  /** A mode change always sets the mode and leaves a cleared session. */
  lemma ModeChangeResets(s: Session, m: int)
    requires m > 0 && s.numSamples >= 1
    ensures var r := ModeChanged(s, m);
      && r.mode == m && r.numSamples == s.numSamples
      && Cleared(r) == r && WellFormed(r)
  {
  }

  /** A sample-window change sets the bound, keeps exactly the newest
      entries of the history in order, and changes nothing else. */
  lemma SamplingKeepsNewest(s: Session, n: int)
    requires n >= 1
    ensures var r := SamplingChanged(s, n);
      var w := s.recentIntervals;
      && r.numSamples == n
      && |r.recentIntervals| == (if |w| <= n then |w| else n)
      && (forall i :: 0 <= i < |r.recentIntervals| ==>
            r.recentIntervals[i] == w[|w| - |r.recentIntervals| + i])
      && r == s.(numSamples := n, recentIntervals := r.recentIntervals)
    ensures WellFormed(s) ==> WellFormed(SamplingChanged(s, n))
  {
  }

  /** The idle tick clears the session exactly when an event has been seen
      and more than 1200 ms (strictly) have passed since it; otherwise the
      state is unchanged. */
  lemma TickResetsExactlyWhenIdle(s: Session, now: int)
    ensures s.lastKeyTime.Some? && now - s.lastKeyTime.value > 1200 ==> Tick(s, now) == Cleared(s)
    ensures Tick(s, now) != s <==> s.lastKeyTime.Some? && now - s.lastKeyTime.value > 1200
  {
  }

  // ---------------------------------------------------------------------
  // Sequences of events

  /** Any run of events from a well-formed state ends in a well-formed
      state; in particular the window stays within its bound. */
  lemma {:induction false} RunKeepsWellFormed(s: Session, times: seq<int>)
    requires WellFormed(s) && Increasing(s.lastKeyTime, times)
    ensures WellFormed(Run(s, times))
    decreases |times|
  {
    if |times| > 0 {
      InputKeepsWellFormed(s, times[0]);
      RunKeepsWellFormed(Input(s, times[0]), times[1..]);
    }
  }

  /** Within a session the peak never decreases: the peak after the first
      `k` events lies between the initial peak and the final one. */
  lemma {:induction false} RunPeakNeverFalls(s: Session, times: seq<int>, k: nat)
    requires Ready(s) && Increasing(s.lastKeyTime, times) && k <= |times|
    ensures Increasing(s.lastKeyTime, times[..k])
    ensures Run(s, times).maxBpm >= Run(s, times[..k]).maxBpm >= s.maxBpm
    decreases k
  {
    if k > 0 {
      var s1 := Input(s, times[0]);
      assert times[..k][0] == times[0];
      assert times[..k][1..] == times[1..][..k - 1];
      RunPeakNeverFalls(s1, times[1..], k - 1);
    }
  }

  /** One event `d` milliseconds after the last, with a window already
      steady at `d`: it is counted, the window stays steady and grows by one
      up to its bound, and the peak becomes the steady tempo unless it was
      higher. */
  lemma SteadyBeat(s: Session, d: int)
    requires Ready(s) && s.lastKeyTime.Some? && d > 0
    requires |s.recentIntervals| <= s.numSamples && Steady(s.recentIntervals, d)
    ensures var r := Beat(s, d, s.lastKeyTime.value + d);
      && r.totalDurationCount == s.totalDurationCount + 1
      && r.startTime == s.startTime
      && Steady(r.recentIntervals, d)
      && |r.recentIntervals| == (if |s.recentIntervals| < s.numSamples then |s.recentIntervals| + 1 else s.numSamples)
      && r.maxBpm == (if SteadyBpm(d, s.mode) > s.maxBpm then SteadyBpm(d, s.mode) else s.maxBpm)
  {
    var w := Slide(s.recentIntervals, d, s.numSamples);
    SlideKeepsSteady(s.recentIntervals, d, s.numSamples);
    SlideKeepsBound(s.recentIntervals, d, s.numSamples);
    SteadyTempo(w, d, s.mode);
  }

  /** `k` events counted over `k` intervals of `d` milliseconds give an
      overall tempo equal to the steady tempo. */
  lemma OverallOfSteady(k: nat, t0: int, d: int, mode: int)
    requires k >= 1 && d > 0 && mode > 0
    ensures t0 + k * d > t0
    ensures OverallTempo(k, Some(t0), t0 + k * d, mode) == SteadyBpm(d, mode)
  {
  }

  /** `k` more events, `d` apart: all `k` are counted, the last is `k * d`
      after the previous last, and the start of the session stays. */
  lemma {:induction false} SteadyRunCounts(s: Session, d: int, k: nat)
    requires Ready(s) && s.lastKeyTime.Some? && d > 0
    ensures var r := Steadily(s, d, k);
      && r.totalDurationCount == s.totalDurationCount + k
      && r.lastKeyTime == Some(s.lastKeyTime.value + k * d)
      && r.startTime == s.startTime
    decreases k
  {
    if k == 0 {
      assert Steadily(s, d, k) == s && k * d == 0;
    } else {
      var s1 := Beat(s, d, s.lastKeyTime.value + d);
      assert s1.totalDurationCount == s.totalDurationCount + 1 && s1.startTime == s.startTime;
      SteadyRunCounts(s1, d, k - 1);
      assert s1.lastKeyTime.value + (k - 1) * d == s.lastKeyTime.value + k * d;
      assert Steadily(s, d, k) == Steadily(s1, d, k - 1);
    }
  }

  /** `k` more events at a steady interval `d`, on a window already steady
      at `d`: the window stays steady and grows up to its bound, and after at
      least one of them the peak is the steady tempo unless it was already
      higher. */
  lemma {:induction false} SteadyRunWindow(s: Session, d: int, k: nat)
    requires Ready(s) && s.lastKeyTime.Some? && d > 0
    requires |s.recentIntervals| <= s.numSamples && Steady(s.recentIntervals, d)
    ensures var r := Steadily(s, d, k);
      && Steady(r.recentIntervals, d)
      && |r.recentIntervals| == (if |s.recentIntervals| + k <= s.numSamples then |s.recentIntervals| + k else s.numSamples)
      && (k >= 1 ==> r.maxBpm == if SteadyBpm(d, s.mode) > s.maxBpm then SteadyBpm(d, s.mode) else s.maxBpm)
    decreases k
  {
    if k == 0 {
      assert Steadily(s, d, k) == s;
    } else {
      var s1 := Beat(s, d, s.lastKeyTime.value + d);
      SteadyBeat(s, d);
      SteadyRunWindow(s1, d, k - 1);
      assert Steadily(s, d, k) == Steadily(s1, d, k - 1);
    }
  }

  /** A session just started by its first event at `t0` (the state
      FirstInputOnlyStamps describes): nothing counted or recorded yet. */
  predicate JustStarted(s: Session, t0: int) {
    && s.lastKeyTime == Some(t0) && s.startTime == Some(t0)
    && s.totalDurationCount == 0 && s.recentIntervals == [] && s.maxBpm == 0.0
  }

  /** Tapping at a steady interval `d` after the first event at `t0`: after
      `k >= 1` more events the window holds `d` as often as its bound allows,
      and the peak is the steady tempo `(60000 / d) / mode`. */
  lemma {:induction false} SteadyTappingWindow(s: Session, t0: int, d: int, k: nat)
    requires Ready(s) && JustStarted(s, t0) && d > 0 && k >= 1
    ensures var r := Steadily(s, d, k);
      && Steady(r.recentIntervals, d)
      && |r.recentIntervals| == (if k <= s.numSamples then k else s.numSamples)
      && r.maxBpm == SteadyBpm(d, s.mode)
  {
    assert SteadyBpm(d, s.mode) > s.maxBpm;
    SteadyRunWindow(s, d, k);
  }

  /** The same tapping: the current, overall and peak tempo shown after the
      last of the `k` events are all the steady tempo. The first event is not
      counted, so `k` events are counted over `k * d` milliseconds. */
  lemma {:induction false} SteadyTappingShows(s: Session, t0: int, d: int, k: nat)
    requires Ready(s) && JustStarted(s, t0) && d > 0 && k >= 1
    ensures t0 + k * d > t0
    ensures var r := Steadily(s, d, k);
      && r.startTime == Some(t0) && |r.recentIntervals| > 0
      && Shown(r, t0 + k * d) == Reading(SteadyBpm(d, s.mode), SteadyBpm(d, s.mode), SteadyBpm(d, s.mode))
  {
    OverallOfSteady(k, t0, d, s.mode);
    SteadyRunCounts(s, d, k);
    SteadyTappingWindow(s, t0, d, k);
    var r := Steadily(s, d, k);
    SteadyTempo(r.recentIntervals, d, s.mode);
  }

  /** Mode 4 and the default window, events at 0, 500, 1000 and 1500 ms:
      the states after each of them. */
  function Tapped(i: nat): Session
    requires i <= 3
  {
    if i == 0 then Session(Some(0), Some(0), 0, [], 0.0, DefaultMode, DefaultNumSamples)
    else
      var w: seq<int> := if i == 1 then [500] else if i == 2 then [500, 500] else [500, 500, 500];
      Session(Some(500 * i), Some(0), i, w, 30.0, DefaultMode, DefaultNumSamples)
  }

  /** Each event of the scenario leads to the next of those states. */
  lemma QuarterNoteSteps(i: nat)
    requires i < 3
    ensures i == 0 ==> Input(Initial(), 0) == Tapped(0)
    ensures Input(Tapped(i), 500 * (i + 1)) == Tapped(i + 1)
  {
    var s := Tapped(i);
    SteadyBeat(s, 500);
    assert SteadyBpm(500, DefaultMode) == 30.0;
    var r := Input(s, 500 * (i + 1));
    assert |r.recentIntervals| == i + 1 && Steady(r.recentIntervals, 500);
    assert r.recentIntervals == Tapped(i + 1).recentIntervals;
  }

  /** Events at 0, 500, 1000 and 1500 ms in mode 4 count three events and
      leave three intervals of 500 ms in the window ... */
  lemma QuarterNoteRun()
    ensures Input(Input(Input(Input(Initial(), 0), 500), 1000), 1500) == Tapped(3)
  {
    QuarterNoteSteps(0);
    QuarterNoteSteps(1);
    QuarterNoteSteps(2);
  }

  /** ... and every tempo shown after the last of them is 30. */
  lemma QuarterNoteReading()
    ensures Shown(Tapped(3), 1500) == Reading(30.0, 30.0, 30.0)
  {
    var w := Tapped(3).recentIntervals;
    assert Steady(w, 500) by {
      assert w[0] == 500 && w[1] == 500 && w[2] == 500;
    }
    SteadyTempo(w, 500, DefaultMode);
    OverallOfSteady(3, 0, 500, DefaultMode);
  }
}
