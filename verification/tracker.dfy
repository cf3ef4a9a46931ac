/** The counter as the page runs it: the seven module-level variables are the
    fields of one object, and each event handler is a method that updates
    them in place. Every method is proved to move the fields exactly as the
    matching transition function of TempoSession moves a Session value, and
    to keep the state well formed. */
module TempoTracker {
  import opened Intervals
  import opened TempoSession

  class Tracker {
    var lastKeyTime: Option<int>
    var mode: int
    var maxBpm: real
    var numSamples: int
    var recentIntervals: seq<int>
    var startTime: Option<int>
    var totalDurationCount: nat

    /** The fields as a Session value. */
    function State(): Session
      reads this
    {
      Session(lastKeyTime, startTime, totalDurationCount, recentIntervals, maxBpm, mode, numSamples)
    }

    ghost predicate Valid()
      reads this
    {
      WellFormed(State())
    }

    /** The initial values of the page's variables. */
    constructor ()
      ensures Valid() && State() == Initial()
    {
      lastKeyTime := None;
      mode := DefaultMode;
      maxBpm := 0.0;
      numSamples := DefaultNumSamples;
      recentIntervals := [];
      startTime := None;
      totalDurationCount := 0;
    }

    /** `handleInput`: a key press (`repeat` set for an auto-repeated one)
        or a tap at time `now`. Returns the reading handed to the display,
        if any: none for a repeat and none for the first event of a
        session. */
    method HandleInput(now: int, repeat: bool) returns (shown: Option<Reading>)
      requires Valid() && (!repeat ==> CanInput(State(), now))
      modifies this
      ensures Valid()
      ensures State() == if repeat then old(State()) else Input(old(State()), now)
      ensures shown.Some? <==> !repeat && old(lastKeyTime).Some?
      ensures shown.Some? ==>
        && |recentIntervals| > 0 && (startTime.Some? ==> now > startTime.value)
        && shown.value == Shown(State(), now)
    {
      if repeat {
        return None;
      }
      if lastKeyTime.None? {
        lastKeyTime := Some(now);
        startTime := Some(now);
        totalDurationCount := 0;
        return None;
      }
      var reading := CountInput(now);
      shown := Some(reading);
    }

    /** The part of `handleInput` after the first event of a session: count
        the event, slide its interval into the window, compute the current
        and overall tempo and raise the peak. */
    method CountInput(now: int) returns (shown: Reading)
      requires Valid() && lastKeyTime.Some? && now > lastKeyTime.value
      modifies this
      ensures Valid()
      ensures State() == Input(old(State()), now)
      ensures |recentIntervals| > 0 && (startTime.Some? ==> now > startTime.value)
      ensures shown == Shown(State(), now)
    {
      InputKeepsWellFormed(State(), now);
      totalDurationCount := totalDurationCount + 1;
      var interval := now - lastKeyTime.value;
      lastKeyTime := Some(now);

      SlideKeepsPositive(recentIntervals, interval, numSamples);
      recentIntervals := recentIntervals + [interval];
      if |recentIntervals| > numSamples {
        recentIntervals := recentIntervals[1..];
      }
      var currentBpm := Tempo(recentIntervals, mode);
      var overallAvgBpm := OverallTempo(totalDurationCount, startTime, now, mode);

      if currentBpm > maxBpm {
        maxBpm := currentBpm;
      }

      shown := Reading(currentBpm, overallAvgBpm, maxBpm);
    }

    /** The `pointerdown` listener: a tap on a selector or a button
        (`onControl`) is ignored; any other tap is an input event. */
    method PointerDown(now: int, onControl: bool) returns (shown: Option<Reading>)
      requires Valid() && (!onControl ==> CanInput(State(), now))
      modifies this
      ensures Valid()
      ensures State() == if onControl then old(State()) else Input(old(State()), now)
      ensures shown.Some? <==> !onControl && old(lastKeyTime).Some?
      ensures shown.Some? ==>
        && |recentIntervals| > 0 && (startTime.Some? ==> now > startTime.value)
        && shown.value == Shown(State(), now)
    {
      if onControl {
        return None;
      }
      shown := HandleInput(now, false);
    }

    /** `reset` (also the reset button): clear the session and display
        zeros. */
    method Reset() returns (shown: Reading)
      requires Valid()
      modifies this
      ensures Valid()
      ensures State() == Cleared(old(State()))
      ensures shown == ClearedReading
    {
      lastKeyTime := None;
      maxBpm := 0.0;
      recentIntervals := [];
      startTime := None;
      totalDurationCount := 0;
      shown := Reading(0.0, 0.0, maxBpm);
    }

    /** The mode selector's `change` listener. */
    method ChangeMode(m: int) returns (shown: Reading)
      requires Valid() && m > 0
      modifies this
      ensures Valid()
      ensures State() == ModeChanged(old(State()), m)
      ensures shown == ClearedReading
    {
      mode := m;
      shown := Reset();
    }

    /** The sampling selector's `change` listener. */
    method ChangeSampling(n: int)
      requires Valid() && n >= 1
      modifies this
      ensures Valid()
      ensures State() == SamplingChanged(old(State()), n)
    {
      SamplingKeepsNewest(State(), n);
      numSamples := n;
      if |recentIntervals| > numSamples {
        recentIntervals := recentIntervals[|recentIntervals| - numSamples..];
      }
    }

    /** The body of the periodic timer at time `now`: reset after more than
        `RESET_SECONDS` without an event. Returns the reading displayed, if
        the session was reset. */
    method IdleCheck(now: int) returns (shown: Option<Reading>)
      requires Valid()
      modifies this
      ensures Valid()
      ensures State() == Tick(old(State()), now)
      ensures shown.Some? <==> State() != old(State())
      ensures shown.Some? ==> shown.value == ClearedReading
    {
      TickResetsExactlyWhenIdle(State(), now);
      shown := None;
      if lastKeyTime.Some? {
        var idleTime := now - lastKeyTime.value;
        if idleTime as real > ResetSeconds * 1000.0 {
          var r := Reset();
          shown := Some(r);
        }
      }
    }
  }
}
