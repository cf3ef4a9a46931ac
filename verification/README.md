# bpm-checker: the tempo counter as a Dafny model

bpm-checker is a browser page that counts the tempo of key presses and taps.
It measures the interval between successive input events, keeps the newest
`numSamples` intervals in a window, and displays three numbers:

- the current tempo, from the moving average of the window;
- the overall average tempo, from the events counted since the session
  started;
- the peak tempo.

All of its logic lives in `src/main.ts`. It keeps seven module-level
variables (`lastKeyTime`, `startTime`, `totalDurationCount`,
`recentIntervals`, `maxBpm`, `mode`, `numSamples`) and changes them in a
handful of event handlers:

- `handleInput` for keys and taps;
- `reset` and the reset button;
- the mode selector;
- the sampling selector;
- a periodic idle check.

The model has three modules:

- `Intervals` (`intervals.dfy`) is the arithmetic on the window:
  - the `reduce` sum, the mean and the tempo formula
    `(60 * 1000 / avgInterval) / mode`;
  - `Slide`, one `push` followed by at most one `shift`;
  - `Newest`, the `slice(-n)` truncation.
- `TempoSession` (`session.dfy`) models the seven variables as one `Session`
  value:
  - one transition function per handler: `Input`, `Cleared`, `ModeChanged`,
    `SamplingChanged` and `Tick`;
  - `Shown`, the reading handed to the display;
  - the lemmas that state what the counter promises.
- `TempoTracker` (`tracker.dfy`) is the page as it runs, a `Tracker` object:
  - its fields are the seven variables;
  - its methods update the fields in place, in the source's order;
  - each method is proved to move `State()` exactly as the matching
    transition function moves a `Session`, and to keep `WellFormed`.

Times are integer milliseconds passed in as `now`. Tempos are `real`
numbers.

The first event of a session only stamps `lastKeyTime` and `startTime`, and
it is not counted (src/main.ts:41-46). So after `k + 1` events at a steady
interval `d`, `k` events are counted over `k * d` milliseconds:

- `SteadyRunCounts` and `SteadyRunWindow` follow any number of events `d`
  apart. Every one is counted, a window steady at `d` stays steady and grows
  up to its bound, and the peak becomes the steady tempo `(60000 / d) / mode`
  unless it was already higher.
- `SteadyTappingShows` starts from the first event of a session. After the
  `k`-th later event, the current, overall and peak tempo shown are all
  `(60000 / d) / mode`.

## Model

| member | source | states |
|---|---|---|
| Intervals.Sum | src/main.ts:55 | the `reduce` sum as a left fold; no contract of its own, its properties are stated by `SumAtLeastLength` and `SumOfSteady` |
| Intervals.SumAtLeastLength | src/main.ts:55 | the `reduce` sum of positive intervals is at least their number, so the average interval is at least 1 ms and never a zero divisor |
| Intervals.SumOfSteady | src/main.ts:55 | a window whose intervals all equal `d` sums to its length times `d` |
| Intervals.Mean | src/main.ts:55 | the moving average of a non-empty window of positive intervals is at least 1 ms |
| Intervals.Tempo | src/main.ts:58 | the current tempo of a non-empty window is positive |
| Intervals.TempoTimesSpan | src/main.ts:55-58 | current tempo × time spanned by the window × mode = one minute per interval in the window |
| Intervals.SteadyBpm | src/main.ts:55-58 | the closed-form tempo `(60000 / d) / mode` of a steady interval `d` is positive |
| Intervals.SteadyTempo | src/main.ts:55-58 | a window steady at interval `d` has current tempo `(60000 / d) / mode` |
| Intervals.Newest | src/main.ts:101 | for `n >= 1`, `slice(-n)` keeps `min(length, n)` entries, the last ones of the history, in order |
| Intervals.Slide | src/main.ts:53-54 | push then at most one shift: the new interval is last and the window grows by at most one |
| Intervals.SlideIsNewest | src/main.ts:53-54 | within the bound, push and shift keep exactly the newest `n` entries of the history plus the new interval |
| Intervals.SlideKeepsBound | src/main.ts:53-54 | a window within its bound stays within it: it grows by one below the bound and stays at the bound otherwise |
| Intervals.SlideKeepsPositive | src/main.ts:49-54 | pushing a positive interval keeps every interval of the window positive |
| Intervals.SlideKeepsSteady | src/main.ts:53-54 | pushing `d` into a window steady at `d` keeps it steady |
| TempoSession.Initial | src/main.ts:22-28 | the initial values (no times, count 0, empty window, peak 0, mode 4, 16 samples) form a well-formed state |
| TempoSession.Input | src/main.ts:35-71 | an accepted event always moves `lastKeyTime` to `now`, keeps mode and window size, never lowers the peak and keeps intervals positive |
| TempoSession.Begin | src/main.ts:41-46 | the first event of a session; no contract of its own, its properties are stated by `FirstInputOnlyStamps` |
| TempoSession.Beat | src/main.ts:48-68 | a counted event moves `lastKeyTime` to `now`, keeps mode and window size and never lowers the peak |
| TempoSession.OverallTempo | src/main.ts:61-65 | the overall tempo is 0 without a start time and never negative |
| TempoSession.OverallTimesElapsed | src/main.ts:61-65 | overall tempo × elapsed time × mode = one minute per counted event |
| TempoSession.Shown | src/main.ts:55-70 | the reading passed to `updateDisplay`: current tempo of the window, overall tempo at `now`, peak; no contract of its own, its values are stated by `InputCurrentTempo`, `QuarterNoteReading` and `SteadyTappingShows` |
| TempoSession.Cleared | src/main.ts:73-80 | `reset`; no contract of its own, its properties are stated by `ResetClearsAndIsIdempotent` |
| TempoSession.ModeChanged | src/main.ts:91-94 | the mode selector's handler; no contract of its own, its properties are stated by `ModeChangeResets` |
| TempoSession.SamplingChanged | src/main.ts:98-103 | the sampling selector's handler; no contract of its own, its properties are stated by `SamplingKeepsNewest` |
| TempoSession.Tick | src/main.ts:118-125 | the idle check; no contract of its own, its properties are stated by `TickResetsExactlyWhenIdle` |
| TempoSession.Run | src/main.ts:35-71 | a run of events keeps mode and window size, never lowers the peak, ends with `lastKeyTime` at the last event, and the empty run changes nothing |
| TempoSession.FirstInputOnlyStamps | src/main.ts:41-46 | the first event of a session sets both times to `now` and the count to 0, records no interval and leaves the peak alone |
| TempoSession.LaterInputAppends | src/main.ts:48-54 | a later event adds exactly 1 to the count; `now - lastKeyTime` becomes the newest interval; the window is the newest `numSamples` entries of old window + new interval; `lastKeyTime` becomes `now`; the start time, mode and window size stay |
| TempoSession.InputKeepsWindowBound | src/main.ts:53-54 | a window of at most `numSamples` entries still has at most `numSamples` after an event |
| TempoSession.InputKeepsWellFormed | src/main.ts:35-71 | an event keeps every invariant: window bound, positive intervals, non-negative peak, at most as many intervals as counted events, start no later than the last event |
| TempoSession.InputRaisesPeak | src/main.ts:68 | after a later event the peak is at least the old peak and at least the current tempo, and it is one of the two |
| TempoSession.InputCurrentTempo | src/main.ts:55-58 | the current tempo shown is `60000 / mean(window after the push) / mode` |
| TempoSession.ResetClearsAndIsIdempotent | src/main.ts:73-80 | reset clears both times, the count, the peak and the window, keeps mode and window size, and resetting twice equals resetting once |
| TempoSession.ModeChangeResets | src/main.ts:91-94 | a mode change sets the mode and leaves a cleared, well-formed session |
| TempoSession.SamplingKeepsNewest | src/main.ts:98-103 | a sampling change sets `numSamples`, keeps exactly the newest `min(length, n)` intervals in order, changes no other field and keeps the state well formed |
| TempoSession.TickResetsExactlyWhenIdle | src/main.ts:118-125 | the idle check resets if and only if an event has been seen and more than 1200 ms (strictly) have passed since it; otherwise nothing changes |
| TempoSession.RunKeepsWellFormed | src/main.ts:35-71 | any run of events from a well-formed state, including the window bound, ends in a well-formed state |
| TempoSession.RunPeakNeverFalls | src/main.ts:68 | within a run the peak never decreases: after any prefix it lies between the initial and the final peak |
| TempoSession.SteadyBeat | src/main.ts:48-68 | an event `d` ms after the last, on a window steady at `d`: counted, window still steady and one longer up to the bound, peak = max(old peak, `(60000 / d) / mode`) |
| TempoSession.OverallOfSteady | src/main.ts:61-65 | `k` events counted over `k * d` ms give an overall tempo of `(60000 / d) / mode` |
| TempoSession.Steadily | src/main.ts:48-68 | `k` counted events, each `d` ms after the one before, keep the state ready, a last event time, the mode and the window size |
| TempoSession.SteadyRunCounts | src/main.ts:48-50 | after `k` more events `d` apart, the count has grown by exactly `k`, the last event is `k * d` after the previous one and the start time stays |
| TempoSession.SteadyRunWindow | src/main.ts:53-68 | after `k` more events `d` apart, a window steady at `d` stays steady, grows by `k` up to its bound, and after at least one event the peak is max(old peak, `(60000 / d) / mode`) |
| TempoSession.SteadyTappingWindow | src/main.ts:41-68 | from the first event of a session, `k >= 1` events `d` apart leave a window of `min(k, numSamples)` entries all equal to `d` and the peak `(60000 / d) / mode` |
| TempoSession.SteadyTappingShows | src/main.ts:41-70 | from the first event of a session, after `k >= 1` events `d` apart the current, overall and peak tempo shown are all `(60000 / d) / mode` |
| TempoSession.QuarterNoteSteps | src/main.ts:41-68 | in mode 4, events at 0, 500, 1000 and 1500 ms go through the expected states one event at a time |
| TempoSession.QuarterNoteRun | src/main.ts:35-71 | those four events leave three counted events, the window [500, 500, 500] and peak 30 |
| TempoSession.QuarterNoteReading | src/main.ts:55-70 | after them the current, overall and peak tempo are all 30 |
| TempoTracker.Tracker.constructor | src/main.ts:22-28 | the fields start as the initial session |
| TempoTracker.Tracker.HandleInput | src/main.ts:35-71 | a repeat changes nothing; any other event moves the state as `Input` does; a reading is shown exactly for a counted event, and it is `Shown` of the new state |
| TempoTracker.Tracker.CountInput | src/main.ts:48-70 | push, shift, average, tempos and peak update in place equal `Input` on the old state, and the returned reading is `Shown` of the new state |
| TempoTracker.Tracker.PointerDown | src/main.ts:108-115 | a tap on a selector or button changes nothing; any other tap is `HandleInput` |
| TempoTracker.Tracker.Reset | src/main.ts:73-80 | the fields become `Cleared` of the old state, and the display shows zeros |
| TempoTracker.Tracker.ChangeMode | src/main.ts:91-94 | the fields become `ModeChanged` of the old state, and the display shows zeros |
| TempoTracker.Tracker.ChangeSampling | src/main.ts:98-103 | the fields become `SamplingChanged` of the old state |
| TempoTracker.Tracker.IdleCheck | src/main.ts:118-125 | the fields become `Tick` of the old state, comparing with `RESET_SECONDS * 1000` as the source does; zeros are displayed exactly when the state changed |

## Left out

- DOM plumbing is not modelled: the `querySelector` lookups, `updateDisplay` and the `toFixed(1)` formatting (src/main.ts:6-11, 33, 82-86). Each method returns the `Reading` it would display instead.
- Timing and wiring are not modelled: `performance.now()`, the `setInterval` schedule with its 100 ms period (`INTERVAL`) and the `addEventListener` calls (src/main.ts:105, 117-125). The current time is the `now` parameter, and each listener is a method.
- Fractional milliseconds: `performance.now()` returns fractional milliseconds, but the model uses integers.
- Floating point: tempos are exact `real` numbers, so IEEE rounding is not modelled. `RESET_SECONDS * 1000` is exactly 1200 in doubles, which is what `ResetMillis` uses.
- Event filtering is reduced to flags: the `repeat` test on keyboard events (src/main.ts:36) is the `repeat` argument, and the `SELECT`/`BUTTON` target test (src/main.ts:109-111) is the `onControl` argument.
- Selector parsing is not modelled: `Number(modeSelect.value)` and `Number(samplingSelect.value)` are taken as already-parsed integers.
- Gamepad input: src/main.ts handles no gamepad events, so the model has none.
- vite.config.ts and eslint.config.js hold only build and lint configuration and are not part of this model.
- TempoTracker.Tracker.HandleInput: requires `now` to be later than the last event, so the model has no zero intervals at all: every window keeps the `AllPositive` invariant. The source accepts an event at the same time as the last one. It pushes a 0 interval (src/main.ts:49, 53) and divides by the window's mean (src/main.ts:55, 58). Among positive intervals that gives a finite, higher tempo: the window [500] becomes [500, 0], the mean is 250 and the tempo is 240 / mode. That case is not modelled. The tempo is infinite only when every interval in the window is 0, or when `now` equals `startTime` (src/main.ts:64).
- TempoTracker.Tracker.PointerDown: carries the same requirement of strictly increasing `now` as HandleInput, for the same reason.
- TempoTracker.Tracker.CountInput: carries the same requirement of strictly increasing `now` as HandleInput, for the same reason.
- TempoTracker.Tracker.ChangeMode: requires `m > 0`; a mode of 0 would make every later tempo a division by zero.
- TempoSession.ModeChangeResets: requires `m > 0` for the same reason.
- TempoTracker.Tracker.ChangeSampling: requires `n >= 1`, because `slice(-0)` keeps the whole history (src/main.ts:101) and an empty window would make `reduce` throw (src/main.ts:55).
- TempoSession.SamplingKeepsNewest: requires `n >= 1` for the same reason.
- The multi-step functions `Run` (a list of event times), `Steadily` (events at a fixed interval) and `Tapped` (the states of one concrete scenario), and the predicate `JustStarted`, are for stating properties only. They have no counterpart in the source.
