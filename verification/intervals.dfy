/** Arithmetic on the window of recent inter-event intervals (milliseconds):
    the `reduce` sum, the moving average, the tempo derived from it, and the
    two ways the window is cut back to its bound (one shift after a push, and
    the `slice(-n)` truncation). */
module Intervals {

  /** Milliseconds in a minute: the `60 * 1000` of the tempo formulas. */
  const MillisPerMinute: int := 60 * 1000

  predicate AllPositive(w: seq<int>) {
    forall i :: 0 <= i < |w| ==> w[i] > 0
  }

  /** Every interval of the window equals `d`: a steady rhythm. */
  predicate Steady(w: seq<int>, d: int) {
    forall i :: 0 <= i < |w| ==> w[i] == d
  }

  /** The sum the source computes with `reduce((a, b) => a + b)`, folding
      from the left. */
  function Sum(w: seq<int>): int {
    if |w| == 0 then 0 else Sum(w[..|w| - 1]) + w[|w| - 1]
  }

  lemma {:induction false} SumAtLeastLength(w: seq<int>)
    requires AllPositive(w)
    ensures Sum(w) >= |w|
  {
    if |w| > 0 {
      SumAtLeastLength(w[..|w| - 1]);
    }
  }

  lemma {:induction false} SumOfSteady(w: seq<int>, d: int)
    requires Steady(w, d)
    ensures Sum(w) == |w| * d
  {
    if |w| > 0 {
      SumOfSteady(w[..|w| - 1], d);
    }
  }

  /** Mean interval of a non-empty window. */
  function Mean(w: seq<int>): (m: real)
    requires |w| > 0 && AllPositive(w)
    ensures m >= 1.0
  {
    SumAtLeastLength(w);
    Sum(w) as real / |w| as real
  }

  /** Current tempo: `(60 * 1000 / avgInterval) / mode`; always positive. */
  function Tempo(w: seq<int>, mode: int): (bpm: real)
    requires |w| > 0 && AllPositive(w) && mode > 0
    ensures bpm > 0.0
  {
    SumAtLeastLength(w);
    (MillisPerMinute as real / Mean(w)) / mode as real
  }

  /** What the tempo means: tempo times the time the window spans times the
      mode is one minute per interval in the window. */
  lemma TempoTimesSpan(w: seq<int>, mode: int)
    requires |w| > 0 && AllPositive(w) && mode > 0
    ensures Tempo(w, mode) * (Sum(w) as real) * (mode as real) == (MillisPerMinute * |w|) as real
  {
  }

  /** Tempo of a rhythm with constant interval `d`: `(60000 / d) / mode`. */
  function SteadyBpm(d: int, mode: int): (bpm: real)
    requires d > 0 && mode > 0
    ensures bpm > 0.0
  {
    (MillisPerMinute as real / d as real) / mode as real
  }

  lemma SteadyTempo(w: seq<int>, d: int, mode: int)
    requires |w| > 0 && d > 0 && mode > 0 && Steady(w, d)
    ensures AllPositive(w) && Tempo(w, mode) == SteadyBpm(d, mode)
  {
    SumOfSteady(w, d);
    var n := |w| as real;
    assert Mean(w) * n == d as real * n;
    assert Mean(w) == d as real;
  }

  /** The newest `n` entries of `w` in their order, as `w.slice(-n)` gives
      them for `n >= 1`. */
  function Newest(w: seq<int>, n: nat): (r: seq<int>)
    requires n >= 1
    ensures |r| == if |w| <= n then |w| else n
    ensures forall i :: 0 <= i < |r| ==> r[i] == w[|w| - |r| + i]
  {
    if |w| <= n then w else w[|w| - n..]
  }

  /** `push(x)` and then one `shift()` if the window has grown past `n`. */
  function Slide(w: seq<int>, x: int, n: nat): (r: seq<int>)
    requires n >= 1
    ensures |r| > 0 && r[|r| - 1] == x
    ensures |w| <= |r| <= |w| + 1
  {
    var pushed := w + [x];
    if |pushed| > n then pushed[1..] else pushed
  }

  /** Within the bound, a push and a shift keep exactly the newest `n`. */
  lemma SlideIsNewest(w: seq<int>, x: int, n: nat)
    requires n >= 1 && |w| <= n
    ensures Slide(w, x, n) == Newest(w + [x], n)
  {
  }

  lemma SlideKeepsBound(w: seq<int>, x: int, n: nat)
    requires n >= 1 && |w| <= n
    ensures |Slide(w, x, n)| <= n
    ensures |Slide(w, x, n)| == if |w| < n then |w| + 1 else n
  {
  }

  lemma SlideKeepsPositive(w: seq<int>, x: int, n: nat)
    requires n >= 1 && AllPositive(w) && x > 0
    ensures AllPositive(Slide(w, x, n))
  {
  }

  lemma SlideKeepsSteady(w: seq<int>, d: int, n: nat)
    requires n >= 1 && Steady(w, d)
    ensures Steady(Slide(w, d, n), d)
  {
  }
}
