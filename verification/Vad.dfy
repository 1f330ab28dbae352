/**
 * The energy detector of backend/app/audio/vad.py, fed with the frames' energies as exact
 * reals, and its composition with the segmenter.
 */
module Vad {
  import opened Common

  const STABILITY_WINDOW := 8
  const STABILITY_TOLERANCE := 0.15
  const STABLE_BACKGROUND_FRAMES := 200

  datatype VadConfig = VadConfig(
    enabled: bool, adaptive: bool, thresholdRatio: real, fixedThreshold: Option<real>,
    absoluteMinThreshold: real, noisePercentile: real, historyFrames: nat, initialNoiseFloor: real)

  /** The stability tracker: recent energies, and for how many frames in a row they were steady. */
  datatype Stability = Stability(recent: seq<real>, stableFrames: nat)

  datatype State = State(
    noiseFloor: real, history: seq<real>, stability: Stability,
    lastEnergy: real, lastThreshold: real, isSpeech: bool)

  ghost function Fresh(c: VadConfig): State {
    State(c.initialNoiseFloor, [], Stability([], 0), 0.0, 0.0, false)
  }

  /** Appending to a deque of bounded length: the oldest entries fall out. */
  function Appended(window: seq<real>, x: real, bound: nat): (next: seq<real>) {
    var longer := window + [x];
    if |longer| > bound then longer[|longer| - bound..] else longer
  }

  function Sum(s: seq<real>): real {
    if s == [] then 0.0 else Sum(s[..|s| - 1]) + s[|s| - 1]
  }

  function Least(s: seq<real>): real
    requires s != []
  {
    if |s| == 1 then s[0]
    else if Least(s[1..]) < s[0] then Least(s[1..]) else s[0]
  }

  function Greatest(s: seq<real>): real
    requires s != []
  {
    if |s| == 1 then s[0]
    else if Greatest(s[1..]) > s[0] then Greatest(s[1..]) else s[0]
  }

  function Mean(s: seq<real>): real
    requires s != []
  {
    Sum(s) / |s| as real
  }

  /** Relative spread (max - min) / mean. */
  function Spread(s: seq<real>): real
    requires s != [] && Mean(s) > 0.0
  {
    (Greatest(s) - Least(s)) / Mean(s)
  }

  // ----- what spread and mean are

  lemma {:induction false} LeastIs(s: seq<real>)
    requires s != []
    ensures Least(s) in s && forall i :: 0 <= i < |s| ==> Least(s) <= s[i]
  {
    if |s| > 1 {
      LeastIs(s[1..]);
      assert forall i :: 1 <= i < |s| ==> s[i] == s[1..][i - 1];
    }
  }

  lemma {:induction false} GreatestIs(s: seq<real>)
    requires s != []
    ensures Greatest(s) in s && forall i :: 0 <= i < |s| ==> Greatest(s) >= s[i]
  {
    if |s| > 1 {
      GreatestIs(s[1..]);
      assert forall i :: 1 <= i < |s| ==> s[i] == s[1..][i - 1];
    }
  }

  /** The mean makes the deviations from it cancel. */
  lemma DeviationsCancel(s: seq<real>)
    requires s != []
    ensures SumOfDeviations(s, Mean(s)) == 0.0
  {
    DeviationsAddUp(s, Mean(s));
  }

  function SumOfDeviations(s: seq<real>, x: real): real {
    if s == [] then 0.0 else SumOfDeviations(s[..|s| - 1], x) + (s[|s| - 1] - x)
  }

  lemma {:induction false} DeviationsAddUp(s: seq<real>, x: real)
    ensures SumOfDeviations(s, x) == Sum(s) - |s| as real * x
  {
    if s != [] {
      DeviationsAddUp(s[..|s| - 1], x);
      assert |s| as real * x == (|s| - 1) as real * x + x;
    }
  }

  /** Within the tolerance: no two energies are further apart than 15 % of the mean. */
  lemma WithinTolerance(s: seq<real>)
    requires s != [] && Mean(s) > 0.0
    ensures Spread(s) <= STABILITY_TOLERANCE <==>
              forall i, j :: 0 <= i < |s| && 0 <= j < |s| ==> 100.0 * (s[i] - s[j]) <= 15.0 * Mean(s)
  {
    LeastIs(s);
    GreatestIs(s);
    var range, mean := Greatest(s) - Least(s), Mean(s);
    QuotientAtMost(range, mean, STABILITY_TOLERANCE);
    var i :| 0 <= i < |s| && s[i] == Greatest(s);
    var j :| 0 <= j < |s| && s[j] == Least(s);
    assert 100.0 * (s[i] - s[j]) == 100.0 * range;
  }

  lemma QuotientAtMost(x: real, y: real, bound: real)
    requires y > 0.0
    ensures x / y <= bound <==> x <= bound * y
  {
    var q := x / y;
    assert q * y == x;
    ProductSign(y, bound - q);
    assert y * (bound - q) == bound * y - q * y;
  }

  // ----- nearest-rank percentile

  predicate Sorted(s: seq<real>) {
    forall i, j :: 0 <= i < j < |s| ==> s[i] <= s[j]
  }

  function Insert(s: seq<real>, x: real): (t: seq<real>) {
    if s == [] then [x]
    else if x < s[|s| - 1] then Insert(s[..|s| - 1], x) + [s[|s| - 1]]
    else s + [x]
  }

  function Sort(s: seq<real>): (t: seq<real>) {
    if s == [] then [] else Insert(Sort(s[..|s| - 1]), s[|s| - 1])
  }

  function Rank(size: nat, percentile: real): int
    requires size > 0
  {
    var exact := size as real * percentile / 100.0;
    var index := if exact >= 0.0 then exact.Floor else -(-exact).Floor;
    if index < 0 then 0 else if index > size - 1 then size - 1 else index
  }

  function Percentile(values: seq<real>, percentile: real): real {
    if values == [] then 0.0
    else
      var ordered := Sort(values);
      var index := Rank(|values|, percentile);
      if index < |ordered| then ordered[index] else 0.0
  }

  function CountBelow(s: seq<real>, x: real): nat {
    if s == [] then 0 else CountBelow(s[..|s| - 1], x) + if s[|s| - 1] < x then 1 else 0
  }

  function CountAtMost(s: seq<real>, x: real): nat {
    if s == [] then 0 else CountAtMost(s[..|s| - 1], x) + if s[|s| - 1] <= x then 1 else 0
  }

  lemma {:induction false} InsertIsSorted(s: seq<real>, x: real)
    requires Sorted(s)
    ensures Sorted(Insert(s, x)) && |Insert(s, x)| == |s| + 1
    ensures forall v :: v in Insert(s, x) <==> v in s || v == x
  {
    if s != [] {
      var init, last := s[..|s| - 1], s[|s| - 1];
      assert forall v :: v in s <==> v in init || v == last;
      if x < last {
        InsertIsSorted(init, x);
        AppendIsSorted(Insert(init, x), last);
      } else {
        AppendIsSorted(s, x);
      }
    }
  }

  lemma AppendIsSorted(s: seq<real>, x: real)
    requires Sorted(s) && forall v :: v in s ==> v <= x
    ensures Sorted(s + [x])
  {
    forall i | 0 <= i < |s| ensures s[i] <= x {
      assert s[i] in s;
    }
  }

  lemma CountsOfAppend(s: seq<real>, x: real, y: real)
    ensures CountBelow(s + [x], y) == CountBelow(s, y) + if x < y then 1 else 0
    ensures CountAtMost(s + [x], y) == CountAtMost(s, y) + if x <= y then 1 else 0
  {
    assert (s + [x])[..|s|] == s;
  }

  lemma {:induction false} InsertCounts(s: seq<real>, x: real, y: real)
    ensures CountBelow(Insert(s, x), y) == CountBelow(s, y) + if x < y then 1 else 0
    ensures CountAtMost(Insert(s, x), y) == CountAtMost(s, y) + if x <= y then 1 else 0
  {
    if s != [] && x < s[|s| - 1] {
      var init, last := s[..|s| - 1], s[|s| - 1];
      InsertCounts(init, x, y);
      CountsOfAppend(Insert(init, x), last, y);
      assert s == init + [last];
      CountsOfAppend(init, last, y);
    } else {
      assert Insert(s, x) == s + [x];
      CountsOfAppend(s, x, y);
    }
  }

  lemma {:induction false} SortIsSorted(s: seq<real>)
    ensures Sorted(Sort(s)) && |Sort(s)| == |s|
    ensures forall v :: v in Sort(s) <==> v in s
  {
    if s != [] {
      var init := s[..|s| - 1];
      SortIsSorted(init);
      InsertIsSorted(Sort(init), s[|s| - 1]);
      assert forall v :: v in s <==> v in init || v == s[|s| - 1];
    }
  }

  lemma {:induction false} SortCounts(s: seq<real>, y: real)
    ensures CountBelow(Sort(s), y) == CountBelow(s, y)
    ensures CountAtMost(Sort(s), y) == CountAtMost(s, y)
  {
    if s != [] {
      SortCounts(s[..|s| - 1], y);
      InsertCounts(Sort(s[..|s| - 1]), s[|s| - 1], y);
    }
  }

  lemma {:induction false} SortedCounts(s: seq<real>, k: nat, x: real)
    requires Sorted(s) && k < |s|
    ensures x <= s[k] ==> CountBelow(s, x) <= k
    ensures s[k] <= x ==> CountAtMost(s, x) > k
  {
    var init := s[..|s| - 1];
    if k < |s| - 1 {
      SortedCounts(init, k, x);
    } else {
      CountsAreBounded(init, x);
      if s[k] <= x {
        AllAtMost(init, x);
      }
    }
  }

  lemma {:induction false} CountsAreBounded(s: seq<real>, x: real)
    ensures CountBelow(s, x) <= |s| && CountAtMost(s, x) <= |s|
  {
    if s != [] {
      CountsAreBounded(s[..|s| - 1], x);
    }
  }

  lemma {:induction false} AllAtMost(s: seq<real>, x: real)
    requires forall i :: 0 <= i < |s| ==> s[i] <= x
    ensures CountAtMost(s, x) == |s|
  {
    if s != [] {
      AllAtMost(s[..|s| - 1], x);
    }
  }

  /** The percentile is one of the values, with at most `rank` of them below it and more than `rank` not above it. */
  lemma PercentileIsNearestRank(values: seq<real>, percentile: real)
    requires values != []
    ensures Percentile(values, percentile) in values
    ensures CountBelow(values, Percentile(values, percentile)) <= Rank(|values|, percentile)
    ensures CountAtMost(values, Percentile(values, percentile)) > Rank(|values|, percentile)
  {
    var p, k := Percentile(values, percentile), Rank(|values|, percentile);
    SortIsSorted(values);
    SortCounts(values, p);
    assert p == Sort(values)[k];
    SortedCounts(Sort(values), k, p);
  }

  /** The rank is the whole part of size * percentile / 100, kept inside the list. */
  lemma RankMeans(size: nat, percentile: real)
    requires size > 0
    ensures 0 <= Rank(size, percentile) < size
    ensures percentile <= 0.0 ==> Rank(size, percentile) == 0
    ensures percentile >= 100.0 ==> Rank(size, percentile) == size - 1
    ensures 0.0 <= percentile < 100.0 ==>
              Rank(size, percentile) as real * 100.0 <= size as real * percentile
              < (Rank(size, percentile) + 1) as real * 100.0
  {
    ScaledSize(size as real, percentile);
    RankOfExact(size, percentile, size as real * percentile / 100.0);
  }

  /** How size * percentile / 100 compares with the ends of the list. */
  lemma ScaledSize(n: real, percentile: real)
    requires n > 0.0
    ensures percentile <= 0.0 ==> n * percentile / 100.0 <= 0.0
    ensures percentile >= 0.0 ==> n * percentile / 100.0 >= 0.0
    ensures percentile >= 100.0 ==> n * percentile / 100.0 >= n
    ensures percentile < 100.0 ==> n * percentile / 100.0 < n
  {
    ProductSign(n, percentile);
    ProductSign(n, percentile - 100.0);
    assert n * (percentile - 100.0) == n * percentile - n * 100.0;
  }

  lemma ProductSign(x: real, y: real)
    requires x > 0.0
    ensures y == 0.0 ==> x * y == 0.0
    ensures y > 0.0 ==> x * y > 0.0
    ensures y < 0.0 ==> x * y < 0.0
  {
  }

  lemma RankOfExact(size: nat, percentile: real, exact: real)
    requires size > 0 && exact == size as real * percentile / 100.0
    ensures 0 <= Rank(size, percentile) < size
    ensures exact <= 0.0 ==> Rank(size, percentile) == 0
    ensures exact >= size as real ==> Rank(size, percentile) == size - 1
    ensures 0.0 <= exact < size as real ==>
              Rank(size, percentile) as real <= exact < (Rank(size, percentile) + 1) as real
  {
  }

  // ----- specification of one frame

  /** What the floor counts as: a floor below 1 counts as the absolute minimum. */
  function EffectiveFloor(c: VadConfig, noiseFloor: real): real {
    if noiseFloor < 1.0 then c.absoluteMinThreshold else noiseFloor
  }

  function Threshold(c: VadConfig, noiseFloor: real): real {
    if c.fixedThreshold.Some? then c.fixedThreshold.value
    else
      var scaled := EffectiveFloor(c, noiseFloor) * c.thresholdRatio;
      if scaled > c.absoluteMinThreshold then scaled else c.absoluteMinThreshold
  }

  /**
   * An energy reaches the adaptive threshold iff it reaches the absolute minimum and stands
   * out from the floor by the ratio.
   */
  lemma ThresholdMeans(c: VadConfig, noiseFloor: real, energy: real)
    requires c.fixedThreshold.None?
    ensures energy >= Threshold(c, noiseFloor) <==>
              energy >= c.absoluteMinThreshold && energy >= EffectiveFloor(c, noiseFloor) * c.thresholdRatio
  {
  }

  /** A higher floor never makes the detector more sensitive, once both count as themselves. */
  lemma ThresholdIsMonotone(c: VadConfig, low: real, high: real)
    requires 0.0 <= c.thresholdRatio && 1.0 <= low <= high
    ensures Threshold(c, low) <= Threshold(c, high)
  {
    assert 0.0 <= (high - low) * c.thresholdRatio;
    assert high * c.thresholdRatio == low * c.thresholdRatio + (high - low) * c.thresholdRatio;
  }

  /** The stability tracker's new window and count. */
  function Tracked(s: Stability, energy: real): Stability {
    var recent := Appended(s.recent, energy, STABILITY_WINDOW);
    Stability(recent,
              if |recent| < STABILITY_WINDOW || Mean(recent) <= 0.0 then s.stableFrames
              else if Spread(recent) <= STABILITY_TOLERANCE then s.stableFrames + 1
              else 0)
  }

  predicate IsStableBackground(s: Stability, energy: real) {
    var next := Tracked(s, energy);
    && |next.recent| >= STABILITY_WINDOW
    && Mean(next.recent) > 0.0
    && next.stableFrames >= STABLE_BACKGROUND_FRAMES
  }

  function Learned(c: VadConfig, v: State, energy: real): State {
    var history := Appended(v.history, energy, c.historyFrames);
    v.(history := history,
       noiseFloor := if |history| >= 3 then Percentile(history, c.noisePercentile) else v.noiseFloor)
  }

  function Classified(c: VadConfig, v: State, energy: real): bool {
    c.enabled && energy >= Threshold(c, v.noiseFloor) && !(c.adaptive && IsStableBackground(v.stability, energy))
  }

  function Detected(c: VadConfig, v: State, energy: real): State {
    if !c.enabled then v
    else
      var speech := Classified(c, v, energy);
      var tracked := if c.adaptive then v.(stability := Tracked(v.stability, energy)) else v;
      var next := if c.adaptive && !speech then Learned(c, tracked, energy) else tracked;
      next.(lastEnergy := energy, lastThreshold := Threshold(c, v.noiseFloor), isSpeech := speech)
  }

  // ----- the detector

  class EnergyVad {
    const config: VadConfig
    var noiseFloor: real
    var history: seq<real>
    var recent: seq<real>
    var stableFrames: nat
    var lastEnergy: real
    var lastThreshold: real
    var isSpeech: bool

    function Contents(): State
      reads this
    {
      State(noiseFloor, history, Stability(recent, stableFrames), lastEnergy, lastThreshold, isSpeech)
    }

    constructor (config: VadConfig)
      ensures this.config == config && Contents() == Fresh(config)
    {
      this.config := config;
      noiseFloor := config.initialNoiseFloor;
      history, recent, stableFrames := [], [], 0;
      lastEnergy, lastThreshold, isSpeech := 0.0, 0.0, false;
    }

    method Detect(energy: real) returns (speech: bool)
      modifies this
      ensures Contents() == Detected(config, old(Contents()), energy)
      ensures speech == Classified(config, old(Contents()), energy)
    {
      if !config.enabled {
        return false;
      }
      lastEnergy := energy;
      var threshold := ComputeThreshold();
      speech := energy >= threshold;
      lastThreshold := threshold;
      if config.adaptive {
        var background := TrackStability(energy);
        if background {
          speech := false;
        }
      }
      isSpeech := speech;
      if config.adaptive && !speech {
        history := Appended(history, energy, config.historyFrames);
        if |history| >= 3 {
          noiseFloor := Percentile(history, config.noisePercentile);
        }
      }
    }

    method ComputeThreshold() returns (threshold: real)
      ensures threshold == Threshold(config, noiseFloor)
      ensures config.fixedThreshold.None? ==> threshold >= config.absoluteMinThreshold
    {
      if config.fixedThreshold.Some? {
        return config.fixedThreshold.value;
      }
      var floor := noiseFloor;
      if floor < 1.0 {
        floor := config.absoluteMinThreshold;
      }
      var scaled := floor * config.thresholdRatio;
      threshold := if scaled > config.absoluteMinThreshold then scaled else config.absoluteMinThreshold;
    }

    method TrackStability(energy: real) returns (background: bool)
      modifies this`recent, this`stableFrames
      ensures Stability(recent, stableFrames) == Tracked(old(Stability(recent, stableFrames)), energy)
      ensures background == IsStableBackground(old(Stability(recent, stableFrames)), energy)
    {
      recent := Appended(recent, energy, STABILITY_WINDOW);
      if |recent| < STABILITY_WINDOW {
        return false;
      }
      var lo, hi, mean := Least(recent), Greatest(recent), Mean(recent);
      if mean <= 0.0 {
        return false;
      }
      var spread := (hi - lo) / mean;
      if spread <= STABILITY_TOLERANCE {
        stableFrames := stableFrames + 1;
      } else {
        stableFrames := 0;
      }
      return stableFrames >= STABLE_BACKGROUND_FRAMES;
    }
  }

  // ----- runs

  function DetectedAll(c: VadConfig, v: State, energies: seq<real>, n: nat): State
    requires n <= |energies|
  {
    if n == 0 then v else Detected(c, DetectedAll(c, v, energies, n - 1), energies[n - 1])
  }

  function TrackedAll(s: Stability, energies: seq<real>, n: nat): Stability
    requires n <= |energies|
  {
    if n == 0 then s else Tracked(TrackedAll(s, energies, n - 1), energies[n - 1])
  }

  /** The adaptive detector's stability tracker sees every frame, whatever its label. */
  lemma {:induction false} StabilitySeesEveryFrame(c: VadConfig, v: State, energies: seq<real>, n: nat)
    requires c.enabled && c.adaptive && n <= |energies|
    ensures DetectedAll(c, v, energies, n).stability == TrackedAll(v.stability, energies, n)
  {
    if n > 0 {
      StabilitySeesEveryFrame(c, v, energies, n - 1);
    }
  }

  /** The label of frame i of a run. */
  function Label(c: VadConfig, v: State, energies: seq<real>, i: nat): bool
    requires i < |energies|
  {
    Classified(c, DetectedAll(c, v, energies, i), energies[i])
  }

  /** The 8 frames ending with frame i. */
  function WindowAt(energies: seq<real>, i: nat): seq<real>
    requires STABILITY_WINDOW - 1 <= i < |energies|
  {
    energies[i + 1 - STABILITY_WINDOW..i + 1]
  }

  ghost predicate Positive(s: seq<real>) {
    forall i :: 0 <= i < |s| ==> s[i] > 0.0
  }

  lemma {:induction false} PositiveMean(s: seq<real>)
    requires Positive(s) && s != []
    ensures Mean(s) > 0.0
  {
    PositiveSum(s);
  }

  lemma {:induction false} PositiveSum(s: seq<real>)
    requires Positive(s)
    ensures Sum(s) >= 0.0 && (s != [] ==> Sum(s) > 0.0)
  {
    if s != [] {
      PositiveSum(s[..|s| - 1]);
    }
  }

  /** The energies never leave the tolerance within 8 frames. */
  ghost predicate Steady(energies: seq<real>) {
    && Positive(energies)
    && forall i :: STABILITY_WINDOW - 1 <= i < |energies| ==>
         (Mean(WindowAt(energies, i)) > 0.0 ==> Spread(WindowAt(energies, i)) <= STABILITY_TOLERANCE)
  }

  /** `recent` ends with the n frames seen, or holds the last 8 of them. */
  ghost predicate HoldsLast(recent: seq<real>, energies: seq<real>, n: nat)
    requires n <= |energies|
  {
    && |recent| <= STABILITY_WINDOW
    && if n < STABILITY_WINDOW then n <= |recent| && recent[|recent| - n..] == energies[..n]
       else recent == WindowAt(energies, n - 1)
  }

  lemma AppendedHoldsLast(recent: seq<real>, energies: seq<real>, n: nat)
    requires n < |energies| && HoldsLast(recent, energies, n)
    ensures HoldsLast(Appended(recent, energies[n], STABILITY_WINDOW), energies, n + 1)
  {
    var next := Appended(recent, energies[n], STABILITY_WINDOW);
    if n < STABILITY_WINDOW - 1 {
      assert next[|next| - (n + 1)..] == recent[|recent| - n..] + [energies[n]];
    } else if n == STABILITY_WINDOW - 1 {
      assert next == recent[|recent| - n..] + [energies[n]];
    } else {
      WindowSlides(energies, n);
    }
  }

  lemma WindowSlides(energies: seq<real>, n: nat)
    requires STABILITY_WINDOW <= n < |energies|
    ensures WindowAt(energies, n) == WindowAt(energies, n - 1)[1..] + [energies[n]]
    ensures Appended(WindowAt(energies, n - 1), energies[n], STABILITY_WINDOW) == WindowAt(energies, n)
  {
  }

  lemma {:induction false} RecentIsWindow(s: Stability, energies: seq<real>, n: nat)
    requires |s.recent| <= STABILITY_WINDOW && n <= |energies|
    ensures HoldsLast(TrackedAll(s, energies, n).recent, energies, n)
  {
    if n > 0 {
      RecentIsWindow(s, energies, n - 1);
      AppendedHoldsLast(TrackedAll(s, energies, n - 1).recent, energies, n - 1);
    }
  }

  /** What frame n does to the count of stable frames. */
  lemma StableCountStep(s: Stability, energies: seq<real>, n: nat)
    requires |s.recent| <= STABILITY_WINDOW && STABILITY_WINDOW - 1 <= n < |energies|
    requires Mean(WindowAt(energies, n)) > 0.0
    ensures TrackedAll(s, energies, n + 1).stableFrames
            == if Spread(WindowAt(energies, n)) <= STABILITY_TOLERANCE
               then TrackedAll(s, energies, n).stableFrames + 1 else 0
    ensures IsStableBackground(TrackedAll(s, energies, n), energies[n]) <==>
            TrackedAll(s, energies, n + 1).stableFrames >= STABLE_BACKGROUND_FRAMES
  {
    RecentIsWindow(s, energies, n + 1);
  }

  /**
   * A steady run is background: from any state of the adaptive detector, every frame from the
   * 207th on is labelled non-speech, whatever its energy, as long as the run lasts.
   */
  lemma SteadyRunIsBackground(c: VadConfig, v: State, energies: seq<real>, i: nat)
    requires c.enabled && c.adaptive && |v.stability.recent| <= STABILITY_WINDOW && Steady(energies)
    requires 206 <= i < |energies|
    ensures !Label(c, v, energies, i)
  {
    StabilitySeesEveryFrame(c, v, energies, i);
    StableCountGrows(v.stability, energies, i + 1);
    PositiveMean(WindowAt(energies, i));
    StableCountStep(v.stability, energies, i);
  }

  lemma {:induction false} StableCountGrows(s: Stability, energies: seq<real>, n: nat)
    requires |s.recent| <= STABILITY_WINDOW && Steady(energies) && n <= |energies|
    ensures TrackedAll(s, energies, n).stableFrames >= n - (STABILITY_WINDOW - 1)
  {
    if n >= STABILITY_WINDOW {
      StableCountGrows(s, energies, n - 1);
      PositiveMean(WindowAt(energies, n - 1));
      StableCountStep(s, energies, n - 1);
    }
  }

  ghost predicate IsConstant(energies: seq<real>, x: real) {
    forall i :: 0 <= i < |energies| ==> energies[i] == x
  }

  lemma {:induction false} ConstantSum(s: seq<real>, x: real)
    requires IsConstant(s, x)
    ensures Sum(s) == |s| as real * x
  {
    if s != [] {
      ConstantSum(s[..|s| - 1], x);
      assert |s| as real * x == (|s| - 1) as real * x + x;
    }
  }

  lemma ConstantWindow(s: seq<real>, x: real)
    requires s != [] && IsConstant(s, x) && x > 0.0
    ensures Mean(s) == x && Spread(s) == 0.0
  {
    ConstantSum(s, x);
    LeastIs(s);
    GreatestIs(s);
    var n := |s| as real;
    QuotientOfProduct(n, x);
    assert Sum(s) == n * x && Mean(s) == Sum(s) / n;
    QuotientOfProduct(x, 0.0);
    assert Greatest(s) - Least(s) == 0.0 == x * 0.0;
  }

  lemma QuotientOfProduct(n: real, x: real)
    requires n > 0.0
    ensures n * x / n == x
  {
    var q := n * x / n;
    assert q * n == n * x;
    ProductSign(n, q - x);
    assert n * (q - x) == q * n - n * x;
  }

  /** From a fresh tracker the count starts with the first full window, at the eighth frame. */
  lemma {:induction false} ConstantCount(c: VadConfig, energies: seq<real>, x: real, n: nat)
    requires IsConstant(energies, x) && x > 0.0 && n <= |energies|
    ensures TrackedAll(Fresh(c).stability, energies, n).stableFrames == if n <= 7 then 0 else n - 7
  {
    if n <= 7 {
      NothingCountedYet(Fresh(c).stability, energies, n);
    } else {
      ConstantCount(c, energies, x, n - 1);
      CountsOneMore(Fresh(c).stability, energies, x, n - 1);
    }
  }

  lemma {:induction false} NothingCountedYet(s: Stability, energies: seq<real>, n: nat)
    requires s == Stability([], 0) && n <= |energies| && n < STABILITY_WINDOW
    ensures var after := TrackedAll(s, energies, n); |after.recent| == n && after.stableFrames == 0
  {
    if n > 0 {
      NothingCountedYet(s, energies, n - 1);
    }
  }

  lemma CountsOneMore(s: Stability, energies: seq<real>, x: real, n: nat)
    requires IsConstant(energies, x) && x > 0.0 && |s.recent| <= STABILITY_WINDOW
    requires STABILITY_WINDOW - 1 <= n < |energies|
    ensures TrackedAll(s, energies, n + 1).stableFrames == TrackedAll(s, energies, n).stableFrames + 1
  {
    ConstantWindow(WindowAt(energies, n), x);
    StableCountStep(s, energies, n);
  }

  lemma {:induction false} LoudTeachesNothing(c: VadConfig, energies: seq<real>, x: real, n: nat)
    requires c.enabled && c.adaptive && IsConstant(energies, x) && x > 0.0
    requires x >= Threshold(c, c.initialNoiseFloor) && n <= |energies| && n <= 206
    ensures DetectedAll(c, Fresh(c), energies, n).noiseFloor == c.initialNoiseFloor
  {
    if n > 0 {
      LoudTeachesNothing(c, energies, x, n - 1);
      ConstantCount(c, energies, x, n);
      UnsteadyLabel(c, Fresh(c), energies, n - 1);
    }
  }

  /**
   * A constant energy that reaches the initial threshold is speech for exactly 206 frames, the 8 of
   * the first window and 198 more; from the 207th frame on it is background.
   */
  lemma ConstantIsSpeechFor206(c: VadConfig, energies: seq<real>, x: real, i: nat)
    requires c.enabled && c.adaptive && IsConstant(energies, x) && x > 0.0
    requires x >= Threshold(c, c.initialNoiseFloor) && i < |energies|
    ensures Label(c, Fresh(c), energies, i) <==> i < 206
  {
    if i < 206 {
      ConstantCount(c, energies, x, i + 1);
      LoudTeachesNothing(c, energies, x, i);
      UnsteadyLabel(c, Fresh(c), energies, i);
    } else {
      ConstantIsSteady(energies, x);
      SteadyRunIsBackground(c, Fresh(c), energies, i);
    }
  }

  lemma ConstantIsSteady(energies: seq<real>, x: real)
    requires IsConstant(energies, x) && x > 0.0
    ensures Steady(energies)
  {
    forall i | STABILITY_WINDOW - 1 <= i < |energies|
      ensures Mean(WindowAt(energies, i)) > 0.0 ==> Spread(WindowAt(energies, i)) <= STABILITY_TOLERANCE
    {
      ConstantWindow(WindowAt(energies, i), x);
    }
  }

  /** Modulation at frame i leaves the window's spread over the tolerance. */
  ghost predicate Modulated(energies: seq<real>, i: nat)
    requires i < |energies|
  {
    && i >= STABILITY_WINDOW - 1
    && Mean(WindowAt(energies, i)) > 0.0
    && Spread(WindowAt(energies, i)) > STABILITY_TOLERANCE
  }

  /** A modulated frame protects itself and the next 199: only the threshold decides their label. */
  lemma ModulationProtectsSpeech(c: VadConfig, v: State, energies: seq<real>, i: nat, k: nat)
    requires c.enabled && c.adaptive && |v.stability.recent| <= STABILITY_WINDOW
    requires i <= k < |energies| && k < i + 200 && Modulated(energies, i)
    ensures Label(c, v, energies, k) <==> energies[k] >= Threshold(c, DetectedAll(c, v, energies, k).noiseFloor)
  {
    StableCountAfterModulation(v.stability, energies, i, k + 1);
    UnsteadyLabel(c, v, energies, k);
  }

  lemma UnsteadyLabel(c: VadConfig, v: State, energies: seq<real>, k: nat)
    requires c.enabled && c.adaptive && k < |energies|
    requires TrackedAll(v.stability, energies, k + 1).stableFrames < STABLE_BACKGROUND_FRAMES
    ensures Label(c, v, energies, k) <==> energies[k] >= Threshold(c, DetectedAll(c, v, energies, k).noiseFloor)
  {
    StabilitySeesEveryFrame(c, v, energies, k);
    UnsteadyIsUnsuppressed(c, DetectedAll(c, v, energies, k), energies[k]);
  }

  lemma UnsteadyIsUnsuppressed(c: VadConfig, v: State, energy: real)
    requires c.enabled && Tracked(v.stability, energy).stableFrames < STABLE_BACKGROUND_FRAMES
    ensures Classified(c, v, energy) <==> energy >= Threshold(c, v.noiseFloor)
  {
  }

  lemma {:induction false} StableCountAfterModulation(s: Stability, energies: seq<real>, i: nat, n: nat)
    requires |s.recent| <= STABILITY_WINDOW
    requires i < n <= |energies| && Modulated(energies, i)
    ensures TrackedAll(s, energies, n).stableFrames <= n - 1 - i
    decreases n
  {
    if n == i + 1 {
      StableCountStep(s, energies, i);
    } else {
      StableCountAfterModulation(s, energies, i, n - 1);
    }
  }

  /** The energies of the frames labelled non-speech among the first n, in order. */
  ghost function Background(c: VadConfig, energies: seq<real>, n: nat): seq<real>
    requires n <= |energies|
  {
    if n == 0 then []
    else
      Background(c, energies, n - 1)
      + if Label(c, Fresh(c), energies, n - 1) then [] else [energies[n - 1]]
  }

  /** The newest `bound` of them. */
  function Newest(s: seq<real>, bound: nat): seq<real> {
    if |s| > bound then s[|s| - bound..] else s
  }

  lemma AppendedNewest(s: seq<real>, x: real, bound: nat)
    ensures Appended(Newest(s, bound), x, bound) == Newest(s + [x], bound)
  {
  }

  /** The floor is the configured percentile of the newest of these energies, once there are three. */
  predicate FloorFits(c: VadConfig, v: State, background: seq<real>) {
    var learned := Newest(background, c.historyFrames);
    && v.history == learned
    && v.noiseFloor == if |learned| >= 3 then Percentile(learned, c.noisePercentile) else c.initialNoiseFloor
  }

  lemma FloorFitsNext(c: VadConfig, v: State, background: seq<real>, energy: real)
    requires c.enabled && c.adaptive && FloorFits(c, v, background)
    ensures FloorFits(c, Detected(c, v, energy), background + if Classified(c, v, energy) then [] else [energy])
  {
    AppendedNewest(background, energy, c.historyFrames);
    assert background + [] == background;
  }

  /**
   * After any run of the adaptive detector the floor is the configured percentile of the last
   * `historyFrames` energies labelled non-speech, once there are three of them; until then it is
   * the initial floor.
   */
  lemma {:induction false} FloorIsPercentile(c: VadConfig, energies: seq<real>, n: nat)
    requires c.enabled && c.adaptive && n <= |energies|
    ensures FloorFits(c, DetectedAll(c, Fresh(c), energies, n), Background(c, energies, n))
  {
    if n > 0 {
      FloorIsPercentile(c, energies, n - 1);
      BackgroundNext(c, energies, n);
      FloorFitsNext(c, DetectedAll(c, Fresh(c), energies, n - 1), Background(c, energies, n - 1), energies[n - 1]);
    }
  }

  lemma BackgroundNext(c: VadConfig, energies: seq<real>, n: nat)
    requires 0 < n <= |energies|
    ensures var v, energy := DetectedAll(c, Fresh(c), energies, n - 1), energies[n - 1];
            && DetectedAll(c, Fresh(c), energies, n) == Detected(c, v, energy)
            && Background(c, energies, n)
               == Background(c, energies, n - 1) + if Classified(c, v, energy) then [] else [energy]
  {
  }

  /** A detector that is switched off never hears speech and learns nothing. */
  lemma {:induction false} DisabledIsInert(c: VadConfig, v: State, energies: seq<real>, n: nat)
    requires !c.enabled && n <= |energies|
    ensures DetectedAll(c, v, energies, n) == v && (n < |energies| ==> !Label(c, v, energies, n))
  {
    if n > 0 {
      DisabledIsInert(c, v, energies, n - 1);
    }
  }

  /** Without adaptation the floor and with it the threshold never move; a fixed threshold is taken as it is. */
  lemma {:induction false} StaticThreshold(c: VadConfig, v: State, energies: seq<real>, n: nat)
    requires c.enabled && !c.adaptive && n <= |energies|
    ensures var now := DetectedAll(c, v, energies, n); now.noiseFloor == v.noiseFloor && now.history == v.history
    ensures n < |energies| ==> (Label(c, v, energies, n) <==> energies[n] >= Threshold(c, v.noiseFloor))
    ensures c.fixedThreshold.Some? ==> Threshold(c, v.noiseFloor) == c.fixedThreshold.value
  {
    if n > 0 {
      StaticThreshold(c, v, energies, n - 1);
    }
  }

  /** What the detector reports of its last frame: its energy, the threshold that judged it, and its label. */
  lemma LastFrameReported(c: VadConfig, v: State, energies: seq<real>, n: nat)
    requires c.enabled && 0 < n <= |energies|
    ensures var before, after := DetectedAll(c, v, energies, n - 1), DetectedAll(c, v, energies, n);
            && after.lastEnergy == energies[n - 1]
            && after.lastThreshold == Threshold(c, before.noiseFloor)
            && after.isSpeech == Label(c, v, energies, n - 1)
            && (after.isSpeech ==> after.lastEnergy >= after.lastThreshold)
  {
  }

  /** The noise floor only ever learns energies of frames that were labelled non-speech. */
  lemma {:induction false} FloorLearnsOnlyBackground(c: VadConfig, energies: seq<real>, n: nat)
    requires c.enabled && n <= |energies|
    ensures var v := DetectedAll(c, Fresh(c), energies, n);
            && (forall x :: x in v.history ==>
                exists i :: 0 <= i < n && energies[i] == x && !Label(c, Fresh(c), energies, i))
            && (v.noiseFloor == c.initialNoiseFloor ||
                exists i :: 0 <= i < n && energies[i] == v.noiseFloor && !Label(c, Fresh(c), energies, i))
  {
    if n > 0 {
      FloorLearnsOnlyBackground(c, energies, n - 1);
      var before, v := DetectedAll(c, Fresh(c), energies, n - 1), DetectedAll(c, Fresh(c), energies, n);
      if v.history != before.history || v.noiseFloor != before.noiseFloor {
        assert !Label(c, Fresh(c), energies, n - 1);
        assert forall x :: x in v.history ==> x in before.history || x == energies[n - 1];
        if |v.history| >= 3 {
          PercentileIsNearestRank(v.history, c.noisePercentile);
        }
      }
    }
  }
}

/** Detector and segmenter together, as the recorder runs them on each frame. */
module VadSegmenter {
  import Rtp
  import V = Vad
  import S = Segmenter
  import R = SegmenterRuns

  /** The frames the segmenter sees: the audio with the detector's labels. */
  function Labelled(c: V.VadConfig, v: V.State, audio: seq<seq<Rtp.Byte>>, energies: seq<real>): seq<S.Frame>
    requires |audio| == |energies|
  {
    seq(|audio|, i requires 0 <= i < |audio| => S.Frame(audio[i], V.Label(c, v, energies, i), i as real))
  }

  /**
   * A steady carrier cannot keep a recording open or start one: once the frames after the
   * 206th last the silence threshold, the segmenter is IDLE, and it stays so to the end.
   */
  lemma CarrierIsNotRecorded(
    vc: V.VadConfig, v: V.State, sc: S.Config, s: S.State, audio: seq<seq<Rtp.Byte>>, energies: seq<real>, n: nat)
    requires vc.enabled && vc.adaptive && |v.stability.recent| <= V.STABILITY_WINDOW && V.Steady(energies)
    requires |audio| == |energies| && s.silenceMs >= 0.0 && 208 <= n <= |energies|
    requires R.RangeMs(sc, Labelled(vc, v, audio, energies), 206, n) >= sc.FinalizeSilenceMs()
    ensures R.ProcessedAll(sc, s, Labelled(vc, v, audio, energies), n).mode == S.Idle
  {
    var fs := Labelled(vc, v, audio, energies);
    forall i | 206 <= i < n ensures !fs[i].speech {
      V.SteadyRunIsBackground(vc, v, energies, i);
    }
    SilenceStaysNonNegative(sc, s, fs, 206);
    R.QuietReturnsToIdle(sc, s, fs, 206, n);
  }

  lemma {:induction false} SilenceStaysNonNegative(c: S.Config, s: S.State, fs: seq<S.Frame>, n: nat)
    requires s.silenceMs >= 0.0 && n <= |fs|
    ensures R.ProcessedAll(c, s, fs, n).silenceMs >= 0.0
  {
    if n > 0 {
      SilenceStaysNonNegative(c, s, fs, n - 1);
      S.FrameMsNonNegative(c, |fs[n - 1].pcm|);
    }
  }
}
