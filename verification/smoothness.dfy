/**
  The smoothness calculator: a pure function from the list of gaps between
  consecutive clicks to five regularity scores.

  `Math.sqrt` cannot be defined exactly over `real`, so it is a parameter
  `sqrt`; the properties below assume of it only what `SqrtLike` states.
 */
module Smoothness {
  import opened Basics
  import opened Metrics

  /** Left-to-right sum, as `reduce((a, b) => a + b, 0)`. */
  function Sum(s: seq<real>): real
  {
    if |s| == 0 then 0.0 else Sum(s[..|s| - 1]) + s[|s| - 1]
  }

  /** Sum of squared deviations from `mean`, as the variance reduction. */
  function SquaredDeviations(s: seq<real>, mean: real): (r: real)
    ensures 0.0 <= r
  {
    if |s| == 0 then 0.0
    else
      var d := s[|s| - 1] - mean;
      SquaredDeviations(s[..|s| - 1], mean) + d * d
  }

  /** The two outlier bands of the calculator. */
  datatype Band = CriticalSuccess | CriticalFailure

  /** Within 10% of the mean, or more than 50% away from it. */
  predicate InBand(gap: real, mean: real, band: Band) {
    match band
    case CriticalSuccess => Abs(gap - mean) <= mean * 0.1
    case CriticalFailure => Abs(gap - mean) > mean * 0.5
  }

  /** Number of gaps in `band`, as `filter(...).length`. */
  function CountInBand(s: seq<real>, mean: real, band: Band): (c: nat)
    ensures c <= |s|
  {
    if |s| == 0 then 0
    else CountInBand(s[..|s| - 1], mean, band) + (if InBand(s[|s| - 1], mean, band) then 1 else 0)
  }

  /** What the model assumes of `Math.sqrt`. */
  ghost predicate SqrtLike(sqrt: real -> real) {
    && sqrt(0.0) == 0.0
    && forall x :: 0.0 <= x ==> 0.0 <= sqrt(x)
  }

  /**
    Consistency from the mean and standard deviation: 100 minus the
    coefficient of variation (in percent, taken as 0 when the mean is not
    positive), floored at 0 and rounded.
   */
  function Consistency(mean: real, stdDev: real): (r: int)
    ensures 0.0 <= stdDev ==> 0 <= r <= 100
    ensures stdDev == 0.0 ==> r == 100
    ensures 0 <= r
  {
    var cv := if mean > 0.0 then stdDev / mean * 100.0 else 0.0;
    assert 0.0 <= stdDev && mean > 0.0 ==> 0.0 <= cv;
    Round(Max(0.0, 100.0 - cv))
  }

  /** Flow state is 80% of consistency, rounded. */
  function FlowState(consistency: int): (r: int)
    ensures 0 <= consistency ==> 0 <= r <= consistency
    ensures consistency <= 100 ==> r <= 80
  {
    Round(consistency as real * 0.8)
  }

  /** `calculateSmoothnessScore` */
  function CalculateSmoothnessScore(gaps: seq<real>, sqrt: real -> real): (r: SmoothnessMetrics)
    ensures |gaps| == 0 ==> r == ZeroSmoothness
    ensures r.rhythm == r.consistency
    ensures 0.0 <= r.criticalSuccess <= |gaps| as real
    ensures 0.0 <= r.criticalFailure <= |gaps| as real
    ensures 0.0 <= r.consistency
  {
    if |gaps| == 0 then ZeroSmoothness
    else
      var n := |gaps| as real;
      var mean := Sum(gaps) / n;
      var variance := SquaredDeviations(gaps, mean) / n;
      var consistency := Consistency(mean, sqrt(variance));
      SmoothnessMetrics(
        consistency as real,
        consistency as real,
        FlowState(consistency) as real,
        CountInBand(gaps, mean, CriticalSuccess) as real,
        CountInBand(gaps, mean, CriticalFailure) as real)
  }

  /** The mean gap, as the calculator computes it. */
  function Mean(gaps: seq<real>): real
    requires |gaps| > 0
  {
    Sum(gaps) / (|gaps| as real)
  }

  /**
    With a square root that is non-negative on non-negative inputs, the
    consistency (and so the rhythm) lies in 0..100, and the flow state is
    at most the consistency and at most 80.
   */
  lemma ScoresBounded(gaps: seq<real>, sqrt: real -> real)
    requires SqrtLike(sqrt)
    ensures var r := CalculateSmoothnessScore(gaps, sqrt);
      && 0.0 <= r.consistency <= 100.0
      && 0.0 <= r.flowState <= r.consistency
      && r.flowState <= 80.0
  {
    if |gaps| > 0 {
      var n := |gaps| as real;
      var variance := SquaredDeviations(gaps, Mean(gaps)) / n;
      assert 0.0 <= variance;
      assert 0.0 <= sqrt(variance);
    }
  }

  /** No gap can be both within 10% and more than 50% from a non-negative mean. */
  lemma {:induction false} BandsDisjoint(s: seq<real>, mean: real)
    requires 0.0 <= mean
    ensures CountInBand(s, mean, CriticalSuccess) + CountInBand(s, mean, CriticalFailure) <= |s|
  {
    if |s| > 0 {
      BandsDisjoint(s[..|s| - 1], mean);
    }
  }

  /** With a non-negative mean gap, critical successes and failures together number at most the gaps. */
  lemma CriticalCountsDisjoint(gaps: seq<real>, sqrt: real -> real)
    requires |gaps| > 0 && 0.0 <= Mean(gaps)
    ensures var r := CalculateSmoothnessScore(gaps, sqrt);
      r.criticalSuccess + r.criticalFailure <= |gaps| as real
  {
    BandsDisjoint(gaps, Mean(gaps));
  }

  /** Higher variability means lower consistency: for a positive mean, a larger deviation never raises it. */
  lemma ConsistencyMonotone(mean: real, sd1: real, sd2: real)
    requires mean > 0.0 && sd1 <= sd2
    ensures Consistency(mean, sd2) <= Consistency(mean, sd1)
  {
    assert sd1 / mean * 100.0 <= sd2 / mean * 100.0;
    RoundMonotone(Max(0.0, 100.0 - sd2 / mean * 100.0), Max(0.0, 100.0 - sd1 / mean * 100.0));
  }

  /** All gaps equal to `g`. */
  predicate Even(s: seq<real>, g: real) {
    forall i :: 0 <= i < |s| ==> s[i] == g
  }

  lemma {:induction false} SumEven(s: seq<real>, g: real)
    requires Even(s, g)
    ensures Sum(s) == (|s| as real) * g
  {
    if |s| > 0 {
      SumEven(s[..|s| - 1], g);
    }
  }

  lemma {:induction false} SquaredDeviationsEven(s: seq<real>, g: real)
    requires Even(s, g)
    ensures SquaredDeviations(s, g) == 0.0
  {
    if |s| > 0 {
      SquaredDeviationsEven(s[..|s| - 1], g);
    }
  }

  lemma {:induction false} CountEven(s: seq<real>, g: real)
    requires Even(s, g) && 0.0 <= g
    ensures CountInBand(s, g, CriticalSuccess) == |s|
    ensures CountInBand(s, g, CriticalFailure) == 0
  {
    if |s| > 0 {
      CountEven(s[..|s| - 1], g);
    }
  }

  /**
    Perfectly even tapping: when every gap is the same non-negative value,
    consistency and rhythm are 100, every gap is a critical success and
    none is a critical failure.
   */
  lemma EvenGapsArePerfect(gaps: seq<real>, g: real, sqrt: real -> real)
    requires |gaps| > 0 && Even(gaps, g) && 0.0 <= g
    requires SqrtLike(sqrt)
    ensures var r := CalculateSmoothnessScore(gaps, sqrt);
      && r.consistency == 100.0
      && r.rhythm == 100.0
      && r.flowState == 80.0
      && r.criticalSuccess == |gaps| as real
      && r.criticalFailure == 0.0
  {
    var n := |gaps| as real;
    SumEven(gaps, g);
    assert Mean(gaps) == g;
    SquaredDeviationsEven(gaps, g);
    CountEven(gaps, g);
    assert FlowState(100) == 80;
  }

  /**
    Uneven tapping: gaps of 100 ms and 10000 ms both lie more than 50% from
    their mean of 5050 ms, so both are critical failures and neither is a
    critical success.
   */
  lemma UnevenGapsFail(sqrt: real -> real)
    ensures var r := CalculateSmoothnessScore([100.0, 10000.0], sqrt);
      r.criticalFailure == 2.0 && r.criticalSuccess == 0.0
  {
    var gaps := [100.0, 10000.0];
    assert gaps[..1] == [100.0] && [100.0][..0] == [];
    assert Sum(gaps) == 10100.0;
    assert Mean(gaps) == 5050.0;
    assert CountInBand(gaps, 5050.0, CriticalFailure) == 2;
    assert CountInBand(gaps, 5050.0, CriticalSuccess) == 0;
  }
}
