/**
  The record shapes exchanged between the timing engine and its callers
  (`types/metrics.ts`), and the units-per-minute rule shared by the timer
  orchestrator and the persisted session record.
 */
module Metrics {
  import opened Basics

  /** Output of the smoothness calculator; every field is a JavaScript number. */
  datatype SmoothnessMetrics = SmoothnessMetrics(
    consistency: real,
    rhythm: real,
    flowState: real,
    criticalSuccess: real,
    criticalFailure: real)

  const ZeroSmoothness := SmoothnessMetrics(0.0, 0.0, 0.0, 0.0, 0.0)

  /** Output of the reward system. */
  datatype Rewards = Rewards(
    experience: real,
    achievementPoints: real,
    flowBonus: real,
    streakMultiplier: real)

  const ZeroRewards := Rewards(0.0, 0.0, 0.0, 0.0)

  /** The snapshot pushed to the single metrics subscriber. */
  datatype MetricsUpdate = MetricsUpdate(
    elapsedTimeMs: int,
    upm: real,
    isRunning: bool,
    clicks: int,
    smoothness: SmoothnessMetrics,
    rewards: Rewards)

  const MsPerMinute := 60000

  /** The exact (unrounded) rate of clicks per minute over a positive span. */
  function ExactRate(elapsedMs: int, clicks: int): real
    requires elapsedMs > 0
  {
    clicks as real * (MsPerMinute as real) / (elapsedMs as real)
  }

  /**
    Units per minute: zero for a non-positive span, otherwise the exact
    rate rounded (halves up) to one decimal place.
   */
  function UnitsPerMinute(elapsedMs: int, clicks: int): (r: real)
    ensures elapsedMs <= 0 ==> r == 0.0
  {
    var minutes := elapsedMs as real / (MsPerMinute as real);
    if minutes > 0.0 then Round(clicks as real / minutes * 10.0) as real / 10.0 else 0.0
  }

  /**
    Over a positive span the rate has one decimal place, is within 0.05 of
    the exact rate, and is non-negative for a non-negative click count.
   */
  lemma UnitsPerMinuteRounding(elapsedMs: int, clicks: int)
    requires elapsedMs > 0
    ensures var r := UnitsPerMinute(elapsedMs, clicks);
      && IsTenth(r)
      && ExactRate(elapsedMs, clicks) - 0.05 < r <= ExactRate(elapsedMs, clicks) + 0.05
      && (clicks >= 0 ==> r >= 0.0)
  {
    var minutes := elapsedMs as real / (MsPerMinute as real);
    var k := Round(clicks as real / minutes * 10.0);
    assert clicks as real / minutes * 10.0 == ExactRate(elapsedMs, clicks) * 10.0;
    assert (k as real / 10.0) * 10.0 == k as real;
    assert clicks >= 0 ==> ExactRate(elapsedMs, clicks) >= 0.0;
  }

  /** 30 clicks over one minute is exactly 30.0; 3 clicks over 1.2 s is 150.0. */
  lemma UnitsPerMinuteExamples()
    ensures UnitsPerMinute(60000, 30) == 30.0
    ensures UnitsPerMinute(1200, 3) == 150.0
    ensures UnitsPerMinute(0, 30) == 0.0
  {
    assert Round(300.0) == 300;
    assert Round(1500.0) == 1500;
  }
}
