/**
  The reward system: a pure scoring function over smoothness metrics,
  behind a one-entry memo that returns the previous rewards when it is
  called again with the same metrics.
 */
module RewardSystem {
  import opened Basics
  import opened Metrics

  /** The flow-state threshold at which the streak multiplier applies. */
  const FlowThreshold := 80.0

  /** The rewards for one set of metrics, without the memo. */
  function Compute(m: SmoothnessMetrics): (r: Rewards)
    ensures 1.0 <= r.experience
    ensures r.streakMultiplier == 1.0 || r.streakMultiplier == 1.5
    ensures r.streakMultiplier == 1.5 <==> m.flowState >= FlowThreshold
    ensures r.achievementPoints == 10.0 * m.criticalSuccess
    ensures 0.0 <= m.consistency && 0.0 <= m.rhythm && 0.0 <= m.criticalSuccess ==>
      0.0 <= r.flowBonus && 0.0 <= r.achievementPoints
  {
    var baseXP := Max(1.0, m.consistency / 10.0);
    var flowBonus := Round((m.consistency + m.rhythm) / 2.0);
    var streakMultiplier := 1.0 + (if m.flowState >= FlowThreshold then 0.5 else 0.0);
    Rewards(
      Round(baseXP * streakMultiplier) as real,
      m.criticalSuccess * 10.0,
      flowBonus as real,
      streakMultiplier)
  }

  /**
    Metrics with no consistency, rhythm or critical successes and below the
    flow threshold (the zero record among them) give the baseline: one
    experience point and nothing else.
   */
  lemma ZeroMetricsGiveBaseline(m: SmoothnessMetrics)
    requires m.consistency == 0.0 && m.rhythm == 0.0 && m.criticalSuccess == 0.0
    requires m.flowState < FlowThreshold
    ensures Compute(m) == Rewards(1.0, 0.0, 0.0, 1.0)
  {
    var r := Compute(m);
    RoundWhole(1);
    RoundWhole(0);
    assert Max(1.0, m.consistency / 10.0) * 1.0 == 1 as real;
    assert (m.consistency + m.rhythm) / 2.0 == 0 as real;
    assert r.experience == 1.0 && r.flowBonus == 0.0;
  }

  /** Holding the other inputs fixed, experience never drops as consistency grows. */
  lemma ExperienceMonotoneInConsistency(m: SmoothnessMetrics, higher: real)
    requires m.consistency <= higher
    ensures Compute(m).experience <= Compute(m.(consistency := higher)).experience
  {
    var s := if m.flowState >= FlowThreshold then 1.5 else 1.0;
    var lo := Max(1.0, m.consistency / 10.0);
    var hi := Max(1.0, higher / 10.0);
    assert lo * s <= hi * s;
    RoundMonotone(lo * s, hi * s);
  }

  /** The flow bonus is the rounded mean of consistency and rhythm; flow state plays no part. */
  lemma FlowBonusIgnoresFlowState(m: SmoothnessMetrics, flowState: real)
    ensures Compute(m).flowBonus == Compute(m.(flowState := flowState)).flowBonus
    ensures Compute(m).flowBonus == Round((m.consistency + m.rhythm) / 2.0) as real
  {
  }

  /** The memo: the last metrics seen and the rewards returned for them. */
  datatype RewardCache = RewardCache(lastMetrics: Option<SmoothnessMetrics>, lastRewards: Option<Rewards>)

  const EmptyCache := RewardCache(None, None)

  /** The memo holds only rewards that `Compute` gives for the metrics stored beside them. */
  predicate Coherent(c: RewardCache) {
    c.lastRewards.Some? ==> c.lastMetrics.Some? && c.lastRewards.value == Compute(c.lastMetrics.value)
  }

  datatype Calculation = Calculation(cache: RewardCache, rewards: Rewards)

  /**
    `calculateRewards`: the metrics are compared with the memo's (the
    source compares their JSON text, which for finite numbers is field
    equality); on a hit the memoised rewards are returned unchanged.
   */
  function CalculateRewards(c: RewardCache, m: SmoothnessMetrics): (r: Calculation)
    ensures r.cache == RewardCache(Some(m), Some(r.rewards))
    ensures Coherent(c) ==> r.rewards == Compute(m)
    ensures Coherent(r.cache) <== Coherent(c)
  {
    if c.lastMetrics == Some(m) && c.lastRewards.Some? then
      Calculation(c, c.lastRewards.value)
    else
      var rewards := Compute(m);
      Calculation(RewardCache(Some(m), Some(rewards)), rewards)
  }

  /** Two consecutive calls with the same metrics return the same rewards, from any memo. */
  lemma RepeatedCallsAgree(c: RewardCache, m: SmoothnessMetrics)
    ensures var first := CalculateRewards(c, m);
      CalculateRewards(first.cache, m) == first
  {
  }
}
