/** Margin stress test (src/risk/margin.py). */
module Margin {
  import opened Common
  import opened Limits

  datatype AccountState = AccountState(equity: real, marginUsed: real)

  /** The keys of the scenario table: `-1R`, `-2R`, ... and the two portfolio-wide ones. */
  datatype Scenario = Shock(r: real) | CorrelatedStops | AllStops

  /** What the test is asked about. */
  datatype StressInput = StressInput(
    account: AccountState, newMargin: real, newRiskEur: real, openRiskEur: real, correlatedRiskEur: real)
  {
    function MarginAfter(): real {
      account.marginUsed + newMargin
    }

    function LossIn(s: Scenario): real {
      match s
      case Shock(r) => newRiskEur * r
      case CorrelatedStops => newRiskEur + correlatedRiskEur
      case AllStops => newRiskEur + openRiskEur
    }

    /** Free margin over equity once `loss` has been taken; -1 when no equity is left. */
    function FreeRatioAfter(loss: real): real {
      var left := account.equity - loss;
      if left > 0.0 then (left - MarginAfter()) / left else -1.0
    }
  }

  datatype MarginStress = MarginStress(
    marginUsedAfter: real,
    freeMarginAfter: real,
    freeMarginRatioAfter: real,
    marginUsageAfter: real,
    scenarios: map<Scenario, real>,
    passes: bool)

  predicate Tested(s: Scenario, limits: RiskLimits) {
    s.Shock? ==> s.r in limits.stressScenariosR
  }

  method MarginStressTest(q: StressInput, limits: RiskLimits) returns (m: MarginStress)
    ensures forall s :: s in m.scenarios <==> Tested(s, limits)
    ensures forall s :: s in m.scenarios ==> m.scenarios[s] == RoundAt(q.FreeRatioAfter(q.LossIn(s)), FOUR_DECIMALS)
    ensures m.marginUsedAfter == q.MarginAfter()
    ensures m.freeMarginAfter == q.account.equity - q.MarginAfter()
    ensures q.account.equity > 0.0 ==>
              && m.freeMarginRatioAfter == (q.account.equity - q.MarginAfter()) / q.account.equity
              && m.marginUsageAfter == q.MarginAfter() / q.account.equity
    ensures q.account.equity <= 0.0 ==> m.freeMarginRatioAfter == 0.0 && m.marginUsageAfter == 1.0
    ensures m.passes <==>
            && m.marginUsageAfter <= limits.maxMarginUsage
            && m.freeMarginRatioAfter >= limits.minFreeMargin
            && forall s :: s in m.scenarios ==> q.FreeRatioAfter(q.LossIn(s)) >= limits.stressMinFreeMargin
  {
    var equity := q.account.equity;
    var marginAfter := q.account.marginUsed + q.newMargin;
    var freeAfter := equity - marginAfter;
    var freeRatioAfter := if equity > 0.0 then freeAfter / equity else 0.0;
    var usageAfter := if equity > 0.0 then marginAfter / equity else 1.0;
    var raw: map<Scenario, real> := map[];
    for i := 0 to |limits.stressScenariosR|
      invariant forall s :: s in raw <==> s.Shock? && s.r in limits.stressScenariosR[..i]
      invariant forall s :: s in raw ==> raw[s] == q.FreeRatioAfter(q.LossIn(s))
    {
      var r := limits.stressScenariosR[i];
      raw := raw[Shock(r) := q.FreeRatioAfter(q.LossIn(Shock(r)))];
    }
    raw := raw[CorrelatedStops := q.FreeRatioAfter(q.LossIn(CorrelatedStops))];
    raw := raw[AllStops := q.FreeRatioAfter(q.LossIn(AllStops))];
    var passes := && usageAfter <= limits.maxMarginUsage
                  && freeRatioAfter >= limits.minFreeMargin
                  && forall s | s in raw.Keys :: raw[s] >= limits.stressMinFreeMargin;
    m := MarginStress(
      marginAfter, freeAfter, freeRatioAfter, usageAfter, map s | s in raw :: RoundAt(raw[s], FOUR_DECIMALS), passes);
  }

  /** The smallest value of the scenario table. */
  method Worst(m: map<Scenario, real>) returns (w: real)
    requires AllStops in m
    ensures exists s :: s in m && m[s] == w
    ensures forall s :: s in m ==> w <= m[s]
  {
    var left := m.Keys - {AllStops};
    w := m[AllStops];
    while left != {}
      invariant left <= m.Keys
      invariant exists s :: s in m && m[s] == w
      invariant forall s :: s in m && s !in left ==> w <= m[s]
    {
      var s :| s in left;
      w := Min(w, m[s]);
      left := left - {s};
    }
  }

  // ---------------------------------------------------------------- soundness

  ghost predicate StressPassed(q: StressInput, limits: RiskLimits) {
    forall s :: Tested(s, limits) ==>
      RoundAt(q.FreeRatioAfter(q.LossIn(s)), FOUR_DECIMALS) >= limits.stressMinFreeMargin
  }

  lemma SmallerLossKeepsMoreMargin(left: real, more: real, margin: real)
    requires 0.0 < left <= more && margin >= 0.0
    ensures (left - margin) / left <= (more - margin) / more
  {
    var c := (more - margin) / more;
    QuotientBound(more - margin, more, 1.0);
    MulMonotone(c, 1.0, more - left);
    assert c * (more - left) == c * more - c * left;
    assert c * more == more - margin;
    QuotientBound(left - margin, left, c);
  }

  /** A passed test covers every loss up to the one of any tested scenario: equity stays positive and the free
      margin ratio is at the limit, give or take the rounding to four decimals. */
  lemma StressSound(q: StressInput, limits: RiskLimits, s: Scenario, loss: real)
    requires limits.stressMinFreeMargin > 0.0
    requires StressPassed(q, limits) && Tested(s, limits)
    requires q.MarginAfter() >= 0.0 && loss <= q.LossIn(s)
    ensures q.account.equity - loss > 0.0
    ensures q.FreeRatioAfter(loss) >= limits.stressMinFreeMargin - 0.00005
  {
    var worst := q.FreeRatioAfter(q.LossIn(s));
    RoundAtError(worst, FOUR_DECIMALS);
    var left := q.account.equity - q.LossIn(s);
    if left <= 0.0 {
      RoundAtExact(-10000, -1.0, FOUR_DECIMALS);
      assert false;
    }
    SmallerLossKeepsMoreMargin(left, q.account.equity - loss, q.MarginAfter());
  }
}
