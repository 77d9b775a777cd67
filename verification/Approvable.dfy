/** The default limits let orders through: an order for which every check of `evaluate` passes. */
module Approvable {
  import opened Common
  import opened Limits
  import opened Pricing
  import opened Sizing
  import opened Margin
  import opened RiskEngine

  const SHARE := Instrument("share", "EQUITY_CFD", "EUR", 1.0, 1.0, 1.0, 5.0, None, false, None)

  const QUOTE := Quote("share", 10.0, 10.0, 0.0, true, "ig")

  const ORDER := TradeProposal(
    "event", SHARE, map[], Buy, Market, QUOTE, 10.0, 1.0, Some(1.5), 900, 0.6, None, None, Some(0.01), None)

  const FLAT := PortfolioContext(AccountState(1000.0, 0.0), [], 0.0, None, 0, 0, map[])

  const CALM := Env(false, {}, {}, false, 0.0, map[], (x: real) => x)

  const REQUEST := Request(ORDER, FLAT, 1.0)

  lemma BudgetIsFive()
    ensures Budget(REQUEST, DEFAULT_LIMITS) == 5.0
  {
    var rr := 1.5 / 1.0;
    assert rr == 1.5;
    assert KellyFraction(0.6, rr) >= 0.3 by {
      QuotientBound(1.5 * 0.6 - 0.4, 1.5, 0.3);
    }
    assert CappedRisk(1000.0 * 0.005, 5.0, 1.0) == 5.0;
    assert KellyCap(REQUEST, DEFAULT_LIMITS) == Some(1000.0 * KellyFraction(0.6, rr) * 0.15);
  }

  lemma FiveSteps()
    ensures SizeFor(5.0, 1.0, 1.0, 1.0, 1.0) == 5.0
  {
    assert SizeFromRisk(5.0, 1.0, 1.0) == 5.0;
    assert StepUnits(5.0, 1.0, Down) == 5;
    assert Steps(5, 1.0) == 5.0;
    RoundAtExact(50000000000, 5.0, TEN_DECIMALS);
  }

  lemma Amounts()
    ensures Notional(10.0, 5.0, 1.0) == 50.0 && MarginRequired(10.0, 5.0, 1.0, 5.0) == 2.5
  {
    assert 5.0 / 100.0 == 0.05;
  }

  lemma SizeIsFive()
    ensures var s := SizingFor(DEFAULT_LIMITS, ORDER, FLAT, 1.0);
            s.size == 5.0 && s.riskEur == 5.0 && s.notional == 50.0 && s.marginRequired == 2.5
  {
    hide Budget, SizeFor, RoundToStep, CapReason, KellyCap, Notional, MarginRequired;
    BudgetIsFive();
    FiveSteps();
    Amounts();
  }

  lemma SurvivesStress()
    ensures MarginOk(DEFAULT_LIMITS, StressInput(AccountState(1000.0, 0.0), 2.5, 5.0, 0.0, 0.0))
  {
    var q := StressInput(AccountState(1000.0, 0.0), 2.5, 5.0, 0.0, 0.0);
    forall s | Tested(s, DEFAULT_LIMITS)
      ensures RoundAt(q.FreeRatioAfter(q.LossIn(s)), FOUR_DECIMALS) >= 0.5
    {
      var loss := q.LossIn(s);
      assert loss == 5.0 || loss == 10.0;
      QuotientBound(1000.0 - loss - 2.5, 1000.0 - loss, 0.9);
      RoundAtError(q.FreeRatioAfter(loss), FOUR_DECIMALS);
    }
  }

  /** Under the default limits there is an order, on an account without positions, that every check accepts. */
  lemma DefaultsApprove()
    ensures DEFAULT_LIMITS.Valid()
    ensures Acceptable(CALM, DEFAULT_LIMITS, ORDER, FLAT, 1.0)
  {
    SizeIsFive();
    SurvivesStress();
  }
}
