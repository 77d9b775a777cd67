/** Position size from the risk at the stop (src/risk/sizing.py). */
module Sizing {
  import opened Common
  import opened Limits
  import opened Pricing

  datatype Instrument = Instrument(
    epic: string,
    assetClass: string,
    currency: string,
    minSize: real,
    sizeStep: real,
    valuePerPoint: real,
    marginFactor: real,
    minStopDistance: Option<real>,
    minStopIsPercentage: bool,
    maxStopDistance: Option<real>)

  datatype CappedBy = RequestedRisk | MaxRiskPerTrade | FractionalKelly | BelowMinSize

  datatype SizingResult = SizingResult(
    size: real,
    riskEur: real,
    riskBudgetEur: real,
    notional: real,
    marginRequired: real,
    lossPerUnit: real,
    cappedBy: Option<CappedBy>,
    kellyCapEur: Option<real>,
    stopLevel: real,
    limitLevel: Option<real>)

  /** The arguments of `compute_size`; `entry` is the quote's price for the direction. */
  datatype SizingRequest = SizingRequest(
    instrument: Instrument,
    entry: real,
    direction: Direction,
    stopDistance: real,
    equity: real,
    requestedRiskEur: Option<real>,
    riskFractionOfMax: real,
    limitDistance: Option<real>,
    probability: Option<real>,
    fxRateToEur: real)

  // ---------------------------------------------------------------- the budget

  function BaseBudget(q: SizingRequest, limits: RiskLimits): real {
    CappedRisk(q.equity * limits.maxRiskPerTrade, limits.maxStakeAbs, q.riskFractionOfMax)
  }

  /** The smaller of the two caps, scaled by the fraction clamped to [0, 1]. */
  function CappedRisk(percent: real, stake: real, fraction: real): real {
    Portion(Min(percent, stake), Max(0.0, Min(1.0, fraction)))
  }

  function AskedBudget(q: SizingRequest, limits: RiskLimits): real {
    var cap := BaseBudget(q, limits);
    match q.requestedRiskEur
    case None => cap
    case Some(r) => if r < cap then Max(0.0, r) else cap
  }

  function KellyCap(q: SizingRequest, limits: RiskLimits): Option<real>
    requires q.stopDistance > 0.0
  {
    if q.probability.Some? && q.limitDistance.Some? && q.limitDistance.value != 0.0 then
      Some(q.equity * KellyFraction(q.probability.value, q.limitDistance.value / q.stopDistance) * limits.kellyFraction)
    else None
  }

  function Budget(q: SizingRequest, limits: RiskLimits): real
    requires q.stopDistance > 0.0
  {
    var asked := AskedBudget(q, limits);
    match KellyCap(q, limits)
    case None => asked
    case Some(k) => Min(asked, k)
  }

  /** The plain reading: the smallest of the cap, the request (never below zero) and the Kelly stake. */
  function SmallestCap(q: SizingRequest, limits: RiskLimits): real
    requires q.stopDistance > 0.0
  {
    var cap := BaseBudget(q, limits);
    var asked := match q.requestedRiskEur case None => cap case Some(r) => Min(cap, Max(0.0, r));
    match KellyCap(q, limits)
    case None => asked
    case Some(k) => Min(asked, k)
  }

  /** The branches compute that minimum, except when the cap itself is negative and a still lower request is
      clamped up to zero without a Kelly stake at or under the cap. */
  lemma BudgetIsSmallestCap(q: SizingRequest, limits: RiskLimits)
    requires q.stopDistance > 0.0
    ensures Budget(q, limits) == SmallestCap(q, limits) <==>
            !(&& BaseBudget(q, limits) < 0.0
              && q.requestedRiskEur.Some? && q.requestedRiskEur.value < BaseBudget(q, limits)
              && (KellyCap(q, limits).Some? ==> KellyCap(q, limits).value > BaseBudget(q, limits)))
  {
  }

  lemma BaseBudgetBounds(q: SizingRequest, limits: RiskLimits)
    requires limits.maxRiskPerTrade > 0.0 && q.equity >= 0.0 && limits.maxStakeAbs >= 0.0
    ensures 0.0 <= BaseBudget(q, limits) <= q.equity * limits.maxRiskPerTrade
    ensures BaseBudget(q, limits) <= limits.maxStakeAbs
  {
    MulMonotone(0.0, q.equity, limits.maxRiskPerTrade);
  }

  lemma KellyCapNonNegative(q: SizingRequest, limits: RiskLimits)
    requires limits.Valid() && q.equity >= 0.0 && q.stopDistance > 0.0
    ensures KellyCap(q, limits).Some? ==> KellyCap(q, limits).value >= 0.0
  {
    if KellyCap(q, limits).Some? {
      var f := KellyFraction(q.probability.value, q.limitDistance.value / q.stopDistance);
      KellyWithinProbability(q.probability.value, q.limitDistance.value / q.stopDistance);
      MulMonotone(0.0, q.equity, f);
      MulMonotone(0.0, q.equity * f, limits.kellyFraction);
    }
  }

  /** With equity and the absolute stake cap not negative the budget is always that minimum, and not negative. */
  lemma BudgetOfSolventAccount(q: SizingRequest, limits: RiskLimits)
    requires q.stopDistance > 0.0 && limits.Valid()
    requires q.equity >= 0.0 && limits.maxStakeAbs >= 0.0
    ensures Budget(q, limits) == SmallestCap(q, limits)
    ensures 0.0 <= Budget(q, limits) <= q.equity * limits.maxRiskPerTrade
    ensures Budget(q, limits) <= limits.maxStakeAbs
  {
    BaseBudgetBounds(q, limits);
    KellyCapNonNegative(q, limits);
    BudgetIsSmallestCap(q, limits);
  }

  // ---------------------------------------------------------------- the size

  function SizeFor(budget: real, stopDistance: real, valuePerPoint: real, step: real, minSize: real): real {
    var rounded := RoundToStep(SizeFromRisk(budget, stopDistance, valuePerPoint), step, Down);
    if rounded < minSize then 0.0 else rounded
  }

  function ValuePerPointEur(q: SizingRequest): real {
    q.instrument.valuePerPoint * q.fxRateToEur
  }

  /** Why the size is what it is; the later test of the code overwrites the earlier ones. */
  function CapReason(q: SizingRequest, limits: RiskLimits): Option<CappedBy>
    requires q.stopDistance > 0.0
  {
    var cap := BaseBudget(q, limits);
    var kelly := KellyCap(q, limits);
    if kelly.Some? && kelly.value < AskedBudget(q, limits) then Some(FractionalKelly)
    else if q.requestedRiskEur.Some? && q.requestedRiskEur.value < cap then Some(RequestedRisk)
    else if q.requestedRiskEur.Some? && q.requestedRiskEur.value > cap then Some(MaxRiskPerTrade)
    else None
  }

  function Sized(q: SizingRequest, limits: RiskLimits, size: real, reason: Option<CappedBy>): SizingResult
    requires q.stopDistance > 0.0
  {
    var vpp := ValuePerPointEur(q);
    SizingResult(
      size, size * (q.stopDistance * vpp), Budget(q, limits),
      Notional(q.entry, size, vpp), MarginRequired(q.entry, size, vpp, q.instrument.marginFactor),
      q.stopDistance * vpp, reason, KellyCap(q, limits),
      StopLevel(q.entry, q.stopDistance, q.direction),
      if q.limitDistance.Some? && q.limitDistance.value != 0.0
      then Some(LimitLevel(q.entry, q.limitDistance.value, q.direction)) else None)
  }

  function SizingOf(q: SizingRequest, limits: RiskLimits): SizingResult
    requires q.stopDistance > 0.0
  {
    var vpp := ValuePerPointEur(q);
    var budget := Budget(q, limits);
    var i := q.instrument;
    var reason := CapReason(q, limits);
    var below := RoundToStep(SizeFromRisk(budget, q.stopDistance, vpp), i.sizeStep, Down) < i.minSize;
    Sized(q, limits, SizeFor(budget, q.stopDistance, vpp, i.sizeStep, i.minSize),
          if reason.None? && below then Some(BelowMinSize) else reason)
  }

  method ComputeBudget(q: SizingRequest, limits: RiskLimits)
    returns (budget: real, cappedBy: Option<CappedBy>, kellyCap: Option<real>)
    requires q.stopDistance > 0.0
    ensures budget == Budget(q, limits)
    ensures cappedBy == CapReason(q, limits)
    ensures kellyCap == KellyCap(q, limits)
  {
    budget := BaseBudget(q, limits);
    cappedBy := None;
    if q.requestedRiskEur.Some? && q.requestedRiskEur.value < budget {
      budget := Max(0.0, q.requestedRiskEur.value);
      cappedBy := Some(RequestedRisk);
    } else if q.requestedRiskEur.Some? && q.requestedRiskEur.value > budget {
      cappedBy := Some(MaxRiskPerTrade);
    }
    kellyCap := KellyCap(q, limits);
    if kellyCap.Some? && kellyCap.value < budget {
      budget := kellyCap.value;
      cappedBy := Some(FractionalKelly);
    }
  }

  /** None is the ValueError of a stop that is not positive. */
  method ComputeSize(q: SizingRequest, limits: RiskLimits) returns (r: Option<SizingResult>)
    ensures r == if q.stopDistance <= 0.0 then None else Some(SizingOf(q, limits))
  {
    if q.stopDistance <= 0.0 {
      return None;
    }
    var budget, cappedBy, kellyCap := ComputeBudget(q, limits);
    var rawSize := SizeFromRisk(budget, q.stopDistance, ValuePerPointEur(q));
    var size := RoundToStep(rawSize, q.instrument.sizeStep, Down);
    if size < q.instrument.minSize {
      size := 0.0;
      cappedBy := if cappedBy.Some? then cappedBy else Some(BelowMinSize);
    }
    r := Some(Sized(q, limits, size, cappedBy));
  }

  // ---------------------------------------------------------------- the size is the best one

  /** `n` steps fit in the budget and `n + 1` do not. */
  lemma TruncatedUnits(budget: real, loss: real, step: real, n: int)
    requires budget >= 0.0 && loss > 0.0 && step > 0.0
    requires n == Truncate((budget / loss) / step)
    ensures n >= 0
    ensures Steps(n, step) * loss <= budget < Steps(n + 1, step) * loss
  {
    var raw := budget / loss;
    QuotientBound(budget, loss, 0.0);
    QuotientBound(raw, step, 0.0);
    var ratio := raw / step;
    assert n as real <= ratio < (n + 1) as real;
    QuotientBound(raw, step, n as real);
    QuotientBound(raw, step, (n + 1) as real);
    QuotientBound(budget, loss, Steps(n, step));
    QuotientBound(budget, loss, Steps(n + 1, step));
  }

  lemma StepsOrdered(m: int, n: int, step: real, loss: real, budget: real)
    requires step > 0.0 && loss > 0.0
    requires Steps(m, step) * loss <= budget < Steps(n + 1, step) * loss
    ensures m <= n && Steps(m, step) <= Steps(n, step)
  {
    ProductOrder(Steps(m, step), Steps(n + 1, step), loss);
    StepsMonotone(m, n, step);
    StepsMonotone(n + 1, m, step);
  }

  lemma StepsMonotone(m: int, n: int, step: real)
    requires step > 0.0
    ensures m <= n ==> Steps(m, step) <= Steps(n, step)
  {
    if m <= n {
      MulMonotone(m as real, n as real, step);
    }
  }

  function SizeAtLoss(budget: real, loss: real, step: real, minSize: real): real
    requires loss > 0.0 && step > 0.0
  {
    var rounded := Steps(Truncate((budget / loss) / step), step);
    if rounded < minSize then 0.0 else rounded
  }

  lemma LargestAdmissible(budget: real, loss: real, step: real, minSize: real, m: int)
    requires loss > 0.0 && step > 0.0 && minSize > 0.0
    requires Steps(m, step) >= minSize && Steps(m, step) * loss <= budget
    ensures Steps(m, step) <= SizeAtLoss(budget, loss, step, minSize)
  {
    var n := Truncate((budget / loss) / step);
    MulMonotone(0.0, Steps(m, step), loss);
    TruncatedUnits(budget, loss, step, n);
    StepsOrdered(m, n, step, loss, budget);
  }

  lemma AdmissibleOrZero(budget: real, loss: real, step: real, minSize: real)
    requires loss > 0.0 && step > 0.0 && minSize > 0.0
    ensures var size := SizeAtLoss(budget, loss, step, minSize);
            size == 0.0 || (size >= minSize && size * loss <= budget && exists n: nat :: size == Steps(n, step))
  {
    var n := Truncate((budget / loss) / step);
    if budget >= 0.0 {
      TruncatedUnits(budget, loss, step, n);
      var k: nat := n;
      assert Steps(n, step) == Steps(k, step);
    } else {
      NegativeBudgetBuysNothing(budget, loss, step, n);
    }
  }

  lemma SizeForAtLoss(budget: real, stop: real, vpp: real, loss: real, step: real, minSize: real)
    requires stop > 0.0 && step > 0.0 && TenDecimalStep(step)
    requires loss == stop * vpp && loss > 0.0
    ensures SizeFor(budget, stop, vpp, step, minSize) == SizeAtLoss(budget, loss, step, minSize)
  {
    assert SizeFromRisk(budget, stop, vpp) == budget / loss;
    StepMultipleExact(Truncate((budget / loss) / step), step);
  }

  /** The size is zero or a whole number of steps, at least the minimum, whose loss at the stop is within the
      budget; and no admissible number of steps is larger. */
  lemma SizeOptimal(budget: real, stop: real, vpp: real, loss: real, step: real, minSize: real)
    requires stop > 0.0 && step > 0.0 && minSize > 0.0 && TenDecimalStep(step)
    requires loss == stop * vpp && loss > 0.0
    ensures var size := SizeFor(budget, stop, vpp, step, minSize);
            && (size == 0.0 || (size >= minSize && size * loss <= budget && exists n: nat :: size == Steps(n, step)))
            && forall m: int :: Steps(m, step) >= minSize && Steps(m, step) * loss <= budget ==> Steps(m, step) <= size
  {
    SizeForAtLoss(budget, stop, vpp, loss, step, minSize);
    AdmissibleOrZero(budget, loss, step, minSize);
    forall m: int | Steps(m, step) >= minSize && Steps(m, step) * loss <= budget
      ensures Steps(m, step) <= SizeAtLoss(budget, loss, step, minSize)
    {
      LargestAdmissible(budget, loss, step, minSize, m);
    }
  }

  lemma NegativeBudgetBuysNothing(budget: real, loss: real, step: real, n: int)
    requires budget < 0.0 && loss > 0.0 && step > 0.0 && n == Truncate((budget / loss) / step)
    ensures Steps(n, step) <= 0.0
  {
    QuotientBound(budget, loss, 0.0);
    QuotientBound(budget / loss, step, 0.0);
    MulMonotone(n as real, 0.0, step);
  }

  // ---------------------------------------------------------------- signs of an accepted size

  lemma RoundAtKeepsSign(x: real, scale: real)
    requires scale > 0.0 && RoundAt(x, scale) > 0.0
    ensures x > 0.0
  {
    if x <= 0.0 {
      MulMonotone(x, 0.0, scale);
      assert RoundHalfEven(x * scale) <= 0;
      QuotientBound(RoundHalfEven(x * scale) as real, scale, 0.0);
    }
  }

  /** A positive size can only come from a positive raw size. */
  lemma PositiveSizeRaw(raw: real, step: real)
    requires RoundToStep(raw, step, Down) > 0.0
    ensures raw > 0.0
  {
    if step > 0.0 && raw <= 0.0 {
      var units := Truncate(raw / step);
      QuotientBound(raw, step, 0.0);
      RoundAtKeepsSign(Steps(units, step), TEN_DECIMALS);
      MulMonotone(units as real, 0.0, step);
    }
  }

  lemma ProductSigns(entry: real, size: real, vpp: real, stop: real, marginFactor: real)
    requires size > 0.0 && stop > 0.0 && stop * vpp > 0.0
    ensures vpp > 0.0
    ensures size * (stop * vpp) > 0.0 && Notional(entry, size, vpp) >= 0.0
    ensures marginFactor >= 0.0 ==> MarginRequired(entry, size, vpp, marginFactor) >= 0.0
  {
    if vpp <= 0.0 {
      MulMonotone(vpp, 0.0, stop);
    }
    MulStrict(0.0, size, stop * vpp);
    var exposure := Abs(entry) * size;
    MulMonotone(0.0, Abs(entry), size);
    MulMonotone(0.0, exposure, vpp);
    assert Notional(entry, size, vpp) == exposure * vpp;
    if marginFactor >= 0.0 {
      QuotientBound(marginFactor, 100.0, 0.0);
      MulMonotone(0.0, marginFactor / 100.0, Notional(entry, size, vpp));
    }
  }

  /** A positive size can only come from a positive loss per unit, so risk, notional and margin are not negative. */
  lemma PositiveSizeSigns(q: SizingRequest, limits: RiskLimits)
    requires q.stopDistance > 0.0 && SizingOf(q, limits).size > 0.0
    ensures ValuePerPointEur(q) > 0.0
    ensures SizingOf(q, limits).riskEur > 0.0 && SizingOf(q, limits).notional >= 0.0
    ensures q.instrument.marginFactor >= 0.0 ==> SizingOf(q, limits).marginRequired >= 0.0
  {
    hide Budget, RoundToStep, Notional, MarginRequired;
    PositiveSizeRaw(SizeFromRisk(Budget(q, limits), q.stopDistance, ValuePerPointEur(q)), q.instrument.sizeStep);
    ProductSigns(q.entry, SizingOf(q, limits).size, ValuePerPointEur(q), q.stopDistance, q.instrument.marginFactor);
  }

  // ---------------------------------------------------------------- what the result means

  /** The risk is the loss in euro at the stop level, and the target level gains the limit distance. */
  lemma RiskIsLossAtStop(q: SizingRequest, limits: RiskLimits)
    requires q.stopDistance > 0.0
    ensures var s := SizingOf(q, limits);
            && s.riskEur
               == -(q.fxRateToEur * PnlMoney(q.entry, s.stopLevel, q.direction, s.size, q.instrument.valuePerPoint))
            && (s.limitLevel.Some? ==>
                  q.limitDistance.Some? && PnlPoints(q.entry, s.limitLevel.value, q.direction) == q.limitDistance.value)
  {
    hide Budget, KellyCap, CapReason, SizeFor, Notional, MarginRequired;
    var s := SizingOf(q, limits);
    LevelsAtDistance(q.entry, q.stopDistance, q.direction);
    if s.limitLevel.Some? {
      LevelsAtDistance(q.entry, q.limitDistance.value, q.direction);
    }
    LossInEuro(s.size, q.stopDistance, q.instrument.valuePerPoint, q.fxRateToEur);
  }

  lemma LossInEuro(size: real, stop: real, vpp: real, fx: real)
    ensures size * (stop * (vpp * fx)) == -(fx * ((-stop) * size * vpp))
  {
    assert (-stop) * size * vpp == -(stop * size * vpp);
    assert fx * (stop * size * vpp) == fx * (stop * (size * vpp));
    assert size * (stop * (vpp * fx)) == (size * stop) * (vpp * fx);
    assert (size * stop) * (vpp * fx) == ((size * stop) * vpp) * fx;
  }

  /** The Kelly stake is at most the configured fraction of what the probability of winning would stake. */
  lemma KellyCapBound(q: SizingRequest, limits: RiskLimits)
    requires q.stopDistance > 0.0 && limits.Valid() && q.equity >= 0.0 && KellyCap(q, limits).Some?
    requires q.probability.Some? ==> 0.0 <= q.probability.value <= 1.0
    ensures KellyCap(q, limits).value <= (q.equity * q.probability.value) * limits.kellyFraction
  {
    var f := KellyFraction(q.probability.value, q.limitDistance.value / q.stopDistance);
    KellyWithinProbability(q.probability.value, q.limitDistance.value / q.stopDistance);
    MulMonotone(f, q.probability.value, q.equity);
    MulMonotone(q.equity * f, q.equity * q.probability.value, limits.kellyFraction);
  }

  /** A fraction of the maximum at or above one asks for all of the smaller cap, one at or below zero for nothing. */
  lemma FractionClamped(q: SizingRequest, limits: RiskLimits)
    ensures q.riskFractionOfMax >= 1.0 ==>
              BaseBudget(q, limits) == Min(q.equity * limits.maxRiskPerTrade, limits.maxStakeAbs)
    ensures q.riskFractionOfMax <= 0.0 ==> BaseBudget(q, limits) == 0.0
    ensures 0.0 <= q.riskFractionOfMax <= 1.0 ==>
              BaseBudget(q, limits)
              == Min(q.equity * limits.maxRiskPerTrade, limits.maxStakeAbs) * q.riskFractionOfMax
  {
  }
}
