/** Price arithmetic of src/core/pricing.py, on exact reals. */
module Pricing {
  import opened Common

  function WorsePrice(price: real, slippagePct: real, direction: Direction): real {
    if direction == Buy then price * (1.0 + slippagePct) else price * (1.0 - slippagePct)
  }

  function PnlPoints(entry: real, current: real, direction: Direction): real {
    (current - entry) * direction.Sign()
  }

  function PnlMoney(entry: real, current: real, direction: Direction, size: real, valuePerPoint: real): real {
    PnlPoints(entry, current, direction) * size * valuePerPoint
  }

  function StopLevel(entry: real, stopDistance: real, direction: Direction): real {
    if direction == Buy then entry - stopDistance else entry + stopDistance
  }

  function LimitLevel(entry: real, limitDistance: real, direction: Direction): real {
    if direction == Buy then entry + limitDistance else entry - limitDistance
  }

  function LossPerUnitAtStop(stopDistance: real, valuePerPoint: real): real {
    Abs(stopDistance) * valuePerPoint
  }

  function SizeFromRisk(budget: real, stopDistance: real, valuePerPoint: real): real {
    var lossUnit := LossPerUnitAtStop(stopDistance, valuePerPoint);
    if lossUnit <= 0.0 then 0.0 else budget / lossUnit
  }

  function Notional(price: real, size: real, valuePerPoint: real): real {
    Abs(price) * size * valuePerPoint
  }

  function MarginRequired(price: real, size: real, valuePerPoint: real, marginFactorPct: real): real {
    Notional(price, size, valuePerPoint) * (marginFactorPct / 100.0)
  }

  /** None stands for an infinite leverage. */
  function EffectiveLeverage(totalNotional: real, equity: real): Option<real> {
    if equity > 0.0 then Some(totalNotional / equity) else None
  }

  /** Python's `int`: towards zero. */
  function Truncate(x: real): int {
    if x >= 0.0 then x.Floor else -((-x).Floor)
  }

  datatype StepMode = Down | Up | Nearest

  function StepUnits(value: real, step: real, mode: StepMode): int
    requires step > 0.0
  {
    var ratio := value / step;
    match mode
    case Down => Truncate(ratio)
    case Up => -((-ratio).Floor)
    case Nearest => RoundHalfEven(ratio)
  }

  function RoundToStep(value: real, step: real, mode: StepMode): real {
    if step <= 0.0 then value else RoundAt(Steps(StepUnits(value, step, mode), step), TEN_DECIMALS)
  }

  function Steps(n: int, step: real): real {
    n as real * step
  }

  /** A step that the final rounding to ten decimals leaves exact. */
  ghost predicate TenDecimalStep(step: real) {
    exists k: int :: TenDecimals(step, k)
  }

  predicate TenDecimals(step: real, k: int) {
    step * TEN_DECIMALS == k as real
  }

  lemma StepMultipleExact(n: int, step: real)
    requires TenDecimalStep(step)
    ensures RoundAt(Steps(n, step), TEN_DECIMALS) == Steps(n, step)
  {
    var k: int :| TenDecimals(step, k);
    assert Steps(n, step) * TEN_DECIMALS == n as real * (step * TEN_DECIMALS);
    assert n as real * k as real == (n * k) as real;
    RoundAtExact(n * k, Steps(n, step), TEN_DECIMALS);
  }

  function KellyFraction(probability: real, rewardRisk: real): real {
    if rewardRisk <= 0.0 then 0.0
    else
      var p := Min(Max(probability, 0.0), 1.0);
      var q := 1.0 - p;
      Max(0.0, (rewardRisk * p - q) / rewardRisk)
  }

  /** The Kelly fraction never stakes more than the probability of winning, so never more than everything. */
  lemma KellyWithinProbability(probability: real, rewardRisk: real)
    ensures 0.0 <= KellyFraction(probability, rewardRisk) <= Min(Max(probability, 0.0), 1.0)
  {
    if rewardRisk > 0.0 {
      var p := Min(Max(probability, 0.0), 1.0);
      EdgeWithinProbability(p, rewardRisk, rewardRisk * p - (1.0 - p));
    }
  }

  lemma EdgeWithinProbability(p: real, rewardRisk: real, edge: real)
    requires rewardRisk > 0.0 && p <= 1.0 && edge == rewardRisk * p - (1.0 - p)
    ensures edge / rewardRisk <= p
  {
    QuotientBound(edge, rewardRisk, p);
  }

  // ---------------------------------------------------------------- what the prices mean for a position

  /** A slipped price is worse for the side that trades, by the slippage on the price. */
  lemma WorsePriceCosts(price: real, slippagePct: real, direction: Direction)
    ensures PnlPoints(WorsePrice(price, slippagePct, direction), price, direction) == -(slippagePct * price)
  {
    assert price * (1.0 + slippagePct) == price + slippagePct * price;
    assert price * (1.0 - slippagePct) == price - slippagePct * price;
  }

  /** A long position gains what the price rises, a short one what it falls. */
  lemma PointsFollowPrice(entry: real, current: real)
    ensures PnlPoints(entry, current, Buy) == current - entry
    ensures PnlPoints(entry, current, Sell) == entry - current
  {
  }

  /** The levels are where the position has lost, or gained, the distance. */
  lemma LevelsAtDistance(entry: real, distance: real, direction: Direction)
    ensures PnlPoints(entry, StopLevel(entry, distance, direction), direction) == -distance
    ensures PnlPoints(entry, LimitLevel(entry, distance, direction), direction) == distance
  {
  }

  /** The notional is what a move of a hundred per cent is worth: a relative move of x, either way, makes or loses x
      times it. */
  lemma NotionalOfMove(entry: real, move: real, direction: Direction, size: real, valuePerPoint: real)
    requires entry >= 0.0
    ensures PnlMoney(entry, entry + entry * move, direction, size, valuePerPoint)
            == direction.Sign() * (move * Notional(entry, size, valuePerPoint))
  {
    var points := entry * move;
    assert PnlPoints(entry, entry + points, direction) == points * direction.Sign();
    Regrouped(entry, move, size, valuePerPoint);
    if direction == Sell {
      assert (-points) * size * valuePerPoint == -(points * size * valuePerPoint);
    }
  }

  lemma Regrouped(a: real, b: real, c: real, d: real)
    ensures a * b * c * d == b * (a * c * d)
  {
    assert a * b * c * d == b * a * c * d;
    assert b * a * c * d == b * (a * c) * d;
    assert b * (a * c) * d == b * (a * c * d);
  }

  /** A hundred times the margin is the margin factor times the notional. */
  lemma MarginIsPercentage(price: real, size: real, valuePerPoint: real, marginFactorPct: real)
    ensures 100.0 * MarginRequired(price, size, valuePerPoint, marginFactorPct)
            == marginFactorPct * Notional(price, size, valuePerPoint)
  {
    var n := Notional(price, size, valuePerPoint);
    assert 100.0 * (marginFactorPct / 100.0) == marginFactorPct;
    assert 100.0 * (n * (marginFactorPct / 100.0)) == n * (100.0 * (marginFactorPct / 100.0));
  }

  /** Kelly stakes something exactly on a bet that gains on average, and then the part of the stake for which reward
      and risk balance: the stake times the reward is the average gain. */
  lemma KellyStakes(probability: real, rewardRisk: real)
    requires 0.0 <= probability <= 1.0 && rewardRisk > 0.0
    ensures var gain := rewardRisk * probability - (1.0 - probability);
            && (KellyFraction(probability, rewardRisk) > 0.0 <==> gain > 0.0)
            && (gain > 0.0 ==> KellyFraction(probability, rewardRisk) * rewardRisk == gain)
  {
    var gain := rewardRisk * probability - (1.0 - probability);
    QuotientBound(gain, rewardRisk, 0.0);
    assert (gain / rewardRisk) * rewardRisk == gain;
  }

  // ---------------------------------------------------------------- whole steps

  /** Towards zero: never further from it than the number, by less than one, and the same on either side. */
  lemma TruncatesTowardsZero(x: real)
    ensures Abs(Truncate(x) as real) <= Abs(x) < Abs(Truncate(x) as real) + 1.0
    ensures Truncate(-x) == -Truncate(x)
  {
  }

  /** Down is the steps that fit, up the fewest that cover, nearest within half a step. */
  lemma UnitsOfValue(value: real, step: real)
    requires step > 0.0
    ensures var ratio := value / step;
            && Abs(StepUnits(value, step, Down) as real) <= Abs(ratio) < Abs(StepUnits(value, step, Down) as real) + 1.0
            && ratio <= StepUnits(value, step, Up) as real < ratio + 1.0
            && Abs(StepUnits(value, step, Nearest) as real - ratio) <= 0.5
  {
    TruncatesTowardsZero(value / step);
  }
}
