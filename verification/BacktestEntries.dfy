/** Which events the backtest trades, at what price, with what size, and what its exits have seen: stated over the
    looked-up prices themselves. */
module BacktestEntries {
  import opened Common
  import opened Features
  import opened Pricing
  import opened Backtest
  import opened BacktestPromises

  // ---------------------------------------------------------------- what was looked up

  /** The last price a second before the event, and the last one when the decision is taken. */
  ghost predicate LookedUp(series: Series, event: Event, params: Params, before: real, at: real) {
    && Latest(Sorted(series), event.ts - 1) == Some(before) && before != 0.0
    && Latest(Sorted(series), event.ts + params.decisionDelayS) == Some(at) && at != 0.0
  }

  /** How far the price has moved in the direction of the event: a rise for BUY, a fall for SELL. */
  function MovedAlready(direction: Direction, before: real, at: real): real
    requires before != 0.0
  {
    if direction == Buy then (at - before) / before else (before - at) / before
  }

  lemma MoveAsRatio(direction: Direction, before: real, at: real)
    requires before != 0.0
    ensures (at / before - 1.0) * direction.Sign() == MovedAlready(direction, before, at)
  {
    assert before / before == 1.0;
    QuotientOfDifference(at, before, before);
    QuotientOfDifference(before, at, before);
  }

  lemma QuotientOfDifference(a: real, b: real, c: real)
    requires c != 0.0
    ensures (a - b) / c == a / c - b / c
  {
  }

  /** What is left of the expected move pays for the spread, the slippage and the least alpha. */
  predicate WorthTrading(event: Event, instrument: Instrument, params: Params, before: real, at: real)
    requires before != 0.0 && at != 0.0
  {
    MovedAlready(event.direction, before, at)
    <= Abs(event.expectedMovePct) - instrument.spread.GetOr(0.0) / at - params.slippagePct - params.minNetAlphaPct
  }

  lemma DecidedOn(
    series: Series, instrument: Instrument, event: Event, equity: real, market: Market, params: Params)
    returns (before: real, at: real)
    requires Decide(series, instrument, event, equity, market, params) != NoTrade(NoPrice)
    ensures LookedUp(series, event, params, before, at)
    ensures Decide(series, instrument, event, equity, market, params) != NoTrade(NoResidualAlpha)
            <==> WorthTrading(event, instrument, params, before, at)
    ensures Decide(series, instrument, event, equity, market, params).Go? ==>
              var plan := Decide(series, instrument, event, equity, market, params).plan;
              && plan.realized == MovedAlready(event.direction, before, at)
              && plan.residual + plan.realized == Abs(event.expectedMovePct)
              && plan.expected == Abs(event.expectedMovePct)
  {
    hide RealizedVolatility, Latest, Sorted;
    before := Latest(Sorted(series), event.ts - 1).value;
    at := Latest(Sorted(series), DecisionTs(event, params)).value;
    MoveAsRatio(event.direction, before, at);
  }

  /** An event with both prices is not skipped for want of alpha exactly when the move already made, in its own
      direction, leaves enough of the expected one. */
  lemma NotSkippedIff(
    market: Market, params: Params, prices: Prices, event: Event, equity: real, before: real, at: real)
    requires event.epic in market.instruments && event.epic in prices && prices[event.epic] != []
    requires LookedUp(prices[event.epic], event, params, before, at)
    ensures OutcomeOf(market, params, prices, event, equity) != Skipped(NoResidualAlpha)
            <==> WorthTrading(event, market.instruments[event.epic], params, before, at)
    ensures OutcomeOf(market, params, prices, event, equity) != Skipped(NoPrice)
    ensures OutcomeOf(market, params, prices, event, equity) != Skipped(NoData)
  {
    hide RealizedVolatility, Latest, Sorted, ExitOf;
    MoveAsRatio(event.direction, before, at);
  }

  /** An event worth trading ends the run in a division by zero exactly when the instrument has no size step, or its
      stop is worth nothing. */
  lemma CrashesIff(
    series: Series, instrument: Instrument, event: Event, equity: real, market: Market, params: Params, before: real,
    at: real)
    requires LookedUp(series, event, params, before, at) && WorthTrading(event, instrument, params, before, at)
    ensures var volatility := RealizedVolatility(series, 3600, event.ts + params.decisionDelayS, market.maths);
            var stop := StopPoints(EntryPrice(at, instrument, event.direction, params), volatility, params);
            Decide(series, instrument, event, equity, market, params).DividesByZero?
            <==> instrument.sizeStep == 0.0 || stop * instrument.valuePerPoint == 0.0
  {
    hide RealizedVolatility, Latest, Sorted, StopPoints, EntryPrice;
    MoveAsRatio(event.direction, before, at);
  }

  // ---------------------------------------------------------------- trades of a run

  /** A trade is what some event of the list came to, at some equity. */
  ghost predicate TradedFrom(market: Market, params: Params, prices: Prices, event: Event, t: Trade) {
    exists equity :: OutcomeOf(market, params, prices, event, equity) == Done(t)
  }

  lemma {:induction false} TradesComeFromEvents(
    market: Market, params: Params, prices: Prices, events: seq<Event>, equity: real, t: Trade)
    requires RunEvents(market, params, prices, events, equity).Some?
    requires t in RunEvents(market, params, prices, events, equity).value.trades
    ensures exists event :: event in events && TradedFrom(market, params, prices, event, t)
  {
    hide OutcomeOf;
    var front, last := events[..|events| - 1], events[|events| - 1];
    var book := RunEvents(market, params, prices, front, equity).value;
    if t in book.trades {
      TradesComeFromEvents(market, params, prices, front, equity, t);
      var event :| event in front && TradedFrom(market, params, prices, event, t);
      assert event in events;
    } else {
      assert OutcomeOf(market, params, prices, last, book.equity) == Done(t);
      assert TradedFrom(market, params, prices, last, t);
    }
  }

  /** What a trade says about its event: the move already made, the one left, and that it was worth trading. */
  ghost predicate HonestEntry(market: Market, params: Params, prices: Prices, event: Event, t: Trade) {
    && event.epic in market.instruments
    && t.ts == event.ts && t.epic == event.epic && t.direction == event.direction
    && t.residualPct + t.realizedAtEntryPct == Abs(event.expectedMovePct) == t.expectedMovePct
    && exists before, at ::
         && LookedUp(SeriesOf(prices, event.epic), event, params, before, at)
         && t.realizedAtEntryPct == MovedAlready(event.direction, before, at)
         && WorthTrading(event, market.instruments[event.epic], params, before, at)
  }

  lemma TradeIsHonest(market: Market, params: Params, prices: Prices, event: Event, t: Trade)
    requires TradedFrom(market, params, prices, event, t)
    ensures HonestEntry(market, params, prices, event, t)
  {
    hide Decide, ExitOf, LookedUp, WorthTrading, MovedAlready;
    var equity :| OutcomeOf(market, params, prices, event, equity) == Done(t);
    var before, at :=
      DecidedOn(SeriesOf(prices, event.epic), market.instruments[event.epic], event, equity, market, params);
  }

  /** Every trade of a run is of an event of the list, of which enough was left when the decision was taken. */
  lemma RunTradesWorthTrading(
    market: Market, params: Params, prices: Prices, events: seq<Event>, equity: real, t: Trade)
    requires RunEvents(market, params, prices, events, equity).Some?
    requires t in RunEvents(market, params, prices, events, equity).value.trades
    ensures exists event :: event in events && HonestEntry(market, params, prices, event, t)
  {
    hide HonestEntry, TradedFrom, RunEvents;
    TradesComeFromEvents(market, params, prices, events, equity, t);
    var event :| event in events && TradedFrom(market, params, prices, event, t);
    TradeIsHonest(market, params, prices, event, t);
  }

  /** An event whose expected move has already been made is never traded: with costs that are not negative, a positive
      least alpha and a positive price. */
  lemma NoChasing(
    market: Market, params: Params, prices: Prices, event: Event, equity: real, before: real, at: real)
    requires event.epic in market.instruments
    requires LookedUp(SeriesOf(prices, event.epic), event, params, before, at) && at > 0.0
    requires market.instruments[event.epic].spread.GetOr(0.0) >= 0.0
    requires params.slippagePct >= 0.0 && params.minNetAlphaPct > 0.0
    requires MovedAlready(event.direction, before, at) >= Abs(event.expectedMovePct)
    ensures !OutcomeOf(market, params, prices, event, equity).Done?
  {
    hide OutcomeOf, LookedUp, MovedAlready;
    QuotientBound(market.instruments[event.epic].spread.GetOr(0.0), at, 0.0);
    if OutcomeOf(market, params, prices, event, equity).Done? {
      DoneIsWorth(market, params, prices, event, equity, before, at);
      assert false;
    }
  }

  lemma DoneIsWorth(
    market: Market, params: Params, prices: Prices, event: Event, equity: real, before: real, at: real)
    requires event.epic in market.instruments
    requires LookedUp(SeriesOf(prices, event.epic), event, params, before, at)
    requires OutcomeOf(market, params, prices, event, equity).Done?
    ensures WorthTrading(event, market.instruments[event.epic], params, before, at)
  {
    hide LookedUp, Decide, ExitOf;
    assert event.epic in prices && prices[event.epic] != [];
    NotSkippedIff(market, params, prices, event, equity, before, at);
  }

  // ---------------------------------------------------------------- price, stop and size

  /** Taking the position and closing it at the same market costs the spread, and the slippage on the price quoted. */
  lemma EntryCosts(
    series: Series, instrument: Instrument, event: Event, equity: real, market: Market, params: Params, at: real)
    requires Latest(Sorted(series), event.ts + params.decisionDelayS) == Some(at)
    requires Decide(series, instrument, event, equity, market, params).Go?
    ensures var plan := Decide(series, instrument, event, equity, market, params).plan;
            var spread := instrument.spread.GetOr(0.0);
            var quoted := if event.direction == Buy then at + spread / 2.0 else at - spread / 2.0;
            plan.Pnl(plan.ExitPrice(at))
            == -(spread + quoted * params.slippagePct) * (plan.size * instrument.valuePerPoint)
  {
    hide RealizedVolatility, Latest, Sorted, StopPoints, RoundedSize, RiskAt, LossPerUnit, RawSize, RiskBudget,
         Realized, PnlMoney;
    var plan := Decide(series, instrument, event, equity, market, params).plan;
    var spread := instrument.spread.GetOr(0.0);
    var quoted := if event.direction == Buy then at + spread / 2.0 else at - spread / 2.0;
    PlannedEntry(quoted, event.direction, params, plan.entry, at, instrument);
    PnlOfPoints(plan, plan.ExitPrice(at), -(spread + quoted * params.slippagePct));
  }

  lemma PlannedEntry(
    quoted: real, direction: Direction, params: Params, entry: real, at: real, instrument: Instrument)
    requires entry == EntryPrice(at, instrument, direction, params)
    requires quoted == if direction == Buy then at + instrument.HalfSpread() else at - instrument.HalfSpread()
    ensures entry
            == if direction == Buy then quoted + quoted * params.slippagePct else quoted - quoted * params.slippagePct
  {
  }

  /** The relative stop is the larger of 8 basis points and the multiple of the volatility of the hour before the
      decision, or of a tenth of a per cent when that is unknown or zero. */
  ghost predicate StopFrom(plan: Plan, volatility: Option<real>, params: Params) {
    var known := volatility.Some? && volatility.value != 0.0;
    var asked := (if known then volatility.value else 0.001) * params.stopVolMultiple;
    || (plan.stopPoints == plan.entry * 0.0008 && asked <= 0.0008)
    || (plan.stopPoints == plan.entry * asked && asked >= 0.0008)
  }

  lemma StopFollowsVolatility(
    series: Series, instrument: Instrument, event: Event, equity: real, market: Market, params: Params)
    requires Decide(series, instrument, event, equity, market, params).Go?
    ensures StopFrom(
              Decide(series, instrument, event, equity, market, params).plan,
              RealizedVolatility(series, 3600, event.ts + params.decisionDelayS, market.maths), params)
  {
    hide RealizedVolatility, Latest, Sorted;
    var plan := Decide(series, instrument, event, equity, market, params).plan;
    var volatility := RealizedVolatility(series, 3600, event.ts + params.decisionDelayS, market.maths);
    assert plan.stopPoints == plan.entry * StopPct(volatility, params);
  }

  /** A size above the minimum risks the configured share of the equity, to within half a step. */
  lemma SizeRisksTheShare(
    series: Series, instrument: Instrument, event: Event, equity: real, market: Market, params: Params)
    requires Decide(series, instrument, event, equity, market, params).Go?
    requires instrument.sizeStep > 0.0
    requires Decide(series, instrument, event, equity, market, params).plan.stopPoints * instrument.valuePerPoint > 0.0
    ensures var plan := Decide(series, instrument, event, equity, market, params).plan;
            && plan.size >= instrument.minSize
            && (plan.size > instrument.minSize ==>
                  Abs(plan.riskEur - equity * params.riskPerTrade)
                  <= 0.5 * (instrument.sizeStep * (plan.stopPoints * instrument.valuePerPoint)))
            && (plan.size == instrument.minSize ==>
                  equity * params.riskPerTrade
                  <= plan.riskEur + 0.5 * (instrument.sizeStep * (plan.stopPoints * instrument.valuePerPoint)))
  {
    hide Decide, RoundedSize, RiskAt, RawSize;
    var plan := Decide(series, instrument, event, equity, market, params).plan;
    PlanParts(series, instrument, event, equity, market, params);
    var risk, unit := RiskBudget(equity, params), LossPerUnit(plan.stopPoints, instrument);
    assert unit == plan.stopPoints * instrument.valuePerPoint && risk == equity * params.riskPerTrade;
    RiskOfSize(plan.size, plan.stopPoints, instrument.valuePerPoint);
    assert plan.riskEur == plan.size * unit;
    RoundedSizeNear(risk, unit, instrument);
  }

  lemma PlanParts(
    series: Series, instrument: Instrument, event: Event, equity: real, market: Market, params: Params)
    requires Decide(series, instrument, event, equity, market, params).Go? && instrument.sizeStep != 0.0
    ensures var plan := Decide(series, instrument, event, equity, market, params).plan;
            var unit := LossPerUnit(plan.stopPoints, instrument);
            && unit != 0.0
            && plan.size == RoundedSize(RawSize(RiskBudget(equity, params), unit), instrument)
            && plan.riskEur == RiskAt(plan.size, plan.stopPoints, instrument.valuePerPoint)
  {
    hide RealizedVolatility, Latest, Sorted, PlanFor, LossPerUnit, RawSize, RoundedSize, RiskBudget, RiskAt;
    var before := Latest(Sorted(series), event.ts - 1).value;
    var at := Latest(Sorted(series), DecisionTs(event, params)).value;
    var volatility := RealizedVolatility(series, 3600, DecisionTs(event, params), market.maths);
    PlanForParts(before, at, volatility, instrument, event, equity, params);
  }

  lemma PlanForParts(
    before: real, at: real, volatility: Option<real>, instrument: Instrument, event: Event, equity: real,
    params: Params)
    requires before != 0.0 && at != 0.0 && instrument.sizeStep != 0.0
    requires PlanFor(before, at, volatility, instrument, event, equity, params).Go?
    ensures var plan := PlanFor(before, at, volatility, instrument, event, equity, params).plan;
            var unit := LossPerUnit(plan.stopPoints, instrument);
            unit != 0.0
    ensures var plan := PlanFor(before, at, volatility, instrument, event, equity, params).plan;
            var unit := LossPerUnit(plan.stopPoints, instrument);
            plan.size == RoundedSize(RawSize(RiskBudget(equity, params), unit), instrument)
    ensures var plan := PlanFor(before, at, volatility, instrument, event, equity, params).plan;
            plan.riskEur == RiskAt(plan.size, plan.stopPoints, instrument.valuePerPoint)
  {
    hide EntryPrice, StopPoints, RoundedSize, RiskAt, LossPerUnit, RawSize, RiskBudget, Realized;
  }

  lemma RiskOfSize(size: real, stopPoints: real, valuePerPoint: real)
    ensures RiskAt(size, stopPoints, valuePerPoint) == size * (stopPoints * valuePerPoint)
  {
  }

  lemma RoundedSizeNear(risk: real, unit: real, instrument: Instrument)
    requires unit > 0.0 && instrument.sizeStep > 0.0
    ensures var size := RoundedSize(RawSize(risk, unit), instrument);
            && size >= instrument.minSize
            && (size > instrument.minSize ==> Abs(size * unit - risk) <= 0.5 * (instrument.sizeStep * unit))
            && (size == instrument.minSize ==> risk <= size * unit + 0.5 * (instrument.sizeStep * unit))
  {
    var raw, step := RawSize(risk, unit), instrument.sizeStep;
    var rounded := Steps(RoundHalfEven(raw / step), step);
    RoundedNear(raw, step, RoundHalfEven(raw / step));
    assert raw * unit == risk;
    hide RoundHalfEven, Steps;
    SizeNear(rounded, raw, risk, step, unit, instrument.minSize);
    assert RoundedSize(raw, instrument) == Max(instrument.minSize, rounded);
  }

  lemma SizeNear(rounded: real, raw: real, risk: real, step: real, unit: real, minSize: real)
    requires unit > 0.0 && Abs(rounded - raw) <= 0.5 * step && risk == raw * unit
    ensures var size := Max(minSize, rounded);
            && (size > minSize ==> Abs(size * unit - risk) <= 0.5 * (step * unit))
            && (size == minSize ==> risk <= size * unit + 0.5 * (step * unit))
  {
    var worth := rounded * unit;
    ScaledNear(rounded, raw, 0.5 * step, unit, worth, risk);
    Halves(step, unit);
    var size := Max(minSize, rounded);
    if rounded > minSize {
      assert size == rounded;
    } else {
      assert size == minSize;
      MulMonotone(rounded, size, unit);
    }
  }

  lemma Halves(step: real, unit: real)
    ensures (0.5 * step) * unit == 0.5 * (step * unit)
  {
  }

  lemma RoundedNear(x: real, step: real, n: int)
    requires step > 0.0 && n == RoundHalfEven(x / step)
    ensures Abs(Steps(n, step) - x) <= 0.5 * step
  {
    assert -0.5 <= n as real - x / step <= 0.5;
    ScaledNear(n as real, x / step, 0.5, step, Steps(n, step), x);
  }

  // ---------------------------------------------------------------- what an exit has seen

  /** A stop is hit only by a price at which closing would lose at least the risk, a target only by one at which
      closing would gain at least the reward. */
  ghost predicate SeenBy(plan: Plan, params: Params, p: Point, reason: Reason) {
    match reason
    case StopHit => plan.Pnl(plan.ExitPrice(p.value)) <= -plan.riskEur
    case TargetHit => plan.Pnl(plan.ExitPrice(p.value)) >= params.rewardRisk * plan.riskEur
    case TimeStop => true
  }

  /** What the position would make at a price, against what it makes at the two levels. */
  lemma PaysInOrder(
    plan: Plan, params: Params, event: Event, valuePerPoint: real, halfSpread: real, minSize: real, exit: real)
    requires Planned(plan, params, event, valuePerPoint, halfSpread, minSize)
    requires minSize > 0.0 && plan.valuePerPoint > 0.0
    ensures var points := if plan.direction == Buy then exit - plan.entry else plan.entry - exit;
            && (points <= -plan.stopPoints ==> plan.Pnl(exit) <= -plan.riskEur)
            && (points >= plan.targetPoints ==> plan.Pnl(exit) >= params.rewardRisk * plan.riskEur)
  {
    hide PnlMoney;
    var worth := plan.size * plan.valuePerPoint;
    MulStrict(0.0, plan.size, plan.valuePerPoint);
    var points := if plan.direction == Buy then exit - plan.entry else plan.entry - exit;
    LevelsPay(plan, params, event, valuePerPoint, halfSpread, minSize);
    PnlOfPoints(plan, exit, points);
    PnlOfPoints(plan, plan.StopPrice(), -plan.stopPoints);
    PnlOfPoints(plan, plan.TargetPrice(), plan.targetPoints);
    if points <= -plan.stopPoints {
      MulMonotone(points, -plan.stopPoints, worth);
    }
    if points >= plan.targetPoints {
      MulMonotone(plan.targetPoints, points, worth);
    }
  }

  lemma HitPays(
    plan: Plan, params: Params, event: Event, valuePerPoint: real, halfSpread: real, minSize: real, p: Point)
    requires Planned(plan, params, event, valuePerPoint, halfSpread, minSize)
    requires minSize > 0.0 && plan.valuePerPoint > 0.0
    ensures plan.HitsStop(p.value) ==> SeenBy(plan, params, p, StopHit)
    ensures plan.HitsTarget(p.value) ==> SeenBy(plan, params, p, TargetHit)
  {
    hide PnlMoney, Planned;
    PaysInOrder(plan, params, event, valuePerPoint, halfSpread, minSize, plan.ExitPrice(p.value));
  }

  lemma {:induction false} HitHasPoint(s: Series, plan: Plan, decisionTs: int, deadline: int) returns (p: Point)
    requires FirstHit(s, plan, decisionTs, deadline).Some?
    ensures var hit := FirstHit(s, plan, decisionTs, deadline).value;
            && p in s && p.ts == hit.ts
            && (hit.reason == StopHit ==> plan.HitsStop(p.value))
            && (hit.reason == TargetHit ==> plan.HitsTarget(p.value) && !plan.HitsStop(p.value))
  {
    p := s[0];
    if p.ts <= decisionTs || !(plan.HitsStop(p.value) || plan.HitsTarget(p.value)) {
      p := HitHasPoint(s[1..], plan, decisionTs, deadline);
    }
  }

  /** The exit of a trade is at a point of the series after the decision whose price really was past the level. */
  lemma ExitWasSeen(market: Market, params: Params, prices: Prices, event: Event, equity: real, t: Trade)
    requires OutcomeOf(market, params, prices, event, equity) == Done(t) && t.reason != TimeStop
    requires event.epic in market.instruments
    requires market.instruments[event.epic].minSize > 0.0 && market.instruments[event.epic].valuePerPoint > 0.0
    ensures var series := SeriesOf(prices, event.epic);
            var plan := Decide(series, market.instruments[event.epic], event, equity, market, params).plan;
            exists p :: p in series && p.ts == t.exitTs && SeenBy(plan, params, p, t.reason)
  {
    hide FirstHit, Decide, SeenBy, PnlMoney;
    var series := SeriesOf(prices, event.epic);
    var instrument := market.instruments[event.epic];
    var plan := Decide(series, instrument, event, equity, market, params).plan;
    DecideMakesPlanned(series, instrument, event, equity, market, params);
    var p := HitHasPoint(series, plan, DecisionTs(event, params), Deadline(event, params));
    HitPays(plan, params, event, instrument.valuePerPoint, instrument.HalfSpread(), instrument.minSize, p);
  }

  /** On an ordered series every earlier price between the decision and the exit pays strictly between the levels: the
      first hit is the one that counts. */
  lemma {:induction false} EarlierInside(s: Series, plan: Plan, decisionTs: int, deadline: int, p: Point)
    requires Ordered(s) && p in s && FirstHit(s, plan, decisionTs, deadline).Some?
    requires decisionTs < p.ts < FirstHit(s, plan, decisionTs, deadline).value.ts
    ensures !plan.HitsStop(p.value) && !plan.HitsTarget(p.value)
  {
    assert s == [s[0]] + s[1..];
    if s[0] != p {
      EarlierInside(s[1..], plan, decisionTs, deadline, p);
    }
  }

  lemma FirstHitCounts(
    market: Market, params: Params, prices: Prices, event: Event, equity: real, t: Trade, p: Point)
    requires OutcomeOf(market, params, prices, event, equity) == Done(t) && t.reason != TimeStop
    requires event.epic in market.instruments && Ordered(SeriesOf(prices, event.epic))
    requires market.instruments[event.epic].minSize > 0.0 && market.instruments[event.epic].valuePerPoint > 0.0
    requires p in SeriesOf(prices, event.epic) && event.ts + params.decisionDelayS < p.ts < t.exitTs
    ensures var plan :=
              Decide(SeriesOf(prices, event.epic), market.instruments[event.epic], event, equity, market, params).plan;
            PaysBetween(plan.Pnl(plan.ExitPrice(p.value)), t.riskEur, params)
  {
    hide FirstHit, Decide, PnlMoney;
    var series := SeriesOf(prices, event.epic);
    var instrument := market.instruments[event.epic];
    var plan := Decide(series, instrument, event, equity, market, params).plan;
    DecideMakesPlanned(series, instrument, event, equity, market, params);
    EarlierInside(series, plan, DecisionTs(event, params), Deadline(event, params), p);
    InsideLevelsPays(
      plan, params, event, instrument.valuePerPoint, instrument.HalfSpread(), instrument.minSize, p.value);
  }

  /** A trade adds up: its result is the move from its entry to its exit in its direction, times its size and the value
      of a point, and the entry is the quote of the decision worsened by the slippage. */
  lemma TradeAddsUp(market: Market, params: Params, prices: Prices, event: Event, t: Trade)
    requires TradedFrom(market, params, prices, event, t)
    ensures event.epic in market.instruments && t.direction == event.direction
    ensures var instrument := market.instruments[event.epic];
            && t.pnl == WorthOfMove(t.entry, t.exit, t.direction, t.size, instrument.valuePerPoint)
            && exists at ::
                 && Latest(Sorted(SeriesOf(prices, event.epic)), event.ts + params.decisionDelayS) == Some(at)
                 && EnteredAt(t, at, instrument.spread.GetOr(0.0), params.slippagePct)
  {
    hide Decide, ExitOf, EnteredAt, WorthOfMove, PnlMoney;
    var equity :| OutcomeOf(market, params, prices, event, equity) == Done(t);
    var series, instrument := SeriesOf(prices, event.epic), market.instruments[event.epic];
    var plan := Decide(series, instrument, event, equity, market, params).plan;
    var at := PlanEntered(series, instrument, event, equity, market, params, t);
    PnlOfTrade(t.entry, t.exit, t.direction, t.size, instrument.valuePerPoint);
  }

  /** The rise for a long position, the fall for a short one, times the size and the value of a point. */
  function WorthOfMove(entry: real, exit: real, direction: Direction, size: real, valuePerPoint: real): real {
    if direction == Buy then (exit - entry) * size * valuePerPoint else (entry - exit) * size * valuePerPoint
  }

  predicate EnteredAt(t: Trade, at: real, spread: real, slippagePct: real) {
    if t.direction == Buy then t.entry == (at + spread / 2.0) + (at + spread / 2.0) * slippagePct
    else t.entry == (at - spread / 2.0) - (at - spread / 2.0) * slippagePct
  }

  lemma PnlOfTrade(entry: real, exit: real, direction: Direction, size: real, valuePerPoint: real)
    ensures PnlMoney(entry, exit, direction, size, valuePerPoint)
            == WorthOfMove(entry, exit, direction, size, valuePerPoint)
  {
  }

  lemma PlanEntered(
    series: Series, instrument: Instrument, event: Event, equity: real, market: Market, params: Params, t: Trade)
    returns (at: real)
    requires Decide(series, instrument, event, equity, market, params).Go?
    requires t.direction == event.direction
    requires t.entry == Decide(series, instrument, event, equity, market, params).plan.entry
    ensures Decide(series, instrument, event, equity, market, params).plan.direction == event.direction
    ensures Decide(series, instrument, event, equity, market, params).plan.valuePerPoint == instrument.valuePerPoint
    ensures Latest(Sorted(series), event.ts + params.decisionDelayS) == Some(at)
    ensures EnteredAt(t, at, instrument.spread.GetOr(0.0), params.slippagePct)
  {
    hide RealizedVolatility, Latest, Sorted, StopPoints, RoundedSize, RiskAt, LossPerUnit, RawSize, RiskBudget,
         Realized;
    at := Latest(Sorted(series), DecisionTs(event, params)).value;
    var quoted := if event.direction == Buy then at + instrument.HalfSpread() else at - instrument.HalfSpread();
    PlannedEntry(quoted, event.direction, params, t.entry, at, instrument);
  }
}
