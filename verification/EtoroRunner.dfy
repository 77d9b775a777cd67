/** One cycle of the eToro runner (src/workers/etoro_runner.py) as steps over the portfolio.

    All orders of a cycle are judged on one snapshot of the account and of the open positions. News, verdicts,
    quotes, clocks and the gateway are inputs. */
module EtoroRunner {
  import opened Common
  import opened Limits
  import opened Exposure
  import opened Sizing
  import opened Margin
  import opened RiskEngine
  import opened EtoroAdapter
  import Pairs

  const MAX_JUDGED_PER_CYCLE := 10
  const MAX_PAIRS_TRIED_PER_CYCLE := 5

  datatype BrokerPosition = BrokerPosition(
    epic: string, direction: Direction, size: real, level: real, stopLevel: Option<real>, currency: string)

  /** An order handed to the gateway. `entry` is the quoted price it starts from; the distances are those the risk
      engine approved, the absolute levels what the broker gets. */
  datatype Order = Order(
    instrumentId: int, direction: Direction, units: int, stopLoss: real, takeProfit: real, leverage: int,
    entry: real, stopDistance: real, limitDistance: real)
  {
    /** What the order loses at the approved stop. */
    function Risk(): real {
      units as real * stopDistance
    }

    /** How far against the position, or for it, a price is from the entry. */
    function Against(price: real): real {
      if direction == Buy then entry - price else price - entry
    }

    /** What the order loses at the stop that the broker got. */
    function RiskSent(): real {
      units as real * Against(stopLoss)
    }

    /** The levels sent are the approved distances from the entry, the stop on the losing and the target on the winning
        side, to half a cent. */
    predicate Levelled() {
      && leverage == 5
      && Abs(Against(stopLoss) - stopDistance) <= 0.005
      && Abs(-Against(takeProfit) - limitDistance) <= 0.005
    }

    /** Strictly on their sides. */
    predicate OnSides() {
      Against(stopLoss) > 0.0 && Against(takeProfit) < 0.0
    }

    /** From a distance of half a cent on they are strictly on their sides, and in any case the risk at the stop sent is
        the approved one to half a cent a unit. */
    lemma LevelsHold()
      requires Levelled() && units > 0
      ensures stopDistance > 0.005 && limitDistance > 0.005 ==> OnSides()
      ensures Abs(RiskSent() - Risk()) <= units as real * 0.005
    {
      ScaledNear(Against(stopLoss), stopDistance, 0.005, units as real, RiskSent(), Risk());
    }
  }

  /** What a call of `open_market_order` comes to: the broker gives an order id, or none, or the call raises. */
  datatype GatewayReply = Confirmed | Rejected | Raised

  /** A call into the network: its result, or the exception it raises. */
  datatype Reply<T> = Got(value: T) | Failed

  /** A momentum candidate with what is looked up for it when its turn comes: the brief, and whether the judge sees a
      catalyst in it. */
  datatype MomentumCandidate = MomentumCandidate(
    id: int, quote: Option<Quote>, news: Reply<string>, catalyst: Reply<bool>, env: Env)

  /** Quotes and environment of the legs of the k-th pair tried. */
  datatype PairLookup = PairLookup(
    quotesRaise: bool, quoteA: Option<Quote>, quoteB: Option<Quote>, envA: Env, envB: Env)

  function ExposureOf(p: BrokerPosition): OpenExposure {
    OpenExposure(
      p.epic, p.direction, p.size * p.level,
      if p.stopLevel.Some? then Abs(p.level - p.stopLevel.value) * p.size else 0.0,
      EQUITY_CFD, p.currency, None, map[])
  }

  /** A position risks the distance to its stop, on whichever side it is, times its size; nothing is known to be at risk
      without a stop. */
  lemma RiskOfHeld(p: BrokerPosition)
    ensures ExposureOf(p).notional == p.size * p.level
    ensures match p.stopLevel
            case None => ExposureOf(p).riskEur == 0.0
            case Some(stop) =>
              ExposureOf(p).riskEur
              == (if stop <= p.level then (p.level - stop) * p.size else (stop - p.level) * p.size)
    ensures ExposureOf(p).epic == p.epic && ExposureOf(p).direction == p.direction
    ensures ExposureOf(p).currency == p.currency
  {
  }

  function Exposures(ps: seq<BrokerPosition>): seq<OpenExposure> {
    seq(|ps|, i requires 0 <= i < |ps| => ExposureOf(ps[i]))
  }

  function Snapshot(account: AccountState, positions: seq<BrokerPosition>): PortfolioContext {
    PortfolioContext(account, Exposures(positions), 0.0, Some(account.equity), 0, 0, map[])
  }

  lemma SnapshotCounts(account: AccountState, positions: seq<BrokerPosition>)
    ensures |Snapshot(account, positions).openPositions| == |positions|
  {
  }

  // ---------------------------------------------------------------- what an order guarantees

  predicate WorthTheRisk(limitDistance: real, stopDistance: real, limits: RiskLimits) {
    limitDistance >= limits.minRewardRisk * stopDistance
  }

  /** The order fits the caps on the snapshot, on its own; its levels are the approved ones, and the reward is worth the
      risk. */
  ghost predicate FitsSnapshot(o: Order, limits: RiskLimits, ctx: PortfolioContext) {
    var equity := ctx.account.equity;
    && equity > 0.0 && o.units > 0 && o.stopDistance > 0.0
    && WithinRisk(o.Risk(), equity, limits.maxRiskPerTrade)
    && o.Risk() <= limits.maxStakeAbs + RISK_TOLERANCE
    && WithinRisk(ctx.OpenRiskEur() + o.Risk(), equity, limits.maxOpenRisk)
    && |ctx.openPositions| < limits.maxOpenPositions
    && o.Levelled() && WorthTheRisk(o.limitDistance, o.stopDistance, limits)
  }

  lemma WholeUnitsRiskLess(units: int, size: real, stop: real)
    requires units == size.Floor && stop > 0.0
    ensures units as real * stop <= size * stop
  {
    MulMonotone(units as real, size, stop);
  }

  lemma RiskOfSize(limits: RiskLimits, p: TradeProposal, ctx: PortfolioContext)
    requires p.stopDistance > 0.0 && p.instrument.valuePerPoint == 1.0
    ensures SizingFor(limits, p, ctx, 1.0).riskEur == SizingFor(limits, p, ctx, 1.0).size * p.stopDistance
  {
    hide SizeFor, Budget;
    assert p.stopDistance * ValuePerPointEur(Request(p, ctx, 1.0)) == p.stopDistance;
  }

  lemma ApprovedFitsCaps(env: Env, limits: RiskLimits, p: TradeProposal, ctx: PortfolioContext)
    requires Acceptable(env, limits, p, ctx, 1.0)
    ensures p.stopDistance > 0.0 && ctx.account.equity > 0.0 && |ctx.openPositions| < limits.maxOpenPositions
    ensures WithinRisk(SizingFor(limits, p, ctx, 1.0).riskEur, ctx.account.equity, limits.maxRiskPerTrade)
    ensures SizingFor(limits, p, ctx, 1.0).riskEur <= limits.maxStakeAbs + RISK_TOLERANCE
    ensures WithinRisk(
              ctx.OpenRiskEur() + SizingFor(limits, p, ctx, 1.0).riskEur, ctx.account.equity, limits.maxOpenRisk)
  {
    hide SizingOf, WithinRisk;
    OpenTotals(ctx.openPositions, NewExposure(p, SizingFor(limits, p, ctx, 1.0)), Whole);
  }

  lemma ApprovedReward(env: Env, limits: RiskLimits, p: TradeProposal, ctx: PortfolioContext)
    requires Acceptable(env, limits, p, ctx, 1.0)
    ensures p.limitDistance.Some? && WorthTheRisk(p.limitDistance.value, p.stopDistance, limits)
  {
    hide MarketOk, OrderOk, SlippageOk, AccountOk, SizeOk, PortfolioOk, MarginOk, SizingFor;
    QuotientBound(p.limitDistance.value, p.stopDistance, limits.minRewardRisk);
  }

  /** Rounding an approved size down to whole units keeps the order within what was approved. */
  lemma ApprovedOrderFits(env: Env, limits: RiskLimits, p: TradeProposal, ctx: PortfolioContext, o: Order)
    requires Acceptable(env, limits, p, ctx, 1.0)
    requires p.instrument.valuePerPoint == 1.0 && o.stopDistance == p.stopDistance
    requires o.units == SizingFor(limits, p, ctx, 1.0).size.Floor && o.units > 0
    requires o.Levelled() && p.limitDistance == Some(o.limitDistance)
    ensures FitsSnapshot(o, limits, ctx)
  {
    hide Acceptable, SizingOf, SizingFor, Order.Levelled, WorthTheRisk, WithinRisk;
    ApprovedReward(env, limits, p, ctx);
    ApprovedFitsCaps(env, limits, p, ctx);
    RiskOfSize(limits, p, ctx);
    var s := SizingFor(limits, p, ctx, 1.0);
    WholeUnitsRiskLess(o.units, s.size, p.stopDistance);
    LessRiskWithin(o.Risk(), s.riskEur, ctx.account.equity, limits.maxRiskPerTrade);
    LessRiskWithin(
      ctx.OpenRiskEur() + o.Risk(), ctx.OpenRiskEur() + s.riskEur, ctx.account.equity, limits.maxOpenRisk);
  }

  function TotalRisk(orders: seq<Order>): real {
    if orders == [] then 0.0 else TotalRisk(orders[..|orders| - 1]) + orders[|orders| - 1].Risk()
  }

  /** The per-trade caps, relative and absolute, with their tolerance. */
  function TradeCap(limits: RiskLimits, equity: real): real {
    Min(equity * limits.maxRiskPerTrade, limits.maxStakeAbs) + RISK_TOLERANCE
  }

  /** What the open-risk cap leaves, with its tolerance. */
  function Headroom(limits: RiskLimits, ctx: PortfolioContext): real {
    ctx.account.equity * limits.maxOpenRisk + RISK_TOLERANCE - ctx.OpenRiskEur()
  }

  /** The most that one order can risk on the snapshot. */
  function LargestRisk(limits: RiskLimits, ctx: PortfolioContext): real {
    Min(TradeCap(limits, ctx.account.equity), Headroom(limits, ctx))
  }

  function Times(n: nat, risk: real): real {
    n as real * risk
  }

  lemma RiskOfOne(o: Order, limits: RiskLimits, ctx: PortfolioContext)
    requires FitsSnapshot(o, limits, ctx)
    ensures o.Risk() <= TradeCap(limits, ctx.account.equity) && o.Risk() <= LargestRisk(limits, ctx)
  {
    hide Order.Risk;
  }

  /** Each order fits on its own, and the levels sent are the approved ones. */
  ghost predicate AllFit(orders: seq<Order>, limits: RiskLimits, ctx: PortfolioContext) {
    forall o :: o in orders ==> FitsSnapshot(o, limits, ctx)
  }

  /** The stop and the target that the broker gets are the approved distances from the entry on the right side, strictly
      from half a cent on, and the loss at the stop is the approved risk to half a cent a unit. */
  ghost predicate LevelsAsApproved(orders: seq<Order>) {
    forall o :: o in orders ==>
      && o.Levelled()
      && (o.stopDistance > 0.005 && o.limitDistance > 0.005 ==> o.OnSides())
      && Abs(o.RiskSent() - o.Risk()) <= o.units as real * 0.005
  }

  lemma FittingAreLevelled(orders: seq<Order>, limits: RiskLimits, ctx: PortfolioContext)
    requires AllFit(orders, limits, ctx)
    ensures LevelsAsApproved(orders)
  {
    hide Order.Levelled, Order.RiskSent, Order.Risk, Order.OnSides, WithinRisk, WorthTheRisk;
    forall o | o in orders
      ensures o.Levelled() && (o.stopDistance > 0.005 && o.limitDistance > 0.005 ==> o.OnSides())
              && Abs(o.RiskSent() - o.Risk()) <= o.units as real * 0.005
    {
      assert FitsSnapshot(o, limits, ctx);
      o.LevelsHold();
    }
  }

  lemma AllFitAppend(orders: seq<Order>, more: seq<Order>, limits: RiskLimits, ctx: PortfolioContext)
    requires AllFit(orders, limits, ctx) && AllFit(more, limits, ctx)
    ensures AllFit(orders + more, limits, ctx)
  {
  }

  lemma {:induction false} RiskOfEach(orders: seq<Order>, cap: real)
    requires forall o :: o in orders ==> o.Risk() <= cap
    ensures TotalRisk(orders) <= Times(|orders|, cap)
  {
    if orders != [] {
      hide Times, Order.Risk;
      var front, last := orders[..|orders| - 1], orders[|orders| - 1];
      assert last in orders;
      RiskOfEach(front, cap);
      OneMore(|front|, cap);
    }
  }

  /** n fitting orders risk at most n per-trade caps, and n times the largest risk the snapshot allows. */
  lemma OrdersRisk(orders: seq<Order>, limits: RiskLimits, ctx: PortfolioContext)
    requires AllFit(orders, limits, ctx)
    ensures TotalRisk(orders) <= Times(|orders|, TradeCap(limits, ctx.account.equity))
    ensures TotalRisk(orders) <= Times(|orders|, LargestRisk(limits, ctx))
  {
    hide FitsSnapshot, Order.Risk, TradeCap, LargestRisk, Times;
    forall o | o in orders
      ensures o.Risk() <= TradeCap(limits, ctx.account.equity) && o.Risk() <= LargestRisk(limits, ctx)
    {
      RiskOfOne(o, limits, ctx);
    }
    RiskOfEach(orders, TradeCap(limits, ctx.account.equity));
    RiskOfEach(orders, LargestRisk(limits, ctx));
  }

  lemma OneMore(n: nat, cap: real)
    ensures Times(n + 1, cap) == Times(n, cap) + cap
  {
  }

  /** Open risk with all the orders in it: the open-risk cap plus n - 1 per-trade caps. */
  ghost predicate WithinStaleBound(orders: seq<Order>, limits: RiskLimits, ctx: PortfolioContext)
    requires orders != []
  {
    ctx.OpenRiskEur() + TotalRisk(orders)
    <= ctx.account.equity * limits.maxOpenRisk + RISK_TOLERANCE
       + Times(|orders| - 1, TradeCap(limits, ctx.account.equity))
  }

  /** The stale-snapshot bound: n orders that each fit alone exceed the open-risk cap by at most n - 1 per-trade
      caps, and the position cap by at most n - 1 positions. */
  lemma StaleSnapshotBound(orders: seq<Order>, limits: RiskLimits, ctx: PortfolioContext)
    requires orders != [] && AllFit(orders, limits, ctx)
    ensures WithinStaleBound(orders, limits, ctx)
    ensures |ctx.openPositions| + |orders| <= limits.maxOpenPositions - 1 + |orders|
  {
    hide Times, Order.Risk, TradeCap;
    var front, last := orders[..|orders| - 1], orders[|orders| - 1];
    assert last in orders;
    OrdersRisk(front, limits, ctx);
  }

  /** The open risk with all the orders in it is within the cap. */
  predicate KeepsRiskCap(orders: seq<Order>, limits: RiskLimits, ctx: PortfolioContext) {
    WithinRisk(ctx.OpenRiskEur() + TotalRisk(orders), ctx.account.equity, limits.maxOpenRisk)
  }

  /** A snapshot on which an order may fit at all. */
  predicate TakesOrders(limits: RiskLimits, ctx: PortfolioContext) {
    ctx.account.equity > 0.0 && |ctx.openPositions| < limits.maxOpenPositions
  }

  /** n times the largest risk of one order is within what the cap leaves. */
  predicate RoomForAll(n: nat, limits: RiskLimits, ctx: PortfolioContext) {
    Times(n, LargestRisk(limits, ctx)) <= Headroom(limits, ctx)
  }

  function LargestOrder(limits: RiskLimits, ctx: PortfolioContext): Order {
    var stop, limit := LargestRisk(limits, ctx), limits.minRewardRisk * LargestRisk(limits, ctx);
    Order(0, Buy, 1, 1.0 - stop, 1.0 + limit, LEVERAGE, 1.0, stop, limit)
  }

  lemma NoneOf(risk: real)
    ensures Times(0, risk) == 0.0
  {
  }

  lemma {:induction false} RiskOfCopies(o: Order, n: nat)
    ensures TotalRisk(seq(n, _ => o)) == Times(n, o.Risk())
  {
    NoneOf(o.Risk());
    if n > 0 {
      hide Times, Order.Risk;
      var orders := seq(n, _ => o);
      assert orders[..n - 1] == seq(n - 1, _ => o);
      RiskOfCopies(o, n - 1);
      OneMore(n - 1, o.Risk());
    }
  }

  lemma LargestFits(limits: RiskLimits, ctx: PortfolioContext)
    requires TakesOrders(limits, ctx) && LargestOrder(limits, ctx).stopDistance > 0.0
    ensures FitsSnapshot(LargestOrder(limits, ctx), limits, ctx)
    ensures LargestOrder(limits, ctx).Risk() == LargestOrder(limits, ctx).stopDistance
  {
  }

  lemma FittingOrdersAreTaken(orders: seq<Order>, limits: RiskLimits, ctx: PortfolioContext)
    requires orders != []
    ensures AllFit(orders, limits, ctx) ==> TakesOrders(limits, ctx)
  {
    assert orders[0] in orders;
  }

  lemma NoRoomIsNoRisk(n: nat, cap: real, room: real)
    requires n > 0 && Min(cap, room) <= 0.0
    ensures Times(n, Min(cap, room)) <= room
  {
    MulMonotone(1.0, n as real, -Min(cap, room));
  }

  /** The condition on the snapshot: every n orders that each fit it alone keep the open-risk cap together, exactly
      when there is room for n of the largest one, or no order fits at all. */
  lemma CapKeptIff(n: nat, limits: RiskLimits, ctx: PortfolioContext)
    requires n > 0
    ensures (forall orders :: |orders| == n && AllFit(orders, limits, ctx) ==> KeepsRiskCap(orders, limits, ctx))
            <==> (TakesOrders(limits, ctx) ==> RoomForAll(n, limits, ctx))
  {
    hide Times, Order.Risk, TradeCap, FitsSnapshot;
    var largest := LargestOrder(limits, ctx);
    if TakesOrders(limits, ctx) && RoomForAll(n, limits, ctx) {
      forall orders | |orders| == n && AllFit(orders, limits, ctx)
        ensures KeepsRiskCap(orders, limits, ctx)
      {
        OrdersRisk(orders, limits, ctx);
      }
    } else if TakesOrders(limits, ctx) {
      if largest.stopDistance <= 0.0 {
        NoRoomIsNoRisk(n, TradeCap(limits, ctx.account.equity), Headroom(limits, ctx));
        assert false;
      }
      LargestFits(limits, ctx);
      var orders := seq(n, _ => largest);
      RiskOfCopies(largest, n);
      assert AllFit(orders, limits, ctx) && !KeepsRiskCap(orders, limits, ctx);
    } else {
      forall orders: seq<Order> | |orders| == n
        ensures !AllFit(orders, limits, ctx)
      {
        FittingOrdersAreTaken(orders, limits, ctx);
      }
    }
  }

  // ---------------------------------------------------------------- news already judged

  /** A brief handed to the judge, and remembered from then on even if the judge raises. */
  datatype Judgement = Judgement(id: int, brief: string)

  function LastBrief(judged: seq<Judgement>, id: int): Option<string> {
    if judged == [] then None
    else if judged[|judged| - 1].id == id then Some(judged[|judged| - 1].brief)
    else LastBrief(judged[..|judged| - 1], id)
  }

  /** An instrument is never judged twice in a row on the same brief. */
  ghost predicate NeverRejudged(judged: seq<Judgement>) {
    judged == [] ||
    var front, last := judged[..|judged| - 1], judged[|judged| - 1];
    NeverRejudged(front) && LastBrief(front, last.id) != Some(last.brief)
  }

  // ---------------------------------------------------------------- the orders wanted

  /** The whole units of a proposal that the risk engine approves on the snapshot, and 0 for any other. */
  ghost function ApprovedUnits(env: Env, limits: RiskLimits, p: TradeProposal, ctx: PortfolioContext): int {
    if Acceptable(env, limits, p, ctx, 1.0) then SizingFor(limits, p, ctx, 1.0).size.Floor else 0
  }

  function BuyProposal(m: MomentumCandidate, ctx: PortfolioContext): Option<TradeProposal>
    requires m.quote.Some?
  {
    BuildTradeProposal(m.quote.value, "etoro", ctx.account.equity * RISK_FRACTION_OF_EQUITY)
  }

  function LegProposal(direction: Direction, quote: Quote, ctx: PortfolioContext): Option<TradeProposal> {
    BuildLegProposal(direction, quote, "pair", ctx.account.equity * RISK_FRACTION_PER_LEG)
  }

  function BuyOrder(m: MomentumCandidate, p: TradeProposal, units: int): Order
    requires m.quote.Some?
  {
    var offer := m.quote.value.offer;
    Order(m.id, Buy, units, RoundAt(offer * 0.93, CENTS), RoundAt(offer * 1.14, CENTS), LEVERAGE,
          offer, p.stopDistance, p.limitDistance.GetOr(0.0))
  }

  function LegOrder(id: int, direction: Direction, quote: Quote, p: TradeProposal, units: int): Order {
    var levels := LegStopAndTarget(direction, LegEntryPrice(direction, quote));
    Order(id, direction, units, levels.0, levels.1, LEVERAGE,
          LegEntryPrice(direction, quote), p.stopDistance, p.limitDistance.GetOr(0.0))
  }

  /** What a candidate with a catalyst leads to. */
  ghost function WantedBuy(limits: RiskLimits, m: MomentumCandidate, p: TradeProposal, ctx: PortfolioContext)
    : (o: Option<Order>)
    requires m.quote.Some?
  {
    var units := ApprovedUnits(m.env, limits, p, ctx);
    if units > 0 then Some(BuyOrder(m, p, units)) else None
  }

  /** Both legs or none. */
  ghost function WantedLegs(
    limits: RiskLimits, sig: Pairs.PairSignal, look: PairLookup, a: TradeProposal, b: TradeProposal,
    ctx: PortfolioContext)
    : Option<(Order, Order)>
    requires look.quoteA.Some? && look.quoteB.Some?
  {
    var unitsA, unitsB := ApprovedUnits(look.envA, limits, a, ctx), ApprovedUnits(look.envB, limits, b, ctx);
    if unitsA > 0 && unitsB > 0 then
      Some((LegOrder(sig.aId, sig.directionA, look.quoteA.value, a, unitsA),
            LegOrder(sig.bId, sig.directionB, look.quoteB.value, b, unitsB)))
    else None
  }

  lemma BuyIsLevelled(m: MomentumCandidate, p: TradeProposal, units: int, ctx: PortfolioContext)
    requires m.quote.Some? && BuyProposal(m, ctx) == Some(p)
    ensures BuyOrder(m, p, units).Levelled() && p.limitDistance == Some(BuyOrder(m, p, units).limitDistance)
  {
    hide RoundAt;
    RoundAtError(m.quote.value.offer * 0.93, CENTS);
    RoundAtError(m.quote.value.offer * 1.14, CENTS);
  }

  lemma LegIsLevelled(
    id: int, direction: Direction, quote: Quote, p: TradeProposal, units: int, ctx: PortfolioContext)
    requires LegProposal(direction, quote, ctx) == Some(p)
    ensures var o := LegOrder(id, direction, quote, p, units);
            o.Levelled() && p.limitDistance == Some(o.limitDistance)
  {
    hide RoundAt;
    var entry := LegEntryPrice(direction, quote);
    RoundAtError(entry * (1.0 - LEG_STOP_PCT), CENTS);
    RoundAtError(entry * (1.0 + LEG_STOP_PCT), CENTS);
    RoundAtError(entry * (1.0 - LEG_TARGET_PCT), CENTS);
    RoundAtError(entry * (1.0 + LEG_TARGET_PCT), CENTS);
  }

  /** Orders start from the price they would trade at: the offer for BUY, the bid for SELL. */
  lemma OrdersStartAtTheQuote(
    id: int, direction: Direction, quote: Quote, p: TradeProposal, units: int, m: MomentumCandidate)
    requires m.quote.Some?
    ensures LegOrder(id, direction, quote, p, units).entry == if direction == Buy then quote.offer else quote.bid
    ensures LegOrder(id, direction, quote, p, units).direction == direction
    ensures BuyOrder(m, p, units).entry == m.quote.value.offer && BuyOrder(m, p, units).direction == Buy
  {
  }

  /** What both strategies ask the risk engine for: 7 and 14 per cent of the offer, or 4 and 7 per cent of the leg's
      price, two per cent of the equity or one, and the target less the spread and five basis points as alpha. */
  lemma ProposalsInNumbers(m: MomentumCandidate, direction: Direction, quote: Quote, ctx: PortfolioContext)
    requires m.quote.Some? && m.quote.value.offer > 0.0 && LegEntryPrice(direction, quote) > 0.0
    ensures var buy, leg := BuyProposal(m, ctx), LegProposal(direction, quote, ctx);
            var offer := m.quote.value.offer;
            var price := if direction == Buy then quote.offer else quote.bid;
            && buy.Some? && leg.Some?
            && buy.value.maxEntry == offer && buy.value.stopDistance == offer * 0.07
            && buy.value.limitDistance == Some(offer * 0.14)
            && buy.value.requestedRiskEur == Some(ctx.account.equity * 0.02)
            && buy.value.netAlphaPct == Some(0.14 - ((offer - m.quote.value.bid) / offer + 0.0005))
            && leg.value.maxEntry == price && leg.value.stopDistance == price * 0.04
            && leg.value.limitDistance == Some(price * 0.07)
            && leg.value.requestedRiskEur == Some(ctx.account.equity * 0.01)
            && leg.value.netAlphaPct == Some(0.07 - ((quote.offer - quote.bid) / price + 0.0005))
            && buy.value.timeHorizonS == 21600 == leg.value.timeHorizonS
            && buy.value.direction == Buy && leg.value.direction == direction
  {
  }

  /** The levels of a leg are strictly on their sides exactly when its prices are. */
  lemma LegOrderOnSides(id: int, direction: Direction, quote: Quote, p: TradeProposal, units: int)
    ensures LegOrder(id, direction, quote, p, units).OnSides()
            <==> OnTheirSides(direction, LegEntryPrice(direction, quote))
  {
    hide RoundAt;
  }

  /** Both legs started at one price have both levels on their sides exactly when the four per cent move passes the
      half cent; from 12.5 cents on each has. */
  lemma LegOrdersOnSides(price: real, buy: Quote, sell: Quote, p: TradeProposal, units: int)
    requires price > 0.0 && buy.offer == price && sell.bid == price
    ensures LegOrder(1, Buy, buy, p, units).OnSides() && LegOrder(2, Sell, sell, p, units).OnSides()
            <==> MovePassesHalfCent(price)
    ensures price >= 0.125 ==> MovePassesHalfCent(price)
  {
    hide OnTheirSides, MovePassesHalfCent, LegOrder;
    LegOrderOnSides(1, Buy, buy, p, units);
    LegOrderOnSides(2, Sell, sell, p, units);
    LegLevelsOnTheirSidesIff(price);
    LegLevelsOnTheirSides(price);
  }

  /** A momentum order at a price in whole cents has both levels on their sides exactly from eight cents on. */
  lemma BuyOnSidesIff(m: MomentumCandidate, p: TradeProposal, units: int, cents: int)
    requires m.quote.Some? && m.quote.value.offer * CENTS == cents as real && cents > 0
    ensures BuyOrder(m, p, units).OnSides() <==> cents >= 8
  {
    hide RoundAt, RoundHalfEven;
    var offer := m.quote.value.offer;
    LevelInCents(offer * 0.93, offer, cents as real * 0.93);
    LevelInCents(offer * 1.14, offer, cents as real * 1.14);
    RoundsToAtMost(cents as real * 0.93, cents - 1);
    RoundsToAtMost(cents as real * 1.14, cents);
  }

  lemma WantedBuyFits(limits: RiskLimits, m: MomentumCandidate, p: TradeProposal, ctx: PortfolioContext)
    requires m.quote.Some? && BuyProposal(m, ctx) == Some(p) && WantedBuy(limits, m, p, ctx).Some?
    ensures FitsSnapshot(WantedBuy(limits, m, p, ctx).value, limits, ctx)
  {
    hide FitsSnapshot, Acceptable, Order.Levelled;
    BuyIsLevelled(m, p, WantedBuy(limits, m, p, ctx).value.units, ctx);
    ApprovedOrderFits(m.env, limits, p, ctx, WantedBuy(limits, m, p, ctx).value);
  }

  lemma WantedLegsFit(
    limits: RiskLimits, sig: Pairs.PairSignal, look: PairLookup, a: TradeProposal, b: TradeProposal,
    ctx: PortfolioContext)
    requires look.quoteA.Some? && look.quoteB.Some?
    requires LegProposal(sig.directionA, look.quoteA.value, ctx) == Some(a)
    requires LegProposal(sig.directionB, look.quoteB.value, ctx) == Some(b)
    requires WantedLegs(limits, sig, look, a, b, ctx).Some?
    ensures var legs := WantedLegs(limits, sig, look, a, b, ctx).value;
            FitsSnapshot(legs.0, limits, ctx) && FitsSnapshot(legs.1, limits, ctx)
  {
    hide FitsSnapshot, Acceptable, Order.Levelled;
    var legs := WantedLegs(limits, sig, look, a, b, ctx).value;
    LegIsLevelled(sig.aId, sig.directionA, look.quoteA.value, a, legs.0.units, ctx);
    LegIsLevelled(sig.bId, sig.directionB, look.quoteB.value, b, legs.1.units, ctx);
    ApprovedOrderFits(look.envA, limits, a, ctx, legs.0);
    ApprovedOrderFits(look.envB, limits, b, ctx, legs.1);
  }

  /** Under a holding limit of less than six hours, such as the default of four, no proposal gets any units. */
  lemma NothingBelowSixHours(limits: RiskLimits, env: Env, p: TradeProposal, ctx: PortfolioContext)
    requires limits.maxHoldingTimeS < HORIZON_S && p.timeHorizonS == HORIZON_S
    ensures ApprovedUnits(env, limits, p, ctx) == 0
  {
    hide RewardOk, SlippageOk, AccountOk, SizeOk, PortfolioOk, MarginOk;
  }

  // ---------------------------------------------------------------- the momentum phase

  /** Where the momentum phase stands: everything judged so far, the orders handed to the gateway (the last one
      even if its call raised), and whether something raised. */
  datatype Progress = Progress(judged: seq<Judgement>, sent: seq<Order>, raised: bool)

  /** One candidate: skipped without a quote or with a brief already judged for it. */
  ghost function Considered(
    limits: RiskLimits, s: Progress, m: MomentumCandidate, ctx: PortfolioContext, gateway: nat -> GatewayReply)
    : Progress
  {
    if s.raised || m.quote.None? then s
    else if m.news.Failed? then s.(raised := true)
    else if LastBrief(s.judged, m.id) == Some(m.news.value) then s
    else
      var t := s.(judged := s.judged + [Judgement(m.id, m.news.value)]);
      if m.catalyst.Failed? then t.(raised := true)
      else if !m.catalyst.value then t
      else
        match BuyProposal(m, ctx)
        case None => t.(raised := true)
        case Some(p) =>
          match WantedBuy(limits, m, p, ctx)
          case None => t
          case Some(o) => t.(sent := s.sent + [o], raised := gateway(|s.sent|).Raised?)
  }

  /** A brief is remembered whatever becomes of its judgement, a raised exception included: a later cycle asks the judge
      again exactly when the brief is another one. */
  lemma FailedJudgementIsFinal(
    limits: RiskLimits, judged: seq<Judgement>, m: MomentumCandidate, ctx: PortfolioContext,
    gateway: nat -> GatewayReply, again: MomentumCandidate, later: PortfolioContext)
    requires m.quote.Some? && m.news.Got? && LastBrief(judged, m.id) != Some(m.news.value)
    requires again.id == m.id && again.quote.Some? && again.news.Got?
    ensures var t := Considered(limits, Progress(judged, [], false), m, ctx, gateway);
            var next := Progress(t.judged, [], false);
            && (m.catalyst.Failed? ==> t.raised)
            && (m.catalyst != Got(true) ==> t.sent == [])
            && (Considered(limits, next, again, later, gateway).judged != next.judged <==> again.news != m.news)
            && (again.news == m.news ==> Considered(limits, next, again, later, gateway) == next)
  {
    hide WantedBuy, BuyProposal;
    var more := judged + [Judgement(m.id, m.news.value)];
    assert more[..|judged|] == judged;
  }

  ghost function AfterMomentum(
    limits: RiskLimits, s: Progress, ms: seq<MomentumCandidate>, ctx: PortfolioContext, gateway: nat -> GatewayReply)
    : Progress
  {
    if ms == [] then s
    else
      var n := |ms| - 1;
      Considered(limits, AfterMomentum(limits, s, ms[..n], ctx, gateway), ms[n], ctx, gateway)
  }

  lemma ConsideredOnce(
    limits: RiskLimits, s: Progress, m: MomentumCandidate, ctx: PortfolioContext, gateway: nat -> GatewayReply)
    ensures var t := Considered(limits, s, m, ctx, gateway);
            && s.judged <= t.judged && |t.sent| <= |s.sent| + 1
            && (AllFit(s.sent, limits, ctx) ==> AllFit(t.sent, limits, ctx))
            && ((forall o :: o in s.sent ==> o.direction == Buy) ==> forall o :: o in t.sent ==> o.direction == Buy)
  {
    hide FitsSnapshot, ApprovedUnits;
    if m.quote.Some? && BuyProposal(m, ctx).Some? {
      var p := BuyProposal(m, ctx).value;
      if WantedBuy(limits, m, p, ctx).Some? {
        WantedBuyFits(limits, m, p, ctx);
      }
    }
  }

  /** Every order sent fits the snapshot, and there are at most as many as candidates. */
  lemma {:induction false} MomentumOrders(
    limits: RiskLimits, judged: seq<Judgement>, ms: seq<MomentumCandidate>, ctx: PortfolioContext,
    gateway: nat -> GatewayReply)
    ensures var t := AfterMomentum(limits, Progress(judged, [], false), ms, ctx, gateway);
            && judged <= t.judged && |t.sent| <= |ms|
            && AllFit(t.sent, limits, ctx) && forall o :: o in t.sent ==> o.direction == Buy
  {
    hide FitsSnapshot, Considered;
    if ms != [] {
      var n := |ms| - 1;
      MomentumOrders(limits, judged, ms[..n], ctx, gateway);
      ConsideredOnce(
        limits, AfterMomentum(limits, Progress(judged, [], false), ms[..n], ctx, gateway), ms[n], ctx, gateway);
    }
  }

  // ---------------------------------------------------------------- the pairs phase

  /** The pairs numbered k, ..., n - 1, of which the first that gets its orders ends the phase: the orders
      handed to the gateway, and whether something raised. `first` gateway calls came before. */
  ghost function PairsFrom(
    limits: RiskLimits, signals: seq<Pairs.PairSignal>, lookups: nat -> PairLookup, ctx: PortfolioContext,
    gateway: nat -> GatewayReply, first: nat, k: nat, n: nat)
    : (seq<Order>, bool)
    requires k <= n <= |signals|
    decreases n - k
  {
    if k == n then ([], false)
    else
      var sig, look := signals[k], lookups(k);
      if look.quotesRaise then ([], true)
      else if look.quoteA.None? || look.quoteB.None?
      then PairsFrom(limits, signals, lookups, ctx, gateway, first, k + 1, n)
      else
        var a := LegProposal(sig.directionA, look.quoteA.value, ctx);
        var b := LegProposal(sig.directionB, look.quoteB.value, ctx);
        if a.None? || b.None? then ([], true)
        else
          match WantedLegs(limits, sig, look, a.value, b.value, ctx)
          case None => PairsFrom(limits, signals, lookups, ctx, gateway, first, k + 1, n)
          case Some(legs) => Submitted(legs, gateway, first)
  }

  /** The two calls to the gateway, one after the other. */
  function Submitted(legs: (Order, Order), gateway: nat -> GatewayReply, first: nat): (seq<Order>, bool) {
    if gateway(first).Raised? then ([legs.0], true) else ([legs.0, legs.1], gateway(first + 1).Raised?)
  }

  /** The orders the broker confirmed, when the gateway calls for them begin with number `first`. */
  function ConfirmedOf(orders: seq<Order>, gateway: nat -> GatewayReply, first: nat): seq<Order> {
    if orders == [] then []
    else
      var n := |orders| - 1;
      ConfirmedOf(orders[..n], gateway, first) + if gateway(first + n).Confirmed? then [orders[n]] else []
  }

  /** One leg of the pair is open and the other is not. */
  predicate HalfOpen(orders: seq<Order>, gateway: nat -> GatewayReply, first: nat) {
    |ConfirmedOf(orders, gateway, first)| == 1
  }

  /** What the pairs phase hands over: nothing, or two opposite legs, the second only if the first call returns. */
  ghost predicate BothLegsOrNone(
    orders: seq<Order>, raised: bool, gateway: nat -> GatewayReply, first: nat, limits: RiskLimits,
    ctx: PortfolioContext)
  {
    && AllFit(orders, limits, ctx) && |orders| <= 2
    && (|orders| == 2 ==> orders[0].direction == orders[1].direction.Opposite())
    && (orders != [] ==> (|orders| == 1 <==> gateway(first).Raised?))
    && (|orders| == 2 ==> (raised <==> gateway(first + 1).Raised?))
    && (|orders| == 1 ==> raised)
  }

  /** The pairs phase submits both legs or none, unless the call for the first leg raises. */
  lemma {:induction false} PairsAllOrNothing(
    limits: RiskLimits, signals: seq<Pairs.PairSignal>, lookups: nat -> PairLookup, ctx: PortfolioContext,
    gateway: nat -> GatewayReply, first: nat, k: nat, n: nat)
    requires k <= n <= |signals|
    requires forall s :: s in signals ==> s.directionA == s.directionB.Opposite()
    ensures var (orders, raised) := PairsFrom(limits, signals, lookups, ctx, gateway, first, k, n);
            BothLegsOrNone(orders, raised, gateway, first, limits, ctx)
    decreases n - k
  {
    hide FitsSnapshot, ApprovedUnits;
    if k < n {
      var sig, look := signals[k], lookups(k);
      PairsAllOrNothing(limits, signals, lookups, ctx, gateway, first, k + 1, n);
      if look.quoteA.Some? && look.quoteB.Some? {
        var a := LegProposal(sig.directionA, look.quoteA.value, ctx);
        var b := LegProposal(sig.directionB, look.quoteB.value, ctx);
        if a.Some? && b.Some? && WantedLegs(limits, sig, look, a.value, b.value, ctx).Some? {
          WantedLegsFit(limits, sig, look, a.value, b.value, ctx);
        }
      }
    }
  }

  /** Once something was submitted, the pair is left half open exactly when the first leg is confirmed and the second
      is not (rejected, or its call raised), or the first is rejected and the second confirmed. */
  lemma HalfOpenIff(
    orders: seq<Order>, raised: bool, gateway: nat -> GatewayReply, first: nat, limits: RiskLimits,
    ctx: PortfolioContext)
    requires BothLegsOrNone(orders, raised, gateway, first, limits, ctx)
    ensures HalfOpen(orders, gateway, first) <==>
            && orders != []
            && (|| (gateway(first).Confirmed? && !gateway(first + 1).Confirmed?)
                || (gateway(first).Rejected? && gateway(first + 1).Confirmed?))
    ensures |ConfirmedOf(orders, gateway, first)| == 2 <==>
            orders != [] && gateway(first).Confirmed? && gateway(first + 1).Confirmed?
  {
    if orders != [] {
      var front := orders[..|orders| - 1];
      assert ConfirmedOf(front, gateway, first)
             == if |orders| == 2 && gateway(first).Confirmed? then [orders[0]] else [] by {
        if |orders| == 2 {
          assert front[..0] == [];
        }
      }
    }
  }

  /** What the broker confirmed also fits the snapshot, order by order. */
  lemma {:induction false} ConfirmedFit(
    orders: seq<Order>, gateway: nat -> GatewayReply, first: nat, limits: RiskLimits, ctx: PortfolioContext)
    requires AllFit(orders, limits, ctx)
    ensures AllFit(ConfirmedOf(orders, gateway, first), limits, ctx)
    ensures |ConfirmedOf(orders, gateway, first)| <= |orders|
  {
    hide FitsSnapshot;
    if orders != [] {
      ConfirmedFit(orders[..|orders| - 1], gateway, first, limits, ctx);
      assert orders[|orders| - 1] in orders;
    }
  }

  // ---------------------------------------------------------------- the runner

  function AtMost(n: nat, most: nat): (r: nat)
    ensures r <= n && r <= most && (r == n || r == most)
  {
    if n < most then n else most
  }

  function Tried(signals: seq<Pairs.PairSignal>): (n: nat)
    ensures n == if |signals| < 5 then |signals| else 5
  {
    AtMost(|signals|, MAX_PAIRS_TRIED_PER_CYCLE)
  }

  class Runner {
    const limits: RiskLimits
    var lastNewsSeen: map<int, string>
    ghost var judged: seq<Judgement>  // every judgement so far, over all cycles

    ghost predicate Valid()
      reads this
    {
      && NeverRejudged(judged)
      && forall id :: LastBrief(judged, id) == if id in lastNewsSeen then Some(lastNewsSeen[id]) else None
    }

    constructor (limits: RiskLimits)
      ensures Valid() && this.limits == limits && judged == []
    {
      this.limits := limits;
      lastNewsSeen, judged := map[], [];
    }

    /** Whether the brief is new for the instrument; if so it counts as judged from now on. */
    method NewsChanged(id: int, brief: string) returns (changed: bool)
      requires Valid()
      modifies this
      ensures Valid()
      ensures changed <==> LastBrief(old(judged), id) != Some(brief)
      ensures judged == if changed then old(judged) + [Judgement(id, brief)] else old(judged)
    {
      if id in lastNewsSeen && lastNewsSeen[id] == brief {
        return false;
      }
      ghost var j := Judgement(id, brief);
      assert (judged + [j])[..|judged|] == judged;
      lastNewsSeen := lastNewsSeen[id := brief];
      judged := judged + [j];
      return true;
    }

    /** The units the risk engine grants a proposal. */
    method Units(env: Env, p: TradeProposal, ctx: PortfolioContext) returns (units: int)
      ensures units > 0 <==> ApprovedUnits(env, limits, p, ctx) > 0
      ensures units > 0 ==> units == ApprovedUnits(env, limits, p, ctx)
    {
      hide Acceptable, SizingOf;
      var decision := Evaluate(env, limits, p, ctx, 1.0);
      if !decision.approved {
        return 0;
      }
      units := SizeFromDecision(decision);
    }

    /** One pass of the momentum loop. */
    method Consider(
      m: MomentumCandidate, ctx: PortfolioContext, gateway: nat -> GatewayReply, sent: seq<Order>)
      returns (newSent: seq<Order>, raised: bool)
      requires Valid()
      modifies this
      ensures Valid()
      ensures Progress(judged, newSent, raised)
              == Considered(limits, Progress(old(judged), sent, false), m, ctx, gateway)
    {
      hide ApprovedUnits, LastBrief, NeverRejudged;
      newSent, raised := sent, false;
      if m.quote.None? {
        return;
      }
      if m.news.Failed? {
        return sent, true;
      }
      var changed := NewsChanged(m.id, m.news.value);
      if !changed {
        return;
      }
      if m.catalyst.Failed? {
        return sent, true;
      }
      if !m.catalyst.value {
        return;
      }
      var proposal := BuyProposal(m, ctx);
      if proposal.None? {
        return sent, true;
      }
      var units := Units(m.env, proposal.value, ctx);
      if units <= 0 {
        return;
      }
      newSent := sent + [BuyOrder(m, proposal.value, units)];
      raised := gateway(|sent|).Raised?;
    }

    /** `gateway(k)` is what the k-th call to the gateway in this cycle comes to; `first` calls came before. The orders
        returned are those handed over; a rejection is only logged. */
    method RunPairsPhase(
      candidates: seq<Pairs.Candidate>, sqrt: real -> real, lookups: nat -> PairLookup, ctx: PortfolioContext,
      gateway: nat -> GatewayReply, first: nat)
      returns (orders: seq<Order>, raised: bool)
      ensures var signals := Pairs.Signals(candidates, sqrt);
              (orders, raised)
              == PairsFrom(limits, signals, lookups, ctx, gateway, first, 0, Tried(signals))
    {
      hide Pairs.Signals, ApprovedUnits, LegOrder, LegProposal;
      var signals := Pairs.FindPairSignals(candidates, sqrt);
      var n := Tried(signals);
      for k := 0 to n
        invariant PairsFrom(limits, signals, lookups, ctx, gateway, first, 0, n)
                  == PairsFrom(limits, signals, lookups, ctx, gateway, first, k, n)
      {
        var sig, look := signals[k], lookups(k);
        if look.quotesRaise {
          return [], true;
        }
        if look.quoteA.None? || look.quoteB.None? {
          continue;
        }
        var a := LegProposal(sig.directionA, look.quoteA.value, ctx);
        var b := LegProposal(sig.directionB, look.quoteB.value, ctx);
        if a.None? || b.None? {
          return [], true;
        }
        var unitsA := Units(look.envA, a.value, ctx);
        var unitsB := Units(look.envB, b.value, ctx);
        if unitsA <= 0 || unitsB <= 0 {
          continue;
        }
        var orderA := LegOrder(sig.aId, sig.directionA, look.quoteA.value, a.value, unitsA);
        var orderB := LegOrder(sig.bId, sig.directionB, look.quoteB.value, b.value, unitsB);
        if gateway(first).Raised? {
          return [orderA], true;
        }
        return [orderA, orderB], gateway(first + 1).Raised?;
      }
      return [], false;
    }

    /** A whole cycle: what the momentum phase and then, if nothing raised, the pairs phase lead to. At most twelve
        orders are sent, each fitting the snapshot on its own; none when the kill switch blocks or the account, the
        positions, the candles or the quotes could not be `gathered`. The pair orders are two
        opposite ones or none, unless the call for the first raises; the stale-snapshot bound holds for everything
        sent, whatever the broker makes of it. */
    method RunCycle(
      blocked: bool, gathered: bool, account: AccountState, positions: seq<BrokerPosition>,
      momentum: seq<MomentumCandidate>, candidates: seq<Pairs.Candidate>, sqrt: real -> real,
      lookups: nat -> PairLookup, gateway: nat -> GatewayReply)
      returns (bought: seq<Order>, paired: seq<Order>, raised: bool)
      requires Valid()
      modifies this
      ensures Valid() && old(judged) <= judged
      ensures blocked || !gathered ==> bought == [] && paired == [] && judged == old(judged) && raised == !blocked
      ensures var ctx := Snapshot(account, positions);
              var judgeable := momentum[..AtMost(|momentum|, MAX_JUDGED_PER_CYCLE)];
              var signals := Pairs.Signals(candidates, sqrt);
              var bid := AfterMomentum(limits, Progress(old(judged), [], false), judgeable, ctx, gateway);
              !blocked && gathered ==>
              && bought == bid.sent && judged == bid.judged
              && (paired, raised) ==
                 if bid.raised then ([], true)
                 else PairsFrom(limits, signals, lookups, ctx, gateway, |bought|, 0, Tried(signals))
      ensures |bought| <= 10 && |paired| <= 2
      ensures AllFit(bought + paired, limits, Snapshot(account, positions))
      ensures LevelsAsApproved(bought + paired)
      ensures forall o :: o in bought ==> o.direction == Buy
      ensures BothLegsOrNone(paired, raised, gateway, |bought|, limits, Snapshot(account, positions))
      ensures bought + paired != [] ==>
                var ctx := Snapshot(account, positions);
                && WithinStaleBound(bought + paired, limits, ctx)
                && |positions| + |bought + paired| <= limits.maxOpenPositions - 1 + |bought + paired|
    {
      hide FitsSnapshot, WithinStaleBound, Snapshot, Considered, PairsFrom, Pairs.Signals, LastBrief, NeverRejudged,
           AllFit, BothLegsOrNone, LevelsAsApproved;
      bought, paired, raised := [], [], false;
      if blocked || !gathered {
        raised := !blocked;
        NothingFits(raised, gateway, |bought|, limits, Snapshot(account, positions));
        assert bought + paired == [];
        FittingAreLevelled(bought + paired, limits, Snapshot(account, positions));
        return;
      }
      var ctx := Snapshot(account, positions);
      var judgeable := momentum[..AtMost(|momentum|, MAX_JUDGED_PER_CYCLE)];
      ghost var start := Progress(judged, [], false);
      for i := 0 to |judgeable|
        invariant Valid() && !raised
        invariant Progress(judged, bought, false) == AfterMomentum(limits, start, judgeable[..i], ctx, gateway)
      {
        assert judgeable[..i + 1][..i] == judgeable[..i];
        bought, raised := Consider(judgeable[i], ctx, gateway, bought);
        if raised {
          RaisedForGood(limits, start, judgeable, i + 1, ctx, gateway);
          break;
        }
      }
      assert judgeable[..|judgeable|] == judgeable;
      MomentumOrders(limits, start.judged, judgeable, ctx, gateway);
      NothingFits(raised, gateway, |bought|, limits, ctx);
      if !raised {
        paired, raised := RunPairsPhase(candidates, sqrt, lookups, ctx, gateway, |bought|);
        PhaseAllOrNothing(limits, candidates, sqrt, lookups, ctx, gateway, |bought|);
      }
      AllFitAppend(bought, paired, limits, ctx);
      FittingAreLevelled(bought + paired, limits, ctx);
      SnapshotCounts(account, positions);
      if bought + paired != [] {
        StaleSnapshotBound(bought + paired, limits, ctx);
      }
    }
  }

  lemma NothingFits(
    raised: bool, gateway: nat -> GatewayReply, first: nat, limits: RiskLimits, ctx: PortfolioContext)
    ensures AllFit([], limits, ctx) && BothLegsOrNone([], raised, gateway, first, limits, ctx)
  {
  }

  lemma {:induction false} RaisedForGood(
    limits: RiskLimits, start: Progress, ms: seq<MomentumCandidate>, k: nat, ctx: PortfolioContext,
    gateway: nat -> GatewayReply)
    requires k <= |ms| && AfterMomentum(limits, start, ms[..k], ctx, gateway).raised
    ensures AfterMomentum(limits, start, ms, ctx, gateway)
            == AfterMomentum(limits, start, ms[..k], ctx, gateway)
  {
    hide BuyProposal, WantedBuy, LastBrief;
    if k == |ms| {
      assert ms[..k] == ms;
    } else {
      var n := |ms| - 1;
      assert ms[..n][..k] == ms[..k];
      RaisedForGood(limits, start, ms[..n], k, ctx, gateway);
    }
  }

  lemma PhaseAllOrNothing(
    limits: RiskLimits, candidates: seq<Pairs.Candidate>, sqrt: real -> real, lookups: nat -> PairLookup,
    ctx: PortfolioContext, gateway: nat -> GatewayReply, first: nat)
    ensures var signals := Pairs.Signals(candidates, sqrt);
            var (orders, raised) :=
              PairsFrom(limits, signals, lookups, ctx, gateway, first, 0, Tried(signals));
            && BothLegsOrNone(orders, raised, gateway, first, limits, ctx)
            && AllFit(orders, limits, ctx) && |orders| <= 2
  {
    hide Pairs.Signals, PairsFrom, AllFit;
    var signals := Pairs.Signals(candidates, sqrt);
    forall s | s in signals
      ensures s.directionA == s.directionB.Opposite()
    {
      Pairs.SignalsFound(candidates, sqrt, s);
    }
    PairsAllOrNothing(
      limits, signals, lookups, ctx, gateway, first, 0, Tried(signals));
  }
}
