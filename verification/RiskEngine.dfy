/** The deterministic risk kernel, `RiskEngine.evaluate` of src/risk/engine.py.

    `Acceptable` says what an approval means about the account, the order and the portfolio with the new
    position in it; `Evaluate` runs the checks one after the other and is proved to approve exactly then. */
module RiskEngine {
  import opened Common
  import opened Limits
  import opened Pricing
  import opened Statistics
  import opened Exposure
  import opened Sizing
  import opened Margin

  datatype Quote = Quote(epic: string, bid: real, offer: real, ts: real, tradeable: bool, source: string) {
    function PriceFor(direction: Direction): real {
      if direction == Buy then offer else bid
    }

    function Mid(): real {
      (bid + offer) / 2.0
    }

    predicate FromBroker() {
      "ig" <= source
    }
  }

  datatype EntryType = Market | Limit | StopEntry

  datatype TradeProposal = TradeProposal(
    eventId: string,
    instrument: Instrument,
    factors: Loadings,
    direction: Direction,
    entryType: EntryType,
    quote: Quote,
    maxEntry: real,
    stopDistance: real,
    limitDistance: Option<real>,
    timeHorizonS: int,
    probability: real,
    calibratedProbability: Option<real>,
    requestedRiskEur: Option<real>,
    netAlphaPct: Option<real>,
    riskFractionOfMax: Option<real>)

  datatype PortfolioContext = PortfolioContext(
    account: AccountState,
    openPositions: seq<OpenExposure>,
    realizedPnlToday: real,
    peakEquityWeek: Option<real>,
    tradesToday: int,
    rejectedStreak: int,
    positionsForEvent: map<string, real>)
  {
    /** A missing or zero peak counts as the current equity. */
    function Peak(): real {
      if peakEquityWeek.Some? && peakEquityWeek.value != 0.0 then peakEquityWeek.value else account.equity
    }

    function OpenRiskEur(): real {
      RiskOf(openPositions)
    }
  }

  /** Everything `evaluate` reads besides its arguments: the kill switch guard, the settings, the clock, the
      factor registry, and the square root used for correlations. */
  datatype Env = Env(
    blocked: bool,
    blockedEpics: set<string>,
    blockedClasses: set<string>,
    usesRealMoney: bool,
    now: real,
    factorsOf: map<string, Loadings>,
    sqrt: real -> real)
  {
    function FactorVector(epic: string): Loadings {
      if epic in factorsOf then factorsOf[epic] else map[]
    }
  }

  const RISK_TOLERANCE := 0.000000001
  const REQUEST_TOLERANCE := 0.000001

  /** An amount of risk within a fraction of the equity, with the tolerance the code grants. */
  predicate WithinRisk(amount: real, equity: real, fraction: real) {
    amount <= equity * fraction + RISK_TOLERANCE
  }

  /** A notional within a multiple of the equity. */
  predicate WithinNotional(amount: real, equity: real, multiple: real) {
    amount <= multiple * equity
  }

  predicate AtLeastShare(amount: real, equity: real, fraction: real) {
    amount >= fraction * equity
  }

  // ---------------------------------------------------------------- what an approval means

  function BrokerMinimumStop(p: TradeProposal): real
    requires p.instrument.minStopDistance.Some?
  {
    var minimum := p.instrument.minStopDistance.value;
    if p.instrument.minStopIsPercentage then p.quote.Mid() * minimum / 100.0 else minimum
  }

  predicate TradingOk(env: Env, p: TradeProposal) {
    && !env.blocked
    && p.instrument.epic !in env.blockedEpics
    && p.instrument.assetClass !in env.blockedClasses
    && p.quote.tradeable
  }

  predicate QuoteOk(env: Env, limits: RiskLimits, q: Quote) {
    && env.now - q.ts <= (if "ig" <= q.source then limits.maxDataStalenessS else limits.maxPublicDataStalenessS)
    && q.bid > 0.0 && q.offer >= q.bid && q.source != ""
    && (env.usesRealMoney ==> "ig" <= q.source)
  }

  predicate MarketOk(env: Env, limits: RiskLimits, p: TradeProposal) {
    TradingOk(env, p) && QuoteOk(env, limits, p.quote)
  }

  /** The broker's minimum stop is in points, or in per cent of the price halfway between bid and offer. */
  predicate AboveBrokerMinimum(p: TradeProposal, minimum: real) {
    if p.instrument.minStopIsPercentage then 200.0 * p.stopDistance >= (p.quote.bid + p.quote.offer) * minimum
    else p.stopDistance >= minimum
  }

  lemma BrokerMinimumReached(p: TradeProposal)
    requires p.instrument.minStopDistance.Some?
    ensures p.stopDistance >= BrokerMinimumStop(p) <==> AboveBrokerMinimum(p, p.instrument.minStopDistance.value)
  {
    var minimum := p.instrument.minStopDistance.value;
    assert 2.0 * (p.quote.Mid() * minimum) == (p.quote.bid + p.quote.offer) * minimum by {
      HalfSum(p.quote.bid + p.quote.offer, minimum);
    }
  }

  lemma HalfSum(sum: real, factor: real)
    ensures 2.0 * ((sum / 2.0) * factor) == sum * factor
  {
    assert 2.0 * (sum / 2.0) == sum;
  }

  predicate OrderOk(limits: RiskLimits, p: TradeProposal) {
    && p.entryType != StopEntry
    && (p.stopDistance > 0.0 || !limits.requireStop)
    && (p.instrument.minStopDistance.Some? ==> AboveBrokerMinimum(p, p.instrument.minStopDistance.value))
    && (p.instrument.maxStopDistance.Some? ==> p.stopDistance <= p.instrument.maxStopDistance.value)
    && p.timeHorizonS <= limits.maxHoldingTimeS
  }

  predicate RewardOk(limits: RiskLimits, p: TradeProposal) {
    && p.limitDistance.Some?
    && p.stopDistance > 0.0
    && p.limitDistance.value / p.stopDistance >= limits.minRewardRisk
    && p.netAlphaPct.Some?
    && p.netAlphaPct.value > 0.0 && p.netAlphaPct.value >= limits.minNetAlpha
  }

  predicate SlippageOk(limits: RiskLimits, p: TradeProposal) {
    var limitPrice := WorsePrice(p.quote.PriceFor(p.direction), limits.maxSlippagePct, p.direction);
    if p.direction == Buy then p.maxEntry <= limitPrice * 1.000000001 else p.maxEntry >= limitPrice * 0.999999999
  }

  function Drawdown(ctx: PortfolioContext): real {
    if ctx.Peak() > 0.0 then (ctx.Peak() - ctx.account.equity) / ctx.Peak() else 0.0
  }

  /** The equity has fallen by less than the fraction of the week's peak; a peak that is missing or zero counts as the
      current equity, and nothing has fallen from a peak that is not positive. */
  predicate DrawdownOk(limits: RiskLimits, ctx: PortfolioContext) {
    var equity := ctx.account.equity;
    var known := ctx.peakEquityWeek.Some? && ctx.peakEquityWeek.value != 0.0;
    var peak := if known then ctx.peakEquityWeek.value else equity;
    if peak > 0.0 then peak - equity < limits.maxWeeklyDrawdown * peak else 0.0 < limits.maxWeeklyDrawdown
  }

  lemma DrawdownOkIff(limits: RiskLimits, ctx: PortfolioContext)
    ensures DrawdownOk(limits, ctx) <==> Drawdown(ctx) < limits.maxWeeklyDrawdown
  {
    if ctx.Peak() > 0.0 {
      QuotientBound(ctx.Peak() - ctx.account.equity, ctx.Peak(), limits.maxWeeklyDrawdown);
    }
  }

  predicate AccountOk(limits: RiskLimits, p: TradeProposal, ctx: PortfolioContext) {
    var equity := ctx.account.equity;
    && -ctx.realizedPnlToday < equity * limits.maxDailyLoss
    && DrawdownOk(limits, ctx)
    && |ctx.openPositions| < limits.maxOpenPositions
    && CountIn(ctx.openPositions, ByEpic(p.instrument.epic)) < limits.maxPositionsPerAsset
    && ctx.tradesToday < limits.maxTradesPerDay
    && ctx.rejectedStreak < limits.maxRejectedOrdersStreak
  }

  function Probability(p: TradeProposal): real {
    if p.calibratedProbability.Some? && p.calibratedProbability.value != 0.0
    then p.calibratedProbability.value else p.probability
  }

  function Request(p: TradeProposal, ctx: PortfolioContext, fx: real): SizingRequest {
    SizingRequest(
      p.instrument, p.quote.PriceFor(p.direction), p.direction, p.stopDistance, ctx.account.equity,
      p.requestedRiskEur, p.riskFractionOfMax.GetOr(1.0), p.limitDistance, Some(Probability(p)), fx)
  }

  function SizingFor(limits: RiskLimits, p: TradeProposal, ctx: PortfolioContext, fx: real): SizingResult
    requires p.stopDistance > 0.0
  {
    SizingOf(Request(p, ctx, fx), limits)
  }

  predicate SizeOk(limits: RiskLimits, p: TradeProposal, ctx: PortfolioContext, s: SizingResult) {
    && s.size > 0.0
    && WithinRisk(s.riskEur, ctx.account.equity, limits.maxRiskPerTrade)
    && s.riskEur <= limits.maxStakeAbs + RISK_TOLERANCE
    && (p.requestedRiskEur.Some? ==> s.riskEur <= p.requestedRiskEur.value + REQUEST_TOLERANCE)
  }

  /** The position the order would open. */
  function NewExposure(p: TradeProposal, s: SizingResult): OpenExposure {
    OpenExposure(
      p.instrument.epic, p.direction, s.notional, s.riskEur,
      p.instrument.assetClass, p.instrument.currency, Some(p.eventId), p.factors)
  }

  function CorrelatedRiskOf(env: Env, p: TradeProposal, ctx: PortfolioContext): real {
    CorrelatedOf(env.FactorVector(p.instrument.epic), p.direction, ctx.openPositions, env.sqrt)
  }

  /** The caps, read off the portfolio that already contains the new position. */
  ghost predicate PortfolioOk(env: Env, limits: RiskLimits, p: TradeProposal, ctx: PortfolioContext, s: SizingResult) {
    var equity := ctx.account.equity;
    var after := ctx.openPositions + [NewExposure(p, s)];
    && equity > 0.0
    && WithinRisk(RiskOf(after), equity, limits.maxOpenRisk)
    && WithinRisk(At(ctx.positionsForEvent, p.eventId) + s.riskEur, equity, limits.maxEventRisk)
    && WithinRisk(CorrelatedRiskOf(env, p, ctx) + s.riskEur, equity, limits.maxCorrelatedExposure)
    && WithinNotional(NotionalIn(after, Whole), equity, limits.maxEffectiveLeverage)
    && WithinNotional(NotionalIn(after, ByEpic(p.instrument.epic)), equity, limits.maxAssetExposure)
    && WithinNotional(NotionalIn(after, ByClass(p.instrument.assetClass)), equity, limits.maxAssetClassExposure)
    && WithinNotional(NotionalIn(after, ByCurrency(p.instrument.currency)), equity, limits.maxCurrencyExposure)
  }

  function Stress(env: Env, p: TradeProposal, ctx: PortfolioContext, s: SizingResult): StressInput {
    StressInput(ctx.account, s.marginRequired, s.riskEur, ctx.OpenRiskEur(), CorrelatedRiskOf(env, p, ctx))
  }

  ghost predicate MarginOk(limits: RiskLimits, q: StressInput) {
    && q.account.equity > 0.0
    && WithinNotional(q.MarginAfter(), q.account.equity, limits.maxMarginUsage)
    && AtLeastShare(q.account.equity - q.MarginAfter(), q.account.equity, limits.minFreeMargin)
    && StressPassed(q, limits)
  }

  ghost predicate Acceptable(env: Env, limits: RiskLimits, p: TradeProposal, ctx: PortfolioContext, fx: real) {
    && MarketOk(env, limits, p)
    && OrderOk(limits, p)
    && RewardOk(limits, p)
    && SlippageOk(limits, p)
    && AccountOk(limits, p, ctx)
    && var s := SizingFor(limits, p, ctx, fx);
    && SizeOk(limits, p, ctx, s)
    && PortfolioOk(env, limits, p, ctx, s)
    && MarginOk(limits, Stress(env, p, ctx, s))
  }

  // ---------------------------------------------------------------- the log of checks

  datatype RiskCheck = RiskCheck(name: string, passed: bool)

  /** The two lists `evaluate` appends to: every check, and the name of each one that failed. */
  datatype CheckLog = CheckLog(checks: seq<RiskCheck>, reasons: seq<string>) {
    predicate Passed() {
      reasons == []
    }

    ghost predicate Wf() {
      reasons == Failed(checks)
    }

    function Check(name: string, passed: bool): (r: CheckLog)
      ensures Wf() ==> r.Wf()
      ensures r.Passed() <==> Passed() && passed
    {
      assert (checks + [RiskCheck(name, passed)])[..|checks|] == checks;
      CheckLog(checks + [RiskCheck(name, passed)], if passed then reasons else reasons + [name])
    }
  }

  ghost function Failed(checks: seq<RiskCheck>): seq<string> {
    if checks == [] then []
    else
      var last := checks[|checks| - 1];
      Failed(checks[..|checks| - 1]) + if last.passed then [] else [last.name]
  }

  lemma {:induction false} NoReasonsMeansAllPassed(checks: seq<RiskCheck>)
    ensures Failed(checks) == [] <==> forall c :: c in checks ==> c.passed
  {
    if checks != [] {
      var front := checks[..|checks| - 1];
      NoReasonsMeansAllPassed(front);
      assert checks == front + [checks[|checks| - 1]];
    }
  }

  // ---------------------------------------------------------------- the checks, section by section

  method MarketChecks(env: Env, limits: RiskLimits, p: TradeProposal, log: CheckLog) returns (r: CheckLog)
    requires log.Wf()
    ensures r.Wf()
    ensures r.Passed() <==> log.Passed() && MarketOk(env, limits, p)
  {
    r := log.Check("kill_switch", !env.blocked);
    r := r.Check(
      "jurisdiction", p.instrument.epic !in env.blockedEpics && p.instrument.assetClass !in env.blockedClasses);
    r := r.Check("market_tradeable", p.quote.tradeable);
    r := QuoteChecks(env, limits, p.quote, r);
  }

  method QuoteChecks(env: Env, limits: RiskLimits, q: Quote, log: CheckLog) returns (r: CheckLog)
    requires log.Wf()
    ensures r.Wf()
    ensures r.Passed() <==> log.Passed() && QuoteOk(env, limits, q)
  {
    var broker := q.FromBroker();
    var staleness := if broker then limits.maxDataStalenessS else limits.maxPublicDataStalenessS;
    r := log.Check("data_fresh", env.now - q.ts <= staleness);
    r := r.Check("live_price", q.bid > 0.0 && q.offer >= q.bid && q.source != "");
    if env.usesRealMoney {
      r := r.Check("price_source_is_broker", broker);
    }
  }

  method OrderChecks(limits: RiskLimits, p: TradeProposal, log: CheckLog) returns (r: CheckLog)
    requires log.Wf()
    ensures r.Wf()
    ensures r.Passed() <==> log.Passed() && OrderOk(limits, p)
  {
    r := log.Check("direction_valid", p.direction == Buy || p.direction == Sell);
    r := r.Check("entry_type_valid", p.entryType == Market || p.entryType == Limit);
    r := r.Check("stop_present", p.stopDistance > 0.0 || !limits.requireStop);
    if p.instrument.minStopDistance.Some? {
      BrokerMinimumReached(p);
      r := r.Check("stop_above_broker_minimum", p.stopDistance >= BrokerMinimumStop(p));
    }
    if p.instrument.maxStopDistance.Some? {
      r := r.Check("stop_below_broker_maximum", p.stopDistance <= p.instrument.maxStopDistance.value);
    }
    r := r.Check("horizon_within_max", p.timeHorizonS <= limits.maxHoldingTimeS);
  }

  method RewardChecks(limits: RiskLimits, p: TradeProposal, log: CheckLog) returns (r: CheckLog)
    requires log.Wf()
    ensures r.Wf()
    ensures r.Passed() <==> log.Passed() && RewardOk(limits, p) && SlippageOk(limits, p)
  {
    if p.limitDistance.Some? {
      r := log.Check("reward_risk",
                     p.stopDistance > 0.0 && p.limitDistance.value / p.stopDistance >= limits.minRewardRisk);
    } else {
      r := log.Check("reward_risk", false);
    }
    if p.netAlphaPct.Some? {
      var net := p.netAlphaPct.value;
      r := r.Check("net_residual_alpha_positive", net > 0.0 && net >= limits.minNetAlpha);
    } else {
      r := r.Check("net_residual_alpha_positive", false);
    }
    var limitPrice := WorsePrice(p.quote.PriceFor(p.direction), limits.maxSlippagePct, p.direction);
    if p.direction == Buy {
      r := r.Check("max_entry_within_slippage", p.maxEntry <= limitPrice * 1.000000001);
    } else {
      r := r.Check("max_entry_within_slippage", p.maxEntry >= limitPrice * 0.999999999);
    }
  }

  /** `[p for p in open_positions if p.epic == epic]`, counted. */
  method CountSameEpic(positions: seq<OpenExposure>, epic: string) returns (n: nat)
    ensures n == CountIn(positions, ByEpic(epic))
  {
    n := 0;
    for i := 0 to |positions|
      invariant n == CountIn(positions[..i], ByEpic(epic))
    {
      assert positions[..i + 1][..i] == positions[..i];
      if positions[i].epic == epic {
        n := n + 1;
      }
    }
    assert positions[..|positions|] == positions;
  }

  method AccountChecks(limits: RiskLimits, p: TradeProposal, ctx: PortfolioContext, log: CheckLog)
    returns (r: CheckLog)
    requires log.Wf()
    ensures r.Wf()
    ensures r.Passed() <==> log.Passed() && AccountOk(limits, p, ctx)
  {
    hide Drawdown, CountIn, DrawdownOk;
    DrawdownOkIff(limits, ctx);
    var equity := ctx.account.equity;
    r := log.Check("daily_loss", -ctx.realizedPnlToday < equity * limits.maxDailyLoss);
    r := r.Check("weekly_drawdown", Drawdown(ctx) < limits.maxWeeklyDrawdown);
    r := r.Check("max_open_positions", |ctx.openPositions| < limits.maxOpenPositions);
    var same := CountSameEpic(ctx.openPositions, p.instrument.epic);
    r := r.Check("max_positions_per_asset", same < limits.maxPositionsPerAsset);
    r := r.Check("max_trades_per_day", ctx.tradesToday < limits.maxTradesPerDay);
    r := r.Check("rejected_streak", ctx.rejectedStreak < limits.maxRejectedOrdersStreak);
  }

  method SizeChecks(limits: RiskLimits, p: TradeProposal, ctx: PortfolioContext, s: SizingResult, log: CheckLog)
    returns (r: CheckLog)
    requires log.Wf()
    ensures r.Wf()
    ensures r.Passed() <==> log.Passed() && SizeOk(limits, p, ctx, s)
  {
    var equity := ctx.account.equity;
    r := log.Check("size_positive", s.size > 0.0);
    r := r.Check("risk_per_trade", WithinRisk(s.riskEur, equity, limits.maxRiskPerTrade));
    r := r.Check("risk_abs_cap", s.riskEur <= limits.maxStakeAbs + RISK_TOLERANCE);
    if p.requestedRiskEur.Some? {
      r := r.Check("requested_risk_not_exceeded", s.riskEur <= p.requestedRiskEur.value + REQUEST_TOLERANCE);
    }
  }

  method RiskChecks(
    env: Env, limits: RiskLimits, p: TradeProposal, ctx: PortfolioContext, s: SizingResult, log: CheckLog)
    returns (r: CheckLog, corrRisk: real)
    requires log.Wf()
    ensures r.Wf()
    ensures corrRisk == CorrelatedRiskOf(env, p, ctx)
    ensures r.Passed() <==>
            && log.Passed()
            && WithinRisk(ctx.OpenRiskEur() + s.riskEur, ctx.account.equity, limits.maxOpenRisk)
            && WithinRisk(At(ctx.positionsForEvent, p.eventId) + s.riskEur, ctx.account.equity, limits.maxEventRisk)
            && WithinRisk(corrRisk + s.riskEur, ctx.account.equity, limits.maxCorrelatedExposure)
  {
    var equity := ctx.account.equity;
    r := log.Check("max_open_risk", WithinRisk(ctx.OpenRiskEur() + s.riskEur, equity, limits.maxOpenRisk));
    var eventRisk := At(ctx.positionsForEvent, p.eventId);
    r := r.Check("max_event_risk", WithinRisk(eventRisk + s.riskEur, equity, limits.maxEventRisk));
    corrRisk := CorrelatedRisk(env.FactorVector(p.instrument.epic), p.direction, ctx.openPositions, env.sqrt);
    r := r.Check("max_correlated_exposure", WithinRisk(corrRisk + s.riskEur, equity, limits.maxCorrelatedExposure));
  }

  function OverEquity(amount: real, equity: real): real {
    if equity != 0.0 then amount / equity else 0.0
  }

  method ExposureChecks(
    limits: RiskLimits, p: TradeProposal, ctx: PortfolioContext, s: SizingResult, log: CheckLog)
    returns (r: CheckLog, leverage: Option<real>)
    requires log.Wf()
    ensures r.Wf()
    ensures leverage
            == EffectiveLeverage(NotionalIn(ctx.openPositions + [NewExposure(p, s)], Whole), ctx.account.equity)
    ensures var equity := ctx.account.equity;
            var after := ctx.openPositions + [NewExposure(p, s)];
            r.Passed() <==>
            && log.Passed()
            && equity > 0.0
            && WithinNotional(NotionalIn(after, Whole), equity, limits.maxEffectiveLeverage)
            && WithinNotional(NotionalIn(after, ByEpic(p.instrument.epic)), equity, limits.maxAssetExposure)
            && WithinNotional(NotionalIn(after, ByClass(p.instrument.assetClass)), equity, limits.maxAssetClassExposure)
            && WithinNotional(NotionalIn(after, ByCurrency(p.instrument.currency)), equity, limits.maxCurrencyExposure)
  {
    hide WithinNotional, OverEquity, EffectiveLeverage;
    var equity := ctx.account.equity;
    var report := BuildExposure(ctx.openPositions + [NewExposure(p, s)]);
    leverage := EffectiveLeverage(report.totalNotional, equity);
    r := log.Check("max_effective_leverage", LeverageWithin(leverage, limits.maxEffectiveLeverage));
    LeverageBound(report.totalNotional, equity, limits.maxEffectiveLeverage);
    var asset := At(report.byEpic, p.instrument.epic);
    r := r.Check("max_asset_exposure", OverEquity(asset, equity) <= limits.maxAssetExposure);
    var classTotal := At(report.byAssetClass, p.instrument.assetClass);
    r := r.Check("max_asset_class_exposure", OverEquity(classTotal, equity) <= limits.maxAssetClassExposure);
    var currency := At(report.byCurrency, p.instrument.currency);
    r := r.Check("max_currency_exposure", OverEquity(currency, equity) <= limits.maxCurrencyExposure);
    if equity > 0.0 {
      OverEquityBound(asset, equity, limits.maxAssetExposure);
      OverEquityBound(classTotal, equity, limits.maxAssetClassExposure);
      OverEquityBound(currency, equity, limits.maxCurrencyExposure);
    }
  }

  predicate LeverageWithin(leverage: Option<real>, multiple: real) {
    leverage.Some? && leverage.value <= multiple
  }

  lemma LeverageBound(amount: real, equity: real, multiple: real)
    ensures LeverageWithin(EffectiveLeverage(amount, equity), multiple)
            <==> equity > 0.0 && WithinNotional(amount, equity, multiple)
  {
    if equity > 0.0 {
      QuotientBound(amount, equity, multiple);
    }
  }

  lemma OverEquityBound(amount: real, equity: real, multiple: real)
    requires equity > 0.0
    ensures OverEquity(amount, equity) <= multiple <==> WithinNotional(amount, equity, multiple)
  {
    QuotientBound(amount, equity, multiple);
  }

  method MarginChecks(limits: RiskLimits, q: StressInput, log: CheckLog) returns (r: CheckLog, stress: MarginStress)
    requires log.Wf()
    ensures r.Wf()
    ensures q.account.equity > 0.0 ==> (r.Passed() <==> log.Passed() && MarginOk(limits, q))
    ensures r.Passed() ==> log.Passed()
  {
    hide WithinNotional, AtLeastShare;
    stress := MarginStressTest(q, limits);
    r := log.Check("margin_usage", stress.marginUsageAfter <= limits.maxMarginUsage);
    r := r.Check("min_free_margin", stress.freeMarginRatioAfter >= limits.minFreeMargin);
    var worst := Worst(stress.scenarios);
    r := r.Check("margin_stress_scenarios", worst >= limits.stressMinFreeMargin);
    if q.account.equity > 0.0 {
      MarginRatios(q.MarginAfter(), q.account.equity, limits.maxMarginUsage, limits.minFreeMargin);
      assert worst >= limits.stressMinFreeMargin <==> StressPassed(q, limits);
    }
  }

  lemma MarginRatios(margin: real, equity: real, most: real, least: real)
    requires equity > 0.0
    ensures margin / equity <= most <==> WithinNotional(margin, equity, most)
    ensures (equity - margin) / equity >= least <==> AtLeastShare(equity - margin, equity, least)
  {
    QuotientBound(margin, equity, most);
    QuotientBound(equity - margin, equity, least);
  }

  // ---------------------------------------------------------------- evaluate

  datatype RiskDecision = RiskDecision(
    approved: bool,
    size: real,
    riskEur: real,
    sizing: Option<SizingResult>,
    effectiveLeverage: Option<real>,
    checks: seq<RiskCheck>,
    rejectionReasons: seq<string>)

  /** The decision: approved exactly when the order is acceptable, with the size from the risk; otherwise a
      size of zero and the failed checks as reasons. A stop that is not positive ends the evaluation at sizing. */
  method Evaluate(env: Env, limits: RiskLimits, p: TradeProposal, ctx: PortfolioContext, fx: real)
    returns (d: RiskDecision)
    ensures d.approved <==> Acceptable(env, limits, p, ctx, fx)
    ensures d.approved ==>
              d.size == SizingFor(limits, p, ctx, fx).size && d.riskEur == SizingFor(limits, p, ctx, fx).riskEur
    ensures !d.approved ==> d.size == 0.0 && d.riskEur == 0.0
    ensures d.sizing == if p.stopDistance > 0.0 then Some(SizingFor(limits, p, ctx, fx)) else None
    ensures d.sizing.Some? ==>
              d.effectiveLeverage
              == EffectiveLeverage(
                   NotionalIn(ctx.openPositions + [NewExposure(p, d.sizing.value)], Whole), ctx.account.equity)
    ensures d.rejectionReasons == Failed(d.checks)
    ensures d.approved <==> forall c :: c in d.checks ==> c.passed
  {
    hide MarketOk, OrderOk, SlippageOk, AccountOk, SizeOk, MarginOk, SizingOf, NotionalIn, CorrelatedOf;
    var log := CheckLog([], []);
    log := MarketChecks(env, limits, p, log);
    log := OrderChecks(limits, p, log);
    log := RewardChecks(limits, p, log);
    log := AccountChecks(limits, p, ctx, log);
    var sized := ComputeSize(Request(p, ctx, fx), limits);
    if sized.None? {
      log := log.Check("sizing", false);
      NoReasonsMeansAllPassed(log.checks);
      return RiskDecision(false, 0.0, 0.0, None, None, log.checks, log.reasons);
    }
    var s := sized.value;
    log := SizeChecks(limits, p, ctx, s, log);
    var corrRisk, leverage, stress;
    log, corrRisk := RiskChecks(env, limits, p, ctx, s, log);
    log, leverage := ExposureChecks(limits, p, ctx, s, log);
    var q := StressInput(ctx.account, s.marginRequired, s.riskEur, ctx.OpenRiskEur(), corrRisk);
    log, stress := MarginChecks(limits, q, log);
    OpenTotals(ctx.openPositions, NewExposure(p, s), Whole);
    NoReasonsMeansAllPassed(log.checks);
    var approved := log.Passed();
    d := RiskDecision(
      approved, if approved then s.size else 0.0, if approved then s.riskEur else 0.0,
      Some(s), leverage, log.checks, log.reasons);
  }

  // ---------------------------------------------------------------- consequences of one approval

  /** An order is sized at the offer for BUY and at the bid for SELL, on the equity, for the requested risk, with all of
      the maximum unless a fraction is given, and with the calibrated probability if there is one. */
  lemma SizedFromProposal(limits: RiskLimits, p: TradeProposal, ctx: PortfolioContext, fx: real)
    requires p.stopDistance > 0.0
    ensures SizingFor(limits, p, ctx, fx)
            == SizingOf(
                 SizingRequest(
                   p.instrument, if p.direction == Buy then p.quote.offer else p.quote.bid, p.direction,
                   p.stopDistance, ctx.account.equity, p.requestedRiskEur,
                   if p.riskFractionOfMax.Some? then p.riskFractionOfMax.value else 1.0, p.limitDistance,
                   Some(if p.calibratedProbability.None? || p.calibratedProbability.value == 0.0 then p.probability
                        else p.calibratedProbability.value), fx),
                 limits)
  {
  }

  /** The position an order would open is on its instrument, in its direction, with the size's notional and risk. */
  lemma OpensWhatWasAsked(p: TradeProposal, s: SizingResult)
    ensures var o := NewExposure(p, s);
            && o.epic == p.instrument.epic && o.direction == p.direction
            && o.notional == s.notional && o.riskEur == s.riskEur
            && o.assetClass == p.instrument.assetClass && o.currency == p.instrument.currency
            && o.eventId == Some(p.eventId) && o.factors == p.factors
  {
  }

  /** The worst entry an approved order allows is within the slippage of the quote it would trade at, to a billionth. */
  lemma ApprovedEntryWithinSlippage(env: Env, limits: RiskLimits, p: TradeProposal, ctx: PortfolioContext, fx: real)
    requires Acceptable(env, limits, p, ctx, fx)
    ensures p.direction == Buy ==>
              p.maxEntry <= (p.quote.offer + limits.maxSlippagePct * p.quote.offer) * 1.000000001
    ensures p.direction == Sell ==>
              p.maxEntry >= (p.quote.bid - limits.maxSlippagePct * p.quote.bid) * 0.999999999
  {
    hide MarketOk, OrderOk, RewardOk, AccountOk, SizeOk, PortfolioOk, MarginOk, SizingFor, WorsePrice;
    WorsePriceCosts(p.quote.PriceFor(p.direction), limits.maxSlippagePct, p.direction);
  }

  /** The caps in numbers: the risk and the notional of the portfolio with the order in it, and the margin. */
  lemma ApprovedInNumbers(env: Env, limits: RiskLimits, p: TradeProposal, ctx: PortfolioContext, fx: real)
    requires Acceptable(env, limits, p, ctx, fx)
    ensures var s, equity := SizingFor(limits, p, ctx, fx), ctx.account.equity;
            && s.riskEur <= equity * limits.maxRiskPerTrade + 0.000000001
            && s.riskEur <= limits.maxStakeAbs + 0.000000001
            && (p.requestedRiskEur.Some? ==> s.riskEur <= p.requestedRiskEur.value + 0.000001)
            && RiskOf(ctx.openPositions) + s.riskEur <= equity * limits.maxOpenRisk + 0.000000001
            && At(ctx.positionsForEvent, p.eventId) + s.riskEur <= equity * limits.maxEventRisk + 0.000000001
            && NotionalIn(ctx.openPositions, Whole) + s.notional <= limits.maxEffectiveLeverage * equity
            && NotionalIn(ctx.openPositions, ByEpic(p.instrument.epic)) + s.notional <= limits.maxAssetExposure * equity
            && ctx.account.marginUsed + s.marginRequired <= limits.maxMarginUsage * equity
            && equity - (ctx.account.marginUsed + s.marginRequired) >= limits.minFreeMargin * equity
  {
    hide MarketOk, OrderOk, SlippageOk, AccountOk, SizingFor, StressPassed, NotionalIn, RiskOf, CorrelatedOf;
    var after := NewExposure(p, SizingFor(limits, p, ctx, fx));
    OpenTotals(ctx.openPositions, after, Whole);
    OpenTotals(ctx.openPositions, after, ByEpic(p.instrument.epic));
  }

  /** An approved order has a positive size and a non-negative exposure, and the account has equity left. */
  lemma ApprovedExposure(env: Env, limits: RiskLimits, p: TradeProposal, ctx: PortfolioContext, fx: real)
    requires Acceptable(env, limits, p, ctx, fx)
    ensures ctx.account.equity > 0.0
    ensures var s := SizingFor(limits, p, ctx, fx); s.size > 0.0 && s.riskEur > 0.0 && s.notional >= 0.0
  {
    PositiveSizeSigns(Request(p, ctx, fx), limits);
  }

  /** A bet repeated on the same factors is refused once its open risk and the new one exceed the correlated cap. */
  lemma RepeatedBetRefused(env: Env, limits: RiskLimits, p: TradeProposal, ctx: PortfolioContext, fx: real)
    requires IsRoot(env.sqrt) && NonNegative(ctx.openPositions) && p.stopDistance > 0.0
    requires p.instrument.epic in env.factorsOf
    requires var base := env.factorsOf[p.instrument.epic];
             && Product(base, base) > 0.0
             && !WithinRisk(SameBetRisk(base, p.direction, ctx.openPositions) + SizingFor(limits, p, ctx, fx).riskEur,
                            ctx.account.equity, limits.maxCorrelatedExposure)
    ensures !Acceptable(env, limits, p, ctx, fx)
  {
    hide SizingFor, Product, WithinRisk, Acceptable;
    var base := env.FactorVector(p.instrument.epic);
    var risk := SizingFor(limits, p, ctx, fx).riskEur;
    SameBetsCount(base, p.direction, ctx.openPositions, env.sqrt);
    LessRiskWithin(
      SameBetRisk(base, p.direction, ctx.openPositions) + risk, CorrelatedRiskOf(env, p, ctx) + risk,
      ctx.account.equity, limits.maxCorrelatedExposure);
    AcceptedCorrelation(env, limits, p, ctx, fx);
  }

  lemma LessRiskWithin(less: real, more: real, equity: real, fraction: real)
    requires less <= more
    ensures WithinRisk(more, equity, fraction) ==> WithinRisk(less, equity, fraction)
  {
  }

  lemma AcceptedCorrelation(env: Env, limits: RiskLimits, p: TradeProposal, ctx: PortfolioContext, fx: real)
    requires p.stopDistance > 0.0
    ensures Acceptable(env, limits, p, ctx, fx) ==>
              WithinRisk(CorrelatedRiskOf(env, p, ctx) + SizingFor(limits, p, ctx, fx).riskEur,
                         ctx.account.equity, limits.maxCorrelatedExposure)
  {
    hide SizingFor, WithinRisk, CorrelatedRiskOf, MarketOk, OrderOk, RewardOk, SlippageOk, AccountOk, SizeOk, MarginOk;
  }

  /** What is free after the margin is at least that share of what is left. */
  predicate LeavesFree(left: real, margin: real, share: real) {
    left - margin >= share * left
  }

  /** The largest loss the stress test models, over all the scenarios. */
  ghost predicate CoveredLoss(q: StressInput, limits: RiskLimits, loss: real) {
    exists s :: Tested(s, limits) && loss <= q.LossIn(s)
  }

  /** That many times the loss of the new order at its stop. */
  ghost predicate CoversShock(q: StressInput, limits: RiskLimits, r: real) {
    CoveredLoss(q, limits, q.newRiskEur * r)
  }

  /** After an approval, any loss up to the largest modelled one leaves equity and free margin; losing every open
      stop together with the new one is among them, and at least as bad as the correlated stops. */
  lemma ApprovedSurvivesStress(
    env: Env, limits: RiskLimits, p: TradeProposal, ctx: PortfolioContext, fx: real, loss: real)
    requires limits.Valid() && Acceptable(env, limits, p, ctx, fx)
    requires ctx.account.marginUsed >= 0.0 && p.instrument.marginFactor >= 0.0
    requires NonNegative(ctx.openPositions)
    ensures var s := SizingFor(limits, p, ctx, fx);
            var q := Stress(env, p, ctx, s);
            && q.LossIn(CorrelatedStops) <= q.LossIn(AllStops)
            && CoveredLoss(q, limits, RiskOf(ctx.openPositions) + s.riskEur)
            && CoveredLoss(q, limits, CorrelatedRiskOf(env, p, ctx) + s.riskEur)
            && (forall r :: r in limits.stressScenariosR ==> CoversShock(q, limits, r))
            && (CoveredLoss(q, limits, loss) ==>
                  && ctx.account.equity - loss > 0.0
                  && LeavesFree(ctx.account.equity - loss, ctx.account.marginUsed + s.marginRequired,
                                limits.stressMinFreeMargin - 0.00005))
  {
    hide SizingFor, RiskOf, CorrelatedOf, MarketOk, OrderOk, SlippageOk, AccountOk, PortfolioOk, SizeOk, StressPassed;
    var s := SizingFor(limits, p, ctx, fx);
    var q := Stress(env, p, ctx, s);
    ApprovedMargin(env, limits, p, ctx, fx);
    CorrelatedWithinOpenRisk(env.FactorVector(p.instrument.epic), p.direction, ctx.openPositions, env.sqrt);
    EveryScenarioCovers(q, limits);
    if CoveredLoss(q, limits, loss) {
      CoveredIsSurvived(q, limits, loss);
    }
  }

  lemma ApprovedMargin(env: Env, limits: RiskLimits, p: TradeProposal, ctx: PortfolioContext, fx: real)
    requires Acceptable(env, limits, p, ctx, fx) && p.instrument.marginFactor >= 0.0
    ensures SizingFor(limits, p, ctx, fx).marginRequired >= 0.0
    ensures StressPassed(Stress(env, p, ctx, SizingFor(limits, p, ctx, fx)), limits)
  {
    PositiveSizeSigns(Request(p, ctx, fx), limits);
  }

  /** What each scenario loses. */
  ghost predicate ScenarioLosses(q: StressInput) {
    && (forall r :: q.LossIn(Shock(r)) == q.newRiskEur * r)
    && q.LossIn(CorrelatedStops) == q.newRiskEur + q.correlatedRiskEur
    && q.LossIn(AllStops) == q.newRiskEur + q.openRiskEur
  }

  lemma EveryScenarioCovers(q: StressInput, limits: RiskLimits)
    ensures CoveredLoss(q, limits, q.newRiskEur + q.openRiskEur)
    ensures CoveredLoss(q, limits, q.newRiskEur + q.correlatedRiskEur)
    ensures ScenarioLosses(q)
    ensures forall r :: r in limits.stressScenariosR ==> CoversShock(q, limits, r)
  {
    assert Tested(AllStops, limits) && Tested(CorrelatedStops, limits);
    forall r | r in limits.stressScenariosR
      ensures CoversShock(q, limits, r)
    {
      assert Tested(Shock(r), limits) && q.newRiskEur * r <= q.LossIn(Shock(r));
    }
  }

  lemma CoveredIsSurvived(q: StressInput, limits: RiskLimits, loss: real)
    requires limits.stressMinFreeMargin > 0.0 && StressPassed(q, limits) && q.account.marginUsed + q.newMargin >= 0.0
    requires CoveredLoss(q, limits, loss)
    ensures q.account.equity - loss > 0.0
    ensures LeavesFree(
              q.account.equity - loss, q.account.marginUsed + q.newMargin, limits.stressMinFreeMargin - 0.00005)
  {
    hide StressPassed;
    var worst :| Tested(worst, limits) && loss <= q.LossIn(worst);
    StressSound(q, limits, worst, loss);
    QuotientBound(
      q.account.equity - loss - q.MarginAfter(), q.account.equity - loss, limits.stressMinFreeMargin - 0.00005);
  }
}
