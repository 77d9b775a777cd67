/** Event backtest (src/evaluation/backtest.py): decision, sizing, exit scan and equity carry over a list of events.

    `Simulate` runs the event loop; it is proved equal to the fold `RunEvents`, about which the promises are
    proved: no lookahead over whole runs, the exact result of each kind of exit, and conservation. */
module Backtest {
  import opened Common
  import opened Features
  import opened Pricing

  datatype Event = Event(ts: int, epic: string, direction: Direction, expectedMovePct: real)

  datatype Instrument = Instrument(spread: Option<real>, valuePerPoint: real, minSize: real, sizeStep: real) {
    function HalfSpread(): real {
      spread.GetOr(0.0) / 2.0
    }
  }

  datatype Params = Params(
    riskPerTrade: real, decisionDelayS: int, stopVolMultiple: real, rewardRisk: real,
    holdingS: int, slippagePct: real, minNetAlphaPct: real)

  /** Instruments and the mathematics of the volatility. */
  datatype Market = Market(instruments: map<string, Instrument>, maths: Maths)

  type Prices = map<string, Series>

  datatype Reason = StopHit | TargetHit | TimeStop

  datatype Trade = Trade(
    ts: int, epic: string, direction: Direction, entry: real, exit: real, exitTs: int, reason: Reason,
    size: real, riskEur: real, pnl: real, expectedMovePct: real, realizedAtEntryPct: real, residualPct: real)

  datatype Skip = NoData | NoPrice | NoResidualAlpha | NoExitPrice

  // ---------------------------------------------------------------- the decision

  /** Everything fixed at decision time. */
  datatype Plan = Plan(
    direction: Direction, entry: real, stopPoints: real, targetPoints: real, size: real, riskEur: real,
    halfSpread: real, valuePerPoint: real, expected: real, realized: real, residual: real)
  {
    function StopPrice(): real {
      if direction == Buy then entry - stopPoints else entry + stopPoints
    }

    function TargetPrice(): real {
      if direction == Buy then entry + targetPoints else entry - targetPoints
    }

    /** The price at which the position would be closed when the market is at `mid`. */
    function ExitPrice(mid: real): real {
      if direction == Buy then mid - halfSpread else mid + halfSpread
    }

    predicate HitsStop(mid: real) {
      if direction == Buy then ExitPrice(mid) <= StopPrice() else ExitPrice(mid) >= StopPrice()
    }

    predicate HitsTarget(mid: real) {
      if direction == Buy then ExitPrice(mid) >= TargetPrice() else ExitPrice(mid) <= TargetPrice()
    }

    function Pnl(exit: real): real {
      PnlMoney(entry, exit, direction, size, valuePerPoint)
    }
  }

  datatype Decision = NoTrade(skip: Skip) | DividesByZero | Go(plan: Plan)

  function DecisionTs(event: Event, params: Params): int {
    event.ts + params.decisionDelayS
  }

  function Deadline(event: Event, params: Params): int {
    DecisionTs(event, params) + params.holdingS
  }

  /** A price that is missing or zero is no price. */
  predicate Unusable(price: Option<real>) {
    price.None? || price.value == 0.0
  }

  /** The relative stop: a multiple of the volatility (0.001 when unknown or zero), at least 8 basis points. */
  function StopPct(volatility: Option<real>, params: Params): real {
    var vol := if volatility.Some? && volatility.value != 0.0 then volatility.value else 0.001;
    Max(0.0008, vol * params.stopVolMultiple)
  }

  function StopPoints(entry: real, volatility: Option<real>, params: Params): real {
    entry * StopPct(volatility, params)
  }

  function RiskBudget(equity: real, params: Params): real {
    equity * params.riskPerTrade
  }

  function EntryPrice(at: real, instrument: Instrument, direction: Direction, params: Params): real {
    if direction == Buy then (at + instrument.HalfSpread()) * (1.0 + params.slippagePct)
    else (at - instrument.HalfSpread()) * (1.0 - params.slippagePct)
  }

  function RoundedSize(size: real, instrument: Instrument): real
    requires instrument.sizeStep != 0.0
  {
    Max(instrument.minSize, Steps(RoundHalfEven(size / instrument.sizeStep), instrument.sizeStep))
  }

  function RawSize(risk: real, unit: real): real
    requires unit != 0.0
  {
    risk / unit
  }

  function LossPerUnit(stopPoints: real, instrument: Instrument): real {
    stopPoints * instrument.valuePerPoint
  }

  function Realized(before: real, at: real, direction: Direction): real
    requires before != 0.0
  {
    (at / before - 1.0) * direction.Sign()
  }

  /** From the two prices and the volatility to the plan of the trade. */
  function PlanFor(
    before: real, at: real, volatility: Option<real>, instrument: Instrument, event: Event, equity: real,
    params: Params)
    : Decision
    requires before != 0.0 && at != 0.0
  {
    var realized := Realized(before, at, event.direction);
    var expected := Abs(event.expectedMovePct);
    var residual := expected - realized;
    var net := residual - instrument.spread.GetOr(0.0) / at - params.slippagePct;
    if net < params.minNetAlphaPct then NoTrade(NoResidualAlpha)
    else
      var entry := EntryPrice(at, instrument, event.direction, params);
      var stopPoints := StopPoints(entry, volatility, params);
      var unit := LossPerUnit(stopPoints, instrument);
      if unit == 0.0 || instrument.sizeStep == 0.0 then DividesByZero
      else
        var size := RoundedSize(RawSize(RiskBudget(equity, params), unit), instrument);
        Go(Plan(event.direction, entry, stopPoints, stopPoints * params.rewardRisk, size,
                RiskAt(size, stopPoints, instrument.valuePerPoint), instrument.HalfSpread(), instrument.valuePerPoint,
                expected, realized, residual))
  }

  function RiskAt(size: real, stopPoints: real, valuePerPoint: real): real {
    size * stopPoints * valuePerPoint
  }

  function Decide(series: Series, instrument: Instrument, event: Event, equity: real, market: Market, params: Params)
    : Decision
  {
    var before := Latest(Sorted(series), event.ts - 1);
    var at := Latest(Sorted(series), DecisionTs(event, params));
    if Unusable(before) || Unusable(at) then NoTrade(NoPrice)
    else
      var volatility := RealizedVolatility(series, 3600, DecisionTs(event, params), market.maths);
      PlanFor(before.value, at.value, volatility, instrument, event, equity, params)
  }

  // ---------------------------------------------------------------- the exit

  datatype Exit = Exit(price: real, ts: int, reason: Reason)

  /** The first point after the decision that hits, reading the series in its own order up to the first point
      after the deadline. The stop is looked at before the target. */
  function FirstHit(s: Series, plan: Plan, decisionTs: int, deadline: int): Option<Exit> {
    if s == [] then None
    else
      var p := s[0];
      if p.ts <= decisionTs then FirstHit(s[1..], plan, decisionTs, deadline)
      else if p.ts > deadline then None
      else if plan.HitsStop(p.value) then Some(Exit(plan.StopPrice(), p.ts, StopHit))
      else if plan.HitsTarget(p.value) then Some(Exit(plan.TargetPrice(), p.ts, TargetHit))
      else FirstHit(s[1..], plan, decisionTs, deadline)
  }

  method FindHit(series: Series, plan: Plan, decisionTs: int, deadline: int) returns (exit: Option<Exit>)
    ensures exit == FirstHit(series, plan, decisionTs, deadline)
  {
    exit := None;
    for i := 0 to |series|
      invariant exit == None
      invariant FirstHit(series, plan, decisionTs, deadline) == FirstHit(series[i..], plan, decisionTs, deadline)
    {
      var p := series[i];
      assert series[i..][1..] == series[i + 1..];
      if p.ts > decisionTs {
        if p.ts > deadline {
          break;
        }
        if plan.HitsStop(p.value) {
          exit := Some(Exit(plan.StopPrice(), p.ts, StopHit));
          break;
        }
        if plan.HitsTarget(p.value) {
          exit := Some(Exit(plan.TargetPrice(), p.ts, TargetHit));
          break;
        }
      }
    }
  }

  /** Without a hit, the position is closed at the deadline at the last known price. */
  function ExitOf(series: Series, plan: Plan, decisionTs: int, deadline: int): Option<Exit> {
    var hit := FirstHit(series, plan, decisionTs, deadline);
    if hit.Some? then hit
    else
      var last := Latest(Sorted(series), deadline);
      if last.None? then None else Some(Exit(plan.ExitPrice(last.value), deadline, TimeStop))
  }

  // ---------------------------------------------------------------- one event and the loop

  datatype Outcome = Skipped(skip: Skip) | Crashed | Done(trade: Trade)

  function SeriesOf(prices: Prices, epic: string): Series {
    if epic in prices then prices[epic] else []
  }

  function TradeOf(event: Event, plan: Plan, exit: Exit): Trade {
    Trade(event.ts, event.epic, event.direction, plan.entry, exit.price, exit.ts, exit.reason, plan.size, plan.riskEur,
          plan.Pnl(exit.price), plan.expected, plan.realized, plan.residual)
  }

  function OutcomeOf(market: Market, params: Params, prices: Prices, event: Event, equity: real): Outcome {
    var series := SeriesOf(prices, event.epic);
    if series == [] || event.epic !in market.instruments then Skipped(NoData)
    else
      match Decide(series, market.instruments[event.epic], event, equity, market, params)
      case NoTrade(skip) => Skipped(skip)
      case DividesByZero => Crashed
      case Go(plan) =>
        var exit := ExitOf(series, plan, DecisionTs(event, params), Deadline(event, params));
        if exit.None? then Skipped(NoExitPrice) else Done(TradeOf(event, plan, exit.value))
  }

  /** The carried state; a crash is the ZeroDivisionError that ends the whole simulation. */
  datatype Book = Book(trades: seq<Trade>, skipped: map<Skip, nat>, equity: real)

  function SkipCount(skipped: map<Skip, nat>, skip: Skip): nat {
    if skip in skipped then skipped[skip] else 0
  }

  function Record(book: Book, outcome: Outcome): Option<Book> {
    match outcome
    case Crashed => None
    case Skipped(skip) => Some(book.(skipped := book.skipped[skip := SkipCount(book.skipped, skip) + 1]))
    case Done(trade) => Some(book.(trades := book.trades + [trade], equity := book.equity + trade.pnl))
  }

  function RunEvents(market: Market, params: Params, prices: Prices, events: seq<Event>, equity: real): Option<Book> {
    if events == [] then Some(Book([], map[], equity))
    else
      match RunEvents(market, params, prices, events[..|events| - 1], equity)
      case None => None
      case Some(book) => Record(book, OutcomeOf(market, params, prices, events[|events| - 1], book.equity))
  }

  /** The body of the event loop up to the point where it skips, raises or has a trade. */
  method PlayEvent(market: Market, params: Params, prices: Prices, event: Event, equity: real) returns (r: Outcome)
    ensures r == OutcomeOf(market, params, prices, event, equity)
  {
    var series := SeriesOf(prices, event.epic);
    if series == [] || event.epic !in market.instruments {
      return Skipped(NoData);
    }
    var decision := Decide(series, market.instruments[event.epic], event, equity, market, params);
    if decision.NoTrade? {
      return Skipped(decision.skip);
    }
    if decision.DividesByZero? {
      return Crashed;
    }
    var deadline := DecisionTs(event, params) + params.holdingS;
    var exit := FindHit(series, decision.plan, DecisionTs(event, params), deadline);
    if exit.None? {
      var last := PriceAtOrBefore(series, deadline);
      if last.None? {
        return Skipped(NoExitPrice);
      }
      exit := Some(Exit(decision.plan.ExitPrice(last.value), deadline, TimeStop));
    }
    r := Done(TradeOf(event, decision.plan, exit.value));
  }

  /** The event loop. None when the run ends in a division by zero. */
  method Simulate(market: Market, params: Params, prices: Prices, events: seq<Event>, equityStart: real)
    returns (r: Option<Book>)
    ensures r == RunEvents(market, params, prices, events, equityStart)
  {
    hide OutcomeOf;
    var trades: seq<Trade>, skipped: map<Skip, nat>, equity := [], map[], equityStart;
    for i := 0 to |events|
      invariant RunEvents(market, params, prices, events[..i], equityStart) == Some(Book(trades, skipped, equity))
    {
      var outcome := PlayEvent(market, params, prices, events[i], equity);
      RunStep(market, params, prices, events, equityStart, i, Book(trades, skipped, equity), outcome);
      match outcome {
        case Skipped(skip) =>
          skipped := skipped[skip := SkipCount(skipped, skip) + 1];
        case Crashed =>
          CrashIsFinal(market, params, prices, events, equityStart, i + 1);
          return None;
        case Done(trade) =>
          trades := trades + [trade];
          equity := equity + trade.pnl;
      }
    }
    assert events[..|events|] == events;
    r := Some(Book(trades, skipped, equity));
  }

  lemma RunStep(
    market: Market, params: Params, prices: Prices, events: seq<Event>, equity: real, i: nat, book: Book,
    outcome: Outcome)
    requires i < |events| && RunEvents(market, params, prices, events[..i], equity) == Some(book)
    requires outcome == OutcomeOf(market, params, prices, events[i], book.equity)
    ensures RunEvents(market, params, prices, events[..i + 1], equity) == Record(book, outcome)
  {
    assert events[..i + 1][..i] == events[..i];
  }

  lemma {:induction false} CrashIsFinal(
    market: Market, params: Params, prices: Prices, events: seq<Event>, equity: real, k: nat)
    requires k <= |events| && RunEvents(market, params, prices, events[..k], equity).None?
    ensures RunEvents(market, params, prices, events, equity).None?
  {
    if k == |events| {
      assert events[..k] == events;
    } else {
      var front := events[..|events| - 1];
      assert front[..k] == events[..k];
      CrashIsFinal(market, params, prices, front, equity, k);
    }
  }
}
