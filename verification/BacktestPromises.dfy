/** What the backtest promises about whole runs: conservation, the result of each exit, and no lookahead. */
module BacktestPromises {
  import opened Common
  import opened Features
  import opened Pricing
  import opened Backtest

  // ---------------------------------------------------------------- conservation

  function TotalPnl(trades: seq<Trade>): real {
    if trades == [] then 0.0 else TotalPnl(trades[..|trades| - 1]) + trades[|trades| - 1].pnl
  }

  function TotalSkipped(skipped: map<Skip, nat>): nat {
    SkipCount(skipped, NoData) + SkipCount(skipped, NoPrice)
    + SkipCount(skipped, NoResidualAlpha) + SkipCount(skipped, NoExitPrice)
  }

  lemma SkipAddsOne(skipped: map<Skip, nat>, skip: Skip)
    ensures TotalSkipped(skipped[skip := SkipCount(skipped, skip) + 1]) == TotalSkipped(skipped) + 1
  {
    var after := skipped[skip := SkipCount(skipped, skip) + 1];
    assert SkipCount(after, NoData) == SkipCount(skipped, NoData) + if skip == NoData then 1 else 0;
    assert SkipCount(after, NoPrice) == SkipCount(skipped, NoPrice) + if skip == NoPrice then 1 else 0;
    assert SkipCount(after, NoResidualAlpha)
           == SkipCount(skipped, NoResidualAlpha) + if skip == NoResidualAlpha then 1 else 0;
  }

  lemma RecordConserves(book: Book, outcome: Outcome)
    requires Record(book, outcome).Some?
    ensures var after := Record(book, outcome).value;
            && |after.trades| + TotalSkipped(after.skipped) == |book.trades| + TotalSkipped(book.skipped) + 1
            && after.equity - TotalPnl(after.trades) == book.equity - TotalPnl(book.trades)
  {
    match outcome
    case Done(trade) => assert (book.trades + [trade])[..|book.trades|] == book.trades;
    case Skipped(skip) => SkipAddsOne(book.skipped, skip);
    case Crashed =>
  }

  /** Every event ends as one trade or one skip, and the carried equity is the start plus all the results. */
  lemma {:induction false} RunConserves(
    market: Market, params: Params, prices: Prices, events: seq<Event>, equity: real)
    requires RunEvents(market, params, prices, events, equity).Some?
    ensures var book := RunEvents(market, params, prices, events, equity).value;
            && |book.trades| + TotalSkipped(book.skipped) == |events|
            && book.equity == equity + TotalPnl(book.trades)
  {
    hide OutcomeOf, Record;
    if events != [] {
      var front := events[..|events| - 1];
      RunConserves(market, params, prices, front, equity);
      var book := RunEvents(market, params, prices, front, equity).value;
      RecordConserves(book, OutcomeOf(market, params, prices, events[|events| - 1], book.equity));
    }
  }

  /** With a holding time that is not negative an exit price is always known, so that skip never happens. */
  lemma ExitPriceAlwaysKnown(market: Market, params: Params, prices: Prices, event: Event, equity: real)
    requires params.holdingS >= 0
    ensures OutcomeOf(market, params, prices, event, equity) != Skipped(NoExitPrice)
  {
    hide PlanFor, FirstHit;
    if event.epic in market.instruments {
      PlanNeverLacksExit(market, params, prices, event, equity);
    }
  }

  lemma PlanNeverLacksExit(market: Market, params: Params, prices: Prices, event: Event, equity: real)
    requires params.holdingS >= 0 && event.epic in market.instruments
    ensures var instrument := market.instruments[event.epic];
            var d := Decide(SeriesOf(prices, event.epic), instrument, event, equity, market, params);
            && d != NoTrade(NoExitPrice)
            && (d.Go? ==> Latest(Sorted(SeriesOf(prices, event.epic)), Deadline(event, params)).Some?)
  {
    LaterStillKnown(Sorted(SeriesOf(prices, event.epic)), DecisionTs(event, params), Deadline(event, params));
  }

  lemma {:induction false} LaterStillKnown(s: Series, t: int, later: int)
    requires t <= later
    ensures Latest(s, t).Some? ==> Latest(s, later).Some?
  {
    if s != [] {
      LaterStillKnown(s[..|s| - 1], t, later);
    }
  }

  // ---------------------------------------------------------------- what each exit pays

  /** The two amounts every plan made by `PlanFor` carries. */
  ghost predicate Planned(
    plan: Plan, params: Params, event: Event, valuePerPoint: real, halfSpread: real, minSize: real)
  {
    && plan.direction == event.direction && plan.size >= minSize
    && plan.valuePerPoint == valuePerPoint && plan.halfSpread == halfSpread
    && plan.riskEur == RiskAt(plan.size, plan.stopPoints, plan.valuePerPoint)
    && plan.targetPoints == plan.stopPoints * params.rewardRisk
  }

  lemma DecideMakesPlanned(
    series: Series, instrument: Instrument, event: Event, equity: real, market: Market, params: Params)
    requires Decide(series, instrument, event, equity, market, params).Go?
    ensures Planned(Decide(series, instrument, event, equity, market, params).plan, params, event,
                    instrument.valuePerPoint, instrument.HalfSpread(), instrument.minSize)
  {
  }

  /** A move of `points` in favour of the position is worth that many points times the value of the position. */
  lemma PnlOfPoints(plan: Plan, exit: real, points: real)
    requires exit == if plan.direction == Buy then plan.entry + points else plan.entry - points
    ensures plan.Pnl(exit) == points * (plan.size * plan.valuePerPoint)
  {
    assert PnlPoints(plan.entry, exit, plan.direction) == points;
    assert points * plan.size * plan.valuePerPoint == points * (plan.size * plan.valuePerPoint);
  }

  lemma LevelsPay(plan: Plan, params: Params, event: Event, valuePerPoint: real, halfSpread: real, minSize: real)
    requires Planned(plan, params, event, valuePerPoint, halfSpread, minSize)
    ensures plan.Pnl(plan.StopPrice()) == -plan.riskEur
    ensures plan.Pnl(plan.TargetPrice()) == params.rewardRisk * plan.riskEur
  {
    var worth := plan.size * plan.valuePerPoint;
    PnlOfPoints(plan, plan.StopPrice(), -plan.stopPoints);
    PnlOfPoints(plan, plan.TargetPrice(), plan.targetPoints);
    assert plan.riskEur == plan.stopPoints * worth;
    assert plan.targetPoints * worth == params.rewardRisk * (plan.stopPoints * worth);
  }

  lemma {:induction false} HitsAreInTime(s: Series, plan: Plan, decisionTs: int, deadline: int)
    ensures var hit := FirstHit(s, plan, decisionTs, deadline);
            hit.Some? ==>
              && decisionTs < hit.value.ts <= deadline
              && (|| (hit.value.reason == StopHit && hit.value.price == plan.StopPrice())
                  || (hit.value.reason == TargetHit && hit.value.price == plan.TargetPrice()))
  {
    if s != [] {
      HitsAreInTime(s[1..], plan, decisionTs, deadline);
    }
  }

  /** A stopped trade loses exactly its risk, a target pays exactly reward/risk times it; both happen after the
      decision and not after the deadline, while a time stop happens at the deadline. */
  lemma ExitPays(market: Market, params: Params, prices: Prices, event: Event, equity: real, t: Trade)
    requires OutcomeOf(market, params, prices, event, equity) == Done(t)
    ensures t.reason == StopHit ==> t.pnl == -t.riskEur
    ensures t.reason == TargetHit ==> t.pnl == params.rewardRisk * t.riskEur
    ensures t.reason == TimeStop ==> t.exitTs == event.ts + params.decisionDelayS + params.holdingS
    ensures t.reason != TimeStop ==>
              event.ts + params.decisionDelayS < t.exitTs <= event.ts + params.decisionDelayS + params.holdingS
  {
    hide FirstHit, Decide;
    var series := SeriesOf(prices, event.epic);
    var instrument := market.instruments[event.epic];
    var plan := Decide(series, instrument, event, equity, market, params).plan;
    DecideMakesPlanned(series, instrument, event, equity, market, params);
    LevelsPay(plan, params, event, instrument.valuePerPoint, instrument.HalfSpread(), instrument.minSize);
    HitsAreInTime(series, plan, DecisionTs(event, params), Deadline(event, params));
  }

  ghost predicate InWindow(p: Point, event: Event, params: Params) {
    DecisionTs(event, params) < p.ts <= Deadline(event, params)
  }

  lemma {:induction false} NoHitMeansInside(s: Series, plan: Plan, decisionTs: int, deadline: int, p: Point)
    requires Ordered(s) && p in s && decisionTs < p.ts <= deadline
    requires FirstHit(s, plan, decisionTs, deadline).None?
    ensures !plan.HitsStop(p.value) && !plan.HitsTarget(p.value)
  {
    if s[0] != p {
      assert s == [s[0]] + s[1..];
      var k :| 0 <= k < |s| && s[k] == p;
      assert s[0].ts <= s[k].ts;
      NoHitMeansInside(s[1..], plan, decisionTs, deadline, p);
    }
  }

  /** Strictly more than the loss at the stop, strictly less than the gain at the target. */
  ghost predicate PaysBetween(pnl: real, riskEur: real, params: Params) {
    -riskEur < pnl < params.rewardRisk * riskEur
  }

  /** A price that hits neither level pays strictly between the two. */
  lemma InsideLevelsPays(
    plan: Plan, params: Params, event: Event, valuePerPoint: real, halfSpread: real, minSize: real, mid: real)
    requires Planned(plan, params, event, valuePerPoint, halfSpread, minSize)
    requires minSize > 0.0 && plan.valuePerPoint > 0.0
    requires !plan.HitsStop(mid) && !plan.HitsTarget(mid)
    ensures PaysBetween(plan.Pnl(plan.ExitPrice(mid)), plan.riskEur, params)
  {
    var worth := plan.size * plan.valuePerPoint;
    MulStrict(0.0, plan.size, plan.valuePerPoint);
    var exit := plan.ExitPrice(mid);
    var points := if plan.direction == Buy then exit - plan.entry else plan.entry - exit;
    LevelsPay(plan, params, event, valuePerPoint, halfSpread, minSize);
    PnlOfPoints(plan, exit, points);
    PnlOfPoints(plan, plan.StopPrice(), -plan.stopPoints);
    PnlOfPoints(plan, plan.TargetPrice(), plan.targetPoints);
    MulStrict(-plan.stopPoints, points, worth);
    MulStrict(points, plan.targetPoints, worth);
  }

  /** With a price after the decision, the one used at the deadline is also after the decision. */
  lemma LastInWindow(series: Series, event: Event, params: Params, p: Point) returns (last: Point)
    requires Ordered(series) && p in series && InWindow(p, event, params)
    ensures last in series && InWindow(last, event, params)
    ensures Latest(Sorted(series), Deadline(event, params)) == Some(last.value)
  {
    var deadline := Deadline(event, params);
    SortedIsIdentity(series);
    LatestIsLatest(series, deadline);
    last :| IsLatest(series, deadline, last) && last.value == Latest(series, deadline).value;
  }

  /** The plan behind a time stop: nothing hit, and the exit is at the last price known at the deadline. */
  lemma TimeStopPlan(market: Market, params: Params, prices: Prices, event: Event, equity: real, t: Trade)
    returns (plan: Plan)
    requires OutcomeOf(market, params, prices, event, equity) == Done(t) && t.reason == TimeStop
    requires event.epic in market.instruments
    ensures var series, instrument := SeriesOf(prices, event.epic), market.instruments[event.epic];
            && Planned(plan, params, event, instrument.valuePerPoint, instrument.HalfSpread(), instrument.minSize)
            && plan.size >= instrument.minSize && t.riskEur == plan.riskEur
            && plan.valuePerPoint == instrument.valuePerPoint
            && FirstHit(series, plan, DecisionTs(event, params), Deadline(event, params)).None?
            && Latest(Sorted(series), Deadline(event, params)).Some?
            && t.pnl == plan.Pnl(plan.ExitPrice(Latest(Sorted(series), Deadline(event, params)).value))
  {
    hide FirstHit, Decide, PnlMoney;
    var series := SeriesOf(prices, event.epic);
    var instrument := market.instruments[event.epic];
    plan := Decide(series, instrument, event, equity, market, params).plan;
    DecideMakesPlanned(series, instrument, event, equity, market, params);
    HitsAreInTime(series, plan, DecisionTs(event, params), Deadline(event, params));
  }

  /** On an ordered series, a time stop that saw at least one price after the decision pays strictly between the
      stop and the target. */
  lemma TimeStopPaysBetween(
    market: Market, params: Params, prices: Prices, event: Event, equity: real, t: Trade, p: Point)
    requires OutcomeOf(market, params, prices, event, equity) == Done(t) && t.reason == TimeStop
    requires Ordered(SeriesOf(prices, event.epic))
    requires p in SeriesOf(prices, event.epic) && InWindow(p, event, params)
    requires event.epic in market.instruments
    requires market.instruments[event.epic].minSize > 0.0 && market.instruments[event.epic].valuePerPoint > 0.0
    ensures PaysBetween(t.pnl, t.riskEur, params)
  {
    hide OutcomeOf, FirstHit, PnlMoney, PaysBetween, Planned;
    var series := SeriesOf(prices, event.epic);
    var instrument := market.instruments[event.epic];
    var plan := TimeStopPlan(market, params, prices, event, equity, t);
    var last := LastInWindow(series, event, params, p);
    NoHitMeansInside(series, plan, DecisionTs(event, params), Deadline(event, params), last);
    InsideLevelsPays(
      plan, params, event, instrument.valuePerPoint, instrument.HalfSpread(), instrument.minSize, last.value);
  }

  // ---------------------------------------------------------------- no lookahead

  lemma {:induction false} LaterNeverHits(s: Series, plan: Plan, decisionTs: int, deadline: int)
    requires forall p :: p in s ==> p.ts > deadline
    ensures FirstHit(s, plan, decisionTs, deadline).None?
  {
    if s != [] {
      assert s[0] in s;
      LaterNeverHits(s[1..], plan, decisionTs, deadline);
    }
  }

  lemma {:induction false} HitIgnoresLater(s: Series, rest: Series, plan: Plan, decisionTs: int, deadline: int)
    requires forall p :: p in rest ==> p.ts > deadline
    ensures FirstHit(s + rest, plan, decisionTs, deadline) == FirstHit(s, plan, decisionTs, deadline)
  {
    if s == [] {
      assert s + rest == rest;
      LaterNeverHits(rest, plan, decisionTs, deadline);
    } else {
      assert (s + rest)[1..] == s[1..] + rest;
      HitIgnoresLater(s[1..], rest, plan, decisionTs, deadline);
    }
  }

  /** The latest time the simulation of an event looks at. */
  function Horizon(event: Event, params: Params): int {
    MaxInt(DecisionHorizon(event, params), Deadline(event, params))
  }

  function DecisionHorizon(event: Event, params: Params): int {
    MaxInt(event.ts - 1, DecisionTs(event, params))
  }

  lemma SamePrice(a: Series, b: Series, limit: int, ts: int)
    requires UpTo(a, limit) == UpTo(b, limit) && ts <= limit
    ensures Latest(Sorted(a), ts) == Latest(Sorted(b), ts)
  {
    hide Latest, Sorted, UpTo;
    PriceUsesPast(a, limit, ts);
    PriceUsesPast(b, limit, ts);
  }

  /** Entry, size, stop and target depend only on the points up to the decision, in whatever order they come. */
  lemma DecisionUsesPast(
    a: Series, b: Series, limit: int, instrument: Instrument, event: Event, equity: real, market: Market,
    params: Params)
    requires UpTo(a, limit) == UpTo(b, limit)
    requires DecisionHorizon(event, params) <= limit
    ensures Decide(a, instrument, event, equity, market, params) == Decide(b, instrument, event, equity, market, params)
  {
    hide PlanFor, RealizedVolatility, Latest, Sorted, UpTo, Ordered, Unusable;
    var at := DecisionTs(event, params);
    SamePrice(a, b, limit, event.ts - 1);
    SamePrice(a, b, limit, at);
    VolatilityUsesPast(a, b, limit, at, 3600, market.maths);
  }

  lemma ExitUsesPast(a: Series, b: Series, limit: int, plan: Plan, decisionTs: int, deadline: int)
    requires Ordered(a) && Ordered(b) && UpTo(a, limit) == UpTo(b, limit) && deadline <= limit
    ensures ExitOf(a, plan, decisionTs, deadline) == ExitOf(b, plan, decisionTs, deadline)
  {
    hide FirstHit;
    var laterA := PastIsPrefix(a, limit);
    var laterB := PastIsPrefix(b, limit);
    HitIgnoresLater(UpTo(a, limit), laterA, plan, decisionTs, deadline);
    HitIgnoresLater(UpTo(b, limit), laterB, plan, decisionTs, deadline);
    SamePrice(a, b, limit, deadline);
  }

  /** Equal outcomes, up to the reason of a skip: a series that starts later counts as no data or as no price. */
  ghost predicate SameEffect(x: Outcome, y: Outcome) {
    x == y || (x.Skipped? && y.Skipped?)
  }

  /** Both price maps tell the same story up to a time, for every instrument. */
  ghost predicate Agree(a: Prices, b: Prices, limit: int) {
    forall epic :: && Ordered(SeriesOf(a, epic)) && Ordered(SeriesOf(b, epic))
                   && UpTo(SeriesOf(a, epic), limit) == UpTo(SeriesOf(b, epic), limit)
  }

  lemma NoPastNoTrade(
    s: Series, limit: int, instrument: Instrument, event: Event, equity: real, market: Market, params: Params)
    requires UpTo(s, limit) == [] && DecisionHorizon(event, params) <= limit
    ensures Decide(s, instrument, event, equity, market, params) == NoTrade(NoPrice)
  {
    PriceUsesPast(s, limit, event.ts - 1);
  }

  lemma OutcomeUsesPast(
    market: Market, params: Params, a: Prices, b: Prices, event: Event, equity: real, limit: int)
    requires Agree(a, b, limit) && Horizon(event, params) <= limit
    ensures SameEffect(OutcomeOf(market, params, a, event, equity), OutcomeOf(market, params, b, event, equity))
  {
    hide Decide, ExitOf, TradeOf;
    var sa, sb := SeriesOf(a, event.epic), SeriesOf(b, event.epic);
    if event.epic in market.instruments {
      var instrument := market.instruments[event.epic];
      DecisionUsesPast(sa, sb, limit, instrument, event, equity, market, params);
      var d := Decide(sa, instrument, event, equity, market, params);
      if d.Go? {
        ExitUsesPast(sa, sb, limit, d.plan, DecisionTs(event, params), Deadline(event, params));
      }
      if sa == [] {
        NoPastNoTrade(sb, limit, instrument, event, equity, market, params);
      } else if sb == [] {
        NoPastNoTrade(sa, limit, instrument, event, equity, market, params);
      }
    }
  }

  /** The same trades and the same carried equity, or the same crash. */
  ghost predicate SameBooks(x: Option<Book>, y: Option<Book>) {
    || (x.None? && y.None?)
    || (x.Some? && y.Some? && x.value.trades == y.value.trades && x.value.equity == y.value.equity)
  }

  /** Events whose horizon is in the past see the same trades and equity on both price maps. */
  lemma {:induction false} RunUsesPast(
    market: Market, params: Params, a: Prices, b: Prices, events: seq<Event>, equity: real, limit: int)
    requires Agree(a, b, limit)
    requires forall e :: e in events ==> Horizon(e, params) <= limit
    ensures SameBooks(RunEvents(market, params, a, events, equity), RunEvents(market, params, b, events, equity))
  {
    hide OutcomeOf, Agree;
    if events != [] {
      var front, last := events[..|events| - 1], events[|events| - 1];
      assert last in events;
      RunUsesPast(market, params, a, b, front, equity, limit);
      var x := RunEvents(market, params, a, front, equity);
      if x.Some? {
        OutcomeUsesPast(market, params, a, b, last, x.value.equity, limit);
      }
    }
  }

  /** From the n-th trade on, every trade belongs to an event numbered k or later. */
  ghost predicate OnlyLaterEvents(trades: seq<Trade>, n: nat, events: seq<Event>, k: nat) {
    && n <= |trades|
    && forall i :: n <= i < |trades| ==> exists j :: k <= j < |events| && trades[i].ts == events[j].ts
  }

  /** A run only adds to the trades of a shorter run, and what it adds belongs to the later events. */
  lemma {:induction false} RunExtends(
    market: Market, params: Params, prices: Prices, events: seq<Event>, equity: real, k: nat)
    requires k <= |events| && RunEvents(market, params, prices, events, equity).Some?
    ensures RunEvents(market, params, prices, events[..k], equity).Some?
    ensures var early := RunEvents(market, params, prices, events[..k], equity).value.trades;
            var all := RunEvents(market, params, prices, events, equity).value.trades;
            early <= all && OnlyLaterEvents(all, |early|, events, k)
  {
    hide OutcomeOf;
    if k == |events| {
      assert events[..k] == events;
    } else {
      var n := |events| - 1;
      var front := events[..n];
      assert front[..k] == events[..k];
      RunExtends(market, params, prices, front, equity, k);
      var book := RunEvents(market, params, prices, front, equity).value;
      TradeKeepsTime(market, params, prices, events[n], book.equity);
    }
  }

  lemma TradeKeepsTime(market: Market, params: Params, prices: Prices, event: Event, equity: real)
    ensures var o := OutcomeOf(market, params, prices, event, equity); o.Done? ==> o.trade.ts == event.ts
  {
    hide Decide, ExitOf;
  }

  lemma HorizonsOrdered(e: Event, f: Event, params: Params)
    requires e.ts <= f.ts
    ensures Horizon(e, params) <= Horizon(f, params)
  {
  }

  /** No lookahead over whole runs. Events in order of time; k of them have their horizon at or before `limit`;
      two price maps agree up to `limit` and are arbitrary after it. Then the run over those k events is the same,
      trades and equity, and it is how both complete runs begin: all other trades belong to later events. */
  lemma NoLookahead(
    market: Market, params: Params, a: Prices, b: Prices, events: seq<Event>, equity: real, limit: int, k: nat)
    requires Agree(a, b, limit) && k <= |events|
    requires forall i, j :: 0 <= i < j < |events| ==> events[i].ts <= events[j].ts
    requires k > 0 ==> Horizon(events[k - 1], params) <= limit
    ensures SameBooks(RunEvents(market, params, a, events[..k], equity),
                      RunEvents(market, params, b, events[..k], equity))
    ensures var x := RunEvents(market, params, a, events, equity);
            var y := RunEvents(market, params, b, events, equity);
            x.Some? && y.Some? ==>
              exists n: nat :: && OnlyLaterEvents(x.value.trades, n, events, k)
                               && OnlyLaterEvents(y.value.trades, n, events, k)
                               && x.value.trades[..n] == y.value.trades[..n]
  {
    hide RunEvents, Agree;
    forall e | e in events[..k]
      ensures Horizon(e, params) <= limit
    {
      var i :| 0 <= i < k && events[i] == e;
      HorizonsOrdered(e, events[k - 1], params);
    }
    RunUsesPast(market, params, a, b, events[..k], equity, limit);
    var x := RunEvents(market, params, a, events, equity);
    var y := RunEvents(market, params, b, events, equity);
    if x.Some? && y.Some? {
      RunExtends(market, params, a, events, equity, k);
      RunExtends(market, params, b, events, equity, k);
      var early := RunEvents(market, params, a, events[..k], equity).value.trades;
      var n: nat := |early|;
      assert OnlyLaterEvents(x.value.trades, n, events, k) && OnlyLaterEvents(y.value.trades, n, events, k);
    }
  }
}
