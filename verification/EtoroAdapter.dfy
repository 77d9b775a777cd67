/** Proposals of the two eToro strategies (src/risk/etoro_pairs_adapter.py, src/risk/etoro_adapter.py). */
module EtoroAdapter {
  import opened Common
  import opened Sizing
  import opened RiskEngine

  const LEG_STOP_PCT := 0.04
  const LEG_TARGET_PCT := 0.07
  const MOMENTUM_STOP_PCT := 0.07
  const MOMENTUM_TARGET_PCT := 0.14
  const LEVERAGE := 5
  const MARGIN_FACTOR_PCT := 20.0
  const RISK_FRACTION_OF_EQUITY := 0.02
  const RISK_FRACTION_PER_LEG := 0.01
  const HORIZON_S := 21600
  const SLIPPAGE_PCT := 0.0005
  const EQUITY_CFD := "EQUITY_CFD"

  /** Whole units of one dollar per point, five times leveraged. */
  function EtoroInstrument(epic: string): Instrument {
    Instrument(epic, EQUITY_CFD, "USD", 1.0, 1.0, 1.0, MARGIN_FACTOR_PCT, None, false, None)
  }

  function LegEntryPrice(direction: Direction, quote: Quote): real {
    if direction == Buy then quote.offer else quote.bid
  }

  /** Absolute stop and target prices, to the cent. */
  function LegStopAndTarget(direction: Direction, entry: real): (real, real) {
    if direction == Buy then
      (RoundAt(entry * (1.0 - LEG_STOP_PCT), CENTS), RoundAt(entry * (1.0 + LEG_TARGET_PCT), CENTS))
    else
      (RoundAt(entry * (1.0 + LEG_STOP_PCT), CENTS), RoundAt(entry * (1.0 - LEG_TARGET_PCT), CENTS))
  }

  /** The stop on the losing side of the entry and the target on the winning side. */
  predicate OnTheirSides(direction: Direction, entry: real) {
    var levels := LegStopAndTarget(direction, entry);
    if direction == Buy then levels.0 < entry < levels.1 else levels.1 < entry < levels.0
  }

  predicate DownPasses(cents: real) {
    var middle := cents.Floor as real + 0.5;
    cents * 0.96 < middle || (cents * 0.96 == middle && cents.Floor % 2 == 0)
  }

  predicate UpPasses(cents: real) {
    var middle := cents.Floor as real + 0.5;
    cents * 1.04 > middle || (cents * 1.04 == middle && cents.Floor % 2 == 1)
  }

  /** In cents: the move of four per cent from the price, down as well as up, gets past the middle of the cent the
      price is in, or to the middle if that is rounded onwards. */
  predicate MovePassesHalfCent(entry: real) {
    DownPasses(entry * CENTS) && UpPasses(entry * CENTS)
  }

  /** What rounds to at most `k`. */
  lemma RoundsToAtMost(x: real, k: int)
    ensures RoundHalfEven(x) <= k <==> x < k as real + 0.5 || (x == k as real + 0.5 && k % 2 == 0)
  {
    var below := x.Floor;
    assert below as real <= x < below as real + 1.0;
    assert below < k ==> below as real + 1.0 <= k as real;
    assert below > k ==> below as real >= k as real + 1.0;
  }

  lemma RoundingMonotone(x: real, y: real)
    requires x <= y
    ensures RoundHalfEven(x) <= RoundHalfEven(y)
  {
    RoundsToAtMost(x, RoundHalfEven(y));
    RoundsToAtMost(y, RoundHalfEven(y));
  }

  lemma WholeAgainst(n: int, cents: real)
    ensures n as real > cents <==> n > cents.Floor
    ensures n as real < cents <==> n < cents.Floor || (n == cents.Floor && cents != cents.Floor as real)
  {
    var k := cents.Floor;
    assert n < k ==> n as real + 1.0 <= k as real;
    assert n > k ==> n as real >= k as real + 1.0;
  }

  lemma LevelInCents(level: real, entry: real, inCents: real)
    requires inCents == level * CENTS
    ensures RoundAt(level, CENTS) < entry <==> RoundHalfEven(inCents) as real < entry * CENTS
    ensures RoundAt(level, CENTS) > entry <==> RoundHalfEven(inCents) as real > entry * CENTS
  {
    QuotientBound(RoundHalfEven(inCents) as real, CENTS, entry);
  }

  lemma UpSide(cents: real)
    ensures RoundHalfEven(cents * 1.04) as real > cents <==> UpPasses(cents)
  {
    hide RoundHalfEven;
    RoundsToAtMost(cents * 1.04, cents.Floor);
    WholeAgainst(RoundHalfEven(cents * 1.04), cents);
  }

  lemma DownSide(cents: real)
    requires cents > 0.0 && UpPasses(cents)
    ensures RoundHalfEven(cents * 0.96) as real < cents <==> DownPasses(cents)
  {
    hide RoundHalfEven;
    WholeAgainst(RoundHalfEven(cents * 0.96), cents);
    if cents == cents.Floor as real {
      RoundsToAtMost(cents * 0.96, cents.Floor - 1);
    } else {
      RoundsToAtMost(cents * 0.96, cents.Floor);
    }
  }

  /** In cents, for all prices. */
  lemma SidesInCents(cents: real)
    requires cents > 0.0
    ensures && RoundHalfEven(cents * 0.93) as real < cents < RoundHalfEven(cents * 1.07) as real
            && RoundHalfEven(cents * 0.96) as real < cents < RoundHalfEven(cents * 1.04) as real
            <==> DownPasses(cents) && UpPasses(cents)
  {
    hide RoundHalfEven, DownPasses, UpPasses;
    RoundingMonotone(cents * 0.93, cents * 0.96);
    RoundingMonotone(cents * 1.04, cents * 1.07);
    UpSide(cents);
    if UpPasses(cents) {
      DownSide(cents);
    }
  }

  /** Stop and target of both directions are on their sides exactly when the move passes the half cent. */
  lemma LegLevelsOnTheirSidesIff(entry: real)
    requires entry > 0.0
    ensures OnTheirSides(Buy, entry) && OnTheirSides(Sell, entry) <==> MovePassesHalfCent(entry)
  {
    hide RoundAt, RoundHalfEven;
    var cents := entry * CENTS;
    LevelInCents(entry * (1.0 - LEG_STOP_PCT), entry, cents * 0.96);
    LevelInCents(entry * (1.0 + LEG_STOP_PCT), entry, cents * 1.04);
    LevelInCents(entry * (1.0 - LEG_TARGET_PCT), entry, cents * 0.93);
    LevelInCents(entry * (1.0 + LEG_TARGET_PCT), entry, cents * 1.07);
    SidesInCents(entry * CENTS);
  }

  /** So for prices in whole cents they are exactly from thirteen cents on, and for all prices from 12.5 cents on. */
  lemma LegLevelsOnTheirSides(entry: real)
    requires entry > 0.0
    ensures entry * CENTS == (entry * CENTS).Floor as real ==>
              (OnTheirSides(Buy, entry) && OnTheirSides(Sell, entry) <==> entry * CENTS >= 13.0)
    ensures entry >= 0.125 ==> OnTheirSides(Buy, entry) && OnTheirSides(Sell, entry)
  {
    hide OnTheirSides;
    LegLevelsOnTheirSidesIff(entry);
  }

  /** The input: for a price of one cent, rounding puts both levels on the entry itself. */
  lemma LegLevelsCollapse(direction: Direction)
    ensures LegStopAndTarget(direction, 0.01) == (0.01, 0.01)
  {
    assert RoundHalfEven(0.01 * 0.96 * 100.0) == 1 && RoundHalfEven(0.01 * 1.07 * 100.0) == 1;
    assert RoundHalfEven(0.01 * 1.04 * 100.0) == 1 && RoundHalfEven(0.01 * 0.93 * 100.0) == 1;
  }

  function Proposal(
    quote: Quote, direction: Direction, entry: real, stopPct: real, targetPct: real, spreadPct: real, event: string,
    requestedRisk: real)
    : TradeProposal
  {
    TradeProposal(
      event, EtoroInstrument(quote.epic), map[], direction, Market, quote, entry, entry * stopPct,
      Some(entry * targetPct), HORIZON_S, 0.5, None, Some(requestedRisk),
      Some(targetPct - (spreadPct + SLIPPAGE_PCT)), None)
  }

  /** None when the proposal is refused because its stop distance is not positive (ValidationError). */
  function BuildLegProposal(direction: Direction, quote: Quote, pairLabel: string, requestedRisk: real)
    : Option<TradeProposal>
  {
    var entry := LegEntryPrice(direction, quote);
    if entry <= 0.0 then None
    else
      Some(Proposal(quote, direction, entry, LEG_STOP_PCT, LEG_TARGET_PCT,
                    (quote.offer - quote.bid) / entry, pairLabel, requestedRisk))
  }

  /** None when the offer is zero (ZeroDivisionError) or negative (ValidationError). */
  function BuildTradeProposal(quote: Quote, event: string, requestedRisk: real): Option<TradeProposal> {
    if quote.offer <= 0.0 then None
    else
      Some(Proposal(quote, Buy, quote.offer, MOMENTUM_STOP_PCT, MOMENTUM_TARGET_PCT,
                    (quote.offer - quote.bid) / quote.offer, event, requestedRisk))
  }

  function SizeFromDecision(d: RiskDecision): int {
    d.size.Floor
  }
}
