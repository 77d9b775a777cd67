/** What the eToro strategies do under the default limits: when they trade at all, a cycle that exceeds the caps it
    checks, and a pair left half open without any exception. */
module EtoroCycles {
  import opened Common
  import opened Limits
  import opened Pricing
  import opened Exposure
  import opened Sizing
  import opened Margin
  import opened RiskEngine
  import opened EtoroAdapter
  import opened EtoroRunner
  import Approvable
  import Pairs

  /** The default limits with another holding time and number of positions. */
  function LimitsWith(holdingTimeS: int, positions: int): RiskLimits {
    DEFAULT_LIMITS.(maxHoldingTimeS := holdingTimeS, maxOpenPositions := positions)
  }

  const ACCOUNT := AccountState(1000.0, 0.0)

  const HELD := BrokerPosition("ETORO:9", Buy, 15.1, 10.0, Some(9.0), "USD")

  function QuoteOf(epic: string): Quote {
    Quote(epic, 10.0, 10.0, 0.0, true, "etoro-rest")
  }

  /** An account with at most a few small positions, none of them in the instrument. */
  ghost predicate Small(ctx: PortfolioContext, epic: string) {
    && ctx == PortfolioContext(ACCOUNT, ctx.openPositions, 0.0, Some(1000.0), 0, 0, map[])
    && 0.0 <= ctx.OpenRiskEur() <= 15.1
    && CountIn(ctx.openPositions, ByEpic(epic)) == 0
    && forall b :: NotionalIn(ctx.openPositions, b) <= 151.0
  }

  lemma FlatIsSmall(epic: string)
    ensures Small(Snapshot(ACCOUNT, []), epic)
  {
  }

  lemma HeldExposures()
    ensures var ps := Snapshot(ACCOUNT, [HELD]).openPositions;
            |ps| == 1 && ps[0].epic == "ETORO:9" && ps[0].notional == 151.0 && ps[0].riskEur == 15.1
  {
  }

  lemma HeldIsSmall(epic: string)
    requires epic != "ETORO:9"
    ensures Small(Snapshot(ACCOUNT, [HELD]), epic) && Snapshot(ACCOUNT, [HELD]).OpenRiskEur() == 15.1
  {
    hide Snapshot;
    HeldExposures();
    var ps := Snapshot(ACCOUNT, [HELD]).openPositions;
    assert ps[..0] == [];
    assert RiskOf(ps) == RiskOf([]) + ps[0].riskEur;
    assert CountIn(ps, ByEpic(epic)) == CountIn([], ByEpic(epic));
    forall b
      ensures NotionalIn(ps, b) <= 151.0
    {
      assert NotionalIn(ps, b) == NotionalIn([], b) + if InBucket(ps[0], b) then ps[0].notional else 0.0;
    }
    SnapshotFields(ACCOUNT, [HELD]);
  }

  lemma SnapshotFields(account: AccountState, positions: seq<BrokerPosition>)
    ensures var ctx := Snapshot(account, positions);
            ctx == PortfolioContext(account, ctx.openPositions, 0.0, Some(account.equity), 0, 0, map[])
  {
  }

  // ---------------------------------------------------------------- the size

  /** The sizes that five euro of risk buy at stops of 7 and 4 per cent of ten. */
  lemma SizesOfFive()
    ensures SizeFor(5.0, 0.7, 1.0, 1.0, 1.0) == 7.0
    ensures SizeFor(5.0, 0.4, 1.0, 1.0, 1.0) == 12.0
  {
    QuotientBound(5.0, 0.7, 7.0);
    QuotientBound(5.0, 0.7, 8.0);
    SizeOfFive(0.7, 7);
    QuotientBound(5.0, 0.4, 12.0);
    QuotientBound(5.0, 0.4, 13.0);
    SizeOfFive(0.4, 12);
  }

  lemma SizeOfFive(stop: real, n: int)
    requires stop > 0.0 && n >= 1 && n as real <= 5.0 / stop < n as real + 1.0
    ensures SizeFor(5.0, stop, 1.0, 1.0, 1.0) == n as real
  {
    assert SizeFromRisk(5.0, stop, 1.0) == 5.0 / stop;
    assert (5.0 / stop) / 1.0 == 5.0 / stop;
    assert (5.0 / stop).Floor == n;
    assert StepUnits(5.0 / stop, 1.0, Down) == n;
    assert Steps(n, 1.0) == n as real;
    RoundAtExact(10000000000 * n, n as real, TEN_DECIMALS);
  }

  /** A proposal of either strategy for a price of ten. */
  function ProposalAtTen(epic: string, direction: Direction, momentum: bool): TradeProposal {
    if momentum then Proposal(QuoteOf(epic), direction, 10.0, 0.07, 0.14, 0.0, "etoro", 20.0)
    else Proposal(QuoteOf(epic), direction, 10.0, 0.04, 0.07, 0.0, "pair", 10.0)
  }

  function StopAtTen(momentum: bool): real {
    if momentum then 0.7 else 0.4
  }

  function UnitsAtTen(momentum: bool): int {
    if momentum then 7 else 12
  }

  lemma KellyAllowsFive(momentum: bool)
    ensures 1000.0 * KellyFraction(0.5, if momentum then 1.4 / 0.7 else 0.7 / 0.4) * 0.15 > 5.0
  {
    if momentum {
      assert 1.4 / 0.7 == 2.0;
    } else {
      assert 0.7 / 0.4 == 1.75;
      QuotientBound(1.75 * 0.5 - 0.5, 1.75, 0.2);
    }
  }

  lemma BudgetAtTen(limits: RiskLimits, epic: string, direction: Direction, momentum: bool, ctx: PortfolioContext)
    requires limits == LimitsWith(limits.maxHoldingTimeS, limits.maxOpenPositions) && Small(ctx, epic)
    ensures Budget(Request(ProposalAtTen(epic, direction, momentum), ctx, 1.0), limits) == 5.0
  {
    hide KellyFraction;
    KellyAllowsFive(momentum);
    assert CappedRisk(1000.0 * 0.005, 5.0, 1.0) == 5.0;
  }

  lemma AmountsAtTen()
    ensures Notional(10.0, 7.0, 1.0) == 70.0 && MarginRequired(10.0, 7.0, 1.0, 20.0) == 14.0
    ensures Notional(10.0, 12.0, 1.0) == 120.0 && MarginRequired(10.0, 12.0, 1.0, 20.0) == 24.0
  {
    assert 20.0 / 100.0 == 0.2;
  }

  lemma SizingAtTen(limits: RiskLimits, epic: string, direction: Direction, momentum: bool, ctx: PortfolioContext)
    requires limits == LimitsWith(limits.maxHoldingTimeS, limits.maxOpenPositions) && Small(ctx, epic)
    ensures ProposalAtTen(epic, direction, momentum).stopDistance == StopAtTen(momentum)
    ensures var s := SizingFor(limits, ProposalAtTen(epic, direction, momentum), ctx, 1.0);
            && s.size == UnitsAtTen(momentum) as real
            && s.riskEur == (if momentum then 4.9 else 4.8)
            && s.notional == (if momentum then 70.0 else 120.0)
            && s.marginRequired == (if momentum then 14.0 else 24.0)
  {
    hide Budget, SizeFor, RoundToStep, CapReason, KellyCap, Notional, MarginRequired, Small;
    BudgetAtTen(limits, epic, direction, momentum, ctx);
    SizesOfFive();
    AmountsAtTen();
  }

  // ---------------------------------------------------------------- every check passes

  lemma StressAtTen(newMargin: real, newRisk: real, openRisk: real)
    requires 0.0 <= newMargin <= 24.0 && 0.0 <= newRisk <= 4.9 && 0.0 <= openRisk <= 15.1
    ensures MarginOk(DEFAULT_LIMITS, StressInput(ACCOUNT, newMargin, newRisk, openRisk, 0.0))
  {
    var q := StressInput(ACCOUNT, newMargin, newRisk, openRisk, 0.0);
    forall s | Tested(s, DEFAULT_LIMITS)
      ensures RoundAt(q.FreeRatioAfter(q.LossIn(s)), FOUR_DECIMALS) >= 0.5
    {
      var loss := q.LossIn(s);
      assert s.Shock? ==> s.r == 1.0 || s.r == 2.0;
      assert 0.0 <= loss <= 20.0;
      QuotientBound(1000.0 - loss - q.MarginAfter(), 1000.0 - loss, 0.9);
      RoundAtError(q.FreeRatioAfter(loss), FOUR_DECIMALS);
    }
  }

  lemma {:induction false} NoFactorsNoCorrelation(direction: Direction, ps: seq<OpenExposure>, sqrt: real -> real)
    ensures CorrelatedOf(map[], direction, ps, sqrt) == 0.0
  {
    if ps != [] {
      NoFactorsNoCorrelation(direction, ps[..|ps| - 1], sqrt);
    }
  }

  /** From six hours on, a proposal of either strategy at a price of ten passes every check. */
  lemma AcceptedAtTen(limits: RiskLimits, epic: string, direction: Direction, momentum: bool, ctx: PortfolioContext)
    requires limits == LimitsWith(limits.maxHoldingTimeS, limits.maxOpenPositions)
    requires limits.maxHoldingTimeS >= HORIZON_S && |ctx.openPositions| < limits.maxOpenPositions
    requires Small(ctx, epic)
    ensures ApprovedUnits(Approvable.CALM, limits, ProposalAtTen(epic, direction, momentum), ctx)
            == UnitsAtTen(momentum)
  {
    var p := ProposalAtTen(epic, direction, momentum);
    var s := SizingFor(limits, p, ctx, 1.0);
    SizingAtTen(limits, epic, direction, momentum, ctx);
    hide SizingFor, Stress, MarginOk, PortfolioOk, Small;
    assert MarketOk(Approvable.CALM, limits, p) && OrderOk(limits, p);
    assert RewardOk(limits, p) && SlippageOk(limits, p);
    AccountAtTen(limits, p, ctx);
    PortfolioAtTen(limits, p, ctx, s);
    MarginAtTen(limits, p, ctx, s);
  }

  lemma AccountAtTen(limits: RiskLimits, p: TradeProposal, ctx: PortfolioContext)
    requires limits == LimitsWith(limits.maxHoldingTimeS, limits.maxOpenPositions)
    requires |ctx.openPositions| < limits.maxOpenPositions && Small(ctx, p.instrument.epic)
    ensures AccountOk(limits, p, ctx)
  {
  }

  lemma PortfolioAtTen(limits: RiskLimits, p: TradeProposal, ctx: PortfolioContext, s: SizingResult)
    requires limits == LimitsWith(limits.maxHoldingTimeS, limits.maxOpenPositions)
    requires Small(ctx, p.instrument.epic) && 0.0 <= s.riskEur <= 4.9 && 0.0 <= s.notional <= 120.0
    ensures PortfolioOk(Approvable.CALM, limits, p, ctx, s)
  {
    hide CorrelatedOf, NotionalIn, RiskOf, CountIn, InBucket;
    NoFactorsNoCorrelation(p.direction, ctx.openPositions, Approvable.CALM.sqrt);
    forall b
      ensures NotionalIn(ctx.openPositions + [NewExposure(p, s)], b) <= 271.0
    {
      OpenTotals(ctx.openPositions, NewExposure(p, s), b);
    }
    OpenTotals(ctx.openPositions, NewExposure(p, s), Whole);
  }

  lemma MarginAtTen(limits: RiskLimits, p: TradeProposal, ctx: PortfolioContext, s: SizingResult)
    requires limits == LimitsWith(limits.maxHoldingTimeS, limits.maxOpenPositions)
    requires Small(ctx, p.instrument.epic) && 0.0 <= s.riskEur <= 4.9 && 0.0 <= s.marginRequired <= 24.0
    ensures MarginOk(limits, Stress(Approvable.CALM, p, ctx, s))
  {
    hide RoundAt, StressInput.FreeRatioAfter;
    NoFactorsNoCorrelation(p.direction, ctx.openPositions, Approvable.CALM.sqrt);
    StressAtTen(s.marginRequired, s.riskEur, ctx.OpenRiskEur());
  }

  // ---------------------------------------------------------------- when the strategies trade

  function CandidateAtTen(id: int, epic: string): MomentumCandidate {
    MomentumCandidate(id, Some(QuoteOf(epic)), Got("news"), Got(true), Approvable.CALM)
  }

  const PAIR_LOOKUP :=
    PairLookup(false, Some(QuoteOf("ETORO:1")), Some(QuoteOf("ETORO:2")), Approvable.CALM, Approvable.CALM)

  const SIGNAL := Pairs.PairSignal(1, "ETORO:1", 2, "ETORO:2", 10.0, 10.0, 0.9, 2.5, Sell, Buy)

  lemma ProposalsAtTen(epic: string, direction: Direction, ctx: PortfolioContext)
    requires ctx.account == ACCOUNT
    ensures BuyProposal(CandidateAtTen(1, epic), ctx) == Some(ProposalAtTen(epic, Buy, true))
    ensures LegProposal(direction, QuoteOf(epic), ctx) == Some(ProposalAtTen(epic, direction, false))
  {
    assert 0.0 / 10.0 == 0.0;
  }

  /** Some candidate, on some snapshot, is bought. */
  ghost predicate Buys(limits: RiskLimits) {
    exists m: MomentumCandidate, ctx ::
      m.quote.Some? && BuyProposal(m, ctx).Some? && WantedBuy(limits, m, BuyProposal(m, ctx).value, ctx).Some?
  }

  ghost predicate PairTraded(limits: RiskLimits, sig: Pairs.PairSignal, look: PairLookup, ctx: PortfolioContext) {
    && look.quoteA.Some? && look.quoteB.Some?
    && var a := LegProposal(sig.directionA, look.quoteA.value, ctx);
    && var b := LegProposal(sig.directionB, look.quoteB.value, ctx);
    && a.Some? && b.Some? && WantedLegs(limits, sig, look, a.value, b.value, ctx).Some?
  }

  /** Some pair, on some snapshot, gets both legs. */
  ghost predicate TradesPairs(limits: RiskLimits) {
    exists sig, look, ctx :: PairTraded(limits, sig, look, ctx)
  }

  lemma BoughtAtTen(limits: RiskLimits, id: int, epic: string, ctx: PortfolioContext)
    requires limits == LimitsWith(limits.maxHoldingTimeS, limits.maxOpenPositions)
    requires limits.maxHoldingTimeS >= HORIZON_S && |ctx.openPositions| < limits.maxOpenPositions
    requires Small(ctx, epic)
    ensures var m := CandidateAtTen(id, epic);
            && BuyProposal(m, ctx) == Some(ProposalAtTen(epic, Buy, true))
            && var o := WantedBuy(limits, m, BuyProposal(m, ctx).value, ctx);
            o.Some? && o.value.direction == Buy && o.value.units == 7 && o.value.Risk() == 4.9
  {
    hide ApprovedUnits, Small;
    assert ctx.account == ACCOUNT by { SmallAccount(ctx, epic); }
    ProposalsAtTen(epic, Buy, ctx);
    AcceptedAtTen(limits, epic, Buy, true, ctx);
    SevenAtStop();
  }

  lemma SmallAccount(ctx: PortfolioContext, epic: string)
    requires Small(ctx, epic)
    ensures ctx.account == ACCOUNT
  {
  }

  lemma SevenAtStop()
    ensures 7 as real * (10.0 * 0.07) == 4.9
  {
  }

  lemma PairAtTen(limits: RiskLimits)
    requires limits == LimitsWith(limits.maxHoldingTimeS, limits.maxOpenPositions)
    requires limits.maxHoldingTimeS >= HORIZON_S && limits.maxOpenPositions > 0
    ensures PairTraded(limits, SIGNAL, PAIR_LOOKUP, Snapshot(ACCOUNT, []))
  {
    hide ApprovedUnits, Small, Snapshot;
    var ctx := Snapshot(ACCOUNT, []);
    FlatIsSmall("ETORO:1");
    FlatIsSmall("ETORO:2");
    SmallAccount(ctx, "ETORO:1");
    SnapshotCounts(ACCOUNT, []);
    ProposalsAtTen("ETORO:1", Sell, ctx);
    ProposalsAtTen("ETORO:2", Buy, ctx);
    AcceptedAtTen(limits, "ETORO:1", Sell, false, ctx);
    AcceptedAtTen(limits, "ETORO:2", Buy, false, ctx);
  }

  /** With the other default limits, either strategy trades at all exactly when positions may be held for the six hours
      its proposals ask for. The default of four hours is too short. */
  lemma TradesIffSixHours(holdingTimeS: int)
    ensures var limits := DEFAULT_LIMITS.(maxHoldingTimeS := holdingTimeS);
            && (Buys(limits) <==> holdingTimeS >= 21600)
            && (TradesPairs(limits) <==> holdingTimeS >= 21600)
  {
    hide Snapshot, Small, WantedBuy, PairTraded, BuyProposal;
    var limits := DEFAULT_LIMITS.(maxHoldingTimeS := holdingTimeS);
    if holdingTimeS >= 21600 {
      FlatIsSmall("ETORO:1");
      SnapshotCounts(ACCOUNT, []);
      BoughtAtTen(limits, 1, "ETORO:1", Snapshot(ACCOUNT, []));
      PairAtTen(limits);
    } else {
      forall m: MomentumCandidate, ctx | m.quote.Some? && BuyProposal(m, ctx).Some?
        ensures WantedBuy(limits, m, BuyProposal(m, ctx).value, ctx).None?
      {
        NoBuyBelow(limits, m, ctx);
      }
      forall sig, look, ctx
        ensures !PairTraded(limits, sig, look, ctx)
      {
        NoPairBelow(limits, sig, look, ctx);
      }
    }
  }

  lemma NoBuyBelow(limits: RiskLimits, m: MomentumCandidate, ctx: PortfolioContext)
    requires limits.maxHoldingTimeS < HORIZON_S && m.quote.Some? && BuyProposal(m, ctx).Some?
    ensures WantedBuy(limits, m, BuyProposal(m, ctx).value, ctx).None?
  {
    hide ApprovedUnits;
    NothingBelowSixHours(limits, m.env, BuyProposal(m, ctx).value, ctx);
  }

  lemma NoPairBelow(limits: RiskLimits, sig: Pairs.PairSignal, look: PairLookup, ctx: PortfolioContext)
    requires limits.maxHoldingTimeS < HORIZON_S
    ensures !PairTraded(limits, sig, look, ctx)
  {
    hide ApprovedUnits;
    if PairTraded(limits, sig, look, ctx) {
      NothingBelowSixHours(limits, look.envA, LegProposal(sig.directionA, look.quoteA.value, ctx).value, ctx);
      assert false;
    }
  }

  // ---------------------------------------------------------------- over the caps on one snapshot

  lemma SentNext(
    limits: RiskLimits, s: Progress, id: int, epic: string, ctx: PortfolioContext, gateway: nat -> GatewayReply)
    requires limits == LimitsWith(limits.maxHoldingTimeS, limits.maxOpenPositions)
    requires limits.maxHoldingTimeS >= HORIZON_S && |ctx.openPositions| < limits.maxOpenPositions
    requires Small(ctx, epic) && !s.raised && LastBrief(s.judged, id).None? && gateway(|s.sent|).Confirmed?
    ensures var t := Considered(limits, s, CandidateAtTen(id, epic), ctx, gateway);
            && !t.raised && t.judged == s.judged + [Judgement(id, "news")]
            && |t.sent| == |s.sent| + 1 && TotalRisk(t.sent) == TotalRisk(s.sent) + 4.9
  {
    hide ApprovedUnits, Small, LastBrief, BuyProposal, WantedBuy;
    BoughtAtTen(limits, id, epic, ctx);
    var t := Considered(limits, s, CandidateAtTen(id, epic), ctx, gateway);
    assert t.sent[..|s.sent|] == s.sent;
  }

  /** The input: two seats, one taken, with 15.1 of the 20 euro of open risk used. Two buys, both confirmed, bring the
      open risk to 24.9 and the positions to three. */
  lemma CycleExceedsCaps()
    ensures var limits := LimitsWith(21600, 2);
            var ctx := Snapshot(ACCOUNT, [HELD]);
            var ms := [CandidateAtTen(1, "ETORO:1"), CandidateAtTen(2, "ETORO:2")];
            var after := AfterMomentum(limits, Progress([], [], false), ms, ctx, _ => Confirmed);
            && !after.raised && |after.sent| == 2
            && ctx.OpenRiskEur() + TotalRisk(after.sent) == 24.9
            && ctx.account.equity * limits.maxOpenRisk == 20.0
            && !KeepsRiskCap(after.sent, limits, ctx)
            && |ctx.openPositions| + |after.sent| == limits.maxOpenPositions + 1
  {
    hide Small, Considered, Snapshot, TotalRisk;
    var limits := LimitsWith(21600, 2);
    var ctx := Snapshot(ACCOUNT, [HELD]);
    var ms := [CandidateAtTen(1, "ETORO:1"), CandidateAtTen(2, "ETORO:2")];
    HeldIsSmall("ETORO:1");
    HeldIsSmall("ETORO:2");
    SmallAccount(ctx, "ETORO:1");
    SnapshotCounts(ACCOUNT, [HELD]);
    var start := Progress([], [], false);
    NoOrdersNoRisk();
    SentNext(limits, start, 1, "ETORO:1", ctx, _ => Confirmed);
    var one := Considered(limits, start, ms[0], ctx, _ => Confirmed);
    SentNext(limits, one, 2, "ETORO:2", ctx, _ => Confirmed);
    assert ms[..1] == [ms[0]] && ms[..1][..0] == [];
    assert AfterMomentum(limits, start, ms[..1], ctx, _ => Confirmed) == one;
  }

  lemma NoOrdersNoRisk()
    ensures TotalRisk([]) == 0.0
  {
  }

  // ---------------------------------------------------------------- a half-open pair

  /** The input: whatever the broker makes of the two legs, nothing raises when it rejects one. So with one leg
      confirmed and the other rejected, in either order, the pair is half open without an exception. */
  lemma HalfOpenWithoutException(first: GatewayReply, second: GatewayReply)
    requires !first.Raised? && !second.Raised?
    ensures var gateway: nat -> GatewayReply := k => if k == 0 then first else second;
            var (orders, raised) :=
              PairsFrom(LimitsWith(21600, 10), [SIGNAL], _ => PAIR_LOOKUP, Snapshot(ACCOUNT, []), gateway, 0, 0, 1);
            && |orders| == 2 && !raised
            && (HalfOpen(orders, gateway, 0) <==> first != second)
  {
    hide Snapshot, Small, ApprovedUnits;
    var limits := LimitsWith(21600, 10);
    var gateway: nat -> GatewayReply := k => if k == 0 then first else second;
    var ctx := Snapshot(ACCOUNT, []);
    PairAtTen(limits);
    PairsAllOrNothing(limits, [SIGNAL], _ => PAIR_LOOKUP, ctx, gateway, 0, 0, 1);
    var (orders, raised) := PairsFrom(limits, [SIGNAL], _ => PAIR_LOOKUP, ctx, gateway, 0, 0, 1);
    HalfOpenIff(orders, raised, gateway, 0, limits, ctx);
  }
}
