/** What the portfolio looks like after any sequence of approved orders and closings.

    Each order is evaluated on a context that lists the positions open at that moment, at a fixed equity; the
    rest of the context, the market and the proposal are arbitrary. */
module Portfolio {
  import opened Common
  import opened Limits
  import opened Exposure
  import opened RiskEngine

  datatype Action =
    | Open(env: Env, proposal: TradeProposal, ctx: PortfolioContext, fx: real)
    | Close(index: nat)

  ghost predicate Enabled(limits: RiskLimits, equity: real, ps: seq<OpenExposure>, a: Action) {
    match a
    case Open(env, p, ctx, fx) =>
      && ctx.openPositions == ps
      && ctx.account.equity == equity
      && Acceptable(env, limits, p, ctx, fx)
    case Close(i) => i < |ps|
  }

  ghost function Apply(limits: RiskLimits, equity: real, ps: seq<OpenExposure>, a: Action): seq<OpenExposure>
    requires Enabled(limits, equity, ps, a)
  {
    match a
    case Open(env, p, ctx, fx) => ps + [NewExposure(p, SizingFor(limits, p, ctx, fx))]
    case Close(i) => Without(ps, i)
  }

  ghost predicate Run(limits: RiskLimits, equity: real, states: seq<seq<OpenExposure>>, actions: seq<Action>) {
    && |states| == |actions| + 1
    && forall i :: 0 <= i < |actions| ==>
         Enabled(limits, equity, states[i], actions[i])
         && states[i + 1] == Apply(limits, equity, states[i], actions[i])
  }

  /** The cap of a group of positions, as a multiple of the equity. */
  function CapOf(limits: RiskLimits, b: Bucket): real {
    match b
    case ByEpic(_) => limits.maxAssetExposure
    case ByClass(_) => limits.maxAssetClassExposure
    case ByCurrency(_) => limits.maxCurrencyExposure
    case Whole => limits.maxEffectiveLeverage
  }

  ghost predicate BucketSafe(limits: RiskLimits, equity: real, ps: seq<OpenExposure>, b: Bucket) {
    && WithinNotional(NotionalIn(ps, b), equity, CapOf(limits, b))
    && (b.ByEpic? ==> CountIn(ps, b) <= MaxInt(0, limits.maxPositionsPerAsset))
  }

  /** Every cap holds for every epic, asset class and currency, whether or not the last order touched it. */
  ghost predicate Safe(limits: RiskLimits, equity: real, ps: seq<OpenExposure>) {
    && NonNegative(ps)
    && WithinRisk(RiskOf(ps), equity, limits.maxOpenRisk)
    && |ps| <= MaxInt(0, limits.maxOpenPositions)
    && forall b :: BucketSafe(limits, equity, ps, b)
  }

  lemma EmptyIsSafe(limits: RiskLimits, equity: real)
    requires limits.Valid() && equity >= 0.0
    ensures Safe(limits, equity, [])
  {
    MulMonotone(0.0, equity, limits.maxOpenRisk);
    forall b
      ensures BucketSafe(limits, equity, [], b)
    {
      MulMonotone(0.0, equity, CapOf(limits, b));
    }
  }

  lemma OpenKeepsBucket(
    limits: RiskLimits, equity: real, ps: seq<OpenExposure>, env: Env, p: TradeProposal, ctx: PortfolioContext,
    fx: real, b: Bucket)
    requires BucketSafe(limits, equity, ps, b)
    requires ctx.openPositions == ps && ctx.account.equity == equity
    requires Acceptable(env, limits, p, ctx, fx)
    ensures BucketSafe(limits, equity, ps + [NewExposure(p, SizingFor(limits, p, ctx, fx))], b)
  {
    OpenTotals(ps, NewExposure(p, SizingFor(limits, p, ctx, fx)), b);
  }

  lemma OpenKeepsSafe(
    limits: RiskLimits, equity: real, ps: seq<OpenExposure>, env: Env, p: TradeProposal, ctx: PortfolioContext,
    fx: real)
    requires Safe(limits, equity, ps)
    requires ctx.openPositions == ps && ctx.account.equity == equity
    requires Acceptable(env, limits, p, ctx, fx)
    ensures Safe(limits, equity, ps + [NewExposure(p, SizingFor(limits, p, ctx, fx))])
  {
    ApprovedExposure(env, limits, p, ctx, fx);
    forall b
      ensures BucketSafe(limits, equity, ps + [NewExposure(p, SizingFor(limits, p, ctx, fx))], b)
    {
      OpenKeepsBucket(limits, equity, ps, env, p, ctx, fx, b);
    }
  }

  lemma CloseKeepsSafe(limits: RiskLimits, equity: real, ps: seq<OpenExposure>, i: nat)
    requires Safe(limits, equity, ps) && i < |ps|
    ensures Safe(limits, equity, Without(ps, i))
  {
    assert ps[i] in ps;
    CloseTotals(ps, i, Whole);
    forall b
      ensures BucketSafe(limits, equity, Without(ps, i), b)
    {
      assert BucketSafe(limits, equity, ps, b);
      CloseTotals(ps, i, b);
    }
  }

  /** Portfolio safety over whole runs. */
  lemma {:induction false} RunStaysSafe(
    limits: RiskLimits, equity: real, states: seq<seq<OpenExposure>>, actions: seq<Action>, k: nat)
    requires Run(limits, equity, states, actions) && k < |states|
    requires Safe(limits, equity, states[0])
    ensures Safe(limits, equity, states[k])
  {
    if k > 0 {
      RunStaysSafe(limits, equity, states, actions, k - 1);
      match actions[k - 1]
      case Open(env, p, ctx, fx) => OpenKeepsSafe(limits, equity, states[k - 1], env, p, ctx, fx);
      case Close(i) => CloseKeepsSafe(limits, equity, states[k - 1], i);
    }
  }

  /** Without equity nothing is ever opened: a run can only close positions. */
  lemma {:induction false} NoEquityOnlyCloses(
    limits: RiskLimits, equity: real, states: seq<seq<OpenExposure>>, actions: seq<Action>, k: nat)
    requires Run(limits, equity, states, actions) && k < |actions|
    requires equity <= 0.0
    ensures actions[k].Close? && |states[k + 1]| < |states[k]|
  {
    match actions[k]
    case Open(env, p, ctx, fx) =>
      assert Enabled(limits, equity, states[k], actions[k]);
      ApprovedExposure(env, limits, p, ctx, fx);
      assert false;
    case Close(i) =>
  }

  /** What safety means, in numbers. */
  lemma SafeInNumbers(
    limits: RiskLimits, equity: real, ps: seq<OpenExposure>, epic: string, assetClass: string, currency: string)
    requires Safe(limits, equity, ps)
    ensures RiskOf(ps) <= equity * limits.maxOpenRisk + 0.000000001
    ensures NotionalIn(ps, Whole) <= limits.maxEffectiveLeverage * equity
    ensures NotionalIn(ps, ByEpic(epic)) <= limits.maxAssetExposure * equity
    ensures NotionalIn(ps, ByClass(assetClass)) <= limits.maxAssetClassExposure * equity
    ensures NotionalIn(ps, ByCurrency(currency)) <= limits.maxCurrencyExposure * equity
    ensures |ps| <= MaxInt(0, limits.maxOpenPositions)
    ensures CountIn(ps, ByEpic(epic)) <= MaxInt(0, limits.maxPositionsPerAsset)
  {
    hide NotionalIn, RiskOf, CountIn, NonNegative;
    assert BucketSafe(limits, equity, ps, Whole) && BucketSafe(limits, equity, ps, ByEpic(epic));
    assert BucketSafe(limits, equity, ps, ByClass(assetClass)) && BucketSafe(limits, equity, ps, ByCurrency(currency));
  }
}
