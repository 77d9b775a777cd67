/** Aggregation of the open positions (src/risk/correlation.py and the factor cosine of
    src/market/instrument_registry.py). Square roots are taken by the function passed in. */
module Exposure {
  import opened Common
  import opened Statistics

  datatype Factor =
    | UsEquity | EuEquity | AsiaEquity | Usd | Eur | Jpy | Gbp
    | Rates | Oil | Gold | Crypto | RiskOn | RiskOff | Volatility

  const FACTORS: seq<Factor> :=
    [UsEquity, EuEquity, AsiaEquity, Usd, Eur, Jpy, Gbp, Rates, Oil, Gold, Crypto, RiskOn, RiskOff, Volatility]

  type Loadings = map<Factor, real>

  datatype OpenExposure = OpenExposure(
    epic: string,
    direction: Direction,
    notional: real,
    riskEur: real,
    assetClass: string,
    currency: string,
    eventId: Option<string>,
    factors: Loadings)

  /** The groups of positions that carry a cap. */
  datatype Bucket = ByEpic(epic: string) | ByClass(assetClass: string) | ByCurrency(currency: string) | Whole

  predicate InBucket(p: OpenExposure, b: Bucket) {
    match b
    case ByEpic(e) => p.epic == e
    case ByClass(c) => p.assetClass == c
    case ByCurrency(c) => p.currency == c
    case Whole => true
  }

  // ---------------------------------------------------------------- what the totals mean

  function NotionalIn(ps: seq<OpenExposure>, b: Bucket): real {
    if ps == [] then 0.0
    else
      var last := ps[|ps| - 1];
      NotionalIn(ps[..|ps| - 1], b) + if InBucket(last, b) then last.notional else 0.0
  }

  function CountIn(ps: seq<OpenExposure>, b: Bucket): nat {
    if ps == [] then 0
    else CountIn(ps[..|ps| - 1], b) + if InBucket(ps[|ps| - 1], b) then 1 else 0
  }

  function RiskOf(ps: seq<OpenExposure>): real {
    if ps == [] then 0.0 else RiskOf(ps[..|ps| - 1]) + ps[|ps| - 1].riskEur
  }

  /** The signed weight of one factor: direction times loading times the amount at stake. */
  function FactorIn(ps: seq<OpenExposure>, f: Factor, byRisk: bool): real {
    if ps == [] then 0.0
    else FactorIn(ps[..|ps| - 1], f, byRisk) + Tilt(ps[|ps| - 1], f, byRisk)
  }

  function Tilt(p: OpenExposure, f: Factor, byRisk: bool): real {
    if f in p.factors then p.direction.Sign() * p.factors[f] * (if byRisk then p.riskEur else p.notional) else 0.0
  }

  predicate NonNegative(ps: seq<OpenExposure>) {
    forall p :: p in ps ==> p.notional >= 0.0 && p.riskEur >= 0.0
  }

  // ---------------------------------------------------------------- build_exposure

  datatype ExposureReport = ExposureReport(
    factorExposure: map<Factor, real>,
    factorRisk: map<Factor, real>,
    byAssetClass: map<string, real>,
    byCurrency: map<string, real>,
    byEpic: map<string, real>,
    totalNotional: real,
    totalRiskEur: real)

  function At<K>(m: map<K, real>, k: K): real {
    if k in m then m[k] else 0.0
  }

  function AddFactors(acc: map<Factor, real>, p: OpenExposure, byRisk: bool): (r: map<Factor, real>)
    ensures forall f :: At(r, f) == At(acc, f) + Tilt(p, f, byRisk)
  {
    map f | f in acc.Keys + p.factors.Keys :: At(acc, f) + Tilt(p, f, byRisk)
  }

  method BuildExposure(positions: seq<OpenExposure>) returns (r: ExposureReport)
    ensures forall e :: At(r.byEpic, e) == NotionalIn(positions, ByEpic(e))
    ensures forall c :: At(r.byAssetClass, c) == NotionalIn(positions, ByClass(c))
    ensures forall c :: At(r.byCurrency, c) == NotionalIn(positions, ByCurrency(c))
    ensures forall f :: At(r.factorExposure, f) == FactorIn(positions, f, false)
    ensures forall f :: At(r.factorRisk, f) == FactorIn(positions, f, true)
    ensures r.totalNotional == NotionalIn(positions, Whole)
    ensures r.totalRiskEur == RiskOf(positions)
  {
    var factorExposure, factorRisk: map<Factor, real> := map[], map[];
    var byClass, byCurrency, byEpic: map<string, real> := map[], map[], map[];
    var totalNotional, totalRisk := 0.0, 0.0;
    for i := 0 to |positions|
      invariant forall e :: At(byEpic, e) == NotionalIn(positions[..i], ByEpic(e))
      invariant forall c :: At(byClass, c) == NotionalIn(positions[..i], ByClass(c))
      invariant forall c :: At(byCurrency, c) == NotionalIn(positions[..i], ByCurrency(c))
      invariant forall f :: At(factorExposure, f) == FactorIn(positions[..i], f, false)
      invariant forall f :: At(factorRisk, f) == FactorIn(positions[..i], f, true)
      invariant totalNotional == NotionalIn(positions[..i], Whole)
      invariant totalRisk == RiskOf(positions[..i])
    {
      var p := positions[i];
      assert positions[..i + 1][..i] == positions[..i];
      factorExposure := AddFactors(factorExposure, p, false);
      factorRisk := AddFactors(factorRisk, p, true);
      byClass := byClass[p.assetClass := At(byClass, p.assetClass) + p.notional];
      byCurrency := byCurrency[p.currency := At(byCurrency, p.currency) + p.notional];
      byEpic := byEpic[p.epic := At(byEpic, p.epic) + p.notional];
      totalNotional := totalNotional + p.notional;
      totalRisk := totalRisk + p.riskEur;
    }
    assert positions[..|positions|] == positions;
    r := ExposureReport(factorExposure, factorRisk, byClass, byCurrency, byEpic, totalNotional, totalRisk);
  }

  // ---------------------------------------------------------------- adding and removing a position

  lemma OpenTotals(ps: seq<OpenExposure>, p: OpenExposure, b: Bucket)
    ensures NotionalIn(ps + [p], b) == NotionalIn(ps, b) + if InBucket(p, b) then p.notional else 0.0
    ensures CountIn(ps + [p], b) == CountIn(ps, b) + if InBucket(p, b) then 1 else 0
    ensures RiskOf(ps + [p]) == RiskOf(ps) + p.riskEur
  {
    assert (ps + [p])[..|ps|] == ps;
  }

  function Without(ps: seq<OpenExposure>, i: nat): seq<OpenExposure>
    requires i < |ps|
  {
    ps[..i] + ps[i + 1..]
  }

  /** The totals without one position, and the position. */
  ghost predicate TotalsAdd(ps: seq<OpenExposure>, without: seq<OpenExposure>, p: OpenExposure, b: Bucket) {
    && NotionalIn(ps, b) == NotionalIn(without, b) + (if InBucket(p, b) then p.notional else 0.0)
    && CountIn(ps, b) == CountIn(without, b) + (if InBucket(p, b) then 1 else 0)
    && RiskOf(ps) == RiskOf(without) + p.riskEur
  }

  lemma TotalsAddSnoc(
    ps: seq<OpenExposure>, without: seq<OpenExposure>, p: OpenExposure, b: Bucket, last: OpenExposure)
    requires TotalsAdd(ps, without, p, b)
    ensures TotalsAdd(ps + [last], without + [last], p, b)
  {
    hide InBucket;
    OpenTotals(ps, last, b);
    OpenTotals(without, last, b);
  }

  lemma {:induction false} CloseTotals(ps: seq<OpenExposure>, i: nat, b: Bucket)
    requires i < |ps|
    ensures TotalsAdd(ps, Without(ps, i), ps[i], b)
  {
    hide InBucket, TotalsAdd;
    var n := |ps| - 1;
    if i == n {
      assert Without(ps, i) == ps[..n] && ps == ps[..n] + [ps[n]];
      LastAdds(ps[..n], ps[n], b);
    } else {
      CloseTotals(ps[..n], i, b);
      TotalsAddSnoc(ps[..n], Without(ps[..n], i), ps[i], b, ps[n]);
      assert Without(ps, i) == Without(ps[..n], i) + [ps[n]];
      assert ps == ps[..n] + [ps[n]];
    }
  }

  lemma LastAdds(ps: seq<OpenExposure>, p: OpenExposure, b: Bucket)
    ensures TotalsAdd(ps + [p], ps, p, b)
  {
    OpenTotals(ps, p, b);
  }

  // ---------------------------------------------------------------- correlation

  /** A factor vector written out over all the factors. */
  function Vector(a: Loadings): seq<real> {
    seq(|FACTORS|, i requires 0 <= i < |FACTORS| => At(a, FACTORS[i]))
  }

  function Product(a: Loadings, b: Loadings): real {
    Dot(Vector(a), Vector(b))
  }

  /** Cosine of two factor vectors, clamped to [-1, 1]; 0 when either is empty or has norm 0. */
  function CorrelationProxy(a: Loadings, b: Loadings, sqrt: real -> real): (c: real)
    ensures -1.0 <= c <= 1.0
  {
    if |a| == 0 || |b| == 0 then 0.0
    else
      var normA, normB := sqrt(Product(a, a)), sqrt(Product(b, b));
      if normA == 0.0 || normB == 0.0 then 0.0
      else Max(-1.0, Min(1.0, Cosine(Vector(a), Vector(b), sqrt)))
  }

  /** With a true square root the clamp never changes anything. */
  lemma ClampIsIdle(a: Loadings, b: Loadings, sqrt: real -> real)
    requires IsRoot(sqrt) && Product(a, a) > 0.0 && Product(b, b) > 0.0
    ensures CorrelationProxy(a, b, sqrt)
            == if |a| == 0 || |b| == 0 then 0.0 else Cosine(Vector(a), Vector(b), sqrt)
  {
    RootPositive(sqrt, Product(a, a));
    RootPositive(sqrt, Product(b, b));
    CosineBounded(Vector(a), Vector(b), sqrt);
  }

  const MIN_CORRELATION := 0.4

  /** The correlation times both signs: turned around when one position is long and the other short. */
  function Effective(base: Loadings, direction: Direction, p: OpenExposure, sqrt: real -> real): (r: real)
    ensures -1.0 <= r <= 1.0
  {
    var corr := CorrelationProxy(base, p.factors, sqrt);
    if direction == p.direction then corr else -corr
  }

  function ShareAt(effective: real, riskEur: real): (r: real)
    ensures riskEur >= 0.0 && effective <= 1.0 ==> 0.0 <= r <= riskEur
  {
    if effective >= MIN_CORRELATION then Portion(riskEur, effective) else 0.0
  }

  /** The risk of one open position that counts as moving together with the new trade. */
  function CorrelatedShare(base: Loadings, direction: Direction, p: OpenExposure, sqrt: real -> real): (r: real)
    ensures p.riskEur >= 0.0 ==> 0.0 <= r <= p.riskEur
  {
    ShareAt(Effective(base, direction, p, sqrt), p.riskEur)
  }

  function CorrelatedOf(base: Loadings, direction: Direction, ps: seq<OpenExposure>, sqrt: real -> real): real {
    if ps == [] then 0.0
    else
      CorrelatedOf(base, direction, ps[..|ps| - 1], sqrt)
      + CorrelatedShare(base, direction, ps[|ps| - 1], sqrt)
  }

  method CorrelatedRisk(base: Loadings, direction: Direction, positions: seq<OpenExposure>, sqrt: real -> real)
    returns (total: real)
    ensures total == CorrelatedOf(base, direction, positions, sqrt)
  {
    total := 0.0;
    for i := 0 to |positions|
      invariant total == CorrelatedOf(base, direction, positions[..i], sqrt)
    {
      var effective := Effective(base, direction, positions[i], sqrt);
      if effective >= MIN_CORRELATION {
        total := total + Portion(positions[i].riskEur, effective);
      }
      assert positions[..i + 1][..i] == positions[..i];
    }
    assert positions[..|positions|] == positions;
  }

  /** Correlated risk is part of the open risk, so the all-stops scenario always dominates the correlated one. */
  lemma {:induction false} CorrelatedWithinOpenRisk(
    base: Loadings, direction: Direction, ps: seq<OpenExposure>, sqrt: real -> real)
    requires NonNegative(ps)
    ensures 0.0 <= CorrelatedOf(base, direction, ps, sqrt) <= RiskOf(ps)
  {
    if ps != [] {
      assert ps[|ps| - 1] in ps;
      CorrelatedWithinOpenRisk(base, direction, ps[..|ps| - 1], sqrt);
    }
  }

  // ---------------------------------------------------------------- which positions count, without roots

  /** The product of the factor vectors, turned around when one position is long and the other short. */
  function SignedProduct(base: Loadings, direction: Direction, p: OpenExposure): real {
    if direction == p.direction then Product(base, p.factors) else -Product(base, p.factors)
  }

  lemma {:induction false} NoLoadingsNoProduct(x: seq<real>)
    requires forall i :: 0 <= i < |x| ==> x[i] == 0.0
    ensures Dot(x, x) == 0.0
  {
    if x != [] {
      NoLoadingsNoProduct(x[..|x| - 1]);
    }
  }

  lemma NonZeroVector(a: Loadings)
    ensures Product(a, a) > 0.0 ==> |a| > 0
  {
    if |a| == 0 {
      NoLoadingsNoProduct(Vector(a));
    }
  }

  /** The product of the squared norms. */
  function Norms(a: Loadings, b: Loadings): real {
    Multiply(Product(a, a), Product(b, b))
  }

  function RootOfNorms(a: Loadings, b: Loadings, sqrt: real -> real): real {
    Multiply(sqrt(Product(a, a)), sqrt(Product(b, b)))
  }

  /** The effective correlation is the signed product over the root of the norms. */
  lemma EffectiveIsRatio(base: Loadings, direction: Direction, p: OpenExposure, sqrt: real -> real)
    requires IsRoot(sqrt) && Product(base, base) > 0.0 && Product(p.factors, p.factors) > 0.0
    ensures RootOfNorms(base, p.factors, sqrt) > 0.0
    ensures Square(RootOfNorms(base, p.factors, sqrt)) == Norms(base, p.factors)
    ensures Effective(base, direction, p, sqrt)
            == Ratio(SignedProduct(base, direction, p), RootOfNorms(base, p.factors, sqrt))
  {
    RootOfNormsFacts(base, p.factors, sqrt);
    hide Product, Cosine, Ratio, RootOfNorms, CorrelationProxy;
    NonZeroVector(base);
    NonZeroVector(p.factors);
    ClampIsIdle(base, p.factors, sqrt);
    CosineOfProducts(base, p.factors, sqrt);
    RatioOfOpposite(Product(base, p.factors), RootOfNorms(base, p.factors, sqrt));
  }

  lemma RootOfNormsFacts(a: Loadings, b: Loadings, sqrt: real -> real)
    requires IsRoot(sqrt) && Product(a, a) > 0.0 && Product(b, b) > 0.0
    ensures RootOfNorms(a, b, sqrt) > 0.0 && Square(RootOfNorms(a, b, sqrt)) == Norms(a, b)
  {
    hide Product, Square, Multiply;
    RootPositive(sqrt, Product(a, a));
    RootPositive(sqrt, Product(b, b));
    MultiplyPositive(sqrt(Product(a, a)), sqrt(Product(b, b)));
    SquareOfMultiply(sqrt(Product(a, a)), sqrt(Product(b, b)));
  }

  lemma CosineOfProducts(a: Loadings, b: Loadings, sqrt: real -> real)
    ensures Cosine(Vector(a), Vector(b), sqrt) == Ratio(Product(a, b), RootOfNorms(a, b, sqrt))
  {
  }

  lemma RatioOfOpposite(a: real, b: real)
    ensures Ratio(-a, b) == -Ratio(a, b)
  {
  }

  /** The effective correlation by its sign, its square and when it counts, for factor vectors that are not zero. */
  lemma EffectiveFacts(base: Loadings, direction: Direction, p: OpenExposure, sqrt: real -> real)
    requires IsRoot(sqrt) && Product(base, base) > 0.0 && Product(p.factors, p.factors) > 0.0
    ensures var e, signed := Effective(base, direction, p, sqrt), SignedProduct(base, direction, p);
            && (e > 0.0 <==> signed > 0.0) && (e < 0.0 <==> signed < 0.0)
            && Multiply(Square(e), Norms(base, p.factors)) == Square(signed)
            && (e >= 0.4 <==> signed > 0.0 && Square(signed) >= Multiply(0.16, Norms(base, p.factors)))
  {
    hide Product, Effective, Ratio, SignedProduct, Norms, RootOfNorms, Multiply;
    EffectiveIsRatio(base, direction, p, sqrt);
    QuotientFacts(SignedProduct(base, direction, p), RootOfNorms(base, p.factors, sqrt), 0.4);
    assert Square(0.4) == 0.16;
  }

  /** The risk that counts as moving together with the new trade: some exactly when both positions gain from the same
      factors strongly enough, and then the risk times the cosine. */
  lemma ShareFacts(base: Loadings, direction: Direction, p: OpenExposure, sqrt: real -> real)
    requires IsRoot(sqrt) && Product(base, base) > 0.0 && Product(p.factors, p.factors) > 0.0 && p.riskEur > 0.0
    ensures var share, signed := CorrelatedShare(base, direction, p, sqrt), SignedProduct(base, direction, p);
            && (share > 0.0 <==> signed > 0.0 && Square(signed) >= Multiply(0.16, Norms(base, p.factors)))
            && (share > 0.0 ==>
                  Multiply(Square(share), Norms(base, p.factors)) == Multiply(Square(p.riskEur), Square(signed)))
  {
    hide Product, Effective, SignedProduct, Norms, Square, Multiply;
    EffectiveFacts(base, direction, p, sqrt);
    var e := Effective(base, direction, p, sqrt);
    if e >= 0.4 {
      MultiplyPositive(p.riskEur, e);
      SquareOfPortion(p.riskEur, e, Norms(base, p.factors));
    }
  }

  lemma SquareOfPortion(risk: real, e: real, norms: real)
    ensures Portion(risk, e) == Multiply(risk, e)
    ensures Multiply(Square(Portion(risk, e)), norms) == Multiply(Square(risk), Multiply(Square(e), norms))
  {
    SquareOfMultiply(risk, e);
    Regroup(Square(risk), Square(e), norms);
  }

  lemma Regroup(a: real, b: real, c: real)
    ensures (a * b) * c == a * (b * c)
  {
  }

  /** A position on the very same factors. */
  predicate SameFactors(base: Loadings, p: OpenExposure) {
    p.factors == base
  }

  /** The same factors in the same direction count with the whole risk, in the opposite direction with nothing. */
  lemma SameFactorsShare(base: Loadings, direction: Direction, p: OpenExposure, sqrt: real -> real)
    requires IsRoot(sqrt) && Product(base, base) > 0.0 && SameFactors(base, p)
    ensures CorrelatedShare(base, direction, p, sqrt) == if direction == p.direction then p.riskEur else 0.0
  {
    hide Product, Effective, Norms;
    EffectiveFacts(base, direction, p, sqrt);
    SquareOfOpposite(Product(base, base));
    NormsOfOne(base);
    hide Square, Multiply;
    MultiplyIsOne(Square(Effective(base, direction, p, sqrt)), Norms(base, base));
    SquareIsOne(Effective(base, direction, p, sqrt));
  }

  lemma NormsOfOne(a: Loadings)
    ensures Norms(a, a) == Square(Product(a, a))
    ensures Product(a, a) > 0.0 ==> Norms(a, a) > 0.0
  {
    if Product(a, a) > 0.0 {
      MultiplyPositive(Product(a, a), Product(a, a));
    }
  }

  lemma SquareOfOpposite(a: real)
    ensures Square(-a) == Square(a)
  {
  }

  /** The open risk on the same factors in the same direction: the same bet, made again. */
  function SameBetRisk(base: Loadings, direction: Direction, ps: seq<OpenExposure>): real {
    if ps == [] then 0.0
    else
      var last := ps[|ps| - 1];
      SameBetRisk(base, direction, ps[..|ps| - 1])
      + if SameFactors(base, last) && last.direction == direction then last.riskEur else 0.0
  }

  /** Repeating a bet counts all of its open risk as correlated. */
  lemma {:induction false} SameBetsCount(
    base: Loadings, direction: Direction, ps: seq<OpenExposure>, sqrt: real -> real)
    requires IsRoot(sqrt) && Product(base, base) > 0.0 && NonNegative(ps)
    ensures CorrelatedOf(base, direction, ps, sqrt) >= SameBetRisk(base, direction, ps)
  {
    hide CorrelatedShare, Product;
    if ps != [] {
      var last := ps[|ps| - 1];
      assert last in ps;
      SameBetsCount(base, direction, ps[..|ps| - 1], sqrt);
      if SameFactors(base, last) {
        SameFactorsShare(base, direction, last, sqrt);
      }
      ShareNotNegative(base, direction, last, sqrt);
    }
  }

  lemma ShareNotNegative(base: Loadings, direction: Direction, p: OpenExposure, sqrt: real -> real)
    requires p.riskEur >= 0.0
    ensures CorrelatedShare(base, direction, p, sqrt) >= 0.0
  {
  }

  /** A hedge on the same factors counts nothing. */
  lemma {:induction false} HedgesDoNotCount(
    base: Loadings, direction: Direction, ps: seq<OpenExposure>, sqrt: real -> real)
    requires IsRoot(sqrt) && Product(base, base) > 0.0
    requires forall p :: p in ps ==> SameFactors(base, p) && p.direction != direction
    ensures CorrelatedOf(base, direction, ps, sqrt) == 0.0
  {
    hide CorrelatedShare, Product;
    if ps != [] {
      assert ps[|ps| - 1] in ps;
      HedgesDoNotCount(base, direction, ps[..|ps| - 1], sqrt);
      SameFactorsShare(base, direction, ps[|ps| - 1], sqrt);
    }
  }

  // ---------------------------------------------------------------- factor weights

  lemma OppositeTilt(p: OpenExposure, f: Factor, byRisk: bool)
    ensures Tilt(p.(direction := Buy), f, byRisk) == At(p.factors, f) * (if byRisk then p.riskEur else p.notional)
    ensures Tilt(p.(direction := Sell), f, byRisk) == -Tilt(p.(direction := Buy), f, byRisk)
  {
    if f in p.factors {
      var amount := if byRisk then p.riskEur else p.notional;
      assert (-1.0 * p.factors[f]) * amount == -(1.0 * p.factors[f] * amount);
    }
  }

  /** A long position weighs on a factor with its loading times the amount at stake, and a short one takes the same
      away, so a position and its opposite cancel on every factor. */
  lemma OppositesCancel(p: OpenExposure, f: Factor)
    ensures var short := p.(direction := Sell);
            var long := p.(direction := Buy);
            && FactorIn([long, short], f, false) == 0.0 && FactorIn([long, short], f, true) == 0.0
            && FactorIn([long], f, false) == At(p.factors, f) * p.notional
            && FactorIn([long], f, true) == At(p.factors, f) * p.riskEur
  {
    var short := p.(direction := Sell);
    var long := p.(direction := Buy);
    OppositeTilt(p, f, false);
    OppositeTilt(p, f, true);
    hide Tilt;
    var both, one := [long, short], [long];
    assert both[..1] == one && both[1] == short && one[..0] == [];
    assert FactorIn(both, f, false) == FactorIn(one, f, false) + Tilt(short, f, false);
    assert FactorIn(both, f, true) == FactorIn(one, f, true) + Tilt(short, f, true);
  }
}
