/** Calibration metrics (src/evaluation/calibration.py), before display rounding. */
module Calibration {
  import opened Common
  import opened Statistics

  /** A predicted probability and what happened (0 or 1). */
  type Pair = (real, int)

  const BUCKETS: seq<(real, real)> := [(0.0, 0.5), (0.5, 0.6), (0.6, 0.7), (0.7, 0.8), (0.8, 0.9), (0.9, 1.01)]

  predicate InBucket(p: real, b: nat)
    requires b < 6
  {
    BUCKETS[b].0 <= p < BUCKETS[b].1
  }

  function Gap(pair: Pair): real {
    pair.0 - pair.1 as real
  }

  /** The quantities that are summed over pairs. */
  datatype Weight = One | Probability | Outcome | Difference | AbsDifference

  function Weigh(w: Weight, pair: Pair): real {
    match w
    case One => 1.0
    case Probability => pair.0
    case Outcome => pair.1 as real
    case Difference => Gap(pair)
    case AbsDifference => Abs(Gap(pair))
  }

  function Total(w: Weight, pairs: seq<Pair>): real {
    if pairs == [] then 0.0 else Total(w, pairs[..|pairs| - 1]) + Weigh(w, pairs[|pairs| - 1])
  }

  function Bucket(pairs: seq<Pair>, b: nat): seq<Pair>
    requires b < 6
  {
    if pairs == [] then []
    else
      var last := pairs[|pairs| - 1];
      Bucket(pairs[..|pairs| - 1], b) + if InBucket(last.0, b) then [last] else []
  }

  /** Totals over the first `k` buckets. */
  function BucketTotals(w: Weight, pairs: seq<Pair>, k: nat): real
    requires k <= 6
  {
    if k == 0 then 0.0 else BucketTotals(w, pairs, k - 1) + Total(w, Bucket(pairs, k - 1))
  }

  /** The sum, over the first `k` buckets, of the absolute total difference of each. */
  function AbsBucketGaps(pairs: seq<Pair>, k: nat): real
    requires k <= 6
  {
    if k == 0 then 0.0 else AbsBucketGaps(pairs, k - 1) + Abs(Total(Difference, Bucket(pairs, k - 1)))
  }

  function Gaps(pairs: seq<Pair>): seq<real> {
    seq(|pairs|, i requires 0 <= i < |pairs| => Gap(pairs[i]))
  }

  datatype CurvePoint = CurvePoint(bucket: nat, predictedMean: real, observedRate: real, n: nat)

  datatype Metrics = Metrics(n: nat, brier: real, ece: real, curve: seq<CurvePoint>)

  function CurveCount(curve: seq<CurvePoint>): nat {
    if curve == [] then 0 else CurveCount(curve[..|curve| - 1]) + curve[|curve| - 1].n
  }

  /** Sum of n * predicted_mean (or observed_rate) over the curve. */
  function CurveMass(curve: seq<CurvePoint>, predicted: bool): real {
    if curve == [] then 0.0
    else
      var last := curve[|curve| - 1];
      CurveMass(curve[..|curve| - 1], predicted)
      + last.n as real * if predicted then last.predictedMean else last.observedRate
  }

  lemma {:induction false} TotalsOfList(pairs: seq<Pair>)
    ensures Total(One, pairs) == |pairs| as real
    ensures Total(Difference, pairs) == Total(Probability, pairs) - Total(Outcome, pairs)
    ensures Abs(Total(Difference, pairs)) <= Total(AbsDifference, pairs)
  {
    if pairs != [] {
      TotalsOfList(pairs[..|pairs| - 1]);
    }
  }

  /** One bucket's share of the calibration error. */
  function EceShare(pred: real, obs: real, size: real, n: real): real
    requires n > 0.0
  {
    Abs(pred - obs) * size / n
  }

  /** Adding one bucket's share of the calibration error, whatever its size. */
  lemma EceStep(raw: real, p: real, o: real, size: real, n: real)
    requires size > 0.0 && n > 0.0
    ensures raw / n + EceShare(p / size, o / size, size, n) == (raw + Abs(p - o)) / n
  {
    var d := (p - o) / size;
    assert p / size - o / size == d;
    QuotientBound(p - o, size, 0.0);
    assert d * size == p - o && (-d) * size == -(p - o);
    assert Abs(d) * size == Abs(p - o);
    assert raw / n + Abs(p - o) / n == (raw + Abs(p - o)) / n;
  }

  lemma CurveSnoc(curve: seq<CurvePoint>, point: CurvePoint, p: real, o: real)
    requires point.n > 0
    requires point.predictedMean == p / point.n as real && point.observedRate == o / point.n as real
    ensures CurveCount(curve + [point]) == CurveCount(curve) + point.n
    ensures CurveMass(curve + [point], true) == CurveMass(curve, true) + p
    ensures CurveMass(curve + [point], false) == CurveMass(curve, false) + o
  {
    assert (curve + [point])[..|curve|] == curve;
  }

  // ---------------------------------------------------------------- the scores

  function Brier(pairs: seq<Pair>): real
    requires pairs != []
  {
    Dot(Gaps(pairs), Gaps(pairs)) / |pairs| as real
  }

  function Ece(pairs: seq<Pair>): real
    requires pairs != []
  {
    AbsBucketGaps(pairs, 6) / |pairs| as real
  }

  function MeanAbsoluteError(pairs: seq<Pair>): real
    requires pairs != []
  {
    Total(AbsDifference, pairs) / |pairs| as real
  }

  /** A curve point shows the size and the two means of its own bucket, which is not empty. */
  ghost predicate Shows(point: CurvePoint, pairs: seq<Pair>) {
    && point.bucket < 6
    && var bucket := Bucket(pairs, point.bucket);
    && bucket != [] && point.n == |bucket|
    && point.predictedMean == Total(Probability, bucket) / |bucket| as real
    && point.observedRate == Total(Outcome, bucket) / |bucket| as real
  }

  /** The points of the non-empty ones among the first `k` buckets, in order. */
  ghost predicate IsCurve(curve: seq<CurvePoint>, pairs: seq<Pair>, k: nat)
    requires k <= 6
  {
    && (forall i :: 0 <= i < |curve| ==> Shows(curve[i], pairs) && curve[i].bucket < k)
    && (forall i, j :: 0 <= i < j < |curve| ==> curve[i].bucket < curve[j].bucket)
    && forall b: nat :: b < k && Bucket(pairs, b) != [] ==> exists i :: 0 <= i < |curve| && curve[i].bucket == b
  }

  lemma CurveGrows(curve: seq<CurvePoint>, more: seq<CurvePoint>, pairs: seq<Pair>, k: nat)
    requires k < 6 && IsCurve(curve, pairs, k)
    requires if Bucket(pairs, k) == [] then more == curve
             else exists p: CurvePoint :: p.bucket == k && Shows(p, pairs) && more == curve + [p]
    ensures IsCurve(more, pairs, k + 1)
  {
    hide Shows, Bucket;
    forall b: nat | b < k + 1 && Bucket(pairs, b) != []
      ensures exists i :: 0 <= i < |more| && more[i].bucket == b
    {
      if b < k {
        var i :| 0 <= i < |curve| && curve[i].bucket == b;
        assert more[i].bucket == b;
      } else {
        assert more[|curve|].bucket == b;
      }
    }
  }

  /** The error and the curve after the first `k` buckets. */
  ghost predicate Scored(ece: real, curve: seq<CurvePoint>, pairs: seq<Pair>, k: nat)
    requires pairs != [] && k <= 6
  {
    && ece == AbsBucketGaps(pairs, k) / |pairs| as real
    && IsCurve(curve, pairs, k)
    && CurveCount(curve) as real == BucketTotals(One, pairs, k)
    && CurveMass(curve, true) == BucketTotals(Probability, pairs, k)
    && CurveMass(curve, false) == BucketTotals(Outcome, pairs, k)
  }

  lemma NothingScored(pairs: seq<Pair>)
    requires pairs != []
    ensures Scored(0.0, [], pairs, 0)
  {
  }

  /** One pass of the bucket loop. */
  method AddBucket(ece: real, curve: seq<CurvePoint>, pairs: seq<Pair>, b: nat)
    returns (newEce: real, newCurve: seq<CurvePoint>)
    requires b < 6 && pairs != [] && Scored(ece, curve, pairs, b)
    ensures Scored(newEce, newCurve, pairs, b + 1)
  {
    hide IsCurve, Bucket, EceShare, Total, Abs;
    var n := |pairs| as real;
    var bucket := Bucket(pairs, b);
    TotalsOfList(bucket);
    if bucket == [] {
      NothingToAdd(bucket);
      CurveGrows(curve, curve, pairs, b);
      return ece, curve;
    }
    var size := |bucket| as real;
    var pred := Total(Probability, bucket) / size;
    var obs := Total(Outcome, bucket) / size;
    EceStep(AbsBucketGaps(pairs, b), Total(Probability, bucket), Total(Outcome, bucket), size, n);
    newEce := ece + EceShare(pred, obs, size, n);
    var point := CurvePoint(b, pred, obs, |bucket|);
    CurveSnoc(curve, point, Total(Probability, bucket), Total(Outcome, bucket));
    newCurve := curve + [point];
    CurveGrows(curve, newCurve, pairs, b);
  }

  lemma NothingToAdd(bucket: seq<Pair>)
    requires bucket == []
    ensures Abs(Total(Difference, bucket)) == 0.0
    ensures forall w :: Total(w, bucket) == 0.0
  {
  }

  /** The bucket loop. */
  method ScoreBuckets(pairs: seq<Pair>) returns (ece: real, curve: seq<CurvePoint>)
    requires pairs != []
    ensures Scored(ece, curve, pairs, 6)
  {
    hide Scored;
    ece, curve := 0.0, [];
    NothingScored(pairs);
    for b := 0 to 6
      invariant Scored(ece, curve, pairs, b)
    {
      ece, curve := AddBucket(ece, curve, pairs, b);
    }
  }

  /** What the metrics report: the two scores, and a curve of the non-empty buckets whose totals are theirs. */
  ghost predicate Reports(m: Metrics, pairs: seq<Pair>)
    requires pairs != []
  {
    && m.n == |pairs|
    && m.brier == Brier(pairs)
    && m.ece == Ece(pairs)
    && IsCurve(m.curve, pairs, 6)
    && CurveCount(m.curve) as real == BucketTotals(One, pairs, 6)
    && CurveMass(m.curve, true) == BucketTotals(Probability, pairs, 6)
    && CurveMass(m.curve, false) == BucketTotals(Outcome, pairs, 6)
  }

  /** None for an empty list. */
  method CalibrationMetrics(pairs: seq<Pair>) returns (r: Option<Metrics>)
    ensures r.None? <==> pairs == []
    ensures r.Some? ==> Reports(r.value, pairs)
  {
    if pairs == [] {
      return None;
    }
    hide Scored, Brier, Ece, IsCurve, BucketTotals, CurveCount, CurveMass;
    var ece, curve := ScoreBuckets(pairs);
    ScoredAll(ece, curve, pairs);
    r := Some(Metrics(|pairs|, Brier(pairs), ece, curve));
  }

  lemma ScoredAll(ece: real, curve: seq<CurvePoint>, pairs: seq<Pair>)
    requires pairs != [] && Scored(ece, curve, pairs, 6)
    ensures ece == Ece(pairs) && IsCurve(curve, pairs, 6)
    ensures CurveCount(curve) as real == BucketTotals(One, pairs, 6)
    ensures CurveMass(curve, true) == BucketTotals(Probability, pairs, 6)
    ensures CurveMass(curve, false) == BucketTotals(Outcome, pairs, 6)
  {
  }

  // ---------------------------------------------------------------- every probability has one bucket

  /** What one pair contributes to the first `k` buckets. */
  function Share(w: Weight, x: Pair, k: nat): real
    requires k <= 6
  {
    if k == 0 then 0.0 else Share(w, x, k - 1) + if InBucket(x.0, k - 1) then Weigh(w, x) else 0.0
  }

  function Shares(w: Weight, pairs: seq<Pair>, k: nat): real
    requires k <= 6
  {
    if pairs == [] then 0.0
    else Shares(w, pairs[..|pairs| - 1], k) + Share(w, pairs[|pairs| - 1], k)
  }

  function BucketNumber(p: real): (b: nat)
    ensures b < 6
  {
    if p < 0.5 then 0 else if p < 0.6 then 1 else if p < 0.7 then 2
    else if p < 0.8 then 3 else if p < 0.9 then 4 else 5
  }

  lemma InBucketIff(p: real, b: nat)
    requires b < 6
    ensures InBucket(p, b) <==> 0.0 <= p < 1.01 && b == BucketNumber(p)
  {
  }

  lemma {:induction false} ShareOf(w: Weight, x: Pair, k: nat)
    requires k <= 6
    ensures Share(w, x, k) == if 0.0 <= x.0 < 1.01 && BucketNumber(x.0) < k then Weigh(w, x) else 0.0
  {
    hide InBucket, Weigh, BucketNumber;
    if k > 0 {
      ShareOf(w, x, k - 1);
      InBucketIff(x.0, k - 1);
    }
  }

  /** A number lies in exactly one bucket when it is in [0, 1.01) and in none otherwise. */
  lemma OneBucketEach(w: Weight, x: Pair)
    ensures 0.0 <= x.0 < 1.01 <==> exists b: nat :: b < 6 && InBucket(x.0, b)
    ensures forall b: nat, c: nat :: b < 6 && c < 6 && InBucket(x.0, b) && InBucket(x.0, c) ==> b == c
    ensures Share(w, x, 6) == if 0.0 <= x.0 < 1.01 then Weigh(w, x) else 0.0
  {
    hide InBucket, Weigh;
    forall b: nat | b < 6
      ensures InBucket(x.0, b) <==> 0.0 <= x.0 < 1.01 && b == BucketNumber(x.0)
    {
      InBucketIff(x.0, b);
    }
    ShareOf(w, x, 6);
    assert 0.0 <= x.0 < 1.01 ==> InBucket(x.0, BucketNumber(x.0));
  }

  lemma TotalSnoc(w: Weight, pairs: seq<Pair>, x: Pair)
    ensures Total(w, pairs + [x]) == Total(w, pairs) + Weigh(w, x)
  {
    assert (pairs + [x])[..|pairs|] == pairs;
  }

  lemma BucketSnoc(pairs: seq<Pair>, x: Pair, b: nat)
    requires b < 6
    ensures Bucket(pairs + [x], b) == if InBucket(x.0, b) then Bucket(pairs, b) + [x] else Bucket(pairs, b)
  {
    assert (pairs + [x])[..|pairs|] == pairs;
  }

  lemma {:induction false} BucketOfSnoc(w: Weight, pairs: seq<Pair>, x: Pair, k: nat)
    requires k <= 6
    ensures BucketTotals(w, pairs + [x], k) == BucketTotals(w, pairs, k) + Share(w, x, k)
  {
    hide Weigh, InBucket, Bucket, Total;
    if k > 0 {
      BucketOfSnoc(w, pairs, x, k - 1);
      BucketSnoc(pairs, x, k - 1);
      TotalSnoc(w, Bucket(pairs, k - 1), x);
    }
  }

  lemma {:induction false} BucketTotalsAreShares(w: Weight, pairs: seq<Pair>, k: nat)
    requires k <= 6
    ensures BucketTotals(w, pairs, k) == Shares(w, pairs, k)
  {
    if pairs == [] {
      NoPairsNoTotals(w, k);
    } else {
      var front := pairs[..|pairs| - 1];
      BucketTotalsAreShares(w, front, k);
      BucketOfSnoc(w, front, pairs[|pairs| - 1], k);
      assert pairs == front + [pairs[|pairs| - 1]];
    }
  }

  lemma {:induction false} NoPairsNoTotals(w: Weight, k: nat)
    requires k <= 6
    ensures BucketTotals(w, [], k) == 0.0
  {
    if k > 0 {
      NoPairsNoTotals(w, k - 1);
    }
  }

  lemma {:induction false} SharesPartition(w: Weight, pairs: seq<Pair>)
    requires forall x :: x in pairs ==> 0.0 <= x.0 < 1.01
    ensures Shares(w, pairs, 6) == Total(w, pairs)
  {
    if pairs != [] {
      assert pairs[|pairs| - 1] in pairs;
      SharesPartition(w, pairs[..|pairs| - 1]);
      OneBucketEach(w, pairs[|pairs| - 1]);
    }
  }

  lemma {:induction false} SharesOfAbs(pairs: seq<Pair>)
    ensures Shares(AbsDifference, pairs, 6) <= Total(AbsDifference, pairs)
  {
    if pairs != [] {
      SharesOfAbs(pairs[..|pairs| - 1]);
      OneBucketEach(AbsDifference, pairs[|pairs| - 1]);
    }
  }

  /** The buckets partition the pairs of probabilities in [0, 1.01): counts, predicted mass and observed mass. */
  lemma BucketsPartition(w: Weight, pairs: seq<Pair>)
    requires forall x :: x in pairs ==> 0.0 <= x.0 < 1.01
    ensures BucketTotals(w, pairs, 6) == Total(w, pairs)
  {
    BucketTotalsAreShares(w, pairs, 6);
    SharesPartition(w, pairs);
  }

  lemma {:induction false} SharesOfOne(pairs: seq<Pair>)
    ensures Shares(One, pairs, 6) <= |pairs| as real
    ensures Shares(One, pairs, 6) == |pairs| as real <==>
            forall i :: 0 <= i < |pairs| ==> 0.0 <= pairs[i].0 < 1.01
  {
    if pairs != [] {
      var n := |pairs| - 1;
      SharesOfOne(pairs[..n]);
      OneBucketEach(One, pairs[n]);
      assert forall i :: 0 <= i < n ==> pairs[..n][i] == pairs[i];
    }
  }

  /** The counts of the curve add up to the number of pairs exactly when every probability is in [0, 1.01). */
  lemma AllCountedIff(pairs: seq<Pair>)
    ensures BucketTotals(One, pairs, 6) == |pairs| as real <==>
            forall i :: 0 <= i < |pairs| ==> 0.0 <= pairs[i].0 < 1.01
  {
    BucketTotalsAreShares(One, pairs, 6);
    SharesOfOne(pairs);
  }

  // ---------------------------------------------------------------- ECE against the other errors

  lemma {:induction false} BucketGapsBounded(pairs: seq<Pair>, k: nat)
    requires k <= 6
    ensures 0.0 <= AbsBucketGaps(pairs, k) <= BucketTotals(AbsDifference, pairs, k)
  {
    if k > 0 {
      BucketGapsBounded(pairs, k - 1);
      TotalsOfList(Bucket(pairs, k - 1));
    }
  }

  function AbsOf(s: seq<real>): seq<real> {
    seq(|s|, i requires 0 <= i < |s| => Abs(s[i]))
  }

  function Ones(n: nat): seq<real> {
    seq(n, _ => 1.0)
  }

  lemma GapsSnoc(pairs: seq<Pair>, x: Pair)
    ensures Gaps(pairs + [x]) == Gaps(pairs) + [Gap(x)]
    ensures AbsOf(Gaps(pairs + [x])) == AbsOf(Gaps(pairs)) + [Abs(Gap(x))]
    ensures Ones(|pairs + [x]|) == Ones(|pairs|) + [1.0]
  {
  }

  lemma DotSnoc(x: seq<real>, y: seq<real>, a: real, b: real)
    requires |x| == |y|
    ensures Dot(x + [a], y + [b]) == Dot(x, y) + a * b
  {
    assert (x + [a])[..|x|] == x && (y + [b])[..|y|] == y;
  }

  lemma {:induction false} TotalsAsDots(pairs: seq<Pair>)
    ensures var g := AbsOf(Gaps(pairs));
            && Dot(g, Ones(|pairs|)) == Total(AbsDifference, pairs)
            && Dot(g, g) == Dot(Gaps(pairs), Gaps(pairs))
            && Dot(Ones(|pairs|), Ones(|pairs|)) == |pairs| as real
  {
    if pairs != [] {
      hide Gap, Dot, Gaps, AbsOf, Ones;
      var front, last := pairs[..|pairs| - 1], pairs[|pairs| - 1];
      TotalsAsDots(front);
      OnesLength(front);
      GapsSnoc(front, last);
      assert pairs == front + [last];
      var g, a := Gap(last), Abs(Gap(last));
      DotSnoc(AbsOf(Gaps(front)), Ones(|front|), a, 1.0);
      DotSnoc(AbsOf(Gaps(front)), AbsOf(Gaps(front)), a, a);
      DotSnoc(Gaps(front), Gaps(front), g, g);
      DotSnoc(Ones(|front|), Ones(|front|), 1.0, 1.0);
      assert a * a == g * g;
    }
  }

  lemma AbsoluteErrorBounds(pairs: seq<Pair>)
    ensures 0.0 <= AbsBucketGaps(pairs, 6) <= Total(AbsDifference, pairs)
  {
    BucketGapsBounded(pairs, 6);
    BucketTotalsAreShares(AbsDifference, pairs, 6);
    SharesOfAbs(pairs);
  }

  lemma AbsoluteErrorSquared(pairs: seq<Pair>)
    ensures Square(Total(AbsDifference, pairs)) <= Dot(Gaps(pairs), Gaps(pairs)) * |pairs| as real
  {
    hide Dot, Total, Gaps, AbsOf, Ones;
    TotalsAsDots(pairs);
    OnesLength(pairs);
    CauchySchwarzOn(AbsOf(Gaps(pairs)), Ones(|pairs|),
                    Dot(Gaps(pairs), Gaps(pairs)), Total(AbsDifference, pairs), |pairs| as real);
  }

  lemma OnesLength(pairs: seq<Pair>)
    ensures |Gaps(pairs)| == |AbsOf(Gaps(pairs))| == |Ones(|pairs|)|
  {
  }

  /** ECE is at most the mean absolute error, and its square at most the Brier score, for any list at all. */
  lemma EceBounds(pairs: seq<Pair>)
    requires pairs != []
    ensures 0.0 <= Ece(pairs) <= MeanAbsoluteError(pairs)
    ensures Square(Ece(pairs)) <= Brier(pairs)
  {
    hide Dot, Total, AbsBucketGaps, Gaps, Square;
    AbsoluteErrorBounds(pairs);
    AbsoluteErrorSquared(pairs);
    MeanSquare(AbsBucketGaps(pairs, 6), Total(AbsDifference, pairs), Dot(Gaps(pairs), Gaps(pairs)), |pairs| as real);
  }

  lemma Regroup(a: real, b: real, c: real)
    ensures a * (b * c) == (a * b) * c && (a * b) * c == (a * c) * b
  {
  }

  lemma SquareOfProduct(a: real, n: real)
    ensures Square(a * n) == (Square(a) * n) * n
  {
    Regroup(a * n, a, n);
    Regroup(a, n, a);
  }

  lemma MeanSquare(raw: real, absolute: real, squares: real, n: real)
    requires n > 0.0 && 0.0 <= raw <= absolute && Square(absolute) <= squares * n
    ensures 0.0 <= raw / n <= absolute / n
    ensures Square(raw / n) <= squares / n
  {
    hide Square;
    DivideMonotone(0.0, raw, n);
    DivideMonotone(raw, absolute, n);
    SquareMonotone(raw, absolute);
    var mean := raw / n;
    assert raw == mean * n;
    SquareOfProduct(mean, n);
    ProductOrder(Square(mean) * n, squares, n);
    QuotientBound(squares, n, Square(mean));
  }

  // ---------------------------------------------------------------- the Brier score

  /** The score is the mean squared gap between forecast and outcome. */
  lemma BrierIsMean(pairs: seq<Pair>)
    requires pairs != []
    ensures |pairs| as real * Brier(pairs) == Dot(Gaps(pairs), Gaps(pairs))
    ensures forall i :: 0 <= i < |pairs| ==> Gaps(pairs)[i] == pairs[i].0 - pairs[i].1 as real
  {
    var squares, n := Dot(Gaps(pairs), Gaps(pairs)), |pairs| as real;
    assert n * (squares / n) == squares;
  }
}
