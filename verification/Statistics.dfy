/** Sums of products and the Cauchy-Schwarz inequality, on exact reals. */
module Statistics {
  import opened Common

  /** Sum of x[i] * y[i]. */
  function Dot(x: seq<real>, y: seq<real>): real
    requires |x| == |y|
  {
    if x == [] then 0.0
    else
      var n := |x| - 1;
      Dot(x[..n], y[..n]) + x[n] * y[n]
  }

  function Mean(s: seq<real>): real
    requires s != []
  {
    Sum(s) / |s| as real
  }

  function Centered(s: seq<real>): (r: seq<real>)
    requires s != []
    ensures |r| == |s|
  {
    seq(|s|, i requires 0 <= i < |s| => s[i] - Mean(s))
  }

  /** Sum of (c x[i] - d y[i])^2. */
  ghost function SquareOfCombination(x: seq<real>, y: seq<real>, c: real, d: real): real
    requires |x| == |y|
  {
    if x == [] then 0.0
    else
      var n := |x| - 1;
      SquareOfCombination(x[..n], y[..n], c, d) + Square(c * x[n] - d * y[n])
  }

  function Square(a: real): (r: real)
    ensures r >= 0.0
  {
    a * a
  }

  lemma ExpandSquare(a: real, b: real, c: real, d: real)
    ensures Square(c * a - d * b) == c * c * (a * a) - 2.0 * (c * d) * (a * b) + d * d * (b * b)
  {
  }

  lemma {:induction false} CombinationExpands(x: seq<real>, y: seq<real>, c: real, d: real)
    requires |x| == |y|
    ensures SquareOfCombination(x, y, c, d) >= 0.0
    ensures SquareOfCombination(x, y, c, d) == c * c * Dot(x, x) - 2.0 * (c * d) * Dot(x, y) + d * d * Dot(y, y)
  {
    if x != [] {
      var n := |x| - 1;
      CombinationExpands(x[..n], y[..n], c, d);
      ExpandSquare(x[n], y[n], c, d);
      Distribute(c * c, Dot(x[..n], x[..n]), x[n] * x[n]);
      Distribute(2.0 * (c * d), Dot(x[..n], y[..n]), x[n] * y[n]);
      Distribute(d * d, Dot(y[..n], y[..n]), y[n] * y[n]);
    }
  }

  lemma Distribute(k: real, a: real, b: real)
    ensures k * (a + b) == k * a + k * b
  {
  }

  lemma {:induction false} DotSymmetric(x: seq<real>, y: seq<real>)
    requires |x| == |y|
    ensures Dot(x, y) == Dot(y, x)
  {
    if x != [] {
      DotSymmetric(x[..|x| - 1], y[..|y| - 1]);
    }
  }

  lemma {:induction false} ZeroNormZeroDot(x: seq<real>, y: seq<real>)
    requires |x| == |y|
    ensures Dot(y, y) >= 0.0
    ensures Dot(y, y) == 0.0 ==> Dot(x, y) == 0.0
  {
    if x != [] {
      var n := |x| - 1;
      ZeroNormZeroDot(x[..n], y[..n]);
      assert y[n] * y[n] == Square(y[n]);
      if y[n] != 0.0 {
        SquarePositive(y[n]);
      }
    }
  }

  lemma SquarePositive(a: real)
    requires a != 0.0
    ensures a * a > 0.0
  {
    var b := Abs(a);
    MulStrict(0.0, b, b);
    assert a * a == b * b;
  }

  function Expansion(xx: real, xy: real, yy: real): real {
    yy * yy * xx - 2.0 * (yy * xy) * xy + xy * xy * yy
  }

  /** The combination with the norms as coefficients, on the three sums of products. */
  lemma CombinationOfNorms(x: seq<real>, y: seq<real>, xx: real, xy: real, yy: real) returns (combination: real)
    requires |x| == |y|
    requires xx == Dot(x, x) && xy == Dot(x, y) && yy == Dot(y, y)
    ensures combination == Expansion(xx, xy, yy) && combination >= 0.0
  {
    CombinationExpands(x, y, yy, xy);
    combination := SquareOfCombination(x, y, yy, xy);
  }

  lemma CauchySchwarz(x: seq<real>, y: seq<real>)
    requires |x| == |y|
    ensures Dot(x, y) * Dot(x, y) <= Dot(x, x) * Dot(y, y)
  {
    ZeroNormZeroDot(x, y);
    var combination := CombinationOfNorms(x, y, Dot(x, x), Dot(x, y), Dot(y, y));
    Factor(Dot(x, x), Dot(x, y), Dot(y, y), combination);
  }

  /** The same inequality with the three sums named. */
  lemma CauchySchwarzOn(x: seq<real>, y: seq<real>, xx: real, xy: real, yy: real)
    requires |x| == |y|
    requires xx == Dot(x, x) && xy == Dot(x, y) && yy == Dot(y, y)
    ensures Square(xy) <= xx * yy
  {
    CauchySchwarz(x, y);
  }

  lemma Factor(xx: real, xy: real, yy: real, combination: real)
    requires yy >= 0.0 && (yy == 0.0 ==> xy == 0.0) && combination >= 0.0
    requires combination == Expansion(xx, xy, yy)
    ensures xy * xy <= xx * yy
  {
    var gap := xx * yy - xy * xy;
    assert combination == yy * gap;
    if gap < 0.0 && yy > 0.0 {
      MulStrict(gap, 0.0, yy);
    }
  }

  /** For non-negative bounds, comparing squares is comparing the numbers. */
  lemma SquaresOrder(a: real, b: real)
    requires b >= 0.0 && a * a <= b * b
    ensures -b <= a <= b
  {
    if a > b {
      SquareStrict(b, a);
    } else if -a > b {
      assert (-a) * (-a) == a * a;
      SquareStrict(b, -a);
    }
  }

  lemma SquareStrict(b: real, a: real)
    requires 0.0 <= b < a
    ensures b * b < a * a
  {
    MulStrict(0.0, a - b, a + b);
    assert (a - b) * (a + b) == a * a - b * b;
  }

  lemma ProductsMonotone(a: real, b: real)
    requires 0.0 <= a <= b
    ensures a * a <= b * b
  {
    MulMonotone(a, b, a);
    MulMonotone(a, b, b);
    assert a * a <= b * a && b * a <= b * b;
  }

  lemma SquareMonotone(a: real, b: real)
    requires 0.0 <= a <= b
    ensures Square(a) <= Square(b)
  {
    ProductsMonotone(a, b);
  }

  /** A product that is not looked into. */
  function Multiply(a: real, b: real): real {
    a * b
  }

  lemma SquareOfMultiply(a: real, b: real)
    ensures Square(Multiply(a, b)) == Multiply(Square(a), Square(b))
  {
    assert (a * b) * (a * b) == (a * a) * (b * b);
  }

  lemma MultiplyPositive(a: real, b: real)
    requires a > 0.0 && b > 0.0
    ensures Multiply(a, b) > 0.0
  {
    MulStrict(0.0, a, b);
  }

  lemma MultiplyIsOne(a: real, b: real)
    requires b > 0.0 && Multiply(a, b) == b
    ensures a == 1.0
  {
    if a < 1.0 {
      MulStrict(a, 1.0, b);
    } else if a > 1.0 {
      MulStrict(1.0, a, b);
    }
  }

  lemma SquareIsOne(a: real)
    requires Square(a) == 1.0
    ensures a == 1.0 || a == -1.0
  {
    assert (a - 1.0) * (a + 1.0) == a * a - 1.0;
    if a > 1.0 {
      SquareStrict(1.0, a);
    } else if a < -1.0 {
      SquareStrict(1.0, -a);
    } else if 0.0 <= a < 1.0 {
      SquareStrict(a, 1.0);
    } else if -1.0 < a < 0.0 {
      SquareStrict(-a, 1.0);
    }
  }

  /** A square root function: the non-negative root of every non-negative number. */
  ghost predicate IsRoot(sqrt: real -> real) {
    forall v {:trigger RootAt(sqrt, v)} :: v >= 0.0 ==> RootAt(sqrt, v)
  }

  ghost predicate RootAt(sqrt: real -> real, v: real) {
    sqrt(v) >= 0.0 && Square(sqrt(v)) == v
  }

  lemma RootPositive(sqrt: real -> real, v: real)
    requires IsRoot(sqrt) && v > 0.0
    ensures sqrt(v) > 0.0 && Square(sqrt(v)) == v
  {
    assert RootAt(sqrt, v);
  }

  /** A quotient, read as 0 where the code never divides. */
  function Ratio(a: real, b: real): real {
    if b == 0.0 then 0.0 else a / b
  }

  /** xy over the product of the roots of xx and yy. */
  function OverRoots(xx: real, xy: real, yy: real, sqrt: real -> real): real {
    Ratio(xy, sqrt(xx) * sqrt(yy))
  }

  function Cosine(x: seq<real>, y: seq<real>, sqrt: real -> real): real
    requires |x| == |y|
  {
    OverRoots(Dot(x, x), Dot(x, y), Dot(y, y), sqrt)
  }

  /** With a true square root, the cosine of two vectors that are not zero lies in [-1, 1] and is symmetric. */
  lemma CosineBounded(x: seq<real>, y: seq<real>, sqrt: real -> real)
    requires |x| == |y| && IsRoot(sqrt)
    requires Dot(x, x) > 0.0 && Dot(y, y) > 0.0
    ensures -1.0 <= Cosine(x, y, sqrt) <= 1.0
    ensures Cosine(x, y, sqrt) == Cosine(y, x, sqrt)
  {
    DotSymmetric(x, y);
    CauchySchwarzOn(x, y, Dot(x, x), Dot(x, y), Dot(y, y));
    OverRootsBounded(Dot(x, x), Dot(x, y), Dot(y, y), sqrt);
  }

  lemma OverRootsBounded(xx: real, xy: real, yy: real, sqrt: real -> real)
    requires IsRoot(sqrt) && xx > 0.0 && yy > 0.0 && Square(xy) <= xx * yy
    ensures -1.0 <= OverRoots(xx, xy, yy, sqrt) <= 1.0
    ensures OverRoots(xx, xy, yy, sqrt) == OverRoots(yy, xy, xx, sqrt)
  {
    RootPositive(sqrt, xx);
    RootPositive(sqrt, yy);
    RatioOfRoots(xx, xy, yy, sqrt(xx), sqrt(yy));
  }

  lemma RatioOfRoots(xx: real, xy: real, yy: real, rx: real, ry: real)
    requires rx > 0.0 && ry > 0.0 && xx == Square(rx) && yy == Square(ry) && Square(xy) <= xx * yy
    ensures -1.0 <= Ratio(xy, rx * ry) <= 1.0
    ensures Ratio(xy, rx * ry) == Ratio(xy, ry * rx)
  {
    var r := rx * ry;
    MulStrict(0.0, rx, ry);
    assert Square(rx) * Square(ry) == r * r;
    SquaresOrder(xy, r);
    QuotientBound(xy, r, 1.0);
    QuotientBound(xy, r, -1.0);
  }

  lemma {:induction false} DotWithItself(x: seq<real>)
    ensures Dot(x, x) >= 0.0
  {
    if x != [] {
      DotWithItself(x[..|x| - 1]);
      assert Square(x[|x| - 1]) >= 0.0;
    }
  }

  // ---------------------------------------------------------------- centered lists

  function Shifted(s: seq<real>, shift: real): seq<real> {
    seq(|s|, i requires 0 <= i < |s| => s[i] - shift)
  }

  lemma ShiftedSnoc(s: seq<real>, x: real, shift: real)
    ensures Shifted(s + [x], shift) == Shifted(s, shift) + [x - shift]
  {
  }

  lemma OneMoreTimes(n: int, x: real)
    ensures (n + 1) as real * x == n as real * x + x
  {
  }

  lemma {:induction false} SumOfShifted(s: seq<real>, shift: real)
    ensures Sum(Shifted(s, shift)) == Sum(s) - |s| as real * shift
  {
    if s != [] {
      var front, last := s[..|s| - 1], s[|s| - 1];
      SumOfShifted(front, shift);
      assert s == front + [last];
      ShiftedSnoc(front, last, shift);
      SumSnoc(front, last);
      SumSnoc(Shifted(front, shift), last - shift);
      OneMoreTimes(|front|, shift);
    }
  }

  /** What is centered adds up to nothing, and differs from the list by one and the same amount. */
  lemma CenteredAddsToNothing(s: seq<real>)
    requires s != []
    ensures Sum(Centered(s)) == 0.0
    ensures forall i, j :: 0 <= i < |s| && 0 <= j < |s| ==> Centered(s)[i] - s[i] == Centered(s)[j] - s[j]
  {
    SumOfShifted(s, Mean(s));
    assert Centered(s) == Shifted(s, Mean(s));
    MeanTimesLength(Sum(s), |s| as real);
  }

  lemma MeanTimesLength(sum: real, n: real)
    requires n > 0.0
    ensures n * (sum / n) == sum
  {
  }

  // ---------------------------------------------------------------- quotients by a root

  /** For r > 0, xy / r has the sign of xy, its square is that of xy over that of r, and it is at least a level
      between 0 and 1 exactly when its square is. */
  lemma QuotientFacts(xy: real, r: real, level: real)
    requires r > 0.0 && level > 0.0
    ensures var q := Ratio(xy, r);
            && (q > 0.0 <==> xy > 0.0) && (q < 0.0 <==> xy < 0.0)
            && Multiply(Square(q), Square(r)) == Square(xy)
            && (q >= level <==> xy > 0.0 && Square(xy) >= Multiply(Square(level), Square(r)))
  {
    var q, bound := Ratio(xy, r), Multiply(level, r);
    QuotientBound(xy, r, 0.0);
    QuotientBound(xy, r, level);
    assert Multiply(q, r) == xy;
    SquareOfMultiply(q, r);
    SquareOfMultiply(level, r);
    MultiplyPositive(level, r);
    assert q >= level <==> xy >= bound;
    hide Multiply, Ratio;
    if xy > 0.0 {
      SquaresCompare(bound, xy);
    }
  }

  lemma SquaresCompare(a: real, b: real)
    requires a > 0.0 && b > 0.0
    ensures a <= b <==> Square(a) <= Square(b)
  {
    if a <= b {
      SquareMonotone(a, b);
    } else {
      SquareStrict(b, a);
    }
  }
}
