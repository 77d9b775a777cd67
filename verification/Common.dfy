/** Values shared by every part of the desk: optional values, trade directions, exact real arithmetic
    and Python's decimal rounding. */
module Common {

  datatype Option<+T> = None | Some(value: T) {
    function GetOr(default: T): T {
      match this
      case Some(v) => v
      case None => default
    }
  }

  function ListOf<T>(x: Option<T>): seq<T> {
    if x.Some? then [x.value] else []
  }

  /** BUY is a long position, SELL a short one. */
  datatype Direction = Buy | Sell {
    function Sign(): real {
      if this == Buy then 1.0 else -1.0
    }

    function Opposite(): Direction {
      if this == Buy then Sell else Buy
    }
  }

  function Min(a: real, b: real): real {
    if b < a then b else a
  }

  function Max(a: real, b: real): real {
    if b > a then b else a
  }

  function Abs(a: real): real {
    if a < 0.0 then -a else a
  }

  function MaxInt(a: int, b: int): int {
    if b > a then b else a
  }

  // ---------------------------------------------------------------- sums

  /** The sum of a list, accumulated left to right as a loop does. */
  function Sum(s: seq<real>): real {
    if s == [] then 0.0 else Sum(s[..|s| - 1]) + s[|s| - 1]
  }

  lemma SumSnoc(s: seq<real>, x: real)
    ensures Sum(s + [x]) == Sum(s) + x
  {
    assert (s + [x])[..|s|] == s;
  }

  lemma SumPrefix(s: seq<real>, i: nat)
    requires i < |s|
    ensures Sum(s[..i + 1]) == Sum(s[..i]) + s[i]
  {
    assert s[..i + 1] == s[..i] + [s[i]];
    SumSnoc(s[..i], s[i]);
  }

  // ---------------------------------------------------------------- rounding

  /** Python's `round` to an integer: halves go to the even neighbour. */
  function RoundHalfEven(x: real): int {
    var below := x.Floor;
    var rest := x - below as real;
    if rest < 0.5 then below
    else if rest > 0.5 then below + 1
    else if below % 2 == 0 then below
    else below + 1
  }

  /** Python's `round(x, digits)` on exact reals, for `scale == 10^digits`. */
  function RoundAt(x: real, scale: real): real
    requires scale > 0.0
  {
    RoundHalfEven(x * scale) as real / scale
  }

  const CENTS := 100.0
  const FOUR_DECIMALS := 10000.0
  const TEN_DECIMALS := 10000000000.0

  /** Rounding moves a value by at most half a unit in the last decimal kept. */
  lemma RoundAtError(x: real, scale: real)
    requires scale > 0.0
    ensures Abs(RoundAt(x, scale) - x) <= 0.5 / scale
  {
    var y := x * scale;
    ScaledDistance(RoundHalfEven(y) as real, x, y, scale);
  }

  lemma ScaledDistance(n: real, x: real, y: real, scale: real)
    requires scale > 0.0 && y == x * scale && -0.5 <= n - y <= 0.5
    ensures Abs(n / scale - x) <= 0.5 / scale
  {
    QuotientBound(n, scale, x + 0.5 / scale);
    QuotientBound(n, scale, x - 0.5 / scale);
    assert (0.5 / scale) * scale == 0.5;
    SumTimes(x, 0.5 / scale, scale);
    SumTimes(x, -(0.5 / scale), scale);
  }

  lemma SumTimes(a: real, b: real, c: real)
    ensures (a + b) * c == a * c + b * c
    ensures (-b) * c == -(b * c)
  {
  }

  /** Values that already have that many decimals are left alone. */
  lemma RoundAtExact(k: int, x: real, scale: real)
    requires scale > 0.0 && x * scale == k as real
    ensures RoundAt(x, scale) == x
  {
    assert RoundHalfEven(k as real) == k;
    assert x == (x * scale) / scale;
  }

  // ---------------------------------------------------------------- real arithmetic

  lemma DivideMonotone(a: real, b: real, c: real)
    requires a <= b && c > 0.0
    ensures a / c <= b / c
  {
    assert b / c - a / c == (b - a) / c;
  }

  lemma MulMonotone(a: real, b: real, c: real)
    requires a <= b && c >= 0.0
    ensures a * c <= b * c && c * a <= c * b
  {
    assert (b - a) * c >= 0.0;
  }

  lemma MulStrict(a: real, b: real, c: real)
    requires a < b && c > 0.0
    ensures a * c < b * c && c * a < c * b
  {
    assert (b - a) * c > 0.0;
    assert (b - a) * c == b * c - a * c;
  }

  lemma ScaledNear(a: real, b: real, error: real, scale: real, x: real, y: real)
    requires scale > 0.0 && Abs(a - b) <= error
    requires x == a * scale && y == b * scale
    ensures Abs(x - y) <= error * scale
  {
    MulMonotone(a - b, error, scale);
    MulMonotone(-error, a - b, scale);
    assert (a - b) * scale == x - y;
    assert (-error) * scale == -(error * scale);
  }

  /** `amount * weight`: part of the amount when the weight is a fraction. */
  function Portion(amount: real, weight: real): (r: real)
    ensures amount >= 0.0 && 0.0 <= weight <= 1.0 ==> 0.0 <= r <= amount
  {
    var r := amount * weight;
    assert amount >= 0.0 && 0.0 <= weight <= 1.0 ==> 0.0 <= r <= amount by {
      if amount >= 0.0 && 0.0 <= weight <= 1.0 {
        MulMonotone(weight, 1.0, amount);
        MulMonotone(0.0, weight, amount);
      }
    }
    r
  }

  /** For a positive divisor, a quotient is under a bound exactly when the numerator is under the product. */
  lemma QuotientBound(a: real, b: real, c: real)
    requires b > 0.0
    ensures a / b <= c <==> a <= c * b
    ensures a / b >= c <==> a >= c * b
    ensures a / b < c <==> a < c * b
  {
    assert a == (a / b) * b;
    ProductOrder(a / b, c, b);
  }

  lemma ProductOrder(q: real, c: real, b: real)
    requires b > 0.0
    ensures q <= c <==> q * b <= c * b
    ensures q < c <==> q * b < c * b
  {
    if q < c {
      MulStrict(q, c, b);
    } else if c < q {
      MulStrict(c, q, b);
    }
  }
}
