/** Maximum drawdown of a list of results (src/evaluation/pnl.py). */
module Drawdown {
  import opened Common

  /** The equity curve after the first `i` results. */
  function Curve(pnls: seq<real>, i: nat): real
    requires i <= |pnls|
  {
    Sum(pnls[..i])
  }

  /** The fall from an earlier point of the curve to a later one. */
  function Fall(pnls: seq<real>, i: nat, j: nat): real
    requires i <= |pnls| && j <= |pnls|
  {
    Curve(pnls, i) - Curve(pnls, j)
  }

  /** The quadratic definition: the largest fall between any two points in order, the start included. */
  ghost predicate IsMaxDrawdown(pnls: seq<real>, d: real) {
    && (forall i, j :: 0 <= i <= j <= |pnls| ==> Fall(pnls, i, j) <= d)
    && exists i, j :: 0 <= i <= j <= |pnls| && Fall(pnls, i, j) == d
  }

  /** One pass with a running peak. */
  method MaxDrawdown(pnls: seq<real>) returns (maxDd: real)
    ensures IsMaxDrawdown(pnls, maxDd)
    ensures maxDd >= 0.0
  {
    var curve, peak := 0.0, 0.0;
    maxDd := 0.0;
    ghost var top, from, to := 0, 0, 0;
    assert Curve(pnls, 0) == 0.0;
    for n := 0 to |pnls|
      invariant curve == Curve(pnls, n)
      invariant 0 <= top <= n && peak == Curve(pnls, top)
      invariant forall i :: 0 <= i <= n ==> Curve(pnls, i) <= peak
      invariant 0 <= from <= to <= n && maxDd == Fall(pnls, from, to) && maxDd >= 0.0
      invariant forall i, j :: 0 <= i <= j <= n ==> Fall(pnls, i, j) <= maxDd
    {
      SumPrefix(pnls, n);
      curve := curve + pnls[n];
      if curve > peak {
        top := n + 1;
      }
      peak := Max(peak, curve);
      if peak - curve > maxDd {
        from, to := top, n + 1;
      }
      maxDd := Max(maxDd, peak - curve);
    }
  }

  /** The definition determines the number, so the one-pass result is the quadratic one. */
  lemma MaxDrawdownUnique(pnls: seq<real>, d: real, e: real)
    requires IsMaxDrawdown(pnls, d) && IsMaxDrawdown(pnls, e)
    ensures d == e
  {
    var i, j :| 0 <= i <= j <= |pnls| && Fall(pnls, i, j) == d;
    assert Fall(pnls, i, j) <= e;
  }

  /** Adding results at the end never makes the drawdown smaller, and by no more than the losses added. */
  lemma DrawdownGrows(pnls: seq<real>, p: real, d: real, e: real)
    requires IsMaxDrawdown(pnls, d) && IsMaxDrawdown(pnls + [p], e)
    ensures d <= e <= d + Max(0.0, -p)
  {
    var more := pnls + [p];
    forall i | 0 <= i <= |pnls|
      ensures Curve(more, i) == Curve(pnls, i)
    {
      assert more[..i] == pnls[..i];
    }
    SumPrefix(more, |pnls|);
    var i, j :| 0 <= i <= j <= |pnls| && Fall(pnls, i, j) == d;
    assert Fall(more, i, j) == d;
    var u, v :| 0 <= u <= v <= |more| && Fall(more, u, v) == e;
    assert Fall(pnls, 0, 0) <= d;
    if v == |more| {
      if u == v {
        assert e == 0.0;
      } else {
        assert Fall(pnls, u, |pnls|) <= d;
      }
    } else {
      assert Fall(pnls, u, v) <= d;
    }
  }
}
