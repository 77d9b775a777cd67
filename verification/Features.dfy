/** Price lookups on time series (src/quant/features.py). Times are whole seconds; logarithm and square root are
    the functions passed in. */
module Features {
  import opened Common
  import opened Sorting
  import opened Statistics

  datatype Point = Point(ts: int, value: real)

  type Series = seq<Point>

  datatype Maths = Maths(log: real -> real, sqrt: real -> real)

  ghost predicate Ordered(s: Series) {
    forall i, j :: 0 <= i < j < |s| ==> s[i].ts <= s[j].ts
  }

  // ---------------------------------------------------------------- _sorted

  function TimeOf(p: Point): real {
    p.ts as real
  }

  function Sorted(s: Series): (r: Series)
    ensures multiset(r) == multiset(s)
  {
    StableSort(s, TimeOf)
  }

  lemma SortedOrdered(s: Series)
    ensures Ordered(Sorted(s))
  {
    StableSortInOrder(s, TimeOf);
    var t := Sorted(s);
    forall i, j | 0 <= i < j < |t|
      ensures t[i].ts <= t[j].ts
    {
      assert TimeOf(t[i]) <= TimeOf(t[j]);
    }
  }

  lemma SortedIsIdentity(s: Series)
    requires Ordered(s)
    ensures Sorted(s) == s
  {
    StableSortIdle(s, TimeOf);
  }

  // ---------------------------------------------------------------- price_at_or_before

  /** The value of the last listed point whose time is not after `ts`. */
  function Latest(s: Series, ts: int): Option<real> {
    if s == [] then None
    else if s[|s| - 1].ts <= ts then Some(s[|s| - 1].value)
    else Latest(s[..|s| - 1], ts)
  }

  /** `p` is a point of the series at or before `ts`, and none is later. */
  ghost predicate IsLatest(s: Series, ts: int, p: Point) {
    p in s && p.ts <= ts && forall q :: q in s && q.ts <= ts ==> q.ts <= p.ts
  }

  lemma {:induction false} LatestIsLatest(s: Series, ts: int)
    requires Ordered(s)
    ensures Latest(s, ts).None? <==> forall p :: p in s ==> p.ts > ts
    ensures Latest(s, ts).Some? ==> exists p :: IsLatest(s, ts, p) && p.value == Latest(s, ts).value
  {
    if s != [] {
      var n := |s| - 1;
      assert s == s[..n] + [s[n]];
      if s[n].ts <= ts {
        assert IsLatest(s, ts, s[n]);
      } else {
        LatestIsLatest(s[..n], ts);
        if Latest(s[..n], ts).Some? {
          var p :| IsLatest(s[..n], ts, p) && p.value == Latest(s[..n], ts).value;
          assert IsLatest(s, ts, p);
        }
      }
    }
  }

  lemma SameMembers(s: Series, p: Point)
    ensures p in Sorted(s) <==> p in s
  {
    assert p in Sorted(s) <==> p in multiset(Sorted(s));
    assert p in s <==> p in multiset(s);
  }

  lemma RestIsLater(sorted: Series, i: nat, ts: int)
    requires Ordered(sorted) && i < |sorted| && sorted[i].ts > ts
    ensures Latest(sorted, ts) == Latest(sorted[..i], ts)
  {
    assert sorted == sorted[..i] + sorted[i..];
    LaterPointsIgnored(sorted[..i], sorted[i..], ts);
  }

  /** The loop over the sorted points, which stops at the first later one. */
  method ScanSorted(sorted: Series, ts: int) returns (best: Option<real>)
    requires Ordered(sorted)
    ensures best == Latest(sorted, ts)
  {
    best := None;
    for i := 0 to |sorted|
      invariant best == Latest(sorted[..i], ts)
    {
      if sorted[i].ts <= ts {
        best := Some(sorted[i].value);
      } else {
        RestIsLater(sorted, i, ts);
        return;
      }
      assert sorted[..i + 1][..i] == sorted[..i];
    }
    assert sorted[..|sorted|] == sorted;
  }

  /** The value of a latest point at or before `ts`, in whatever order the series comes; None when there is none. */
  method PriceAtOrBefore(series: Series, ts: int) returns (best: Option<real>)
    ensures best == Latest(Sorted(series), ts)
    ensures best.None? <==> forall p :: p in series ==> p.ts > ts
    ensures best.Some? ==> exists p :: IsLatest(series, ts, p) && p.value == best.value
  {
    SortedOrdered(series);
    best := ScanSorted(Sorted(series), ts);
    LatestOfAnySeries(series, ts);
  }

  lemma LatestOfAnySeries(series: Series, ts: int)
    ensures Latest(Sorted(series), ts).None? <==> forall p :: p in series ==> p.ts > ts
    ensures Latest(Sorted(series), ts).Some? ==>
              exists p :: IsLatest(series, ts, p) && p.value == Latest(Sorted(series), ts).value
  {
    SortedOrdered(series);
    LatestIsLatest(Sorted(series), ts);
    forall p {
      SameMembers(series, p);
    }
    if Latest(Sorted(series), ts).Some? {
      var p :| IsLatest(Sorted(series), ts, p) && p.value == Latest(Sorted(series), ts).value;
      assert IsLatest(series, ts, p);
    }
  }

  lemma {:induction false} LaterPointsIgnored(s: Series, rest: Series, ts: int)
    requires forall p :: p in rest ==> p.ts > ts
    ensures Latest(s + rest, ts) == Latest(s, ts)
  {
    if rest == [] {
      assert s + rest == s;
    } else {
      var n := |rest| - 1;
      assert rest[n] in rest;
      assert (s + rest)[..|s + rest| - 1] == s + rest[..n];
      LaterPointsIgnored(s, rest[..n], ts);
    }
  }

  // ---------------------------------------------------------------- realized_volatility

  function Between(s: Series, from: int, to: int): seq<real> {
    if s == [] then []
    else
      var last := s[|s| - 1];
      Between(s[..|s| - 1], from, to) + if from <= last.ts <= to then [last.value] else []
  }

  function LogReturns(values: seq<real>, maths: Maths): seq<real> {
    if |values| < 2 then []
    else
      var previous, current := values[|values| - 2], values[|values| - 1];
      LogReturns(values[..|values| - 1], maths)
      + if previous > 0.0 && current > 0.0 then [maths.log(current / previous)] else []
  }

  function StDev(values: seq<real>, maths: Maths): real {
    if |values| < 2 then 0.0
    else maths.sqrt(Dot(Centered(values), Centered(values)) / (|values| - 1) as real)
  }

  /** Standard deviation of the log returns in [now - window, now]; None with too few prices or returns. */
  function RealizedVolatility(series: Series, windowS: int, now: int, maths: Maths): Option<real> {
    var data := Between(Sorted(series), now - windowS, now);
    if |data| < 5 then None
    else
      var rets := LogReturns(data, maths);
      if |rets| < 3 then None else Some(StDev(rets, maths))
  }

  // ---------------------------------------------------------------- what lies in the past

  /** The points of the series up to a time. */
  function UpTo(s: Series, limit: int): Series {
    if s == [] then []
    else UpTo(s[..|s| - 1], limit) + if s[|s| - 1].ts <= limit then [s[|s| - 1]] else []
  }

  /** In an ordered series the past is a prefix, and everything after it is later. */
  lemma {:induction false} PastIsPrefix(s: Series, limit: int) returns (rest: Series)
    requires Ordered(s)
    ensures s == UpTo(s, limit) + rest
    ensures forall p :: p in rest ==> p.ts > limit
    ensures Ordered(UpTo(s, limit))
  {
    rest := [];
    if s != [] {
      var n := |s| - 1;
      var earlier := PastIsPrefix(s[..n], limit);
      assert s == s[..n] + [s[n]];
      if s[n].ts <= limit {
        MiddleNotAfterLast(UpTo(s[..n], limit), earlier, s[n]);
      } else {
        rest := earlier + [s[n]];
      }
    }
  }

  lemma MiddleNotAfterLast(past: Series, middle: Series, last: Point)
    requires Ordered(past + middle + [last])
    ensures middle != [] ==> middle[0] in middle && middle[0].ts <= last.ts
  {
    var s := past + middle + [last];
    if middle != [] {
      assert s[|past|] == middle[0] && s[|s| - 1] == last;
    }
  }

  // ---------------------------------------------------------------- lookups see only the past

  lemma UpToSnoc(s: Series, p: Point, limit: int)
    ensures UpTo(s + [p], limit) == if p.ts <= limit then UpTo(s, limit) + [p] else UpTo(s, limit)
  {
    assert (s + [p])[..|s|] == s;
  }

  lemma InsertSnoc(s: Series, last: Point, p: Point)
    ensures Insert(s + [last], p, TimeOf)
            == if TimeOf(last) <= TimeOf(p) then s + [last] + [p] else Insert(s, p, TimeOf) + [last]
  {
    assert (s + [last])[..|s|] == s;
  }

  /** Forgetting the later points before or after inserting one makes no difference. */
  lemma {:induction false} UpToOfInsert(s: Series, p: Point, limit: int)
    ensures UpTo(Insert(s, p, TimeOf), limit)
            == if p.ts <= limit then Insert(UpTo(s, limit), p, TimeOf) else UpTo(s, limit)
  {
    hide UpTo;
    if s == [] {
      assert UpTo([], limit) == [] && Insert([], p, TimeOf) == [] + [p] by { NothingUpTo(limit); }
      UpToSnoc([], p, limit);
    } else {
      var front, last := s[..|s| - 1], s[|s| - 1];
      assert s == front + [last];
      UpToOfInsert(front, p, limit);
      UpToSnoc(front, last, limit);
      UpToSnoc(s, p, limit);
      UpToSnoc(Insert(front, p, TimeOf), last, limit);
      if last.ts <= limit {
        InsertSnoc(UpTo(front, limit), last, p);
      }
    }
  }

  lemma NothingUpTo(limit: int)
    ensures UpTo([], limit) == []
  {
  }

  /** Forgetting the later points before or after sorting makes no difference. */
  lemma {:induction false} UpToOfSorted(s: Series, limit: int)
    ensures UpTo(Sorted(s), limit) == Sorted(UpTo(s, limit))
  {
    if s != [] {
      hide UpTo, Insert;
      var front, last := s[..|s| - 1], s[|s| - 1];
      assert s == front + [last];
      UpToOfSorted(front, limit);
      UpToOfInsert(Sorted(front), last, limit);
      UpToSnoc(front, last, limit);
      if last.ts <= limit {
        var past := UpTo(front, limit);
        assert (past + [last])[..|past|] == past;
      }
    }
  }

  lemma {:induction false} LatestUpTo(s: Series, limit: int, ts: int)
    requires ts <= limit
    ensures Latest(UpTo(s, limit), ts) == Latest(s, ts)
  {
    if s != [] {
      var front, last := s[..|s| - 1], s[|s| - 1];
      assert s == front + [last];
      LatestUpTo(front, limit, ts);
      UpToSnoc(front, last, limit);
      var past := UpTo(front, limit);
      assert (past + [last])[..|past|] == past;
    }
  }

  lemma {:induction false} BetweenUpTo(s: Series, limit: int, from: int, to: int)
    requires to <= limit
    ensures Between(UpTo(s, limit), from, to) == Between(s, from, to)
  {
    if s != [] {
      var front, last := s[..|s| - 1], s[|s| - 1];
      assert s == front + [last];
      BetweenUpTo(front, limit, from, to);
      UpToSnoc(front, last, limit);
      var past := UpTo(front, limit);
      assert (past + [last])[..|past|] == past;
    }
  }

  /** Lookups at or before a time see only the past of a series, in whatever order it comes. */
  lemma PriceUsesPast(s: Series, limit: int, ts: int)
    requires ts <= limit
    ensures Latest(Sorted(s), ts) == Latest(Sorted(UpTo(s, limit)), ts)
  {
    hide UpTo, Latest, Sorted;
    UpToOfSorted(s, limit);
    LatestUpTo(Sorted(s), limit, ts);
  }

  lemma VolatilityUsesPast(a: Series, b: Series, limit: int, ts: int, windowS: int, maths: Maths)
    requires UpTo(a, limit) == UpTo(b, limit) && ts <= limit
    ensures RealizedVolatility(a, windowS, ts, maths) == RealizedVolatility(b, windowS, ts, maths)
  {
    hide LogReturns, StDev, Between, UpTo, Sorted;
    WindowUsesPast(a, limit, ts - windowS, ts);
    WindowUsesPast(b, limit, ts - windowS, ts);
  }

  lemma WindowUsesPast(s: Series, limit: int, from: int, ts: int)
    requires ts <= limit
    ensures Between(Sorted(s), from, ts) == Between(Sorted(UpTo(s, limit)), from, ts)
  {
    hide UpTo, Between, Sorted;
    UpToOfSorted(s, limit);
    BetweenUpTo(Sorted(s), limit, from, ts);
  }

  // ---------------------------------------------------------------- the volatility

  /** The prices of the window are those of its points, both ends included. */
  lemma {:induction false} BetweenMembers(s: Series, from: int, to: int, v: real)
    ensures v in Between(s, from, to) <==> exists p :: p in s && from <= p.ts <= to && p.value == v
  {
    if s != [] {
      var front, last := s[..|s| - 1], s[|s| - 1];
      assert s == front + [last];
      BetweenMembers(front, from, to, v);
    }
  }

  /** On positive prices there is one logarithm for each step, of the later price over the earlier one. */
  lemma {:induction false} LogReturnsOfSteps(values: seq<real>, maths: Maths, i: nat)
    requires (forall k :: 0 <= k < |values| ==> values[k] > 0.0) && i + 1 < |values|
    ensures |LogReturns(values, maths)| == |values| - 1
    ensures LogReturns(values, maths)[i] == maths.log(values[i + 1] / values[i])
  {
    var n := |values| - 1;
    if n == 1 {
      assert LogReturns(values[..1], maths) == [];
    } else {
      LogReturnsOfSteps(values[..n], maths, if i + 1 < n then i else 0);
    }
  }

  /** The volatility is known exactly with five prices and three returns, and then its square times the returns less
      one is the sum of their squared deviations. */
  lemma VolatilityFacts(series: Series, windowS: int, now: int, maths: Maths)
    requires IsRoot(maths.sqrt)
    ensures var values := Between(Sorted(series), now - windowS, now);
            var rets := LogReturns(values, maths);
            && (RealizedVolatility(series, windowS, now, maths).Some? <==> |values| >= 5 && |rets| >= 3)
            && (|values| >= 5 && |rets| >= 3 ==>
                  var sigma := RealizedVolatility(series, windowS, now, maths).value;
                  sigma >= 0.0
                  && (|rets| - 1) as real * Square(sigma) == Dot(Centered(rets), Centered(rets)))
  {
    hide Between, LogReturns, Sorted;
    var rets := LogReturns(Between(Sorted(series), now - windowS, now), maths);
    if |rets| >= 3 {
      var squares, n := Dot(Centered(rets), Centered(rets)), (|rets| - 1) as real;
      DotWithItself(Centered(rets));
      QuotientBound(squares, n, 0.0);
      assert RootAt(maths.sqrt, squares / n);
      assert n * (squares / n) == squares;
    }
  }
}
