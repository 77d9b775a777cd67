/** The pairs screener (src/strategies/etoro_pairs.py): correlation of returns and z-score of the price ratio. */
module Pairs {
  import opened Common
  import opened Statistics
  import opened Sorting

  const MIN_CORRELATION := 0.75
  const ENTRY_Z_SCORE := 2.0
  const LOOKBACK_SESSIONS := 60
  const MIN_HISTORY_LENGTH := LOOKBACK_SESSIONS + 1

  /** An instrument with its daily closes, oldest first. */
  datatype Candidate = Candidate(id: int, name: string, closes: seq<real>)

  datatype PairSignal = PairSignal(
    aId: int, aName: string, bId: int, bName: string,
    priceA: real, priceB: real, correlation: real, zScore: real, directionA: Direction, directionB: Direction)

  // ---------------------------------------------------------------- returns and correlation

  function DailyReturns(closes: seq<real>): seq<real> {
    if |closes| < 2 then []
    else
      var n := |closes| - 1;
      DailyReturns(closes[..n]) + if closes[n - 1] > 0.0 then [(closes[n] - closes[n - 1]) / closes[n - 1]] else []
  }

  function LastOf(s: seq<real>, n: nat): seq<real>
    requires n <= |s|
  {
    s[|s| - n..]
  }

  /** The windows that `_pearson` compares: the last n values of each, or nothing when fewer than two are shared. */
  function Window(x: seq<real>, y: seq<real>): (w: seq<real>)
    ensures w == [] || |w| >= 2
    ensures |w| == if |x| < 2 || |y| < 2 then 0 else if |x| < |y| then |x| else |y|
  {
    var n := if |x| < |y| then |x| else |y|;
    if n < 2 then [] else Centered(LastOf(x, n))
  }

  function Pearson(x: seq<real>, y: seq<real>, sqrt: real -> real): real {
    var cx, cy := Window(x, y), Window(y, x);
    if cx == [] then 0.0
    else
      var varX, varY := Dot(cx, cx), Dot(cy, cy);
      if varX <= 0.0 || varY <= 0.0 then 0.0 else Cosine(cx, cy, sqrt)
  }

  /** A correlation, whatever the two lists are, and the same seen from either side. */
  lemma PearsonIsCorrelation(x: seq<real>, y: seq<real>, sqrt: real -> real)
    requires IsRoot(sqrt)
    ensures -1.0 <= Pearson(x, y, sqrt) <= 1.0
    ensures Pearson(x, y, sqrt) == Pearson(y, x, sqrt)
  {
    var cx, cy := Window(x, y), Window(y, x);
    if cx != [] && Dot(cx, cx) > 0.0 && Dot(cy, cy) > 0.0 {
      CosineBounded(cx, cy, sqrt);
    }
  }

  // ---------------------------------------------------------------- one pair

  function Recent(c: Candidate): seq<real>
    requires Eligible(c)
  {
    LastOf(c.closes, LOOKBACK_SESSIONS)
  }

  /** The closes before the last session. */
  function History(c: Candidate): seq<real>
    requires Eligible(c)
  {
    Recent(c)[..LOOKBACK_SESSIONS - 1]
  }

  function Today(c: Candidate): real
    requires Eligible(c)
  {
    Recent(c)[LOOKBACK_SESSIONS - 1]
  }

  predicate Eligible(c: Candidate) {
    |c.closes| >= MIN_HISTORY_LENGTH
  }

  function Ratios(a: seq<real>, b: seq<real>): seq<real>
    requires |a| == |b|
  {
    if a == [] then []
    else
      var n := |a| - 1;
      Ratios(a[..n], b[..n]) + if b[n] > 0.0 then [a[n] / b[n]] else []
  }

  function Variance(s: seq<real>): real
    requires s != []
  {
    Dot(Centered(s), Centered(s)) / |s| as real
  }

  function Correlation(a: Candidate, b: Candidate, sqrt: real -> real): real
    requires Eligible(a) && Eligible(b)
  {
    Pearson(DailyReturns(History(a)), DailyReturns(History(b)), sqrt)
  }

  /** The z-score of today's price ratio against the ratios of the history; None when it cannot be computed. */
  function ZScore(a: Candidate, b: Candidate, sqrt: real -> real): Option<real>
    requires Eligible(a) && Eligible(b)
  {
    var ratios := Ratios(History(a), History(b));
    if |ratios| < 2 || Today(b) <= 0.0 then None
    else
      var std := sqrt(Variance(ratios));
      if std <= 0.0 then None else Some(Standardized(Today(a) / Today(b), Mean(ratios), std))
  }

  function Standardized(x: real, mean: real, std: real): (z: real)
    requires std > 0.0
    ensures z > 0.0 <==> x > mean
    ensures z < 0.0 <==> x < mean
  {
    QuotientBound(x - mean, std, 0.0);
    (x - mean) / std
  }

  predicate Qualifies(a: Candidate, b: Candidate, sqrt: real -> real)
    requires Eligible(a) && Eligible(b)
  {
    && Correlation(a, b, sqrt) >= MIN_CORRELATION
    && ZScore(a, b, sqrt).Some?
    && Abs(ZScore(a, b, sqrt).value) >= ENTRY_Z_SCORE
  }

  function SignalOf(a: Candidate, b: Candidate, sqrt: real -> real): PairSignal
    requires Eligible(a) && Eligible(b) && Qualifies(a, b, sqrt)
  {
    var z := ZScore(a, b, sqrt).value;
    PairSignal(
      a.id, a.name, b.id, b.name, Today(a), Today(b), Correlation(a, b, sqrt), z,
      if z > 0.0 then Sell else Buy, if z > 0.0 then Buy else Sell)
  }

  /** A signal sells the leg that is expensive against the history of the ratio and buys the other, and its
      correlation is a number between the threshold and one. */
  lemma SellsTheExpensiveLeg(a: Candidate, b: Candidate, sqrt: real -> real)
    requires Eligible(a) && Eligible(b) && Qualifies(a, b, sqrt)
    ensures var s := SignalOf(a, b, sqrt);
            var usual := Ratios(History(a), History(b));
            && usual != [] && Today(b) > 0.0
            && s.directionA == s.directionB.Opposite()
            && (s.directionA == Sell <==> Today(a) / Today(b) > Mean(usual))
            && (s.directionA == Buy <==> Today(a) / Today(b) < Mean(usual))
            && (IsRoot(sqrt) ==> MIN_CORRELATION <= s.correlation <= 1.0)
  {
    if IsRoot(sqrt) {
      PearsonIsCorrelation(DailyReturns(History(a)), DailyReturns(History(b)), sqrt);
    }
  }

  // ---------------------------------------------------------------- all pairs

  function EligibleOf(cs: seq<Candidate>): (r: seq<Candidate>)
    ensures forall c :: c in r <==> c in cs && Eligible(c)
  {
    if cs == [] then []
    else
      var last := cs[|cs| - 1];
      assert cs == cs[..|cs| - 1] + [last];
      EligibleOf(cs[..|cs| - 1]) + if Eligible(last) then [last] else []
  }

  /** What the screener finds for the candidates numbered i and j. */
  function Finder(e: seq<Candidate>, sqrt: real -> real): (nat, nat) -> Option<PairSignal> {
    (i: nat, j: nat) =>
      if i < |e| && j < |e| && Eligible(e[i]) && Eligible(e[j]) && Qualifies(e[i], e[j], sqrt)
      then Some(SignalOf(e[i], e[j], sqrt)) else None
  }

  /** The findings for i with i + 1, ..., j - 1, in order. */
  ghost function Row<T>(f: (nat, nat) -> Option<T>, i: nat, j: nat): seq<T>
    requires i < j
  {
    if j == i + 1 then [] else Row(f, i, j - 1) + ListOf(f(i, j - 1))
  }

  /** The findings for the numbers before i with everything after them up to n: each unordered pair once. */
  ghost function Rows<T>(f: (nat, nat) -> Option<T>, i: nat, n: nat): seq<T>
    requires i <= n
  {
    if i == 0 then [] else Rows(f, i - 1, n) + Row(f, i - 1, n)
  }

  ghost predicate InRow<T(!new)>(f: (nat, nat) -> Option<T>, i: nat, j: nat, s: T) {
    exists m: nat :: i < m < j && f(i, m) == Some(s)
  }

  ghost predicate InRows<T(!new)>(f: (nat, nat) -> Option<T>, i: nat, n: nat, s: T) {
    exists k: nat, m: nat :: k < i && k < m < n && f(k, m) == Some(s)
  }

  lemma {:induction false} RowMembers<T(!new)>(f: (nat, nat) -> Option<T>, i: nat, j: nat, s: T)
    requires i < j
    ensures s in Row(f, i, j) <==> InRow(f, i, j, s)
  {
    if j > i + 1 {
      RowMembers(f, i, j - 1, s);
    }
  }

  lemma InRowsByRow<T(!new)>(f: (nat, nat) -> Option<T>, i: nat, n: nat, s: T)
    ensures InRows(f, i + 1, n, s) <==> InRows(f, i, n, s) || InRow(f, i, n, s)
  {
    if InRow(f, i, n, s) {
      var m: nat :| i < m < n && f(i, m) == Some(s);
    }
  }

  lemma NoneInRows<T(!new)>(f: (nat, nat) -> Option<T>, n: nat, s: T)
    ensures !InRows(f, 0, n, s) && s !in Rows(f, 0, n)
  {
  }

  lemma RowsByRowMembers<T(!new)>(f: (nat, nat) -> Option<T>, i: nat, n: nat, s: T)
    requires i < n
    ensures s in Rows(f, i + 1, n) <==> s in Rows(f, i, n) || s in Row(f, i, n)
  {
    hide Row;
  }

  lemma {:induction false} RowsMembers<T(!new)>(f: (nat, nat) -> Option<T>, i: nat, n: nat, s: T)
    requires i <= n
    ensures s in Rows(f, i, n) <==> InRows(f, i, n, s)
  {
    hide Row, Rows, ListOf, InRow, InRows;
    if i == 0 {
      NoneInRows(f, n, s);
    } else {
      RowsMembers(f, i - 1, n, s);
      RowMembers(f, i - 1, n, s);
      InRowsByRow(f, i - 1, n, s);
      RowsByRowMembers(f, i - 1, n, s);
    }
  }

  // ---------------------------------------------------------------- the screener

  /** `key=|z|, reverse=True`: the strongest first, equally strong ones in their order. */
  function Strength(s: PairSignal): real {
    -Abs(s.zScore)
  }

  /** The two nested loops, for any finding. */
  method VisitPairs<T>(f: (nat, nat) -> Option<T>, n: nat) returns (found: seq<T>)
    ensures found == Rows(f, n, n)
  {
    found := [];
    for i := 0 to n
      invariant found == Rows(f, i, n)
    {
      ghost var rows := found;
      for j := i + 1 to n
        invariant found == rows + Row(f, i, j)
      {
        var finding := f(i, j);
        if finding.Some? {
          found := found + [finding.value];
        }
      }
    }
  }

  /** The findings for each unordered pair of eligible candidates, strongest first. */
  ghost function Signals(pairs: seq<Candidate>, sqrt: real -> real): seq<PairSignal> {
    var e := EligibleOf(pairs);
    StableSort(Rows(Finder(e, sqrt), |e|, |e|), Strength)
  }

  method FindPairSignals(pairs: seq<Candidate>, sqrt: real -> real) returns (out: seq<PairSignal>)
    ensures out == Signals(pairs, sqrt)
  {
    var eligible := EligibleOf(pairs);
    var found := VisitPairs(Finder(eligible, sqrt), |eligible|);
    out := StableSort(found, Strength);
  }

  ghost predicate FromPair(e: seq<Candidate>, sqrt: real -> real, s: PairSignal, i: nat, j: nat) {
    && i < j < |e| && Eligible(e[i]) && Eligible(e[j]) && Qualifies(e[i], e[j], sqrt)
    && s == SignalOf(e[i], e[j], sqrt)
  }

  lemma FinderFinds(e: seq<Candidate>, sqrt: real -> real, s: PairSignal, i: nat, j: nat)
    requires i < j < |e|
    ensures Finder(e, sqrt)(i, j) == Some(s) <==> FromPair(e, sqrt, s, i, j)
    ensures FromPair(e, sqrt, s, i, j) ==> s.directionA == s.directionB.Opposite()
  {
  }

  ghost predicate FromSomePair(e: seq<Candidate>, sqrt: real -> real, s: PairSignal) {
    exists i: nat, j: nat :: FromPair(e, sqrt, s, i, j)
  }

  lemma RowsFound(e: seq<Candidate>, sqrt: real -> real, s: PairSignal)
    ensures s in Rows(Finder(e, sqrt), |e|, |e|) <==> FromSomePair(e, sqrt, s)
    ensures FromSomePair(e, sqrt, s) ==> s.directionA == s.directionB.Opposite()
  {
    hide FromPair;
    var f := Finder(e, sqrt);
    RowsMembers(f, |e|, |e|, s);
    forall i: nat, j: nat | i < j < |e|
      ensures f(i, j) == Some(s) <==> FromPair(e, sqrt, s, i, j)
      ensures FromPair(e, sqrt, s, i, j) ==> s.directionA == s.directionB.Opposite()
    {
      FinderFinds(e, sqrt, s, i, j);
    }
    forall i: nat, j: nat | FromPair(e, sqrt, s, i, j)
      ensures i < j < |e|
    {
      PairIsOrdered(e, sqrt, s, i, j);
    }
  }

  lemma PairIsOrdered(e: seq<Candidate>, sqrt: real -> real, s: PairSignal, i: nat, j: nat)
    requires FromPair(e, sqrt, s, i, j)
    ensures i < j < |e|
  {
  }

  /** A signal is found exactly when it is the one of two eligible candidates, in order, that pass both thresholds. */
  lemma SignalsFound(pairs: seq<Candidate>, sqrt: real -> real, s: PairSignal)
    ensures s in Signals(pairs, sqrt) <==> FromSomePair(EligibleOf(pairs), sqrt, s)
    ensures s in Signals(pairs, sqrt) ==> s.directionA == s.directionB.Opposite()
  {
    hide FromSomePair, StableSort, Rows;
    var e := EligibleOf(pairs);
    StableSortMembers(Rows(Finder(e, sqrt), |e|, |e|), Strength, s);
    RowsFound(e, sqrt, s);
  }

  /** The z-scores of the list never grow in absolute value. */
  lemma StrongestFirst(pairs: seq<Candidate>, sqrt: real -> real, i: nat, j: nat)
    requires i < j < |Signals(pairs, sqrt)|
    ensures Abs(Signals(pairs, sqrt)[i].zScore) >= Abs(Signals(pairs, sqrt)[j].zScore)
  {
    var e := EligibleOf(pairs);
    var rows := Rows(Finder(e, sqrt), |e|, |e|);
    StableSortInOrder(rows, Strength);
    assert Strength(StableSort(rows, Strength)[i]) <= Strength(StableSort(rows, Strength)[j]);
  }

  /** The unordered pairs with a finding, one number below `i` and the other after it and below `n`. */
  ghost function Hits<T>(f: (nat, nat) -> Option<T>, i: nat, n: nat): set<(nat, nat)> {
    set k: nat, m: nat | k < i && k < m < n && f(k, m).Some? :: (k, m)
  }

  ghost function RowHits<T>(f: (nat, nat) -> Option<T>, i: nat, j: nat): set<(nat, nat)> {
    set m: nat | i < m < j && f(i, m).Some? :: (i, m)
  }

  lemma {:induction false} RowCount<T>(f: (nat, nat) -> Option<T>, i: nat, j: nat)
    requires i < j
    ensures |Row(f, i, j)| == |RowHits(f, i, j)|
  {
    if j == i + 1 {
      assert RowHits(f, i, j) == {};
    } else {
      RowCount(f, i, j - 1);
      var m: nat := j - 1;
      var last: set<(nat, nat)> := if f(i, m).Some? then {(i, m)} else {};
      assert RowHits(f, i, j) == RowHits(f, i, j - 1) + last;
    }
  }

  lemma HitsByRow<T>(f: (nat, nat) -> Option<T>, i: nat, n: nat)
    requires i < n
    ensures |Hits(f, i + 1, n)| == |Hits(f, i, n)| + |RowHits(f, i, n)|
  {
    assert Hits(f, i + 1, n) == Hits(f, i, n) + RowHits(f, i, n);
    assert Hits(f, i, n) !! RowHits(f, i, n);
  }

  lemma NoHits<T>(f: (nat, nat) -> Option<T>, n: nat)
    ensures |Hits(f, 0, n)| == 0 && |Rows(f, 0, n)| == 0
  {
    assert Hits(f, 0, n) == {};
  }

  lemma RowsByRow<T>(f: (nat, nat) -> Option<T>, i: nat, n: nat)
    requires i < n
    ensures |Rows(f, i + 1, n)| == |Rows(f, i, n)| + |Row(f, i, n)|
  {
    hide Row;
  }

  lemma {:induction false} RowsCount<T>(f: (nat, nat) -> Option<T>, i: nat, n: nat)
    requires i <= n
    ensures |Rows(f, i, n)| == |Hits(f, i, n)|
  {
    hide Hits, RowHits, Row, Rows, ListOf;
    if i == 0 {
      NoHits(f, n);
    } else {
      RowsCount(f, i - 1, n);
      RowCount(f, i - 1, n);
      HitsByRow(f, i - 1, n);
      RowsByRow(f, i - 1, n);
    }
  }

  /** One signal for each unordered pair that passes, and no more. */
  lemma SignalsCount(pairs: seq<Candidate>, sqrt: real -> real)
    ensures var e := EligibleOf(pairs); |Signals(pairs, sqrt)| == |Hits(Finder(e, sqrt), |e|, |e|)|
  {
    var e := EligibleOf(pairs);
    RowsCount(Finder(e, sqrt), |e|, |e|);
  }

  // ---------------------------------------------------------------- which closes count

  /** The close of the last session. */
  function LastClose(c: Candidate): real
    requires c.closes != []
  {
    c.closes[|c.closes| - 1]
  }

  /** The history is the 59 sessions before the last one, oldest first. */
  lemma TodayIsTheLast(c: Candidate, k: nat)
    requires Eligible(c) && k < 59
    ensures Today(c) == LastClose(c)
    ensures |History(c)| == 59 && History(c)[k] == c.closes[|c.closes| - 60 + k]
  {
  }

  /** The session being judged has no say in the correlation, nor in the usual ratio. */
  lemma TodayHasNoSay(a: Candidate, b: Candidate, a': Candidate, b': Candidate, sqrt: real -> real)
    requires Eligible(a) && Eligible(b) && Eligible(a') && Eligible(b')
    requires a.closes[|a.closes| - 60..|a.closes| - 1] == a'.closes[|a'.closes| - 60..|a'.closes| - 1]
    requires b.closes[|b.closes| - 60..|b.closes| - 1] == b'.closes[|b'.closes| - 60..|b'.closes| - 1]
    ensures Correlation(a, b, sqrt) == Correlation(a', b', sqrt)
    ensures Ratios(History(a), History(b)) == Ratios(History(a'), History(b'))
  {
    assert History(a) == a.closes[|a.closes| - 60..|a.closes| - 1];
    assert History(b) == b.closes[|b.closes| - 60..|b.closes| - 1];
    assert History(a') == a'.closes[|a'.closes| - 60..|a'.closes| - 1];
    assert History(b') == b'.closes[|b'.closes| - 60..|b'.closes| - 1];
    hide Recent, Pearson, DailyReturns, Ratios;
  }

  /** The prices of a signal are the last closes of its candidates. */
  lemma SignalPrices(pairs: seq<Candidate>, sqrt: real -> real, s: PairSignal)
    requires s in Signals(pairs, sqrt)
    ensures exists a, b :: && a in pairs && b in pairs && Eligible(a) && Eligible(b)
                           && s.aId == a.id && s.bId == b.id && s.aName == a.name && s.bName == b.name
                           && s.priceA == LastClose(a) && s.priceB == LastClose(b)
  {
    SignalsFound(pairs, sqrt, s);
    var e := EligibleOf(pairs);
    var i: nat, j: nat :| FromPair(e, sqrt, s, i, j);
    assert e[i] in e && e[j] in e;
    TodayIsTheLast(e[i], 0);
    TodayIsTheLast(e[j], 0);
  }

  /** The same instrument with the same last sixty closes. */
  predicate SameRecent(a: Candidate, b: Candidate) {
    && a.id == b.id && a.name == b.name
    && (|a.closes| >= 61 <==> |b.closes| >= 61)
    && (|a.closes| >= 61 && |b.closes| >= 61 ==> a.closes[|a.closes| - 60..] == b.closes[|b.closes| - 60..])
  }

  lemma SameFinding(a: Candidate, b: Candidate, a': Candidate, b': Candidate, sqrt: real -> real)
    requires SameRecent(a, a') && SameRecent(b, b') && Eligible(a) && Eligible(b)
    ensures Eligible(a') && Eligible(b')
    ensures Qualifies(a, b, sqrt) == Qualifies(a', b', sqrt)
    ensures Qualifies(a, b, sqrt) ==> SignalOf(a, b, sqrt) == SignalOf(a', b', sqrt)
  {
    assert Recent(a) == Recent(a') && Recent(b) == Recent(b');
    hide Recent, Pearson, DailyReturns, Ratios, Variance, Standardized;
  }

  ghost predicate AllSameRecent(cs: seq<Candidate>, ds: seq<Candidate>) {
    |cs| == |ds| && forall i :: 0 <= i < |cs| ==> SameRecent(cs[i], ds[i])
  }

  lemma {:induction false} SameEligible(cs: seq<Candidate>, ds: seq<Candidate>)
    requires AllSameRecent(cs, ds)
    ensures AllSameRecent(EligibleOf(cs), EligibleOf(ds))
  {
    if cs != [] {
      SameEligible(cs[..|cs| - 1], ds[..|ds| - 1]);
    }
  }

  lemma {:induction false} SameRow<T(!new)>(
    f: (nat, nat) -> Option<T>, g: (nat, nat) -> Option<T>, i: nat, j: nat, n: nat)
    requires i < j <= n
    requires forall k: nat, m: nat :: k < m < n ==> f(k, m) == g(k, m)
    ensures Row(f, i, j) == Row(g, i, j)
  {
    if j > i + 1 {
      SameRow(f, g, i, j - 1, n);
    }
  }

  lemma {:induction false} SameRows<T(!new)>(f: (nat, nat) -> Option<T>, g: (nat, nat) -> Option<T>, i: nat, n: nat)
    requires i <= n
    requires forall k: nat, m: nat :: k < m < n ==> f(k, m) == g(k, m)
    ensures Rows(f, i, n) == Rows(g, i, n)
  {
    if i > 0 {
      SameRows(f, g, i - 1, n);
      SameRow(f, g, i - 1, n, n);
    }
  }

  /** Locality: what came before the last sixty sessions of each instrument makes no difference. */
  lemma OnlyRecentSessionsCount(pairs: seq<Candidate>, others: seq<Candidate>, sqrt: real -> real)
    requires AllSameRecent(pairs, others)
    ensures Signals(pairs, sqrt) == Signals(others, sqrt)
  {
    hide Rows, StableSort, SameRecent, Eligible, Qualifies, SignalOf;
    SameEligible(pairs, others);
    var e, d := EligibleOf(pairs), EligibleOf(others);
    var f, g := Finder(e, sqrt), Finder(d, sqrt);
    forall k: nat, m: nat | k < m < |e|
      ensures f(k, m) == g(k, m)
    {
      assert e[k] in e && e[m] in e;
      SameFinding(e[k], e[m], d[k], d[m], sqrt);
    }
    SameRows(f, g, |e|, |e|);
  }

  // ---------------------------------------------------------------- the statistics

  predicate AllPositive(s: seq<real>) {
    forall i :: 0 <= i < |s| ==> s[i] > 0.0
  }

  /** On positive closes there is one return a session after the first, and it leads from each close to the next. */
  lemma {:induction false} ReturnsLeadOn(closes: seq<real>, i: nat)
    requires AllPositive(closes) && i + 1 < |closes|
    ensures |DailyReturns(closes)| == |closes| - 1
    ensures closes[i] * (1.0 + DailyReturns(closes)[i]) == closes[i + 1]
  {
    var n := |closes| - 1;
    if n == 1 {
      assert DailyReturns(closes[..1]) == [];
    } else {
      ReturnsLeadOn(closes[..n], if i + 1 < n then i else 0);
    }
    if i + 1 == n {
      StepOfReturn(closes[i], closes[i + 1]);
    }
  }

  lemma StepOfReturn(before: real, after: real)
    requires before > 0.0
    ensures before * (1.0 + (after - before) / before) == after
  {
    assert before * ((after - before) / before) == after - before;
  }

  /** On positive prices a ratio times the price of the second instrument is that of the first. */
  lemma {:induction false} RatiosMultiply(a: seq<real>, b: seq<real>, i: nat)
    requires |a| == |b| && AllPositive(b) && i < |a|
    ensures |Ratios(a, b)| == |a| && Ratios(a, b)[i] * b[i] == a[i]
  {
    var n := |a| - 1;
    if n == 0 {
      assert Ratios(a[..0], b[..0]) == [];
    } else {
      RatiosMultiply(a[..n], b[..n], if i < n then i else 0);
    }
    assert (a[i] / b[i]) * b[i] == a[i];
  }

  /** The z-score is how many standard deviations today's ratio is above the mean of the usual ones. */
  lemma ZScoreFacts(a: Candidate, b: Candidate, sqrt: real -> real) returns (std: real)
    requires Eligible(a) && Eligible(b) && IsRoot(sqrt) && ZScore(a, b, sqrt).Some?
    ensures var usual := Ratios(History(a), History(b));
            && |usual| >= 2 && std > 0.0 && Today(b) > 0.0
            && |usual| as real * Square(std) == Dot(Centered(usual), Centered(usual))
            && ZScore(a, b, sqrt).value * std == Today(a) / Today(b) - Mean(usual)
  {
    var usual := Ratios(History(a), History(b));
    std := sqrt(Variance(usual));
    var squares := Dot(Centered(usual), Centered(usual));
    DotWithItself(Centered(usual));
    QuotientBound(squares, |usual| as real, 0.0);
    assert RootAt(sqrt, Variance(usual));
    assert |usual| as real * (squares / |usual| as real) == squares;
    var apart := Today(a) / Today(b) - Mean(usual);
    assert (apart / std) * std == apart;
  }

  /** The two thresholds in numbers. */
  lemma QualifiesInNumbers(a: Candidate, b: Candidate, sqrt: real -> real)
    requires Eligible(a) && Eligible(b)
    ensures Qualifies(a, b, sqrt) <==>
            && Correlation(a, b, sqrt) >= 0.75
            && ZScore(a, b, sqrt).Some?
            && (ZScore(a, b, sqrt).value >= 2.0 || ZScore(a, b, sqrt).value <= -2.0)
    ensures ZScore(a, b, sqrt).Some? && IsRoot(sqrt) ==> Today(b) > 0.0 && |Ratios(History(a), History(b))| >= 2
  {
  }

  lemma CosineIsRatio(x: seq<real>, y: seq<real>, sqrt: real -> real)
    requires |x| == |y|
    ensures Cosine(x, y, sqrt) == Ratio(Dot(x, y), Multiply(sqrt(Dot(x, x)), sqrt(Dot(y, y))))
  {
  }

  /** What is correlated are the last values that both lists have, as deviations from their mean. */
  lemma WindowIsTheTail(x: seq<real>, y: seq<real>, i: nat, j: nat)
    requires var n := if |x| < |y| then |x| else |y|; n >= 2 && i < n && j < n
    ensures var n := if |x| < |y| then |x| else |y|;
            && |Window(x, y)| == n && Sum(Window(x, y)) == 0.0
            && Window(x, y)[i] - Window(x, y)[j] == x[|x| - n + i] - x[|x| - n + j]
  {
    var n := if |x| < |y| then |x| else |y|;
    CenteredAddsToNothing(LastOf(x, n));
  }

  /** The correlation has the sign of the covariance, and its square times both variances is the covariance squared. */
  lemma PearsonFacts(x: seq<real>, y: seq<real>, sqrt: real -> real)
    requires IsRoot(sqrt) && |Window(x, y)| == |Window(y, x)| >= 2
    requires Dot(Window(x, y), Window(x, y)) > 0.0 && Dot(Window(y, x), Window(y, x)) > 0.0
    ensures var cov := Dot(Window(x, y), Window(y, x));
            var variances := Multiply(Dot(Window(x, y), Window(x, y)), Dot(Window(y, x), Window(y, x)));
            && (Pearson(x, y, sqrt) > 0.0 <==> cov > 0.0)
            && Multiply(Square(Pearson(x, y, sqrt)), variances) == Square(cov)
  {
    hide Window, Dot, Square, Ratio;
    var xx, yy := Dot(Window(x, y), Window(x, y)), Dot(Window(y, x), Window(y, x));
    var cov := Dot(Window(x, y), Window(y, x));
    RootPositive(sqrt, xx);
    RootPositive(sqrt, yy);
    var r := Multiply(sqrt(xx), sqrt(yy));
    MultiplyPositive(sqrt(xx), sqrt(yy));
    SquareOfMultiply(sqrt(xx), sqrt(yy));
    CosineIsRatio(Window(x, y), Window(y, x), sqrt);
    hide Multiply, Cosine;
    assert Pearson(x, y, sqrt) == Ratio(cov, r);
    QuotientFacts(cov, r, 1.0);
  }
}
