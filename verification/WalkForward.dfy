/** Walk-forward windows over a list of events (`walk_forward` of src/evaluation/backtest.py). Times in seconds. */
module WalkForward {
  import opened Common
  import opened Sorting
  import opened Backtest

  const DAY := 86400

  function EventTime(e: Event): real {
    e.ts as real
  }

  /** `[e for e in events if from <= e.ts < to]`. */
  function During(events: seq<Event>, from: int, to: int): (r: seq<Event>)
    ensures forall e :: e in r <==> e in events && from <= e.ts < to
  {
    if events == [] then []
    else
      var last := events[|events| - 1];
      assert events == events[..|events| - 1] + [last];
      During(events[..|events| - 1], from, to) + if from <= last.ts < to then [last] else []
  }

  /** One reported window: train on [start, split), test on [split, end). */
  datatype Window<M> = Window(start: int, split: int, end: int, metrics: M)

  /** Start of the k-th window. */
  function StartOf(first: int, testDays: nat, k: nat): int {
    if k == 0 then first else StartOf(first, testDays, k - 1) + testDays * DAY
  }

  function WindowAt<M>(
    events: seq<Event>, start: int, trainDays: int, testDays: nat, run: (seq<Event>, seq<Event>) -> M)
    : Option<Window<M>>
  {
    var split := start + trainDays * DAY;
    var end := split + testDays * DAY;
    var train, test := During(events, start, split), During(events, split, end);
    if train != [] && test != [] then Some(Window(start, split, end, run(train, test))) else None
  }

  function Windows<M>(
    events: seq<Event>, first: int, trainDays: int, testDays: nat, run: (seq<Event>, seq<Event>) -> M, n: nat)
    : seq<Window<M>>
  {
    if n == 0 then []
    else
      Windows(events, first, trainDays, testDays, run, n - 1)
      + ListOf(WindowAt(events, StartOf(first, testDays, n - 1), trainDays, testDays, run))
  }

  method PlayWindow<M>(
    events: seq<Event>, cursor: int, trainDays: int, testDays: nat, run: (seq<Event>, seq<Event>) -> M)
    returns (window: Option<Window<M>>)
    ensures window == WindowAt(events, cursor, trainDays, testDays, run)
  {
    var split := cursor + trainDays * DAY;
    var testEnd := split + testDays * DAY;
    var train, test := During(events, cursor, split), During(events, split, testEnd);
    window := if train != [] && test != [] then Some(Window(cursor, split, testEnd, run(train, test))) else None;
  }

  /** Rolls by the test length while the window ends no later than a day after the last event. The number of steps
      is the number of starts that satisfy the loop condition. */
  method Roll<M>(events: seq<Event>, trainDays: int, testDays: nat, run: (seq<Event>, seq<Event>) -> M)
    returns (out: seq<Window<M>>, ghost steps: nat)
    requires testDays > 0
    ensures events == [] ==> out == []
    ensures events != [] ==>
              var sorted := StableSort(events, EventTime);
              var first, last := sorted[0].ts, sorted[|sorted| - 1].ts;
              && out == Windows(sorted, first, trainDays, testDays, run, steps)
              && forall k: nat :: k < steps <==>
                   StartOf(first, testDays, k) + (trainDays + testDays) * DAY <= last + DAY
  {
    hide WindowAt, During, StableSort;
    out, steps := [], 0;
    if events == [] {
      return;
    }
    var sorted := StableSort(events, EventTime);
    var first, last := sorted[0].ts, sorted[|sorted| - 1].ts;
    var cursor := first;
    while cursor + (trainDays + testDays) * DAY <= last + DAY
      invariant cursor == StartOf(first, testDays, steps)
      invariant out == Windows(sorted, first, trainDays, testDays, run, steps)
      invariant forall k: nat :: k < steps ==>
                  StartOf(first, testDays, k) + (trainDays + testDays) * DAY <= last + DAY
      decreases last + DAY - cursor - (trainDays + testDays) * DAY
    {
      var window := PlayWindow(sorted, cursor, trainDays, testDays, run);
      if window.Some? {
        out := out + [window.value];
      }
      cursor := cursor + testDays * DAY;
      steps := steps + 1;
    }
    forall k: nat | steps <= k
      ensures StartOf(first, testDays, k) + (trainDays + testDays) * DAY > last + DAY
    {
      StartsAdvance(first, testDays, steps, k);
    }
  }

  lemma {:induction false} StartsAdvance(first: int, testDays: nat, k: nat, m: nat)
    requires testDays > 0 && k <= m
    ensures k < m ==> StartOf(first, testDays, k) + testDays * DAY <= StartOf(first, testDays, m)
  {
    if k < m - 1 {
      StartsAdvance(first, testDays, k, m - 1);
    }
  }

  /** Every reported window was trained on events strictly before all those it was tested on. */
  lemma {:induction false} TrainBeforeTest<M>(
    events: seq<Event>, first: int, trainDays: int, testDays: nat, run: (seq<Event>, seq<Event>) -> M, n: nat,
    w: Window<M>)
    requires w in Windows(events, first, trainDays, testDays, run, n)
    ensures exists k: nat :: k < n && w.start == StartOf(first, testDays, k)
    ensures var train, test := During(events, w.start, w.split), During(events, w.split, w.end);
            && train != [] && test != [] && w.metrics == run(train, test)
            && forall a, b :: a in train && b in test ==> a.ts < b.ts
  {
    hide WindowAt;
    if n > 0 && w in Windows(events, first, trainDays, testDays, run, n - 1) {
      TrainBeforeTest(events, first, trainDays, testDays, run, n - 1, w);
    } else {
      WindowIsOfPeriod(events, StartOf(first, testDays, n - 1), trainDays, testDays, run);
    }
  }

  lemma WindowIsOfPeriod<M>(
    events: seq<Event>, start: int, trainDays: int, testDays: nat, run: (seq<Event>, seq<Event>) -> M)
    ensures var o := WindowAt(events, start, trainDays, testDays, run);
            o.Some? ==>
              var w := o.value;
              && w.start == start
              && During(events, w.start, w.split) != [] && During(events, w.split, w.end) != []
              && w.metrics == run(During(events, w.start, w.split), During(events, w.split, w.end))
  {
  }

  /** Every reported window has the configured lengths. */
  lemma {:induction false} WindowLengths<M>(
    events: seq<Event>, first: int, trainDays: int, testDays: nat, run: (seq<Event>, seq<Event>) -> M, n: nat,
    w: Window<M>)
    requires w in Windows(events, first, trainDays, testDays, run, n)
    ensures w.split == w.start + trainDays * 86400 && w.end == w.split + testDays * 86400
  {
    hide During;
    if n > 0 && w in Windows(events, first, trainDays, testDays, run, n - 1) {
      WindowLengths(events, first, trainDays, testDays, run, n - 1, w);
    }
  }

  /** Of two reported windows, the earlier one has been tested before the test of the later one begins: the test
      periods share no moment, and no event is tested twice. */
  lemma {:induction false} TestPeriodsDisjoint<M>(
    events: seq<Event>, first: int, trainDays: int, testDays: nat, run: (seq<Event>, seq<Event>) -> M, n: nat,
    i: nat, j: nat)
    requires testDays > 0 && i < j < |Windows(events, first, trainDays, testDays, run, n)|
    ensures var ws := Windows(events, first, trainDays, testDays, run, n); ws[i].end <= ws[j].split
  {
    hide WindowAt, During;
    if n > 0 {
      var before := Windows(events, first, trainDays, testDays, run, n - 1);
      var ws := Windows(events, first, trainDays, testDays, run, n);
      if j < |before| {
        TestPeriodsDisjoint(events, first, trainDays, testDays, run, n - 1, i, j);
        assert ws[i] == before[i] && ws[j] == before[j];
      } else {
        assert ws[i] == before[i] && ws[i] in before && ws[j] in ws;
        WindowLengths(events, first, trainDays, testDays, run, n - 1, ws[i]);
        WindowLengths(events, first, trainDays, testDays, run, n, ws[j]);
        WindowIsOfPeriod(events, StartOf(first, testDays, n - 1), trainDays, testDays, run);
        StartBefore(events, first, trainDays, testDays, run, n - 1, ws[i]);
      }
    }
  }

  lemma {:induction false} StartBefore<M>(
    events: seq<Event>, first: int, trainDays: int, testDays: nat, run: (seq<Event>, seq<Event>) -> M, n: nat,
    w: Window<M>)
    requires testDays > 0 && w in Windows(events, first, trainDays, testDays, run, n)
    ensures w.start + testDays * DAY <= StartOf(first, testDays, n)
  {
    hide WindowAt, During;
    if n > 0 && w in Windows(events, first, trainDays, testDays, run, n - 1) {
      StartBefore(events, first, trainDays, testDays, run, n - 1, w);
    } else {
      WindowIsOfPeriod(events, StartOf(first, testDays, n - 1), trainDays, testDays, run);
    }
  }
}
