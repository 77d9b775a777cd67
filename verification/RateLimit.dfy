/** Token bucket and circuit breaker (src/core/ratelimit.py). */
module RateLimit {
  import opened Common

  // ---------------------------------------------------------------- the bucket as a value

  datatype BucketState = BucketState(tokens: real, updated: real)

  /** One pass of the waiting loop of `acquire`: at `time`, someone wants `want` tokens. */
  datatype Poll = Poll(time: real, want: real)

  /** Rate and capacity. */
  datatype Rate = Rate(rps: real, capacity: real) {
    /** Tokens that come back in a stretch of time. */
    function Gain(elapsed: real): real {
      elapsed * rps
    }

    function Refill(b: BucketState, now: real): BucketState {
      BucketState(Min(capacity, b.tokens + Gain(Max(0.0, now - b.updated))), now)
    }

    predicate Grants(b: BucketState, p: Poll) {
      Refill(b, p.time).tokens >= p.want
    }

    function Granted(b: BucketState, p: Poll): real {
      if Grants(b, p) then p.want else 0.0
    }

    function Step(b: BucketState, p: Poll): BucketState {
      var full := Refill(b, p.time);
      if full.tokens >= p.want then full.(tokens := full.tokens - p.want) else full
    }

    /** The bucket after the first `k` polls. */
    ghost function After(b: BucketState, polls: seq<Poll>, k: nat): BucketState
      requires k <= |polls|
    {
      if k == 0 then b else Step(After(b, polls, k - 1), polls[k - 1])
    }

    /** Tokens handed out by the polls numbered i, ..., j - 1. */
    ghost function GrantedBetween(b: BucketState, polls: seq<Poll>, i: nat, j: nat): real
      requires i <= j <= |polls|
    {
      if i == j then 0.0
      else GrantedBetween(b, polls, i, j - 1) + Granted(After(b, polls, j - 1), polls[j - 1])
    }

    ghost function GrantsBetween(b: BucketState, polls: seq<Poll>, i: nat, j: nat): nat
      requires i <= j <= |polls|
    {
      if i == j then 0
      else GrantsBetween(b, polls, i, j - 1) + if Grants(After(b, polls, j - 1), polls[j - 1]) then 1 else 0
    }
  }

  /** The clock never goes back and nobody asks for a negative amount. */
  ghost predicate Orderly(polls: seq<Poll>) {
    && (forall i :: 0 <= i < |polls| ==> polls[i].want >= 0.0)
    && forall i, j :: 0 <= i <= j < |polls| ==> polls[i].time <= polls[j].time
  }

  lemma GainMonotone(r: Rate, less: real, more: real)
    requires r.rps > 0.0 && less <= more
    ensures r.Gain(less) <= r.Gain(more)
    ensures r.Gain(0.0) == 0.0
  {
    MulMonotone(less, more, r.rps);
  }

  lemma GainAdds(r: Rate, t0: real, t1: real, t2: real)
    ensures r.Gain(t1 - t0) + r.Gain(t2 - t1) == r.Gain(t2 - t0)
  {
  }

  lemma StepConserves(r: Rate, b: BucketState, p: Poll)
    requires r.capacity >= 0.0 && r.rps > 0.0 && b.tokens >= 0.0 && p.want >= 0.0
    ensures var after := r.Step(b, p);
            && 0.0 <= after.tokens && after.updated == p.time
            && after.tokens + r.Granted(b, p) <= r.capacity
            && (b.updated <= p.time ==> after.tokens + r.Granted(b, p) <= b.tokens + r.Gain(p.time - b.updated))
  {
    GainMonotone(r, 0.0, Max(0.0, p.time - b.updated));
  }

  lemma {:induction false} TokensNonNegative(r: Rate, b: BucketState, polls: seq<Poll>, k: nat)
    requires r.capacity >= 0.0 && r.rps > 0.0 && b.tokens >= 0.0 && Orderly(polls) && k <= |polls|
    ensures r.After(b, polls, k).tokens >= 0.0
    ensures k > 0 ==> r.After(b, polls, k).updated == polls[k - 1].time
  {
    if k > 0 {
      TokensNonNegative(r, b, polls, k - 1);
      StepConserves(r, r.After(b, polls, k - 1), polls[k - 1]);
    }
  }

  /** What was granted since poll `i`, plus what is left, fits in one capacity plus the refill since then. */
  lemma {:induction false} WindowPotential(r: Rate, b: BucketState, polls: seq<Poll>, i: nat, j: nat)
    requires r.capacity >= 0.0 && r.rps > 0.0 && b.tokens >= 0.0 && Orderly(polls)
    requires i < j <= |polls|
    ensures r.GrantedBetween(b, polls, i, j) + r.After(b, polls, j).tokens
            <= r.capacity + r.Gain(polls[j - 1].time - polls[i].time)
  {
    var last := polls[j - 1];
    TokensNonNegative(r, b, polls, j - 1);
    StepConserves(r, r.After(b, polls, j - 1), last);
    GainMonotone(r, 0.0, 0.0);
    if i < j - 1 {
      WindowPotential(r, b, polls, i, j - 1);
      GainAdds(r, polls[i].time, polls[j - 2].time, last.time);
    }
  }

  /** Sliding-window bound: in every run, the polls falling in any window of length `span` are granted at most
      one capacity plus the refill of that span. */
  lemma SlidingWindowBound(r: Rate, b: BucketState, polls: seq<Poll>, i: nat, j: nat, span: real)
    requires r.capacity >= 0.0 && r.rps > 0.0 && b.tokens >= 0.0 && Orderly(polls)
    requires i <= j <= |polls| && span >= 0.0
    requires i < j ==> polls[j - 1].time - polls[i].time <= span
    ensures r.GrantedBetween(b, polls, i, j) <= r.capacity + r.Gain(span)
  {
    GainMonotone(r, 0.0, span);
    if i < j {
      WindowPotential(r, b, polls, i, j);
      TokensNonNegative(r, b, polls, j);
      GainMonotone(r, polls[j - 1].time - polls[i].time, span);
    } else {
      GainMonotone(r, 0.0, 0.0);
    }
  }

  lemma {:induction false} UnitGrantsCounted(r: Rate, b: BucketState, polls: seq<Poll>, i: nat, j: nat)
    requires i <= j <= |polls|
    requires forall k :: 0 <= k < |polls| ==> polls[k].want == 1.0
    ensures r.GrantedBetween(b, polls, i, j) == r.GrantsBetween(b, polls, i, j) as real
  {
    if i < j {
      UnitGrantsCounted(r, b, polls, i, j - 1);
    }
  }

  /** `TokenBucket(rps)` without a burst: one token at least, `rps` of them otherwise. */
  function DefaultRate(rps: real): Rate {
    Rate(rps, Max(1.0, rps))
  }

  /** With `perMinute` requests a minute, any 60 second window starts at most that many and a full bucket more: one,
      or a second's worth for more than 60 a minute. */
  lemma PerMinuteBound(perMinute: nat, b: BucketState, polls: seq<Poll>, i: nat, j: nat)
    requires 0 < perMinute
    requires b.tokens >= 0.0 && Orderly(polls) && forall k :: 0 <= k < |polls| ==> polls[k].want == 1.0
    requires i <= j <= |polls| && (i < j ==> polls[j - 1].time - polls[i].time <= 60.0)
    ensures DefaultRate(perMinute as real / 60.0).GrantsBetween(b, polls, i, j)
            <= perMinute + if perMinute <= 60 then 1 else perMinute / 60
  {
    var rps := perMinute as real / 60.0;
    var r := DefaultRate(rps);
    assert r.Gain(60.0) == perMinute as real;
    SlidingWindowBound(r, b, polls, i, j, 60.0);
    UnitGrantsCounted(r, b, polls, i, j);
    WholeSeconds(perMinute, r.GrantsBetween(b, polls, i, j) - perMinute);
  }

  lemma WholeSeconds(perMinute: nat, extra: int)
    requires extra as real <= Max(1.0, perMinute as real / 60.0)
    ensures extra <= if perMinute <= 60 then 1 else perMinute / 60
  {
    if perMinute > 60 {
      assert 60 * extra <= perMinute;
    }
  }

  /** The eToro limits: 55 reads and 18 writes a minute mean at most 56 and 19 started in any 60 seconds. */
  lemma EtoroWindows(b: BucketState, polls: seq<Poll>, i: nat, j: nat)
    requires b.tokens >= 0.0 && Orderly(polls) && forall k :: 0 <= k < |polls| ==> polls[k].want == 1.0
    requires i <= j <= |polls| && (i < j ==> polls[j - 1].time - polls[i].time <= 60.0)
    ensures DefaultRate(55.0 / 60.0).GrantsBetween(b, polls, i, j) <= 56
    ensures DefaultRate(18.0 / 60.0).GrantsBetween(b, polls, i, j) <= 19
  {
    PerMinuteBound(55, b, polls, i, j);
    PerMinuteBound(18, b, polls, i, j);
  }

  /** The saturating schedule: a full bucket of one token, asked again each time exactly one token has come back. */
  ghost function Saturating(perMinute: nat, n: nat): seq<Poll>
    requires perMinute > 0
  {
    seq(n, k requires 0 <= k < n => Poll(k as real * (60.0 / perMinute as real), 1.0))
  }

  /** An empty bucket refilled for exactly one token's worth of time grants one token and is empty again. */
  lemma OneTokenBack(perMinute: nat, before: real, now: real)
    requires 0 < perMinute <= 60 && now - before == 60.0 / perMinute as real
    ensures DefaultRate(perMinute as real / 60.0).Step(BucketState(0.0, before), Poll(now, 1.0))
            == BucketState(0.0, now)
    ensures DefaultRate(perMinute as real / 60.0).Grants(BucketState(0.0, before), Poll(now, 1.0))
  {
    var r := DefaultRate(perMinute as real / 60.0);
    assert r.capacity == 1.0;
    assert r.Gain(now - before) == 1.0;
  }

  lemma FirstToken(perMinute: nat)
    requires 0 < perMinute <= 60
    ensures DefaultRate(perMinute as real / 60.0).Step(BucketState(1.0, 0.0), Poll(0.0, 1.0)) == BucketState(0.0, 0.0)
    ensures DefaultRate(perMinute as real / 60.0).Grants(BucketState(1.0, 0.0), Poll(0.0, 1.0))
  {
    var r := DefaultRate(perMinute as real / 60.0);
    assert r.capacity == 1.0;
    assert r.Gain(0.0) == 0.0;
  }

  lemma SaturatingTimes(perMinute: nat, n: nat, k: nat)
    requires 0 < perMinute && k < n
    ensures k == 0 ==> Saturating(perMinute, n)[k] == Poll(0.0, 1.0)
    ensures Saturating(perMinute, n)[k].want == 1.0
    ensures k > 0 ==>
              Saturating(perMinute, n)[k].time - Saturating(perMinute, n)[k - 1].time == 60.0 / perMinute as real
  {
    var gap := 60.0 / perMinute as real;
    assert k as real * gap - (k - 1) as real * gap == gap;
  }

  lemma {:induction false} SaturatingAllGranted(perMinute: nat, n: nat, k: nat)
    requires 0 < perMinute <= 60 && k <= n
    ensures var r := DefaultRate(perMinute as real / 60.0);
            var polls := Saturating(perMinute, n);
            && r.GrantsBetween(BucketState(1.0, 0.0), polls, 0, k) == k
            && (k > 0 ==> r.After(BucketState(1.0, 0.0), polls, k) == BucketState(0.0, polls[k - 1].time))
  {
    hide Rate.Step, Rate.Grants, DefaultRate;
    if k > 0 {
      SaturatingAllGranted(perMinute, n, k - 1);
      SaturatingTimes(perMinute, n, k - 1);
      if k == 1 {
        FirstToken(perMinute);
      } else {
        var polls := Saturating(perMinute, n);
        OneTokenBack(perMinute, polls[k - 2].time, polls[k - 1].time);
      }
    }
  }

  /** The bound is reached: one minute can hold `perMinute + 1` granted requests. */
  lemma PerMinuteBoundTight(perMinute: nat)
    requires 0 < perMinute <= 60
    ensures var polls := Saturating(perMinute, perMinute + 1);
            && polls[perMinute].time - polls[0].time == 60.0
            && DefaultRate(perMinute as real / 60.0).GrantsBetween(BucketState(1.0, 0.0), polls, 0, perMinute + 1)
               == perMinute + 1
  {
    SaturatingAllGranted(perMinute, perMinute + 1, perMinute + 1);
    assert perMinute as real * (60.0 / perMinute as real) == 60.0;
  }

  /** An amount over the capacity is never granted, however long one waits; any other amount is granted by a poll
      made after sleeping for what is missing. */
  lemma GrantedIffAffordable(r: Rate, b: BucketState, want: real)
    requires r.rps > 0.0 && r.capacity >= 0.0 && b.tokens >= 0.0
    ensures (exists now :: r.Grants(b, Poll(now, want))) <==> want <= r.capacity
  {
    if b.tokens < want <= r.capacity {
      var missing := (want - b.tokens) / r.rps;
      SleepCovers(r, b, want, missing, b.updated + missing);
    } else if want <= r.capacity {
      GainMonotone(r, 0.0, 0.0);
      assert r.Grants(b, Poll(b.updated, want));
    }
  }

  // ---------------------------------------------------------------- the bucket as an object

  /** The event loop's clock. A sleep takes at least as long as asked. */
  class EventLoop {
    var now: real

    method Sleep(duration: real)
      modifies this
      ensures now >= old(now) && now >= old(now) + duration
    {
      var late: real := *;
      now := now + Max(0.0, duration) + Max(0.0, late);
    }
  }

  class TokenBucket {
    const rate: Rate
    var tokens: real
    var updated: real
    ghost var start: BucketState
    ghost var polls: seq<Poll>  // every pass of the waiting loop so far

    ghost function State(): BucketState
      reads this
    {
      BucketState(tokens, updated)
    }

    ghost predicate Valid()
      reads this
    {
      && rate.rps > 0.0 && rate.capacity >= 0.0
      && start.tokens == rate.capacity
      && Orderly(polls)
      && State() == rate.After(start, polls, |polls|)
    }

    /** No poll lies in the future of the clock. */
    ghost predicate UpTo(now: real)
      reads this
    {
      forall i :: 0 <= i < |polls| ==> polls[i].time <= now
    }

    constructor (rps: real, burst: Option<nat>, loopTime: real)
      requires rps > 0.0
      ensures Valid() && polls == []
      ensures rate == Rate(rps, if burst.Some? then burst.value as real else Max(1.0, rps))
      ensures State() == BucketState(rate.capacity, loopTime)
    {
      var capacity := if burst.Some? then burst.value as real else Max(1.0, rps);
      rate := Rate(rps, capacity);
      tokens := capacity;
      updated := loopTime;
      start := BucketState(capacity, loopTime);
      polls := [];
    }

    /** One pass of the waiting loop: refill for the elapsed time, then take the amount if it is there. */
    method Try(now: real, want: real) returns (granted: bool)
      requires Valid() && UpTo(now) && want >= 0.0
      modifies this
      ensures Valid() && UpTo(now)
      ensures start == old(start) && polls == old(polls) + [Poll(now, want)]
      ensures State() == rate.Step(old(State()), Poll(now, want))
      ensures granted == rate.Grants(old(State()), Poll(now, want))
      ensures !granted ==> tokens < want && updated == now
      ensures rate.GrantedBetween(start, polls, |old(polls)|, |polls|) == if granted then want else 0.0
    {
      Extend(rate, start, polls, Poll(now, want), |polls|);
      polls := polls + [Poll(now, want)];
      var elapsed := Max(0.0, now - updated);
      tokens := Min(rate.capacity, tokens + rate.Gain(elapsed));
      updated := now;
      granted := tokens >= want;
      if granted {
        tokens := tokens - want;
      }
    }

    /** Sleeps for as long as the missing tokens take to come back, even if the bucket cannot hold them. */
    method SleepForMissing(loop: EventLoop, want: real)
      requires Valid() && UpTo(loop.now) && updated <= loop.now && tokens < want
      modifies loop
      ensures Valid() && UpTo(loop.now) && loop.now >= old(loop.now)
      ensures rate.Grants(State(), Poll(loop.now, want)) <==> want <= rate.capacity
    {
      var missing := (want - tokens) / rate.rps;
      loop.Sleep(missing);
      if want <= rate.capacity {
        SleepCovers(rate, State(), want, missing, loop.now);
      }
    }

    /** The first `passes` passes of the waiting loop. An amount that fits the bucket is granted by the second at the
        latest, and then exactly once; a larger one is never granted, and the loop goes on for as many passes as it is
        watched for. */
    method Acquire(loop: EventLoop, want: real, passes: nat) returns (granted: bool)
      requires Valid() && UpTo(loop.now) && want >= 0.0
      modifies this, loop
      ensures Valid() && UpTo(loop.now)
      ensures loop.now >= old(loop.now) && start == old(start)
      ensures old(polls) <= polls && |polls| <= |old(polls)| + passes
      ensures forall k :: |old(polls)| <= k < |polls| ==> polls[k].want == want && polls[k].time >= old(loop.now)
      ensures rate.GrantedBetween(start, polls, |old(polls)|, |polls|) == if granted then want else 0.0
      ensures want <= rate.capacity && passes >= 2 ==> granted && |old(polls)| < |polls| <= |old(polls)| + 2
      ensures want > rate.capacity ==> !granted && |polls| == |old(polls)| + passes
    {
      ghost var before := |polls|;
      granted := false;
      var pass := 0;
      while !granted && pass < passes
        invariant Valid() && UpTo(loop.now) && start == old(start) && loop.now >= old(loop.now)
        invariant old(polls) <= polls && |polls| == before + pass && pass <= passes
        invariant forall k :: before <= k < |polls| ==> polls[k].want == want && polls[k].time >= old(loop.now)
        invariant pass > 0 && !granted ==> (rate.Grants(State(), Poll(loop.now, want)) <==> want <= rate.capacity)
        invariant want <= rate.capacity && !granted ==> pass <= 1
        invariant want <= rate.capacity && granted ==> pass <= 2
        invariant granted ==> pass > 0 && want <= rate.capacity
        invariant rate.GrantedBetween(start, polls, before, |polls|) == if granted then want else 0.0
      {
        Extend(rate, start, polls, Poll(loop.now, want), before);
        granted := Try(loop.now, want);
        pass := pass + 1;
        if !granted {
          SleepForMissing(loop, want);
        }
      }
    }
  }

  /** None is the ValueError of a rate that is not positive. */
  method NewTokenBucket(rps: real, burst: Option<nat>, loopTime: real) returns (b: Option<TokenBucket>)
    ensures b.None? <==> rps <= 0.0
    ensures b.Some? ==>
              && fresh(b.value) && b.value.Valid() && b.value.polls == []
              && b.value.rate == Rate(rps, if burst.Some? then burst.value as real else Max(1.0, rps))
              && b.value.State() == BucketState(b.value.rate.capacity, loopTime)
  {
    if rps <= 0.0 {
      return None;
    }
    var bucket := new TokenBucket(rps, burst, loopTime);
    return Some(bucket);
  }

  /** After sleeping for what is missing, the poll that was refused would be granted. */
  lemma SleepCovers(r: Rate, b: BucketState, want: real, missing: real, now: real)
    requires r.rps > 0.0 && b.tokens < want <= r.capacity
    requires missing == (want - b.tokens) / r.rps && now >= b.updated + missing
    ensures r.Grants(b, Poll(now, want))
  {
    QuotientBound(want - b.tokens, r.rps, 0.0);
    assert r.Gain(missing) == want - b.tokens;
    GainMonotone(r, missing, now - b.updated);
  }

  lemma Extend(r: Rate, b: BucketState, polls: seq<Poll>, p: Poll, i: nat)
    requires i <= |polls|
    ensures var more := polls + [p];
            && r.After(b, more, |polls|) == r.After(b, polls, |polls|)
            && r.After(b, more, |more|) == r.Step(r.After(b, polls, |polls|), p)
            && r.GrantedBetween(b, more, i, |more|)
               == r.GrantedBetween(b, polls, i, |polls|) + r.Granted(r.After(b, polls, |polls|), p)
  {
    AfterPrefix(r, b, polls, polls + [p], |polls|);
    GrantedPrefix(r, b, polls, polls + [p], i, |polls|);
  }

  lemma {:induction false} AfterPrefix(r: Rate, b: BucketState, polls: seq<Poll>, more: seq<Poll>, k: nat)
    requires polls <= more && k <= |polls|
    ensures r.After(b, more, k) == r.After(b, polls, k)
  {
    if k > 0 {
      AfterPrefix(r, b, polls, more, k - 1);
    }
  }

  lemma {:induction false} GrantedPrefix(
    r: Rate, b: BucketState, polls: seq<Poll>, more: seq<Poll>, i: nat, j: nat)
    requires polls <= more && i <= j <= |polls|
    ensures r.GrantedBetween(b, more, i, j) == r.GrantedBetween(b, polls, i, j)
  {
    if i < j {
      GrantedPrefix(r, b, polls, more, i, j - 1);
      AfterPrefix(r, b, polls, more, j - 1);
    }
  }

  // ---------------------------------------------------------------- circuit breaker

  datatype BreakerState = BreakerState(failures: nat, openedAt: Option<real>)

  datatype BreakerOp = Failed(now: real) | Succeeded | Asked(now: real)

  const CLOSED_BREAKER := BreakerState(0, None)

  /** Threshold and reset timeout. */
  datatype BreakerConfig = BreakerConfig(threshold: int, resetTimeoutS: real) {
    predicate OpenAt(s: BreakerState, now: real) {
      s.openedAt.Some? && now - s.openedAt.value < resetTimeoutS
    }

    /** Asking whether the circuit is open closes it once the timeout has passed. */
    function Apply(s: BreakerState, op: BreakerOp): BreakerState {
      match op
      case Failed(now) =>
        BreakerState(s.failures + 1, if s.failures + 1 >= threshold then Some(now) else s.openedAt)
      case Succeeded => CLOSED_BREAKER
      case Asked(now) => if s.openedAt.Some? && !OpenAt(s, now) then CLOSED_BREAKER else s
    }

    function Reached(ops: seq<BreakerOp>): BreakerState {
      if ops == [] then CLOSED_BREAKER else Apply(Reached(ops[..|ops| - 1]), ops[|ops| - 1])
    }
  }

  /** Failures recorded since the last success. */
  function FailuresInARow(ops: seq<BreakerOp>): nat {
    if ops == [] then 0
    else
      match ops[|ops| - 1]
      case Failed(_) => FailuresInARow(ops[..|ops| - 1]) + 1
      case Succeeded => 0
      case Asked(_) => FailuresInARow(ops[..|ops| - 1])
  }

  /** In every reachable state the opening time is set exactly when the failures have reached the threshold, and
      then there were that many failures without a success in between. */
  lemma {:induction false} BreakerReachable(c: BreakerConfig, ops: seq<BreakerOp>)
    requires c.threshold >= 1
    ensures c.Reached(ops).openedAt.Some? <==> c.Reached(ops).failures >= c.threshold
    ensures c.Reached(ops).failures <= FailuresInARow(ops)
    ensures (forall op :: op in ops ==> !op.Asked?) ==> c.Reached(ops).failures == FailuresInARow(ops)
  {
    if ops != [] {
      BreakerReachable(c, ops[..|ops| - 1]);
    }
  }

  /** The equivalence is an invariant of the breaker exactly for thresholds of at least one. */
  lemma BreakerInvariantIffPositiveThreshold(c: BreakerConfig)
    ensures (forall ops :: c.Reached(ops).openedAt.Some? <==> c.Reached(ops).failures >= c.threshold)
            <==> c.threshold >= 1
  {
    if c.threshold >= 1 {
      forall ops
        ensures c.Reached(ops).openedAt.Some? <==> c.Reached(ops).failures >= c.threshold
      {
        BreakerReachable(c, ops);
      }
    } else {
      assert c.Reached([]) == CLOSED_BREAKER;
    }
  }

  class CircuitBreaker {
    const config: BreakerConfig
    var failures: nat
    var openedAt: Option<real>
    ghost var ops: seq<BreakerOp>

    ghost function State(): BreakerState
      reads this
    {
      BreakerState(failures, openedAt)
    }

    ghost predicate Valid()
      reads this
    {
      State() == config.Reached(ops)
    }

    constructor (threshold: int, resetTimeoutS: real)
      ensures Valid() && config == BreakerConfig(threshold, resetTimeoutS)
      ensures State() == CLOSED_BREAKER
    {
      config := BreakerConfig(threshold, resetTimeoutS);
      failures, openedAt := 0, None;
      ops := [];
    }

    method IsOpen(now: real) returns (open: bool)
      requires Valid()
      modifies this
      ensures Valid() && ops == old(ops) + [Asked(now)]
      ensures open == config.OpenAt(old(State()), now)
      ensures open <==> openedAt.Some?
      ensures State() == config.Apply(old(State()), Asked(now))
    {
      ghost var op := Asked(now);
      assert (ops + [op])[..|ops|] == ops;
      ops := ops + [op];
      if openedAt.None? {
        return false;
      }
      if now - openedAt.value >= config.resetTimeoutS {
        openedAt := None;
        failures := 0;
        return false;
      }
      return true;
    }

    method RecordSuccess()
      requires Valid()
      modifies this
      ensures Valid() && ops == old(ops) + [Succeeded]
      ensures State() == CLOSED_BREAKER
    {
      assert (ops + [Succeeded])[..|ops|] == ops;
      ops := ops + [Succeeded];
      failures := 0;
      openedAt := None;
    }

    method RecordFailure(now: real)
      requires Valid()
      modifies this
      ensures Valid() && ops == old(ops) + [Failed(now)]
      ensures State() == config.Apply(old(State()), Failed(now))
    {
      ghost var op := Failed(now);
      assert (ops + [op])[..|ops|] == ops;
      ops := ops + [op];
      failures := failures + 1;
      if failures >= config.threshold {
        openedAt := Some(now);
      }
    }
  }
}
