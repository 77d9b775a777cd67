/** The retry loop of `HttpClient.request` (src/core/http.py) over the breaker and the token bucket.

    What the network answers is an arbitrary function of the attempt number. One request runs at a time. */
module Http {
  import opened Common
  import opened RateLimit

  /** What one HTTP call brings back; `dnsText` says whether the error text reads like a DNS problem. The loop catches
      timeouts and transport errors; any other exception, such as too many redirects, leaves it. */
  datatype Wire = Response(status: int, dnsText: bool) | TransportError(dnsText: bool) | OtherException

  const RETRYABLE_STATUS := {408, 425, 429, 500, 502, 503, 504, 522, 524}

  predicate Retryable(w: Wire) {
    w.Response? && w.status in RETRYABLE_STATUS
  }

  predicate Success(w: Wire) {
    w.Response? && w.status !in RETRYABLE_STATUS && w.status < 400
  }

  /** A definitive 4xx (or other non-retryable error status): the request is wrong, the provider is up. */
  predicate ClientError(w: Wire) {
    w.Response? && w.status !in RETRYABLE_STATUS && w.status >= 400
  }

  /** The three kinds of responses by their status: below 400; one of nine that are worth another try; the rest. */
  lemma StatusKinds(status: int, dnsText: bool)
    ensures var retried := status == 408 || status == 425 || status == 429 || status == 500 || status == 502
                           || status == 503 || status == 504 || status == 522 || status == 524;
            && (Retryable(Response(status, dnsText)) <==> retried)
            && (Success(Response(status, dnsText)) <==> status < 400)
            && (ClientError(Response(status, dnsText)) <==> status >= 400 && !retried)
    ensures !Retryable(TransportError(dnsText)) && !Success(TransportError(dnsText))
            && !ClientError(TransportError(dnsText))
  {
  }

  datatype DnsBypass = Auto | Always | Never

  /** How the loop takes one answer: done, given up, tried again over another path, a plain failure, or an exception
      that it does not catch. */
  datatype Verdict = Answered | Refused | FellBack | Faulted | Escaped

  datatype Result =
    | Blocked                      // the breaker was open
    | Ok(status: int)
    | ClientFailure(status: int)   // UpstreamError, raised at once
    | EscapedException             // whatever was raised, as it is
    | RateLimitFailure             // RateLimitError after the last attempt
    | Exhausted                    // UpstreamError after the last attempt

  function MaxAttempts(attempts: int): nat {
    if attempts > 0 then attempts else 0
  }

  /** A 4xx answer that was retried over DNS-over-HTTPS has already cleared the breaker. */
  ghost predicate Cleared(verdicts: seq<Verdict>, wire: nat -> Wire) {
    exists k :: 0 <= k < |verdicts| && verdicts[k] == FellBack && ClientError(wire(k))
  }

  function CountFallbacks(verdicts: seq<Verdict>): nat {
    if verdicts == [] then 0
    else CountFallbacks(verdicts[..|verdicts| - 1]) + if verdicts[|verdicts| - 1] == FellBack then 1 else 0
  }

  function CountFaults(verdicts: seq<Verdict>): nat {
    if verdicts == [] then 0
    else CountFaults(verdicts[..|verdicts| - 1]) + if verdicts[|verdicts| - 1] == Faulted then 1 else 0
  }

  /** The counts are of the attempts with that verdict. */
  lemma {:induction false} VerdictCounts(verdicts: seq<Verdict>)
    ensures CountFallbacks(verdicts) == |With(verdicts, FellBack)|
    ensures CountFaults(verdicts) == |With(verdicts, Faulted)|
  {
    hide With;
    if verdicts == [] {
      NothingWith(FellBack);
      NothingWith(Faulted);
    } else {
      var front, last := verdicts[..|verdicts| - 1], verdicts[|verdicts| - 1];
      assert verdicts == front + [last];
      VerdictCounts(front);
      WithOneMore(front, last, FellBack);
      WithOneMore(front, last, Faulted);
    }
  }

  function With(verdicts: seq<Verdict>, v: Verdict): set<nat> {
    set i: nat | i < |verdicts| && verdicts[i] == v
  }

  lemma NothingWith(v: Verdict)
    ensures |With([], v)| == 0
  {
    assert With([], v) == {};
  }

  lemma WithOneMore(front: seq<Verdict>, last: Verdict, v: Verdict)
    ensures |With(front + [last], v)| == |With(front, v)| + if last == v then 1 else 0
  {
    var n: nat := |front|;
    var all, before := With(front + [last], v), With(front, v);
    assert n !in before;
    if last == v {
      assert all == before + {n};
    } else {
      assert all == before;
    }
  }

  /** The pause after failure number `n`: half a second, doubling up to eight. */
  function Delay(n: nat): real {
    if n == 0 then 0.5 else Min(Delay(n - 1) * 2.0, 8.0)
  }

  /** All the pauses after the first `n` failures. */
  function Backoff(n: nat): real {
    if n == 0 then 0.0 else Backoff(n - 1) + Delay(n - 1)
  }

  /** In numbers: half a second, one, two, four, and eight from then on. */
  lemma {:induction false} BackoffInNumbers(n: nat)
    ensures Delay(0) == 0.5 && Delay(1) == 1.0 && Delay(2) == 2.0 && Delay(3) == 4.0
    ensures n >= 4 ==> Delay(n) == 8.0
    ensures Backoff(0) == 0.0 && Backoff(1) == 0.5 && Backoff(2) == 1.5 && Backoff(3) == 3.5 && Backoff(4) == 7.5
    ensures n >= 4 ==> Backoff(n) == 7.5 + 8.0 * (n - 4) as real
  {
    assert Delay(1) == 1.0 && Delay(2) == 2.0 && Delay(3) == 4.0 && Delay(4) == 8.0;
    assert Backoff(1) == 0.5 && Backoff(2) == 1.5 && Backoff(3) == 3.5 && Backoff(4) == 7.5;
    if n > 4 {
      BackoffInNumbers(n - 1);
    }
  }

  /** A pause is due for every failure but one in the last attempt. */
  lemma PausesDueInNumbers(verdicts: seq<Verdict>)
    ensures PausesDue(verdicts)
            == |With(verdicts, Faulted)| - if |verdicts| > 0 && verdicts[|verdicts| - 1] == Faulted then 1 else 0
  {
    VerdictCounts(verdicts);
  }

  /** The pauses due so far have been made, and `delay` is the next one. */
  ghost predicate Paced(start: real, now: real, verdicts: seq<Verdict>, delay: real) {
    delay == Delay(CountFaults(verdicts)) && now >= start + Backoff(CountFaults(verdicts))
  }

  lemma PacedAtFirst(now: real)
    ensures Paced(now, now, [], 0.5)
  {
  }

  lemma PacedStep(start: real, now: real, verdicts: seq<Verdict>, delay: real, v: Verdict, later: real)
    requires Paced(start, now, verdicts, delay) && later >= now
    ensures v != Faulted ==> Paced(start, later, verdicts + [v], delay)
    ensures v == Faulted && later >= now + delay ==> Paced(start, later, verdicts + [v], Min(delay * 2.0, 8.0))
    ensures later >= start + Backoff(PausesDue(verdicts + [v]))
  {
    assert (verdicts + [v])[..|verdicts|] == verdicts;
  }

  lemma PacedAtEnd(start: real, now: real, verdicts: seq<Verdict>, delay: real)
    requires Paced(start, now, verdicts, delay) && !EndsFaulted(verdicts)
    ensures now >= start + Backoff(PausesDue(verdicts))
  {
  }

  class HttpClient {
    const breaker: CircuitBreaker
    const bucket: TokenBucket
    const ownClient: bool
    const dnsBypass: DnsBypass
    const maxRetries: int
    var proxy: bool
    var bypassActive: bool

    ghost predicate Valid()
      reads this, breaker, bucket
    {
      breaker.Valid() && bucket.Valid() && bucket.rate.capacity >= 1.0
    }

    constructor (rps: real, failureThreshold: int, maxRetries: int, ownClient: bool, dnsBypass: DnsBypass, proxy: bool,
                 loopTime: real)
      requires rps > 0.0
      ensures Valid() && fresh(breaker) && fresh(bucket)
      ensures bucket.polls == [] && breaker.State() == CLOSED_BREAKER
      ensures bucket.rate == DefaultRate(rps)
    {
      this.breaker := new CircuitBreaker(failureThreshold, 30.0);
      this.bucket := new TokenBucket(rps, None, loopTime);
      this.maxRetries := maxRetries;
      this.ownClient := ownClient;
      this.dnsBypass := dnsBypass;
      this.proxy := proxy;
      this.bypassActive := false;
    }

    /** How many more times an answer can be turned into another try without counting as a failure. */
    ghost function FallbacksLeft(): nat
      reads this
    {
      (if proxy then 1 else 0) + if bypassActive then 0 else 1
    }

    /** The proxy failed: the next try goes out directly. */
    ghost predicate OverDirectPath(answer: Wire)
      reads this
    {
      proxy && ownClient && answer.TransportError?
    }

    /** The error looks like a DNS problem and the host resolves over DNS-over-HTTPS: the next try uses the address. */
    ghost predicate OverResolvedAddress(answer: Wire, resolves: bool)
      reads this
    {
      && !Success(answer) && !answer.OtherException? && !OverDirectPath(answer)
      && dnsBypass == Auto && !bypassActive && ownClient && answer.dnsText && resolves
    }

    /** One pass of the loop after its token has been taken: the call, and the handling of its error up to the
        point where the code raises, continues or goes on to count a failure. */
    method Attempt(answer: Wire, resolves: bool) returns (v: Verdict)
      requires Valid()
      modifies this, breaker
      ensures Valid()
      ensures v == Answered <==> Success(answer)
      ensures v == FellBack <==> old(OverDirectPath(answer) || OverResolvedAddress(answer, resolves))
      ensures v == Refused <==> ClientError(answer) && v != FellBack
      ensures v == Escaped <==> answer.OtherException?
      ensures proxy <==> old(proxy && !OverDirectPath(answer))
      ensures bypassActive <==>
              old(|| bypassActive || (dnsBypass == Always && ownClient && resolves)
                  || OverResolvedAddress(answer, resolves))
      ensures v == FellBack ==> FallbacksLeft() < old(FallbacksLeft())
      ensures FallbacksLeft() <= old(FallbacksLeft())
      ensures breaker.State() ==
              if Success(answer) || ClientError(answer) then CLOSED_BREAKER else old(breaker.State())
    {
      if dnsBypass == Always && !bypassActive && ownClient && resolves {
        bypassActive := true;
      }
      if Success(answer) {
        breaker.RecordSuccess();
        return Answered;
      }
      if answer.OtherException? {
        return Escaped;
      }
      if ClientError(answer) {
        breaker.RecordSuccess();
      }
      if proxy && ownClient && answer.TransportError? {
        proxy := false;
        return FellBack;
      }
      if dnsBypass == Auto && !bypassActive && ownClient && answer.dnsText {
        if resolves {
          bypassActive := true;
          return FellBack;
        }
      }
      if ClientError(answer) {
        return Refused;
      }
      return Faulted;
    }

    ghost function TokensSince(i: nat): real
      reads this, bucket
    {
      if i <= |bucket.polls| then bucket.rate.GrantedBetween(bucket.start, bucket.polls, i, |bucket.polls|) else 0.0
    }

    method TakeToken(loop: EventLoop, ghost since: nat)
      requires Valid() && bucket.UpTo(loop.now) && since <= |bucket.polls|
      modifies bucket, loop
      ensures Valid() && bucket.UpTo(loop.now) && loop.now >= old(loop.now)
      ensures since <= |bucket.polls|
      ensures TokensSince(since) == old(TokensSince(since)) + 1.0
    {
      ghost var polls := bucket.polls;
      var granted := bucket.Acquire(loop, 1.0, 2);
      GrantedSplit(bucket.rate, bucket.start, bucket.polls, since, |polls|, |bucket.polls|);
      GrantedPrefix(bucket.rate, bucket.start, polls, bucket.polls, since, |polls|);
    }

    /** What holds between attempts; `first` is the breaker when the request was let through. */
    ghost predicate Between(verdicts: seq<Verdict>, wire: nat -> Wire, first: BreakerState, since: nat)
      reads this, breaker, bucket
    {
      && Valid() && since <= |bucket.polls|
      && TokensSince(since) == |verdicts| as real
      && StillTrying(verdicts, wire)
      && CountFallbacks(verdicts) + FallbacksLeft() <= 2
      && breaker.State() == if Cleared(verdicts, wire) then CLOSED_BREAKER else first
    }

    /** A token, an attempt, and its verdict added to the list. */
    method NextAttempt(
      loop: EventLoop, verdicts: seq<Verdict>, wire: nat -> Wire, resolves: bool, ghost first: BreakerState,
      ghost since: nat)
      returns (v: Verdict)
      requires Between(verdicts, wire, first, since) && bucket.UpTo(loop.now)
      modifies this, breaker, bucket, loop
      ensures Valid() && bucket.UpTo(loop.now) && loop.now >= old(loop.now)
      ensures TokensSince(since) == (|verdicts| + 1) as real
      ensures CountFallbacks(verdicts + [v]) <= 2
      ensures v == FellBack || v == Faulted ==> Between(verdicts + [v], wire, first, since)
      ensures v == Answered ==> Success(wire(|verdicts|)) && breaker.State() == CLOSED_BREAKER
      ensures v == Refused ==> ClientError(wire(|verdicts|)) && breaker.State() == CLOSED_BREAKER
      ensures v == Escaped ==>
                && wire(|verdicts|).OtherException?
                && breaker.State() == if Cleared(verdicts, wire) then CLOSED_BREAKER else first
    {
      TakeToken(loop, since);
      v := Attempt(wire(|verdicts|), resolves);
      ClearedStep(verdicts, v, wire);
      assert (verdicts + [v])[..|verdicts|] == verdicts;
    }

    /** The attempts of one request, after the guard. None means the attempts are used up. */
    method RunAttempts(
      loop: EventLoop, attempts: int, wire: nat -> Wire, resolves: nat -> bool, ghost since: nat)
      returns (r: Option<Result>, verdicts: seq<Verdict>, last: Option<Wire>)
      requires Valid() && bucket.UpTo(loop.now) && since == |bucket.polls|
      modifies this, breaker, bucket, loop
      ensures Valid() && bucket.UpTo(loop.now)
      ensures |verdicts| <= MaxAttempts(attempts) && TokensSince(since) == |verdicts| as real
      ensures CountFallbacks(verdicts) <= 2
      ensures last == if |verdicts| > 0 then Some(wire(|verdicts| - 1)) else None
      ensures loop.now >= old(loop.now) + Backoff(PausesDue(verdicts))
      ensures r.Some? ==> Ended(r.value, verdicts, wire)
      ensures r.Some? ==>
                breaker.State()
                == if r.value.EscapedException? && !Cleared(verdicts, wire) then old(breaker.State())
                   else CLOSED_BREAKER
      ensures r.None? ==>
                && |verdicts| == MaxAttempts(attempts) && StillTrying(verdicts, wire)
                && breaker.failures ==
                   (if Cleared(verdicts, wire) then 0 else old(breaker.failures))
                   + (if EndsFaulted(verdicts) then 1 else 0)
    {
      hide Paced, Backoff, CountFaults, Delay, PausesDue, CountFallbacks, StillTrying, Cleared;
      NothingTried(wire);
      verdicts, last := [], None;
      var delay := 0.5;
      PacedAtFirst(loop.now);
      var attempt := 1;
      while attempt <= attempts
        invariant attempt == |verdicts| + 1 && |verdicts| <= MaxAttempts(attempts)
        invariant bucket.UpTo(loop.now) && Between(verdicts, wire, old(breaker.State()), since)
        invariant last == if |verdicts| > 0 then Some(wire(|verdicts| - 1)) else None
        invariant attempt > attempts ==> !EndsFaulted(verdicts)
        invariant Paced(old(loop.now), loop.now, verdicts, delay)
      {
        ghost var before, asked := verdicts, loop.now;
        var answer := wire(|verdicts|);
        var v := NextAttempt(loop, verdicts, wire, resolves(|verdicts|), old(breaker.State()), since);
        assert (verdicts + [v])[..|verdicts|] == verdicts;
        verdicts := verdicts + [v];
        last := Some(answer);
        PacedStep(old(loop.now), asked, before, delay, v, loop.now);
        if v == Answered {
          return Some(Ok(answer.status)), verdicts, last;
        }
        if v == Refused {
          return Some(ClientFailure(answer.status)), verdicts, last;
        }
        if v == Escaped {
          ClearedStep(before, v, wire);
          return Some(EscapedException), verdicts, last;
        }
        if v == Faulted {
          if attempt >= attempts {
            breaker.RecordFailure(loop.now);
            return None, verdicts, last;
          }
          loop.Sleep(delay);
          PacedStep(old(loop.now), asked, before, delay, v, loop.now);
          delay := Min(delay * 2.0, 8.0);
        }
        attempt := attempt + 1;
      }
      PacedAtEnd(old(loop.now), loop.now, verdicts, delay);
      r := None;
    }

    /** A whole request. `wire(k)` is what attempt k gets back and `resolves(k)` whether DNS-over-HTTPS works then.
        Blocked requests do nothing; every attempt takes one token; a definitive answer leaves the breaker closed; an
        exception that is not caught leaves it as it was; an exhausted request adds two failures, or one when its last
        attempt (if any) was spent on a fallback. */
    method Request(loop: EventLoop, retries: Option<int>, wire: nat -> Wire, resolves: nat -> bool)
      returns (r: Result, verdicts: seq<Verdict>)
      requires Valid() && bucket.UpTo(loop.now)
      modifies this, breaker, bucket, loop
      ensures Valid() && bucket.UpTo(loop.now)
      ensures r == Blocked <==> breaker.config.OpenAt(old(breaker.State()), old(loop.now))
      ensures r == Blocked ==> verdicts == [] && breaker.State() == old(breaker.State())
      ensures |verdicts| <= MaxAttempts(retries.GetOr(maxRetries))
      ensures TokensSince(|old(bucket.polls)|) == |verdicts| as real
      ensures CountFallbacks(verdicts) <= 2
      ensures loop.now >= old(loop.now) + Backoff(PausesDue(verdicts))
      ensures r.Ok? || r.ClientFailure? ==> Ended(r, verdicts, wire) && breaker.State() == CLOSED_BREAKER
      ensures r.EscapedException? ==>
                && Ended(r, verdicts, wire)
                && breaker.State() == if Cleared(verdicts, wire) then CLOSED_BREAKER
                                      else breaker.config.Apply(old(breaker.State()), Asked(old(loop.now)))
      ensures r.Exhausted? || r.RateLimitFailure? ==>
                && |verdicts| == MaxAttempts(retries.GetOr(maxRetries)) && StillTrying(verdicts, wire)
                && (r.RateLimitFailure? <==>
                      |verdicts| > 0 && wire(|verdicts| - 1).Response? && wire(|verdicts| - 1).status == 429)
                && breaker.failures ==
                   (if Cleared(verdicts, wire) then 0 else old(FailuresWhenAsked(loop.now)))
                   + (if EndsFaulted(verdicts) then 2 else 1)
    {
      ghost var since := |bucket.polls|;
      var open := breaker.IsOpen(loop.now);
      if open {
        return Blocked, [];
      }
      var ended, last;
      ended, verdicts, last := RunAttempts(loop, retries.GetOr(maxRetries), wire, resolves, since);
      if ended.Some? {
        return ended.value, verdicts;
      }
      breaker.RecordFailure(loop.now);
      r := if last.Some? && Status429(last.value) then RateLimitFailure else Exhausted;
    }

    /** The failure count once the breaker has been asked, which closes it after the reset timeout. */
    ghost function FailuresWhenAsked(now: real): nat
      reads this, breaker
    {
      breaker.config.Apply(breaker.State(), Asked(now)).failures
    }
  }

  predicate Status429(w: Wire) {
    w.Response? && w.status == 429
  }

  /** The pause after a failure is made unless it was the last attempt. */
  function PausesDue(verdicts: seq<Verdict>): nat {
    if verdicts == [] then 0
    else if verdicts[|verdicts| - 1] == Faulted then CountFaults(verdicts[..|verdicts| - 1])
    else CountFaults(verdicts)
  }

  ghost predicate EndsFaulted(verdicts: seq<Verdict>) {
    |verdicts| > 0 && verdicts[|verdicts| - 1] == Faulted
  }

  /** Every attempt so far was a fallback or a retryable failure. */
  ghost predicate StillTrying(verdicts: seq<Verdict>, wire: nat -> Wire) {
    forall k :: 0 <= k < |verdicts| ==>
      && verdicts[k] in {FellBack, Faulted} && !Success(wire(k))
      && (verdicts[k] == Faulted ==> Retryable(wire(k)) || wire(k).TransportError?)
  }

  /** The last attempt got the definitive answer the result reports; all earlier ones were tried again. */
  ghost predicate Ended(r: Result, verdicts: seq<Verdict>, wire: nat -> Wire) {
    && |verdicts| > 0
    && StillTrying(verdicts[..|verdicts| - 1], wire)
    && var answer := wire(|verdicts| - 1);
    && match r
       case EscapedException => answer.OtherException?
       case Ok(status) => Success(answer) && status == answer.status
       case ClientFailure(status) => ClientError(answer) && status == answer.status
       case _ => false
  }

  lemma NothingTried(wire: nat -> Wire)
    ensures CountFallbacks([]) == 0 && StillTrying([], wire) && !Cleared([], wire)
  {
  }

  lemma ClearedStep(verdicts: seq<Verdict>, v: Verdict, wire: nat -> Wire)
    ensures Cleared(verdicts + [v], wire) <==>
            Cleared(verdicts, wire) || (v == FellBack && ClientError(wire(|verdicts|)))
  {
    var more := verdicts + [v];
    if Cleared(verdicts, wire) {
      var k :| 0 <= k < |verdicts| && verdicts[k] == FellBack && ClientError(wire(k));
      assert more[k] == FellBack;
    }
    if v == FellBack && ClientError(wire(|verdicts|)) {
      assert more[|verdicts|] == FellBack;
    }
  }

  lemma {:induction false} GrantedSplit(r: Rate, b: BucketState, polls: seq<Poll>, i: nat, m: nat, j: nat)
    requires i <= m <= j <= |polls|
    ensures r.GrantedBetween(b, polls, i, j) == r.GrantedBetween(b, polls, i, m) + r.GrantedBetween(b, polls, m, j)
  {
    if m < j {
      GrantedSplit(r, b, polls, i, m, j - 1);
    }
  }
}
