/** Daily budget and hourly call limit of the LLM client (src/intelligence/llm.py, class LLMBudget).

    Days and seconds come from the caller; the clock in seconds does not go back. */
module LlmBudget {
  import opened Common

  const HOUR := 3600.0

  ghost predicate Increasing(times: seq<real>) {
    forall i, j :: 0 <= i <= j < |times| ==> times[i] <= times[j]
  }

  ghost predicate NoneAfter(times: seq<real>, now: real) {
    forall i :: 0 <= i < |times| ==> times[i] <= now
  }

  lemma NothingAdmitted(most: int, now: real)
    ensures Increasing([]) && NoneAfter([], now) && IsRecentPart([], [], now) && HourlyLimit([], most)
  {
  }

  lemma IncreasingSnoc(times: seq<real>, now: real)
    requires Increasing(times) && NoneAfter(times, now)
    ensures Increasing(times + [now]) && NoneAfter(times + [now], now)
  {
  }

  lemma NoneAfterLater(times: seq<real>, now: real, later: real)
    requires NoneAfter(times, now) && now <= later
    ensures NoneAfter(times, later)
  {
  }

  /** No stretch of less than an hour holds more than `most` of the calls. */
  ghost predicate HourlyLimit(times: seq<real>, most: int) {
    && (most <= 0 ==> times == [])
    && (most > 0 ==> forall i :: 0 <= i < |times| - most ==> times[i + most] - times[i] >= HOUR)
  }

  /** `[t for t in calls if now - t < 3600]`. */
  function Recent(calls: seq<real>, now: real): seq<real> {
    if calls == [] then []
    else
      var last := calls[|calls| - 1];
      Recent(calls[..|calls| - 1], now) + if now - last < HOUR then [last] else []
  }

  lemma RecentSnoc(calls: seq<real>, last: real, now: real)
    ensures Recent(calls + [last], now) == if now - last < HOUR then Recent(calls, now) + [last] else Recent(calls, now)
  {
    assert (calls + [last])[..|calls|] == calls;
  }

  /** The calls before a time are an hour old, those from it on are not. */
  ghost predicate SplitAt(calls: seq<real>, k: nat, now: real)
    requires k <= |calls|
  {
    && (forall i :: 0 <= i < k ==> now - calls[i] >= HOUR)
    && forall i :: k <= i < |calls| ==> now - calls[i] < HOUR
  }

  lemma {:induction false} RecentOfSplit(calls: seq<real>, k: nat, now: real)
    requires k <= |calls| && SplitAt(calls, k, now)
    ensures Recent(calls, now) == calls[k..]
    decreases |calls|
  {
    if calls != [] {
      var n := |calls| - 1;
      var front, last := calls[..n], calls[n];
      assert calls == front + [last];
      RecentSnoc(front, last, now);
      if k <= n {
        RecentOfSplit(front, k, now);
        assert calls[k..] == front[k..] + [last];
      } else {
        RecentOfSplit(front, n, now);
      }
    }
  }

  /** On increasing times there is such a split. */
  lemma {:induction false} SplitExists(calls: seq<real>, now: real) returns (k: nat)
    requires Increasing(calls)
    ensures k <= |calls| && SplitAt(calls, k, now)
  {
    if calls == [] || now - calls[|calls| - 1] >= HOUR {
      k := |calls|;
      assert forall i :: 0 <= i < |calls| ==> calls[i] <= calls[|calls| - 1];
    } else {
      k := SplitExists(calls[..|calls| - 1], now);
    }
  }

  /** On increasing times the filter keeps a suffix, and everything it drops is an hour old. */
  lemma RecentIsSuffix(calls: seq<real>, now: real)
    requires Increasing(calls)
    ensures |Recent(calls, now)| <= |calls|
    ensures Recent(calls, now) == calls[|calls| - |Recent(calls, now)|..]
    ensures forall i :: 0 <= i < |calls| - |Recent(calls, now)| ==> now - calls[i] >= HOUR
  {
    var k := SplitExists(calls, now);
    RecentOfSplit(calls, k, now);
  }

  class Budget {
    const dailyBudget: real
    const maxCallsPerHour: int
    var spentToday: real
    var day: int
    var calls: seq<real>
    ghost var admitted: seq<real>  // every admitted call since the start

    ghost var lastLook: real        // the last time the calls were looked at

    ghost predicate Valid()
      reads this
    {
      && Increasing(admitted)
      && IsRecentPart(calls, admitted, lastLook)
      && HourlyLimit(admitted, maxCallsPerHour)
      && NoneAfter(admitted, lastLook)
    }

    constructor (dailyBudget: real, maxCallsPerHour: int, today: int, ghost now: real)
      ensures Valid() && admitted == [] && lastLook == now
      ensures this.dailyBudget == dailyBudget && this.maxCallsPerHour == maxCallsPerHour
      ensures spentToday == 0.0 && day == today
    {
      hide HourlyLimit, IsRecentPart, Increasing, NoneAfter;
      NothingAdmitted(maxCallsPerHour, now);
      this.dailyBudget := dailyBudget;
      this.maxCallsPerHour := maxCallsPerHour;
      spentToday, day, calls := 0.0, today, [];
      admitted, lastLook := [], now;
    }

    /** What counts as spent today once the day has been looked at. */
    function SpentOn(today: int): real
      reads this
    {
      if today != day then 0.0 else spentToday
    }

    /** Admits a call, or refuses it (LLMBudgetExceeded). */
    method Check(today: int, now: real, estimatedCost: real) returns (ok: bool)
      requires Valid() && lastLook <= now
      modifies this
      ensures Valid() && lastLook <= now
      ensures day == today && spentToday == old(SpentOn(today))
      ensures ok ==> spentToday + estimatedCost <= dailyBudget
      ensures ok <==> old(SpentOn(today)) + estimatedCost <= dailyBudget && |Recent(old(calls), now)| < maxCallsPerHour
      ensures admitted == if ok then old(admitted) + [now] else old(admitted)
    {
      hide HourlyLimit, IsRecentPart, Increasing, NoneAfter, Recent;
      if today != day {
        day := today;
        spentToday := 0.0;
      }
      if spentToday + estimatedCost > dailyBudget {
        return false;
      }
      StillRecent(calls, admitted, lastLook, now);
      NoneAfterLater(admitted, lastLook, now);
      calls := Recent(calls, now);
      lastLook := now;
      if |calls| >= maxCallsPerHour {
        return false;
      }
      AdmitKeepsLimit(calls, admitted, maxCallsPerHour, now);
      IncreasingSnoc(admitted, now);
      calls := calls + [now];
      admitted := admitted + [now];
      return true;
    }

    method RecordCost(cost: real)
      requires Valid()
      modifies this`spentToday
      ensures Valid()
      ensures spentToday == old(spentToday) + cost
    {
      spentToday := spentToday + cost;
    }
  }

  /** The list in memory is the end of all admitted calls, and what was dropped is an hour old. */
  ghost predicate IsRecentPart(calls: seq<real>, admitted: seq<real>, now: real) {
    && |calls| <= |admitted|
    && calls == admitted[|admitted| - |calls|..]
    && forall i :: 0 <= i < |admitted| - |calls| ==> now - admitted[i] >= HOUR
  }

  lemma StillRecent(calls: seq<real>, admitted: seq<real>, last: real, now: real)
    requires Increasing(admitted) && IsRecentPart(calls, admitted, last) && last <= now
    ensures IsRecentPart(Recent(calls, now), admitted, now)
  {
    var from := |admitted| - |calls|;
    forall i, j | 0 <= i <= j < |calls|
      ensures calls[i] <= calls[j]
    {
      assert calls[i] == admitted[from + i] && calls[j] == admitted[from + j];
    }
    RecentIsSuffix(calls, now);
    var dropped := |calls| - |Recent(calls, now)|;
    forall i | 0 <= i < from + dropped
      ensures now - admitted[i] >= HOUR
    {
      if i >= from {
        assert admitted[i] == calls[i - from];
      }
    }
  }

  lemma AdmitKeepsLimit(calls: seq<real>, admitted: seq<real>, most: int, now: real)
    requires IsRecentPart(calls, admitted, now) && HourlyLimit(admitted, most) && |calls| < most
    ensures HourlyLimit(admitted + [now], most)
    ensures IsRecentPart(calls + [now], admitted + [now], now)
  {
    var more := admitted + [now];
    forall i | 0 <= i < |more| - most
      ensures more[i + most] - more[i] >= HOUR
    {
      if i + most < |admitted| {
        assert admitted[i + most] - admitted[i] >= HOUR;
      }
    }
  }

  /** How many of the calls fall in the hour that starts at `start`. */
  function CountInHour(times: seq<real>, start: real): nat {
    if times == [] then 0
    else
      CountInHour(times[..|times| - 1], start) + if start <= times[|times| - 1] < start + 3600.0 then 1 else 0
  }

  /** The count is that of the calls in the hour. */
  lemma {:induction false} CountIsOfCalls(times: seq<real>, start: real)
    ensures CountInHour(times, start) == |set i: nat | i < |times| && start <= times[i] < start + 3600.0|
  {
    var counted := set i: nat | i < |times| && start <= times[i] < start + 3600.0;
    if times == [] {
      assert counted == {};
    } else {
      var n: nat := |times| - 1;
      CountIsOfCalls(times[..n], start);
      var front := set i: nat | i < |times[..n]| && start <= times[..n][i] < start + 3600.0;
      var last: set<nat> := if start <= times[n] < start + 3600.0 then {n} else {};
      assert counted == front + last;
    }
  }

  /** The counted calls lie between two calls of that hour. */
  lemma {:induction false} CountSpan(times: seq<real>, start: real) returns (i: nat, j: nat)
    requires CountInHour(times, start) > 0
    ensures i <= j < |times| && start <= times[i] && times[j] < start + HOUR
    ensures CountInHour(times, start) <= j - i + 1
  {
    var n := |times| - 1;
    if CountInHour(times[..n], start) > 0 {
      i, j := CountSpan(times[..n], start);
    } else {
      i, j := n, n;
    }
    if start <= times[n] < start + HOUR {
      j := n;
    }
  }

  lemma FarApart(times: seq<real>, most: int, i: nat, j: nat)
    requires Increasing(times) && HourlyLimit(times, most) && i <= j < |times|
    ensures most > 0 && j - i >= most ==> times[j] - times[i] >= HOUR
  {
    if most > 0 && j - i >= most {
      assert times[i + most] - times[i] >= HOUR;
    }
  }

  /** No hour, wherever it starts, holds more admitted calls than the limit. */
  lemma NoHourOverLimit(times: seq<real>, most: int, start: real)
    requires Increasing(times) && HourlyLimit(times, most)
    ensures CountInHour(times, start) <= MaxInt(0, most)
  {
    if CountInHour(times, start) > 0 {
      var i, j := CountSpan(times, start);
      FarApart(times, most, i, j);
    }
  }
}
