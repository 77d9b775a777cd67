/** Requests of one client that overlap: they share the breaker, but each asks it only when it starts. */
module HttpOverlap {
  import opened Common
  import opened RateLimit

  /** What request `id` does next: it asks the breaker, makes an HTTP call, gives up with a recorded failure, or gets a
      definitive answer. */
  datatype Move =
    | Enter(id: nat, now: real)
    | Call(id: nat, now: real)
    | Failure(id: nat, now: real)
    | Success(id: nat)

  function Applied(c: BreakerConfig, s: BreakerState, m: Move): BreakerState {
    match m
    case Enter(_, now) => c.Apply(s, Asked(now))
    case Call(_, _) => s
    case Failure(_, now) => c.Apply(s, Failed(now))
    case Success(_) => c.Apply(s, Succeeded)
  }

  function BreakerAfter(c: BreakerConfig, moves: seq<Move>): BreakerState {
    if moves == [] then CLOSED_BREAKER
    else Applied(c, BreakerAfter(c, moves[..|moves| - 1]), moves[|moves| - 1])
  }

  /** Request `id` was let through by move `e` and has not failed since: it may call at `k`. */
  ghost predicate LetThrough(c: BreakerConfig, moves: seq<Move>, id: nat, e: nat, k: nat) {
    && e < k <= |moves| && moves[e].Enter? && moves[e].id == id
    && BreakerAfter(c, moves[..e + 1]).openedAt.None?
    && forall j :: e < j < k ==> !(moves[j].Failure? && moves[j].id == id)
  }

  /** Every call is made by a request that was let through. */
  ghost predicate Legal(c: BreakerConfig, moves: seq<Move>) {
    forall k :: 0 <= k < |moves| && moves[k].Call? ==> exists e: nat :: LetThrough(c, moves, moves[k].id, e, k)
  }

  lemma {:induction false} OpenMeansManyFailures(c: BreakerConfig, moves: seq<Move>)
    ensures BreakerAfter(c, moves).openedAt.Some? ==> BreakerAfter(c, moves).failures >= c.threshold
  {
    if moves != [] {
      OpenMeansManyFailures(c, moves[..|moves| - 1]);
    }
  }

  /** A move that may close the circuit opened at `since`. */
  predicate Closes(c: BreakerConfig, m: Move, since: real) {
    m.Success? || (m.Enter? && m.now - since >= c.resetTimeoutS)
  }

  /** The failure of move `j` brings the count to the threshold, and is the last thing before `k` to matter. */
  ghost predicate OpensFor(c: BreakerConfig, moves: seq<Move>, j: nat, k: nat) {
    && j < k < |moves| && moves[j].Failure?
    && BreakerAfter(c, moves[..j]).failures + 1 >= c.threshold
    && forall i :: j < i < k ==> !moves[i].Failure? && !Closes(c, moves[i], moves[j].now)
  }

  lemma Unfold(c: BreakerConfig, moves: seq<Move>, k: nat)
    requires k < |moves|
    ensures BreakerAfter(c, moves[..k + 1]) == Applied(c, BreakerAfter(c, moves[..k]), moves[k])
  {
    assert moves[..k + 1][..k] == moves[..k];
  }

  lemma {:induction false} StaysOpen(c: BreakerConfig, moves: seq<Move>, j: nat, k: nat)
    requires j < k <= |moves| && moves[j].Failure? && BreakerAfter(c, moves[..j]).failures + 1 >= c.threshold
    requires forall i :: j < i < k ==> !moves[i].Failure? && !Closes(c, moves[i], moves[j].now)
    ensures BreakerAfter(c, moves[..k]).openedAt == Some(moves[j].now)
  {
    Unfold(c, moves, k - 1);
    if j + 1 < k {
      StaysOpen(c, moves, j, k - 1);
    }
  }

  lemma {:induction false} LastFailure(c: BreakerConfig, moves: seq<Move>, e: nat, k: nat) returns (j: nat)
    requires e < k < |moves| && BreakerAfter(c, moves[..e + 1]).openedAt.None?
    requires BreakerAfter(c, moves[..k]).openedAt.Some?
    ensures e < j && OpensFor(c, moves, j, k)
  {
    var n := k - 1;
    if n == e {
      assert false;
    }
    Unfold(c, moves, n);
    OpenMeansManyFailures(c, moves[..k]);
    if moves[n].Failure? {
      j := n;
    } else {
      j := LastFailure(c, moves, e, n);
      StaysOpen(c, moves, j, n);
    }
  }

  /** When a call meets an open circuit: exactly when, since the caller was let through, another request has recorded a
      failure that brought the count to the threshold, with nothing after it to close the circuit, less than the
      reset timeout ago. */
  lemma CallsOnOpenCircuitIff(c: BreakerConfig, moves: seq<Move>, e: nat, k: nat)
    requires k < |moves| && moves[k].Call? && LetThrough(c, moves, moves[k].id, e, k)
    ensures c.OpenAt(BreakerAfter(c, moves[..k]), moves[k].now) <==>
            exists j: nat :: && e < j && OpensFor(c, moves, j, k) && moves[j].id != moves[k].id
                             && moves[k].now - moves[j].now < c.resetTimeoutS
  {
    if j: nat :| e < j && OpensFor(c, moves, j, k) && moves[k].now - moves[j].now < c.resetTimeoutS {
      StaysOpen(c, moves, j, k);
    }
    if c.OpenAt(BreakerAfter(c, moves[..k]), moves[k].now) {
      var j := LastFailure(c, moves, e, k);
      StaysOpen(c, moves, j, k);
    }
  }

  /** So a call is made on an open circuit only if another request failed for good since the caller was let through. */
  lemma OpenOnlyThroughOthers(c: BreakerConfig, moves: seq<Move>, k: nat) returns (e: nat, j: nat)
    requires Legal(c, moves) && k < |moves| && moves[k].Call?
    requires c.OpenAt(BreakerAfter(c, moves[..k]), moves[k].now)
    ensures e < j < k && LetThrough(c, moves, moves[k].id, e, k)
    ensures moves[j].Failure? && moves[j].id != moves[k].id
  {
    e :| LetThrough(c, moves, moves[k].id, e, k);
    CallsOnOpenCircuitIff(c, moves, e, k);
    j :| e < j && OpensFor(c, moves, j, k) && moves[j].id != moves[k].id;
  }

  /** Nobody else fails while a request is at work. */
  ghost predicate NoOverlap(c: BreakerConfig, moves: seq<Move>) {
    forall e: nat, k: nat, j ::
      k < |moves| && moves[k].Call? && LetThrough(c, moves, moves[k].id, e, k) && e < j < k && moves[j].Failure?
      ==> moves[j].id == moves[k].id
  }

  /** So requests one at a time never call on an open circuit. */
  lemma OneAtATimeNeverOpen(c: BreakerConfig, moves: seq<Move>, k: nat)
    requires Legal(c, moves) && NoOverlap(c, moves) && k < |moves| && moves[k].Call?
    ensures !c.OpenAt(BreakerAfter(c, moves[..k]), moves[k].now)
  {
    if c.OpenAt(BreakerAfter(c, moves[..k]), moves[k].now) {
      var e, j := OpenOnlyThroughOthers(c, moves, k);
      assert false;
    }
  }

  /** The input: of two requests that start together, one fails and opens the circuit, and the other still calls. */
  lemma OverlapCallsOnOpenCircuit()
    ensures var c := BreakerConfig(1, 30.0);
            var moves := [Enter(0, 0.0), Enter(1, 0.0), Call(1, 0.5), Failure(1, 1.0), Call(0, 2.0)];
            Legal(c, moves) && c.OpenAt(BreakerAfter(c, moves[..4]), 2.0)
  {
    var c := BreakerConfig(1, 30.0);
    var moves := [Enter(0, 0.0), Enter(1, 0.0), Call(1, 0.5), Failure(1, 1.0), Call(0, 2.0)];
    assert moves[..4][..3] == moves[..3] && moves[..3][..2] == moves[..2];
    assert moves[..2][..1] == moves[..1] && moves[..1][..0] == [];
    assert BreakerAfter(c, moves[..2]) == BreakerAfter(c, moves[..1]) == CLOSED_BREAKER;
    assert LetThrough(c, moves, 0, 0, 4) && LetThrough(c, moves, 1, 1, 2);
  }
}
