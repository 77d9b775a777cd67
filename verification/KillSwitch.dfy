/** The kill switch (src/risk/kill_switch.py) and the rows it keeps in the database (src/core/repository.py). */
module KillSwitch {
  import opened Common

  datatype SystemState = Running | Paused | Stopped | Killed

  datatype Reason =
    | ApiUnavailable | StaleMarketData | MarketSuspended | CorruptedData | ExcessiveLatency | ExcessiveDrawdown
    | AbnormalLlmBehavior | RepeatedRejectedOrders | ReconciliationMismatch | BalanceMismatch | MarginBreach | Manual

  /** What the process remembers. */
  datatype Memory = Memory(active: Option<Reason>, state: SystemState) {
    /** `guard()` raises. */
    predicate Blocked() {
      active.Some? || state != Running
    }
  }

  const FRESH_MEMORY := Memory(None, Running)

  datatype KillEvent = KillEvent(reason: Reason, cleared: bool)

  /** What the database remembers: every kill event in order, and the row of the system state. */
  datatype Rows = Rows(events: seq<KillEvent>, state: Option<SystemState>) {
    function StoredState(): SystemState {
      state.GetOr(Running)
    }
  }

  /** The latest event that has not been cleared. */
  function LatestOpen(events: seq<KillEvent>): Option<Reason> {
    if events == [] then None
    else
      var last := events[|events| - 1];
      if last.cleared then LatestOpen(events[..|events| - 1]) else Some(last.reason)
  }

  function ClearAll(events: seq<KillEvent>): seq<KillEvent> {
    seq(|events|, i requires 0 <= i < |events| => events[i].(cleared := true))
  }

  // ---------------------------------------------------------------- who may clear

  function LowerChar(c: char): char {
    if 'A' <= c <= 'Z' then (c as int + 32) as char else c
  }

  function Lower(s: string): string {
    seq(|s|, i requires 0 <= i < |s| => LowerChar(s[i]))
  }

  predicate Human(actor: string) {
    var who := Lower(actor);
    !("llm" <= who || "agent" <= who || "system" <= who)
  }

  // ---------------------------------------------------------------- the operations as steps

  datatype System = System(mem: Memory, rows: Rows)

  /** Each operation with whether the database answered. A reboot starts with fresh memory and loads. */
  datatype Op =
    | Trigger(reason: Reason, dbUp: bool)
    | Clear(actor: string, dbUp: bool)
    | SetState(state: SystemState, dbUp: bool)
    | Load(dbUp: bool)
    | Reboot(dbUp: bool)

  function Loaded(mem: Memory, rows: Rows): Memory {
    var open := LatestOpen(rows.events);
    Memory(if open.Some? then open else mem.active, rows.StoredState())
  }

  function Step(s: System, op: Op): System {
    match op
    case Trigger(reason, dbUp) =>
      if s.mem.active == Some(reason) then s
      else
        System(Memory(Some(reason), Killed),
               if dbUp then Rows(s.rows.events + [KillEvent(reason, false)], Some(Killed)) else s.rows)
    case Clear(actor, dbUp) =>
      if !Human(actor) then s
      else System(FRESH_MEMORY, if dbUp then Rows(ClearAll(s.rows.events), Some(Running)) else s.rows)
    case SetState(state, dbUp) =>
      System(Memory(if state == Running then None else s.mem.active, state),
             if dbUp then s.rows.(state := Some(state)) else s.rows)
    case Load(dbUp) => if dbUp then s.(mem := Loaded(s.mem, s.rows)) else s
    case Reboot(dbUp) => s.(mem := if dbUp then Loaded(FRESH_MEMORY, s.rows) else FRESH_MEMORY)
  }

  function After(s: System, ops: seq<Op>): System {
    if ops == [] then s else Step(After(s, ops[..|ops| - 1]), ops[|ops| - 1])
  }

  /** The operations that lift a block: a clear by a human, or setting the state to RUNNING by anybody. */
  predicate Lifts(op: Op) {
    (op.Clear? && Human(op.actor)) || (op.SetState? && op.state == Running)
  }

  // ---------------------------------------------------------------- the object

  class Database {
    var events: seq<KillEvent>
    var state: Option<SystemState>
  }

  class KillSwitch {
    const db: Database
    var active: Option<Reason>
    var state: SystemState

    function Mem(): Memory
      reads this
    {
      Memory(active, state)
    }

    function Sys(): System
      reads this, db
    {
      System(Mem(), Rows(db.events, db.state))
    }

    constructor (db: Database)
      ensures this.db == db && Mem() == FRESH_MEMORY
    {
      this.db := db;
      active, state := None, Running;
    }

    /** The result says whether the guard lets the execution through instead of raising. */
    method Guard() returns (passes: bool)
      ensures passes <==> !Mem().Blocked()
    {
      passes := !(active.Some? || state == Stopped || state == Killed) && state != Paused;
    }

    method TriggerSwitch(reason: Reason, dbUp: bool)
      modifies this, db
      ensures Sys() == Step(old(Sys()), Trigger(reason, dbUp))
    {
      if active == Some(reason) {
        return;
      }
      active := Some(reason);
      state := Killed;
      if dbUp {
        db.events := db.events + [KillEvent(reason, false)];
        db.state := Some(Killed);
      }
    }

    /** False when the actor is refused. */
    method ClearSwitch(actor: string, dbUp: bool) returns (accepted: bool)
      modifies this, db
      ensures Sys() == Step(old(Sys()), Clear(actor, dbUp))
      ensures accepted <==> Human(actor)
    {
      if !Human(actor) {
        return false;
      }
      active := None;
      state := Running;
      if dbUp {
        db.events := ClearAll(db.events);
        db.state := Some(Running);
      }
      return true;
    }

    method ChangeState(to: SystemState, dbUp: bool)
      modifies this, db
      ensures Sys() == Step(old(Sys()), SetState(to, dbUp))
    {
      state := to;
      if to == Running {
        active := None;
      }
      if dbUp {
        db.state := Some(to);
      }
    }

    method LoadRows(dbUp: bool)
      modifies this
      ensures Sys() == Step(old(Sys()), Load(dbUp))
    {
      if dbUp {
        var open := LatestOpen(db.events);
        if open.Some? {
          active := open;
        }
        state := db.state.GetOr(Running);
      }
    }
  }

  /** A restart of the process: a new object over the same database, then `load`. */
  method Restart(k: KillSwitch, dbUp: bool) returns (n: KillSwitch)
    ensures fresh(n) && n.db == k.db
    ensures n.Sys() == Step(k.Sys(), Reboot(dbUp))
  {
    n := new KillSwitch(k.db);
    n.LoadRows(dbUp);
  }

  // ---------------------------------------------------------------- safety over runs

  /** Once triggered, the guard raises until a human clears or somebody sets RUNNING. This needs no working
      database, only that the process is not restarted. */
  lemma {:induction false} BlockedUntilLifted(s: System, reason: Reason, dbUp: bool, ops: seq<Op>)
    requires forall op :: op in ops ==> !Lifts(op) && !op.Reboot?
    ensures After(Step(s, Trigger(reason, dbUp)), ops).mem.active.Some?
    ensures After(Step(s, Trigger(reason, dbUp)), ops).mem.Blocked()
  {
    if ops != [] {
      var last := ops[|ops| - 1];
      assert last in ops;
      BlockedUntilLifted(s, reason, dbUp, ops[..|ops| - 1]);
    }
  }

  /** A triggered switch is unblocked by one operation of the running process exactly when it is a lifting one. */
  lemma UnblockedIffLifted(s: System, op: Op)
    requires s.mem.active.Some? && !op.Reboot?
    ensures !Step(s, op).mem.Blocked() <==> Lifts(op)
  {
  }

  /** Memory and rows agree: same state, and an active reason is the latest open event. */
  ghost predicate Synced(s: System) {
    && s.mem.state == s.rows.StoredState()
    && (s.mem.active.Some? ==> LatestOpen(s.rows.events) == s.mem.active)
  }

  predicate DbUp(op: Op) {
    op.dbUp
  }

  lemma {:induction false} ClearedAllNoneOpen(events: seq<KillEvent>)
    ensures LatestOpen(ClearAll(events)) == None
  {
    if events != [] {
      ClearedAllNoneOpen(events[..|events| - 1]);
      assert ClearAll(events)[..|events| - 1] == ClearAll(events[..|events| - 1]);
    }
  }

  lemma StepKeepsSynced(s: System, op: Op)
    requires Synced(s) && DbUp(op)
    ensures Synced(Step(s, op))
  {
    if op.Trigger? {
      assert (s.rows.events + [KillEvent(op.reason, false)])[..|s.rows.events|] == s.rows.events;
    }
    ClearedAllNoneOpen(s.rows.events);
  }

  lemma {:induction false} RunKeepsSynced(s: System, ops: seq<Op>)
    requires Synced(s) && forall op :: op in ops ==> DbUp(op)
    ensures Synced(After(s, ops))
  {
    if ops != [] {
      assert ops[|ops| - 1] in ops;
      RunKeepsSynced(s, ops[..|ops| - 1]);
      StepKeepsSynced(After(s, ops[..|ops| - 1]), ops[|ops| - 1]);
    }
  }

  /** After any run whose database accesses all worked, restarting a blocked system leaves it blocked, with the
      same active reason and state, exactly when the database can be read during `load`. */
  lemma RestartKeepsBlock(s: System, ops: seq<Op>, dbUp: bool)
    requires Synced(s) && forall op :: op in ops ==> DbUp(op)
    requires After(s, ops).mem.Blocked()
    ensures var before, after := After(s, ops).mem, Step(After(s, ops), Reboot(dbUp)).mem;
            && (after.Blocked() <==> dbUp)
            && (dbUp ==> after.state == before.state && (before.active.Some? ==> after.active == before.active))
  {
    RunKeepsSynced(s, ops);
  }

  /** A trigger survives any number of restarts, state changes and further triggers until it is lifted. */
  lemma {:induction false} TriggerSurvivesRestarts(s: System, reason: Reason, ops: seq<Op>)
    requires Synced(s) && forall op :: op in ops ==> DbUp(op) && !Lifts(op)
    ensures var after := After(Step(s, Trigger(reason, true)), ops);
            Synced(after) && after.mem.active.Some? && after.mem.Blocked()
  {
    StepKeepsSynced(s, Trigger(reason, true));
    if ops != [] {
      var front := ops[..|ops| - 1];
      assert ops[|ops| - 1] in ops;
      TriggerSurvivesRestarts(s, reason, front);
      StepKeepsSynced(After(Step(s, Trigger(reason, true)), front), ops[|ops| - 1]);
    }
  }

  /** Restarting a running system: with a readable database it comes back blocked exactly when some kill event is
      still open; with an unreadable one it comes back running. */
  lemma RestartBlocksIff(s: System, dbUp: bool)
    requires Synced(s) && !s.mem.Blocked()
    ensures Step(s, Reboot(dbUp)).mem.Blocked() <==> dbUp && exists e :: e in s.rows.events && !e.cleared
  {
    OpenEventExists(s.rows.events);
  }

  lemma {:induction false} OpenEventExists(events: seq<KillEvent>)
    ensures LatestOpen(events).Some? <==> exists e :: e in events && !e.cleared
  {
    if events != [] {
      var n := |events| - 1;
      OpenEventExists(events[..n]);
      assert events == events[..n] + [events[n]];
    }
  }

  /** Something was triggered after the last clear by a human, or was open before and no human cleared. */
  ghost predicate LeftOpen(openBefore: bool, ops: seq<Op>) {
    if ops == [] then openBefore
    else
      var front, last := ops[..|ops| - 1], ops[|ops| - 1];
      match last
      case Trigger(_, _) => true
      case Clear(actor, _) => !Human(actor) && LeftOpen(openBefore, front)
      case _ => LeftOpen(openBefore, front)
  }

  lemma {:induction false} OpenEventsOfRun(s: System, ops: seq<Op>)
    requires Synced(s) && forall op :: op in ops ==> DbUp(op)
    ensures LatestOpen(After(s, ops).rows.events).Some? <==> LeftOpen(LatestOpen(s.rows.events).Some?, ops)
  {
    if ops != [] {
      var front, last := ops[..|ops| - 1], ops[|ops| - 1];
      assert last in ops;
      OpenEventsOfRun(s, front);
      RunKeepsSynced(s, front);
      var before := After(s, front).rows.events;
      ClearedAllNoneOpen(before);
      if last.Trigger? {
        assert (before + [KillEvent(last.reason, false)])[..|before|] == before;
      }
    }
  }

  /** After any run whose database accesses all worked and that ends running, a restart blocks exactly when the
      database is read and the run left a kill event open. */
  lemma RestartAfterRunBlocksIff(s: System, ops: seq<Op>, dbUp: bool)
    requires Synced(s) && forall op :: op in ops ==> DbUp(op)
    requires !After(s, ops).mem.Blocked()
    ensures Step(After(s, ops), Reboot(dbUp)).mem.Blocked()
            <==> dbUp && LeftOpen(LatestOpen(s.rows.events).Some?, ops)
  {
    RunKeepsSynced(s, ops);
    OpenEventsOfRun(s, ops);
  }

  /** The schedule: setting RUNNING leaves the kill event open, and the restart blocks. */
  lemma RestartMayBlockARunningSystem(reason: Reason)
    ensures var s := After(System(FRESH_MEMORY, Rows([], None)), [Trigger(reason, true), SetState(Running, true)]);
            && Synced(s) && !s.mem.Blocked()
            && Step(s, Reboot(true)).mem.active == Some(reason)
  {
    var s0 := System(FRESH_MEMORY, Rows([], None));
    var ops := [Trigger(reason, true), SetState(Running, true)];
    assert ops[..1] == [Trigger(reason, true)];
    assert After(s0, ops[..1][..0]) == s0;
    assert After(s0, ops[..1]) == Step(s0, Trigger(reason, true));
  }

  // ---------------------------------------------------------------- what the helpers mean

  /** The reason in force is that of the last event that is not cleared. */
  lemma {:induction false} LatestOpenIsLast(events: seq<KillEvent>, reason: Reason)
    ensures LatestOpen(events) == Some(reason) <==>
            exists k :: && 0 <= k < |events| && events[k] == KillEvent(reason, false)
                        && forall i :: k < i < |events| ==> events[i].cleared
  {
    if events != [] {
      var n := |events| - 1;
      LatestOpenIsLast(events[..n], reason);
      if LatestOpen(events) == Some(reason) {
        if events[n].cleared {
          var k :| 0 <= k < n && events[..n][k] == KillEvent(reason, false)
                   && forall i :: k < i < n ==> events[..n][i].cleared;
          assert events[k] == KillEvent(reason, false);
          assert forall i :: k < i < n ==> events[..n][i] == events[i];
        } else {
          assert events[n] == KillEvent(reason, false);
        }
      }
      if k :| 0 <= k < |events| && events[k] == KillEvent(reason, false)
              && forall i :: k < i < |events| ==> events[i].cleared {
        if k < n {
          assert events[..n][k] == KillEvent(reason, false);
          assert forall i :: k < i < n ==> events[..n][i] == events[i];
        }
      }
    }
  }

  /** A letter and its capital count as the same. */
  predicate SameLetter(c: char, small: char) {
    c == small || ('A' <= c <= 'Z' && c as int + 32 == small as int)
  }

  predicate StartsLike(s: string, prefix: string) {
    |prefix| <= |s| && forall i :: 0 <= i < |prefix| ==> SameLetter(s[i], prefix[i])
  }

  predicate SmallLetters(s: string) {
    forall i :: 0 <= i < |s| ==> 'a' <= s[i] <= 'z'
  }

  lemma LowerStarts(s: string, prefix: string)
    requires SmallLetters(prefix)
    ensures prefix <= Lower(s) <==> StartsLike(s, prefix)
  {
    if StartsLike(s, prefix) {
      assert forall i :: 0 <= i < |prefix| ==> Lower(s)[i] == prefix[i];
    }
  }

  /** Everybody is taken for a human but an actor whose name begins, in letters of either size, with llm, agent or
      system. */
  lemma HumanIff(actor: string)
    ensures Human(actor) <==>
            !StartsLike(actor, "llm") && !StartsLike(actor, "agent") && !StartsLike(actor, "system")
  {
    LowerStarts(actor, "llm");
    LowerStarts(actor, "agent");
    LowerStarts(actor, "system");
  }

  /** Clearing marks every event and changes nothing else. */
  lemma ClearAllOnlyClears(events: seq<KillEvent>, i: nat)
    requires i < |events|
    ensures |ClearAll(events)| == |events| && ClearAll(events)[i] == KillEvent(events[i].reason, true)
  {
  }
}
