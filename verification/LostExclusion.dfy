/**
 Concrete runs in which the blocked controller runs before the other one is idle: IPConfig is at work
 with nothing but marks of rejected transitions, and clears them.
 */
module LostExclusion {
  import opened Conditions
  import opened Lifecycle
  import opened Exclusion

  const MARK := Cond(false, InvalidTransition)

  // IPConfig has never been initialised, and its only condition is a mark.
  const UNINITIALISED :=
    Cluster(PrepStage, map[PrepInProgress := Cond(false, Blocked)], IPIdle, map[ConfigInProgress := MARK])

  lemma UninitialisedLoses()
    ensures AtWork(UNINITIALISED, IPC)
    ensures Loses(UNINITIALISED, [IpcEdit(IPIdle), CLEARING, IbuReconcile(false, UNINITIALISED.ibu)], IPC)
  {
    assert ConfigInProgress in UNINITIALISED.ipc;
    ClearingLoses(UNINITIALISED);
  }

  // Both resources have been initialised and both are blocked.
  const MARKED: Conds := IDLE_ONLY[RollbackInProgress := MARK]
  const IDLE_BLOCKED: Conds := map[Idle := Cond(false, Blocked), RollbackInProgress := MARK]
  const PREPARING: Conds := map[Idle := Cond(false, InProgress), PrepInProgress := Cond(true, InProgress)]
  const PREP_BLOCKED: Conds := map[Idle := Cond(false, InProgress), PrepInProgress := Cond(false, Blocked)]
  const BOTH_BLOCKED := Cluster(PrepStage, PREP_BLOCKED, IPIdle, IDLE_BLOCKED)

  // The gate of x, when its peer has conditions.
  lemma GateOn(c: Cluster, x: Side, t: ConditionType)
    requires t in CondsOf(c, Peer(x))
    ensures var m, cur := CondsOf(c, x), Current(c, x);
            GateOf(c, x) ==
              if IdleNow(c, Peer(x)) || BlockedNow(c, Peer(x)) then (true, if HasReason(m, cur, Blocked) then m - {cur} else m)
              else (false, Set(m, cur, false, Blocked))
  {}

  // Passing its gate there, IPConfig loses its Idle condition, and then clears the mark that is left.
  lemma InitialisedLoses()
    ensures BlockedNow(BOTH_BLOCKED, IBU) && Passes(BOTH_BLOCKED, IPC) && !Held(IPC, GateOf(BOTH_BLOCKED, IPC).1)
    ensures Loses(BOTH_BLOCKED, [CLEARING, IbuReconcile(false, PREP_BLOCKED)], IPC)
  {
    var m: Conds := map[RollbackInProgress := MARK];
    assert IDLE_BLOCKED - {Idle} == m;
    GateOn(BOTH_BLOCKED, IPC, Idle);
    Cleared(m, IPIdle);
    assert ClearIPInvalid(m) == map[];
    PeerRuns(BOTH_BLOCKED, CLEARING, IbuReconcile(false, PREP_BLOCKED));
  }

  // A step of a run.
  lemma Led(c: Cluster, e: Step, c': Cluster, es: seq<Step>, f: Cluster)
    requires Possible(c, e) && Next(c, e) == c' && Runs(c', es) && After(c', es) == f
    ensures Runs(c, [e] + es) && After(c, [e] + es) == f
  {
    assert ([e] + es)[1..] == es;
  }

  lemma PrepAccepted()
    ensures Transitioned(IDLE_ONLY, PrepStage, false) == PREPARING
  {
    assert ClearInvalid(IDLE_ONLY) == IDLE_ONLY;
  }

  // The run leads there from two idle resources: a rollback of IPConfig is rejected, Prep is accepted
  // and blocks IPConfig, which asks for the rollback again, blocks Prep by it, and asks for Idle.
  lemma BothBlockedReached() returns (es: seq<Step>)
    ensures var c := Cluster(IdleStage, IDLE_ONLY, IPIdle, IDLE_ONLY);
            Runs(c, es) && After(c, es) == BOTH_BLOCKED
  {
    es := LaterSteps();
    var c3 := Cluster(IdleStage, IDLE_ONLY, IPIdle, MARKED);
    var c2 := c3.(ipcStage := IPRollback);
    var c1 := c2.(ipc := IDLE_ONLY);
    Led(c2, IpcEdit(IPIdle), c3, es, BOTH_BLOCKED);
    es := [IpcEdit(IPIdle)] + es;
    GateOn(c1, IPC, Idle);
    RejectedStatus(IDLE_ONLY, IPRollback);
    Led(c1, REJECTED, c2, es, BOTH_BLOCKED);
    es := [REJECTED] + es;
    Led(c1.(ipcStage := IPIdle), IpcEdit(IPRollback), c1, es, BOTH_BLOCKED);
    es := [IpcEdit(IPRollback)] + es;
  }

  lemma LaterSteps() returns (es: seq<Step>)
    ensures var c := Cluster(IdleStage, IDLE_ONLY, IPIdle, MARKED);
            Runs(c, es) && After(c, es) == BOTH_BLOCKED
  {
    es := LastSteps();
    var c6 := Cluster(PrepStage, PREPARING, IPIdle, IDLE_BLOCKED);
    var c5 := c6.(ipc := MARKED);
    var c4 := c5.(ibu := IDLE_ONLY);
    assert Set(MARKED, Idle, false, Blocked) == IDLE_BLOCKED;
    GateOn(c5, IPC, Idle);
    Led(c5, REJECTED, c6, es, BOTH_BLOCKED);
    es := [REJECTED] + es;
    PrepAccepted();
    GateOn(c4, IBU, Idle);
    Led(c4, IbuReconcile(false, PREPARING), c5, es, BOTH_BLOCKED);
    es := [IbuReconcile(false, PREPARING)] + es;
    Led(c4.(ibuStage := IdleStage), IbuEdit(PrepStage), c4, es, BOTH_BLOCKED);
    es := [IbuEdit(PrepStage)] + es;
  }

  lemma LastSteps() returns (es: seq<Step>)
    ensures var c := Cluster(PrepStage, PREPARING, IPIdle, IDLE_BLOCKED);
            Runs(c, es) && After(c, es) == BOTH_BLOCKED
  {
    var c8 := BOTH_BLOCKED.(ipcStage := IPRollback);
    var c7 := c8.(ibu := PREPARING);
    assert Set(PREPARING, PrepInProgress, false, Blocked) == PREP_BLOCKED;
    GateOn(c7, IBU, Idle);
    Led(c8, IpcEdit(IPIdle), BOTH_BLOCKED, [], BOTH_BLOCKED);
    es := [IpcEdit(IPIdle)] + [];
    Led(c7, IbuReconcile(false, PREP_BLOCKED), c8, es, BOTH_BLOCKED);
    es := [IbuReconcile(false, PREP_BLOCKED)] + es;
    Led(c7.(ipcStage := IPIdle), IpcEdit(IPRollback), c7, es, BOTH_BLOCKED);
    es := [IpcEdit(IPRollback)] + es;
  }
}
