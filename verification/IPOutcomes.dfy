/**
 What the IPConfig controller leaves, stated on the conditions: the verdict of a gate, the stages that
 are offered, and how the handler of each stage ends for each outcome of its steps.
 */
module IPOutcomes {
  import opened Prelude
  import opened Conditions
  import opened Lifecycle
  import opened Exclusion
  import opened Outcomes

  // ----- the gates -----

  // A controller passes its gate exactly when the other resource has no conditions, is idle or is
  // blocked. It loses its own mark then, unless the other has no conditions, and is marked otherwise.
  lemma GateLeavesEither(c: Cluster, x: Side)
    ensures var (go, r) := GateOf(c, x);
            var m, t := CondsOf(c, x), Current(c, x);
            && (go <==> CondsOf(c, Peer(x)) == map[] || IdleNow(c, Peer(x)) || BlockedNow(c, Peer(x)))
            && SameExcept(m, r, {t})
            && (!go ==> t in r && r[t] == Cond(false, Blocked))
            && (go && CondsOf(c, Peer(x)) != map[] ==> if HasReason(m, t, Blocked) then t !in r else r == m)
            && (go && CondsOf(c, Peer(x)) == map[] ==> r == m)
  {}

  // The gate of the upgrade controller in these runs is the one of its reconciles.
  lemma SameGate(c: Cluster)
    ensures GateOf(c, IBU) == Gate(c.ibu, c.ibuStage, Verdict(c, IPC))
    ensures !Verdict(c, IPC).Absent?
  {}

  // ----- the stages asked for -----

  // Asking for a stage starts a transition unless it is in progress, completed or failed, and also
  // while its last rejection is marked.
  lemma IPRequested(m: Conds)
    ensures IPTransitionRequested(m, IPConfig) <==> !IsTrue(m, ConfigInProgress) && (ConfigCompleted in m ==> Rejected(m, ConfigInProgress))
    ensures IPTransitionRequested(m, IPRollback) <==>
              !IsTrue(m, RollbackInProgress) && (RollbackCompleted in m ==> Rejected(m, RollbackInProgress))
    ensures IPTransitionRequested(m, IPIdle) <==> !IsTrue(m, Idle) && (Idle in m ==> m[Idle].reason !in {InProgress, Failed})
  {}

  predicate Rejected(m: Conds, t: ConditionType) {
    t in m && m[t] == Cond(false, InvalidTransition)
  }

  // ----- the stages offered -----

  // Neither started nor finished.
  predicate Unstarted(m: Conds) {
    && !IsTrue(m, ConfigInProgress) && !IsTrue(m, RollbackInProgress)
    && ConfigCompleted !in m && RollbackCompleted !in m
  }

  // Aborting or finalizing.
  predicate GoingIdle(m: Conds) {
    IsFalse(m, Idle) && m[Idle].reason == InProgress
  }

  // Blocked at Idle with nothing started, whatever is asked for is offered.
  predicate Parked(m: Conds) {
    IsFalse(m, Idle) && m[Idle].reason == Blocked && Unstarted(m)
  }

  // A rollback that has started or failed offers nothing, unless Config still is in progress or has failed.
  predicate Stuck(m: Conds) {
    && !IsTrue(m, ConfigInProgress) && !IsFalse(m, ConfigCompleted)
    && (IsTrue(m, RollbackInProgress) || IsFalse(m, RollbackCompleted))
  }

  lemma ConfigOffered(m: Conds, desired: IPStage, pivoted: bool)
    ensures IPConfig in IPValidNextStages(m, desired, pivoted) <==>
              (IsTrue(m, Idle) && Unstarted(m)) || (Parked(m) && desired == IPConfig)
  {}

  // A rollback is offered only after the pivot, of a configuration that is in progress, has failed, or
  // has completed with no rollback of it begun.
  lemma RollbackOffered(m: Conds, desired: IPStage, pivoted: bool)
    ensures IPRollback in IPValidNextStages(m, desired, pivoted) <==>
              || (pivoted && !GoingIdle(m) && (IsTrue(m, ConfigInProgress) || IsFalse(m, ConfigCompleted)))
              || (pivoted && !GoingIdle(m) && IsTrue(m, ConfigCompleted) && !IsTrue(m, RollbackInProgress) && RollbackCompleted !in m)
              || (Parked(m) && desired == IPRollback)
  {}

  // Idle is offered while going idle, before the pivot of a configuration that is in progress or has
  // failed, after one that has completed or been rolled back, and to a resource without an Idle condition.
  lemma IdleOffered(m: Conds, desired: IPStage, pivoted: bool)
    ensures IPIdle in IPValidNextStages(m, desired, pivoted) <==>
              || GoingIdle(m)
              || ((IsTrue(m, ConfigInProgress) || IsFalse(m, ConfigCompleted)) && !pivoted)
              || (!IsTrue(m, ConfigInProgress) && !IsFalse(m, ConfigCompleted) && !Stuck(m)
                    && (IsTrue(m, ConfigCompleted) || IsTrue(m, RollbackCompleted)))
              || (Idle !in m && Unstarted(m))
              || (Parked(m) && desired == IPIdle)
  {}

  // ----- how the handlers end -----

  // The conditions when the handler of stage s has gone through.
  function End(m: Conds, s: IPStage, env: IPEnv): Conds {
    Last(m, HandlerStatuses(m, s, env))
  }

  // The two conditions of a stage.
  lemma StageConditions()
    ensures IPInProgressType(IPConfig) == ConfigInProgress && IPCompletedType(IPConfig) == ConfigCompleted
    ensures IPInProgressType(IPRollback) == RollbackInProgress && IPCompletedType(IPRollback) == RollbackCompleted
    ensures IPInProgressType(IPIdle) == IPCompletedType(IPIdle) == Idle
  {}

  // Among r's conditions, those of the stage say how its phase has ended; m is what it began with.
  predicate PhaseEnded(m: Conds, r: Conds, s: IPStage, outcome: PhaseOutcome) {
    var i, c := IPInProgressType(s), IPCompletedType(s);
    && SameExcept(m, r, {i, c}) && i in r
    && match outcome
       case PhaseWaits => r[i] == Cond(true, InProgress) && SameExcept(m, r, {i})
       case PhaseFails => c in r && r[i] == r[c] == Cond(false, Failed)
       case PhaseCompletes => c in r && r[i] == Cond(false, Completed) && r[c] == Cond(true, Completed)
  }

  // A stage in progress ends as its phase does: completed exactly when it completes, failed exactly
  // when it fails, and still in progress while it waits.
  lemma PhaseEnds(m: Conds, s: IPStage, env: IPEnv)
    requires !s.IPIdle? && IPStageInProgress(m, s)
    ensures PhaseEnded(m, End(m, s, env), s, env.phase)
    ensures env.phase.PhaseCompletes? <==> IPStageCompleted(End(m, s, env), s) && !IPStageInProgress(End(m, s, env), s)
    ensures env.phase.PhaseWaits? <==> IPStageInProgress(End(m, s, env), s)
  {}

  // A transition that is asked for and not offered leaves its mark and nothing else.
  lemma IPRejectionMarks(m: Conds, s: IPStage, env: IPEnv)
    requires !s.IPIdle? && IPTransitionRequested(m, s) && !env.valid
    ensures var t, r := IPInProgressType(s), End(m, s, env);
            t in r && r[t] == Cond(false, InvalidTransition) && SameExcept(m, r, {t})
  {}

  // Marks of rejected transitions are cleared, and a marked Idle goes back to configuring.
  lemma IPClearedMarks(m: Conds)
    ensures var r := ClearIPInvalid(m);
            && (forall t | t in m && m[t].reason != InvalidTransition :: t in r && r[t] == m[t])
            && (forall t | t in r :: t in m)
            && (forall t | t in {ConfigInProgress, RollbackInProgress} && t in r :: r[t].reason != InvalidTransition)
            && (HasReason(m, Idle, InvalidTransition) ==> Idle in r && r[Idle] == Cond(false, ConfigurationInProgress))
  {}

  // An accepted configuration leaves idle, and fails at once or goes on with its first phase.
  lemma ConfigAccepted(m: Conds, env: IPEnv)
    requires IPTransitionRequested(m, IPConfig) && env.valid
    ensures var r := End(m, IPConfig, env);
            var begun := ClearIPInvalid(m)[Idle := Cond(false, ConfigurationInProgress)];
            PhaseEnded(begun, r, IPConfig, if env.startable then env.phase else PhaseFails)
  {}

  // An accepted rollback that cannot be started fails, with the marks still there; one that can goes
  // on with its first phase.
  lemma RollbackAccepted(m: Conds, env: IPEnv)
    requires IPTransitionRequested(m, IPRollback) && env.valid
    ensures var r := End(m, IPRollback, env);
            if env.startable then PhaseEnded(ClearIPInvalid(m), r, IPRollback, env.phase)
            else PhaseEnded(m, r, IPRollback, PhaseFails)
  {}

  // What is not asked for and not in progress is left alone.
  lemma NothingToDo(m: Conds, s: IPStage, env: IPEnv)
    requires !s.IPIdle? && !IPTransitionRequested(m, s) && !IPStageInProgress(m, s)
    ensures HandlerStatuses(m, s, env) == []
  {}

  // The Idle handler works towards idle: it is retried by the user, in progress, or accepted.
  predicate WorksToIdle(m: Conds, env: IPEnv) {
    env.manualCleanup || GoingIdle(m) || (IPTransitionRequested(m, IPIdle) && env.valid)
  }

  // It ends idle, with no other condition left, exactly when the cluster is healthy and the cleanup
  // succeeds. Otherwise Idle says what is missing.
  lemma IPIdleEnds(m: Conds, env: IPEnv)
    requires WorksToIdle(m, env)
    ensures var r := End(m, IPIdle, env);
            && Idle in r && (r[Idle].status <==> env.healthy && env.cleaned)
            && (r[Idle].status ==> r == map[Idle := Cond(true, IsIdle)])
            && (!env.healthy ==> r[Idle] == Cond(false, InProgress))
            && (env.healthy && !env.cleaned ==> r[Idle] == Cond(false, Failed))
  {}

  // When it does not, Idle is marked if it is asked for, and nothing else changes.
  lemma IdleRejected(m: Conds, env: IPEnv)
    requires !WorksToIdle(m, env)
    ensures var r := End(m, IPIdle, env);
            if IPTransitionRequested(m, IPIdle) then Idle in r && r[Idle] == Cond(false, InvalidTransition) && SameExcept(m, r, {Idle})
            else r == m
  {}

  // A reconcile of the runs that dies nowhere leaves what its gate leaves when that stops it, and what
  // the handler ends with otherwise.
  lemma IPReconcileEnds(c: Cluster, env: IPEnv, k: nat)
    requires k >= |HandlerStatuses(GateOf(c, IPC).1, c.ipcStage, env)|
    ensures var (go, m) := GateOf(c, IPC);
            Next(c, IpcReconcile(env, k)) == c.(ipc := if go then End(m, c.ipcStage, env) else m)
  {}
}
