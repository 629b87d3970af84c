/**
 The IPConfig stage handlers as they run: they update the condition list in place and store it with
 a status update after every change.
 */
module IPController {
  import opened Conditions
  import opened Lifecycle
  import opened Exclusion
  import opened Controller

  class IPConfiguration {
    const stage: IPStage
    const status: ConditionList
    var written: seq<Conds> // the status updates, in order

    ghost predicate Valid() reads status {
      status.Valid()
    }

    constructor (s: IPStage, cs: seq<Condition>)
      requires Distinct(cs)
      ensures Valid() && stage == s && status.conditions == cs && written == [] && fresh(status)
    {
      stage, written := s, [];
      status := new ConditionList(cs);
    }

    method UpdateStatus()
      modifies `written
      ensures written == old(written) + [status.View()]
    {
      written := written + [status.View()];
    }

    method SetAndUpdate(t: ConditionType, isTrue: bool, reason: Reason)
      requires Valid()
      modifies `written, status
      ensures Valid() && status.View() == Set(old(status.View()), t, isTrue, reason)
      ensures written == old(written) + [status.View()]
    {
      status.SetStatusCondition(t, isTrue, reason);
      UpdateStatus();
    }

    method ClearAndUpdate()
      requires Valid()
      modifies `written, status
      ensures Valid() && status.View() == ClearIPInvalid(old(status.View()))
      ensures written == old(written) + [status.View()]
    {
      status.ClearMarks({ConfigInProgress, RollbackInProgress}, ConfigurationInProgress);
      UpdateStatus();
    }

    method FailAndUpdate(s: IPStage)
      requires Valid()
      modifies `written, status
      ensures Valid() && status.View() == IPFailed(old(status.View()), s)
      ensures written == old(written) + [status.View()]
    {
      status.SetStatusCondition(IPCompletedType(s), false, Failed);
      SetAndUpdate(IPInProgressType(s), false, Failed);
    }

    method StartIdle()
      requires Valid()
      modifies `written, status
      ensures Valid()
      ensures var cleared := ClearIPInvalid(old(status.View()));
              && status.View() == Set(cleared, Idle, false, InProgress)
              && written == old(written) + [cleared, status.View()]
    {
      ClearAndUpdate();
      SetAndUpdate(Idle, false, InProgress);
    }

    // IPCIdleStageHandler.Handle
    method HandleIdle(env: IPEnv)
      requires Valid()
      modifies `written, status
      ensures Valid() && written == old(written) + IdleStatuses(old(status.View()), env)
      ensures status.View() == Last(old(status.View()), IdleStatuses(old(status.View()), env))
    {
      if env.manualCleanup { SetAndUpdate(Idle, false, InProgress); }
      if IPTransitionRequested(status.View(), IPIdle) {
        if !env.valid { SetAndUpdate(Idle, false, InvalidTransition); return; }
        StartIdle();
      }
      BecomeIdle(env);
    }

    method BecomeIdle(env: IPEnv)
      requires Valid()
      modifies `written, status
      ensures Valid() && written == old(written) + BecomingIdle(old(status.View()), env)
      ensures status.View() == Last(old(status.View()), BecomingIdle(old(status.View()), env))
    {
      if !IPStageInProgress(status.View(), IPIdle) { return; }
      if !env.healthy { SetAndUpdate(Idle, false, InProgress); return; }
      if !env.cleaned { SetAndUpdate(Idle, false, Failed); return; }
      status.ResetStatusConditions();
      UpdateStatus();
    }

    // PrePivot or PostPivot of the stage, and what its handler adds.
    method RunPhase(s: IPStage, outcome: PhaseOutcome)
      requires Valid()
      modifies `written, status
      ensures Valid() && written == old(written) + PhaseStatuses(old(status.View()), s, outcome)
      ensures status.View() == Last(old(status.View()), PhaseStatuses(old(status.View()), s, outcome))
    {
      if outcome.PhaseFails? { FailAndUpdate(s); return; }
      SetAndUpdate(IPInProgressType(s), true, InProgress);
      if outcome.PhaseWaits? { return; }
      status.SetStatusCondition(IPInProgressType(s), false, Completed);
      SetAndUpdate(IPCompletedType(s), true, Completed);
    }

    // A configuration begins, or fails to.
    method StartConfig(env: IPEnv)
      requires Valid()
      modifies `written, status
      ensures Valid()
      ensures var begun := Set(ClearIPInvalid(old(status.View())), Idle, false, ConfigurationInProgress);
              && status.View() == (if env.startable then IPStarted(begun, IPConfig) else IPFailed(begun, IPConfig))
              && written == old(written) + [ClearIPInvalid(old(status.View())), begun, status.View()]
    {
      ClearAndUpdate();
      SetAndUpdate(Idle, false, ConfigurationInProgress);
      if env.startable { SetAndUpdate(ConfigInProgress, true, InProgress); } else { FailAndUpdate(IPConfig); }
    }

    // IPCConfigStageHandler.Handle
    method HandleConfig(env: IPEnv)
      requires Valid()
      modifies `written, status
      ensures Valid() && written == old(written) + ConfigStatuses(old(status.View()), env)
      ensures status.View() == Last(old(status.View()), ConfigStatuses(old(status.View()), env))
    {
      if IPTransitionRequested(status.View(), IPConfig) {
        if !env.valid { SetAndUpdate(ConfigInProgress, false, InvalidTransition); return; }
        StartConfig(env);
      }
      if IPStageInProgress(status.View(), IPConfig) { RunPhase(IPConfig, env.phase); }
    }

    // IPCRollbackStageHandler.Handle
    method HandleRollback(env: IPEnv)
      requires Valid()
      modifies `written, status
      ensures Valid() && written == old(written) + RollbackStatuses(old(status.View()), env)
      ensures status.View() == Last(old(status.View()), RollbackStatuses(old(status.View()), env))
    {
      if IPTransitionRequested(status.View(), IPRollback) {
        if !env.valid { SetAndUpdate(RollbackInProgress, false, InvalidTransition); return; }
        if !env.startable { FailAndUpdate(IPRollback); return; }
        ClearAndUpdate();
        SetAndUpdate(RollbackInProgress, true, InProgress);
      }
      if IPStageInProgress(status.View(), IPRollback) { RunPhase(IPRollback, env.phase); }
    }

    // gateIPConfigByIBU
    method GateByIBU(c: Cluster) returns (proceed: bool)
      requires Valid() && status.View() == c.ipc && stage == c.ipcStage
      modifies `written, status
      ensures Valid() && (proceed, status.View()) == GateOf(c, IPC)
      ensures old(written) <= written && Last(c.ipc, written[|old(written)|..]) == status.View()
    {
      var t := IPInProgressType(stage);
      match Verdict(c, IBU) {
        case Released =>
          proceed := true;
          if HasReason(status.View(), t, Blocked) {
            status.RemoveStatusCondition(t);
            UpdateStatus();
          }
        case NotIdle =>
          proceed := false;
          SetAndUpdate(t, false, Blocked);
        case _ => proceed := true;
      }
    }

    // Reconcile, as the gate and the handler of the stage asked for.
    method Reconcile(c: Cluster, env: IPEnv) returns (ran: bool)
      requires Valid() && status.View() == c.ipc && stage == c.ipcStage && written == []
      modifies `written, status
      ensures Valid() && ran == Passes(c, IPC)
      ensures c.(ipc := status.View()) == Next(c, IpcReconcile(env, |HandlerStatuses(GateOf(c, IPC).1, c.ipcStage, env)|))
    {
      ran := GateByIBU(c);
      if !ran { return; }
      match stage {
        case IPIdle => HandleIdle(env);
        case IPConfig => HandleConfig(env);
        case IPRollback => HandleRollback(env);
      }
    }
  }
}
