/**
 The ImageBasedUpgrade stage machine on condition maps: the stage predicates, the valid-next-stage
 list, the acceptance or rejection of a transition, and what each stage handler leaves behind.
 */
module Lifecycle {
  import opened Prelude
  import opened Conditions

  datatype Stage = IdleStage | PrepStage | UpgradeStage | RollbackStage

  function InProgressType(s: Stage): ConditionType {
    match s
    case IdleStage => Idle
    case PrepStage => PrepInProgress
    case UpgradeStage => UpgradeInProgress
    case RollbackStage => RollbackInProgress
  }

  function CompletedType(s: Stage): ConditionType {
    match s
    case IdleStage => Idle
    case PrepStage => PrepCompleted
    case UpgradeStage => UpgradeCompleted
    case RollbackStage => RollbackCompleted
  }

  predicate IsTrue(m: Conds, t: ConditionType) {
    t in m && m[t].status
  }

  predicate IsFalse(m: Conds, t: ConditionType) {
    t in m && !m[t].status
  }

  predicate HasReason(m: Conds, t: ConditionType, r: Reason) {
    t in m && m[t].reason == r
  }

  predicate StageCompleted(m: Conds, s: Stage) {
    IsTrue(m, CompletedType(s))
  }

  predicate StageFailed(m: Conds, s: Stage) {
    IsFalse(m, CompletedType(s))
  }

  // Idle counts as in progress only while aborting or finalizing.
  predicate StageInProgress(m: Conds, s: Stage) {
    if s.IdleStage? then IsFalse(m, Idle) && m[Idle].reason in {Aborting, AbortFailed, Finalizing, FinalizeFailed}
    else IsTrue(m, InProgressType(s))
  }

  // GetInProgressStage; None is the empty stage.
  function InProgressStage(m: Conds): Option<Stage> {
    if StageInProgress(m, IdleStage) then Some(IdleStage)
    else if StageInProgress(m, PrepStage) then Some(PrepStage)
    else if StageInProgress(m, UpgradeStage) then Some(UpgradeStage)
    else if StageInProgress(m, RollbackStage) then Some(RollbackStage)
    else None
  }

  // getValidNextStageList
  function ValidNextStages(m: Conds, desired: Stage, afterPivot: bool): seq<Stage> {
    var inProgress := InProgressStage(m);
    if inProgress == Some(IdleStage) || inProgress == Some(RollbackStage) || StageFailed(m, RollbackStage) then []
    else if inProgress == Some(PrepStage) || StageFailed(m, PrepStage) then [IdleStage]
    else if inProgress == Some(UpgradeStage) || StageFailed(m, UpgradeStage) then
      if afterPivot then [RollbackStage] else [IdleStage]
    else if StageCompleted(m, RollbackStage) then [IdleStage]
    else if StageCompleted(m, UpgradeStage) then [IdleStage, RollbackStage]
    else if StageCompleted(m, PrepStage) then [IdleStage, UpgradeStage]
    else if StageCompleted(m, IdleStage) then [PrepStage]
    else if Idle !in m then [IdleStage]
    else if m[Idle].reason == Blocked then [desired]
    else []
  }

  // isTransitionRequested
  predicate TransitionRequested(m: Conds, desired: Stage) {
    && !StageInProgress(m, desired)
    && if desired.IdleStage? then !StageCompleted(m, desired) else CompletedType(desired) !in m
  }

  // isFinalizeOrAbort; None is the empty reason.
  function FinalizeOrAbort(m: Conds, afterPivot: bool): Option<Reason> {
    if IsTrue(m, UpgradeCompleted) || IsTrue(m, RollbackCompleted) then Some(Finalizing)
    else if IsFalse(m, Idle) && !afterPivot
            && (RollbackInProgress !in m || m[RollbackInProgress].reason == InvalidTransition)
    then Some(Aborting)
    else None
  }

  // ----- setters -----

  function Set(m: Conds, t: ConditionType, status: bool, reason: Reason): Conds {
    m[t := Cond(status, reason)]
  }

  function FailedStage(m: Conds, s: Stage): Conds {
    Set(Set(m, CompletedType(s), false, Failed), InProgressType(s), false, Failed)
  }

  function CompletedStage(m: Conds, s: Stage): Conds {
    Set(Set(m, InProgressType(s), false, Completed), CompletedType(s), true, Completed)
  }

  function StartedStage(m: Conds, s: Stage): Conds {
    Set(m, InProgressType(s), true, InProgress)
  }

  // ResetStatusConditions
  const IDLE_ONLY: Conds := map[Idle := Cond(true, IsIdle)]

  // ClearInvalidTransitionStatusConditions
  function ClearInvalid(m: Conds): Conds {
    map t | t in m && !(t in {PrepInProgress, UpgradeInProgress, RollbackInProgress} && m[t].reason == InvalidTransition) ::
      if t == Idle && m[t].reason == InvalidTransition then Cond(false, InProgress) else m[t]
  }

  // ----- transitions -----

  // The accepting half of validateStageTransition.
  function Accepted(m: Conds, desired: Stage, afterPivot: bool): Conds {
    var c := ClearInvalid(m);
    match desired
    case PrepStage => StartedStage(Set(c, Idle, false, InProgress), PrepStage)
    case UpgradeStage => StartedStage(c, UpgradeStage)
    case RollbackStage => StartedStage(FailedStage(c, UpgradeStage), RollbackStage)
    case IdleStage =>
      match FinalizeOrAbort(c, afterPivot)
      case Some(reason) => Set(c, Idle, false, reason)
      case None => if Idle in c then c else IDLE_ONLY
  }

  function Rejected(m: Conds, desired: Stage): Conds {
    Set(m, InProgressType(desired), false, InvalidTransition)
  }

  predicate Accepts(m: Conds, desired: Stage, afterPivot: bool) {
    TransitionRequested(m, desired) && desired in ValidNextStages(m, desired, afterPivot)
  }

  // The conditions after the transition part of a reconcile.
  function Transitioned(m: Conds, desired: Stage, afterPivot: bool): Conds {
    if !TransitionRequested(m, desired) then m
    else if Accepts(m, desired, afterPivot) then Accepted(m, desired, afterPivot)
    else Rejected(m, desired)
  }

  // ----- the gate -----

  // What the IBU gate sees of the IPConfig resource: it does not exist, has no conditions yet, is
  // idle or blocked, or is neither.
  datatype GateVerdict = Absent | Uninitialised | Released | NotIdle

  function Blocking(m: Conds, desired: Stage): Conds {
    Set(m, InProgressType(desired), false, Blocked)
  }

  function Unblocked(m: Conds, desired: Stage): Conds {
    if HasReason(m, InProgressType(desired), Blocked) then m - {InProgressType(desired)} else m
  }

  // gateIBUByIPConfig: whether the reconcile goes on, and the conditions it goes on with.
  function Gate(m: Conds, desired: Stage, v: GateVerdict): (bool, Conds) {
    match v
    case Absent => (false, m)
    case Uninitialised => (true, m)
    case Released => (true, Unblocked(m, desired))
    case NotIdle => (false, Blocking(m, desired))
  }

  // ----- invariants -----

  // At most one of Prep, Upgrade and Rollback is in progress.
  predicate OneInProgress(m: Conds) {
    && !(IsTrue(m, PrepInProgress) && IsTrue(m, UpgradeInProgress))
    && !(IsTrue(m, PrepInProgress) && IsTrue(m, RollbackInProgress))
    && !(IsTrue(m, UpgradeInProgress) && IsTrue(m, RollbackInProgress))
  }

  // What every condition map satisfies, whatever the gate says and the user asks for: a stage in
  // progress is marked so and is the only one, a rollback is in progress only of a failed upgrade, and
  // Idle means that nothing has been started.
  predicate Consistent(m: Conds) {
    && OneInProgress(m)
    && (forall t | t in {PrepInProgress, UpgradeInProgress, RollbackInProgress} && IsTrue(m, t) :: m[t] == Cond(true, InProgress))
    && (IsTrue(m, RollbackInProgress) ==> IsFalse(m, UpgradeCompleted))
    && (IsTrue(m, Idle) ==>
          && PrepCompleted !in m && UpgradeCompleted !in m && RollbackCompleted !in m
          && !IsTrue(m, PrepInProgress) && !IsTrue(m, UpgradeInProgress) && !IsTrue(m, RollbackInProgress))
  }

  // Neither idle, nor aborting or finalizing.
  predicate Unsettled(m: Conds) {
    !IsTrue(m, Idle) && !StageInProgress(m, IdleStage)
  }

  // The upgrade has failed and is not being worked on.
  predicate LeftBehind(m: Conds) {
    Unsettled(m) && IsFalse(m, UpgradeCompleted) && !IsTrue(m, UpgradeInProgress)
  }

  // The upgrade has completed or failed, and is not being worked on.
  predicate UpgradeOver(m: Conds) {
    UpgradeCompleted in m && !IsTrue(m, UpgradeInProgress)
  }

  // Nothing has been started: only marks of rejected transitions beside Idle.
  predicate NothingStarted(m: Conds) {
    && PrepCompleted !in m && UpgradeCompleted !in m && RollbackCompleted !in m
    && forall t | t in {PrepInProgress, UpgradeInProgress, RollbackInProgress} && t in m :: m[t] == Cond(false, InvalidTransition)
  }

  predicate StartedOrRejected(m: Conds, s: Stage) {
    InProgressType(s) in m ==>
      || m[InProgressType(s)] == Cond(true, InProgress)
      || m[InProgressType(s)] == Cond(false, InvalidTransition)
      || (m[InProgressType(s)] in {Cond(false, Failed), Cond(false, Completed)} && CompletedType(s) in m)
  }

  // What every reachable condition map satisfies while IPConfig stays idle; afterPivot says
  // whether the resource lives on the stateroot it asks for.
  predicate Good(m: Conds, afterPivot: bool) {
    && m.Keys <= {Idle, PrepInProgress, PrepCompleted, UpgradeInProgress, UpgradeCompleted, RollbackInProgress, RollbackCompleted}
    && OneInProgress(m)
    && StartedOrRejected(m, PrepStage) && StartedOrRejected(m, UpgradeStage) && StartedOrRejected(m, RollbackStage)
    && (Idle !in m || m[Idle].status ==> NothingStarted(m))
    && (IsTrue(m, Idle) ==> m[Idle].reason == IsIdle)
    && (IsFalse(m, Idle) ==>
          && m[Idle].reason in {InProgress, InvalidTransition, Aborting, AbortFailed, Finalizing, FinalizeFailed}
          && (IsTrue(m, PrepInProgress) || PrepCompleted in m)
          && (afterPivot ==> IsTrue(m, UpgradeInProgress) || UpgradeCompleted in m)
          && (m[Idle].reason in {Aborting, AbortFailed} ==> !afterPivot)
          && (m[Idle].reason in {Finalizing, FinalizeFailed} ==> IsTrue(m, UpgradeCompleted) || IsTrue(m, RollbackCompleted)))
    && (IsTrue(m, PrepInProgress) ==> PrepCompleted !in m && UpgradeCompleted !in m)
    && (IsTrue(m, UpgradeInProgress) || UpgradeCompleted in m ==> IsTrue(m, PrepCompleted))
    && (IsTrue(m, UpgradeInProgress) ==> UpgradeCompleted !in m)
    && (IsTrue(m, UpgradeCompleted) ==> afterPivot)
    && (IsTrue(m, RollbackInProgress) || RollbackCompleted in m ==> IsFalse(m, UpgradeCompleted))
    && (IsTrue(m, RollbackInProgress) ==> RollbackCompleted !in m)
    && (IsTrue(m, RollbackCompleted) ==> !afterPivot)
  }

  lemma GoodIsConsistent(m: Conds, afterPivot: bool)
    requires Good(m, afterPivot)
    ensures Consistent(m)
  {}

  // No dead end: a good state is working on a stage, or offers a next one, or its rollback failed.
  lemma NoDeadEnd(m: Conds, desired: Stage, afterPivot: bool)
    requires Good(m, afterPivot)
    ensures InProgressStage(m).Some? || ValidNextStages(m, desired, afterPivot) != [] || StageFailed(m, RollbackStage)
  {}

  lemma ClearInvalidConsistent(m: Conds)
    requires Consistent(m)
    ensures var c := ClearInvalid(m);
            && Consistent(c) && (Unsettled(m) ==> Unsettled(c)) && InProgressStage(c) == InProgressStage(m)
            && forall t | t in {PrepCompleted, UpgradeCompleted, RollbackCompleted} :: (t in c <==> t in m) && (t in m ==> c[t] == m[t])
  {}

  lemma ClearInvalidGood(m: Conds, afterPivot: bool)
    requires Good(m, afterPivot)
    ensures Good(ClearInvalid(m), afterPivot)
  {}

  lemma ClearInvalidKeeps(m: Conds, afterPivot: bool)
    requires Good(m, afterPivot)
    ensures Good(ClearInvalid(m), afterPivot)
    ensures InProgressStage(ClearInvalid(m)) == InProgressStage(m)
  {
    ClearInvalidGood(m, afterPivot);
    GoodIsConsistent(m, afterPivot);
    ClearInvalidConsistent(m);
  }

  lemma AcceptedIdleGood(m: Conds, afterPivot: bool)
    requires Good(m, afterPivot) && Accepts(m, IdleStage, afterPivot)
    ensures Good(Accepted(m, IdleStage, afterPivot), afterPivot)
  {
    ClearInvalidKeeps(m, afterPivot);
  }

  lemma AcceptedPrepGood(m: Conds)
    requires Good(m, false) && Accepts(m, PrepStage, false)
    ensures Good(Accepted(m, PrepStage, false), false)
  {
    ClearInvalidKeeps(m, false);
  }

  lemma AcceptedUpgradeGood(m: Conds, afterPivot: bool)
    requires Good(m, afterPivot) && Accepts(m, UpgradeStage, afterPivot)
    ensures Good(Accepted(m, UpgradeStage, afterPivot), afterPivot)
  {
    ClearInvalidKeeps(m, afterPivot);
  }

  lemma RollbackStarted(c: Conds, afterPivot: bool)
    requires Good(c, afterPivot) && OneInProgress(c) && !IsTrue(c, RollbackInProgress) && RollbackCompleted !in c
    requires IsTrue(c, UpgradeInProgress) || UpgradeCompleted in c
    requires !StageInProgress(c, IdleStage)
    ensures Good(StartedStage(FailedStage(c, UpgradeStage), RollbackStage), afterPivot)
  {}

  lemma AcceptedRollbackGood(m: Conds, afterPivot: bool)
    requires Good(m, afterPivot) && Accepts(m, RollbackStage, afterPivot)
    ensures Good(Accepted(m, RollbackStage, afterPivot), afterPivot)
  {
    ClearInvalidKeeps(m, afterPivot);
    RollbackStarted(ClearInvalid(m), afterPivot);
  }

  lemma AcceptedGood(m: Conds, desired: Stage, afterPivot: bool)
    requires Good(m, afterPivot) && Accepts(m, desired, afterPivot)
    requires desired.PrepStage? ==> !afterPivot
    ensures Good(Accepted(m, desired, afterPivot), afterPivot)
  {
    match desired
    case IdleStage => AcceptedIdleGood(m, afterPivot);
    case PrepStage => AcceptedPrepGood(m);
    case UpgradeStage => AcceptedUpgradeGood(m, afterPivot);
    case RollbackStage => AcceptedRollbackGood(m, afterPivot);
  }

  // An accepted transition makes the requested stage the one in progress, or is the first
  // initialisation, which makes the resource idle.
  lemma AcceptedIsInProgress(m: Conds, desired: Stage, afterPivot: bool)
    requires Good(m, afterPivot) && Accepts(m, desired, afterPivot)
    requires desired.PrepStage? ==> !afterPivot
    ensures var m' := Accepted(m, desired, afterPivot);
            InProgressStage(m') == Some(desired) || (Idle !in m && desired.IdleStage? && m' == IDLE_ONLY)
    ensures Good(Accepted(m, desired, afterPivot), afterPivot)
  {
    AcceptedGood(m, desired, afterPivot);
  }

  // Finalize exactly when the upgrade or the rollback completed, abort only before the pivot.
  lemma FinalizeOrAbortChoice(m: Conds, afterPivot: bool)
    requires Good(m, afterPivot) && Accepts(m, IdleStage, afterPivot) && Idle in m
    ensures var r := Accepted(m, IdleStage, afterPivot)[Idle].reason;
            && (r == Finalizing <==> IsTrue(m, UpgradeCompleted) || IsTrue(m, RollbackCompleted))
            && (r == Aborting <==> !IsTrue(m, UpgradeCompleted) && !IsTrue(m, RollbackCompleted))
            && (r == Aborting ==> !afterPivot)
  {}

  // The gate keeps all of this, whatever it says and whatever stage is asked for.
  lemma GateConsistent(m: Conds, desired: Stage, v: GateVerdict)
    requires Consistent(m)
    ensures var m' := Gate(m, desired, v).1;
            && Consistent(m') && (Unsettled(m) ==> Unsettled(m')) && (LeftBehind(m) ==> LeftBehind(m'))
            && (UpgradeOver(m) ==> UpgradeOver(m'))
  {}

  // What an accepted stage needs: nothing else in progress, or Idle asked for.
  lemma AcceptedFromRest(m: Conds, desired: Stage, afterPivot: bool)
    requires Consistent(m) && Accepts(m, desired, afterPivot) && !desired.IdleStage?
    ensures !IsTrue(m, PrepInProgress) && !IsTrue(m, RollbackInProgress)
    ensures IsTrue(m, UpgradeInProgress) ==> desired.RollbackStage?
    ensures IsTrue(m, Idle) ==> desired.PrepStage?
  {}

  lemma AcceptedConsistent(m: Conds, desired: Stage, afterPivot: bool)
    requires Consistent(m) && Accepts(m, desired, afterPivot)
    ensures Consistent(Accepted(m, desired, afterPivot))
  {
    ClearInvalidConsistent(m);
    if !desired.IdleStage? { AcceptedFromRest(m, desired, afterPivot); }
  }

  lemma TransitionConsistent(m: Conds, desired: Stage, afterPivot: bool)
    requires Consistent(m)
    ensures Consistent(Transitioned(m, desired, afterPivot))
  {
    if Accepts(m, desired, afterPivot) { AcceptedConsistent(m, desired, afterPivot); }
  }

  lemma RejectedGood(m: Conds, desired: Stage, afterPivot: bool)
    requires Good(m, afterPivot) && TransitionRequested(m, desired) && !Accepts(m, desired, afterPivot)
    requires desired.PrepStage? && afterPivot ==> IsFalse(m, Idle)
    ensures Good(Rejected(m, desired), afterPivot)
  {}

  // Gate and transition keep a good state good.
  lemma TransitionGood(m: Conds, desired: Stage, afterPivot: bool)
    requires Good(m, afterPivot)
    requires desired.PrepStage? && afterPivot ==> IsFalse(m, Idle)
    ensures Good(Transitioned(m, desired, afterPivot), afterPivot)
    ensures Unblocked(m, desired) == m
  {
    if TransitionRequested(m, desired) {
      if Accepts(m, desired, afterPivot) { AcceptedGood(m, desired, afterPivot); } else { RejectedGood(m, desired, afterPivot); }
    }
  }

  // ----- what a handler may leave behind -----

  // Every outcome of the handler of the stage in progress; `persisted` is the status last written,
  // reloaded when the manual-cleanup annotation is removed.
  predicate StageResult(m: Conds, persisted: Conds, afterPivot: bool, r: Conds) {
    match InProgressStage(m)
    case None => r == m
    case Some(IdleStage) =>
      || r == IDLE_ONLY
      || r == m
      || (m[Idle].reason == Aborting && r == Set(m, Idle, false, AbortFailed))
      || (m[Idle].reason == Finalizing && r in {Set(m, Idle, false, FinalizeFailed), Set(m, Idle, false, Finalizing)})
      || (m[Idle].reason == AbortFailed && r == Set(persisted, Idle, false, AbortFailed))
      || (m[Idle].reason == FinalizeFailed &&
            r in {Set(persisted, Idle, false, FinalizeFailed), Set(persisted, Idle, false, Finalizing)})
    case Some(s) =>
      || r == FailedStage(m, s)
      || r == StartedStage(m, s)
      || r == FailedStage(StartedStage(m, s), s)
      || ((s.PrepStage? || (s.UpgradeStage? && afterPivot) || (s.RollbackStage? && !afterPivot)) &&
            r in {CompletedStage(m, s), CompletedStage(StartedStage(m, s), s)})
  }

  lemma ResultConsistent(m: Conds, persisted: Conds, afterPivot: bool, r: Conds)
    requires Consistent(m) && Consistent(persisted) && StageResult(m, persisted, afterPivot, r)
    ensures Consistent(r)
  {}

  lemma StartedIsSame(m: Conds, s: Stage)
    requires Consistent(m) && !s.IdleStage? && StageInProgress(m, s)
    ensures StartedStage(m, s) == m
  {}

  lemma IdleResultGood(m: Conds, persisted: Conds, afterPivot: bool, r: Conds)
    requires Good(m, afterPivot) && Good(persisted, afterPivot) && StageResult(m, persisted, afterPivot, r)
    requires StageInProgress(m, IdleStage)
    requires m[Idle].reason in {AbortFailed, FinalizeFailed} ==> Idle in persisted && persisted[Idle] == m[Idle]
    ensures Good(r, afterPivot)
  {}

  // What a handler leaves behind of a good state is good.
  lemma ResultGood(m: Conds, persisted: Conds, afterPivot: bool, r: Conds)
    requires Good(m, afterPivot) && Good(persisted, afterPivot) && StageResult(m, persisted, afterPivot, r)
    requires StageInProgress(m, IdleStage) && m[Idle].reason in {AbortFailed, FinalizeFailed} ==>
               Idle in persisted && persisted[Idle] == m[Idle]
    ensures Good(r, afterPivot)
  {
    match InProgressStage(m)
    case None =>
    case Some(IdleStage) => IdleResultGood(m, persisted, afterPivot, r);
    case Some(s) =>
      GoodIsConsistent(m, afterPivot);
      StartedIsSame(m, s);
  }

  // ----- what is exported to the other stateroot -----

  // Started and neither aborting nor finalizing.
  predicate Ongoing(m: Conds) {
    IsFalse(m, Idle) && m[Idle].reason in {InProgress, InvalidTransition}
  }

  // An upgrade in progress may be handed to the new stateroot, and marked failed for the old one.
  lemma UpgradeExport(m: Conds)
    requires Good(m, false) && InProgressStage(m) == Some(UpgradeStage)
    ensures Ongoing(m) && IsTrue(m, PrepCompleted) && Good(m, true)
  {}

  // A rollback in progress may be handed back to the old stateroot.
  lemma RollbackExport(m: Conds)
    requires Good(m, true) && InProgressStage(m) == Some(RollbackStage)
    ensures Ongoing(m) && IsTrue(m, PrepCompleted) && IsFalse(m, UpgradeCompleted) && Good(m, false)
  {}

  lemma UpgradeFailedExport(m: Conds, afterPivot: bool)
    requires Good(m, afterPivot) && Ongoing(m) && IsTrue(m, PrepCompleted)
    ensures var f := FailedStage(m, UpgradeStage);
            Good(f, afterPivot) && Ongoing(f) && IsTrue(f, PrepCompleted) && IsFalse(f, UpgradeCompleted)
  {}

  // ----- a reconcile that does not accept Idle -----

  // An upgrade that has failed, and is neither aborted nor finalized, is not started again.
  lemma RecoveredTransition(m: Conds, desired: Stage, afterPivot: bool)
    requires Consistent(m) && LeftBehind(m)
    requires !(desired.IdleStage? && Accepts(m, IdleStage, afterPivot))
    ensures var x := Transitioned(m, desired, afterPivot);
            LeftBehind(x) && InProgressStage(x) in {None, Some(PrepStage), Some(RollbackStage)}
  {
    ClearInvalidConsistent(m);
  }

  // It stays failed.
  lemma RecoveredStep(m: Conds, desired: Stage, afterPivot: bool, r: Conds)
    requires Consistent(m) && LeftBehind(m)
    requires !(desired.IdleStage? && Accepts(m, IdleStage, afterPivot))
    requires StageResult(Transitioned(m, desired, afterPivot), m, afterPivot, r)
    ensures LeftBehind(r)
  {
    RecoveredTransition(m, desired, afterPivot);
  }

  lemma PivotedTransition(m: Conds, desired: Stage, afterPivot: bool)
    requires Consistent(m) && Unsettled(m)
    requires !(desired.IdleStage? && Accepts(m, IdleStage, afterPivot))
    ensures var x := Transitioned(m, desired, afterPivot);
            Unsettled(x) && (UpgradeOver(m) ==> UpgradeOver(x))
  {
    ClearInvalidConsistent(m);
  }

  // A resource that is neither idle, aborting nor finalizing stays so, and an upgrade that is over
  // stays over.
  lemma PivotedStep(m: Conds, desired: Stage, afterPivot: bool, r: Conds)
    requires Consistent(m) && Unsettled(m)
    requires !(desired.IdleStage? && Accepts(m, IdleStage, afterPivot))
    requires StageResult(Transitioned(m, desired, afterPivot), m, afterPivot, r)
    ensures Unsettled(r) && (UpgradeOver(m) ==> UpgradeOver(r))
  {
    PivotedTransition(m, desired, afterPivot);
  }

  // Accepting Idle does not start an upgrade that has failed.
  lemma RecoveredIdle(m: Conds, afterPivot: bool)
    requires Consistent(m) && LeftBehind(m) && Accepts(m, IdleStage, afterPivot)
    ensures InProgressStage(Accepted(m, IdleStage, afterPivot)) != Some(UpgradeStage)
  {
    ClearInvalidConsistent(m);
  }
}
