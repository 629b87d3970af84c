/**
 What each operation of the upgrade controller leaves, stated on the conditions and on the node: the
 marks of a rejected transition, the stages that are offered, how a handler ends for each outcome of
 its steps, and what the pivots, the rollbacks and the cleanup have done when they reach their ends.
 */
module Outcomes {
  import opened Prelude
  import opened Conditions
  import opened Lifecycle
  import opened Pivot
  import opened PivotRuns

  // r differs from m at most in the types ts.
  predicate SameExcept(m: Conds, r: Conds, ts: set<ConditionType>) {
    forall t | t !in ts :: (t in r <==> t in m) && (t in m ==> r[t] == m[t])
  }

  // ----- transitions -----

  // Asking for a stage starts a transition unless it is in progress or has ended.
  lemma Requested(m: Conds)
    ensures TransitionRequested(m, PrepStage) <==> !IsTrue(m, PrepInProgress) && PrepCompleted !in m
    ensures TransitionRequested(m, UpgradeStage) <==> !IsTrue(m, UpgradeInProgress) && UpgradeCompleted !in m
    ensures TransitionRequested(m, RollbackStage) <==> !IsTrue(m, RollbackInProgress) && RollbackCompleted !in m
    ensures TransitionRequested(m, IdleStage) <==>
              !IsTrue(m, Idle) && (Idle in m ==> m[Idle].reason !in {Aborting, AbortFailed, Finalizing, FinalizeFailed})
  {}

  // A transition that is asked for and not offered is marked on the in-progress condition of its
  // stage, and changes nothing else; one that is not asked for changes nothing.
  lemma RejectionMarks(m: Conds, desired: Stage, afterPivot: bool)
    requires !Accepts(m, desired, afterPivot)
    ensures var r := Transitioned(m, desired, afterPivot);
            var t := match desired
                     case IdleStage => Idle
                     case PrepStage => PrepInProgress
                     case UpgradeStage => UpgradeInProgress
                     case RollbackStage => RollbackInProgress;
            if TransitionRequested(m, desired) then t in r && r[t] == Cond(false, InvalidTransition) && SameExcept(m, r, {t})
            else r == m
  {}

  // Accepting a stage clears the marks and starts it: Prep leaves idle, Rollback gives the upgrade up.
  lemma AcceptanceStarts(m: Conds, desired: Stage, afterPivot: bool)
    requires Accepts(m, desired, afterPivot) && !desired.IdleStage?
    ensures var r := Transitioned(m, desired, afterPivot);
            && (desired.PrepStage? ==>
                  r[PrepInProgress := Cond(true, InProgress)][Idle := Cond(false, InProgress)] == r)
            && (desired.UpgradeStage? ==> r[UpgradeInProgress := Cond(true, InProgress)] == r)
            && (desired.RollbackStage? ==>
                  r[RollbackInProgress := Cond(true, InProgress)][UpgradeInProgress := Cond(false, Failed)]
                   [UpgradeCompleted := Cond(false, Failed)] == r)
            && MarksGone(m, r, StartTouches(desired))
  {
    ClearedMarks(m);
  }

  // The conditions that starting a stage sets.
  function StartTouches(s: Stage): set<ConditionType> {
    match s
    case IdleStage => {Idle}
    case PrepStage => {Idle, PrepInProgress}
    case UpgradeStage => {UpgradeInProgress}
    case RollbackStage => {RollbackInProgress, UpgradeInProgress, UpgradeCompleted}
  }

  // Outside ts: no mark of a rejected transition is left, a marked Idle is in progress again, and
  // what was no mark is as before.
  predicate MarksGone(m: Conds, r: Conds, ts: set<ConditionType>) {
    && (forall t | t in m && t !in ts && m[t].reason != InvalidTransition :: t in r && r[t] == m[t])
    && (forall t | t in r && t !in ts :: t in m)
    && (forall t | t in {PrepInProgress, UpgradeInProgress, RollbackInProgress} && t in r && t !in ts :: r[t].reason != InvalidTransition)
    && (HasReason(m, Idle, InvalidTransition) && Idle !in ts ==> Idle in r && r[Idle] == Cond(false, InProgress))
  }

  lemma ClearedMarks(m: Conds)
    ensures MarksGone(m, ClearInvalid(m), {})
  {}

  // Accepting Idle finalizes what has completed, aborts what has not pivoted, and otherwise only
  // clears the marks, or makes a resource idle that has never been initialised.
  lemma IdleAcceptance(m: Conds, afterPivot: bool)
    requires Accepts(m, IdleStage, afterPivot)
    ensures var r := Transitioned(m, IdleStage, afterPivot);
            if IsTrue(m, UpgradeCompleted) || IsTrue(m, RollbackCompleted) then
              Idle in r && r[Idle] == Cond(false, Finalizing) && MarksGone(m, r, {Idle})
            else if IsFalse(ClearInvalid(m), Idle) && !afterPivot && (RollbackInProgress !in m || m[RollbackInProgress].reason == InvalidTransition) then
              Idle in r && r[Idle] == Cond(false, Aborting) && MarksGone(m, r, {Idle})
            else if Idle in m then MarksGone(m, r, {})
            else r == map[Idle := Cond(true, IsIdle)]
  {
    ClearedMarks(m);
  }

  // The stages that a reachable resource offers.
  lemma Offered(m: Conds, desired: Stage, afterPivot: bool)
    requires Good(m, afterPivot)
    ensures var offered := ValidNextStages(m, desired, afterPivot);
            && (PrepStage in offered <==> IsTrue(m, Idle))
            && (UpgradeStage in offered <==>
                  Ongoing(m) && IsTrue(m, PrepCompleted) && !IsTrue(m, UpgradeInProgress) && UpgradeCompleted !in m)
            && (RollbackStage in offered <==>
                  Ongoing(m) && afterPivot && !IsTrue(m, RollbackInProgress) && RollbackCompleted !in m)
            && (IdleStage in offered <==>
                  || Idle !in m
                  || (Ongoing(m) && !IsTrue(m, RollbackInProgress) && !IsFalse(m, RollbackCompleted)
                        && (afterPivot ==> IsTrue(m, UpgradeCompleted))))
  {}

  // A resource that IPConfig has blocked at Idle offers the stage that is asked for, if nothing of the
  // upgrade has been started.
  lemma OfferedWhenBlocked(m: Conds, desired: Stage, afterPivot: bool)
    requires HasReason(m, Idle, Blocked) && !m[Idle].status && NothingStarted(m)
    ensures ValidNextStages(m, desired, afterPivot) == [desired]
  {}

  // ----- the gate -----

  lemma GateLeaves(m: Conds, desired: Stage, v: GateVerdict)
    ensures var (go, r) := Gate(m, desired, v);
            var t := InProgressType(desired);
            && (go <==> v.Uninitialised? || v.Released?)
            && SameExcept(m, r, {t})
            && (match v
                case NotIdle => t in r && r[t] == Cond(false, Blocked)
                case Released => if HasReason(m, t, Blocked) then t !in r else r == m
                case _ => r == m)
  {}

  // ----- how the handlers end -----

  lemma PrepEnds(n: Node, x: Resource, persisted: Conds, env: Env)
    requires InProgressStage(x.conds) == Some(PrepStage)
    ensures var (ws, r) := HandleStage(n, x, persisted, env);
            && ws == [] && SameExcept(x.conds, r, {PrepInProgress, PrepCompleted}) && PrepInProgress in r
            && (match env.prep
                case PrepWaits => r[PrepInProgress] == Cond(true, InProgress) && SameExcept(x.conds, r, {PrepInProgress})
                case PrepFails => PrepCompleted in r && r[PrepInProgress] == r[PrepCompleted] == Cond(false, Failed)
                case PrepCompletes =>
                  PrepCompleted in r && r[PrepInProgress] == Cond(false, Completed) && r[PrepCompleted] == Cond(true, Completed))
  {}

  // The upgrade completes only after the pivot and when all steps succeed there; it fails when the
  // stateroot is not known, when a step fails for good, or when the reboot or the new stateroot does.
  predicate UpgradeCompletes(n: Node, x: Resource, env: Env) {
    env.rootKnown && x.seed == n.booted && env.post.PostCompletes?
  }

  predicate UpgradeFails(n: Node, x: Resource, env: Env) {
    || !env.rootKnown
    || (x.seed != n.booted && (env.pre.PreFails? || env.pre.PreRebootFails?))
    || (x.seed == n.booted && env.post.PostFails?)
  }

  lemma UpgradeEnds(n: Node, x: Resource, persisted: Conds, env: Env)
    requires InProgressStage(x.conds) == Some(UpgradeStage)
    ensures var r := HandleStage(n, x, persisted, env).1;
            && SameExcept(x.conds, r, {UpgradeInProgress, UpgradeCompleted}) && UpgradeInProgress in r
            && (if UpgradeCompletes(n, x, env) then
                  UpgradeCompleted in r && r[UpgradeInProgress] == Cond(false, Completed) && r[UpgradeCompleted] == Cond(true, Completed)
                else if UpgradeFails(n, x, env) then
                  UpgradeCompleted in r && r[UpgradeInProgress] == r[UpgradeCompleted] == Cond(false, Failed)
                else r[UpgradeInProgress] == Cond(true, InProgress) && SameExcept(x.conds, r, {UpgradeInProgress}))
  {}

  // The rollback completes on the stateroot it leads to; where it starts it ends only in a failure.
  lemma RollbackEnds(n: Node, x: Resource, persisted: Conds, env: Env)
    requires InProgressStage(x.conds) == Some(RollbackStage)
    ensures var r := HandleStage(n, x, persisted, env).1;
            && SameExcept(x.conds, r, {RollbackInProgress, RollbackCompleted}) && RollbackInProgress in r && RollbackCompleted in r
            && (if env.rootKnown && x.seed != n.booted then
                  r[RollbackInProgress] == Cond(false, Completed) && r[RollbackCompleted] == Cond(true, Completed)
                else r[RollbackInProgress] == r[RollbackCompleted] == Cond(false, Failed))
  {}

  // The cleanup of an abort or a finalize runs: the cluster is healthy when finalizing, and the user
  // has asked for it when it has failed before.
  predicate CleanupRuns(reason: Reason, env: Env) {
    && (reason in {Finalizing, FinalizeFailed} ==> env.healthy)
    && (reason in {AbortFailed, FinalizeFailed} ==> env.manualCleanup)
  }

  // Where it does not lead to idle: the reason that Idle is left with.
  function Unfinished(reason: Reason, env: Env): Reason {
    if reason in {Aborting, AbortFailed} then AbortFailed
    else if reason == FinalizeFailed && !env.manualCleanup then FinalizeFailed
    else if !env.healthy then Finalizing
    else FinalizeFailed
  }

  // An abort or a finalize ends idle exactly when the cleanup runs and succeeds, with the other
  // stateroot removed and no other condition left. Otherwise Idle stays False and says what is left
  // to do, and the other conditions are as before, or as stored when the user retries the cleanup.
  lemma IdleEnds(n: Node, x: Resource, persisted: Conds, env: Env)
    requires InProgressStage(x.conds) == Some(IdleStage)
    ensures var reason := x.conds[Idle].reason;
            var (ws, r) := HandleStage(n, x, persisted, env);
            && Idle in r && (r[Idle].status <==> CleanupRuns(reason, env) && env.cleanup.CleanupOk?)
            && (r[Idle].status ==> r == map[Idle := Cond(true, IsIdle)])
            && (!r[Idle].status ==>
                  && r[Idle] == Cond(false, Unfinished(reason, env))
                  && SameExcept(if reason in {AbortFailed, FinalizeFailed} && env.manualCleanup then persisted else x.conds, r, {Idle}))
            && ws == (if CleanupRuns(reason, env) && (env.cleanup.CleanupOk? || env.cleanup.removed) then [DelRoot(Other(n.booted))] else [])
  {}

  // ----- what the handlers have done on the node -----

  // The node when a pre-pivot run stops at each of its steps.
  lemma PrePivotReached(n: Node, x: Resource, stop: PrePivotStop)
    requires StartedStage(x.conds, UpgradeStage) == x.conds && x.seed != n.booted
    ensures var n' := ApplyAll(n, PrePivot(n.booted, x, stop).0);
            var copied := stop in {ExportOldFails, SetDefaultFails, PreRebootFails};
            var saved := stop in {SetDefaultFails, PreRebootFails};
            && n'.booted == n.booted
            && n'.default == (if stop == PreRebootFails then x.seed else n.default)
            && n'.etcd == (if stop == PreWaits then n.etcd else n.etcd[n.booted := x])
            && n'.file == (if saved then n.file[x.seed := x][n.booted := Failing(x, UpgradeStage)]
                           else if copied then n.file[x.seed := x] else n.file)
  {
    var ws := PrePivot(n.booted, x, stop).0;
    assert ws[..|ws|] == ws;
    if |ws| > 0 { ApplyNext(n, ws, 0); }
    if |ws| > 1 { ApplyNext(n, ws, 1); }
    if |ws| > 2 { ApplyNext(n, ws, 2); }
    if |ws| > 3 { ApplyNext(n, ws, 3); }
  }

  // The node at each crash point of a rollback: the other stateroot is set to boot first, and then the
  // resource is stored and the copy for it saved.
  lemma RollbackPrefix(n: Node, x: Resource, k: nat)
    requires StartedStage(x.conds, RollbackStage) == x.conds
    ensures var o := Other(n.booted);
            ApplyAll(n, Survived(StartRollback(n.booted, x, RollbackRebootFails).0, k)) ==
              n.(default := if k >= 1 then o else n.default,
                 etcd := if k >= 2 then n.etcd[n.booted := x] else n.etcd,
                 file := if k >= 3 then n.file[o := x] else n.file)
  {
    var ws := StartRollback(n.booted, x, RollbackRebootFails).0;
    assert ws[..|ws|] == ws;
    ApplyNext(n, ws, 0);
    ApplyNext(n, ws, 1);
    ApplyNext(n, ws, 2);
  }

  // A rollback that stops earlier has made a prefix of these writes.
  lemma RollbackStops(b: Slot, x: Resource, stop: RollbackStop)
    ensures var all := StartRollback(b, x, RollbackRebootFails).0;
            StartRollback(b, x, stop).0 ==
              match stop
              case RollbackPrepareFails => []
              case RollbackSaveFails => all[..2]
              case RollbackRebootFails => all
  {}

  // Wherever it stops or dies, a copy written for the other stateroot implies that it is the default.
  lemma RollbackCopyFollowsDefault(n: Node, x: Resource, stop: RollbackStop, k: nat)
    requires StartedStage(x.conds, RollbackStage) == x.conds
    ensures var n' := ApplyAll(n, Survived(StartRollback(n.booted, x, stop).0, k));
            n'.file != n.file ==> n'.default == Other(n.booted) && n.booted in n'.etcd && n'.etcd[n.booted] == x
  {
    var all, ws := StartRollback(n.booted, x, RollbackRebootFails).0, StartRollback(n.booted, x, stop).0;
    RollbackStops(n.booted, x, stop);
    var j := if k < |ws| then k else |ws|;
    assert Survived(ws, k) == Survived(all, j);
    RollbackPrefix(n, x, j);
  }

  // The node at each crash point of an automatic rollback: the copy on the other stateroot is marked
  // failed before that is set to boot, and nothing happens without a copy or when it is disabled.
  lemma AutoRollbackPrefix(n: Node, stop: AutoStop, k: nat)
    ensures var o := Other(n.booted);
            var marks := o in n.file && stop in {AutoSetDefaultFails, AutoRebootFails} && k >= 1;
            ApplyAll(n, Survived(AutoRollbackWrites(n, stop), k)) ==
              if !marks then n
              else n.(file := n.file[o := n.file[o].(conds := FailedStage(n.file[o].conds, UpgradeStage))],
                      default := if stop == AutoRebootFails && k >= 2 then o else n.default)
  {
    var ws := AutoRollbackWrites(n, stop);
    assert ws[..|ws|] == ws;
    if |ws| > 0 { ApplyNext(n, ws, 0); }
    if |ws| > 1 { ApplyNext(n, ws, 1); }
  }

  // A post-pivot run stores that it is in progress, and after a failure rolls back automatically.
  lemma PostPivotReached(n: Node, x: Resource, outcome: PostOutcome)
    requires StartedStage(x.conds, UpgradeStage) == x.conds
    ensures var n1 := n.(etcd := n.etcd[n.booted := x]);
            ApplyAll(n, PostPivot(n, x, outcome).0) ==
              if outcome.PostFails? then ApplyAll(n1, AutoRollbackWrites(n, outcome.auto)) else n1
  {
    var first := [PutCR(n.booted, x)];
    var rest := if outcome.PostFails? then AutoRollbackWrites(n, outcome.auto) else [];
    assert PostPivot(n, x, outcome).0 == first + rest;
    ApplyConcat(n, first, rest);
    ApplyNext(n, first, 0);
    assert first[..1] == first;
  }

  // ----- what a reconcile stores -----

  // One that the gate stops stores no more than the mark.
  lemma StoppedStores(n: Node, env: Env)
    requires n.booted in n.etcd && (env.gate.Absent? || env.gate.NotIdle?)
    ensures var cr := n.etcd[n.booted];
            ApplyAll(n, ReconcileWrites(n, env)) ==
              if env.gate.Absent? then n
              else n.(etcd := n.etcd[n.booted := cr.(conds := cr.conds[InProgressType(cr.stage) := Cond(false, Blocked)])])
  {
    var ws := ReconcileWrites(n, env);
    assert ws == GateWrites(n, env);
    if ws != [] {
      assert ws[1..] == [];
    } else {
      assert n.etcd == n.etcd[n.booted := Gated(n, env)];
    }
  }

  // The resource that the others work on: its Blocked mark is gone, if IPConfig is idle or blocked.
  function Admitted(n: Node, env: Env): Resource
    requires n.booted in n.etcd
  {
    var cr := n.etcd[n.booted];
    var t := InProgressType(cr.stage);
    if env.gate.Released? && HasReason(cr.conds, t, Blocked) then cr.(conds := cr.conds - {t}) else cr
  }

  lemma PastGate(n: Node, env: Env)
    requires n.booted in n.etcd && (env.gate.Uninitialised? || env.gate.Released?)
    ensures LetThrough(n, env) && Gated(n, env) == Admitted(n, env)
    ensures ApplyAll(n, GateWrites(n, env)) == n.(etcd := n.etcd[n.booted := Admitted(n, env)])
  {
    var gs := GateWrites(n, env);
    if gs != [] {
      assert gs[1..] == [];
    } else {
      assert n.etcd == n.etcd[n.booted := Admitted(n, env)];
    }
  }

  // One that it lets through goes on with the transition and the handler, and stores the conditions
  // that the handler ends with last.
  lemma AdmittedStores(n: Node, env: Env)
    requires n.booted in n.etcd && (env.gate.Uninitialised? || env.gate.Released?)
    ensures var b, cr := n.booted, Admitted(n, env);
            var x := cr.(conds := Transitioned(cr.conds, cr.stage, cr.seed == b));
            var n' := ApplyAll(n, ReconcileWrites(n, env));
            n'.booted == b && b in n'.etcd && n'.etcd[b] == x.(conds := HandleStage(n, x, cr.conds, env).1)
  {
    var ws := ReconcileWrites(n, env);
    var i := |ws| - 1;
    assert ws[..i + 1] == ws;
    ApplyNext(n, ws, i);
    BootedKept(n, ws[..i]);
  }

  // What it accepts is stored before the handler begins, at the k-th write.
  lemma AcceptedFirst(n: Node, env: Env) returns (k: nat)
    requires n.booted in n.etcd && (env.gate.Uninitialised? || env.gate.Released?)
    requires var cr := Admitted(n, env); Accepts(cr.conds, cr.stage, cr.seed == n.booted)
    ensures var b, cr := n.booted, Admitted(n, env);
            var x := cr.(conds := Transitioned(cr.conds, cr.stage, cr.seed == b));
            var ws, hs := ReconcileWrites(n, env), HandleStage(n, x, cr.conds, env).0;
            && k + |hs| + 1 == |ws| && ws[k..][..|hs|] == hs
            && ApplyAll(n, ws[..k]) == n.(etcd := n.etcd[b := x])
  {
    var b, cr := n.booted, Admitted(n, env);
    var x := Turned(cr, b);
    var gs, ws := GateWrites(n, env), ReconcileWrites(n, env);
    var hs := HandleStage(n, x, cr.conds, env).0;
    k := |gs| + 1;
    PastGate(n, env);
    assert ws == gs + ([PutCR(b, x)] + hs + [PutCR(b, x.(conds := EndConds(n, cr, env)))]);
    assert ws[..k] == gs + [PutCR(b, x)];
    ApplyConcat(n, gs, [PutCR(b, x)]);
    OneWrite(ApplyAll(n, gs), PutCR(b, x));
  }

  lemma OneWrite(n: Node, w: Write)
    ensures ApplyAll(n, [w]) == Apply(n, w)
  {
    assert [w][1..] == [];
  }

  // What it means for conditions to be marked failed, started and completed.
  lemma Marked(m: Conds, s: Stage)
    requires !s.IdleStage?
    ensures var i, c := InProgressType(s), CompletedType(s);
            && SameExcept(m, FailedStage(m, s), {i, c}) && SameExcept(m, CompletedStage(m, s), {i, c})
            && SameExcept(m, StartedStage(m, s), {i})
            && FailedStage(m, s)[i] == FailedStage(m, s)[c] == Cond(false, Failed)
            && CompletedStage(m, s)[i] == Cond(false, Completed) && CompletedStage(m, s)[c] == Cond(true, Completed)
            && StartedStage(m, s)[i] == Cond(true, InProgress)
    ensures (InProgressType(s), CompletedType(s)) ==
              match s
              case PrepStage => (PrepInProgress, PrepCompleted)
              case UpgradeStage => (UpgradeInProgress, UpgradeCompleted)
              case _ => (RollbackInProgress, RollbackCompleted)
  {}
}
