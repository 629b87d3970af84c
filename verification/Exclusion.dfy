/**
 The IPConfig stage machine, and the exclusion between it and the ImageBasedUpgrade machine: they
 share a mutex, and each blocks itself while the other is neither idle nor blocked.
 */
module Exclusion {
  import opened Prelude
  import opened Conditions
  import opened Lifecycle

  datatype IPStage = IPIdle | IPConfig | IPRollback

  function IPInProgressType(s: IPStage): ConditionType {
    match s
    case IPIdle => Idle
    case IPConfig => ConfigInProgress
    case IPRollback => RollbackInProgress
  }

  function IPCompletedType(s: IPStage): ConditionType {
    match s
    case IPIdle => Idle
    case IPConfig => ConfigCompleted
    case IPRollback => RollbackCompleted
  }

  predicate IPStageCompleted(m: Conds, s: IPStage) {
    IsTrue(m, IPCompletedType(s))
  }

  predicate IPStageFailed(m: Conds, s: IPStage) {
    IsFalse(m, IPCompletedType(s)) && (s.IPIdle? ==> m[Idle].reason == Failed)
  }

  predicate IPStageInProgress(m: Conds, s: IPStage) {
    if s.IPIdle? then IsFalse(m, Idle) && m[Idle].reason == InProgress else IsTrue(m, IPInProgressType(s))
  }

  function IPInProgressStage(m: Conds): Option<IPStage> {
    if IPStageInProgress(m, IPIdle) then Some(IPIdle)
    else if IPStageInProgress(m, IPConfig) then Some(IPConfig)
    else if IPStageInProgress(m, IPRollback) then Some(IPRollback)
    else None
  }

  // validNextStages; pivoted: the target stateroot is booted and an unbooted one is available.
  function IPValidNextStages(m: Conds, desired: IPStage, pivoted: bool): seq<IPStage> {
    var inProgress := IPInProgressStage(m);
    if inProgress == Some(IPIdle) then [IPIdle]
    else if inProgress == Some(IPConfig) || IPStageFailed(m, IPConfig) then if pivoted then [IPRollback] else [IPIdle]
    else if inProgress == Some(IPRollback) || IPStageFailed(m, IPRollback) then []
    else if IPStageCompleted(m, IPRollback) then [IPIdle]
    else if IPStageCompleted(m, IPConfig) then if pivoted then [IPIdle, IPRollback] else [IPIdle]
    else if IPStageCompleted(m, IPIdle) then [IPConfig]
    else if Idle !in m then [IPIdle]
    else if m[Idle].reason == Blocked then [desired]
    else []
  }

  // isIPTransitionRequested
  predicate IPTransitionRequested(m: Conds, desired: IPStage) {
    || (IsFalse(m, IPInProgressType(desired)) && m[IPInProgressType(desired)].reason == InvalidTransition)
    || (!IPStageCompleted(m, desired) && !IPStageFailed(m, desired) && !IPStageInProgress(m, desired))
  }

  function ClearIPInvalid(m: Conds): Conds {
    map t | t in m && !(t in {ConfigInProgress, RollbackInProgress} && m[t].reason == InvalidTransition) ::
      if t == Idle && m[t].reason == InvalidTransition then Cond(false, ConfigurationInProgress) else m[t]
  }

  function IPFailed(m: Conds, s: IPStage): Conds {
    Set(Set(m, IPCompletedType(s), false, Failed), IPInProgressType(s), false, Failed)
  }

  function IPCompleted(m: Conds, s: IPStage): Conds {
    Set(Set(m, IPInProgressType(s), false, Completed), IPCompletedType(s), true, Completed)
  }

  function IPStarted(m: Conds, s: IPStage): Conds {
    Set(m, IPInProgressType(s), true, InProgress)
  }

  // ----- the handlers: every status they write, in order -----

  datatype PhaseOutcome = PhaseWaits | PhaseFails | PhaseCompletes

  // valid: spec.stage is in the stored list of valid next stages.
  datatype IPEnv = IPEnv(valid: bool, manualCleanup: bool, healthy: bool, cleaned: bool, startable: bool, phase: PhaseOutcome)

  function Last(m: Conds, written: seq<Conds>): Conds {
    if written == [] then m else written[|written| - 1]
  }

  function IdleStatuses(m: Conds, env: IPEnv): seq<Conds> {
    var retried := if env.manualCleanup then [Set(m, Idle, false, InProgress)] else [];
    var m1 := Last(m, retried);
    if IPTransitionRequested(m1, IPIdle) && !env.valid then retried + [Set(m1, Idle, false, InvalidTransition)]
    else
      var accepted :=
        if IPTransitionRequested(m1, IPIdle) then [ClearIPInvalid(m1), Set(ClearIPInvalid(m1), Idle, false, InProgress)] else [];
      retried + accepted + BecomingIdle(Last(m1, accepted), env)
  }

  // Health check, cleanup and reset.
  function BecomingIdle(m: Conds, env: IPEnv): seq<Conds> {
    if !IPStageInProgress(m, IPIdle) then []
    else if !env.healthy then [Set(m, Idle, false, InProgress)]
    else if !env.cleaned then [Set(m, Idle, false, Failed)]
    else [IDLE_ONLY]
  }

  // The pre-pivot and post-pivot phases differ in what they do on the host, not in these statuses.
  function PhaseStatuses(m: Conds, s: IPStage, outcome: PhaseOutcome): seq<Conds> {
    match outcome
    case PhaseWaits => [IPStarted(m, s)]
    case PhaseFails => [IPFailed(m, s)]
    case PhaseCompletes => [IPStarted(m, s), IPCompleted(IPStarted(m, s), s)]
  }

  function ConfigStatuses(m: Conds, env: IPEnv): seq<Conds> {
    if IPTransitionRequested(m, IPConfig) && !env.valid then [Set(m, ConfigInProgress, false, InvalidTransition)]
    else
      var begun := Set(ClearIPInvalid(m), Idle, false, ConfigurationInProgress);
      var accepted :=
        if !IPTransitionRequested(m, IPConfig) then []
        else [ClearIPInvalid(m), begun, if env.startable then IPStarted(begun, IPConfig) else IPFailed(begun, IPConfig)];
      var m2 := Last(m, accepted);
      accepted + if IPStageInProgress(m2, IPConfig) then PhaseStatuses(m2, IPConfig, env.phase) else []
  }

  function RollbackStatuses(m: Conds, env: IPEnv): seq<Conds> {
    if IPTransitionRequested(m, IPRollback) && !env.valid then [Set(m, RollbackInProgress, false, InvalidTransition)]
    else if IPTransitionRequested(m, IPRollback) && !env.startable then [IPFailed(m, IPRollback)]
    else
      var accepted :=
        if IPTransitionRequested(m, IPRollback) then [ClearIPInvalid(m), IPStarted(ClearIPInvalid(m), IPRollback)] else [];
      var m2 := Last(m, accepted);
      accepted + if IPStageInProgress(m2, IPRollback) then PhaseStatuses(m2, IPRollback, env.phase) else []
  }

  function HandlerStatuses(m: Conds, s: IPStage, env: IPEnv): seq<Conds> {
    match s
    case IPIdle => IdleStatuses(m, env)
    case IPConfig => ConfigStatuses(m, env)
    case IPRollback => RollbackStatuses(m, env)
  }

  // The IPConfig machine is weaker than the other one: Config and Rollback can be in progress
  // together, when the stored list of valid stages admits a rollback during a configuration.
  lemma ConfigAndRollbackTogether(m: Conds, env: IPEnv, pivoted: bool)
    requires IPInProgressStage(m) == Some(IPConfig) && m[ConfigInProgress].reason == InProgress && RollbackCompleted !in m && RollbackInProgress !in m
    requires env.startable && (env.valid <==> IPRollback in IPValidNextStages(m, IPRollback, pivoted))
    ensures pivoted <==> exists r :: r in HandlerStatuses(m, IPRollback, env) && IsTrue(r, ConfigInProgress) && IsTrue(r, RollbackInProgress)
  {
    var r := IPStarted(ClearIPInvalid(m), IPRollback);
    if pivoted {
      assert HandlerStatuses(m, IPRollback, env)[1] == r;
    }
  }

  // ----- the two controllers -----

  datatype Side = IBU | IPC

  function Peer(x: Side): Side {
    if x.IBU? then IPC else IBU
  }

  datatype Cluster = Cluster(ibuStage: Stage, ibu: Conds, ipcStage: IPStage, ipc: Conds)

  function CondsOf(c: Cluster, x: Side): Conds {
    if x.IBU? then c.ibu else c.ipc
  }

  // The in-progress condition type of the stage the user asks for.
  function Current(c: Cluster, x: Side): ConditionType {
    if x.IBU? then InProgressType(c.ibuStage) else IPInProgressType(c.ipcStage)
  }

  function WithConds(c: Cluster, x: Side, m: Conds): Cluster {
    if x.IBU? then c.(ibu := m) else c.(ipc := m)
  }

  predicate BlockedNow(c: Cluster, x: Side) {
    HasReason(CondsOf(c, x), Current(c, x), Blocked)
  }

  predicate IdleNow(c: Cluster, x: Side) {
    Current(c, x) == Idle && IsTrue(CondsOf(c, x), Idle)
  }

  // What the gate of x's peer makes of x.
  function Verdict(c: Cluster, x: Side): GateVerdict {
    if CondsOf(c, x) == map[] then Uninitialised
    else if IdleNow(c, x) || BlockedNow(c, x) then Released
    else NotIdle
  }

  // gateIBUByIPConfig and gateIPConfigByIBU.
  function GateOf(c: Cluster, x: Side): (bool, Conds) {
    var m, t := CondsOf(c, x), Current(c, x);
    match Verdict(c, Peer(x))
    case Released => (true, if HasReason(m, t, Blocked) then m - {t} else m)
    case NotIdle => (false, Set(m, t, false, Blocked))
    case _ => (true, m)
  }

  predicate Passes(c: Cluster, x: Side) {
    GateOf(c, x).0
  }

  // The status of the upgrade resource at some point of a reconcile whose gate has left m.
  predicate IbuStatus(m: Conds, desired: Stage, afterPivot: bool, r: Conds) {
    var x := Transitioned(m, desired, afterPivot);
    r == m || r == x || StageResult(x, m, afterPivot, r)
  }

  datatype Step =
    | IbuReconcile(afterPivot: bool, r: Conds) // ends or dies with status r
    | IpcReconcile(env: IPEnv, k: nat)         // ends or dies after k status updates of the handler
    | IbuEdit(ibuStage: Stage)
    | IpcEdit(ipcStage: IPStage)

  predicate Possible(c: Cluster, e: Step) {
    match e
    case IbuReconcile(after, r) =>
      var (go, m) := GateOf(c, IBU);
      if go then IbuStatus(m, c.ibuStage, after, r) else r == m
    case _ => true
  }

  function Next(c: Cluster, e: Step): Cluster {
    match e
    case IbuReconcile(_, r) => c.(ibu := r)
    case IpcReconcile(env, k) =>
      var (go, m) := GateOf(c, IPC);
      c.(ipc := if go then StatusAfter(m, c.ipcStage, env, k) else m)
    case IbuEdit(s) => c.(ibuStage := s)
    case IpcEdit(s) => c.(ipcStage := s)
  }

  // The handler of x runs in this step.
  predicate HandlerRuns(c: Cluster, e: Step, x: Side) {
    (if x.IBU? then e.IbuReconcile? else e.IpcReconcile?) && Passes(c, x)
  }

  predicate Edits(e: Step, x: Side) {
    if x.IBU? then e.IbuEdit? else e.IpcEdit?
  }

  // ----- exclusion -----

  // x is at work, and its peer is blocked.
  predicate AtWork(c: Cluster, x: Side) {
    CondsOf(c, x) != map[] && !IdleNow(c, x) && !BlockedNow(c, x) && BlockedNow(c, Peer(x))
  }

  // A condition that IPConfig can neither clear nor turn into the mark of a rejected transition, as
  // long as the stage asked for is not blocked.
  predicate Anchor(m: Conds, t: ConditionType) {
    && t in m
    && (t in {ConfigInProgress, RollbackInProgress} ==> m[t].reason != InvalidTransition && (m[t].status || m[t].reason == Blocked))
  }

  predicate Anchored(m: Conds) {
    exists t :: Anchor(m, t)
  }

  // The conditions m of x cannot all be cleared.
  predicate Held(x: Side, m: Conds) {
    if x.IBU? then m != map[] else Anchored(m)
  }

  predicate Owner(c: Cluster, x: Side) {
    AtWork(c, x) && Held(x, CondsOf(c, x))
  }

  // The blocked resource keeps its stage; the owner moves only to stages not marked Blocked.
  predicate Disciplined(c: Cluster, e: Step, x: Side) {
    !Edits(e, Peer(x)) && (Edits(e, x) ==> !BlockedNow(Next(c, e), x))
  }

  // A status written after m keeps an Idle condition, and marks nothing Blocked that m did not.
  predicate Unmarked(m: Conds, r: Conds) {
    (Idle in m ==> Idle in r) && forall t | HasReason(r, t, Blocked) :: HasReason(m, t, Blocked)
  }

  lemma TransitionUnmarked(m: Conds, desired: Stage, after: bool)
    ensures Unmarked(m, Transitioned(m, desired, after))
    ensures m != map[] ==> Transitioned(m, desired, after) != map[]
  {
    var x := Transitioned(m, desired, after);
    if TransitionRequested(m, desired) { assert InProgressType(desired) in x; }
  }

  lemma ResultUnmarked(x: Conds, m: Conds, after: bool, r: Conds)
    requires Unmarked(m, x) && StageResult(x, m, after, r)
    ensures Unmarked(m, r) && (x != map[] ==> r != map[])
  {
    if r != x && InProgressStage(x).Some? { assert InProgressType(InProgressStage(x).value) in r; }
  }

  // No status of an upgrade reconcile marks anything Blocked, or is empty unless it began so.
  lemma IbuUnmarked(m: Conds, desired: Stage, after: bool, r: Conds)
    requires IbuStatus(m, desired, after, r)
    ensures Unmarked(m, r) && (m != map[] ==> r != map[])
  {
    TransitionUnmarked(m, desired, after);
    var x := Transitioned(m, desired, after);
    if r != m && r != x { ResultUnmarked(x, m, after, r); }
  }

  // A status written after m for the stage s, which is not blocked, keeps a condition that is held,
  // and is empty only when all of m is cleared.
  predicate Steadfast(m: Conds, s: IPStage, r: Conds) {
    && (Anchored(m) && !HasReason(m, IPInProgressType(s), Blocked) ==> Anchored(r))
    && (m != map[] && r == map[] ==> IPTransitionRequested(m, s) && ClearIPInvalid(m) == map[])
  }

  lemma IdleUnmarked(m: Conds, env: IPEnv)
    ensures forall r | r in IdleStatuses(m, env) :: Unmarked(m, r)
  {}

  lemma ConfigUnmarked(m: Conds, env: IPEnv)
    ensures forall r | r in ConfigStatuses(m, env) :: Unmarked(m, r)
  {}

  lemma RollbackUnmarked(m: Conds, env: IPEnv)
    ensures forall r | r in RollbackStatuses(m, env) :: Unmarked(m, r)
  {}

  lemma ClearedKeeps(m: Conds, t: ConditionType)
    requires Anchor(m, t)
    ensures Anchor(ClearIPInvalid(m), t)
  {}

  lemma IdleSteadfast(m: Conds, env: IPEnv)
    ensures forall r: Conds | r in IdleStatuses(m, env) :: Steadfast(m, IPIdle, r)
  {
    forall r: Conds | r in IdleStatuses(m, env) ensures Steadfast(m, IPIdle, r) {
      assert Idle in r || r == ClearIPInvalid(m);
      if Idle in r { assert Anchor(r, Idle); }
      else if t :| Anchor(m, t) { ClearedKeeps(m, t); }
    }
  }

  lemma ConfigSteadfast(m: Conds, env: IPEnv)
    ensures forall r: Conds | r in ConfigStatuses(m, env) :: Steadfast(m, IPConfig, r)
  {
    forall r: Conds | r in ConfigStatuses(m, env) ensures Steadfast(m, IPConfig, r) {
      if Idle in r { assert Anchor(r, Idle); }
      else if ConfigCompleted in r { assert Anchor(r, ConfigCompleted); }
      else if IsTrue(r, ConfigInProgress) && r[ConfigInProgress].reason == InProgress { assert Anchor(r, ConfigInProgress); }
      else if t :| Anchor(m, t) {
        ClearedKeeps(m, t);
        assert Anchor(r, t) || HasReason(m, ConfigInProgress, Blocked);
      }
    }
  }

  lemma RollbackSteadfast(m: Conds, env: IPEnv)
    ensures forall r: Conds | r in RollbackStatuses(m, env) :: Steadfast(m, IPRollback, r)
  {
    forall r: Conds | r in RollbackStatuses(m, env) ensures Steadfast(m, IPRollback, r) {
      if RollbackCompleted in r { assert Anchor(r, RollbackCompleted); }
      else if IsTrue(r, RollbackInProgress) && r[RollbackInProgress].reason == InProgress { assert Anchor(r, RollbackInProgress); }
      else if t :| Anchor(m, t) {
        ClearedKeeps(m, t);
        assert Anchor(r, t) || HasReason(m, RollbackInProgress, Blocked);
      }
    }
  }

  // The status after k status updates of the handler of stage s.
  function StatusAfter(m: Conds, s: IPStage, env: IPEnv, k: nat): Conds {
    var written := HandlerStatuses(m, s, env);
    Last(m, if k < |written| then written[..k] else written)
  }

  lemma LastWritten(m: Conds, written: seq<Conds>, k: nat)
    ensures var r := Last(m, if k < |written| then written[..k] else written); r == m || r in written
  {}

  // Whatever a handler writes, and wherever it dies, it leaves no new Blocked mark.
  lemma HandlerUnmarked(m: Conds, s: IPStage, env: IPEnv, k: nat)
    ensures Unmarked(m, StatusAfter(m, s, env, k))
  {
    LastWritten(m, HandlerStatuses(m, s, env), k);
    match s
    case IPIdle => IdleUnmarked(m, env);
    case IPConfig => ConfigUnmarked(m, env);
    case IPRollback => RollbackUnmarked(m, env);
  }

  // And keeps what is held.
  lemma HandlerSteadfast(m: Conds, s: IPStage, env: IPEnv, k: nat)
    ensures Steadfast(m, s, StatusAfter(m, s, env, k))
  {
    LastWritten(m, HandlerStatuses(m, s, env), k);
    match s
    case IPIdle => IdleSteadfast(m, env);
    case IPConfig => ConfigSteadfast(m, env);
    case IPRollback => RollbackSteadfast(m, env);
  }

  // One step: the blocked handler does not run, and x stays at work until it is idle, unless the
  // step stores an empty condition list, which it does not while the conditions are held.
  lemma WorkKept(c: Cluster, e: Step, x: Side)
    requires AtWork(c, x) && Possible(c, e) && Disciplined(c, e, x)
    ensures !HandlerRuns(c, e, Peer(x))
    ensures AtWork(Next(c, e), x) || IdleNow(Next(c, e), x) <==> CondsOf(Next(c, e), x) != map[]
    ensures Held(x, CondsOf(c, x)) ==> Held(x, CondsOf(Next(c, e), x))
  {
    match e
    case IbuReconcile(after, r) =>
      if x == IBU { IbuUnmarked(c.ibu, c.ibuStage, after, r); }
    case IpcReconcile(env, k) =>
      if x == IPC {
        HandlerUnmarked(c.ipc, c.ipcStage, env, k);
        HandlerSteadfast(c.ipc, c.ipcStage, env, k);
      }
    case _ =>
  }

  // The owner stays the owner until it is idle.
  lemma OwnerKept(c: Cluster, e: Step, x: Side)
    requires Owner(c, x) && Possible(c, e) && Disciplined(c, e, x)
    ensures !HandlerRuns(c, e, Peer(x))
    ensures Owner(Next(c, e), x) || IdleNow(Next(c, e), x)
  {
    WorkKept(c, e, x);
    HeldNotEmpty(x, CondsOf(Next(c, e), x));
  }

  lemma HeldNotEmpty(x: Side, m: Conds)
    ensures Held(x, m) ==> m != map[]
  {}

  // A run whose steps are possible.
  ghost predicate Runs(c: Cluster, es: seq<Step>)
    decreases |es|
  {
    es == [] || (Possible(c, es[0]) && Runs(Next(c, es[0]), es[1..]))
  }

  ghost predicate DisciplinedRun(c: Cluster, es: seq<Step>, x: Side)
    requires Runs(c, es)
    decreases |es|
  {
    es == [] || (Disciplined(c, es[0], x) && DisciplinedRun(Next(c, es[0]), es[1..], x))
  }

  function After(c: Cluster, es: seq<Step>): Cluster
    decreases |es|
  {
    if es == [] then c else After(Next(c, es[0]), es[1..])
  }

  // In the run the handler of x's peer runs before x has become idle.
  ghost predicate PeerRunsBeforeIdle(c: Cluster, es: seq<Step>, x: Side)
    requires Runs(c, es)
    decreases |es|
  {
    && es != [] && !IdleNow(c, x)
    && (HandlerRuns(c, es[0], Peer(x)) || PeerRunsBeforeIdle(Next(c, es[0]), es[1..], x))
  }

  // A disciplined run in which it does.
  ghost predicate Loses(c: Cluster, es: seq<Step>, x: Side) {
    Runs(c, es) && DisciplinedRun(c, es, x) && PeerRunsBeforeIdle(c, es, x)
  }

  // Exclusion over runs, for either controller.
  lemma {:induction false} Exclusion(c: Cluster, es: seq<Step>, x: Side)
    requires Owner(c, x)
    ensures !Loses(c, es, x)
    decreases |es|
  {
    if Runs(c, es) && DisciplinedRun(c, es, x) && es != [] {
      OwnerKept(c, es[0], x);
      if IdleNow(Next(c, es[0]), x) {
        IdleStops(Next(c, es[0]), es[1..], x);
      } else {
        Exclusion(Next(c, es[0]), es[1..], x);
      }
    }
  }

  lemma IdleStops(c: Cluster, es: seq<Step>, x: Side)
    requires Runs(c, es) && IdleNow(c, x)
    ensures !PeerRunsBeforeIdle(c, es, x)
  {}

  // What the handler of x leaves after its gate has left m.
  lemma HandlerKeeps(c: Cluster, e: Step, x: Side)
    requires Possible(c, e) && HandlerRuns(c, e, x) && BlockedNow(c, Peer(x))
    requires Held(x, GateOf(c, x).1)
    ensures Owner(Next(c, e), x) || IdleNow(Next(c, e), x)
  {
    var m := GateOf(c, x).1;
    HeldNotEmpty(x, CondsOf(Next(c, e), x));
    match e
    case IbuReconcile(after, r) => IbuUnmarked(m, c.ibuStage, after, r);
    case IpcReconcile(env, k) =>
      HandlerUnmarked(m, c.ipcStage, env, k);
      HandlerSteadfast(m, c.ipcStage, env, k);
  }

  lemma IdleHeld(c: Cluster, x: Side)
    ensures IdleNow(c, x) ==> Held(x, CondsOf(c, x))
  {
    assert IdleNow(c, x) ==> Anchor(CondsOf(c, x), Idle);
  }

  // A reconcile that does nothing after the gate has let it through.
  function DyingAtOnce(x: Side, m: Conds): Step {
    if x.IBU? then IbuReconcile(false, m) else IpcReconcile(IPEnv(false, false, false, false, false, PhaseWaits), 0)
  }

  // Passing the gate while the peer is blocked makes the controller the owner, or idle, whatever its
  // handler does and wherever it dies, exactly when the conditions the gate leaves are held.
  lemma PassingOwns(c: Cluster, x: Side)
    requires Passes(c, x) && BlockedNow(c, Peer(x))
    ensures (forall e | Possible(c, e) && HandlerRuns(c, e, x) :: Owner(Next(c, e), x) || IdleNow(Next(c, e), x))
            <==> Held(x, GateOf(c, x).1)
  {
    var m := GateOf(c, x).1;
    if Held(x, m) {
      forall e | Possible(c, e) && HandlerRuns(c, e, x) ensures Owner(Next(c, e), x) || IdleNow(Next(c, e), x) {
        HandlerKeeps(c, e, x);
      }
    } else {
      var e := DyingAtOnce(x, m);
      assert Possible(c, e) && HandlerRuns(c, e, x) && CondsOf(Next(c, e), x) == m;
      IdleHeld(Next(c, e), x);
    }
  }

  // ----- what is held is needed -----

  // A reconcile that is rejected, and one that dies after clearing the marks.
  const REJECTED := IpcReconcile(IPEnv(false, false, true, true, true, PhaseWaits), 1)
  const CLEARING := IpcReconcile(IPEnv(true, false, true, true, true, PhaseWaits), 1)

  lemma Cleared(m: Conds, s: IPStage)
    requires IPTransitionRequested(m, s)
    ensures s.IPConfig? || s.IPRollback? || Idle !in m ==> StatusAfter(m, s, CLEARING.env, 1) == ClearIPInvalid(m)
  {}

  // The only conditions of the IPConfig resource are marks of rejected transitions, and a transition
  // is requested.
  predicate Clearable(c: Cluster, x: Side) {
    && x.IPC? && IPTransitionRequested(c.ipc, c.ipcStage)
    && forall t | t in c.ipc :: t in {ConfigInProgress, RollbackInProgress} && c.ipc[t].reason == InvalidTransition
  }

  lemma Emptied(c: Cluster, e: Step, x: Side)
    requires AtWork(c, x) && Possible(c, e) && CondsOf(Next(c, e), x) == map[]
    ensures Clearable(c, x)
  {
    match e
    case IbuReconcile(after, r) => if x == IBU { IbuUnmarked(c.ibu, c.ibuStage, after, r); }
    case IpcReconcile(env, k) =>
      if x == IPC {
        HandlerSteadfast(c.ipc, c.ipcStage, env, k);
        assert forall t | t in c.ipc :: t !in ClearIPInvalid(c.ipc);
      }
    case _ =>
  }

  // In one step the exclusion is lost exactly when the handler can clear the only conditions there are.
  lemma LostExactlyWhenClearable(c: Cluster, x: Side)
    requires AtWork(c, x)
    ensures (exists e :: Possible(c, e) && Disciplined(c, e, x) && !AtWork(Next(c, e), x) && !IdleNow(Next(c, e), x))
            <==> Clearable(c, x)
  {
    if Clearable(c, x) {
      var e := CLEARING;
      Cleared(c.ipc, c.ipcStage);
      assert ClearIPInvalid(c.ipc) == map[];
      assert Next(c, e).ipc == map[];
      assert Possible(c, e) && Disciplined(c, e, x) && !AtWork(Next(c, e), x) && !IdleNow(Next(c, e), x);
    }
    forall e | Possible(c, e) && Disciplined(c, e, x) && !AtWork(Next(c, e), x) && !IdleNow(Next(c, e), x)
      ensures Clearable(c, x)
    {
      WorkKept(c, e, x);
      Emptied(c, e, x);
    }
  }

  lemma RejectedStatus(m: Conds, s: IPStage)
    requires IPTransitionRequested(m, s)
    ensures StatusAfter(m, s, REJECTED.env, 1) == Set(m, IPInProgressType(s), false, InvalidTransition)
  {}

  // The run in which IPConfig asks for the stage s and is rejected, when its condition for s is
  // neither held nor a mark already.
  function Rejecting(m: Conds, s: IPStage): seq<Step> {
    if IPInProgressType(s) in m && m[IPInProgressType(s)].reason != InvalidTransition then [IpcEdit(s), REJECTED] else []
  }

  // The state of IPConfig after that.
  function AfterRejecting(c: Cluster, s: IPStage): Cluster {
    var t := IPInProgressType(s);
    if t in c.ipc && c.ipc[t].reason != InvalidTransition
    then c.(ipcStage := s, ipc := Set(c.ipc, t, false, InvalidTransition)) else c
  }

  // The run leads from c to c', with IPConfig at work and the peer kept out.
  ghost predicate WorksTo(c: Cluster, es: seq<Step>, c': Cluster)
    decreases |es|
  {
    if es == [] then c == c'
    else AtWork(c, IPC) && Possible(c, es[0]) && Disciplined(c, es[0], IPC) && WorksTo(Next(c, es[0]), es[1..], c')
  }

  lemma {:induction false} WorksOn(c: Cluster, es: seq<Step>, c1: Cluster, more: seq<Step>)
    requires WorksTo(c, es, c1) && Loses(c1, more, IPC)
    ensures Loses(c, es + more, IPC)
    decreases |es|
  {
    if es == [] {
      assert es + more == more;
    } else {
      assert (es + more)[1..] == es[1..] + more;
      WorksOn(Next(c, es[0]), es[1..], c1, more);
    }
  }

  lemma NothingHeld(m: Conds)
    requires !Anchored(m)
    ensures forall t | t in m :: t in {ConfigInProgress, RollbackInProgress}
    ensures forall t | t in m :: m[t].reason == InvalidTransition || (!m[t].status && m[t].reason != Blocked)
  {
    forall t | t in m ensures t in {ConfigInProgress, RollbackInProgress} &&
                              (m[t].reason == InvalidTransition || (!m[t].status && m[t].reason != Blocked)) {
      assert !Anchor(m, t);
    }
  }

  predicate MarkIfAny(m: Conds, t: ConditionType) {
    t in m ==> m[t].reason == InvalidTransition
  }

  // After both rejections there are only marks.
  lemma OnlyMarks(m: Conds)
    requires !Anchored(m) && MarkIfAny(m, ConfigInProgress) && MarkIfAny(m, RollbackInProgress)
    ensures forall t | t in m :: t in {ConfigInProgress, RollbackInProgress} && m[t].reason == InvalidTransition
  {
    NothingHeld(m);
  }

  lemma RejectingWorks(c: Cluster, s: IPStage)
    requires AtWork(c, IPC) && !Anchored(c.ipc) && !s.IPIdle?
    ensures WorksTo(c, Rejecting(c.ipc, s), AfterRejecting(c, s))
    ensures AtWork(AfterRejecting(c, s), IPC) && !Anchored(AfterRejecting(c, s).ipc)
    ensures MarkIfAny(AfterRejecting(c, s).ipc, IPInProgressType(s))
  {
    NothingHeld(c.ipc);
    var es, c2 := Rejecting(c.ipc, s), AfterRejecting(c, s);
    if es != [] {
      var c1 := Next(c, es[0]);
      assert GateOf(c1, IPC) == (true, c.ipc);
      RejectedStatus(c.ipc, s);
      assert Next(c1, REJECTED) == c2;
      assert AtWork(c1, IPC) && AtWork(c2, IPC) by { assert IPInProgressType(s) in c2.ipc; }
      assert es[1..] == [REJECTED] && [REJECTED][1..] == [];
      assert WorksTo(c2, [], c2) && WorksTo(c1, [REJECTED], c2);
    }
  }

  // Once all conditions are marks, asking for Idle clears them, and the peer runs.
  lemma ClearingLoses(c: Cluster)
    requires AtWork(c, IPC)
    requires forall t | t in c.ipc :: t in {ConfigInProgress, RollbackInProgress} && c.ipc[t].reason == InvalidTransition
    ensures Loses(c, [IpcEdit(IPIdle), CLEARING, IbuReconcile(false, c.ibu)], IPC)
  {
    var c1 := Next(c, IpcEdit(IPIdle));
    var last := IbuReconcile(false, c.ibu);
    assert GateOf(c1, IPC) == (true, c.ipc);
    Cleared(c.ipc, IPIdle);
    assert ClearIPInvalid(c.ipc) == map[];
    assert AtWork(c1, IPC);
    PeerRuns(c1, CLEARING, last);
    assert [IpcEdit(IPIdle), CLEARING, last][1..] == [CLEARING, last];
  }

  lemma PeerRuns(c: Cluster, e: Step, last: Step)
    requires Possible(c, e) && Disciplined(c, e, IPC) && !IdleNow(c, IPC)
    requires var c1 := Next(c, e);
             c1.ipc == map[] && last == IbuReconcile(false, c1.ibu)
    ensures Loses(c, [e, last], IPC)
  {
    var c1 := Next(c, e);
    assert GateOf(c1, IBU) == (true, c1.ibu);
    assert [e, last][1..] == [last] && [last][1..] == [];
    assert Runs(Next(c1, last), []) && Runs(c1, [last]);
    assert HandlerRuns(c1, last, IBU);
    assert PeerRunsBeforeIdle(c1, [last], IPC);
  }

  // At most two rejected transitions and then the clearing of all marks lose the exclusion.
  lemma UnheldLoses(c: Cluster) returns (es: seq<Step>)
    requires AtWork(c, IPC) && !Anchored(c.ipc)
    ensures Loses(c, es, IPC)
  {
    var c1 := AfterRejecting(c, IPConfig);
    var c2 := AfterRejecting(c1, IPRollback);
    RejectingWorks(c, IPConfig);
    RejectingWorks(c1, IPRollback);
    OnlyMarks(c2.ipc);
    var es1, es2 := Rejecting(c.ipc, IPConfig), Rejecting(c1.ipc, IPRollback);
    var es3 := [IpcEdit(IPIdle), CLEARING, IbuReconcile(false, c2.ibu)];
    ClearingLoses(c2);
    WorksOn(c1, es2, c2, es3);
    WorksOn(c, es1, c1, es2 + es3);
    es := es1 + (es2 + es3);
  }

  // While x is at work, no disciplined run lets the blocked handler run before x is idle, exactly
  // when its conditions are held: always for the upgrade, and for IPConfig if one of them is anchored.
  lemma ExclusionExactly(c: Cluster, x: Side)
    requires AtWork(c, x)
    ensures (forall es :: !Loses(c, es, x)) <==> x.IBU? || Anchored(c.ipc)
  {
    if Held(x, CondsOf(c, x)) {
      forall es ensures !Loses(c, es, x) { Exclusion(c, es, x); }
    } else {
      var es := UnheldLoses(c);
      assert Loses(c, es, x);
    }
  }

  // The discipline is needed: an edit of the owner hands over exactly when it makes the owner idle
  // or moves it to a stage still marked Blocked.
  lemma OwnerEdit(c: Cluster, e: Step, x: Side)
    requires AtWork(c, x) && Edits(e, x)
    ensures Passes(Next(c, e), Peer(x)) <==> IdleNow(Next(c, e), x) || BlockedNow(Next(c, e), x)
  {}

  // And an edit of the blocked resource to a stage that is neither idle nor marked Blocked makes
  // the owner block itself at its next reconcile, after which the other one runs.
  lemma BlockedEdit(c: Cluster, e: Step, x: Side)
    requires AtWork(c, x) && Edits(e, Peer(x))
    ensures var c' := Next(c, e);
            && (Passes(c', x) <==> IdleNow(c', Peer(x)) || BlockedNow(c', Peer(x)))
            && (!Passes(c', x) ==>
                  Passes(WithConds(c', x, GateOf(c', x).1), Peer(x)))
  {
    assert Current(Next(c, e), x) == Current(c, x);
  }

  // No deadlock: when both are blocked the next reconcile of either passes.
  lemma BothBlocked(c: Cluster, x: Side)
    requires BlockedNow(c, IBU) && BlockedNow(c, IPC)
    ensures Passes(c, x)
  {}

  // When the gate stops one controller, the next reconcile of the other passes.
  lemma StoppedLetsPass(c: Cluster, x: Side)
    requires !Passes(c, x)
    ensures Passes(WithConds(c, x, GateOf(c, x).1), Peer(x))
  {}
}
