/**
 The upgrade and rollback pivots of one node, with a crash possible between any two durable writes.

 A node has two stateroots. Each has its own cluster database with at most one ImageBasedUpgrade
 resource (etcd) and at most one saved copy of it on disk (file). A procedure of the controller is the
 sequence of durable writes it makes; crashing after k writes is executing the first k of them.
 */
module Pivot {
  import opened Prelude
  import opened Conditions
  import opened Lifecycle

  datatype Slot = A | B

  function Other(s: Slot): Slot {
    if s.A? then B else A
  }

  // The custom resource: spec.stage, the stateroot named by the seed image, status.conditions.
  datatype Resource = Resource(stage: Stage, seed: Slot, conds: Conds)

  datatype Node = Node(booted: Slot, default: Slot, etcd: map<Slot, Resource>, file: map<Slot, Resource>)

  datatype Write =
    | PutCR(slot: Slot, cr: Resource)
    | DelCR(slot: Slot)
    | PutFile(slot: Slot, cr: Resource)
    | DelFile(slot: Slot)
    | SetDefault(slot: Slot)
    | DelRoot(slot: Slot)

  function Apply(n: Node, w: Write): Node {
    match w
    case PutCR(s, x) => n.(etcd := n.etcd[s := x])
    case DelCR(s) => n.(etcd := n.etcd - {s})
    case PutFile(s, x) => n.(file := n.file[s := x])
    case DelFile(s) => n.(file := n.file - {s})
    case SetDefault(s) => n.(default := s)
    case DelRoot(s) =>
      n.(etcd := n.etcd - {s}, file := n.file - {s}, default := if n.default == s then Other(s) else n.default)
  }

  function ApplyAll(n: Node, ws: seq<Write>): Node
    decreases |ws|
  {
    if ws == [] then n else ApplyAll(Apply(n, ws[0]), ws[1..])
  }

  // ----- the procedures -----

  // InitIBU, run when the controller starts: restore the saved resource of the booted stateroot.
  function InitWrites(n: Node): seq<Write> {
    var b := n.booted;
    if b in n.file then
      [DelCR(b), PutCR(b, n.file[b].(conds := map[])), PutCR(b, n.file[b]), DelFile(b)]
    else if b in n.etcd then []
    else [PutCR(b, Resource(IdleStage, Other(b), map[]))]
  }

  datatype PrepOutcome = PrepWaits | PrepFails | PrepCompletes

  // The step at which a pre-pivot run stops; a reboot that succeeds is a crash after SetDefault.
  datatype PrePivotStop = PreWaits | PreFails | PreErrors | ExportOldFails | SetDefaultFails | PreRebootFails

  datatype AutoStop = AutoDisabled | AutoSaveFails | AutoSetDefaultFails | AutoRebootFails

  datatype PostOutcome = PostWaits | PostFails(auto: AutoStop) | PostCompletes

  datatype RollbackStop = RollbackPrepareFails | RollbackSaveFails | RollbackRebootFails

  // cleanup: all steps succeed, or some step fails with the other stateroot removed or not.
  datatype CleanupOutcome = CleanupOk | CleanupFails(removed: bool)

  // Everything a reconcile learns from the cluster and the host.
  datatype Env = Env(
    gate: GateVerdict,
    rootKnown: bool,
    healthy: bool,
    manualCleanup: bool,
    prep: PrepOutcome,
    pre: PrePivotStop,
    post: PostOutcome,
    rollback: RollbackStop,
    cleanup: CleanupOutcome)

  function Failing(x: Resource, s: Stage): Resource {
    x.(conds := FailedStage(x.conds, s))
  }

  // InitiateRollback on the new stateroot: mark the copy saved on the other one, boot it next.
  function AutoRollbackWrites(n: Node, stop: AutoStop): seq<Write> {
    var o := Other(n.booted);
    if stop.AutoDisabled? || stop.AutoSaveFails? || o !in n.file then []
    else [PutFile(o, Failing(n.file[o], UpgradeStage))] + if stop.AutoSetDefaultFails? then [] else [SetDefault(o)]
  }

  // PrePivot: the writes before the final status update, and the final conditions.
  function PrePivot(b: Slot, x: Resource, stop: PrePivotStop): (seq<Write>, Conds) {
    var xp := x.(conds := StartedStage(x.conds, UpgradeStage));
    var failed := Failing(xp, UpgradeStage);
    match stop
    case PreWaits => ([], xp.conds)
    case PreFails => ([PutCR(b, xp)], failed.conds)
    case PreErrors => ([PutCR(b, xp)], xp.conds)
    case ExportOldFails => ([PutCR(b, xp), PutFile(x.seed, xp)], xp.conds)
    case SetDefaultFails => ([PutCR(b, xp), PutFile(x.seed, xp), PutFile(b, failed)], xp.conds)
    case PreRebootFails =>
      ([PutCR(b, xp), PutFile(x.seed, xp), PutFile(b, failed), SetDefault(x.seed)], failed.conds)
  }

  function PostPivot(n: Node, x: Resource, outcome: PostOutcome): (seq<Write>, Conds) {
    var xp := x.(conds := StartedStage(x.conds, UpgradeStage));
    match outcome
    case PostWaits => ([PutCR(n.booted, xp)], xp.conds)
    case PostFails(auto) => ([PutCR(n.booted, xp)] + AutoRollbackWrites(n, auto), FailedStage(xp.conds, UpgradeStage))
    case PostCompletes => ([PutCR(n.booted, xp)], CompletedStage(xp.conds, UpgradeStage))
  }

  // startRollback
  function StartRollback(b: Slot, x: Resource, stop: RollbackStop): (seq<Write>, Conds) {
    var xp := x.(conds := StartedStage(x.conds, RollbackStage));
    var failed := FailedStage(xp.conds, RollbackStage);
    match stop
    case RollbackPrepareFails => ([], failed)
    case RollbackSaveFails => ([SetDefault(Other(b)), PutCR(b, xp)], failed)
    case RollbackRebootFails => ([SetDefault(Other(b)), PutCR(b, xp), PutFile(Other(b), xp)], failed)
  }

  function Cleanup(b: Slot, m: Conds, outcome: CleanupOutcome, failure: Reason): (seq<Write>, Conds) {
    match outcome
    case CleanupOk => ([DelRoot(Other(b))], IDLE_ONLY)
    case CleanupFails(removed) => (if removed then [DelRoot(Other(b))] else [], Set(m, Idle, false, failure))
  }

  function Finalize(b: Slot, m: Conds, env: Env): (seq<Write>, Conds) {
    if env.healthy then Cleanup(b, m, env.cleanup, FinalizeFailed) else ([], Set(m, Idle, false, Finalizing))
  }

  // handleAbortOrFinalize; removing the manual-cleanup annotation reloads the persisted status.
  function AbortOrFinalize(b: Slot, m: Conds, persisted: Conds, env: Env): (seq<Write>, Conds)
    requires Idle in m
  {
    match m[Idle].reason
    case Aborting => Cleanup(b, m, env.cleanup, AbortFailed)
    case Finalizing => Finalize(b, m, env)
    case AbortFailed => if env.manualCleanup then Cleanup(b, persisted, env.cleanup, AbortFailed) else ([], m)
    case FinalizeFailed => if env.manualCleanup then Finalize(b, persisted, env) else ([], m)
    case _ => ([], m)
  }

  function PrepResult(m: Conds, outcome: PrepOutcome): Conds {
    match outcome
    case PrepWaits => StartedStage(m, PrepStage)
    case PrepFails => FailedStage(m, PrepStage)
    case PrepCompletes => CompletedStage(m, PrepStage)
  }

  // handleStage for the stage in progress.
  function HandleStage(n: Node, x: Resource, persisted: Conds, env: Env): (seq<Write>, Conds) {
    var b := n.booted;
    match InProgressStage(x.conds)
    case None => ([], x.conds)
    case Some(IdleStage) => AbortOrFinalize(b, x.conds, persisted, env)
    case Some(PrepStage) => ([], PrepResult(x.conds, env.prep))
    case Some(UpgradeStage) =>
      if !env.rootKnown then ([], FailedStage(x.conds, UpgradeStage))
      else if x.seed != b then PrePivot(b, x, env.pre)
      else PostPivot(n, x, env.post)
    case Some(RollbackStage) =>
      if !env.rootKnown then ([], FailedStage(x.conds, RollbackStage))
      else if x.seed != b then ([], CompletedStage(x.conds, RollbackStage))
      else StartRollback(b, x, env.rollback)
  }

  // The resource cr of stateroot b after the transition part of a reconcile.
  function Turned(cr: Resource, b: Slot): Resource {
    cr.(conds := Transitioned(cr.conds, cr.stage, cr.seed == b))
  }

  // The conditions with which a reconcile ends that the gate has let through with the resource cr.
  function EndConds(n: Node, cr: Resource, env: Env): Conds {
    HandleStage(n, Turned(cr, n.booted), cr.conds, env).1
  }

  // What a reconcile writes once the gate has let it through with the resource cr.
  function ProceedWrites(n: Node, cr: Resource, env: Env): seq<Write> {
    var b, x := n.booted, Turned(cr, n.booted);
    (if Accepts(cr.conds, cr.stage, cr.seed == b) then [PutCR(b, x)] else [])
    + HandleStage(n, x, cr.conds, env).0
    + [PutCR(b, x.(conds := EndConds(n, cr, env)))]
  }

  // Whether the gate lets the reconcile go on, and the resource it leaves.
  predicate LetThrough(n: Node, env: Env)
    requires n.booted in n.etcd
  {
    var cr := n.etcd[n.booted];
    Gate(cr.conds, cr.stage, env.gate).0
  }

  function Gated(n: Node, env: Env): Resource
    requires n.booted in n.etcd
  {
    var cr := n.etcd[n.booted];
    cr.(conds := Gate(cr.conds, cr.stage, env.gate).1)
  }

  function GateWrites(n: Node, env: Env): seq<Write>
    requires n.booted in n.etcd
  {
    if Gated(n, env) == n.etcd[n.booted] then [] else [PutCR(n.booted, Gated(n, env))]
  }

  // Reconcile on the booted stateroot.
  function ReconcileWrites(n: Node, env: Env): seq<Write>
    requires n.booted in n.etcd
  {
    GateWrites(n, env) + if LetThrough(n, env) then ProceedWrites(n, Gated(n, env), env) else []
  }

  // ----- runs -----

  // running: the controller has finished InitIBU since it was last started.
  datatype Machine = Machine(n: Node, running: bool)

  datatype Event =
    | Start(k: nat)                      // the controller starts and survives k writes of InitIBU
    | Reconcile(env: Env, k: nat)        // a reconcile that survives k writes
    | AutoRollback(stop: AutoStop, k: nat) // the init monitor or the post-pivot service, at any time
    | Kill                               // the controller process dies
    | Reboot(target: Slot)
    | Edit(stage: Stage, seed: Slot)     // the user edits the spec

  function Survived(ws: seq<Write>, k: nat): seq<Write> {
    if k < |ws| then ws[..k] else ws
  }

  predicate Enabled(m: Machine, e: Event) {
    match e
    case Start(_) => !m.running
    case Reconcile(_, _) => m.running && m.n.booted in m.n.etcd
    case Edit(_, _) => m.n.booted in m.n.etcd
    case _ => true
  }

  function Step(m: Machine, e: Event): Machine
    requires Enabled(m, e)
  {
    var n := m.n;
    match e
    case Start(k) => Machine(ApplyAll(n, Survived(InitWrites(n), k)), k >= |InitWrites(n)|)
    case Reconcile(env, k) => Machine(ApplyAll(n, Survived(ReconcileWrites(n, env), k)), k >= |ReconcileWrites(n, env)|)
    case AutoRollback(stop, k) => m.(n := ApplyAll(n, Survived(AutoRollbackWrites(n, stop), k)))
    case Kill => m.(running := false)
    case Reboot(target) => Machine(n.(booted := target), false)
    case Edit(stage, seed) =>
      m.(n := n.(etcd := n.etcd[n.booted := n.etcd[n.booted].(stage := stage, seed := seed)]))
  }

  // ----- claims about resources -----

  predicate SoundResource(x: Resource, s: Slot) {
    && Good(x.conds, x.seed == s)
    && (x.stage.PrepStage? && x.seed == s ==> Ongoing(x.conds))
  }

  // The rollback of x, on the stateroot it asks for, has begun or has failed: it accepts nothing more.
  predicate SpentResource(x: Resource, s: Slot) {
    && SoundResource(x, s) && x.seed == s && Ongoing(x.conds)
    && (IsTrue(x.conds, RollbackInProgress) || RollbackCompleted in x.conds)
  }

  /** What may be claimed of the resource x of stateroot s:
      Steady     the conditions are consistent, so at most one stage is in progress;
      Recovered  s is the old stateroot after the pivot, and x records a failed upgrade;
      Pivoted    s is the new stateroot, and x has neither been finalized nor aborted; if its seed
                 image has been changed, its upgrade is over;
      Sound      x is one of the states the stage machine reaches;
      Ended      x is idle, aborting or finalizing, or not yet initialised;
      Calm       no rollback can be accepted before a new upgrade is;
      Closed     moreover, no upgrade can be accepted before a new Prep is;
      CalmOrSpent, ClosedOrSpent   or its rollback has begun. */
  datatype Claim =
    | Steady | Recovered | Pivoted
    | Sound | Ended | Calm | Closed | CalmOrSpent | ClosedOrSpent

  predicate CalmResource(x: Resource, s: Slot) {
    SoundResource(x, s) && (!Ongoing(x.conds) || (x.seed != s && !IsTrue(x.conds, UpgradeInProgress)))
  }

  predicate ClosedResource(x: Resource, s: Slot) {
    SoundResource(x, s) && (!Ongoing(x.conds) || (x.seed != s && IsFalse(x.conds, UpgradeCompleted)))
  }

  predicate Sat(c: Claim, x: Resource, s: Slot) {
    match c
    case Steady => Consistent(x.conds)
    case Recovered => Consistent(x.conds) && LeftBehind(x.conds)
    case Pivoted => Consistent(x.conds) && Unsettled(x.conds) && (x.seed == s || UpgradeOver(x.conds))
    case Sound => SoundResource(x, s)
    case Ended => SoundResource(x, s) && !Ongoing(x.conds)
    case Calm => CalmResource(x, s)
    case Closed => ClosedResource(x, s)
    case CalmOrSpent => CalmResource(x, s) || SpentResource(x, s)
    case ClosedOrSpent => ClosedResource(x, s) || SpentResource(x, s)
  }

  // The claims that hold whatever the gate says.
  predicate Ungated(c: Claim) {
    c.Steady? || c.Recovered? || c.Pivoted?
  }

  // A saved copy was exported in the middle of an upgrade or of a rollback.
  predicate SavedSat(c: Claim, x: Resource, s: Slot) {
    && Sat(c, x, s) && !IsTrue(x.conds, Idle)
    && (!Ungated(c) ==> Ongoing(x.conds) && IsTrue(x.conds, PrepCompleted))
  }

  predicate Present(n: Node, s: Slot) {
    s in n.file || s in n.etcd
  }

  // The saved copy of s satisfies the claim, or the resource does when there is no saved copy.
  predicate NodeHolds(n: Node, s: Slot, c: Claim) {
    && (s in n.file ==> SavedSat(c, n.file[s], s))
    && (s in n.etcd && s !in n.file ==> Sat(c, n.etcd[s], s))
  }

  predicate Live(n: Node, s: Slot, c: Claim) {
    s in n.etcd && Sat(c, n.etcd[s], s)
  }

  predicate Holds(m: Machine, s: Slot, c: Claim) {
    NodeHolds(m.n, s, c) && (m.running && m.n.booted == s ==> Live(m.n, s, c))
  }

  predicate WriteOk(w: Write, s: Slot, c: Claim) {
    match w
    case PutCR(t, x) => t == s ==> Sat(c, x, s)
    case PutFile(t, x) => t == s ==> SavedSat(c, x, s)
    case DelCR(t) => t != s
    case DelFile(t) => t != s
    case _ => true
  }

  predicate AllOk(ws: seq<Write>, s: Slot, c: Claim) {
    forall i | 0 <= i < |ws| :: WriteOk(ws[i], s, c)
  }

  predicate Spares(ws: seq<Write>, s: Slot) {
    DelRoot(s) !in ws
  }

  lemma WriteKeeps(n: Node, w: Write, s: Slot, c: Claim)
    requires WriteOk(w, s, c)
    ensures NodeHolds(n, s, c) ==> NodeHolds(Apply(n, w), s, c)
    ensures Live(n, s, c) && w != DelRoot(s) ==> Live(Apply(n, w), s, c)
    ensures Present(n, s) && w != DelRoot(s) ==> Present(Apply(n, w), s)
    ensures Apply(n, w).booted == n.booted
  {}

  lemma {:induction false} WritesKeep(n: Node, ws: seq<Write>, s: Slot, c: Claim)
    requires AllOk(ws, s, c)
    ensures NodeHolds(n, s, c) ==> NodeHolds(ApplyAll(n, ws), s, c)
    ensures Live(n, s, c) && Spares(ws, s) ==> Live(ApplyAll(n, ws), s, c)
    ensures Present(n, s) && Spares(ws, s) ==> Present(ApplyAll(n, ws), s)
    ensures ApplyAll(n, ws).booted == n.booted
    decreases |ws|
  {
    if ws != [] {
      WriteKeeps(n, ws[0], s, c);
      assert forall i | 0 <= i < |ws[1..]| :: ws[1..][i] == ws[i + 1];
      WritesKeep(Apply(n, ws[0]), ws[1..], s, c);
    }
  }

  lemma {:induction false} ApplyNext(n: Node, ws: seq<Write>, k: nat)
    requires k < |ws|
    ensures ApplyAll(n, ws[..k + 1]) == Apply(ApplyAll(n, ws[..k]), ws[k])
    decreases |ws|
  {
    if k != 0 {
      assert ws[..k][1..] == ws[1..][..k - 1] && ws[..k + 1][1..] == ws[1..][..k];
      ApplyNext(Apply(n, ws[0]), ws[1..], k - 1);
    }
  }

  // The node at each crash point of InitIBU.
  lemma InitPrefix(n: Node, k: nat)
    ensures var b := n.booted;
            ApplyAll(n, Survived(InitWrites(n), k)) ==
              if b in n.file then
                if k == 0 then n
                else if k == 1 then n.(etcd := n.etcd - {b})
                else if k == 2 then n.(etcd := n.etcd[b := n.file[b].(conds := map[])])
                else n.(etcd := n.etcd[b := n.file[b]], file := if k == 3 then n.file else n.file - {b})
              else if b in n.etcd || k == 0 then n
              else n.(etcd := n.etcd[b := Resource(IdleStage, Other(b), map[])])
  {
    var ws := InitWrites(n);
    assert ws[..|ws|] == ws;
    if n.booted in n.file {
      ApplyNext(n, ws, 0);
      ApplyNext(n, ws, 1);
      ApplyNext(n, ws, 2);
      ApplyNext(n, ws, 3);
      assert (n.etcd - {n.booted})[n.booted := n.file[n.booted].(conds := map[])] ==
             n.etcd[n.booted := n.file[n.booted].(conds := map[])];
      assert n.etcd[n.booted := n.file[n.booted].(conds := map[])][n.booted := n.file[n.booted]] ==
             n.etcd[n.booted := n.file[n.booted]];
    } else if |ws| == 1 {
      ApplyNext(n, ws, 0);
    }
  }

  // A start keeps a claim through every crash point of InitIBU, and ends with it true of the
  // booted resource.
  lemma InitKeeps(n: Node, k: nat, s: Slot, c: Claim)
    requires NodeHolds(n, s, c) && (Present(n, s) || !(c.Recovered? || c.Pivoted?))
    ensures var n' := ApplyAll(n, Survived(InitWrites(n), k));
            && NodeHolds(n', s, c) && n'.booted == n.booted && n'.default == n.default
            && (Present(n, s) ==> Present(n', s))
            && (n.booted == s && k >= |InitWrites(n)| ==> Live(n', s, c))
  {
    InitPrefix(n, k);
    var n' := ApplyAll(n, Survived(InitWrites(n), k));
    if n.booted == s {
      if s in n.file {
        assert s in n'.file ==> n'.file[s] == n.file[s];
        assert s !in n'.file ==> s in n'.etcd && n'.etcd[s] == n.file[s];
      } else if s !in n.etcd {
        InitialSat(s, c);
      }
    }
  }

  lemma InitialSat(s: Slot, c: Claim)
    requires !c.Recovered? && !c.Pivoted?
    ensures Sat(c, Resource(IdleStage, Other(s), map[]), s)
  {}

  // ----- what a reconcile writes -----

  // The writes of each procedure, given the claim of the resources it writes.
  lemma PrePivotOk(b: Slot, x: Resource, stop: PrePivotStop, s: Slot, c: Claim)
    requires var xp := x.(conds := StartedStage(x.conds, UpgradeStage));
             && (s == b ==> Sat(c, xp, b) && SavedSat(c, Failing(xp, UpgradeStage), b))
             && (s == x.seed ==> SavedSat(c, xp, s))
    ensures AllOk(PrePivot(b, x, stop).0, s, c)
  {}

  lemma AutoRollbackOk(n: Node, stop: AutoStop, s: Slot, c: Claim)
    requires s == Other(n.booted) && s in n.file ==> SavedSat(c, Failing(n.file[s], UpgradeStage), s)
    ensures AllOk(AutoRollbackWrites(n, stop), s, c)
  {}

  lemma PostPivotOk(n: Node, x: Resource, outcome: PostOutcome, s: Slot, c: Claim)
    requires s == n.booted ==> Sat(c, x.(conds := StartedStage(x.conds, UpgradeStage)), s)
    requires s == Other(n.booted) && s in n.file ==> SavedSat(c, Failing(n.file[s], UpgradeStage), s)
    ensures AllOk(PostPivot(n, x, outcome).0, s, c)
  {
    if outcome.PostFails? { AutoRollbackOk(n, outcome.auto, s, c); }
  }

  lemma StartRollbackOk(b: Slot, x: Resource, stop: RollbackStop, s: Slot, c: Claim)
    requires var xp := x.(conds := StartedStage(x.conds, RollbackStage));
             && (s == b ==> Sat(c, xp, b))
             && (s == Other(b) ==> SavedSat(c, xp, s))
    ensures AllOk(StartRollback(b, x, stop).0, s, c)
  {}

  lemma AbortOrFinalizeOk(b: Slot, m: Conds, persisted: Conds, env: Env, s: Slot, c: Claim)
    requires Idle in m
    ensures AllOk(AbortOrFinalize(b, m, persisted, env).0, s, c)
    ensures Spares(AbortOrFinalize(b, m, persisted, env).0, b)
  {}

  // What the writes of the handler need: the claim of each resource it may write for s.
  predicate WritesSat(n: Node, x: Resource, s: Slot, c: Claim) {
    var b := n.booted;
    match InProgressStage(x.conds)
    case Some(UpgradeStage) =>
      var xp := x.(conds := StartedStage(x.conds, UpgradeStage));
      if s == b then Sat(c, xp, b) && (x.seed != b ==> SavedSat(c, Failing(xp, UpgradeStage), b))
      else if x.seed != b then SavedSat(c, xp, s)
      else s in n.file ==> SavedSat(c, Failing(n.file[s], UpgradeStage), s)
    case Some(RollbackStage) =>
      var xp := x.(conds := StartedStage(x.conds, RollbackStage));
      x.seed == b ==> if s == b then Sat(c, xp, b) else SavedSat(c, xp, s)
    case _ => true
  }

  lemma HandleWrites(n: Node, x: Resource, persisted: Conds, env: Env, s: Slot, c: Claim)
    requires WritesSat(n, x, s, c)
    ensures AllOk(HandleStage(n, x, persisted, env).0, s, c)
    ensures s == n.booted || !StageInProgress(x.conds, IdleStage) ==> Spares(HandleStage(n, x, persisted, env).0, s)
  {
    match InProgressStage(x.conds)
    case None =>
    case Some(IdleStage) => AbortOrFinalizeOk(n.booted, x.conds, persisted, env, s, c);
    case Some(PrepStage) =>
    case Some(UpgradeStage) =>
      if env.rootKnown {
        if x.seed != n.booted { PrePivotOk(n.booted, x, env.pre, s, c); }
        else { PostPivotOk(n, x, env.post, s, c); }
      }
    case Some(RollbackStage) =>
      if env.rootKnown && x.seed == n.booted { StartRollbackOk(n.booted, x, env.rollback, s, c); }
  }

  lemma HandleResult(n: Node, x: Resource, persisted: Conds, env: Env)
    ensures StageResult(x.conds, persisted, x.seed == n.booted, HandleStage(n, x, persisted, env).1)
  {
    match InProgressStage(x.conds)
    case None =>
    case Some(IdleStage) =>
    case Some(PrepStage) =>
    case Some(UpgradeStage) =>
    case Some(RollbackStage) =>
  }

  // ----- a whole reconcile -----

  // The acceptance before the handler's writes and the final status after them.
  lemma AroundOk(b: Slot, accepted: seq<Write>, ws: seq<Write>, x: Resource, final: Resource, s: Slot, c: Claim)
    requires accepted == [] || accepted == [PutCR(b, x)]
    requires AllOk(ws, s, c) && (s == b ==> Sat(c, x, s) && Sat(c, final, s))
    ensures AllOk(accepted + ws + [PutCR(b, final)], s, c)
    ensures Spares(ws, s) ==> Spares(accepted + ws + [PutCR(b, final)], s)
  {}

  // The writes after the gate keep a claim of s when the transition, the handler and the result do.
  lemma ProceedOk(n: Node, cr: Resource, env: Env, s: Slot, c: Claim)
    requires WritesSat(n, Turned(cr, n.booted), s, c)
    requires var x := Turned(cr, n.booted);
             s == n.booted ==> Sat(c, x, s) && Sat(c, x.(conds := EndConds(n, cr, env)), s)
    ensures AllOk(ProceedWrites(n, cr, env), s, c)
    ensures s == n.booted || !StageInProgress(Turned(cr, n.booted).conds, IdleStage) ==> Spares(ProceedWrites(n, cr, env), s)
  {
    var b, x := n.booted, Turned(cr, n.booted);
    HandleWrites(n, x, cr.conds, env, s, c);
    AroundOk(b, if Accepts(cr.conds, cr.stage, cr.seed == b) then [PutCR(b, x)] else [],
             HandleStage(n, x, cr.conds, env).0, x, x.(conds := EndConds(n, cr, env)), s, c);
  }

  // The writes of the gate before them.
  lemma GatedOk(gated: seq<Write>, proceed: seq<Write>, s: Slot, c: Claim)
    requires AllOk(gated, s, c) && AllOk(proceed, s, c) && Spares(gated, s)
    ensures AllOk(gated + proceed, s, c) && (Spares(proceed, s) ==> Spares(gated + proceed, s))
  {}

  // ----- whatever the gate says -----

  // The copies the handlers save on the stateroots are what a saved copy may be.
  lemma SavedCopies(n: Node, x: Resource)
    requires Consistent(x.conds)
    ensures InProgressStage(x.conds) == Some(UpgradeStage) ==>
              && StartedStage(x.conds, UpgradeStage) == x.conds
              && SavedSat(Steady, x, n.booted) && SavedSat(Steady, Failing(x, UpgradeStage), n.booted)
    ensures InProgressStage(x.conds) == Some(UpgradeStage) && x.seed != n.booted ==>
              SavedSat(Pivoted, x, x.seed) && SavedSat(Recovered, Failing(x, UpgradeStage), n.booted)
    ensures InProgressStage(x.conds) == Some(RollbackStage) ==>
              && StartedStage(x.conds, RollbackStage) == x.conds
              && SavedSat(Steady, x, n.booted)
              && SavedSat(Recovered, x, Other(n.booted)) && SavedSat(Pivoted, x, Other(n.booted))
  {
    if InProgressStage(x.conds) == Some(UpgradeStage) { StartedIsSame(x.conds, UpgradeStage); }
    if InProgressStage(x.conds) == Some(RollbackStage) { StartedIsSame(x.conds, RollbackStage); }
  }

  // Marking a saved copy failed keeps what is claimed of it.
  lemma FailingSaved(x: Resource, s: Slot, c: Claim)
    requires SavedSat(c, x, s)
    ensures SavedSat(c, Failing(x, UpgradeStage), s)
  {
    if !Ungated(c) { UpgradeFailedExport(x.conds, x.seed == s); }
  }

  // The reconcile goes on from cr and accepts the stage st.
  predicate AcceptsFrom(cr: Resource, b: Slot, st: Stage) {
    cr.stage == st && Accepts(cr.conds, st, cr.seed == b)
  }

  // The transition keeps such a claim unless it accepts Idle, and starts no upgrade that has failed.
  lemma UngatedTransition(cr: Resource, b: Slot, c: Claim)
    requires Ungated(c) && Sat(c, cr, b) && (c.Steady? || !AcceptsFrom(cr, b, IdleStage))
    ensures Sat(c, Turned(cr, b), b)
    ensures c.Recovered? ==> InProgressStage(Turned(cr, b).conds) != Some(UpgradeStage)
  {
    TransitionConsistent(cr.conds, cr.stage, cr.seed == b);
    if c.Recovered? { RecoveredTransition(cr.conds, cr.stage, cr.seed == b); }
    if c.Pivoted? { PivotedTransition(cr.conds, cr.stage, cr.seed == b); }
  }

  lemma UngatedEnd(n: Node, cr: Resource, env: Env, c: Claim)
    requires Ungated(c) && Sat(c, cr, n.booted) && (c.Steady? || !AcceptsFrom(cr, n.booted, IdleStage))
    ensures Sat(c, Turned(cr, n.booted).(conds := EndConds(n, cr, env)), n.booted)
  {
    var after, x := cr.seed == n.booted, Turned(cr, n.booted);
    TransitionConsistent(cr.conds, cr.stage, after);
    HandleResult(n, x, cr.conds, env);
    ResultConsistent(x.conds, cr.conds, after, EndConds(n, cr, env));
    if c.Recovered? { RecoveredStep(cr.conds, cr.stage, after, EndConds(n, cr, env)); }
    if c.Pivoted? { PivotedStep(cr.conds, cr.stage, after, EndConds(n, cr, env)); }
  }

  // The claim c of s, given the claim of the booted stateroot: both Steady, or a pivoted pair.
  predicate Paired(b: Slot, cb: Claim, s: Slot, c: Claim) {
    Ungated(c) && (cb == c <==> c.Steady? || s == b) && (!c.Steady? && s != b ==> Ungated(cb) && !cb.Steady?)
  }

  lemma UngatedWritesSat(n: Node, x: Resource, cb: Claim, s: Slot, c: Claim)
    requires Paired(n.booted, cb, s, c) && Sat(cb, x, n.booted) && NodeHolds(n, s, c)
    requires cb.Recovered? ==> InProgressStage(x.conds) != Some(UpgradeStage)
    ensures WritesSat(n, x, s, c)
  {
    SavedCopies(n, x);
    if s in n.file { FailingSaved(n.file[s], s, c); }
  }

  // A reconcile that does not accept Idle keeps the claims of both stateroots, and removes neither.
  lemma UngatedProceed(n: Node, cr: Resource, env: Env, cb: Claim, s: Slot, c: Claim)
    requires Paired(n.booted, cb, s, c) && Sat(cb, cr, n.booted) && NodeHolds(n, s, c)
    requires cb.Steady? || !AcceptsFrom(cr, n.booted, IdleStage)
    ensures AllOk(ProceedWrites(n, cr, env), s, c)
    ensures !cb.Steady? ==> Spares(ProceedWrites(n, cr, env), s)
  {
    UngatedTransition(cr, n.booted, cb);
    UngatedEnd(n, cr, env, cb);
    UngatedWritesSat(n, Turned(cr, n.booted), cb, s, c);
    ProceedOk(n, cr, env, s, c);
  }

  lemma GateKeeps(n: Node, env: Env, cb: Claim, s: Slot, c: Claim)
    requires n.booted in n.etcd && Paired(n.booted, cb, s, c) && Live(n, n.booted, cb)
    ensures Sat(cb, Gated(n, env), n.booted)
    ensures AllOk(GateWrites(n, env), s, c) && Spares(GateWrites(n, env), s)
  {
    var cr := n.etcd[n.booted];
    GateConsistent(cr.conds, cr.stage, env.gate);
  }

  lemma ReconcileSteady(n: Node, env: Env, s: Slot)
    requires n.booted in n.etcd && Live(n, n.booted, Steady) && NodeHolds(n, s, Steady)
    ensures AllOk(ReconcileWrites(n, env), s, Steady)
  {
    GateKeeps(n, env, Steady, s, Steady);
    UngatedProceed(n, Gated(n, env), env, Steady, s, Steady);
    GatedOk(GateWrites(n, env), if LetThrough(n, env) then ProceedWrites(n, Gated(n, env), env) else [], s, Steady);
  }

  // ----- when the gate lets every reconcile through -----

  // The resource after the transition part of a reconcile that the gate lets through unchanged.
  function Transition(n: Node): Resource
    requires n.booted in n.etcd
  {
    Turned(n.etcd[n.booted], n.booted)
  }

  function FinalConds(n: Node, env: Env): Conds
    requires n.booted in n.etcd
  {
    EndConds(n, n.etcd[n.booted], env)
  }

  predicate AcceptsNow(n: Node, s: Stage) {
    n.booted in n.etcd && AcceptsFrom(n.etcd[n.booted], n.booted, s)
  }

  // A reconcile that the gate lets through unchanged is acceptance, handler writes, final update.
  lemma ReconcileShape(n: Node, env: Env)
    requires n.booted in n.etcd && env.gate.Released?
    requires var cr := n.etcd[n.booted]; Unblocked(cr.conds, cr.stage) == cr.conds
    ensures LetThrough(n, env) && Gated(n, env) == n.etcd[n.booted] && GateWrites(n, env) == []
    ensures ReconcileWrites(n, env) == ProceedWrites(n, n.etcd[n.booted], env)
    ensures var b, x := n.booted, Transition(n);
            ReconcileWrites(n, env) ==
              (if AcceptsNow(n, x.stage) then [PutCR(b, x)] else [])
              + HandleStage(n, x, n.etcd[b].conds, env).0 + [PutCR(b, x.(conds := FinalConds(n, env)))]
  {
    var cr := n.etcd[n.booted];
    assert Gate(cr.conds, cr.stage, env.gate) == (true, cr.conds);
    assert [] + ProceedWrites(n, cr, env) == ProceedWrites(n, cr, env);
  }

  // The transition and the result of a reconcile of a sound resource are sound.
  lemma SoundReconcile(n: Node, env: Env)
    requires n.booted in n.etcd && SoundResource(n.etcd[n.booted], n.booted)
    ensures var cr := n.etcd[n.booted]; Unblocked(cr.conds, cr.stage) == cr.conds
    ensures SoundResource(Transition(n), n.booted)
    ensures SoundResource(Transition(n).(conds := FinalConds(n, env)), n.booted)
    ensures StageResult(Transition(n).conds, n.etcd[n.booted].conds, Transition(n).seed == n.booted, FinalConds(n, env))
  {
    var cr := n.etcd[n.booted];
    var after := cr.seed == n.booted;
    TransitionGood(cr.conds, cr.stage, after);
    var x := Transition(n);
    HandleResult(n, x, cr.conds, env);
    FailedCleanupPersisted(cr.conds, cr.stage, after);
    ResultGood(x.conds, cr.conds, after, FinalConds(n, env));
    if cr.stage.PrepStage? && after { OngoingKept(cr.conds, cr.stage, after, FinalConds(n, env)); }
  }

  // A cleanup that has failed before this reconcile is already recorded in the persisted status.
  lemma FailedCleanupPersisted(m: Conds, desired: Stage, after: bool)
    requires Good(m, after)
    ensures var x := Transitioned(m, desired, after);
            StageInProgress(x, IdleStage) && x[Idle].reason in {AbortFailed, FinalizeFailed} ==> Idle in m && m[Idle] == x[Idle]
  {}

  lemma OngoingKept(m: Conds, desired: Stage, after: bool, r: Conds)
    requires Good(m, after) && desired.PrepStage? && after && Ongoing(m)
    requires StageResult(Transitioned(m, desired, after), m, after, r)
    ensures Ongoing(Transitioned(m, desired, after)) && Ongoing(r)
  {}

  // The writes of a reconcile keep a claim of s when the transition, the handler and the result do.
  lemma ReconcileOk(n: Node, env: Env, s: Slot, c: Claim)
    requires n.booted in n.etcd && SoundResource(n.etcd[n.booted], n.booted) && env.gate.Released?
    requires WritesSat(n, Transition(n), s, c)
    requires s == n.booted ==> Sat(c, Transition(n), s) && Sat(c, Transition(n).(conds := FinalConds(n, env)), s)
    ensures AllOk(ReconcileWrites(n, env), s, c)
    ensures s == n.booted || !StageInProgress(Transition(n).conds, IdleStage) ==> Spares(ReconcileWrites(n, env), s)
  {
    SoundReconcile(n, env);
    ReconcileShape(n, env);
    ProceedOk(n, n.etcd[n.booted], env, s, c);
  }

  // The copies saved of a sound resource are sound.
  lemma SoundCopies(n: Node, x: Resource)
    requires SoundResource(x, n.booted)
    ensures Consistent(x.conds)
    ensures InProgressStage(x.conds) == Some(UpgradeStage) && x.seed != n.booted ==>
              SavedSat(Sound, x, x.seed) && SavedSat(Closed, Failing(x, UpgradeStage), n.booted)
    ensures InProgressStage(x.conds) == Some(RollbackStage) && x.seed == n.booted ==> SavedSat(Closed, x, Other(n.booted))
  {
    GoodIsConsistent(x.conds, x.seed == n.booted);
    if InProgressStage(x.conds) == Some(UpgradeStage) && x.seed != n.booted {
      UpgradeExport(x.conds);
      UpgradeFailedExport(x.conds, false);
    }
    if InProgressStage(x.conds) == Some(RollbackStage) && x.seed == n.booted { RollbackExport(x.conds); }
  }

  lemma SoundWrites(n: Node, env: Env, s: Slot)
    requires n.booted in n.etcd && SoundResource(n.etcd[n.booted], n.booted) && env.gate.Released?
    requires NodeHolds(n, s, Sound)
    ensures AllOk(ReconcileWrites(n, env), s, Sound)
  {
    SoundReconcile(n, env);
    SoundCopies(n, Transition(n));
    SavedCopies(n, Transition(n));
    if s in n.file { FailingSaved(n.file[s], s, Sound); }
    ReconcileOk(n, env, s, Sound);
  }
}
