/**
 Properties of every run of a node: any interleaving of controller starts, reconciles, automatic
 rollbacks, process kills, reboots and spec edits, each procedure crashing after any of its writes.
 */
module PivotRuns {
  import opened Prelude
  import opened Conditions
  import opened Lifecycle
  import opened Pivot

  const INITIAL := Machine(Node(A, A, map[], map[]), false)

  // A run in which every step is enabled and allowed.
  ghost predicate Run(m: Machine, es: seq<Event>, allowed: (Machine, Event) -> bool)
    decreases |es|
  {
    es == [] || (Enabled(m, es[0]) && allowed(m, es[0]) && Run(Step(m, es[0]), es[1..], allowed))
  }

  ghost function Final(m: Machine, es: seq<Event>, allowed: (Machine, Event) -> bool): Machine
    requires Run(m, es, allowed)
    decreases |es|
  {
    if es == [] then m else Final(Step(m, es[0]), es[1..], allowed)
  }

  predicate Anything(m: Machine, e: Event) {
    true
  }

  // IPConfig is idle, and isAfterPivot changes only by a pivot: the seed image is edited only while
  // idle and not to the booted stateroot, and Prep is not asked for on the stateroot already booted.
  predicate Tame(m: Machine, e: Event) {
    match e
    case Reconcile(env, _) => env.gate.Released?
    case Edit(stage, seed) =>
      var b := m.n.booted;
      && b in m.n.etcd
      && var x := m.n.etcd[b];
      && (seed == x.seed || (IsTrue(x.conds, Idle) && seed != b))
      && (stage.PrepStage? && seed == b ==> Ongoing(x.conds))
    case _ => true
  }

  lemma SurvivedOk(ws: seq<Write>, k: nat, s: Slot, c: Claim)
    requires AllOk(ws, s, c)
    ensures AllOk(Survived(ws, k), s, c) && (Spares(ws, s) ==> Spares(Survived(ws, k), s))
  {}

  // ----- at most one stage in progress -----

  predicate SteadyEverywhere(m: Machine) {
    Holds(m, A, Steady) && Holds(m, B, Steady)
  }

  lemma StepSteady(m: Machine, e: Event, s: Slot)
    requires Enabled(m, e) && SteadyEverywhere(m)
    ensures Holds(Step(m, e), s, Steady)
  {
    var n := m.n;
    match e
    case Start(k) =>
      InitKeeps(n, k, s, Steady);
    case Reconcile(env, k) =>
      ReconcileSteady(n, env, s);
      SurvivedOk(ReconcileWrites(n, env), k, s, Steady);
      ReconcileHolds(m, env, k, s, Steady);
    case AutoRollback(stop, k) =>
      AutoRollbackKeeps(n, stop, k, s, Steady);
    case _ =>
  }

  // An automatic rollback only marks a saved copy failed.
  lemma AutoRollbackKeeps(n: Node, stop: AutoStop, k: nat, s: Slot, c: Claim)
    requires NodeHolds(n, s, c)
    ensures var n' := ApplyAll(n, Survived(AutoRollbackWrites(n, stop), k));
            && NodeHolds(n', s, c) && n'.booted == n.booted
            && (Live(n, s, c) ==> Live(n', s, c)) && (Present(n, s) ==> Present(n', s))
  {
    var ws := AutoRollbackWrites(n, stop);
    if s in n.file { FailingSaved(n.file[s], s, c); }
    AutoRollbackOk(n, stop, s, c);
    SurvivedOk(ws, k, s, c);
    WritesKeep(n, Survived(ws, k), s, c);
  }

  // The booted stateroot is never removed by a reconcile.
  lemma ReconcileSpares(n: Node, env: Env)
    requires n.booted in n.etcd
    ensures Spares(ReconcileWrites(n, env), n.booted)
  {
    var cr := Gated(n, env);
    HandleSpares(n, Turned(cr, n.booted), cr.conds, env);
  }

  // A claim is kept by a reconcile whose surviving writes satisfy it.
  lemma ReconcileHolds(m: Machine, env: Env, k: nat, s: Slot, c: Claim)
    requires Enabled(m, Reconcile(env, k)) && Holds(m, s, c)
    requires AllOk(Survived(ReconcileWrites(m.n, env), k), s, c)
    ensures Holds(Step(m, Reconcile(env, k)), s, c)
  {
    var ws := ReconcileWrites(m.n, env);
    ReconcileSpares(m.n, env);
    SurvivedSpares(ws, k, m.n.booted);
    WritesKeep(m.n, Survived(ws, k), s, c);
  }

  lemma SurvivedSpares(ws: seq<Write>, k: nat, s: Slot)
    requires Spares(ws, s)
    ensures Spares(Survived(ws, k), s)
  {}

  lemma HandleSpares(n: Node, x: Resource, persisted: Conds, env: Env)
    ensures Spares(HandleStage(n, x, persisted, env).0, n.booted)
  {
    match InProgressStage(x.conds)
    case None =>
    case Some(IdleStage) => AbortOrFinalizeOk(n.booted, x.conds, persisted, env, n.booted, Steady);
    case Some(PrepStage) =>
    case Some(UpgradeStage) =>
    case Some(RollbackStage) =>
  }

  // Over every run, with any edits and any gate blocking: in the resource the controller works on at
  // most one of Prep, Upgrade and Rollback is in progress, and Idle means that none has been started.
  lemma {:induction false} OneStageInEveryRun(m: Machine, es: seq<Event>)
    requires SteadyEverywhere(m) && Run(m, es, Anything)
    ensures var f := Final(m, es, Anything);
            && SteadyEverywhere(f)
            && (f.running ==> f.n.booted in f.n.etcd && Consistent(f.n.etcd[f.n.booted].conds))
    decreases |es|
  {
    if es != [] {
      StepSteady(m, es[0], A);
      StepSteady(m, es[0], B);
      OneStageInEveryRun(Step(m, es[0]), es[1..]);
    }
  }

  // ----- the reachable states, and no dead end -----

  // Every resource and saved copy is sound; a copy saved on the booted stateroot by the running
  // controller records a failed upgrade.
  predicate Inv(m: Machine) {
    && Holds(m, A, Sound) && Holds(m, B, Sound)
    && (m.running && m.n.booted in m.n.file ==> SavedSat(Closed, m.n.file[m.n.booted], m.n.booted))
  }

  lemma EditSound(x: Resource, b: Slot, stage: Stage, seed: Slot)
    requires SoundResource(x, b)
    requires seed == x.seed || (IsTrue(x.conds, Idle) && seed != b)
    requires stage.PrepStage? && seed == b ==> Ongoing(x.conds)
    ensures SoundResource(x.(stage := stage, seed := seed), b)
  {}

  lemma StepSound(m: Machine, e: Event, s: Slot)
    requires Enabled(m, e) && Tame(m, e) && Inv(m)
    ensures Holds(Step(m, e), s, Sound)
  {
    var n := m.n;
    match e
    case Start(k) =>
      InitKeeps(n, k, s, Sound);
    case Reconcile(env, k) =>
      SoundWrites(n, env, s);
      SurvivedOk(ReconcileWrites(n, env), k, s, Sound);
      ReconcileHolds(m, env, k, s, Sound);
    case AutoRollback(stop, k) =>
      AutoRollbackKeeps(n, stop, k, s, Sound);
    case Edit(stage, seed) =>
      if n.booted == s && Sat(Sound, n.etcd[s], s) { EditSound(n.etcd[s], s, stage, seed); }
    case _ =>
  }

  predicate CopiesOk(ws: seq<Write>, s: Slot, c: Claim) {
    forall i | 0 <= i < |ws| && ws[i].PutFile? && ws[i].slot == s :: SavedSat(c, ws[i].cr, s)
  }

  lemma HandlerCopies(n: Node, x: Resource, persisted: Conds, env: Env)
    requires InProgressStage(x.conds) == Some(UpgradeStage) && x.seed != n.booted ==>
               StartedStage(x.conds, UpgradeStage) == x.conds && SavedSat(Closed, Failing(x, UpgradeStage), n.booted)
    ensures CopiesOk(HandleStage(n, x, persisted, env).0, n.booted, Closed)
  {
    match InProgressStage(x.conds)
    case None =>
    case Some(IdleStage) =>
    case Some(PrepStage) =>
    case Some(UpgradeStage) =>
    case Some(RollbackStage) =>
  }

  // A reconcile saves only copies of a failed upgrade on the booted stateroot.
  lemma OwnCopyClosed(n: Node, env: Env)
    requires n.booted in n.etcd && SoundResource(n.etcd[n.booted], n.booted) && env.gate.Released?
    ensures CopiesOk(ReconcileWrites(n, env), n.booted, Closed)
  {
    SoundReconcile(n, env);
    ReconcileShape(n, env);
    SoundCopies(n, Transition(n));
    SavedCopies(n, Transition(n));
    HandlerCopies(n, Transition(n), n.etcd[n.booted].conds, env);
  }

  lemma {:induction false} CopiesKept(n: Node, ws: seq<Write>, s: Slot, c: Claim)
    requires CopiesOk(ws, s, c)
    requires s in n.file ==> SavedSat(c, n.file[s], s)
    ensures s in ApplyAll(n, ws).file ==> SavedSat(c, ApplyAll(n, ws).file[s], s)
    decreases |ws|
  {
    if ws != [] {
      assert forall i | 0 <= i < |ws[1..]| :: ws[1..][i] == ws[i + 1];
      CopiesKept(Apply(n, ws[0]), ws[1..], s, c);
    }
  }

  lemma StepInv(m: Machine, e: Event)
    requires Enabled(m, e) && Tame(m, e) && Inv(m)
    ensures Inv(Step(m, e))
  {
    StepSound(m, e, A);
    StepSound(m, e, B);
    match e
    case Start(k) => InitPrefix(m.n, k);
    case Reconcile(env, k) =>
      OwnCopyClosed(m.n, env);
      BootedKept(m.n, Survived(ReconcileWrites(m.n, env), k));
      CopiesKept(m.n, Survived(ReconcileWrites(m.n, env), k), m.n.booted, Closed);
    case AutoRollback(stop, k) =>
      BootedKept(m.n, Survived(AutoRollbackWrites(m.n, stop), k));
      if m.running { CopiesKept(m.n, Survived(AutoRollbackWrites(m.n, stop), k), m.n.booted, Closed); }
    case _ =>
  }

  lemma {:induction false} BootedKept(n: Node, ws: seq<Write>)
    ensures ApplyAll(n, ws).booted == n.booted
    decreases |ws|
  {
    if ws != [] { BootedKept(Apply(n, ws[0]), ws[1..]); }
  }

  // Over every tame run: no dead end, and an accepted transition takes effect.
  lemma {:induction false} NoDeadEndInEveryRun(m: Machine, es: seq<Event>)
    requires Inv(m) && Run(m, es, Tame)
    ensures Inv(Final(m, es, Tame))
    ensures var f := Final(m, es, Tame);
            f.running ==>
              && f.n.booted in f.n.etcd
              && var x := f.n.etcd[f.n.booted];
              && (|| InProgressStage(x.conds).Some?
                  || ValidNextStages(x.conds, x.stage, x.seed == f.n.booted) != []
                  || StageFailed(x.conds, RollbackStage))
              && (AcceptsNow(f.n, x.stage) ==>
                    || InProgressStage(Transition(f.n).conds) == Some(x.stage)
                    || (Idle !in x.conds && Transition(f.n).conds == IDLE_ONLY))
    decreases |es|
  {
    if es != [] {
      StepInv(m, es[0]);
      NoDeadEndInEveryRun(Step(m, es[0]), es[1..]);
    } else if m.running {
      var x := m.n.etcd[m.n.booted];
      NoDeadEnd(x.conds, x.stage, x.seed == m.n.booted);
      if AcceptsNow(m.n, x.stage) { AcceptedIsInProgress(x.conds, x.stage, x.seed == m.n.booted); }
    }
  }

  lemma InitialInv()
    ensures Inv(INITIAL) && SteadyEverywhere(INITIAL)
  {}

  // ----- the crash-safe pivot -----

  // The reconcile e passes the gate, accepts the stage s and survives persisting it.
  predicate AcceptedBy(m: Machine, e: Event, s: Stage) {
    && e.Reconcile? && m.n.booted in m.n.etcd
    && LetThrough(m.n, e.env) && AcceptsFrom(Gated(m.n, e.env), m.n.booted, s)
    && e.k > |GateWrites(m.n, e.env)|
  }

  // The upgrade has left the stateroot home: whatever a start on it restores records a failed
  // upgrade, and whatever a start on the other restores has neither been finalized nor aborted.
  predicate Armed(m: Machine, home: Slot) {
    && Present(m.n, home) && Holds(m, home, Recovered)
    && Present(m.n, Other(home)) && Holds(m, Other(home), Pivoted)
  }

  // The claim each stateroot carries while armed.
  function ArmedClaim(home: Slot, s: Slot): Claim {
    if s == home then Recovered else Pivoted
  }

  lemma SurvivedPart(a: seq<Write>, b: seq<Write>, k: nat)
    ensures k <= |a| ==> Survived(a + b, k) == Survived(a, k)
    ensures Survived(a, |a|) == a
  {}

  // The writes that survive of a reconcile during which no acceptance of Idle is persisted.
  lemma ArmedWrites(n: Node, env: Env, k: nat, home: Slot, s: Slot)
    requires n.booted in n.etcd && Live(n, n.booted, ArmedClaim(home, n.booted))
    requires NodeHolds(n, s, ArmedClaim(home, s))
    requires k > |GateWrites(n, env)| && LetThrough(n, env) ==> !AcceptsFrom(Gated(n, env), n.booted, IdleStage)
    ensures var ws := Survived(ReconcileWrites(n, env), k); AllOk(ws, s, ArmedClaim(home, s)) && Spares(ws, s)
  {
    var b, c, gated := n.booted, ArmedClaim(home, s), GateWrites(n, env);
    var proceed := if LetThrough(n, env) then ProceedWrites(n, Gated(n, env), env) else [];
    GateKeeps(n, env, ArmedClaim(home, b), s, c);
    if k <= |gated| {
      SurvivedPart(gated, proceed, k);
      SurvivedOk(gated, k, s, c);
    } else {
      if LetThrough(n, env) { UngatedProceed(n, Gated(n, env), env, ArmedClaim(home, b), s, c); }
      GatedOk(gated, proceed, s, c);
      SurvivedOk(gated + proceed, k, s, c);
    }
  }

  // On a stateroot other than home, the edit e changes the seed image while its upgrade is not over.
  predicate Reseeds(m: Machine, e: Event, home: Slot) {
    && e.Edit? && m.n.booted != home && m.n.booted in m.n.etcd
    && var x := m.n.etcd[m.n.booted];
    && e.seed != x.seed && !IsTrue(x.conds, Idle) && !UpgradeOver(x.conds)
  }

  // What the API admits of an edit, while the list of valid next stages it holds is current.
  predicate Admitted(x: Resource, s: Slot, stage: Stage, seed: Slot) {
    && (stage == x.stage || stage in ValidNextStages(x.conds, x.stage, x.seed == s))
    && (seed == x.seed || IsTrue(x.conds, Idle) || stage.IdleStage?)
  }

  // It admits no such edit of a reachable resource, unless Idle has been asked for before.
  lemma ReseedRejected(x: Resource, s: Slot, stage: Stage, seed: Slot)
    requires SoundResource(x, s) && Sat(Pivoted, x, s) && Idle in x.conds && !x.stage.IdleStage?
    requires seed != x.seed && !UpgradeOver(x.conds)
    ensures !Admitted(x, s, stage, seed)
  {}

  // Every step that neither accepts Idle nor changes the seed image so keeps the node armed.
  lemma StepArmed(m: Machine, e: Event, home: Slot, s: Slot)
    requires Enabled(m, e) && !AcceptedBy(m, e, IdleStage) && !Reseeds(m, e, home) && Armed(m, home)
    ensures Present(Step(m, e).n, s) && Holds(Step(m, e), s, ArmedClaim(home, s))
  {
    var n, c := m.n, ArmedClaim(home, s);
    match e
    case Start(k) =>
      InitKeeps(n, k, s, c);
    case Reconcile(env, k) =>
      ArmedWrites(n, env, k, home, s);
      WritesKeep(n, Survived(ReconcileWrites(n, env), k), s, c);
    case AutoRollback(stop, k) =>
      AutoRollbackKeeps(n, stop, k, s, c);
    case _ =>
  }

  lemma {:induction false} ApplyConcat(n: Node, a: seq<Write>, b: seq<Write>)
    ensures ApplyAll(n, a + b) == ApplyAll(ApplyAll(n, a), b)
    decreases |a|
  {
    if a == [] {
      assert a + b == b;
    } else {
      assert (a + b)[1..] == a[1..] + b;
      ApplyConcat(Apply(n, a[0]), a[1..], b);
    }
  }

  // The node after all writes of a pre-pivot run whose reboot does not happen.
  lemma PrePivotDone(n: Node, x: Resource)
    requires StartedStage(x.conds, UpgradeStage) == x.conds
    ensures var ws := PrePivot(n.booted, x, PreRebootFails).0;
            ApplyAll(n, ws) == n.(etcd := n.etcd[n.booted := x],
                                  file := n.file[x.seed := x][n.booted := Failing(x, UpgradeStage)],
                                  default := x.seed)
  {
    var ws := PrePivot(n.booted, x, PreRebootFails).0;
    ApplyNext(n, ws, 0);
    ApplyNext(n, ws, 1);
    ApplyNext(n, ws, 2);
    ApplyNext(n, ws, 3);
    assert ws[..4] == ws;
  }

  // Only a pre-pivot run that got as far as the reboot sets the default to the other stateroot.
  lemma OnlyPrePivotSetsDefault(n: Node, x: Resource, persisted: Conds, env: Env)
    requires x.seed != n.booted && SetDefault(Other(n.booted)) in HandleStage(n, x, persisted, env).0
    ensures InProgressStage(x.conds) == Some(UpgradeStage)
    ensures HandleStage(n, x, persisted, env) == PrePivot(n.booted, x, PreRebootFails)
  {
    match InProgressStage(x.conds)
    case None =>
    case Some(IdleStage) =>
    case Some(PrepStage) =>
    case Some(UpgradeStage) =>
    case Some(RollbackStage) =>
  }

  // A reconcile that survives a write only its fourth handler write can be survived that one too.
  lemma SurvivedTo(first: seq<Write>, ws: seq<Write>, last: Write, w: Write, k: nat)
    requires |ws| == 4 && w !in first && w !in ws[..3]
    requires w in Survived(first + ws + [last], k)
    ensures Survived(first + ws + [last], k) in {first + ws, first + ws + [last]}
  {
    var all := first + ws + [last];
    assert forall i | 0 <= i < |first| + 3 :: all[i] == if i < |first| then first[i] else ws[..3][i - |first|];
    assert k >= |first| + 4;
    assert all[..|first| + 4] == first + ws;
  }

  // The handler writes of a reconcile that gets as far as setting the default.
  lemma PivotHandler(n: Node, x: Resource, persisted: Conds, env: Env, first: seq<Write>, k: nat)
    requires x.seed != n.booted && SetDefault(x.seed) !in first
    requires InProgressStage(x.conds) == Some(UpgradeStage) ==> StartedStage(x.conds, UpgradeStage) == x.conds
    requires var (ws, m) := HandleStage(n, x, persisted, env);
             SetDefault(x.seed) in Survived(first + ws + [PutCR(n.booted, x.(conds := m))], k)
    ensures InProgressStage(x.conds) == Some(UpgradeStage)
    ensures var (ws, m) := HandleStage(n, x, persisted, env);
            && (ws, m) == PrePivot(n.booted, x, PreRebootFails)
            && Survived(first + ws + [PutCR(n.booted, x.(conds := m))], k) in
                 {first + ws, first + ws + [PutCR(n.booted, Failing(x, UpgradeStage))]}
  {
    var (ws, m) := HandleStage(n, x, persisted, env);
    assert SetDefault(x.seed) in ws;
    OnlyPrePivotSetsDefault(n, x, persisted, env);
    SurvivedTo(first, ws, PutCR(n.booted, x.(conds := m)), SetDefault(x.seed), k);
  }

  // Only the resource of stateroot b is written.
  predicate PutsOnly(ws: seq<Write>, b: Slot) {
    forall i | 0 <= i < |ws| :: ws[i].PutCR? && ws[i].slot == b
  }

  lemma {:induction false} PutsApplied(n: Node, ws: seq<Write>, b: Slot)
    requires PutsOnly(ws, b)
    ensures var n' := ApplyAll(n, ws); n'.booted == n.booted && n'.default == n.default && n'.file == n.file
    decreases |ws|
  {
    if ws != [] {
      assert forall i | 0 <= i < |ws[1..]| :: ws[1..][i] == ws[i + 1];
      PutsApplied(Apply(n, ws[0]), ws[1..], b);
    }
  }

  // The node after those writes.
  lemma PivotNode(n: Node, x: Resource, first: seq<Write>, ws: seq<Write>)
    requires PutsOnly(first, n.booted)
    requires StartedStage(x.conds, UpgradeStage) == x.conds
    requires var pre := PrePivot(n.booted, x, PreRebootFails).0;
             ws in {first + pre, first + pre + [PutCR(n.booted, Failing(x, UpgradeStage))]}
    ensures var n' := ApplyAll(n, ws);
            && n'.booted == n.booted
            && n'.file == n.file[x.seed := x][n.booted := Failing(x, UpgradeStage)]
            && n.booted in n'.etcd
            && (|ws| > |first| + 4 ==> n'.etcd[n.booted] == Failing(x, UpgradeStage))
  {
    var pre := PrePivot(n.booted, x, PreRebootFails).0;
    var last := PutCR(n.booted, Failing(x, UpgradeStage));
    PutsApplied(n, first, n.booted);
    PrePivotDone(ApplyAll(n, first), x);
    ApplyConcat(n, first, pre);
    ApplyConcat(n, first + pre, [last]);
    assert ApplyAll(ApplyAll(n, first + pre), [last]) == Apply(ApplyAll(n, first + pre), last);
  }

  // What the writes of a reconcile that survives the set-default leave on the node.
  lemma PivotLeaves(n: Node, x: Resource, persisted: Conds, env: Env, first: seq<Write>, all: seq<Write>, k: nat)
    requires x.seed == Other(n.booted) && PutsOnly(first, n.booted)
    requires InProgressStage(x.conds) == Some(UpgradeStage) ==> StartedStage(x.conds, UpgradeStage) == x.conds
    requires var (ws, m) := HandleStage(n, x, persisted, env); all == first + ws + [PutCR(n.booted, x.(conds := m))]
    requires SetDefault(x.seed) in Survived(all, k)
    ensures var b, n' := n.booted, ApplyAll(n, Survived(all, k));
            && InProgressStage(x.conds) == Some(UpgradeStage)
            && n'.booted == b && b in n'.etcd && n'.file == n.file[x.seed := x][b := Failing(x, UpgradeStage)]
            && (k >= |all| ==> n'.etcd[b] == Failing(x, UpgradeStage))
  {
    PivotHandler(n, x, persisted, env, first, k);
    PivotNode(n, x, first, Survived(all, k));
  }

  // A reconcile on the old stateroot that gets past the set-default of PrePivot before it ends or dies.
  predicate Pivots(m: Machine, e: Event)
    requires Enabled(m, e)
  {
    && e.Reconcile? && m.n.etcd[m.n.booted].seed != m.n.booted
    && SetDefault(Other(m.n.booted)) in Survived(ReconcileWrites(m.n, e.env), e.k)
  }

  // The gate's write and the acceptance, before the handler's writes.
  function FirstWrites(n: Node, env: Env): seq<Write>
    requires n.booted in n.etcd
  {
    var b, cr := n.booted, Gated(n, env);
    GateWrites(n, env) + if Accepts(cr.conds, cr.stage, cr.seed == b) then [PutCR(b, Turned(cr, b))] else []
  }

  lemma PassedShape(n: Node, env: Env)
    requires n.booted in n.etcd && LetThrough(n, env)
    ensures PutsOnly(FirstWrites(n, env), n.booted)
    ensures var b, cr := n.booted, Gated(n, env);
            ReconcileWrites(n, env) ==
              FirstWrites(n, env) + HandleStage(n, Turned(cr, b), cr.conds, env).0
              + [PutCR(b, Turned(cr, b).(conds := EndConds(n, cr, env)))]
  {
    var b, cr := n.booted, Gated(n, env);
    Regroup(GateWrites(n, env), if Accepts(cr.conds, cr.stage, cr.seed == b) then [PutCR(b, Turned(cr, b))] else [],
            HandleStage(n, Turned(cr, b), cr.conds, env).0, [PutCR(b, Turned(cr, b).(conds := EndConds(n, cr, env)))]);
  }

  lemma Regroup(a: seq<Write>, b: seq<Write>, c: seq<Write>, d: seq<Write>)
    ensures a + (b + c + d) == a + b + c + d
  {}

  // From the set-default in PrePivot on, the node is armed, wherever the reconcile crashes.
  lemma PivotArms(m: Machine, e: Event)
    requires SteadyEverywhere(m) && Enabled(m, e) && Pivots(m, e)
    ensures Armed(Step(m, e), m.n.booted)
  {
    var n, cr := m.n, Gated(m.n, e.env);
    var b, x := m.n.booted, Turned(cr, m.n.booted);
    assert LetThrough(n, e.env);
    GateKeeps(n, e.env, Steady, b, Steady);
    UngatedTransition(cr, b, Steady);
    SavedCopies(n, x);
    PassedShape(n, e.env);
    PivotLeaves(n, x, cr.conds, e.env, FirstWrites(n, e.env), ReconcileWrites(n, e.env), e.k);
    ArmedMachine(Step(m, e), x, b);
  }

  lemma ArmedMachine(m: Machine, x: Resource, b: Slot)
    requires x.seed == Other(b) && m.n.booted == b && b in m.n.etcd && x.seed in m.n.file && b in m.n.file
    requires m.n.file[x.seed] == x && m.n.file[b] == Failing(x, UpgradeStage)
    requires m.running ==> m.n.etcd[b] == Failing(x, UpgradeStage)
    requires SavedSat(Pivoted, x, x.seed) && SavedSat(Recovered, Failing(x, UpgradeStage), b)
    ensures Armed(m, b)
  {}

  // A controller that runs on the old stateroot while armed finds a failed upgrade and does not
  // work on it, whatever the gate says next.
  lemma ArmedAtHome(m: Machine, home: Slot, v: GateVerdict)
    requires Armed(m, home) && m.running && m.n.booted == home
    ensures home in m.n.etcd
    ensures var x := m.n.etcd[home];
            && StageFailed(x.conds, UpgradeStage) && !StageInProgress(x.conds, UpgradeStage)
            && InProgressStage(Transitioned(Gate(x.conds, x.stage, v).1, x.stage, x.seed == home)) != Some(UpgradeStage)
  {
    var x := m.n.etcd[home];
    var m0 := Gate(x.conds, x.stage, v).1;
    GateConsistent(x.conds, x.stage, v);
    if x.stage.IdleStage? && Accepts(m0, IdleStage, x.seed == home) { RecoveredIdle(m0, x.seed == home); }
    else { RecoveredTransition(m0, x.stage, x.seed == home); }
  }

  // The stateroot the upgrade has left: since the last set-default of a PrePivot, if since then no
  // Idle transition has been accepted and the seed image has not been changed during the upgrade.
  function HomeAfter(m: Machine, home: Option<Slot>, e: Event): Option<Slot>
    requires Enabled(m, e)
  {
    if Pivots(m, e) then Some(m.n.booted)
    else if AcceptedBy(m, e, IdleStage) || (home.Some? && Reseeds(m, e, home.value)) then None
    else home
  }

  ghost function Home(m: Machine, home: Option<Slot>, es: seq<Event>, allowed: (Machine, Event) -> bool): Option<Slot>
    requires Run(m, es, allowed)
    decreases |es|
  {
    if es == [] then home else Home(Step(m, es[0]), HomeAfter(m, home, es[0]), es[1..], allowed)
  }

  lemma StepHome(m: Machine, home: Option<Slot>, e: Event)
    requires SteadyEverywhere(m) && Enabled(m, e) && (home.Some? ==> Armed(m, home.value))
    ensures var home' := HomeAfter(m, home, e); home'.Some? ==> Armed(Step(m, e), home'.value)
  {
    if Pivots(m, e) {
      PivotArms(m, e);
    } else if home.Some? && !AcceptedBy(m, e, IdleStage) && !Reseeds(m, e, home.value) {
      StepArmed(m, e, home.value, home.value);
      StepArmed(m, e, home.value, Other(home.value));
    }
  }

  lemma {:induction false} ArmedRun(m: Machine, home: Option<Slot>, es: seq<Event>, allowed: (Machine, Event) -> bool)
    requires SteadyEverywhere(m) && (home.Some? ==> Armed(m, home.value)) && Run(m, es, allowed)
    ensures var h := Home(m, home, es, allowed); h.Some? ==> Armed(Final(m, es, allowed), h.value)
    decreases |es|
  {
    if es != [] {
      StepSteady(m, es[0], A);
      StepSteady(m, es[0], B);
      StepHome(m, home, es[0]);
      ArmedRun(Step(m, es[0]), HomeAfter(m, home, es[0]), es[1..], allowed);
    }
  }

  // The crash-safe pivot. In every run from the first boot, whatever the gate says and the user edits,
  // from a set-default of PrePivot until an Idle transition is accepted (or the user changes the seed
  // image on the new stateroot before its upgrade is over), a controller that runs on the old
  // stateroot finds the upgrade failed, never in progress, and does not enter PrePivot again.
  lemma CrashSafePivot(es: seq<Event>)
    requires Run(INITIAL, es, Anything)
    ensures var f, home := Final(INITIAL, es, Anything), Home(INITIAL, None, es, Anything);
            f.running && home == Some(f.n.booted) ==>
              && f.n.booted in f.n.etcd
              && var x := f.n.etcd[f.n.booted];
              && StageFailed(x.conds, UpgradeStage) && !StageInProgress(x.conds, UpgradeStage)
              && forall v: GateVerdict ::
                   InProgressStage(Transitioned(Gate(x.conds, x.stage, v).1, x.stage, x.seed == f.n.booted)) != Some(UpgradeStage)
  {
    InitialInv();
    ArmedRun(INITIAL, None, es, Anything);
    var f, home := Final(INITIAL, es, Anything), Home(INITIAL, None, es, Anything);
    if f.running && home == Some(f.n.booted) {
      forall v: GateVerdict
        ensures var x := f.n.etcd[f.n.booted];
                InProgressStage(Transitioned(Gate(x.conds, x.stage, v).1, x.stage, x.seed == f.n.booted)) != Some(UpgradeStage)
      {
        ArmedAtHome(f, f.n.booted, v);
      }
      ArmedAtHome(f, f.n.booted, Absent);
    }
  }

  // In a tame run the gate writes nothing, and an acceptance is persisted by the first write.
  lemma TameAcceptance(m: Machine, e: Event, s: Stage)
    requires Enabled(m, e) && Tame(m, e)
    requires e.Reconcile? ==> SoundResource(m.n.etcd[m.n.booted], m.n.booted)
    ensures AcceptedBy(m, e, s) <==> e.Reconcile? && e.k > 0 && AcceptsNow(m.n, s)
  {
    if e.Reconcile? {
      SoundReconcile(m.n, e.env);
      ReconcileShape(m.n, e.env);
    }
  }
}
