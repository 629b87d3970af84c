/**
 Runs after an abort or a finalize has started: what the cleanup leaves cannot be rolled back to.
 */
module SettledRuns {
  import opened Prelude
  import opened Conditions
  import opened Lifecycle
  import opened Pivot
  import opened PivotRuns

  // The resource that speaks for a stateroot when it is booted: its saved copy when there is one.
  function Speaks(n: Node, s: Slot): Resource
    requires Present(n, s)
  {
    if s in n.file then n.file[s] else n.etcd[s]
  }

  // The node is on the stateroot that is upgraded to, and has neither finalized nor aborted.
  predicate UnderUpgrade(n: Node) {
    Present(n, n.booted) && Speaks(n, n.booted).seed == n.booted && Ongoing(Speaks(n, n.booted).conds)
  }

  // A tame step in which the node boots what it is set to boot, and rolls back automatically only
  // while under upgrade.
  predicate Follows(m: Machine, e: Event) {
    Tame(m, e) && (e.Reboot? ==> e.target == m.n.default) && (e.AutoRollback? ==> UnderUpgrade(m.n))
  }

  // The transitions to the stages ss are accepted in this order during the run.
  ghost predicate AcceptsInOrder(m: Machine, es: seq<Event>, ss: seq<Stage>, allowed: (Machine, Event) -> bool)
    requires Run(m, es, allowed)
    decreases |es|
  {
    || ss == []
    || (es != [] && AcceptsInOrder(Step(m, es[0]), es[1..], if AcceptedBy(m, es[0], ss[0]) then ss[1..] else ss, allowed))
  }

  // ----- reconciles of a quiet resource -----

  predicate Quiet(c: Claim) {
    c.Calm? || c.Closed?
  }

  // The stage whose acceptance ends the claim.
  function Ends(c: Claim): Stage
    requires Quiet(c)
  {
    if c.Calm? then UpgradeStage else PrepStage
  }

  function OrSpent(c: Claim): Claim
    requires Quiet(c)
  {
    if c.Calm? then CalmOrSpent else ClosedOrSpent
  }

  // The handler of the resource x of stateroot b has no pivot to make.
  predicate NoPivot(x: Resource, b: Slot) {
    && InProgressStage(x.conds) != Some(UpgradeStage)
    && (InProgressStage(x.conds) == Some(RollbackStage) ==> x.seed != b)
  }

  // A resource at rest is calm when Prep is accepted.
  lemma PrepTransition(x: Resource, b: Slot)
    requires Sat(Ended, x, b) && AcceptsFrom(x, b, PrepStage)
    ensures CalmResource(Turned(x, b), b) && NoPivot(Turned(x, b), b)
  {
    TransitionGood(x.conds, x.stage, false);
  }

  // It stays at rest as long as Prep is not.
  lemma EndedTransition(x: Resource, b: Slot)
    requires Sat(Ended, x, b) && !AcceptsFrom(x, b, PrepStage)
    ensures Sat(Ended, Turned(x, b), b) && NoPivot(Turned(x, b), b)
  {
    TransitionGood(x.conds, x.stage, x.seed == b);
  }

  // Started on the old stateroot, it is not upgraded until Upgrade is accepted.
  lemma CalmTransition(x: Resource, b: Slot)
    requires CalmResource(x, b) && Ongoing(x.conds) && !AcceptsFrom(x, b, UpgradeStage)
    ensures CalmResource(Turned(x, b), b) && NoPivot(Turned(x, b), b)
  {
    TransitionGood(x.conds, x.stage, false);
  }

  // With a failed upgrade there, only Idle is accepted.
  lemma ClosedTransition(x: Resource, b: Slot)
    requires ClosedResource(x, b) && Ongoing(x.conds)
    ensures ClosedResource(Turned(x, b), b) && NoPivot(Turned(x, b), b)
  {
    TransitionGood(x.conds, x.stage, false);
  }

  lemma QuietResult(x: Resource, persisted: Resource, b: Slot, c: Claim, r: Conds)
    requires Quiet(c) && Sat(c, x, b) && Sat(c, persisted, b) && persisted.seed == x.seed && persisted.stage == x.stage
    requires InProgressStage(x.conds) != Some(UpgradeStage)
    requires StageResult(x.conds, persisted.conds, x.seed == b, r) && SoundResource(x.(conds := r), b)
    ensures Sat(c, x.(conds := r), b)
  {}

  // What a reconcile persists satisfies the claim, and its handler has no pivot to make.
  predicate QuietEnds(n: Node, env: Env, c: Claim)
    requires n.booted in n.etcd
  {
    var x := Transition(n);
    Sat(c, x, n.booted) && Sat(c, x.(conds := FinalConds(n, env)), n.booted) && NoPivot(x, n.booted)
  }

  // A reconcile keeps the claim unless it accepts the stage that ends it.
  lemma QuietReconcile(n: Node, env: Env, c: Claim)
    requires Quiet(c) && env.gate.Released? && Live(n, n.booted, c)
    requires !AcceptsNow(n, Ends(c))
    ensures QuietEnds(n, env, c)
  {
    var cr := n.etcd[n.booted];
    if AcceptsNow(n, PrepStage) && !Ongoing(cr.conds) { PrepTransition(cr, n.booted); }
    else if !Ongoing(cr.conds) { EndedTransition(cr, n.booted); }
    else if c.Calm? { CalmTransition(cr, n.booted); }
    else { ClosedTransition(cr, n.booted); }
    SoundReconcile(n, env);
    QuietResult(Transition(n), cr, n.booted, c, FinalConds(n, env));
  }

  // Its writes keep the claim of either stateroot.
  lemma QuietWrites(n: Node, env: Env, s: Slot, c: Claim)
    requires n.booted in n.etcd && SoundResource(n.etcd[n.booted], n.booted) && env.gate.Released?
    requires QuietEnds(n, env, c)
    ensures AllOk(ReconcileWrites(n, env), s, c)
  {
    ReconcileOk(n, env, s, c);
  }

  // Without an upgrade, and with a rollback only on the stateroot it leads to, no default is set.
  lemma QuietHandler(n: Node, x: Resource, persisted: Conds, env: Env)
    requires NoPivot(x, n.booted)
    ensures forall w | w in HandleStage(n, x, persisted, env).0 :: w == DelRoot(Other(n.booted))
  {
    match InProgressStage(x.conds)
    case None =>
    case Some(IdleStage) =>
    case Some(PrepStage) =>
    case Some(UpgradeStage) =>
    case Some(RollbackStage) =>
  }

  // Resources are written, and the other stateroot may be removed.
  predicate Local(ws: seq<Write>, b: Slot) {
    forall i | 0 <= i < |ws| :: ws[i].PutCR? || ws[i] == DelRoot(Other(b))
  }

  lemma NoDefaultSet(n: Node, env: Env, k: nat)
    requires n.booted in n.etcd && SoundResource(n.etcd[n.booted], n.booted) && env.gate.Released?
    requires NoPivot(Transition(n), n.booted)
    ensures Local(Survived(ReconcileWrites(n, env), k), n.booted)
  {
    var b, x := n.booted, Transition(n);
    SoundReconcile(n, env);
    ReconcileShape(n, env);
    QuietHandler(n, x, n.etcd[b].conds, env);
    AroundLocal(b, if AcceptsNow(n, x.stage) then [PutCR(b, x)] else [],
                HandleStage(n, x, n.etcd[b].conds, env).0, PutCR(b, x.(conds := FinalConds(n, env))));
  }

  lemma AroundLocal(b: Slot, accepted: seq<Write>, ws: seq<Write>, last: Write)
    requires last.PutCR? && |accepted| <= 1 && (accepted != [] ==> accepted[0].PutCR?)
    requires forall w | w in ws :: w == DelRoot(Other(b))
    ensures Local(accepted + ws + [last], b)
  {
    var all := accepted + ws + [last];
    forall i | 0 <= i < |all| ensures all[i].PutCR? || all[i] == DelRoot(Other(b)) {
      if |accepted| <= i < |accepted| + |ws| { assert all[i] == ws[i - |accepted|] && ws[i - |accepted|] in ws; }
    }
  }

  // Local writes leave the default and the saved copy of the booted stateroot.
  lemma {:induction false} LocalKeeps(n: Node, ws: seq<Write>)
    requires Local(ws, n.booted)
    ensures var n', b := ApplyAll(n, ws), n.booted;
            && n'.booted == b && (n.default == b ==> n'.default == b)
            && (b in n'.file <==> b in n.file) && (b in n.file ==> n'.file[b] == n.file[b])
    decreases |ws|
  {
    if ws != [] {
      assert forall i | 0 <= i < |ws[1..]| :: ws[1..][i] == ws[i + 1];
      LocalKeeps(Apply(n, ws[0]), ws[1..]);
    }
  }

  // ----- reconciles of a resource whose rollback has begun -----

  lemma SpentTransition(x: Resource, b: Slot)
    requires SpentResource(x, b)
    ensures SpentResource(Turned(x, b), b) && InProgressStage(Turned(x, b).conds) in {None, Some(RollbackStage)}
  {
    TransitionGood(x.conds, x.stage, true);
  }

  lemma SpentResult(x: Resource, persisted: Conds, b: Slot, r: Conds)
    requires SpentResource(x, b) && InProgressStage(x.conds) in {None, Some(RollbackStage)}
    requires StageResult(x.conds, persisted, true, r) && SoundResource(x.(conds := r), b)
    ensures SpentResource(x.(conds := r), b)
  {}

  // It goes on with its rollback, and what it saves for the other stateroot is closed.
  lemma SpentWrites(n: Node, env: Env, s: Slot, c: Claim)
    requires n.booted in n.etcd && SpentResource(n.etcd[n.booted], n.booted) && env.gate.Released?
    requires c.CalmOrSpent? || c.ClosedOrSpent?
    ensures AllOk(ReconcileWrites(n, env), s, c)
  {
    var cr, x := n.etcd[n.booted], Transition(n);
    SpentTransition(cr, n.booted);
    SoundReconcile(n, env);
    SpentResult(x, cr.conds, n.booted, FinalConds(n, env));
    SoundCopies(n, x);
    SavedCopies(n, x);
    ReconcileOk(n, env, s, c);
  }

  // ----- settled nodes -----

  // The node is, and stays, on stateroot s, whose resource satisfies the claim.
  predicate Settled(m: Machine, s: Slot, c: Claim) {
    m.n.booted == s && m.n.default == s && Holds(m, s, c)
  }

  // No stateroot has a rollback to offer.
  predicate Both(m: Machine, c: Claim)
    requires Quiet(c)
  {
    Holds(m, A, OrSpent(c)) && Holds(m, B, OrSpent(c))
  }

  // No stateroot has, or the node is settled and the runs follow its default.
  ghost predicate Safe(m: Machine, c: Claim, allowed: (Machine, Event) -> bool)
    requires Quiet(c)
  {
    || (Both(m, c) && forall m', e | allowed(m', e) :: Tame(m', e))
    || (Settled(m, m.n.booted, c) && forall m', e | allowed(m', e) :: Follows(m', e))
  }

  lemma QuietEdit(x: Resource, b: Slot, stage: Stage, seed: Slot, c: Claim)
    requires Sat(c, x, b) && (Quiet(c) || c.CalmOrSpent? || c.ClosedOrSpent?)
    requires seed == x.seed || (IsTrue(x.conds, Idle) && seed != b)
    requires stage.PrepStage? && seed == b ==> Ongoing(x.conds)
    ensures Sat(c, x.(stage := stage, seed := seed), b)
  {
    EditSound(x, b, stage, seed);
  }

  lemma StepSettled(m: Machine, e: Event, s: Slot, c: Claim)
    requires Quiet(c) && Settled(m, s, c) && Enabled(m, e) && Follows(m, e) && !AcceptedBy(m, e, Ends(c))
    ensures Settled(Step(m, e), s, c)
  {
    var n := m.n;
    match e
    case Start(k) =>
      InitKeeps(n, k, s, c);
    case Reconcile(env, k) =>
      TameAcceptance(m, e, Ends(c));
      if k > 0 {
        QuietReconcile(n, env, c);
        QuietWrites(n, env, s, c);
        NoDefaultSet(n, env, k);
        SurvivedOk(ReconcileWrites(n, env), k, s, c);
      }
      LocalKeeps(n, Survived(ReconcileWrites(n, env), k));
      ReconcileHolds(m, env, k, s, c);
    case AutoRollback(stop, k) =>
      NotUnderUpgrade(n, s, c);
    case Edit(stage, seed) =>
      if Sat(c, n.etcd[s], s) { QuietEdit(n.etcd[s], s, stage, seed, c); }
    case _ =>
  }

  lemma NotUnderUpgrade(n: Node, s: Slot, c: Claim)
    requires Quiet(c) && n.booted == s && NodeHolds(n, s, c)
    ensures !UnderUpgrade(n)
  {}

  // A step, to any stateroot and with any automatic rollback, leaves none with a rollback to offer.
  lemma StepBoth(m: Machine, e: Event, s: Slot, c: Claim)
    requires Quiet(c) && Both(m, c)
    requires Enabled(m, e) && Tame(m, e) && !AcceptedBy(m, e, Ends(c))
    ensures Holds(Step(m, e), s, OrSpent(c))
  {
    var n, d := m.n, OrSpent(c);
    match e
    case Start(k) =>
      InitKeeps(n, k, s, d);
    case Reconcile(env, k) =>
      TameAcceptance(m, e, Ends(c));
      if k > 0 {
        BothWrites(n, env, s, c);
        SurvivedOk(ReconcileWrites(n, env), k, s, d);
      }
      ReconcileHolds(m, env, k, s, d);
    case AutoRollback(stop, k) =>
      AutoRollbackKeeps(n, stop, k, s, d);
    case Edit(stage, seed) =>
      if n.booted == s && Sat(d, n.etcd[s], s) { QuietEdit(n.etcd[s], s, stage, seed, d); }
    case _ =>
  }

  lemma BothWrites(n: Node, env: Env, s: Slot, c: Claim)
    requires Quiet(c) && env.gate.Released? && Live(n, n.booted, OrSpent(c)) && !AcceptsNow(n, Ends(c))
    ensures AllOk(ReconcileWrites(n, env), s, OrSpent(c))
  {
    if SpentResource(n.etcd[n.booted], n.booted) {
      SpentWrites(n, env, s, OrSpent(c));
    } else {
      QuietReconcile(n, env, c);
      QuietWrites(n, env, s, OrSpent(c));
    }
  }

  lemma StepSafe(m: Machine, e: Event, c: Claim, allowed: (Machine, Event) -> bool)
    requires Quiet(c) && Safe(m, c, allowed) && Enabled(m, e) && allowed(m, e) && !AcceptedBy(m, e, Ends(c))
    ensures Safe(Step(m, e), c, allowed)
  {
    if Both(m, c) && Tame(m, e) {
      StepBoth(m, e, A, c);
      StepBoth(m, e, B, c);
    }
    if Settled(m, m.n.booted, c) && Follows(m, e) { StepSettled(m, e, m.n.booted, c); }
  }

  lemma ClosedIsCalm(m: Machine, allowed: (Machine, Event) -> bool)
    requires Safe(m, Closed, allowed)
    ensures Safe(m, Calm, allowed)
  {}

  lemma NothingToRollBack(x: Resource, b: Slot)
    requires Sat(CalmOrSpent, x, b)
    ensures !Accepts(x.conds, RollbackStage, x.seed == b)
  {}

  lemma NoneOffered(m: Machine, allowed: (Machine, Event) -> bool)
    requires Safe(m, Calm, allowed) && m.running
    ensures !AcceptsNow(m.n, RollbackStage)
  {
    NothingToRollBack(m.n.etcd[m.n.booted], m.n.booted);
  }

  lemma {:induction false} UpgradeBeforeRollback(m: Machine, es: seq<Event>, allowed: (Machine, Event) -> bool)
    requires Safe(m, Calm, allowed) && Run(m, es, allowed)
    ensures var f := Final(m, es, allowed);
            f.running && AcceptsNow(f.n, RollbackStage) ==> AcceptsInOrder(m, es, [UpgradeStage], allowed)
    decreases |es|
  {
    if es == [] {
      if m.running { NoneOffered(m, allowed); }
    } else if !AcceptedBy(m, es[0], UpgradeStage) {
      StepSafe(m, es[0], Calm, allowed);
      UpgradeBeforeRollback(Step(m, es[0]), es[1..], allowed);
    }
  }

  lemma {:induction false} PrepAndUpgradeBeforeRollback(m: Machine, es: seq<Event>, allowed: (Machine, Event) -> bool)
    requires Safe(m, Closed, allowed) && Run(m, es, allowed)
    ensures var f := Final(m, es, allowed);
            f.running && AcceptsNow(f.n, RollbackStage) ==> AcceptsInOrder(m, es, [PrepStage, UpgradeStage], allowed)
    decreases |es|
  {
    ClosedIsCalm(m, allowed);
    if es == [] {
      if m.running { NoneOffered(m, allowed); }
    } else if AcceptedBy(m, es[0], PrepStage) {
      StepSafe(m, es[0], Calm, allowed);
      UpgradeBeforeRollback(Step(m, es[0]), es[1..], allowed);
    } else {
      StepSafe(m, es[0], Closed, allowed);
      PrepAndUpgradeBeforeRollback(Step(m, es[0]), es[1..], allowed);
    }
  }

  // ----- accepting Idle -----

  // Claims of a resource that Idle has been accepted of.
  predicate Idling(c: Claim) {
    c.Ended? || c.Closed? || c.ClosedOrSpent?
  }

  lemma EndedIdling(x: Resource, s: Slot, c: Claim)
    requires Sat(Ended, x, s) && Idling(c)
    ensures Sat(c, x, s)
  {}

  lemma EndedResult(x: Conds, persisted: Conds, after: bool, r: Conds)
    requires InProgressStage(x) in {None, Some(IdleStage)} && !Ongoing(x) && StageResult(x, persisted, after, r)
    ensures !Ongoing(r)
  {}

  lemma IdleAccepted(n: Node, env: Env, c: Claim)
    requires n.booted in n.etcd && SoundResource(n.etcd[n.booted], n.booted) && AcceptsNow(n, IdleStage)
    requires Idling(c)
    ensures QuietEnds(n, env, c)
  {
    var b, cr, x := n.booted, n.etcd[n.booted], Transition(n);
    SoundReconcile(n, env);
    AcceptedIsInProgress(cr.conds, IdleStage, cr.seed == b);
    EndedResult(x.conds, cr.conds, x.seed == b, FinalConds(n, env));
    EndedIdling(x, b, c);
    EndedIdling(x.(conds := FinalConds(n, env)), b, c);
  }

  // The writes of a reconcile that accepts Idle, when it survives the acceptance.
  lemma AcceptanceFirst(n: Node, env: Env, k: nat, s: Slot, c: Claim)
    requires n.booted in n.etcd && SoundResource(n.etcd[n.booted], n.booted) && env.gate.Released?
    requires AcceptsNow(n, IdleStage) && k > 0 && Idling(c)
    ensures var b, x, ws := n.booted, Transition(n), Survived(ReconcileWrites(n, env), k);
            && ws != [] && ws[0] == PutCR(b, x) && Sat(c, x, b)
            && AllOk(ws[1..], s, c) && Spares(ws[1..], b)
  {
    IdleAccepted(n, env, c);
    QuietWrites(n, env, s, c);
    SoundReconcile(n, env);
    ReconcileShape(n, env);
    ReconcileSpares(n, env);
    SurvivedOk(ReconcileWrites(n, env), k, s, c);
    var ws := Survived(ReconcileWrites(n, env), k);
    assert ReconcileWrites(n, env)[0] == PutCR(n.booted, Transition(n));
    assert forall i | 0 <= i < |ws[1..]| :: ws[1..][i] == ws[i + 1];
  }

  lemma PersistedFirst(n: Node, x: Resource, s: Slot, c: Claim)
    requires Sat(c, x, n.booted)
    requires if s == n.booted then s in n.file ==> SavedSat(c, n.file[s], s) else NodeHolds(n, s, c)
    ensures var n1 := Apply(n, PutCR(n.booted, x)); NodeHolds(n1, s, c) && (s == n.booted ==> Live(n1, s, c))
  {}

  // Wherever the reconcile crashes afterwards, the claim holds of the stateroot, given its saved copy.
  lemma IdlePersisted(m: Machine, e: Event, s: Slot, c: Claim)
    requires Inv(m) && Enabled(m, e) && Tame(m, e) && AcceptedBy(m, e, IdleStage) && Idling(c)
    requires if s == m.n.booted then s in m.n.file ==> SavedSat(c, m.n.file[s], s) else NodeHolds(m.n, s, c)
    ensures Holds(Step(m, e), s, c) && (s == m.n.booted ==> Live(Step(m, e).n, s, c))
  {
    var n, ws := m.n, Survived(ReconcileWrites(m.n, e.env), e.k);
    TameAcceptance(m, e, IdleStage);
    AcceptanceFirst(n, e.env, e.k, s, c);
    PersistedFirst(n, Transition(n), s, c);
    WritesKeep(Apply(n, ws[0]), ws[1..], s, c);
  }

  // It writes locally.
  lemma IdleWrites(m: Machine, e: Event)
    requires Inv(m) && Enabled(m, e) && Tame(m, e) && AcceptedBy(m, e, IdleStage)
    ensures Local(Survived(ReconcileWrites(m.n, e.env), e.k), m.n.booted)
  {
    TameAcceptance(m, e, IdleStage);
    IdleAccepted(m.n, e.env, Ended);
    NoDefaultSet(m.n, e.env, e.k);
  }

  // The other stateroot has no rollback to offer.
  predicate NoOffer(n: Node) {
    NodeHolds(n, Other(n.booted), ClosedOrSpent)
  }

  // Then accepting Idle leaves none with one, wherever the reconcile crashes afterwards.
  lemma IdleClosesBoth(m: Machine, e: Event)
    requires Inv(m) && Enabled(m, e) && Tame(m, e) && AcceptedBy(m, e, IdleStage) && NoOffer(m.n)
    ensures Both(Step(m, e), Closed)
  {
    IdlePersisted(m, e, m.n.booted, ClosedOrSpent);
    IdlePersisted(m, e, Other(m.n.booted), ClosedOrSpent);
  }

  // And on the stateroot that is set to boot it settles the node.
  lemma IdleSettles(m: Machine, e: Event)
    requires Inv(m) && Enabled(m, e) && Tame(m, e) && AcceptedBy(m, e, IdleStage) && m.n.default == m.n.booted
    ensures Settled(Step(m, e), m.n.booted, Closed)
  {
    IdlePersisted(m, e, m.n.booted, Closed);
    IdleWrites(m, e);
    LocalKeeps(m.n, Survived(ReconcileWrites(m.n, e.env), e.k));
  }

  // No run after accepting Idle reaches a rollback without a new Prep and Upgrade.
  ghost predicate NeverRolledBack(m: Machine, allowed: (Machine, Event) -> bool) {
    forall e: Event, after: seq<Event> |
      Enabled(m, e) && allowed(m, e) && AcceptedBy(m, e, IdleStage) && Run(Step(m, e), after, allowed) ::
      var f := Final(Step(m, e), after, allowed);
      f.running && AcceptsNow(f.n, RollbackStage) ==> AcceptsInOrder(Step(m, e), after, [PrepStage, UpgradeStage], allowed)
  }

  lemma SafeNeverRolledBack(m: Machine, allowed: (Machine, Event) -> bool)
    requires forall e | Enabled(m, e) && allowed(m, e) && AcceptedBy(m, e, IdleStage) :: Safe(Step(m, e), Closed, allowed)
    ensures NeverRolledBack(m, allowed)
  {
    forall e: Event, after: seq<Event> |
      Enabled(m, e) && allowed(m, e) && AcceptedBy(m, e, IdleStage) && Run(Step(m, e), after, allowed)
      ensures var f := Final(Step(m, e), after, allowed);
              f.running && AcceptsNow(f.n, RollbackStage) ==>
                AcceptsInOrder(Step(m, e), after, [PrepStage, UpgradeStage], allowed)
    {
      PrepAndUpgradeBeforeRollback(Step(m, e), after, allowed);
    }
  }

  // With no rollback to offer that is so whatever the node boots and rolls back automatically; on the
  // stateroot set to boot it is so as long as the node follows its default.
  lemma NoOfferNeverRolledBack(m: Machine, allowed: (Machine, Event) -> bool)
    requires Inv(m) && NoOffer(m.n) && forall m', e | allowed(m', e) :: Tame(m', e)
    ensures NeverRolledBack(m, allowed)
  {
    forall e | Enabled(m, e) && allowed(m, e) && AcceptedBy(m, e, IdleStage) ensures Safe(Step(m, e), Closed, allowed) {
      IdleClosesBoth(m, e);
    }
    SafeNeverRolledBack(m, allowed);
  }

  lemma DefaultNeverRolledBack(m: Machine)
    requires Inv(m) && m.n.default == m.n.booted
    ensures NeverRolledBack(m, Follows)
  {
    forall e | Enabled(m, e) && Follows(m, e) && AcceptedBy(m, e, IdleStage) ensures Safe(Step(m, e), Closed, Follows) {
      IdleSettles(m, e);
      BootedKept(m.n, Survived(ReconcileWrites(m.n, e.env), e.k));
    }
    SafeNeverRolledBack(m, Follows);
  }

  // ----- when the other stateroot has a rollback to offer -----

  // Booted, stateroot s would accept a rollback.
  predicate OffersRollback(n: Node, s: Slot) {
    Present(n, s) && Accepts(Speaks(n, s).conds, RollbackStage, Speaks(n, s).seed == s)
  }

  // The node is set to boot the other stateroot, which offers a rollback.
  predicate Exposed(n: Node) {
    n.default == Other(n.booted) && OffersRollback(n, Other(n.booted))
  }

  lemma NotOffered(x: Resource, s: Slot)
    requires SoundResource(x, s) && (Sat(Recovered, x, s) || Sat(Pivoted, x, s))
    requires !Accepts(x.conds, RollbackStage, x.seed == s)
    ensures Sat(ClosedOrSpent, x, s)
  {}

  lemma NotOffering(m: Machine, home: Slot)
    requires Inv(m) && Armed(m, home) && !OffersRollback(m.n, Other(m.n.booted))
    ensures NoOffer(m.n)
  {
    var o := Other(m.n.booted);
    NotOffered(Speaks(m.n, o), o);
  }

  // No rollback after cleanup. Take any run from the first boot and a reconcile that accepts Idle,
  // starting an abort or a finalize, while the booted stateroot is also set to boot, or after a pivot
  // while the node is not exposed. In any run from there a Rollback transition is accepted only after
  // a Prep and then an Upgrade have been accepted.
  lemma NoRollbackAfterCleanup(before: seq<Event>, e: Event, after: seq<Event>)
    requires Run(INITIAL, before, Tame)
    requires var m, home := Final(INITIAL, before, Tame), Home(INITIAL, None, before, Tame);
             && Enabled(m, e) && Follows(m, e) && AcceptedBy(m, e, IdleStage)
             && (m.n.default == m.n.booted || (home.Some? && !Exposed(m.n)))
             && Run(Step(m, e), after, Follows)
    ensures var m := Step(Final(INITIAL, before, Tame), e);
            var f := Final(m, after, Follows);
            f.running && AcceptsNow(f.n, RollbackStage) ==> AcceptsInOrder(m, after, [PrepStage, UpgradeStage], Follows)
  {
    var m, home := Final(INITIAL, before, Tame), Home(INITIAL, None, before, Tame);
    InitialInv();
    NoDeadEndInEveryRun(INITIAL, before);
    ArmedRun(INITIAL, None, before, Tame);
    if m.n.default == m.n.booted {
      DefaultNeverRolledBack(m);
    } else {
      NotOffering(m, home.value);
      NoOfferNeverRolledBack(m, Follows);
    }
  }

  // After a pivot, when the other stateroot offers no rollback, the same is true of every tame run:
  // whichever stateroot is booted later, and whenever an automatic rollback happens. In particular
  // when Idle is accepted on the new stateroot after an upgrade or a rollback that failed there.
  lemma NoRollbackWhateverBoots(before: seq<Event>, e: Event, after: seq<Event>)
    requires Run(INITIAL, before, Tame)
    requires var m, home := Final(INITIAL, before, Tame), Home(INITIAL, None, before, Tame);
             && Enabled(m, e) && Tame(m, e) && AcceptedBy(m, e, IdleStage)
             && home.Some? && !OffersRollback(m.n, Other(m.n.booted))
             && Run(Step(m, e), after, Tame)
    ensures var m := Step(Final(INITIAL, before, Tame), e);
            var f := Final(m, after, Tame);
            f.running && AcceptsNow(f.n, RollbackStage) ==> AcceptsInOrder(m, after, [PrepStage, UpgradeStage], Tame)
  {
    var m, home := Final(INITIAL, before, Tame), Home(INITIAL, None, before, Tame);
    InitialInv();
    NoDeadEndInEveryRun(INITIAL, before);
    ArmedRun(INITIAL, None, before, Tame);
    NotOffering(m, home.value);
    NoOfferNeverRolledBack(m, Tame);
  }

  const QUIET_ENV := Env(Released, true, true, false, PrepWaits, PreWaits, PostWaits, RollbackPrepareFails, CleanupOk)

  // An abort is accepted while the other stateroot offers a rollback, and the node goes down before
  // the cleanup.
  const ABORT_CRASH := Reconcile(QUIET_ENV, 1)

  function BootOther(n: Node): seq<Event>
    requires Present(n, Other(n.booted))
  {
    var o := Other(n.booted);
    [Reboot(o), Start(4), Edit(RollbackStage, Speaks(n, o).seed)]
  }

  lemma AbortCrashStep(m: Machine)
    requires Inv(m) && m.running && AcceptsNow(m.n, IdleStage)
    ensures Enabled(m, ABORT_CRASH) && Follows(m, ABORT_CRASH) && AcceptedBy(m, ABORT_CRASH, IdleStage)
    ensures var f := Step(m, ABORT_CRASH); f.n == Apply(m.n, PutCR(m.n.booted, Transition(m.n)))
  {
    TameAcceptance(m, ABORT_CRASH, IdleStage);
    FirstWriteOnly(m.n, QUIET_ENV);
  }

  // A reconcile that dies after its first write has only persisted the acceptance of Idle.
  lemma FirstWriteOnly(n: Node, env: Env)
    requires n.booted in n.etcd && SoundResource(n.etcd[n.booted], n.booted) && env.gate.Released?
    requires AcceptsNow(n, IdleStage)
    ensures ApplyAll(n, Survived(ReconcileWrites(n, env), 1)) == Apply(n, PutCR(n.booted, Transition(n)))
  {
    var b, x := n.booted, Transition(n);
    SoundReconcile(n, env);
    ReconcileShape(n, env);
    AroundFirst(PutCR(b, x), HandleStage(n, x, n.etcd[b].conds, env).0, PutCR(b, x.(conds := FinalConds(n, env))));
    ApplyNext(n, ReconcileWrites(n, env), 0);
  }

  lemma AroundFirst(first: Write, ws: seq<Write>, last: Write)
    ensures var all := [first] + ws + [last]; |all| >= 2 && all[0] == first && Survived(all, 1) == [first] == all[..0 + 1]
  {}

  // A run of three steps.
  lemma ThreeSteps(c: Machine, es: seq<Event>, c1: Machine, c2: Machine, c3: Machine, allowed: (Machine, Event) -> bool)
    requires |es| == 3
    requires Enabled(c, es[0]) && allowed(c, es[0]) && Step(c, es[0]) == c1
    requires Enabled(c1, es[1]) && allowed(c1, es[1]) && Step(c1, es[1]) == c2
    requires Enabled(c2, es[2]) && allowed(c2, es[2]) && Step(c2, es[2]) == c3
    ensures Run(c, es, allowed) && Final(c, es, allowed) == c3
  {
    assert es[1..] == [es[1], es[2]] && [es[1], es[2]][1..] == [es[2]] && [es[2]][1..] == [];
    assert Run(c3, [], allowed);
    assert Run(c2, [es[2]], allowed) && Final(c2, [es[2]], allowed) == c3;
    assert Run(c1, es[1..], allowed) && Final(c1, es[1..], allowed) == c3;
  }

  // Booting the other stateroot makes the resource that speaks for it the one the controller works
  // on, for which a rollback can then be asked.
  lemma BootOtherRun(c: Machine)
    requires OffersRollback(c.n, Other(c.n.booted))
    ensures Run(c, BootOther(c.n), Tame)
    ensures var f := Final(c, BootOther(c.n), Tame); f.running && AcceptsNow(f.n, RollbackStage)
    ensures c.n.default == Other(c.n.booted) ==>
              Run(c, BootOther(c.n), Follows) && Final(c, BootOther(c.n), Follows) == Final(c, BootOther(c.n), Tame)
  {
    var o, es := Other(c.n.booted), BootOther(c.n);
    var c1 := Step(c, es[0]);
    InitPrefix(c1.n, 4);
    var c2 := Step(c1, es[1]);
    assert c2.running && c2.n.etcd[o] == Speaks(c.n, o);
    var c3 := Step(c2, es[2]);
    ThreeSteps(c, es, c1, c2, c3, Tame);
    if c.n.default == o { ThreeSteps(c, es, c1, c2, c3, Follows); }
  }

  // Accepting Idle and then booting the other stateroot leads to a rollback.
  lemma OfferTaken(m: Machine, allowed: (Machine, Event) -> bool)
    requires Inv(m) && m.running && AcceptsNow(m.n, IdleStage) && Present(m.n, Other(m.n.booted)) && allowed(m, ABORT_CRASH)
    requires var c := Step(m, ABORT_CRASH);
             && Present(c.n, Other(c.n.booted)) && Run(c, BootOther(c.n), allowed)
             && var f := Final(c, BootOther(c.n), allowed); f.running && AcceptsNow(f.n, RollbackStage)
    ensures !NeverRolledBack(m, allowed)
  {
    AbortCrashStep(m);
    var c := Step(m, ABORT_CRASH);
    NoReconcileNoAcceptance(c, BootOther(c.n), [PrepStage, UpgradeStage], allowed);
  }

  lemma RollbackAfterAbort(m: Machine)
    requires Inv(m) && m.running && AcceptsNow(m.n, IdleStage) && OffersRollback(m.n, Other(m.n.booted))
    ensures !NeverRolledBack(m, Tame)
    ensures Exposed(m.n) ==> !NeverRolledBack(m, Follows)
  {
    AbortCrashStep(m);
    var c := Step(m, ABORT_CRASH);
    SameOffer(m.n, c.n, Other(m.n.booted));
    BootOtherRun(c);
    OfferTaken(m, Tame);
    if Exposed(m.n) { OfferTaken(m, Follows); }
  }

  lemma SameOffer(n: Node, n': Node, s: Slot)
    requires n.file == n'.file && (s in n.etcd <==> s in n'.etcd) && (s in n.etcd ==> n.etcd[s] == n'.etcd[s])
    ensures OffersRollback(n, s) == OffersRollback(n', s) && (Present(n, s) ==> Present(n', s) && Speaks(n, s) == Speaks(n', s))
  {}

  lemma {:induction false} NoReconcileNoAcceptance(m: Machine, es: seq<Event>, ss: seq<Stage>,
                                                   allowed: (Machine, Event) -> bool)
    requires Run(m, es, allowed) && ss != [] && forall i | 0 <= i < |es| :: !es[i].Reconcile?
    ensures !AcceptsInOrder(m, es, ss, allowed)
    decreases |es|
  {
    if es != [] { NoReconcileNoAcceptance(Step(m, es[0]), es[1..], ss, allowed); }
  }

  // From the pivot on, on either stateroot, accepting Idle is safe exactly when the other stateroot
  // offers no rollback; when the node boots what it is set to boot, exactly when it is not exposed.
  lemma SafeExactlyWhenNotExposed(m: Machine, home: Slot)
    requires Inv(m) && Armed(m, home) && m.running && AcceptsNow(m.n, IdleStage)
    ensures NeverRolledBack(m, Tame) <==> !OffersRollback(m.n, Other(m.n.booted))
    ensures NeverRolledBack(m, Follows) <==> !Exposed(m.n)
  {
    if OffersRollback(m.n, Other(m.n.booted)) {
      RollbackAfterAbort(m);
      if m.n.default == m.n.booted { DefaultNeverRolledBack(m); }
    } else {
      NotOffering(m, home);
      NoOfferNeverRolledBack(m, Tame);
      NoOfferNeverRolledBack(m, Follows);
    }
  }

  // ----- a copy left behind -----

  // The controller is restarted.
  const RESTART := [Kill, Start(4)]

  lemma RestartRestores(m: Machine)
    requires Present(m.n, m.n.booted)
    ensures Run(m, RESTART, Follows)
    ensures var b, f := m.n.booted, Final(m, RESTART, Follows); b in f.n.etcd && f.n.etcd[b] == Speaks(m.n, b)
  {
    var m1 := Step(m, Kill);
    InitPrefix(m1.n, 4);
    var m2 := Step(m1, Start(4));
    assert RESTART[1..] == [Start(4)] && [Start(4)][1..] == [];
    assert Run(m2, [], Follows) && Run(m1, [Start(4)], Follows);
    assert Final(m1, [Start(4)], Follows) == m2;
  }

  // An upgrade that has failed and is neither idle, aborting nor finalizing.
  predicate FailedUpgrade(m: Conds) {
    StageFailed(m, UpgradeStage) && Ongoing(m)
  }

  lemma OwnCopyFailed(m: Machine)
    requires Inv(m) && m.running && m.n.booted in m.n.file
    ensures FailedUpgrade(m.n.file[m.n.booted].conds)
  {}

  lemma EndedNotFailed(x: Resource, s: Slot)
    requires Sat(Ended, x, s)
    ensures !FailedUpgrade(x.conds)
  {}

  // Cleaning up does not delete the copy that a pre-pivot run saved on the booted stateroot before
  // its set-default failed: once Idle is accepted, a restart of the controller brings a failed
  // upgrade back exactly when there is such a copy, and it brings that copy back.
  lemma StaleCopyReturns(m: Machine, e: Event)
    requires Inv(m) && Enabled(m, e) && Follows(m, e) && AcceptedBy(m, e, IdleStage)
    ensures var b, m1 := m.n.booted, Step(m, e);
            && Run(m1, RESTART, Follows)
            && var f := Final(m1, RESTART, Follows);
            && b in f.n.etcd
            && (FailedUpgrade(f.n.etcd[b].conds) <==> b in m.n.file)
            && (b in m.n.file ==> f.n.etcd[b] == m.n.file[b])
  {
    var n, b, m1 := m.n, m.n.booted, Step(m, e);
    IdleWrites(m, e);
    LocalKeeps(n, Survived(ReconcileWrites(n, e.env), e.k));
    if b in n.file {
      OwnCopyFailed(m);
    } else {
      IdlePersisted(m, e, b, Ended);
      EndedNotFailed(m1.n.etcd[b], b);
    }
    RestartRestores(m1);
  }
}
