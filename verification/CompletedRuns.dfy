/**
 What an accepted transition leads to when nothing fails: Prep completes, an upgrade completes on the
 stateroot it pivots to, a rollback on the one it goes back to, and an abort or a finalize ends idle.
 */
module CompletedRuns {
  import opened Prelude
  import opened Conditions
  import opened Lifecycle
  import opened Pivot
  import opened PivotRuns
  import opened Outcomes

  // IPConfig is idle and every step succeeds. A reboot that happens is a crash before the last write.
  const SUCCESS := Env(Released, true, true, false, PrepCompletes, PreRebootFails, PostCompletes, RollbackRebootFails, CleanupOk)

  // A controller that is running on stateroot b, with the given resource there.
  predicate At(m: Machine, b: Slot, x: Resource) {
    m.running && m.n.booted == b && b in m.n.etcd && m.n.etcd[b] == x
  }

  // A reconcile that goes through all its writes, the last of which stores the final status.
  lemma WholeReconcile(n: Node, env: Env, k: nat)
    requires n.booted in n.etcd && SoundResource(n.etcd[n.booted], n.booted) && env.gate.Released?
    requires k >= |ReconcileWrites(n, env)|
    ensures At(Step(Machine(n, true), Reconcile(env, k)), n.booted, Transition(n).(conds := FinalConds(n, env)))
  {
    var ws := ReconcileWrites(n, env);
    var last := PutCR(n.booted, Transition(n).(conds := FinalConds(n, env)));
    SoundReconcile(n, env);
    ReconcileShape(n, env);
    var i := |ws| - 1;
    assert ws[i] == last && ws[..i + 1] == ws;
    ApplyNext(n, ws, i);
    BootedKept(n, ws[..i]);
  }

  // One of two handlers at a time: nothing is asked for, and the stage in progress is handled.
  lemma NothingAsked(x: Resource, b: Slot)
    requires StageInProgress(x.conds, x.stage)
    ensures Turned(x, b) == x
  {}

  // The writes of a reconcile that accepts a stage, up to the last one.
  lemma AcceptedWrites(n: Node, env: Env, k: nat)
    requires n.booted in n.etcd && SoundResource(n.etcd[n.booted], n.booted) && env.gate.Released?
    requires AcceptsNow(n, n.etcd[n.booted].stage)
    requires var x := Transition(n); k == 1 + |HandleStage(n, x, n.etcd[n.booted].conds, env).0|
    ensures var x := Transition(n);
            && k + 1 == |ReconcileWrites(n, env)|
            && ApplyAll(n, Survived(ReconcileWrites(n, env), k)) ==
                 ApplyAll(n.(etcd := n.etcd[n.booted := x]), HandleStage(n, x, n.etcd[n.booted].conds, env).0)
  {
    var b, x := n.booted, Transition(n);
    var ws := HandleStage(n, x, n.etcd[b].conds, env).0;
    SoundReconcile(n, env);
    ReconcileShape(n, env);
    var all := ReconcileWrites(n, env);
    assert all[..k] == [PutCR(b, x)] + ws;
    ApplyConcat(n, [PutCR(b, x)], ws);
    ApplyNext(n, [PutCR(b, x)], 0);
    assert [PutCR(b, x)][..1] == [PutCR(b, x)];
  }

  // Booting stateroot o, whose saved copy is x, makes the controller work on x there.
  lemma Restored(m: Machine, o: Slot, x: Resource)
    requires o in m.n.file && m.n.file[o] == x
    ensures var f := Step(Step(m, Reboot(o)), Start(4)); At(f, o, x) && f.n.default == m.n.default
  {
    InitPrefix(m.n.(booted := o), 4);
  }

  function Run4(e: Event, o: Slot, last: Event): seq<Event> {
    [e, Reboot(o), Start(4), last]
  }

  lemma FourSteps(m: Machine, e: Event, o: Slot, last: Event)
    requires Enabled(m, e) && Tame(m, e) && Tame(Step(Step(Step(m, e), Reboot(o)), Start(4)), last)
    requires Enabled(Step(Step(Step(m, e), Reboot(o)), Start(4)), last)
    ensures Run(m, Run4(e, o, last), Tame)
    ensures Final(m, Run4(e, o, last), Tame) == Step(Step(Step(Step(m, e), Reboot(o)), Start(4)), last)
  {
    var m1 := Step(m, e);
    var m2 := Step(m1, Reboot(o));
    var m3 := Step(m2, Start(4));
    var f := Step(m3, last);
    var es := Run4(e, o, last);
    assert es[1..] == [Reboot(o), Start(4), last] && es[1..][1..] == [Start(4), last];
    assert es[1..][1..][1..] == [last] && [last][1..] == [];
    assert Run(f, [], Tame) && Final(f, [], Tame) == f;
    assert Run(m3, [last], Tame) && Final(m3, [last], Tame) == f;
    assert Run(m2, [Start(4), last], Tame) && Final(m2, [Start(4), last], Tame) == f;
    assert Run(m1, es[1..], Tame) && Final(m1, es[1..], Tame) == f;
  }

  // What accepting a stage leaves: the stage in progress, on the side of the pivot it belongs to.
  lemma AcceptedThere(m: Machine, s: Stage)
    requires Inv(m) && m.running && AcceptsNow(m.n, s) && !s.IdleStage?
    ensures var b, x := m.n.booted, Transition(m.n);
            && SoundResource(m.n.etcd[b], b) && SoundResource(x, b)
            && InProgressStage(x.conds) == Some(s) && x.stage == s
            && (s.UpgradeStage? ==> x.seed == Other(b)) && (s.RollbackStage? ==> x.seed == b)
  {
    var b, cr := m.n.booted, m.n.etcd[m.n.booted];
    Offered(cr.conds, s, cr.seed == b);
    AcceptedIsInProgress(cr.conds, s, cr.seed == b);
    SoundReconcile(m.n, SUCCESS);
  }

  // A resource in progress may be handed to the other stateroot as it is.
  lemma HandedOver(n: Node, x: Resource)
    requires SoundResource(x, n.booted)
    requires if x.seed == n.booted then InProgressStage(x.conds) == Some(RollbackStage)
             else InProgressStage(x.conds) == Some(UpgradeStage)
    ensures SoundResource(x, Other(n.booted)) && StartedStage(x.conds, InProgressStage(x.conds).value) == x.conds
  {
    SoundCopies(n, x);
    SavedCopies(n, x);
  }

  // Prep is completed by the reconcile that accepts it.
  lemma PrepCompletesInOne(m: Machine, k: nat)
    requires Inv(m) && m.running && AcceptsNow(m.n, PrepStage) && k >= |ReconcileWrites(m.n, SUCCESS)|
    ensures var b, f := m.n.booted, Step(m, Reconcile(SUCCESS, k));
            && f.running && b in f.n.etcd
            && f.n.etcd[b].conds[PrepCompleted := Cond(true, Completed)][PrepInProgress := Cond(false, Completed)] == f.n.etcd[b].conds
  {
    var x := Transition(m.n);
    AcceptedThere(m, PrepStage);
    PrepEnds(m.n, x, m.n.etcd[m.n.booted].conds, SUCCESS);
    WholeReconcile(m.n, SUCCESS, k);
  }

  // Accepting Idle starts an abort or a finalize, or makes a new resource idle.
  lemma IdleAcceptedThere(m: Machine)
    requires Inv(m) && m.running && AcceptsNow(m.n, IdleStage)
    ensures var x := Transition(m.n);
            || x.conds == IDLE_ONLY
            || (InProgressStage(x.conds) == Some(IdleStage) && x.conds[Idle].reason in {Finalizing, Aborting})
  {
    var cr := m.n.etcd[m.n.booted];
    AcceptedIsInProgress(cr.conds, IdleStage, cr.seed == m.n.booted);
    if Idle in cr.conds { FinalizeOrAbortChoice(cr.conds, cr.seed == m.n.booted); }
  }

  lemma IdleReached(n: Node, x: Resource, persisted: Conds)
    requires || x.conds == IDLE_ONLY
             || (InProgressStage(x.conds) == Some(IdleStage) && x.conds[Idle].reason in {Finalizing, Aborting})
    ensures HandleStage(n, x, persisted, SUCCESS).1 == map[Idle := Cond(true, IsIdle)]
  {
    if x.conds != IDLE_ONLY { IdleEnds(n, x, persisted, SUCCESS); }
  }

  // An abort or a finalize ends idle, with nothing else left, in the reconcile that accepts it.
  lemma IdleCompletesInOne(m: Machine, k: nat)
    requires Inv(m) && m.running && AcceptsNow(m.n, IdleStage) && k >= |ReconcileWrites(m.n, SUCCESS)|
    ensures var b, f := m.n.booted, Step(m, Reconcile(SUCCESS, k));
            f.running && b in f.n.etcd && f.n.etcd[b].conds == map[Idle := Cond(true, IsIdle)]
  {
    IdleAcceptedThere(m);
    IdleReached(m.n, Transition(m.n), m.n.etcd[m.n.booted].conds);
    WholeReconcile(m.n, SUCCESS, k);
  }

  // The pivot of an accepted upgrade, up to its reboot.
  lemma Pivoted(m: Machine)
    requires Inv(m) && m.running && AcceptsNow(m.n, UpgradeStage)
    ensures var b, x := m.n.booted, Transition(m.n);
            var f := Step(m, Reconcile(SUCCESS, 5));
            && x.seed == Other(b) && InProgressStage(x.conds) == Some(UpgradeStage)
            && f.n.default == x.seed && x.seed in f.n.file && f.n.file[x.seed] == x && SoundResource(x, x.seed)
  {
    var n, b := m.n, m.n.booted;
    var cr, x := n.etcd[b], Transition(m.n);
    AcceptedThere(m, UpgradeStage);
    HandedOver(n, x);
    assert HandleStage(n, x, cr.conds, SUCCESS).0 == PrePivot(b, x, PreRebootFails).0;
    AcceptedWrites(n, SUCCESS, 5);
    PrePivotReached(n.(etcd := n.etcd[b := x]), x, PreRebootFails);
  }

  // An accepted upgrade, followed by its reboot and by a post-pivot run that succeeds, completes on
  // the other stateroot, which is the one set to boot.
  lemma UpgradeCompletesAfterPivot(m: Machine)
    requires Inv(m) && m.running && AcceptsNow(m.n, UpgradeStage)
    ensures var o, es := Other(m.n.booted), Run4(Reconcile(SUCCESS, 5), Other(m.n.booted), Reconcile(SUCCESS, 100));
            && Run(m, es, Tame)
            && var f := Final(m, es, Tame);
            && f.running && f.n.booted == f.n.default == o && o in f.n.etcd
            && f.n.etcd[o].seed == o
            && f.n.etcd[o].conds[UpgradeCompleted := Cond(true, Completed)] == f.n.etcd[o].conds
  {
    var o, x := Other(m.n.booted), Transition(m.n);
    Pivoted(m);
    var m1 := Step(m, Reconcile(SUCCESS, 5));
    Restored(m1, o, x);
    var m3 := Step(Step(m1, Reboot(o)), Start(4));
    FourSteps(m, Reconcile(SUCCESS, 5), o, Reconcile(SUCCESS, 100));
    UpgradeFinishes(m3, o, x);
  }

  // The post-pivot run of an upgrade in progress.
  lemma UpgradeFinishes(m: Machine, o: Slot, x: Resource)
    requires At(m, o, x) && SoundResource(x, o) && x.seed == o && x.stage == UpgradeStage
    requires InProgressStage(x.conds) == Some(UpgradeStage)
    ensures var f := Step(m, Reconcile(SUCCESS, 100));
            && f.running && f.n.booted == o && f.n.default == m.n.default && o in f.n.etcd && f.n.etcd[o].seed == o
            && f.n.etcd[o].conds[UpgradeCompleted := Cond(true, Completed)] == f.n.etcd[o].conds
  {
    NothingAsked(x, o);
    UpgradeEnds(m.n, x, x.conds, SUCCESS);
    SoundReconcile(m.n, SUCCESS);
    ReconcileShape(m.n, SUCCESS);
    assert HandleStage(m.n, x, x.conds, SUCCESS).0 == PostPivot(m.n, x, PostCompletes).0;
    WholeReconcile(m.n, SUCCESS, 100);
    DefaultStays(m.n, ReconcileWrites(m.n, SUCCESS));
  }

  // Writes of resources leave the default.
  lemma {:induction false} DefaultStays(n: Node, ws: seq<Write>)
    requires forall i | 0 <= i < |ws| :: ws[i].PutCR?
    ensures ApplyAll(n, ws).default == n.default
    decreases |ws|
  {
    if ws != [] {
      assert forall i | 0 <= i < |ws[1..]| :: ws[1..][i] == ws[i + 1];
      DefaultStays(Apply(n, ws[0]), ws[1..]);
    }
  }

  // The writes of an accepted rollback, up to its reboot.
  lemma RolledBack(m: Machine)
    requires Inv(m) && m.running && AcceptsNow(m.n, RollbackStage)
    ensures var b, x := m.n.booted, Transition(m.n);
            var o, f := Other(b), Step(m, Reconcile(SUCCESS, 4));
            && x.seed == b && InProgressStage(x.conds) == Some(RollbackStage)
            && f.n.default == o && b in f.n.etcd && f.n.etcd[b] == x && o in f.n.file && f.n.file[o] == x && SoundResource(x, o)
  {
    var n, b := m.n, m.n.booted;
    var cr, x := n.etcd[b], Transition(m.n);
    AcceptedThere(m, RollbackStage);
    HandedOver(n, x);
    var ws := StartRollback(b, x, RollbackRebootFails).0;
    assert HandleStage(n, x, cr.conds, SUCCESS).0 == ws;
    AcceptedWrites(n, SUCCESS, 4);
    var n1 := n.(etcd := n.etcd[b := x]);
    RollbackPrefix(n1, x, 3);
    assert Survived(ws, 3) == ws;
  }

  // An accepted rollback, followed by its reboot, completes on the stateroot the upgrade had left,
  // which is the one set to boot.
  lemma RollbackCompletesAtHome(m: Machine)
    requires Inv(m) && m.running && AcceptsNow(m.n, RollbackStage)
    ensures var o, es := Other(m.n.booted), Run4(Reconcile(SUCCESS, 4), Other(m.n.booted), Reconcile(SUCCESS, 100));
            && Run(m, es, Tame)
            && var f := Final(m, es, Tame);
            && f.running && f.n.booted == f.n.default == o && o in f.n.etcd
            && f.n.etcd[o].conds[RollbackCompleted := Cond(true, Completed)] == f.n.etcd[o].conds
  {
    var o, x := Other(m.n.booted), Transition(m.n);
    RolledBack(m);
    var m1 := Step(m, Reconcile(SUCCESS, 4));
    Restored(m1, o, x);
    var m3 := Step(Step(m1, Reboot(o)), Start(4));
    FourSteps(m, Reconcile(SUCCESS, 4), o, Reconcile(SUCCESS, 100));
    RollbackFinishes(m3, o, x);
  }

  lemma RollbackFinishes(m: Machine, o: Slot, x: Resource)
    requires At(m, o, x) && SoundResource(x, o) && x.seed != o && x.stage == RollbackStage
    requires InProgressStage(x.conds) == Some(RollbackStage)
    ensures var f := Step(m, Reconcile(SUCCESS, 100));
            && f.running && f.n.booted == o && f.n.default == m.n.default && o in f.n.etcd
            && f.n.etcd[o].conds[RollbackCompleted := Cond(true, Completed)] == f.n.etcd[o].conds
  {
    NothingAsked(x, o);
    RollbackEnds(m.n, x, x.conds, SUCCESS);
    SoundReconcile(m.n, SUCCESS);
    ReconcileShape(m.n, SUCCESS);
    assert HandleStage(m.n, x, x.conds, SUCCESS).0 == [];
    WholeReconcile(m.n, SUCCESS, 100);
    DefaultStays(m.n, ReconcileWrites(m.n, SUCCESS));
  }
}
