/**
 A concrete run: the first boot, Prep, Upgrade, and a reboot that fails after the default deployment
 has been set. It reaches the states that the run properties are about.
 */
module FailedReboot {
  import opened Prelude
  import opened Conditions
  import opened Lifecycle
  import opened Pivot
  import opened PivotRuns
  import opened SettledRuns

  const QUIET := Env(Released, true, true, false, PrepCompletes, PreRebootFails, PostWaits, RollbackPrepareFails, CleanupOk)

  // A reconcile that is not interrupted.
  const RECONCILE := Reconcile(QUIET, 100)

  const PREPARED: Conds := map[Idle := Cond(false, InProgress), PrepInProgress := Cond(false, Completed),
                               PrepCompleted := Cond(true, Completed)]
  const UPGRADING: Conds := PREPARED[UpgradeInProgress := Cond(true, InProgress)]
  const FAILED: Conds := PREPARED[UpgradeInProgress := Cond(false, Failed)][UpgradeCompleted := Cond(false, Failed)]

  function Running(n: Node): Machine {
    Machine(n, true)
  }

  // The node before the upgrade, with the resource x.
  function With(x: Resource): Machine {
    Running(Node(A, A, map[A := x], map[]))
  }

  // The node after the reboot failed.
  const AFTER := Running(Node(A, B, map[A := Resource(UpgradeStage, B, FAILED)],
                              map[B := Resource(UpgradeStage, B, UPGRADING), A := Resource(UpgradeStage, B, FAILED)]))

  lemma Starts()
    ensures Enabled(INITIAL, Start(1)) && Step(INITIAL, Start(1)) == With(Resource(IdleStage, B, map[]))
    ensures !Pivots(INITIAL, Start(1)) && Tame(INITIAL, Start(1))
  {
    InitPrefix(INITIAL.n, 1);
  }

  // A reconcile that goes through all its writes, none of which pivots.
  lemma Whole(n: Node, ws: seq<Write>)
    requires n.booted in n.etcd && |ws| <= 100 && ws == ReconcileWrites(n, QUIET)
    ensures Step(Running(n), RECONCILE) == Running(ApplyAll(n, ws))
  {}

  lemma Initialises()
    ensures var m := With(Resource(IdleStage, B, map[]));
            && Enabled(m, RECONCILE) && Tame(m, RECONCILE) && !Pivots(m, RECONCILE)
            && Step(m, RECONCILE) == With(Resource(IdleStage, B, IDLE_ONLY))
  {
    var x := Resource(IdleStage, B, map[]);
    var y := Resource(IdleStage, B, IDLE_ONLY);
    var n := With(x).n;
    assert Transitioned(map[], IdleStage, false) == IDLE_ONLY;
    assert ReconcileWrites(n, QUIET) == [PutCR(A, y), PutCR(A, y)];
    Whole(n, [PutCR(A, y), PutCR(A, y)]);
    assert [PutCR(A, y), PutCR(A, y)][1..] == [PutCR(A, y)] && [PutCR(A, y)][1..] == [];
    assert map[A := x][A := y][A := y] == map[A := y];
  }

  const PREPARING: Conds := map[Idle := Cond(false, InProgress), PrepInProgress := Cond(true, InProgress)]

  lemma PrepAccepted()
    ensures Gate(IDLE_ONLY, PrepStage, Released) == (true, IDLE_ONLY)
    ensures Accepts(IDLE_ONLY, PrepStage, false) && Transitioned(IDLE_ONLY, PrepStage, false) == PREPARING
  {
    assert ClearInvalid(IDLE_ONLY) == IDLE_ONLY;
  }

  lemma Prepares()
    ensures var m := With(Resource(PrepStage, B, IDLE_ONLY));
            && Enabled(m, RECONCILE) && Tame(m, RECONCILE) && !Pivots(m, RECONCILE)
            && Step(m, RECONCILE) == With(Resource(PrepStage, B, PREPARED))
  {
    var x, y, z := Resource(PrepStage, B, IDLE_ONLY), Resource(PrepStage, B, PREPARED), Resource(PrepStage, B, PREPARING);
    var n, ws := With(x).n, [PutCR(A, z), PutCR(A, y)];
    PrepAccepted();
    ReconcileShape(n, QUIET);
    assert CompletedStage(PREPARING, PrepStage) == PREPARED;
    assert HandleStage(n, z, IDLE_ONLY, QUIET) == ([], PREPARED);
    assert ReconcileWrites(n, QUIET) == ws;
    Whole(n, ws);
    assert ws[1..] == [PutCR(A, y)] && [PutCR(A, y)][1..] == [];
    assert map[A := x][A := z][A := y] == map[A := y];
  }

  const ASKED := Resource(UpgradeStage, B, PREPARED)
  const ACCEPTED := Resource(UpgradeStage, B, UPGRADING)
  const REPORTED := Resource(UpgradeStage, B, FAILED)
  const WRITES := [PutCR(A, ACCEPTED)] +
                  [PutCR(A, ACCEPTED), PutFile(B, ACCEPTED), PutFile(A, REPORTED), SetDefault(B)] +
                  [PutCR(A, REPORTED)]

  lemma UpgradeAccepted()
    ensures Gate(PREPARED, UpgradeStage, Released) == (true, PREPARED)
    ensures Accepts(PREPARED, UpgradeStage, false) && Transitioned(PREPARED, UpgradeStage, false) == UPGRADING
  {
    assert ClearInvalid(PREPARED) == PREPARED;
  }

  lemma UpgradeStarted()
    ensures InProgressStage(UPGRADING) == Some(UpgradeStage)
    ensures StartedStage(UPGRADING, UpgradeStage) == UPGRADING && FailedStage(UPGRADING, UpgradeStage) == FAILED
  {}

  lemma UpgradeHandled()
    ensures HandleStage(With(ASKED).n, ACCEPTED, PREPARED, QUIET) == PrePivot(A, ACCEPTED, PreRebootFails)
    ensures PrePivot(A, ACCEPTED, PreRebootFails) ==
              ([PutCR(A, ACCEPTED), PutFile(B, ACCEPTED), PutFile(A, REPORTED), SetDefault(B)], FAILED)
  {
    UpgradeStarted();
  }

  lemma UpgradeWrites()
    ensures ReconcileWrites(With(ASKED).n, QUIET) == WRITES
    ensures Enabled(With(ASKED), RECONCILE) && Tame(With(ASKED), RECONCILE)
  {
    var n := With(ASKED).n;
    UpgradeAccepted();
    UpgradeStarted();
    assert Transition(n) == ACCEPTED;
    ReconcileShape(n, QUIET);
    UpgradeHandled();
  }

  lemma ApplyOne(n: Node, w: Write)
    ensures ApplyAll(n, [w]) == Apply(n, w)
  {
    assert [w][1..] == [] && ApplyAll(Apply(n, w), []) == Apply(n, w);
  }

  lemma UpgradeApplied()
    ensures ApplyAll(With(ASKED).n, WRITES) == AFTER.n
  {
    var n := With(ASKED).n;
    var pre := PrePivot(A, ACCEPTED, PreRebootFails).0;
    UpgradeStarted();
    assert ACCEPTED.(conds := UPGRADING) == ACCEPTED && Failing(ACCEPTED, UpgradeStage) == REPORTED;
    assert pre == [PutCR(A, ACCEPTED), PutFile(B, ACCEPTED), PutFile(A, REPORTED), SetDefault(B)];
    var n1 := ApplyAll(n, [PutCR(A, ACCEPTED)]);
    ApplyOne(n, PutCR(A, ACCEPTED));
    assert map[A := ASKED][A := ACCEPTED] == map[A := ACCEPTED];
    assert n1 == With(ACCEPTED).n;
    PrePivotDone(n1, ACCEPTED);
    ApplyConcat(n, [PutCR(A, ACCEPTED)], pre);
    ApplyConcat(n, [PutCR(A, ACCEPTED)] + pre, [PutCR(A, REPORTED)]);
    var n2 := ApplyAll(n1, pre);
    ApplyOne(n2, PutCR(A, REPORTED));
    assert n2 == Node(A, B, map[A := ACCEPTED], map[B := ACCEPTED, A := REPORTED]);
    assert Apply(n2, PutCR(A, REPORTED)) == AFTER.n;
  }

  lemma Upgrades()
    ensures Enabled(With(ASKED), RECONCILE) && Tame(With(ASKED), RECONCILE) && Pivots(With(ASKED), RECONCILE)
    ensures Step(With(ASKED), RECONCILE) == AFTER
  {
    UpgradeWrites();
    UpgradeApplied();
    Whole(With(ASKED).n, WRITES);
    assert WRITES[4] == SetDefault(B);
  }

  // The run leads from m to AFTER and makes A the stateroot the upgrade has left.
  ghost predicate Reaches(m: Machine, es: seq<Event>) {
    Run(m, es, Tame) && Final(m, es, Tame) == AFTER && Home(m, None, es, Tame) == Some(A)
  }

  lemma Prepend(m: Machine, e: Event, m': Machine, es: seq<Event>)
    requires Enabled(m, e) && Tame(m, e) && !Pivots(m, e) && Step(m, e) == m' && Reaches(m', es)
    ensures Reaches(m, [e] + es)
  {
    assert ([e] + es)[1..] == es;
  }

  lemma FromAsked() returns (es: seq<Event>)
    ensures Reaches(With(ASKED), es)
  {
    Upgrades();
    es := [RECONCILE];
    assert es[1..] == [] && Run(AFTER, [], Tame);
    assert HomeAfter(With(ASKED), None, RECONCILE) == Some(A);
  }

  lemma FromPrepared() returns (es: seq<Event>)
    ensures Reaches(With(Resource(PrepStage, B, PREPARED)), es)
  {
    var m := With(Resource(PrepStage, B, PREPARED));
    es := FromAsked();
    assert m.n.etcd[A := ASKED] == map[A := ASKED];
    Prepend(m, Edit(UpgradeStage, B), With(ASKED), es);
    es := [Edit(UpgradeStage, B)] + es;
  }

  lemma FromPrep() returns (es: seq<Event>)
    ensures Reaches(With(Resource(PrepStage, B, IDLE_ONLY)), es)
  {
    es := FromPrepared();
    Prepares();
    Prepend(With(Resource(PrepStage, B, IDLE_ONLY)), RECONCILE, With(Resource(PrepStage, B, PREPARED)), es);
    es := [RECONCILE] + es;
  }

  lemma FromIdle() returns (es: seq<Event>)
    ensures Reaches(With(Resource(IdleStage, B, IDLE_ONLY)), es)
  {
    var m, x := With(Resource(IdleStage, B, IDLE_ONLY)), Resource(PrepStage, B, IDLE_ONLY);
    es := FromPrep();
    assert m.n.etcd[A := x] == map[A := x];
    Prepend(m, Edit(PrepStage, B), With(x), es);
    es := [Edit(PrepStage, B)] + es;
  }

  lemma FromCreated() returns (es: seq<Event>)
    ensures Reaches(With(Resource(IdleStage, B, map[])), es)
  {
    es := FromIdle();
    Initialises();
    Prepend(With(Resource(IdleStage, B, map[])), RECONCILE, With(Resource(IdleStage, B, IDLE_ONLY)), es);
    es := [RECONCILE] + es;
  }

  // A run from the first boot reaches a controller on the old stateroot after the pivot, of which
  // the crash-safe pivot speaks.
  lemma RebootFails() returns (es: seq<Event>)
    ensures Run(INITIAL, es, Tame) && Final(INITIAL, es, Tame) == AFTER && Home(INITIAL, None, es, Tame) == Some(A)
  {
    es := FromCreated();
    Starts();
    Prepend(INITIAL, Start(1), With(Resource(IdleStage, B, map[])), es);
    es := [Start(1)] + es;
  }

  const ABORTING := Running(AFTER.n.(etcd := map[A := Resource(IdleStage, B, FAILED)]))

  lemma AsksForIdle()
    ensures Enabled(AFTER, Edit(IdleStage, B)) && Tame(AFTER, Edit(IdleStage, B))
    ensures Step(AFTER, Edit(IdleStage, B)) == ABORTING && AcceptsNow(ABORTING.n, IdleStage)
  {
    var x := Resource(IdleStage, B, FAILED);
    assert AFTER.n.etcd[A := x] == map[A := x];
  }

  lemma AbortingReached()
    ensures Inv(ABORTING) && Armed(ABORTING, A)
  {
    var es := RebootFails();
    InitialInv();
    NoDeadEndInEveryRun(INITIAL, es);
    ArmedRun(INITIAL, None, es, Tame);
    AsksForIdle();
    StepInv(AFTER, Edit(IdleStage, B));
    StepArmed(AFTER, Edit(IdleStage, B), A, A);
    StepArmed(AFTER, Edit(IdleStage, B), A, B);
  }

  // Asking for Idle there, an abort is accepted that a rollback can follow.
  lemma AbortIsUnsafe()
    ensures Inv(ABORTING) && AcceptsNow(ABORTING.n, IdleStage) && !NeverRolledBack(ABORTING, Follows)
  {
    AbortingReached();
    AsksForIdle();
    SafeExactlyWhenNotExposed(ABORTING, A);
  }

  // The same after B has been booted once and the node has fallen back, both restoring their copies.
  const FALLEN_BACK := Running(Node(A, B, map[A := Resource(IdleStage, B, FAILED), B := Resource(UpgradeStage, B, UPGRADING)],
                                    map[]))

  ghost predicate Leads(m: Machine, es: seq<Event>, f: Machine) {
    Run(m, es, Tame) && Final(m, es, Tame) == f
  }

  lemma Lead(m: Machine, e: Event, m': Machine, es: seq<Event>, f: Machine)
    requires Enabled(m, e) && Tame(m, e) && Step(m, e) == m' && Leads(m', es, f)
    ensures Leads(m, [e] + es, f)
  {
    assert ([e] + es)[1..] == es;
  }

  lemma RestoresOnB(x: Resource, y: Resource, z: Resource)
    ensures Step(Machine(Node(B, B, map[A := x], map[B := y, A := z]), false), Start(4)) ==
              Running(Node(B, B, map[A := x, B := y], map[A := z]))
  {
    InitPrefix(Node(B, B, map[A := x], map[B := y, A := z]), 4);
    assert map[A := x][B := y] == map[A := x, B := y] && map[B := y, A := z] - {B} == map[A := z];
  }

  lemma RestoresOnA(x: Resource, y: Resource, z: Resource)
    ensures Step(Machine(Node(A, B, map[A := x, B := y], map[A := z]), false), Start(4)) ==
              Running(Node(A, B, map[A := z, B := y], map[]))
  {
    InitPrefix(Node(A, B, map[A := x, B := y], map[A := z]), 4);
    assert map[A := x, B := y][A := z] == map[A := z, B := y] && map[A := z] - {A} == map[];
  }

  lemma AsksForIdleAgain(x: Resource, y: Resource)
    requires x.seed == B
    ensures var m := Running(Node(A, B, map[A := x, B := y], map[]));
            && Enabled(m, Edit(IdleStage, B)) && Tame(m, Edit(IdleStage, B))
            && Step(m, Edit(IdleStage, B)) == Running(Node(A, B, map[A := x.(stage := IdleStage), B := y], map[]))
  {
    assert map[A := x, B := y][A := x.(stage := IdleStage)] == map[A := x.(stage := IdleStage), B := y];
  }

  // From the failed reboot: B is booted and restores its copy, then A, and Idle is asked for.
  lemma FallsBack() returns (es: seq<Event>)
    ensures Leads(AFTER, es, FALLEN_BACK)
  {
    var x, y := Resource(UpgradeStage, B, FAILED), Resource(UpgradeStage, B, UPGRADING);
    var m1 := Machine(Node(B, B, map[A := x], map[B := y, A := x]), false);
    var m2 := Running(Node(B, B, map[A := x, B := y], map[A := x]));
    var m3 := Machine(Node(A, B, map[A := x, B := y], map[A := x]), false);
    var m4 := Running(Node(A, B, map[A := x, B := y], map[]));
    AsksForIdleAgain(x, y);
    Lead(m4, Edit(IdleStage, B), FALLEN_BACK, [], FALLEN_BACK);
    es := [Edit(IdleStage, B)] + [];
    RestoresOnA(x, y, x);
    Lead(m3, Start(4), m4, es, FALLEN_BACK);
    es := [Start(4)] + es;
    Lead(m2, Reboot(A), m3, es, FALLEN_BACK);
    es := [Reboot(A)] + es;
    RestoresOnB(x, y, x);
    Lead(m1, Start(4), m2, es, FALLEN_BACK);
    es := [Start(4)] + es;
    Lead(AFTER, Reboot(B), m1, es, FALLEN_BACK);
    es := [Reboot(B)] + es;
  }

  lemma FallenBackArmed()
    ensures Inv(FALLEN_BACK) && Armed(FALLEN_BACK, A)
  {}

  lemma FallenBackExposed()
    ensures AcceptsNow(FALLEN_BACK.n, IdleStage) && Exposed(FALLEN_BACK.n)
  {}

  lemma AbortIsUnsafeWithoutCopies() returns (es: seq<Event>)
    ensures Leads(AFTER, es, FALLEN_BACK)
    ensures Inv(FALLEN_BACK) && AcceptsNow(FALLEN_BACK.n, IdleStage) && !NeverRolledBack(FALLEN_BACK, Follows)
  {
    es := FallsBack();
    FallenBackArmed();
    FallenBackExposed();
    SafeExactlyWhenNotExposed(FALLEN_BACK, A);
  }

  // The upgrade has completed on B, with Idle asked for, and the node is still set to boot A.
  const UPGRADED: Conds := PREPARED[UpgradeInProgress := Cond(false, Completed)][UpgradeCompleted := Cond(true, Completed)]
  const FINISHED := Running(Node(B, A, map[A := Resource(UpgradeStage, B, FAILED), B := Resource(IdleStage, B, UPGRADED)], map[]))

  lemma FinishedSound()
    ensures Inv(FINISHED)
  {}

  lemma FinishedArmed()
    ensures Armed(FINISHED, A)
  {}

  lemma FinishedOffersNone()
    ensures AcceptsNow(FINISHED.n, IdleStage) && !OffersRollback(FINISHED.n, A)
  {}

  // Finalizing there is safe, although the booted stateroot is not the one set to boot, and whatever
  // boots afterwards.
  lemma FinalizeIsSafe()
    ensures Inv(FINISHED) && AcceptsNow(FINISHED.n, IdleStage) && NeverRolledBack(FINISHED, Tame)
  {
    FinishedSound();
    FinishedArmed();
    FinishedOffersNone();
    SafeWithout(FINISHED, A);
  }

  lemma SafeWithout(m: Machine, home: Slot)
    requires Inv(m) && Armed(m, home) && m.running && AcceptsNow(m.n, IdleStage) && !OffersRollback(m.n, Other(m.n.booted))
    ensures NeverRolledBack(m, Tame)
  {
    SafeExactlyWhenNotExposed(m, home);
  }

  // The abort there also leaves the copy behind that the pre-pivot run had saved: after a restart the
  // upgrade is failed again, neither idle nor aborting.
  lemma StaleCopy()
    ensures var m := Step(ABORTING, ABORT_CRASH);
            && Run(m, RESTART, Follows)
            && var f := Final(m, RESTART, Follows);
            && A in f.n.etcd && f.n.etcd[A] == Resource(UpgradeStage, B, FAILED) && FailedUpgrade(f.n.etcd[A].conds)
  {
    AbortingReached();
    AsksForIdle();
    AbortCrashStep(ABORTING);
    StaleCopyReturns(ABORTING, ABORT_CRASH);
  }
}
