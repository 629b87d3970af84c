/**
 The controller as it runs: a custom resource whose condition list is updated in place, and a host
 whose stateroots it writes to one durable write at a time until the process dies.

 Every method is proved against the functions of Lifecycle and Pivot, over which the run properties
 are proved.
 */
module Controller {
  import opened Conditions
  import opened Lifecycle
  import opened Pivot

  // status.conditions of a custom resource.
  class ConditionList {
    var conditions: seq<Condition>

    ghost predicate Valid() reads this {
      Distinct(conditions)
    }

    function View(): Conds reads this {
      AsMap(conditions)
    }

    constructor (cs: seq<Condition>)
      requires Distinct(cs)
      ensures Valid() && conditions == cs
    {
      conditions := cs;
    }

    method RemoveStatusCondition(t: ConditionType)
      requires Valid()
      modifies this
      ensures Valid() && conditions == Removed(old(conditions), t)
      ensures View() == old(View()) - {t}
    {
      RemovedIsMapRemoval(conditions, t);
      conditions := Without(conditions, t);
    }

    method SetStatusCondition(t: ConditionType, status: bool, reason: Reason)
      requires Valid()
      modifies this
      ensures Valid() && conditions == Updated(old(conditions), Condition(t, Cond(status, reason)))
      ensures View() == Set(old(View()), t, status, reason)
    {
      var c := Condition(t, Cond(status, reason));
      UpdatedIsMapUpdate(conditions, c);
      var found := Find(conditions, t);
      if found.Some? && (found.value.status != status || t.Idle?) && conditions[|conditions| - 1].ctype != t {
        RemoveStatusCondition(t);
      }
      conditions := Upserted(conditions, c);
    }

    method ResetStatusConditions()
      requires Valid()
      modifies this
      ensures Valid() && View() == IDLE_ONLY
    {
      var snapshot := conditions;
      for i := 0 to |snapshot|
        invariant Valid()
        invariant forall t :: t in View() <==> t in AsMap(snapshot) && (t == Idle || !Seen(snapshot, i, t))
      {
        var c := snapshot[i];
        SeenNext(snapshot, i);
        if c.ctype != Idle { RemoveStatusCondition(c.ctype); }
      }
      AllSeen(snapshot);
      SetStatusCondition(Idle, true, IsIdle);
    }

    // The loop ranges over the list as it was, while conditions are set and removed.
    method ClearInvalidTransitions()
      requires Valid()
      modifies this
      ensures Valid() && View() == ClearInvalid(old(View()))
    {
      ClearMarks({PrepInProgress, UpgradeInProgress, RollbackInProgress}, InProgress);
    }

    // ClearInvalidTransitionStatusConditions and ClearIPInvalidTransitionStatusConditions differ in
    // the conditions they remove and in the reason they give Idle back.
    method ClearMarks(removable: set<ConditionType>, restored: Reason)
      requires Valid() && Idle !in removable
      modifies this
      ensures Valid() && View() == MarksCleared(old(View()), removable, restored)
    {
      var snapshot := conditions;
      ClearedEnds(snapshot, removable, restored);
      for i := 0 to |snapshot|
        invariant Valid()
        invariant View() == ClearedTo(snapshot, i, removable, restored)
      {
        var c := snapshot[i];
        ghost var before := View();
        if c.cond.reason == InvalidTransition {
          if c.ctype == Idle {
            SetStatusCondition(Idle, false, restored);
          } else if c.ctype in removable {
            RemoveStatusCondition(c.ctype);
          }
        }
        NextMark(snapshot, i, removable, restored, before, View());
      }
    }
  }

  // The marks of the first i conditions have been cleared.
  function ClearedTo(cs: seq<Condition>, i: nat, removable: set<ConditionType>, restored: Reason): Conds
    requires i <= |cs|
  {
    PartlyCleared(AsMap(cs), TypesOf(cs[..i]), removable, restored)
  }

  lemma ClearedEnds(cs: seq<Condition>, removable: set<ConditionType>, restored: Reason)
    ensures ClearedTo(cs, 0, removable, restored) == AsMap(cs)
    ensures ClearedTo(cs, |cs|, removable, restored) == MarksCleared(AsMap(cs), removable, restored)
  {
    assert cs[..|cs|] == cs;
  }

  // One step of the loop: from the view before it to the view after it.
  lemma NextMark(cs: seq<Condition>, i: nat, removable: set<ConditionType>, restored: Reason, before: Conds, after: Conds)
    requires Distinct(cs) && i < |cs| && Idle !in removable
    requires before == ClearedTo(cs, i, removable, restored)
    requires var t := cs[i].ctype;
             after ==
               if cs[i].cond.reason != InvalidTransition then before
               else if t == Idle then Set(before, Idle, false, restored)
               else if t in removable then before - {t}
               else before
    ensures after == ClearedTo(cs, i + 1, removable, restored)
  {
    FindMember(cs, cs[i].ctype);
    FindMember(cs[..i], cs[i].ctype);
    TypesNext(cs, i);
    NextCleared(AsMap(cs), TypesOf(cs[..i]), removable, restored, cs[i].ctype);
  }

  lemma TypesNext(cs: seq<Condition>, i: nat)
    requires i < |cs|
    ensures TypesOf(cs[..i + 1]) == TypesOf(cs[..i]) + {cs[i].ctype}
  {
    var a, b := cs[..i + 1], cs[..i];
    assert a == b + [cs[i]];
    forall t ensures t in TypesOf(a) <==> t in TypesOf(b) + {cs[i].ctype} {
      FindMember(a, t);
      FindMember(b, t);
      if t == cs[i].ctype { assert a[i].ctype == t; }
      if t in TypesOf(b) {
        var j :| 0 <= j < |b| && b[j].ctype == t;
        assert a[j].ctype == t;
      }
    }
  }

  function MarksCleared(m: Conds, removable: set<ConditionType>, restored: Reason): Conds {
    PartlyCleared(m, m.Keys, removable, restored)
  }

  // The marks on the condition types in done have been cleared.
  function PartlyCleared(m: Conds, done: set<ConditionType>, removable: set<ConditionType>, restored: Reason): Conds {
    map t | t in m && !(t in done && t in removable && m[t].reason == InvalidTransition) ::
      if t in done && t == Idle && m[t].reason == InvalidTransition then Cond(false, restored) else m[t]
  }

  lemma NextCleared(m: Conds, done: set<ConditionType>, removable: set<ConditionType>, restored: Reason, t: ConditionType)
    requires t in m && t !in done && Idle !in removable
    ensures var p := PartlyCleared(m, done, removable, restored);
            PartlyCleared(m, done + {t}, removable, restored) ==
              if m[t].reason != InvalidTransition then p
              else if t == Idle then p[Idle := Cond(false, restored)]
              else if t in removable then p - {t}
              else p
  {}

  class ImageBasedUpgrade {
    const stage: Stage
    const seed: Slot
    const status: ConditionList

    ghost predicate Valid() reads status {
      status.Valid()
    }

    function View(): Resource reads status {
      Resource(stage, seed, status.View())
    }

    constructor (x: Resource, cs: seq<Condition>)
      requires Distinct(cs) && AsMap(cs) == x.conds
      ensures Valid() && View() == x && status.conditions == cs && fresh(status)
    {
      stage, seed := x.stage, x.seed;
      status := new ConditionList(cs);
    }

    method SetStarted(s: Stage)
      requires Valid()
      modifies status
      ensures Valid() && View().conds == StartedStage(old(View().conds), s)
    {
      status.SetStatusCondition(InProgressType(s), true, InProgress);
    }

    method SetFailed(s: Stage)
      requires Valid()
      modifies status
      ensures Valid() && View().conds == FailedStage(old(View().conds), s)
    {
      status.SetStatusCondition(CompletedType(s), false, Failed);
      status.SetStatusCondition(InProgressType(s), false, Failed);
    }

    method SetCompleted(s: Stage)
      requires Valid()
      modifies status
      ensures Valid() && View().conds == CompletedStage(old(View().conds), s)
    {
      status.SetStatusCondition(InProgressType(s), false, Completed);
      status.SetStatusCondition(CompletedType(s), true, Completed);
    }

    // validateStageTransition
    method ValidateStageTransition(afterPivot: bool) returns (ok: bool)
      requires Valid()
      modifies status
      ensures Valid() && ok == (stage in ValidNextStages(old(View().conds), stage, afterPivot))
      ensures View().conds == if ok then Accepted(old(View().conds), stage, afterPivot)
                              else Rejected(old(View().conds), stage)
    {
      ok := stage in ValidNextStages(View().conds, stage, afterPivot);
      if !ok {
        status.SetStatusCondition(InProgressType(stage), false, InvalidTransition);
        return;
      }
      status.ClearInvalidTransitions();
      match stage {
        case PrepStage =>
          status.SetStatusCondition(Idle, false, InProgress);
          SetStarted(PrepStage);
        case UpgradeStage =>
          SetStarted(UpgradeStage);
        case RollbackStage =>
          SetFailed(UpgradeStage);
          SetStarted(RollbackStage);
        case IdleStage =>
          match FinalizeOrAbort(View().conds, afterPivot) {
            case Some(reason) => status.SetStatusCondition(Idle, false, reason);
            case None =>
              if Idle !in View().conds { status.ResetStatusConditions(); }
          }
      }
    }
  }

  // The filtering loop of meta.RemoveStatusCondition.
  method Without(cs: seq<Condition>, t: ConditionType) returns (kept: seq<Condition>)
    ensures kept == Removed(cs, t)
  {
    kept := [];
    for i := 0 to |cs|
      invariant kept + Removed(cs[i..], t) == Removed(cs, t)
    {
      assert cs[i..][1..] == cs[i + 1..];
      if cs[i].ctype != t { kept := kept + [cs[i]]; }
    }
    assert cs[|cs|..] == [];
  }

  // A condition of type t is among the first i.
  predicate Seen(cs: seq<Condition>, i: nat, t: ConditionType)
    requires i <= |cs|
  {
    exists j | 0 <= j < i :: cs[j].ctype == t
  }

  lemma SeenNext(cs: seq<Condition>, i: nat)
    requires i < |cs|
    ensures forall t :: Seen(cs, i + 1, t) <==> Seen(cs, i, t) || t == cs[i].ctype
  {
    forall t | Seen(cs, i, t) || t == cs[i].ctype ensures Seen(cs, i + 1, t) {
      if t == cs[i].ctype { assert cs[i].ctype == t; }
    }
  }

  lemma AllSeen(cs: seq<Condition>)
    ensures forall t :: Seen(cs, |cs|, t) <==> t in AsMap(cs)
  {
    forall t ensures Seen(cs, |cs|, t) <==> t in AsMap(cs) { FindMember(cs, t); }
  }

  lemma LoggedNext(n: Node, log: seq<Write>, w: Write, k: nat)
    ensures ApplyAll(n, Survived(log + [w], k)) ==
              if |log| < k then Apply(ApplyAll(n, Survived(log, k)), w) else ApplyAll(n, Survived(log, k))
  {
    if |log| < k {
      ApplyNext(n, log + [w], |log|);
      assert (log + [w])[..|log|] == log && (log + [w])[..|log| + 1] == log + [w];
    } else {
      assert Survived(log + [w], k) == Survived(log, k);
    }
  }

  // The stateroots of the node, written by a process that survives `budget` more durable writes.
  class Host {
    var node: Node
    var budget: nat
    ghost const start: Node
    ghost const survives: nat
    ghost var log: seq<Write>

    // The node is what the survived part of the attempted writes made of it.
    ghost predicate Valid() reads this {
      && node == ApplyAll(start, Survived(log, survives))
      && budget == if |log| < survives then survives - |log| else 0
    }

    constructor (n: Node, k: nat)
      ensures Valid() && node == n && start == n && survives == k && log == []
    {
      node, budget, start, survives, log := n, k, n, k, [];
    }

    method Do(w: Write)
      requires Valid()
      modifies this
      ensures Valid() && log == old(log) + [w]
      ensures node == if old(budget) > 0 then Apply(old(node), w) else old(node)
      ensures node.booted == old(node.booted)
    {
      LoggedNext(start, log, w, survives);
      if budget > 0 {
        node := Apply(node, w);
        budget := budget - 1;
      }
      log := log + [w];
    }

    // InitIBU
    method InitIBU()
      requires Valid()
      modifies this
      ensures Valid() && log == old(log) + InitWrites(old(node))
    {
      var b := node.booted;
      if b !in node.file {
        if b !in node.etcd { Do(PutCR(b, Resource(IdleStage, Other(b), map[]))); }
        return;
      }
      var saved := node.file[b];
      Do(DelCR(b));
      Do(PutCR(b, saved.(conds := map[])));
      Do(PutCR(b, saved));
      Do(DelFile(b));
    }

    // InitiateRollback: read the copy saved on the other stateroot, mark it, write it back, boot it.
    method InitiateRollback(stop: AutoStop)
      requires Valid()
      modifies this
      ensures Valid() && log == old(log) + AutoRollbackWrites(old(node), stop)
      ensures node.booted == old(node.booted)
    {
      var o := Other(node.booted);
      if stop.AutoDisabled? || o !in node.file || stop.AutoSaveFails? { return; }
      Do(PutFile(o, Failing(node.file[o], UpgradeStage)));
      if stop.AutoSetDefaultFails? { return; }
      Do(SetDefault(o));
    }

    method PrePivot(ibu: ImageBasedUpgrade, stop: PrePivotStop)
      requires Valid() && ibu.Valid()
      modifies this, ibu.status
      ensures Valid() && ibu.Valid()
      ensures var (ws, m) := Pivot.PrePivot(old(node.booted), old(ibu.View()), stop);
              log == old(log) + ws && ibu.View() == old(ibu.View()).(conds := m)
    {
      ibu.SetStarted(UpgradeStage);
      if stop.PreWaits? { return; }
      Do(PutCR(node.booted, ibu.View()));
      if stop.PreErrors? { return; }
      if stop.PreFails? { ibu.SetFailed(UpgradeStage); return; }
      Export(ibu, stop);
    }

    // The end of PrePivot: save the resource on both stateroots, set the default and reboot.
    method Export(ibu: ImageBasedUpgrade, stop: PrePivotStop)
      requires Valid() && ibu.Valid() && stop in {ExportOldFails, SetDefaultFails, PreRebootFails}
      modifies this, ibu.status
      ensures Valid() && ibu.Valid()
      ensures var x, b := old(ibu.View()), old(node.booted);
              && log == old(log) + (match stop
                                    case ExportOldFails => [PutFile(x.seed, x)]
                                    case SetDefaultFails => [PutFile(x.seed, x), PutFile(b, Failing(x, UpgradeStage))]
                                    case _ => [PutFile(x.seed, x), PutFile(b, Failing(x, UpgradeStage)), SetDefault(x.seed)])
              && ibu.View() == if stop.PreRebootFails? then Failing(x, UpgradeStage) else x
    {
      Do(PutFile(ibu.seed, ibu.View()));
      if stop.ExportOldFails? { return; }
      var copy := new ImageBasedUpgrade(ibu.View(), ibu.status.conditions);
      copy.SetFailed(UpgradeStage);
      Do(PutFile(node.booted, copy.View()));
      if stop.SetDefaultFails? { return; }
      Do(SetDefault(ibu.seed));
      ibu.SetFailed(UpgradeStage);
    }

    method PostPivot(ibu: ImageBasedUpgrade, outcome: PostOutcome)
      requires Valid() && ibu.Valid()
      modifies this, ibu.status
      ensures Valid() && ibu.Valid()
      ensures var (ws, m) := Pivot.PostPivot(old(node), old(ibu.View()), outcome);
              log == old(log) + ws && ibu.View() == old(ibu.View()).(conds := m)
    {
      ibu.SetStarted(UpgradeStage);
      ghost var file := node.file;
      Do(PutCR(node.booted, ibu.View()));
      assert node.file == file;
      match outcome {
        case PostWaits =>
        case PostFails(auto) =>
          ibu.SetFailed(UpgradeStage);
          InitiateRollback(auto);
        case PostCompletes => ibu.SetCompleted(UpgradeStage);
      }
    }

    method StartRollback(ibu: ImageBasedUpgrade, stop: RollbackStop)
      requires Valid() && ibu.Valid()
      modifies this, ibu.status
      ensures Valid() && ibu.Valid()
      ensures var (ws, m) := Pivot.StartRollback(old(node.booted), old(ibu.View()), stop);
              log == old(log) + ws && ibu.View() == old(ibu.View()).(conds := m)
    {
      var b := node.booted;
      ibu.SetStarted(RollbackStage);
      if stop.RollbackPrepareFails? { ibu.SetFailed(RollbackStage); return; }
      Do(SetDefault(Other(b)));
      Do(PutCR(b, ibu.View()));
      if stop.RollbackSaveFails? { ibu.SetFailed(RollbackStage); return; }
      Do(PutFile(Other(b), ibu.View()));
      ibu.SetFailed(RollbackStage);
    }

    method Cleanup(ibu: ImageBasedUpgrade, outcome: CleanupOutcome, failure: Reason)
      requires Valid() && ibu.Valid()
      modifies this, ibu.status
      ensures Valid() && ibu.Valid()
      ensures var (ws, m) := Pivot.Cleanup(old(node.booted), old(ibu.View().conds), outcome, failure);
              log == old(log) + ws && ibu.View() == old(ibu.View()).(conds := m)
    {
      match outcome {
        case CleanupOk =>
          Do(DelRoot(Other(node.booted)));
          ibu.status.ResetStatusConditions();
        case CleanupFails(removed) =>
          if removed { Do(DelRoot(Other(node.booted))); }
          ibu.status.SetStatusCondition(Idle, false, failure);
      }
    }

    method Finalize(ibu: ImageBasedUpgrade, env: Env)
      requires Valid() && ibu.Valid()
      modifies this, ibu.status
      ensures Valid() && ibu.Valid()
      ensures var (ws, m) := Pivot.Finalize(old(node.booted), old(ibu.View().conds), env);
              log == old(log) + ws && ibu.View() == old(ibu.View()).(conds := m)
    {
      if env.healthy {
        Cleanup(ibu, env.cleanup, FinalizeFailed);
      } else {
        ibu.status.SetStatusCondition(Idle, false, Finalizing);
      }
    }

    // handleAbortOrFinalize; removing the manual-cleanup annotation reloads the status last written.
    method AbortOrFinalize(ibu: ImageBasedUpgrade, persisted: seq<Condition>, env: Env)
      requires Valid() && ibu.Valid() && Distinct(persisted) && Idle in ibu.View().conds
      modifies this, ibu.status
      ensures Valid() && ibu.Valid()
      ensures var (ws, m) := Pivot.AbortOrFinalize(old(node.booted), old(ibu.View().conds), AsMap(persisted), env);
              log == old(log) + ws && ibu.View() == old(ibu.View()).(conds := m)
    {
      match Find(ibu.status.conditions, Idle).value.reason {
        case Aborting => Cleanup(ibu, env.cleanup, AbortFailed);
        case Finalizing => Finalize(ibu, env);
        case AbortFailed =>
          if env.manualCleanup { ibu.status.conditions := persisted; Cleanup(ibu, env.cleanup, AbortFailed); }
        case FinalizeFailed =>
          if env.manualCleanup { ibu.status.conditions := persisted; Finalize(ibu, env); }
        case _ =>
      }
    }

    method HandleStage(ibu: ImageBasedUpgrade, persisted: seq<Condition>, env: Env)
      requires Valid() && ibu.Valid() && Distinct(persisted)
      modifies this, ibu.status
      ensures Valid() && ibu.Valid()
      ensures var (ws, m) := Pivot.HandleStage(old(node), old(ibu.View()), AsMap(persisted), env);
              log == old(log) + ws && ibu.View() == old(ibu.View()).(conds := m)
    {
      match InProgressStage(ibu.View().conds) {
        case None =>
        case Some(IdleStage) => AbortOrFinalize(ibu, persisted, env);
        case Some(PrepStage) =>
          match env.prep {
            case PrepWaits => ibu.SetStarted(PrepStage);
            case PrepFails => ibu.SetFailed(PrepStage);
            case PrepCompletes => ibu.SetCompleted(PrepStage);
          }
        case Some(UpgradeStage) =>
          if !env.rootKnown { ibu.SetFailed(UpgradeStage); }
          else if ibu.seed != node.booted { PrePivot(ibu, env.pre); }
          else { PostPivot(ibu, env.post); }
        case Some(RollbackStage) =>
          if !env.rootKnown { ibu.SetFailed(RollbackStage); }
          else if ibu.seed != node.booted { ibu.SetCompleted(RollbackStage); }
          else { StartRollback(ibu, env.rollback); }
      }
    }

    // gateIBUByIPConfig
    method GateByIPConfig(ibu: ImageBasedUpgrade, v: GateVerdict) returns (proceed: bool)
      requires Valid() && ibu.Valid() && node.booted in node.etcd && node.etcd[node.booted] == ibu.View()
      modifies this, ibu.status
      ensures Valid() && ibu.Valid() && node.booted == old(node.booted) && node.file == old(node.file)
      ensures var (go, m) := Gate(old(ibu.View().conds), ibu.stage, v);
              && proceed == go && ibu.View() == old(ibu.View()).(conds := m)
              && log == old(log) + if m == old(ibu.View().conds) then [] else [PutCR(node.booted, ibu.View())]
    {
      match v {
        case Absent => proceed := false;
        case Uninitialised => proceed := true;
        case Released =>
          proceed := true;
          var t := InProgressType(ibu.stage);
          if HasReason(ibu.View().conds, t, Blocked) {
            ibu.status.RemoveStatusCondition(t);
            Do(PutCR(node.booted, ibu.View()));
          }
        case NotIdle =>
          proceed := false;
          ghost var before := ibu.View().conds;
          ibu.status.SetStatusCondition(InProgressType(ibu.stage), false, Blocked);
          // Setting the mark again changes nothing and the API server writes nothing.
          if ibu.View() != node.etcd[node.booted] { Do(PutCR(node.booted, ibu.View())); }
      }
    }

    method AcceptOrReject(ibu: ImageBasedUpgrade, after: bool)
      requires Valid() && ibu.Valid()
      modifies this, ibu.status
      ensures Valid() && ibu.Valid() && node.booted == old(node.booted) && node.file == old(node.file)
      ensures ibu.View() == old(ibu.View()).(conds := Transitioned(old(ibu.View().conds), ibu.stage, after))
      ensures log == old(log) + if Accepts(old(ibu.View().conds), ibu.stage, after) then [PutCR(node.booted, ibu.View())] else []
    {
      if TransitionRequested(ibu.View().conds, ibu.stage) {
        var ok := ibu.ValidateStageTransition(after);
        if ok { Do(PutCR(node.booted, ibu.View())); }
      }
    }

    // What follows the gate: transition, handler, final status.
    method Proceed(ibu: ImageBasedUpgrade, env: Env)
      requires Valid() && ibu.Valid()
      modifies this, ibu.status
      ensures Valid() && ibu.Valid()
      ensures log == old(log) + ProceedWrites(old(node), old(ibu.View()), env)
    {
      var b := node.booted;
      var persisted := ibu.status.conditions;
      ghost var n, x := node, ibu.View();
      AcceptOrReject(ibu, ibu.seed == b);
      ghost var accepted := log[|old(log)|..];
      ghost var t := ibu.View();
      SameHandler(n, node, t, AsMap(persisted), env);
      HandleStage(ibu, persisted, env);
      ProceedParts(n, x, env, accepted, t);
      Do(PutCR(b, ibu.View()));
    }

    // Reconcile
    method Reconcile(ibu: ImageBasedUpgrade, env: Env)
      requires Valid() && ibu.Valid() && node.booted in node.etcd && node.etcd[node.booted] == ibu.View()
      modifies this, ibu.status
      ensures Valid() && ibu.Valid()
      ensures log == old(log) + ReconcileWrites(old(node), env)
    {
      ghost var n, log0 := node, log;
      var proceed := GateByIPConfig(ibu, env.gate);
      ReconcileParts(n, env, log0, proceed, ibu.View().conds, log[|log0|..]);
      if proceed {
        SameProceed(old(node), node, ibu.View(), env);
        Proceed(ibu, env);
      }
    }
  }

  lemma ProceedParts(n: Node, x: Resource, env: Env, accepted: seq<Write>, t: Resource)
    requires t == x.(conds := Transitioned(x.conds, x.stage, x.seed == n.booted))
    requires accepted == if Accepts(x.conds, x.stage, x.seed == n.booted) then [PutCR(n.booted, t)] else []
    ensures var (ws, m) := Pivot.HandleStage(n, t, x.conds, env);
            forall log: seq<Write> ::
              log + accepted + ws + [PutCR(n.booted, t.(conds := m))] == log + ProceedWrites(n, x, env)
  {}

  lemma ReconcileParts(n: Node, env: Env, log: seq<Write>, go: bool, m0: Conds, gated: seq<Write>)
    requires n.booted in n.etcd
    requires var cr := n.etcd[n.booted];
             && (go, m0) == Gate(cr.conds, cr.stage, env.gate)
             && gated == if m0 == cr.conds then [] else [PutCR(n.booted, cr.(conds := m0))]
    ensures log + ReconcileWrites(n, env) ==
              log + gated + if go then ProceedWrites(n, n.etcd[n.booted].(conds := m0), env) else []
  {
    assert GateWrites(n, env) == gated;
    Appended(log, gated, if go then ProceedWrites(n, n.etcd[n.booted].(conds := m0), env) else []);
  }

  lemma Appended(a: seq<Write>, b: seq<Write>, c: seq<Write>)
    ensures a + (b + c) == a + b + c
  {}

  lemma SameProceed(n: Node, n': Node, x: Resource, env: Env)
    requires n.booted == n'.booted && n.file == n'.file
    ensures ProceedWrites(n, x, env) == ProceedWrites(n', x, env)
  {
    SameHandler(n, n', x.(conds := Transitioned(x.conds, x.stage, x.seed == n.booted)), x.conds, env);
  }

  // A handler depends on the booted stateroot and on the saved copies only.
  lemma SameHandler(n: Node, n': Node, x: Resource, persisted: Conds, env: Env)
    requires n.booted == n'.booted && n.file == n'.file
    ensures Pivot.HandleStage(n, x, persisted, env) == Pivot.HandleStage(n', x, persisted, env)
  {}

  // A reconcile that dies after k writes is the step the run properties are stated over.
  method RunReconcile(m: Machine, cs: seq<Condition>, env: Env, k: nat) returns (n: Node)
    requires Enabled(m, Reconcile(env, k))
    requires Distinct(cs) && AsMap(cs) == m.n.etcd[m.n.booted].conds
    ensures n == Step(m, Reconcile(env, k)).n
  {
    var host := new Host(m.n, k);
    var ibu := new ImageBasedUpgrade(m.n.etcd[m.n.booted], cs);
    host.Reconcile(ibu, env);
    assert [] + ReconcileWrites(m.n, env) == ReconcileWrites(m.n, env);
    n := host.node;
  }

  // A start of the controller that dies after k writes is the step of the runs.
  method RunStart(m: Machine, k: nat) returns (n: Node)
    requires Enabled(m, Start(k))
    ensures n == Step(m, Start(k)).n
  {
    var host := new Host(m.n, k);
    host.InitIBU();
    assert [] + InitWrites(m.n) == InitWrites(m.n);
    n := host.node;
  }
}
