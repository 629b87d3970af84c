/**
 The upgrade handlers with the application data: it is backed up before the node is set to boot the
 new stateroot, and restored there before the upgrade completes.
 */
module UpgradeData {
  import opened Conditions
  import opened Lifecycle
  import opened Pivot
  import opened Controller
  import opened Prelude
  import BackupRestore

  // Where a pre-pivot run stops, given how its backups ended and where it would stop without them.
  function StopAfter(r: BackupRestore.Outcome, later: PrePivotStop): PrePivotStop {
    match r
    case AllDone => later
    case Soon => PreWaits
    case Later => PreWaits
    case Error => PreErrors
    case GroupFailed => PreFails
    case StaleLeft => PreFails
  }

  // The upgrade has failed, or goes on.
  predicate UpgradeFailed(m: Conds) {
    && UpgradeInProgress in m && m[UpgradeInProgress] == Cond(false, Failed)
    && UpgradeCompleted in m && m[UpgradeCompleted] == Cond(false, Failed)
  }

  predicate UpgradeGoesOn(m: Conds) {
    UpgradeInProgress in m && m[UpgradeInProgress] == Cond(true, InProgress)
  }

  // PrePivot: the backups run to their end or stop it; others are at work meanwhile and afterwards.
  // The default is set, and the reboot requested, only when all backups are completed. The upgrade
  // fails when a backup has failed or a stale one cannot be deleted, and goes on when it has to wait.
  method PrePivot(cluster: BackupRestore.BackupCluster, host: Host, ibu: ImageBasedUpgrade,
                  groups: seq<seq<BackupRestore.Name>>, later: PrePivotStop)
    returns (stop: PrePivotStop, ghost r: BackupRestore.Outcome, ghost done: nat)
    requires host.Valid() && ibu.Valid()
    modifies cluster, host, ibu.status
    ensures host.Valid() && ibu.Valid()
    ensures BackupRestore.Handled(groups, old(cluster.backups), cluster.backups)
    ensures done <= |groups| && BackupRestore.DoneUpTo(groups, cluster.backups, done) && (r == BackupRestore.AllDone <==> done == |groups|)
    ensures r in {BackupRestore.GroupFailed, BackupRestore.Soon, BackupRestore.Later} ==> done < |groups| && cluster.LastLooks(groups[done], r)
    ensures r == BackupRestore.AllDone ==> stop == later
    ensures r in {BackupRestore.GroupFailed, BackupRestore.StaleLeft} ==> UpgradeFailed(ibu.View().conds)
    ensures r in {BackupRestore.Soon, BackupRestore.Later, BackupRestore.Error} ==> UpgradeGoesOn(ibu.View().conds)
    ensures var (ws, m) := Pivot.PrePivot(old(host.node.booted), old(ibu.View()), stop);
            && host.log == old(host.log) + ws && ibu.View() == old(ibu.View()).(conds := m)
            && (SetDefault(ibu.seed) in ws ==> r == BackupRestore.AllDone && BackupRestore.DoneUpTo(groups, cluster.backups, |groups|))
  {
    var outcome;
    outcome, done := cluster.HandleBackup(groups);
    r := outcome;
    ghost var s := cluster.backups;
    cluster.Interfere();
    BackupRestore.HandledThenRely(groups, old(cluster.backups), s, cluster.backups);
    stop := StopAfter(outcome, later);
    host.PrePivot(ibu, stop);
  }

  // How a post-pivot run ends, given how its restores ended, what an automatic rollback would do, and
  // whether the deferred health checks pass.
  function OutcomeAfter(r: BackupRestore.Outcome, auto: AutoStop, healthy: bool): PostOutcome {
    match r
    case AllDone => if healthy then PostCompletes else PostWaits
    case GroupFailed => PostFails(auto)
    case _ => PostWaits
  }

  // PostPivot, whose steps before the restores succeed (None) or end it. The upgrade is marked
  // completed only when every restore that was on disk at the start is completed, and then if the
  // health checks pass; it fails when a restore has failed.
  method PostPivot(data: BackupRestore.RestoreHost, host: Host, ibu: ImageBasedUpgrade, top: nat,
                   before: Option<PostOutcome>, auto: AutoStop, healthy: bool)
    returns (outcome: PostOutcome, ghost r: BackupRestore.Outcome, ghost last: nat)
    requires host.Valid() && ibu.Valid() && (before.Some? ==> !before.value.PostCompletes?)
    requires forall i | i in data.state.disk :: i < top
    modifies data, host, ibu.status
    ensures host.Valid() && ibu.Valid()
    ensures BackupRestore.RestoreHandled(old(data.state), data.state, top)
    ensures before.Some? ==> outcome == before.value && data.state == old(data.state)
    ensures before.None? && r in {BackupRestore.GroupFailed, BackupRestore.Soon, BackupRestore.Later} ==>
              last in data.state.disk && data.LastLooks(data.state.disk[last], r)
    ensures before.None? && r == BackupRestore.AllDone ==> BackupRestore.DiskDone(old(data.state.disk), data.state, top)
    ensures before.None? ==>
              var m := ibu.View().conds;
              && (r == BackupRestore.GroupFailed ==> UpgradeFailed(m) && outcome == PostFails(auto))
              && (r == BackupRestore.AllDone && healthy ==>
                    UpgradeCompleted in m && m[UpgradeCompleted] == Cond(true, Completed) && !IsTrue(m, UpgradeInProgress))
              && (r in {BackupRestore.Soon, BackupRestore.Later, BackupRestore.Error} || (r == BackupRestore.AllDone && !healthy) ==> UpgradeGoesOn(m))
              && r != BackupRestore.StaleLeft
    ensures var (ws, m) := Pivot.PostPivot(old(host.node), old(ibu.View()), outcome);
            && host.log == old(host.log) + ws && ibu.View() == old(ibu.View()).(conds := m)
            && (IsTrue(m, UpgradeCompleted) && !IsTrue(old(ibu.View().conds), UpgradeCompleted) ==>
                  BackupRestore.DiskDone(old(data.state.disk), data.state, top))
  {
    last := 0;
    if before.Some? {
      outcome, r := before.value, BackupRestore.Error;
    } else {
      var restores;
      restores, last := data.HandleRestore(top);
      r := restores;
      outcome := OutcomeAfter(restores, auto, healthy);
    }
    host.PostPivot(ibu, outcome);
  }
}
