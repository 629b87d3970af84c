/**
 Backups and restores of application data, group by group over many reconciles, while the backup
 tool changes phases at any moment and any call to the API server may fail.
 */
module BackupRestore {
  import opened Prelude

  type Name = string

  datatype Phase = NoPhase | Ongoing | Completed | Failed

  // Own: labelled with this cluster's ID; Foreign: labelled, but with another ID or with none;
  // Unlabelled: without any labels.
  datatype Owner = Own | Foreign | Unlabelled

  datatype Backup = Backup(owner: Owner, phase: Phase)

  type Backups = map<Name, Backup>

  predicate IsOwn(s: Backups, n: Name) {
    n in s && s[n].owner == Own
  }

  predicate Done(s: Backups, n: Name) {
    IsOwn(s, n) && s[n].phase == Completed
  }

  // The backups of the first g groups are completed.
  predicate DoneUpTo(groups: seq<seq<Name>>, s: Backups, g: nat)
    requires g <= |groups|
  {
    forall i, j | 0 <= i < g && 0 <= j < |groups[i]| :: Done(s, groups[i][j])
  }

  // n belongs to a group all of whose predecessors are completed.
  ghost predicate InTurn(groups: seq<seq<Name>>, s: Backups, n: Name) {
    exists g :: 0 <= g < |groups| && n in groups[g] && DoneUpTo(groups, s, g)
  }

  // Every backup of this cluster was created in its turn.
  ghost predicate Waved(groups: seq<seq<Name>>, s: Backups) {
    forall n | IsOwn(s, n) :: InTurn(groups, s, n)
  }

  // What others may do: they create no backup labelled as this cluster's, and what is completed
  // stays so.
  predicate Rely(s: Backups, s': Backups) {
    && (forall n | n in s && Done(s, n) :: Done(s', n))
    && (forall n | n in s' && IsOwn(s', n) :: IsOwn(s, n))
  }

  // What a reconcile may have done, with others at work in between, wherever it stopped.
  ghost predicate Handled(groups: seq<seq<Name>>, s: Backups, s': Backups) {
    && (forall n | n in s && Done(s, n) :: Done(s', n))
    && (forall n | IsOwn(s', n) && !IsOwn(s, n) :: InTurn(groups, s', n))
  }

  lemma DoneKept(groups: seq<seq<Name>>, s: Backups, s': Backups, n: Name)
    requires forall n | n in s && Done(s, n) :: Done(s', n)
    requires InTurn(groups, s, n)
    ensures InTurn(groups, s', n)
  {
    var g :| 0 <= g < |groups| && n in groups[g] && DoneUpTo(groups, s, g);
    assert DoneUpTo(groups, s', g);
  }

  lemma WavedKept(groups: seq<seq<Name>>, s: Backups, s': Backups)
    requires Waved(groups, s) && (Rely(s, s') || Handled(groups, s, s'))
    ensures Waved(groups, s')
  {
    forall n | IsOwn(s', n) ensures InTurn(groups, s', n) {
      if IsOwn(s, n) { DoneKept(groups, s, s', n); }
    }
  }

  // A run: the clusters one after the other, each following by a reconcile or by others' doing.
  ghost predicate BackupRun(groups: seq<seq<Name>>, run: seq<Backups>) {
    forall i | 0 <= i < |run| - 1 :: Rely(run[i], run[i + 1]) || Handled(groups, run[i], run[i + 1])
  }

  // In every run that starts without own backups, an own backup exists only when all groups
  // before one it belongs to are completed.
  lemma {:induction false} BackupWaves(groups: seq<seq<Name>>, run: seq<Backups>, k: nat)
    requires BackupRun(groups, run) && k < |run| && forall n | n in run[0] :: !IsOwn(run[0], n)
    ensures Waved(groups, run[k])
  {
    if k > 0 {
      BackupWaves(groups, run, k - 1);
      WavedKept(groups, run[k - 1], run[k]);
    }
  }

  // What was completed at some point of a run is completed from then on.
  lemma {:induction false} CompletedStays(groups: seq<seq<Name>>, run: seq<Backups>, j: nat, k: nat, g: nat)
    requires BackupRun(groups, run) && j <= k < |run| && g <= |groups| && DoneUpTo(groups, run[j], g)
    ensures DoneUpTo(groups, run[k], g)
  {
    if j < k { CompletedStays(groups, run, j, k - 1, g); }
  }

  // A run in which the steps from the numbered states on requested the reboot of the upgrade, each
  // with all groups completed, as FinishPrePivot does.
  ghost predicate RebootRun(groups: seq<seq<Name>>, run: seq<Backups>, reboots: set<nat>) {
    && BackupRun(groups, run)
    && forall i | i in reboots ::
         i + 1 < |run| && Handled(groups, run[i], run[i + 1]) && DoneUpTo(groups, run[i + 1], |groups|)
  }

  // In every run that starts without own backups: once the reboot is requested all groups are
  // completed and stay so, and each backup had been created in its turn.
  lemma RebootAfterBackups(groups: seq<seq<Name>>, run: seq<Backups>, reboots: set<nat>, i: nat, k: nat)
    requires RebootRun(groups, run, reboots) && i in reboots && i < k < |run|
    requires forall n | n in run[0] :: !IsOwn(run[0], n)
    ensures DoneUpTo(groups, run[k], |groups|) && Waved(groups, run[k])
    ensures forall n | IsOwn(run[k], n) :: IsOwn(run[i + 1], n)
  {
    CompletedStays(groups, run, i + 1, k, |groups|);
    BackupWaves(groups, run, k);
    NoneCreatedLater(groups, run, i + 1, k);
  }

  lemma InTurnDone(groups: seq<seq<Name>>, s: Backups, s': Backups, n: Name)
    requires DoneUpTo(groups, s, |groups|) && InTurn(groups, s', n)
    ensures Done(s, n)
  {
    var g :| 0 <= g < |groups| && n in groups[g] && DoneUpTo(groups, s', g);
    var i :| 0 <= i < |groups[g]| && groups[g][i] == n;
  }

  // With all groups completed no further backup is created.
  lemma {:induction false} NoneCreatedLater(groups: seq<seq<Name>>, run: seq<Backups>, j: nat, k: nat)
    requires BackupRun(groups, run) && j <= k < |run| && DoneUpTo(groups, run[j], |groups|)
    ensures forall n | IsOwn(run[k], n) :: IsOwn(run[j], n)
  {
    if j < k {
      NoneCreatedLater(groups, run, j, k - 1);
      CompletedStays(groups, run, j, k - 1, |groups|);
      forall n | IsOwn(run[k], n) ensures IsOwn(run[k - 1], n) {
        if InTurn(groups, run[k], n) { InTurnDone(groups, run[k - 1], run[k], n); }
      }
    }
  }

  predicate AllDoneIn(s: Backups, names: seq<Name>) {
    forall i | 0 <= i < |names| :: Done(s, names[i])
  }

  predicate BackupsKept(s: Backups, s': Backups) {
    forall n | n in s && Done(s, n) :: Done(s', n)
  }

  // What the controller sees when it looks for a backup or a restore: its phase, or that there is none
  // of this cluster's; Unavailable: there is no restore, nor the backup to restore from.
  datatype Seen = At(phase: Phase) | Absent | Unavailable

  datatype Look = Look(name: Name, seen: Seen)

  // The names seen in one of these ways, in order.
  function NamesSeen(log: seq<Look>, ways: set<Seen>): seq<Name> {
    if log == [] then []
    else
      var n := |log| - 1;
      NamesSeen(log[..n], ways) + if log[n].seen in ways then [log[n].name] else []
  }

  lemma {:induction false} NamesSeenAll(log: seq<Look>, ways: set<Seen>)
    ensures |NamesSeen(log, ways)| <= |log|
    ensures |NamesSeen(log, ways)| == |log| <==> forall i | 0 <= i < |log| :: log[i].seen in ways
    ensures NamesSeen(log, ways) == [] <==> forall i | 0 <= i < |log| :: log[i].seen !in ways
  {
    if log != [] {
      var n := |log| - 1;
      NamesSeenAll(log[..n], ways);
      assert forall i | 0 <= i < n :: log[..n][i] == log[i];
    }
  }

  lemma NamesSeenNext(log: seq<Look>, l: Look, ways: set<Seen>)
    ensures NamesSeen(log + [l], ways) == NamesSeen(log, ways) + if l.seen in ways then [l.name] else []
  {
    assert (log + [l])[..|log|] == log;
  }

  // The log is of the names, in order.
  predicate LogOf(log: seq<Look>, names: seq<Name>) {
    |log| == |names| && forall i | 0 <= i < |log| :: log[i].name == names[i]
  }

  datatype Tracker = Tracker(succeeded: seq<Name>, failed: seq<Name>, progressing: seq<Name>, pending: seq<Name>)

  // Each name is listed as it was seen; one that was not there has been created and is progressing.
  predicate Tallies(bt: Tracker, log: seq<Look>) {
    && bt.succeeded == NamesSeen(log, {At(Completed)}) && bt.failed == NamesSeen(log, {At(Failed)})
    && bt.progressing == NamesSeen(log, {At(Ongoing), Absent}) && bt.pending == NamesSeen(log, {At(NoPhase)})
  }

  // Soon and Later: to be looked at again after a short or a medium interval.
  datatype Outcome = AllDone | Soon | Later | Error | GroupFailed | StaleLeft

  // What looking at a group that is not completed leads to: failure when one has failed, else waiting,
  // for a shorter time when one is in progress.
  predicate OutcomeOfLast(log: seq<Look>, r: Outcome) {
    && (exists i :: 0 <= i < |log| && log[i].seen != At(Completed))
    && r in {GroupFailed, Soon, Later}
    && (r == GroupFailed <==> exists i :: 0 <= i < |log| && log[i].seen == At(Failed))
    && (r == Soon <==> r != GroupFailed && exists i :: 0 <= i < |log| && log[i].seen in {At(Ongoing), Absent})
  }

  predicate AllCompleted(log: seq<Look>) {
    forall i | 0 <= i < |log| :: log[i].seen == At(Completed)
  }

  lemma CompletedByCount(log: seq<Look>, succeeded: seq<Name>)
    requires succeeded == NamesSeen(log, {At(Completed)})
    ensures |succeeded| == |log| <==> AllCompleted(log)
  {
    NamesSeenAll(log, {At(Completed)});
  }

  lemma LastOutcome(log: seq<Look>, succeeded: seq<Name>, failed: seq<Name>, progressing: seq<Name>, r: Outcome)
    requires succeeded == NamesSeen(log, {At(Completed)}) && failed == NamesSeen(log, {At(Failed)})
    requires progressing == NamesSeen(log, {At(Ongoing), Absent}) && |succeeded| != |log|
    requires r == if failed != [] then GroupFailed else if progressing != [] then Soon else Later
    ensures OutcomeOfLast(log, r)
  {
    NamesSeenAll(log, {At(Completed)});
    NamesSeenAll(log, {At(Failed)});
    NamesSeenAll(log, {At(Ongoing), Absent});
  }

  // A backup looked for by name, whoever it belongs to.
  datatype Check = Check(name: Name, found: Option<Backup>)

  predicate Stale(c: Check) {
    c.found.Some? && c.found.value.owner == Foreign
  }

  function StaleOf(log: seq<Check>): seq<Check> {
    if log == [] then []
    else
      var n := |log| - 1;
      StaleOf(log[..n]) + if Stale(log[n]) then [log[n]] else []
  }

  // Every stale one and no other is listed.
  lemma {:induction false} StaleOfExactly(log: seq<Check>, c: Check)
    ensures c in StaleOf(log) <==> c in log && Stale(c)
  {
    if log != [] {
      StaleOfExactly(log[..|log| - 1], c);
      assert log == log[..|log| - 1] + [log[|log| - 1]];
    }
  }

  lemma StaleOfNext(log: seq<Check>, c: Check)
    ensures StaleOf(log + [c]) == StaleOf(log) + if Stale(c) then [c] else []
  {
    assert (log + [c])[..|log|] == log;
  }

  predicate NamesOf(names: seq<Name>, log: seq<Check>) {
    |names| == |log| && forall i | 0 <= i < |names| :: names[i] == log[i].name
  }

  // What looking for the first j of the group by name has found.
  predicate Found(group: seq<Name>, j: nat, log: seq<Check>, stale: seq<Name>)
    requires j <= |group|
  {
    |log| == j && (forall i | 0 <= i < j :: log[i].name == group[i]) && NamesOf(stale, StaleOf(log))
  }

  lemma FoundNext(group: seq<Name>, j: nat, log: seq<Check>, stale: seq<Name>, c: Check)
    requires j < |group| && Found(group, j, log, stale) && c.name == group[j]
    ensures Found(group, j + 1, log + [c], if Stale(c) then stale + [c.name] else stale)
  {
    StaleOfNext(log, c);
  }

  lemma CheckedAfter(checks: seq<Check>, requested: seq<Check>, log: seq<Check>, c: Check)
    ensures checks + log + [c] == checks + (log + [c])
    ensures requested + StaleOf(log) + (if Stale(c) then [c] else []) == requested + StaleOf(log + [c])
  {
    StaleOfNext(log, c);
  }

  datatype StaleResult = Cleaned | NotDeleted | Unreached

  // What was looked for: the group's names, and then, in vain, each of the stale backups found.
  predicate ChecksOf(log: seq<Check>, group: seq<Name>) {
    && |group| <= |log| && (forall i | 0 <= i < |group| :: log[i].name == group[i])
    && var stale := StaleOf(log[..|group|]);
    && |log| == |group| + |stale|
    && forall i | 0 <= i < |stale| :: log[|group| + i] == Check(stale[i].name, None)
  }

  // The deletion requests sent in between were for backups of other clusters.
  ghost predicate OthersOnly(before: seq<Check>, after: seq<Check>) {
    && before <= after
    && forall i | |before| <= i < |after| :: Stale(after[i])
  }

  class BackupCluster {
    var backups: Backups
    // The backups whose deletion has been requested, as they were then.
    ghost var requested: seq<Check>
    // What has been looked at, what has been created, and how many calls have failed.
    ghost var looks: seq<Look>
    ghost var checks: seq<Check>
    ghost var created: seq<Name>
    ghost var faults: nat
    // The reclaim policies of the volumes have been patched.
    ghost var patched: bool

    constructor (s: Backups)
      ensures backups == s && requested == [] && looks == [] && checks == [] && created == [] && faults == 0 && !patched
    {
      backups, requested, looks, checks, created, faults, patched := s, [], [], [], [], 0, false;
    }

    // Others are at work.
    method Interfere()
      modifies `backups
      ensures Rely(old(backups), backups)
    {
      var s: Backups := *;
      if Rely(backups, s) { backups := s; }
    }

    // A call that may fail.
    method Call() returns (ok: bool)
      modifies `faults
      ensures faults == old(faults) + if ok then 0 else 1
    {
      ok := *;
      if !ok { faults := faults + 1; }
    }

    // PatchPVsReclaimPolicy
    method PatchPolicies() returns (ok: bool)
      modifies `faults, `patched
      ensures faults == old(faults) + (if ok then 0 else 1) && (ok ==> patched)
    {
      ok := Call();
      patched := patched || ok;
    }

    // getBackup, with others at work before.
    method GetBackup(n: Name) returns (ok: bool, found: Option<Backup>)
      modifies `backups, `faults, `checks
      ensures Rely(old(backups), backups) && faults == old(faults) + if ok then 0 else 1
      ensures found == if n in backups then Some(backups[n]) else None
      ensures checks == if ok then old(checks) + [Check(n, found)] else old(checks)
    {
      Interfere();
      ok := Call();
      found := if n in backups then Some(backups[n]) else None;
      if ok { checks := checks + [Check(n, found)]; }
    }

    // getValidBackup, with others at work before.
    method GetValidBackup(n: Name) returns (ok: bool, seen: Seen)
      modifies `backups, `faults, `looks
      ensures Rely(old(backups), backups) && faults == old(faults) + if ok then 0 else 1
      ensures seen == if IsOwn(backups, n) then At(backups[n].phase) else Absent
      ensures looks == if ok then old(looks) + [Look(n, seen)] else old(looks)
    {
      Interfere();
      ok := Call();
      seen := if IsOwn(backups, n) then At(backups[n].phase) else Absent;
      if ok { looks := looks + [Look(n, seen)]; }
    }

    // createNewBackupCr; the API server refuses a name that is taken.
    method Create(n: Name) returns (ok: bool)
      modifies `backups, `faults, `created
      ensures faults == old(faults) + if ok then 0 else 1
      ensures ok ==> n !in old(backups) && backups == old(backups)[n := Backup(Own, NoPhase)] && created == old(created) + [n]
      ensures !ok ==> backups == old(backups) && created == old(created)
    {
      ok := *;
      if ok && n !in backups {
        backups, created := backups[n := Backup(Own, NoPhase)], created + [n];
      } else {
        ok, faults := false, faults + 1;
      }
    }

    // A DeleteBackupRequest, which may or may not be accepted, and be honoured at once or later.
    method RequestDeletion(n: Name) returns (ok: bool)
      requires n in backups
      modifies `backups, `faults, `requested
      ensures faults == old(faults) + if ok then 0 else 1
      ensures requested == old(requested) + [Check(n, Some(old(backups)[n]))]
      ensures backups == old(backups) || backups == old(backups) - {n}
    {
      requested := requested + [Check(n, Some(backups[n]))];
      ok := Call();
      var honoured := *;
      if ok && honoured { backups := backups - {n}; }
    }

    // Looking for one backup of the group, and requesting its deletion if it is stale.
    method RequestStale(n: Name) returns (ok: bool, found: Option<Backup>)
      modifies `backups, `faults, `checks, `requested
      ensures Rely(old(backups), backups) && OthersOnly(old(requested), requested)
      ensures faults == old(faults) + if ok then 0 else 1
      ensures ok ==> checks == old(checks) + [Check(n, found)]
      ensures ok ==> requested == old(requested) + if Stale(Check(n, found)) then [Check(n, found)] else []
      ensures Done(old(backups), n) ==> !Stale(Check(n, found))
    {
      ok, found := GetBackup(n);
      if ok && found.Some? && found.value.owner == Foreign { ok := RequestDeletion(n); }
    }

    // Looking for the backups of the group by name.
    method FindStale(group: seq<Name>) returns (ok: bool, stale: seq<Name>, ghost log: seq<Check>)
      modifies `backups, `faults, `checks, `requested
      ensures Rely(old(backups), backups) && OthersOnly(old(requested), requested)
      ensures faults >= old(faults) && (ok <==> faults == old(faults))
      ensures ok ==> |log| == |group| && checks == old(checks) + log && requested == old(requested) + StaleOf(log)
      ensures ok ==> forall i | 0 <= i < |group| :: log[i].name == group[i]
      ensures ok ==> NamesOf(stale, StaleOf(log))
      ensures ok && AllDoneIn(old(backups), group) ==> stale == []
    {
      log, stale := [], [];
      for j := 0 to |group|
        invariant Rely(old(backups), backups) && OthersOnly(old(requested), requested) && faults == old(faults)
        invariant checks == old(checks) + log && requested == old(requested) + StaleOf(log)
        invariant Found(group, j, log, stale)
        invariant AllDoneIn(old(backups), group) ==> stale == []
      {
        var found;
        ok, found := RequestStale(group[j]);
        if !ok { return; }
        ghost var c := Check(group[j], found);
        CheckedAfter(old(checks), old(requested), log, c);
        FoundNext(group, j, log, stale, c);
        log := log + [c];
        if found.Some? && found.value.owner == Foreign { stale := stale + [group[j]]; }
      }
      ok := true;
    }

    // CleanupStaleBackups: request the deletion of other clusters' backups of the same names, and
    // wait for it. It requests that of exactly the stale ones it finds.
    method CleanupStaleBackups(group: seq<Name>) returns (r: StaleResult, ghost log: seq<Check>)
      modifies `backups, `faults, `checks, `requested
      ensures Rely(old(backups), backups) && OthersOnly(old(requested), requested) && faults >= old(faults)
      ensures r == Cleaned ==> faults == old(faults)
      ensures r == Unreached ==> faults > old(faults)
      ensures AllDoneIn(old(backups), group) && faults == old(faults) ==> r == Cleaned
      ensures r == Cleaned ==> ChecksOf(log, group) && checks == old(checks) + log
      ensures r != Unreached ==> |group| <= |log| && requested == old(requested) + StaleOf(log[..|group|])
    {
      var ok, stale;
      ok, stale, log := FindStale(group);
      if !ok { return Unreached, log; }
      ghost var first := log;
      assert log[..|group|] == log;
      if stale == [] { return Cleaned, log; }
      ghost var again;
      r, again := EnsureDeleted(stale);
      log := first + again;
      assert log[..|group|] == first;
    }

    // ensureBackupsDeleted: waits for the requests to be processed, and looks for each backup again.
    method EnsureDeleted(stale: seq<Name>) returns (r: StaleResult, ghost log: seq<Check>)
      modifies `backups, `faults, `checks
      ensures Rely(old(backups), backups) && faults >= old(faults) && checks == old(checks) + log
      ensures r == Cleaned ==> faults == old(faults)
      ensures r == Unreached ==> faults > old(faults)
      ensures r == Cleaned ==> |log| == |stale| && forall i | 0 <= i < |stale| :: log[i] == Check(stale[i], None)
    {
      log := [];
      var processed := Call();
      if !processed { return NotDeleted, log; }
      for i := 0 to |stale|
        invariant Rely(old(backups), backups) && faults == old(faults)
        invariant checks == old(checks) + log && |log| == i
        invariant forall k | 0 <= k < i :: log[k] == Check(stale[k], None)
      {
        var ok, found := GetBackup(stale[i]);
        if !ok { return Unreached, log; }
        log := log + [Check(stale[i], found)];
        if found.Some? { return NotDeleted, log; }
      }
      return Cleaned, log;
    }

    // One backup of the group: look for it, and create it if it is not there.
    method TrackNext(groups: seq<seq<Name>>, ghost before: Backups, g: nat, j: nat) returns (ok: bool, seen: Seen)
      requires g < |groups| && j < |groups[g]| && Handled(groups, before, backups) && DoneUpTo(groups, backups, g)
      modifies `backups, `looks, `created, `faults
      ensures Handled(groups, before, backups) && DoneUpTo(groups, backups, g) && BackupsKept(old(backups), backups)
      ensures faults >= old(faults) && (ok <==> faults == old(faults))
      ensures ok ==> looks == old(looks) + [Look(groups[g][j], seen)] && !seen.Unavailable?
      ensures ok ==> created == old(created) + if seen == Absent then [groups[g][j]] else []
      ensures ok && seen == At(Completed) ==> Done(backups, groups[g][j])
      ensures ok && Done(before, groups[g][j]) ==> seen == At(Completed)
    {
      var n := groups[g][j];
      ghost var s0 := backups;
      ok, seen := GetValidBackup(n);
      HandledThenRely(groups, before, s0, backups);
      if ok && seen == Absent {
        ghost var s1 := backups;
        ok := Create(n);
        if ok { HandledThenCreated(groups, before, s1, g, j); }
      }
    }

    // StartOrTrackBackup for group g: every backup is looked for once, those not there are created, and
    // each is listed as it was seen.
    method StartOrTrackBackup(groups: seq<seq<Name>>, g: nat, ghost first: Backups)
      returns (ok: bool, bt: Tracker, ghost log: seq<Look>)
      requires g < |groups| && Handled(groups, first, backups) && DoneUpTo(groups, backups, g)
      modifies `backups, `looks, `created, `faults
      ensures Handled(groups, first, backups) && DoneUpTo(groups, backups, g)
      ensures faults >= old(faults) && (ok <==> faults == old(faults))
      ensures ok ==> looks == old(looks) + log && LogOf(log, groups[g]) && Tallies(bt, log)
      ensures ok ==> created == old(created) + NamesSeen(log, {Absent})
      ensures ok && AllCompleted(log) ==> DoneUpTo(groups, backups, g + 1)
      ensures ok && AllDoneIn(first, groups[g]) ==> AllCompleted(log)
    {
      bt, log := Tracker([], [], [], []), [];
      for j := 0 to |groups[g]|
        invariant Handled(groups, first, backups) && DoneUpTo(groups, backups, g) && faults == old(faults)
        invariant looks == old(looks) + log && created == old(created) + NamesSeen(log, {Absent})
        invariant Tracked(groups[g], j, first, backups, bt, log)
      {
        ghost var s := backups;
        var seen, next;
        ok, seen := TrackNext(groups, first, g, j);
        if !ok { return; }
        next := Tally(bt, log, groups[g][j], seen);
        ghost var l := Look(groups[g][j], seen);
        TrackedNext(groups[g], j, first, s, backups, bt, next, log, l);
        LoggedAfter(old(looks), old(created), log, l);
        bt, log := next, log + [l];
      }
      ok := true;
      assert groups[g][..|groups[g]|] == groups[g];
    }

    // What the looks at the group that is not completed lead to.
    ghost predicate LastLooks(names: seq<Name>, r: Outcome) reads `looks {
      && |names| <= |looks|
      && var log := looks[|looks| - |names|..];
      LogOf(log, names) && OutcomeOfLast(log, r)
    }

    // One group: AllDone goes on to the next.
    method HandleGroup(groups: seq<seq<Name>>, ghost before: Backups, g: nat) returns (r: Outcome)
      requires g < |groups| && Handled(groups, before, backups) && DoneUpTo(groups, backups, g)
      modifies this
      ensures Handled(groups, before, backups) && DoneUpTo(groups, backups, g) && patched == old(patched)
      ensures OthersOnly(old(requested), requested)
      ensures r == AllDone ==> DoneUpTo(groups, backups, g + 1)
      ensures faults >= old(faults) && (r == Error ==> faults > old(faults))
      ensures r !in {Error, StaleLeft} ==> faults == old(faults)
      ensures r in {GroupFailed, Soon, Later} ==> LastLooks(groups[g], r)
      ensures AllDoneIn(before, groups[g]) && faults == old(faults) ==> r == AllDone
    {
      ghost var s0 := backups;
      var cleaned, _ := CleanupStaleBackups(groups[g]);
      HandledThenRely(groups, before, s0, backups);
      if cleaned == Unreached { return Error; }
      if cleaned == NotDeleted { return StaleLeft; }
      var ok, bt, log := StartOrTrackBackup(groups, g, before);
      if !ok { return Error; }
      CompletedByCount(log, bt.succeeded);
      if |bt.succeeded| == |groups[g]| { return AllDone; }
      r := if bt.failed != [] then GroupFailed else if bt.progressing != [] then Soon else Later;
      LastOutcome(log, bt.succeeded, bt.failed, bt.progressing, r);
      assert looks[|looks| - |groups[g]|..] == log;
    }

    // HandleBackup; returning Error also stands for the process dying at that call. done: the groups
    // that are completed; what was seen of the next one decides the outcome.
    method HandleBackup(groups: seq<seq<Name>>) returns (r: Outcome, ghost done: nat)
      modifies this
      ensures Handled(groups, old(backups), backups) && OthersOnly(old(requested), requested)
      ensures done <= |groups| && DoneUpTo(groups, backups, done) && (r == AllDone <==> done == |groups|)
      ensures faults >= old(faults) && (r == Error ==> faults > old(faults))
      ensures r !in {Error, StaleLeft} ==> faults == old(faults)
      ensures r in {GroupFailed, Soon, Later} ==> done < |groups| && LastLooks(groups[done], r)
      ensures DoneUpTo(groups, old(backups), |groups|) && faults == old(faults) ==> r == AllDone
      ensures created != old(created) || (r != Error && groups != []) ==> patched
    {
      done := 0;
      if groups == [] { return AllDone, 0; }
      var ok := PatchPolicies();
      if !ok { return Error, 0; }
      ghost var before := backups;
      for g := 0 to |groups|
        invariant Handled(groups, before, backups) && DoneUpTo(groups, backups, g) && done == g
        invariant OthersOnly(old(requested), requested) && faults == old(faults) && patched
      {
        r := HandleGroup(groups, before, g);
        if r != AllDone { return; }
        done := g + 1;
      }
      return AllDone, |groups|;
    }

    // The rest of PrePivot: backups, then the exports to the new stateroot, then the reboot.
    method FinishPrePivot(groups: seq<seq<Name>>) returns (rebooted: bool)
      modifies this
      ensures Handled(groups, old(backups), backups) && OthersOnly(old(requested), requested)
      ensures rebooted ==> DoneUpTo(groups, backups, |groups|) && faults == old(faults)
      ensures DoneUpTo(groups, old(backups), |groups|) && faults == old(faults) ==> rebooted
    {
      var r, done := HandleBackup(groups);
      if r != AllDone { return false; }
      ghost var s := backups;
      Interfere();
      HandledThenRely(groups, old(backups), s, backups);
      rebooted := Call(); // restores, extra manifests, cluster configuration, the resource, set-default
    }
  }

  lemma LoggedAfter(looks: seq<Look>, created: seq<Name>, log: seq<Look>, l: Look)
    ensures looks + log + [l] == looks + (log + [l])
    ensures created + NamesSeen(log, {Absent}) + (if l.seen == Absent then [l.name] else []) == created + NamesSeen(log + [l], {Absent})
  {
    NamesSeenNext(log, l, {Absent});
  }

  // Logging one more look of a group.
  lemma LoggedNext(log: seq<Look>, l: Look, names: seq<Name>, j: nat)
    requires j < |names| && LogOf(log, names[..j]) && l.name == names[j]
    ensures LogOf(log + [l], names[..j + 1])
    ensures AllCompleted(log + [l]) <==> AllCompleted(log) && l.seen == At(Completed)
  {
    assert forall i | 0 <= i < j :: (log + [l])[i] == log[i];
    assert (log + [l])[j] == l;
  }

  // The first j of the names have been looked at, and are listed as they were seen.
  predicate Tracked(names: seq<Name>, j: nat, first: Backups, s: Backups, bt: Tracker, log: seq<Look>)
    requires j <= |names|
  {
    && LogOf(log, names[..j]) && Tallies(bt, log)
    && (AllCompleted(log) ==> AllDoneIn(s, names[..j]))
    && (AllDoneIn(first, names) ==> AllCompleted(log))
  }

  lemma TrackedNext(names: seq<Name>, j: nat, first: Backups, s: Backups, s': Backups, bt: Tracker, bt': Tracker, log: seq<Look>, l: Look)
    requires j < |names| && Tracked(names, j, first, s, bt, log) && Tallies(bt', log + [l])
    requires BackupsKept(s, s') && l.name == names[j]
    requires (l.seen == At(Completed) ==> Done(s', l.name)) && (Done(first, l.name) ==> l.seen == At(Completed))
    ensures Tracked(names, j + 1, first, s', bt', log + [l])
  {
    LoggedNext(log, l, names, j);
    if AllCompleted(log) { DoneNext(s, s', names, j); }
  }

  lemma DoneNext(s: Backups, s': Backups, names: seq<Name>, j: nat)
    requires j < |names| && BackupsKept(s, s') && AllDoneIn(s, names[..j])
    ensures Done(s', names[j]) ==> AllDoneIn(s', names[..j + 1])
  {
    forall i | 0 <= i < j ensures Done(s', names[i]) { assert Done(s, names[..j][i]); }
  }

  // The switch on what was seen of a backup.
  method Tally(bt: Tracker, ghost log: seq<Look>, n: Name, seen: Seen) returns (r: Tracker)
    requires Tallies(bt, log) && !seen.Unavailable?
    ensures Tallies(r, log + [Look(n, seen)])
  {
    SeenNext(log, Look(n, seen));
    match seen {
      case At(Completed) => r := bt.(succeeded := bt.succeeded + [n]);
      case At(Failed) => r := bt.(failed := bt.failed + [n]);
      case At(NoPhase) => r := bt.(pending := bt.pending + [n]);
      case _ => r := bt.(progressing := bt.progressing + [n]);
    }
  }

  lemma RestoredNext(s: RestoreState, s': RestoreState, names: seq<Name>, j: nat)
    requires j < |names| && Kept(s, s') && AllRestoredIn(s, names[..j])
    ensures Restored(s', names[j]) ==> AllRestoredIn(s', names[..j + 1])
  {
    forall i | 0 <= i < j ensures Restored(s', names[i]) { assert Restored(s, names[..j][i]); }
  }

  predicate RestoresTracked(names: seq<Name>, j: nat, first: RestoreState, s: RestoreState, rt: RestoreTracker, log: seq<Look>)
    requires j <= |names|
  {
    && LogOf(log, names[..j]) && RestoreTallies(rt, log)
    && (AllCompleted(log) ==> AllRestoredIn(s, names[..j]))
    && (AllRestoredIn(first, names) ==> AllCompleted(log))
  }

  lemma RestoresTrackedNext(names: seq<Name>, j: nat, first: RestoreState, s: RestoreState, s': RestoreState,
                            rt: RestoreTracker, rt': RestoreTracker, log: seq<Look>, l: Look)
    requires j < |names| && RestoresTracked(names, j, first, s, rt, log) && RestoreTallies(rt', log + [l])
    requires Kept(s, s') && l.name == names[j]
    requires (l.seen == At(Completed) ==> Restored(s', l.name)) && (Restored(first, l.name) ==> l.seen == At(Completed))
    ensures RestoresTracked(names, j + 1, first, s', rt', log + [l])
  {
    LoggedNext(log, l, names, j);
    if AllCompleted(log) { RestoredNext(s, s', names, j); }
  }

  // And of a restore.
  method TallyRestore(rt: RestoreTracker, ghost log: seq<Look>, n: Name, seen: Seen) returns (r: RestoreTracker)
    requires RestoreTallies(rt, log)
    ensures RestoreTallies(r, log + [Look(n, seen)])
  {
    SeenNext(log, Look(n, seen));
    match seen {
      case At(Completed) => r := rt.(succeeded := rt.succeeded + [n]);
      case At(Failed) => r := rt.(failed := rt.failed + [n]);
      case At(NoPhase) => r := rt.(pending := rt.pending + [n]);
      case At(Ongoing) => r := rt.(progressing := rt.progressing + [n]);
      case Absent => r := rt.(progressing := rt.progressing + [n]);
      case Unavailable => r := rt.(missing := rt.missing + [n]);
    }
  }

  lemma SeenNext(log: seq<Look>, l: Look)
    ensures NamesSeen(log + [l], {At(Completed)}) == NamesSeen(log, {At(Completed)}) + if l.seen == At(Completed) then [l.name] else []
    ensures NamesSeen(log + [l], {At(Failed)}) == NamesSeen(log, {At(Failed)}) + if l.seen == At(Failed) then [l.name] else []
    ensures NamesSeen(log + [l], {At(NoPhase)}) == NamesSeen(log, {At(NoPhase)}) + if l.seen == At(NoPhase) then [l.name] else []
    ensures NamesSeen(log + [l], {At(Ongoing), Absent}) ==
              NamesSeen(log, {At(Ongoing), Absent}) + if l.seen == At(Ongoing) || l.seen == Absent then [l.name] else []
    ensures NamesSeen(log + [l], {Unavailable}) == NamesSeen(log, {Unavailable}) + if l.seen == Unavailable then [l.name] else []
  {
    assert (log + [l])[..|log|] == log;
  }

  lemma HandledTwice(groups: seq<seq<Name>>, s: Backups, s1: Backups, s2: Backups)
    requires Handled(groups, s, s1) && Handled(groups, s1, s2)
    ensures Handled(groups, s, s2)
  {
    forall n | IsOwn(s2, n) && !IsOwn(s, n) ensures InTurn(groups, s2, n) {
      if IsOwn(s1, n) { DoneKept(groups, s1, s2, n); }
    }
  }

  lemma HandledThenRely(groups: seq<seq<Name>>, s: Backups, s1: Backups, s2: Backups)
    requires Handled(groups, s, s1) && Rely(s1, s2)
    ensures Handled(groups, s, s2)
    ensures forall g: nat | g <= |groups| && DoneUpTo(groups, s1, g) :: DoneUpTo(groups, s2, g)
  {
    HandledTwice(groups, s, s1, s2);
  }

  lemma HandledThenCreated(groups: seq<seq<Name>>, s: Backups, s1: Backups, g: nat, j: nat)
    requires Handled(groups, s, s1) && g < |groups| && j < |groups[g]| && groups[g][j] !in s1 && DoneUpTo(groups, s1, g)
    ensures var s2 := s1[groups[g][j] := Backup(Own, NoPhase)];
            Handled(groups, s, s2) && DoneUpTo(groups, s2, g)
  {
    var n := groups[g][j];
    var s2 := s1[n := Backup(Own, NoPhase)];
    assert DoneUpTo(groups, s2, g);
    assert InTurn(groups, s2, n);
    HandledTwice(groups, s, s1, s2);
  }

  // ----- restores -----

  // disk: the numbered restore directories that are left, each with the files that are left; available:
  // the restores whose backup is there and labelled as this cluster's.
  datatype RestoreState = RestoreState(restores: map<Name, Phase>, disk: map<nat, seq<Name>>, available: set<Name>)

  predicate Restored(s: RestoreState, n: Name) {
    n in s.restores && s.restores[n] == Completed
  }

  predicate Kept(s: RestoreState, s': RestoreState) {
    forall n | n in s.restores && Restored(s, n) :: Restored(s', n)
  }

  // What others may do: they create no restores, and what is completed stays so.
  predicate RestoreRely(s: RestoreState, s': RestoreState) {
    Kept(s, s') && s'.disk == s.disk && forall n | n in s'.restores :: n in s.restores
  }

  // The files in directories below g are restored.
  predicate DiskDone(disk: map<nat, seq<Name>>, s: RestoreState, g: nat) {
    forall i, n | i in disk && i < g && n in disk[i] :: Restored(s, n)
  }

  predicate Shrunk(disk: map<nat, seq<Name>>, disk': map<nat, seq<Name>>) {
    forall i | i in disk' :: i in disk && forall n | n in disk'[i] :: n in disk[i]
  }

  ghost predicate DiskTurn(disk: map<nat, seq<Name>>, s: RestoreState, n: Name) {
    exists g :: g in disk && n in disk[g] && DiskDone(disk, s, g)
  }

  // What a reconcile with groups numbered below top may have done, wherever it stopped: files go
  // only when all that were there are restored, and restores are created group by group.
  ghost predicate RestoreHandled(s: RestoreState, s': RestoreState, top: nat) {
    && Kept(s, s') && Shrunk(s.disk, s'.disk)
    && (s'.disk != s.disk ==> DiskDone(s.disk, s', top))
    && (forall n | n in s'.restores && n !in s.restores :: DiskTurn(s.disk, s', n))
  }

  // Every exported restore is still on disk or completed.
  predicate NoneLost(exported: seq<seq<Name>>, s: RestoreState) {
    && (forall i | i in s.disk :: i < |exported| && forall n | n in s.disk[i] :: n in exported[i])
    && (forall i, n | 0 <= i < |exported| && n in exported[i] :: (i in s.disk && n in s.disk[i]) || Restored(s, n))
  }

  predicate RestoredUpTo(exported: seq<seq<Name>>, s: RestoreState, g: nat)
    requires g <= |exported|
  {
    forall i, n | 0 <= i < g && n in exported[i] :: Restored(s, n)
  }

  // Every restore was created when all exported groups before one it belongs to were completed.
  ghost predicate RestoreWaved(exported: seq<seq<Name>>, s: RestoreState) {
    forall n | n in s.restores :: exists g :: 0 <= g < |exported| && n in exported[g] && RestoredUpTo(exported, s, g)
  }

  lemma DiskDoneKept(disk: map<nat, seq<Name>>, s: RestoreState, s': RestoreState, g: nat)
    requires Kept(s, s') && DiskDone(disk, s, g)
    ensures DiskDone(disk, s', g)
  {
    forall i, n | i in disk && i < g && n in disk[i] ensures Restored(s', n) { assert Restored(s, n); }
  }

  lemma DiskTurnKept(disk: map<nat, seq<Name>>, s: RestoreState, s': RestoreState, n: Name)
    requires Kept(s, s') && DiskTurn(disk, s, n)
    ensures DiskTurn(disk, s', n)
  {
    var g :| g in disk && n in disk[g] && DiskDone(disk, s, g);
    DiskDoneKept(disk, s, s', g);
  }

  // A restore created in its turn, or others' doing, extends what a reconcile has done so far.
  lemma RestoreExtends(s: RestoreState, s1: RestoreState, s2: RestoreState, top: nat, g: nat)
    requires RestoreHandled(s, s1, top) && s1.disk == s.disk == s2.disk && Kept(s1, s2) && DiskDone(s.disk, s1, g)
    requires forall n | n in s2.restores && n !in s1.restores :: g in s.disk && n in s.disk[g]
    ensures RestoreHandled(s, s2, top) && DiskDone(s.disk, s2, g)
  {
    DiskDoneKept(s.disk, s1, s2, g);
    forall n | n in s.restores && Restored(s, n) ensures Restored(s2, n) { assert Restored(s1, n); }
    forall n | n in s2.restores && n !in s.restores ensures DiskTurn(s.disk, s2, n) {
      if n in s1.restores { DiskTurnKept(s.disk, s1, s2, n); }
    }
  }

  // Removing files once all directories are done.
  lemma RemovalExtends(s: RestoreState, s1: RestoreState, s2: RestoreState, top: nat)
    requires RestoreHandled(s, s1, top) && s1.disk == s.disk && DiskDone(s.disk, s1, top)
    requires s2.restores == s1.restores && Shrunk(s.disk, s2.disk)
    ensures RestoreHandled(s, s2, top) && DiskDone(s.disk, s2, top)
  {
    assert Kept(s1, s2);
    DiskDoneKept(s.disk, s1, s2, top);
    forall n | n in s2.restores && n !in s.restores ensures DiskTurn(s.disk, s2, n) { DiskTurnKept(s.disk, s1, s2, n); }
    forall n | n in s.restores && Restored(s, n) ensures Restored(s2, n) { assert Restored(s1, n); }
  }

  lemma NoneLostKept(exported: seq<seq<Name>>, s: RestoreState, s': RestoreState)
    requires NoneLost(exported, s) && (RestoreRely(s, s') || RestoreHandled(s, s', |exported|))
    ensures NoneLost(exported, s')
    ensures forall g: nat | g <= |exported| && DiskDone(s.disk, s', g) :: RestoredUpTo(exported, s', g)
  {
    forall i, n | 0 <= i < |exported| && n in exported[i]
      ensures (i in s'.disk && n in s'.disk[i]) || Restored(s', n)
    {
      if Restored(s, n) { assert Restored(s', n); }
    }
  }

  lemma RestoreWavedKept(exported: seq<seq<Name>>, s: RestoreState, s': RestoreState)
    requires NoneLost(exported, s) && RestoreWaved(exported, s)
    requires RestoreRely(s, s') || RestoreHandled(s, s', |exported|)
    ensures RestoreWaved(exported, s')
  {
    NoneLostKept(exported, s, s');
    forall n | n in s'.restores
      ensures exists g :: 0 <= g < |exported| && n in exported[g] && RestoredUpTo(exported, s', g)
    {
      if n in s.restores {
        var g :| 0 <= g < |exported| && n in exported[g] && RestoredUpTo(exported, s, g);
        forall i, x | 0 <= i < g && x in exported[i] ensures Restored(s', x) { assert Restored(s, x); }
        assert RestoredUpTo(exported, s', g);
      } else {
        var g :| g in s.disk && n in s.disk[g] && DiskDone(s.disk, s', g);
        assert RestoredUpTo(exported, s', g);
      }
    }
  }

  ghost predicate RestoreRun(exported: seq<seq<Name>>, run: seq<RestoreState>) {
    && run != []
    && run[0].restores == map[] && run[0].disk == (map i: nat | i < |exported| :: exported[i])
    && forall i | 0 <= i < |run| - 1 :: RestoreRely(run[i], run[i + 1]) || RestoreHandled(run[i], run[i + 1], |exported|)
  }

  // A reconcile completes the upgrade only when all that was on disk when it began is restored.
  predicate MayComplete(exported: seq<seq<Name>>, s: RestoreState, s': RestoreState) {
    DiskDone(s.disk, s', |exported|)
  }

  // In every run after the export, including those in which the restore directory was removed
  // before, or was removed in part: no exported restore is lost, restores are created group by
  // group, and a reconcile that completes the upgrade does so with every exported restore completed.
  lemma {:induction false} RestoresBeforeCompletion(exported: seq<seq<Name>>, run: seq<RestoreState>, k: nat)
    requires RestoreRun(exported, run) && k < |run|
    ensures NoneLost(exported, run[k]) && RestoreWaved(exported, run[k])
    ensures k + 1 < |run| && MayComplete(exported, run[k], run[k + 1]) ==> RestoredUpTo(exported, run[k + 1], |exported|)
  {
    if k > 0 {
      RestoresBeforeCompletion(exported, run, k - 1);
      NoneLostKept(exported, run[k - 1], run[k]);
      RestoreWavedKept(exported, run[k - 1], run[k]);
    }
    if k + 1 < |run| { NoneLostKept(exported, run[k], run[k + 1]); }
  }

  datatype RestoreTracker = RestoreTracker(missing: seq<Name>, pending: seq<Name>, progressing: seq<Name>,
                                           succeeded: seq<Name>, failed: seq<Name>)

  predicate RestoreTallies(rt: RestoreTracker, log: seq<Look>) {
    && rt.succeeded == NamesSeen(log, {At(Completed)}) && rt.failed == NamesSeen(log, {At(Failed)})
    && rt.progressing == NamesSeen(log, {At(Ongoing), Absent}) && rt.pending == NamesSeen(log, {At(NoPhase)})
    && rt.missing == NamesSeen(log, {Unavailable})
  }

  predicate AllRestoredIn(s: RestoreState, names: seq<Name>) {
    forall i | 0 <= i < |names| :: Restored(s, names[i])
  }

  class RestoreHost {
    var state: RestoreState
    // What has been looked at, what has been created, how many calls have failed, and whether the
    // reclaim policies have been restored.
    ghost var looks: seq<Look>
    ghost var created: seq<Name>
    ghost var faults: nat
    ghost var restoredPolicies: bool

    constructor (s: RestoreState)
      ensures state == s && looks == [] && created == [] && faults == 0 && !restoredPolicies
    {
      state, looks, created, faults, restoredPolicies := s, [], [], 0, false;
    }

    method Interfere()
      modifies `state
      ensures RestoreRely(old(state), state)
    {
      var r: map<Name, Phase>, available: set<Name> := *, *;
      var s := state.(restores := r, available := available);
      if RestoreRely(state, s) { state := s; }
    }

    method Call() returns (ok: bool)
      modifies `faults
      ensures faults == old(faults) + if ok then 0 else 1
    {
      ok := *;
      if !ok { faults := faults + 1; }
    }

    // The restore's phase, or, when there is none, whether its backup is there (getValidBackup), with
    // others at work before.
    method Get(n: Name) returns (ok: bool, seen: Seen)
      modifies `state, `faults, `looks
      ensures RestoreRely(old(state), state)
      ensures faults >= old(faults) && (ok <==> faults == old(faults))
      ensures seen == if n in state.restores then At(state.restores[n]) else if n in state.available then Absent else Unavailable
      ensures looks == if ok then old(looks) + [Look(n, seen)] else old(looks)
    {
      Interfere();
      ok := Call();
      seen := if n in state.restores then At(state.restores[n]) else if n in state.available then Absent else Unavailable;
      if ok && !seen.At? { ok := Call(); }
      if ok { looks := looks + [Look(n, seen)]; }
    }

    method Create(n: Name) returns (ok: bool)
      requires n !in state.restores
      modifies `state, `faults, `created
      ensures faults == old(faults) + if ok then 0 else 1
      ensures state == if ok then old(state).(restores := old(state).restores[n := NoPhase]) else old(state)
      ensures created == if ok then old(created) + [n] else old(created)
    {
      ok := Call();
      if ok { state, created := state.(restores := state.restores[n := NoPhase]), created + [n]; }
    }

    // One restore of directory g: look for it, and create it if it is not there but its backup is.
    method Track(ghost s: RestoreState, g: nat, ghost top: nat, n: Name) returns (ok: bool, seen: Seen)
      requires g in s.disk && n in s.disk[g]
      requires state.disk == s.disk && RestoreHandled(s, state, top) && DiskDone(s.disk, state, g)
      modifies `state, `looks, `created, `faults
      ensures state.disk == s.disk && RestoreHandled(s, state, top) && DiskDone(s.disk, state, g) && Kept(old(state), state)
      ensures faults >= old(faults) && (ok <==> faults == old(faults))
      ensures ok ==> looks == old(looks) + [Look(n, seen)]
      ensures ok ==> created == old(created) + if seen == Absent then [n] else []
      ensures ok && seen == At(Completed) ==> Restored(state, n)
      ensures ok && Restored(s, n) ==> seen == At(Completed)
    {
      ghost var s0 := state;
      ok, seen := Get(n);
      RestoreExtends(s, s0, state, top, g);
      if ok && seen == Absent {
        ghost var s1 := state;
        ok := Create(n);
        if ok { RestoreExtends(s, s1, state, top, g); }
      }
    }

    // StartOrTrackRestore for directory g of those loaded when the reconcile began: every restore is
    // looked for once, those that can be are created, and each is listed as it was seen.
    method StartOrTrackRestore(ghost s: RestoreState, g: nat, ghost top: nat)
      returns (ok: bool, rt: RestoreTracker, ghost log: seq<Look>)
      requires g in state.disk && state.disk == s.disk && RestoreHandled(s, state, top) && DiskDone(s.disk, state, g)
      modifies `state, `looks, `created, `faults
      ensures state.disk == s.disk && RestoreHandled(s, state, top) && DiskDone(s.disk, state, g)
      ensures faults >= old(faults) && (ok <==> faults == old(faults))
      ensures ok ==> looks == old(looks) + log && LogOf(log, s.disk[g]) && RestoreTallies(rt, log)
      ensures ok ==> created == old(created) + NamesSeen(log, {Absent})
      ensures ok && AllCompleted(log) ==> DiskDone(s.disk, state, g + 1)
      ensures ok && AllRestoredIn(s, s.disk[g]) ==> AllCompleted(log)
    {
      rt, log := RestoreTracker([], [], [], [], []), [];
      var names := state.disk[g];
      for j := 0 to |names|
        invariant state.disk == s.disk && RestoreHandled(s, state, top) && DiskDone(s.disk, state, g) && faults == old(faults)
        invariant looks == old(looks) + log && created == old(created) + NamesSeen(log, {Absent})
        invariant RestoresTracked(names, j, s, state, rt, log)
      {
        ghost var before := state;
        var seen, next;
        ok, seen := Track(s, g, top, names[j]);
        if !ok { return; }
        next := TallyRestore(rt, log, names[j], seen);
        ghost var l := Look(names[j], seen);
        RestoresTrackedNext(names, j, s, before, state, rt, next, log, l);
        LoggedAfter(old(looks), old(created), log, l);
        rt, log := next, log + [l];
      }
      ok := true;
      assert names[..|names|] == names;
    }

    method RestorePolicies() returns (ok: bool)
      modifies `faults, `restoredPolicies
      ensures faults == old(faults) + (if ok then 0 else 1) && (ok ==> restoredPolicies)
    {
      ok := Call();
      restoredPolicies := restoredPolicies || ok;
    }

    // os.RemoveAll of the restore directory: all of it, or any part of it when it fails or dies.
    method RemoveRestores() returns (ok: bool)
      modifies `state, `faults
      ensures faults == old(faults) + if ok then 0 else 1
      ensures state.restores == old(state.restores) && Shrunk(old(state.disk), state.disk)
      ensures ok ==> state.disk == map[]
    {
      ok := Call();
      if ok {
        state := state.(disk := map[]);
      } else {
        var left: map<nat, seq<Name>> := *;
        if Shrunk(state.disk, left) { state := state.(disk := left); }
      }
    }

    ghost predicate LastLooks(names: seq<Name>, r: Outcome) reads `looks {
      && |names| <= |looks|
      && var log := looks[|looks| - |names|..];
      LogOf(log, names) && OutcomeOfLast(log, r)
    }

    // One directory: AllDone goes on to the next.
    method HandleDirectory(ghost s: RestoreState, g: nat, ghost top: nat) returns (r: Outcome)
      requires g in state.disk && state.disk == s.disk && RestoreHandled(s, state, top) && DiskDone(s.disk, state, g)
      modifies `state, `looks, `created, `faults
      ensures state.disk == s.disk && RestoreHandled(s, state, top) && DiskDone(s.disk, state, g)
      ensures r == AllDone ==> DiskDone(s.disk, state, g + 1)
      ensures faults >= old(faults) && (r == Error <==> faults > old(faults)) && r != StaleLeft
      ensures r in {GroupFailed, Soon, Later} ==> LastLooks(s.disk[g], r)
      ensures AllRestoredIn(s, s.disk[g]) && faults == old(faults) ==> r == AllDone
    {
      var count := |state.disk[g]|;
      var ok, rt, log := StartOrTrackRestore(s, g, top);
      if !ok { return Error; }
      CompletedByCount(log, rt.succeeded);
      if |rt.succeeded| == count { return AllDone; }
      r := if rt.failed != [] then GroupFailed else if rt.progressing != [] then Soon else Later;
      LastOutcome(log, rt.succeeded, rt.failed, rt.progressing, r);
      assert looks[|looks| - count..] == log;
    }

    // HandleRestore; returning Error also stands for the process dying at that call. Directory
    // numbers are below top. What was seen of the first directory that is not completed decides.
    method HandleRestore(top: nat) returns (r: Outcome, ghost last: nat)
      requires forall i | i in state.disk :: i < top
      modifies this
      ensures RestoreHandled(old(state), state, top)
      ensures faults >= old(faults) && (r == Error <==> faults > old(faults)) && r != StaleLeft
      ensures r == AllDone ==> DiskDone(old(state.disk), state, top) && state.disk == map[]
      ensures state.disk != old(state.disk) ==> restoredPolicies
      ensures r in {GroupFailed, Soon, Later} ==>
                && last in old(state.disk) && state.disk == old(state.disk) && DiskDone(state.disk, state, last)
                && LastLooks(state.disk[last], r)
      ensures DiskDone(old(state.disk), old(state), top) && faults == old(faults) ==> r == AllDone
    {
      last := 0;
      var ok := Call(); // LoadRestoresFromOadpRestorePath
      if !ok { return Error, 0; }
      if state.disk == map[] { return AllDone, 0; }
      ghost var before := state;
      var dirs := state.disk.Keys;
      for g := 0 to top
        invariant state.disk == before.disk && dirs == before.disk.Keys && faults == old(faults)
        invariant RestoreHandled(before, state, top) && DiskDone(before.disk, state, g)
      {
        if g in dirs {
          r := HandleDirectory(before, g, top);
          last := g;
          if r != AllDone { return; }
        }
      }
      ok := RestorePolicies();
      if !ok { return Error, 0; }
      ghost var done := state;
      ok := RemoveRestores();
      RemovalExtends(before, done, state, top);
      return if ok then AllDone else Error, 0;
    }

    // The end of PostPivot: restores, then the deferred health checks, then completion.
    method FinishPostPivot(top: nat, healthy: bool) returns (completed: bool)
      requires forall i | i in state.disk :: i < top
      modifies this
      ensures RestoreHandled(old(state), state, top)
      ensures completed ==> healthy && faults == old(faults) && DiskDone(old(state.disk), state, top)
      ensures healthy && faults == old(faults) && DiskDone(old(state.disk), old(state), top) ==> completed
    {
      var r, last := HandleRestore(top);
      if r != AllDone { return false; }
      completed := healthy;
    }
  }

  // ----- reclaim policies of persistent volumes -----

  datatype Policy = Delete | Retain | Recycle

  // lvms: annotated as created by LVMS; marked: annotated as patched before the upgrade.
  datatype Volume = Volume(lvms: bool, policy: Policy, marked: bool)

  function Patched(v: Volume): Volume {
    if v.lvms && v.policy == Delete then v.(policy := Retain, marked := true) else v
  }

  function Unpatched(v: Volume): Volume {
    if v.marked then v.(policy := Delete, marked := false) else v
  }

  // v is the volume u that no attempt, or some attempt, to patch or to restore has reached.
  predicate Between(u: Volume, v: Volume) {
    v == u || v == Patched(u)
  }

  // PatchPVsReclaimPolicy, which stops at the first volume it fails to update.
  method PatchVolumes(vs: array<Volume>) returns (ok: bool, ghost done: nat)
    modifies vs
    ensures done <= vs.Length && (ok <==> done == vs.Length)
    ensures !ok ==> old(vs[done]).lvms && old(vs[done]).policy == Delete
    ensures forall i | 0 <= i < vs.Length :: vs[i] == if i < done then Patched(old(vs[i])) else old(vs[i])
  {
    ok, done := true, 0;
    for i := 0 to vs.Length
      invariant done == i
      invariant forall j | 0 <= j < i :: vs[j] == Patched(old(vs[j]))
      invariant forall j | i <= j < vs.Length :: vs[j] == old(vs[j])
    {
      if vs[i].lvms && vs[i].policy == Delete {
        var updated := *;
        if !updated { ok := false; return; }
        vs[i] := vs[i].(policy := Retain, marked := true);
      }
      done := i + 1;
    }
  }

  // RestorePVsReclaimPolicy
  method UnpatchVolumes(vs: array<Volume>) returns (ok: bool, ghost done: nat)
    modifies vs
    ensures done <= vs.Length && (ok <==> done == vs.Length)
    ensures !ok ==> old(vs[done]).marked
    ensures forall i | 0 <= i < vs.Length :: vs[i] == if i < done then Unpatched(old(vs[i])) else old(vs[i])
  {
    ok, done := true, 0;
    for i := 0 to vs.Length
      invariant done == i
      invariant forall j | 0 <= j < i :: vs[j] == Unpatched(old(vs[j]))
      invariant forall j | i <= j < vs.Length :: vs[j] == old(vs[j])
    {
      if vs[i].marked {
        var updated := *;
        if !updated { ok := false; return; }
        vs[i] := vs[i].(policy := Delete, marked := false);
      }
      done := i + 1;
    }
  }

  // While it is patched, no volume of LVMS is deleted with its claim; the mark says which ones to
  // restore, and the others are left alone.
  lemma PatchedIsRetained(v: Volume)
    ensures Patched(v).lvms == v.lvms && (v.lvms ==> Patched(v).policy != Delete)
    ensures Patched(v) != v ==> v.lvms && v.policy == Delete && Patched(v).marked && Patched(v).policy == Retain
    ensures !v.lvms ==> Patched(v) == v
    ensures !Unpatched(v).marked && (v.marked ==> Unpatched(v).policy == Delete) && (!v.marked ==> Unpatched(v) == v)
  {}

  // Whatever attempts to patch and to restore were made, complete or not, restoring an originally
  // unmarked volume gives the original back.
  lemma PolicyRoundTrip(u: Volume, v: Volume)
    requires !u.marked && Between(u, v)
    ensures Between(u, Patched(v)) && Between(u, Unpatched(v)) && Unpatched(v) == u
  {}
}
