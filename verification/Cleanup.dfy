/**
 Removal of the stateroots that are not booted. Undeploying a deployment shifts the positions of
 those after it, and every call to the host may fail.
 */
module Cleanup {
  datatype Deployment = Deployment(osname: string, booted: bool)

  // ----- what remains -----

  // The deployments of a stateroot, in order.
  function Of(ds: seq<Deployment>, name: string): seq<Deployment> {
    if ds == [] then []
    else (if ds[0].osname == name then [ds[0]] else []) + Of(ds[1..], name)
  }

  // The others, in order.
  function Without(ds: seq<Deployment>, name: string): seq<Deployment> {
    if ds == [] then []
    else (if ds[0].osname == name then [] else [ds[0]]) + Without(ds[1..], name)
  }

  // Every deployment is of one of the named stateroots.
  predicate OnlyFrom(ds: seq<Deployment>, names: set<string>) {
    forall i | 0 <= i < |ds| :: ds[i].osname in names
  }

  lemma {:induction false} WithoutOnly(ds: seq<Deployment>, name: string, names: set<string>)
    requires OnlyFrom(ds, names)
    ensures OnlyFrom(Without(ds, name), names - {name})
  {
    if ds != [] { WithoutOnly(ds[1..], name, names); }
  }

  predicate OneBooted(ds: seq<Deployment>, b: nat) {
    b < |ds| && forall i | 0 <= i < |ds| :: ds[i].booted <==> i == b
  }

  function RemoveAt<T>(s: seq<T>, i: nat): seq<T>
    requires i < |s|
  {
    s[..i] + s[i + 1..]
  }

  // Undeploying the positions ps one after the other; each is a position at the time it is used.
  function UndeployAll(ds: seq<Deployment>, ps: seq<nat>): seq<Deployment>
    decreases |ps|
  {
    if ps == [] then ds else UndeployAll(if ps[0] < |ds| then RemoveAt(ds, ps[0]) else ds, ps[1..])
  }

  // The positions of a stateroot, last first.
  function PositionsDown(ds: seq<Deployment>, name: string): seq<nat>
    decreases |ds|
  {
    if ds == [] then []
    else
      var n := |ds| - 1;
      (if ds[n].osname == name then [n] else []) + PositionsDown(ds[..n], name)
  }

  lemma {:induction false} WithoutConcat(a: seq<Deployment>, b: seq<Deployment>, name: string)
    ensures Without(a + b, name) == Without(a, name) + Without(b, name)
    decreases |a|
  {
    if a == [] {
      assert a + b == b;
    } else {
      WithoutConcat(a[1..], b, name);
      assert (a + b)[0] == a[0] && (a + b)[1..] == a[1..] + b;
      var head := if a[0].osname == name then [] else [a[0]];
      assert head + (Without(a[1..], name) + Without(b, name)) == (head + Without(a[1..], name)) + Without(b, name);
    }
  }

  lemma {:induction false} OfConcat(a: seq<Deployment>, b: seq<Deployment>, name: string)
    ensures Of(a + b, name) == Of(a, name) + Of(b, name)
    decreases |a|
  {
    if a == [] {
      assert a + b == b;
    } else {
      OfConcat(a[1..], b, name);
      assert (a + b)[0] == a[0] && (a + b)[1..] == a[1..] + b;
      var head := if a[0].osname == name then [a[0]] else [];
      assert head + (Of(a[1..], name) + Of(b, name)) == (head + Of(a[1..], name)) + Of(b, name);
    }
  }

  lemma WithoutLast(ds: seq<Deployment>, x: Deployment, name: string)
    ensures Without(ds + [x], name) == Without(ds, name) + if x.osname == name then [] else [x]
  {
    WithoutConcat(ds, [x], name);
    assert [x][1..] == [];
  }

  lemma UndeployFirst(ds: seq<Deployment>, n: nat, ps: seq<nat>)
    requires n < |ds|
    ensures UndeployAll(ds, [n] + ps) == UndeployAll(RemoveAt(ds, n), ps)
  {
    assert ([n] + ps)[1..] == ps;
  }

  // The last of these deployments is undeployed first if it is of the stateroot.
  lemma UndeployLast(first: seq<Deployment>, x: Deployment, tail: seq<Deployment>, name: string)
    requires x.osname == name
    ensures UndeployAll(first + [x] + tail, PositionsDown(first + [x], name)) == UndeployAll(first + tail, PositionsDown(first, name))
    ensures Without(first + [x], name) + tail == Without(first, name) + tail
  {
    var ds, n := first + [x], |first|;
    assert ds[..n] == first;
    UndeployFirst(ds + tail, n, PositionsDown(first, name));
    assert RemoveAt(ds + tail, n) == first + tail;
    WithoutLast(first, x, name);
  }

  // And is passed over otherwise.
  lemma PassOver(first: seq<Deployment>, x: Deployment, tail: seq<Deployment>, name: string)
    requires x.osname != name
    ensures UndeployAll(first + [x] + tail, PositionsDown(first + [x], name)) ==
              UndeployAll(first + ([x] + tail), PositionsDown(first, name))
    ensures Without(first + [x], name) + tail == Without(first, name) + ([x] + tail)
  {
    assert (first + [x])[..|first|] == first && first + [x] + tail == first + ([x] + tail);
    assert PositionsDown(first + [x], name) == [] + PositionsDown(first, name) == PositionsDown(first, name);
    WithoutLast(first, x, name);
    assert Without(first, name) + [x] + tail == Without(first, name) + ([x] + tail);
  }

  // Undeploying a stateroot's positions last first removes exactly its deployments.
  lemma {:induction false} UndeployDown(ds: seq<Deployment>, tail: seq<Deployment>, name: string)
    ensures UndeployAll(ds + tail, PositionsDown(ds, name)) == Without(ds, name) + tail
    decreases |ds|
  {
    if ds == [] {
      assert ds + tail == tail;
    } else {
      var first, x := ds[..|ds| - 1], ds[|ds| - 1];
      assert ds == first + [x];
      if x.osname == name {
        UndeployLast(first, x, tail, name);
        UndeployDown(first, tail, name);
      } else {
        PassOver(first, x, tail, name);
        UndeployDown(first, [x] + tail, name);
      }
    }
  }

  // First first, the same positions would leave one of its deployments and remove the booted one.
  lemma UndeployUpIsWrong()
    ensures var ds := [Deployment("old", false), Deployment("old", false), Deployment("new", true)];
            && UndeployAll(ds, [0, 1]) == [Deployment("old", false)]
            && UndeployAll(ds, PositionsDown(ds, "old")) == [Deployment("new", true)]
  {
    var old0, new0 := Deployment("old", false), Deployment("new", true);
    var ds := [old0, old0, new0];
    assert RemoveAt(ds, 0) == [old0, new0] && RemoveAt([old0, new0], 1) == [old0];
    assert [0, 1][1..] == [1] && [1][1..] == [];
    assert UndeployAll([old0, new0], [1]) == [old0];
    UndeployDown(ds, [], "old");
    assert ds + [] == ds && ds[1..] == [old0, new0] && [old0, new0][1..] == [new0];
    assert Without([new0], "old") == [new0] && Without([old0, new0], "old") == [new0];
  }

  // Undeploying deployments of a stateroot, however far it gets, leaves the others' in order.
  lemma {:induction false} OthersKept(ds: seq<Deployment>, tail: seq<Deployment>, name: string, other: string, k: nat)
    requires name != other && k <= |PositionsDown(ds, name)|
    ensures Of(UndeployAll(ds + tail, PositionsDown(ds, name)[..k]), other) == Of(ds + tail, other)
    decreases |ds|
  {
    if ds != [] && k > 0 {
      var n := |ds| - 1;
      var first, x, ps := ds[..n], ds[n], PositionsDown(ds, name);
      assert ds + tail == first + ([x] + tail);
      if x.osname == name {
        OthersKept(first, tail, name, other, k - 1);
        UndeployFirst(ds + tail, n, PositionsDown(first, name)[..k - 1]);
        assert ps[..k] == [n] + PositionsDown(first, name)[..k - 1];
        assert RemoveAt(ds + tail, n) == first + tail;
        OfSkips(first, x, tail, other);
      } else {
        assert ps == PositionsDown(first, name);
        OthersKept(first, [x] + tail, name, other, k);
      }
    }
  }

  lemma OfSkips(first: seq<Deployment>, x: Deployment, tail: seq<Deployment>, other: string)
    requires x.osname != other
    ensures Of(first + ([x] + tail), other) == Of(first + tail, other)
  {
    OfConcat(first, [x] + tail, other);
    OfConcat(first, tail, other);
    assert ([x] + tail)[1..] == tail;
  }

  lemma {:induction false} OfAll(ds: seq<Deployment>, name: string)
    requires OnlyFrom(ds, {name})
    ensures Of(ds, name) == ds
  {
    if ds != [] { OfAll(ds[1..], name); }
  }

  // ----- how far undeploying gets -----

  lemma {:induction false} PositionsInRange(ds: seq<Deployment>, name: string, j: nat)
    requires j < |PositionsDown(ds, name)|
    ensures PositionsDown(ds, name)[j] + j < |ds|
  {
    var n := |ds| - 1;
    if ds[n].osname != name {
      PositionsInRange(ds[..n], name, j);
    } else if j > 0 {
      PositionsInRange(ds[..n], name, j - 1);
    }
  }

  // Each position is one of a deployment at the time it is undeployed.
  lemma {:induction false} UndeployInRange(ds: seq<Deployment>, name: string, j: nat)
    requires j <= |PositionsDown(ds, name)|
    ensures |UndeployAll(ds, PositionsDown(ds, name)[..j])| == |ds| - j
    ensures j < |PositionsDown(ds, name)| ==> PositionsDown(ds, name)[j] < |ds| - j
  {
    if j < |PositionsDown(ds, name)| { PositionsInRange(ds, name, j); }
    if j > 0 {
      UndeployInRange(ds, name, j - 1);
      UndeployNext(ds, PositionsDown(ds, name), j - 1);
    } else {
      NothingUndeployed(ds, name);
    }
  }

  // Undeploying adds none.
  lemma {:induction false} UndeployFrom(ds: seq<Deployment>, ps: seq<nat>)
    ensures forall d | d in UndeployAll(ds, ps) :: d in ds
    decreases |ps|
  {
    if ps != [] { UndeployFrom(if ps[0] < |ds| then RemoveAt(ds, ps[0]) else ds, ps[1..]); }
  }

  predicate BootedIn(ds: seq<Deployment>, name: string) {
    exists d :: d in ds && d.osname == name && d.booted
  }

  // ----- the host -----

  // The tasks of the cleanup.
  datatype Task = SetupJob | Stateroots | Precache | Annotation | OADP | Workspace

  class Host {
    var deployments: seq<Deployment>
    var dirs: set<string>
    // How many calls have failed, and the tasks attempted.
    ghost var faults: nat
    ghost var attempted: set<Task>

    constructor (ds: seq<Deployment>, names: set<string>)
      ensures deployments == ds && dirs == names && faults == 0 && attempted == {}
    {
      deployments, dirs, faults, attempted := ds, names, 0, {};
    }

    // A call that may fail.
    method Call() returns (ok: bool)
      modifies `faults
      ensures faults == old(faults) + if ok then 0 else 1
    {
      ok := *;
      if !ok { faults := faults + 1; }
    }

    method QueryStatus() returns (ok: bool, ds: seq<Deployment>)
      modifies `faults
      ensures faults == old(faults) + if ok then 0 else 1
      ensures ok ==> ds == deployments
    {
      ok := Call();
      ds := deployments;
    }

    // ostree admin undeploy: remove one position, or fail and change nothing.
    method Undeploy(i: nat) returns (ok: bool)
      requires i < |deployments|
      modifies `deployments, `faults
      ensures faults == old(faults) + if ok then 0 else 1
      ensures deployments == if ok then RemoveAt(old(deployments), i) else old(deployments)
    {
      ok := Call();
      if ok { deployments := RemoveAt(deployments, i); }
    }

    // Recursive removal of a stateroot directory; a failed one may or may not have got it all.
    method RemoveDir(name: string) returns (ok: bool)
      modifies `dirs, `faults
      ensures faults == old(faults) + if ok then 0 else 1
      ensures ok ==> dirs == old(dirs) - {name}
      ensures dirs == old(dirs) || dirs == old(dirs) - {name}
    {
      ok := Call();
      var gone := *;
      if ok || gone { dirs := dirs - {name}; }
    }

    // The positions to undeploy, last first, unless the stateroot is the booted one.
    method ListPositions(name: string) returns (ok: bool, ps: seq<nat>)
      modifies `faults
      ensures old(faults) <= faults <= old(faults) + 1
      ensures ok <==> faults == old(faults) && !BootedIn(deployments, name)
      ensures ok ==> ps == PositionsDown(deployments, name)
    {
      var all;
      ps := [];
      ok, all := QueryStatus();
      if !ok { return; }
      assert all[..|all|] == all;
      for i := |all| downto 0
        invariant deployments == all && faults == old(faults)
        invariant ps + PositionsDown(all[..i], name) == PositionsDown(all, name)
        invariant forall j | i <= j < |all| :: !(all[j].osname == name && all[j].booted)
      {
        PositionsNext(all, i, name, ps);
        if all[i].osname == name {
          if all[i].booted {
            assert all[i] in all;
            ok := false;
            return;
          }
          ps := ps + [i];
        }
      }
    }

    // cleanupUnbootedStateroot: it succeeds exactly when no call fails and the stateroot is not the
    // booted one, of which nothing is removed.
    method CleanupStateroot(name: string) returns (ok: bool, ghost undeployed: nat)
      modifies `deployments, `dirs, `faults
      ensures old(faults) <= faults <= old(faults) + 1
      ensures ok <==> faults == old(faults) && !BootedIn(old(deployments), name)
      ensures ok ==> deployments == Without(old(deployments), name) && dirs == old(dirs) - {name}
      ensures BootedIn(old(deployments), name) ==> undeployed == 0 && dirs == old(dirs)
      ensures undeployed <= |PositionsDown(old(deployments), name)|
      ensures deployments == UndeployAll(old(deployments), PositionsDown(old(deployments), name)[..undeployed])
      ensures dirs == old(dirs) || dirs == old(dirs) - {name}
    {
      ghost var ds := deployments;
      var ps;
      undeployed := 0;
      NothingUndeployed(ds, name);
      ok, ps := ListPositions(name);
      if !ok { return; }
      for j := 0 to |ps|
        invariant undeployed == j && deployments == UndeployAll(ds, ps[..j])
        invariant dirs == old(dirs) && faults == old(faults)
      {
        UndeployInRange(ds, name, j);
        ok := Undeploy(ps[j]);
        if !ok { return; }
        UndeployNext(ds, ps, j);
        undeployed := j + 1;
      }
      AllUndeployed(ds, name);
      ok := true;
      if name in dirs { ok := RemoveDir(name); }
    }

    // CleanupUnbootedStateroots, with exactly one deployment booted, at position b: it succeeds
    // exactly when no call fails.
    method CleanupUnbooted(ghost b: nat) returns (ok: bool)
      requires OneBooted(deployments, b)
      modifies `deployments, `dirs, `faults
      ensures faults >= old(faults) && (ok <==> faults == old(faults))
      ensures Of(deployments, old(deployments[b].osname)) == Of(old(deployments), old(deployments[b].osname))
      ensures old(deployments[b]) in deployments
      ensures dirs <= old(dirs) && (old(deployments[b].osname) in old(dirs) ==> old(deployments[b].osname) in dirs)
      ensures ok ==> deployments == Of(old(deployments), old(deployments[b].osname))
      ensures ok ==> dirs == old(dirs) * {old(deployments[b].osname)}
    {
      ghost var before, boot := deployments, deployments[b].osname;
      var all;
      ok, all := QueryStatus();
      BootedListed(before, b, before);
      if !ok { return; }
      var booted, toRemove := "", [];
      for i := |all| downto 0
        invariant i <= b ==> booted == boot
        invariant forall j | i <= j < |all| && j != b :: all[j].osname in toRemove
      {
        if all[i].booted { booted := all[i].osname; } else { toRemove := toRemove + [all[i].osname]; }
      }
      var failures := 0;
      ghost var left := {boot} + set n | n in toRemove;
      BootedOnly(before, b);
      for j := 0 to |toRemove|
        invariant failures >= 0 && faults == old(faults) + failures
        invariant Of(deployments, boot) == Of(before, boot)
        invariant forall d | d in deployments && d.booted :: d.osname == boot
        invariant dirs <= old(dirs) && (boot in old(dirs) ==> boot in dirs)
        invariant left <= {boot} + set n | n in toRemove[j..]
        invariant failures == 0 ==> OnlyFrom(deployments, left)
      {
        assert toRemove[j..] == [toRemove[j]] + toRemove[j + 1..];
        if toRemove[j] != booted {
          ghost var ds := deployments;
          assert !BootedIn(ds, toRemove[j]);
          var done, undeployed := CleanupStateroot(toRemove[j]);
          StaterootKept(ds, toRemove[j], boot, undeployed);
          UndeployFrom(ds, PositionsDown(ds, toRemove[j])[..undeployed]);
          if !done { failures := failures + 1; }
          if failures == 0 { WithoutOnly(ds, toRemove[j], left); }
          left := left - {toRemove[j]};
        }
      }
      assert left <= {boot};
      BootedListed(before, b, deployments);
      var cleaned := Call();
      if !cleaned { failures := failures + 1; }
      var listed, removed := RemoveOtherDirs(booted);
      ok := failures == 0 && listed && removed;
      if ok { OfAll(deployments, boot); }
    }

    // The directories of stateroots that are not listed as deployments.
    method RemoveOtherDirs(booted: string) returns (listed: bool, removed: bool)
      modifies `dirs, `faults
      ensures faults >= old(faults) && (listed && removed <==> faults == old(faults))
      ensures dirs <= old(dirs) && (booted in old(dirs) ==> booted in dirs)
      ensures listed && removed ==> dirs == old(dirs) * {booted}
      ensures !listed ==> dirs == old(dirs)
    {
      removed := true;
      listed := Call();
      if !listed { return; }
      var entries := dirs;
      while entries != {}
        invariant dirs <= old(dirs) && entries <= old(dirs)
        invariant booted in old(dirs) ==> booted in dirs
        invariant faults >= old(faults) && (removed <==> faults == old(faults))
        invariant removed ==> dirs <= entries + {booted}
        decreases |entries|
      {
        var name :| name in entries;
        entries := entries - {name};
        if name != booted {
          var done := RemoveDir(name);
          if !done { removed := false; }
        }
      }
    }

    method Attempt(t: Task) returns (ok: bool)
      modifies `faults, `attempted
      ensures faults == old(faults) + if ok then 0 else 1
      ensures attempted == old(attempted) + {t}
    {
      ok := Call();
      attempted := attempted + {t};
    }

    // cleanup: whatever fails, every task is attempted, except that the stateroots are not removed
    // when deleting the setup job fails; success means exactly that no call failed.
    method Cleanup(ghost b: nat) returns (ok: bool)
      requires OneBooted(deployments, b)
      modifies this
      ensures ok <==> faults == old(faults)
      ensures {SetupJob, Precache, Annotation, OADP, Workspace} <= attempted
      ensures ok ==> Stateroots in attempted
      ensures old(deployments[b]) in deployments
      ensures old(deployments[b].osname) in old(dirs) ==> old(deployments[b].osname) in dirs
      ensures ok ==> deployments == Of(old(deployments), old(deployments[b].osname))
      ensures ok ==> dirs == old(dirs) * {old(deployments[b].osname)}
    {
      ok := Attempt(SetupJob);
      if ok {
        attempted := attempted + {Stateroots};
        ok := CleanupUnbooted(b);
      }
      var precache := Attempt(Precache);
      var annotation := Attempt(Annotation);
      var oadp := Attempt(OADP);
      var workspace := Attempt(Workspace);
      ok := ok && precache && annotation && oadp && workspace;
    }
  }

  lemma BootedOnly(ds: seq<Deployment>, b: nat)
    requires OneBooted(ds, b)
    ensures forall d | d in ds && d.booted :: d.osname == ds[b].osname
  {
    forall d | d in ds && d.booted ensures d.osname == ds[b].osname {
      var i :| 0 <= i < |ds| && ds[i] == d;
    }
  }

  // Listing the positions from the last on.
  lemma PositionsNext(all: seq<Deployment>, i: nat, name: string, ps: seq<nat>)
    requires i < |all| && ps + PositionsDown(all[..i + 1], name) == PositionsDown(all, name)
    ensures (if all[i].osname == name then ps + [i] else ps) + PositionsDown(all[..i], name) == PositionsDown(all, name)
  {
    assert all[..i + 1][..i] == all[..i];
  }

  lemma NothingUndeployed(ds: seq<Deployment>, name: string)
    ensures UndeployAll(ds, PositionsDown(ds, name)[..0]) == ds
  {}

  lemma AllUndeployed(ds: seq<Deployment>, name: string)
    ensures var ps := PositionsDown(ds, name);
            ps[..|ps|] == ps && UndeployAll(ds, ps) == Without(ds, name)
  {
    assert ds + [] == ds;
    UndeployDown(ds, [], name);
  }

  lemma {:induction false} UndeployNext(ds: seq<Deployment>, ps: seq<nat>, j: nat)
    requires j < |ps|
    ensures var r := UndeployAll(ds, ps[..j]);
            UndeployAll(ds, ps[..j + 1]) == if ps[j] < |r| then RemoveAt(r, ps[j]) else r
    decreases j
  {
    if j > 0 {
      assert ps[..j][1..] == ps[1..][..j - 1] && ps[..j + 1][1..] == ps[1..][..j];
      UndeployNext(if ps[0] < |ds| then RemoveAt(ds, ps[0]) else ds, ps[1..], j - 1);
    }
  }

  lemma StaterootKept(ds: seq<Deployment>, name: string, other: string, k: nat)
    requires name != other && k <= |PositionsDown(ds, name)|
    ensures Of(UndeployAll(ds, PositionsDown(ds, name)[..k]), other) == Of(ds, other)
  {
    assert ds + [] == ds;
    OthersKept(ds, [], name, other, k);
  }

  // As long as the booted stateroot's deployments are the same, the booted one is there.
  lemma BootedListed(before: seq<Deployment>, b: nat, ds: seq<Deployment>)
    requires b < |before| && Of(ds, before[b].osname) == Of(before, before[b].osname)
    ensures before[b] in ds
  {
    OfMember(before, before[b]);
    OfMember(ds, before[b]);
  }

  lemma {:induction false} OfMember(ds: seq<Deployment>, d: Deployment)
    ensures d in Of(ds, d.osname) <==> d in ds
  {
    if ds != [] { OfMember(ds[1..], d); }
  }
}
