/**
 Sorting manifests by apply wave and name, and grouping them by wave.
 */
module Waves {
  import opened Decimal
  import opened Prelude

  // defaultApplyWave, math.MaxInt32
  const DEFAULT_WAVE: int := 0x7FFF_FFFF

  // wave: the apply-wave annotation; body: everything else.
  datatype Manifest = Manifest(wave: Option<string>, name: string, body: string)

  predicate Defaulted(m: Manifest) {
    m.wave == None || m.wave == Some("")
  }

  predicate Parses(m: Manifest) {
    Defaulted(m) || Atoi(m.wave.value).1
  }

  // The number sorted by: errors are ignored while sorting.
  function Wave(m: Manifest): int {
    if Defaulted(m) then DEFAULT_WAVE else Atoi(m.wave.value).0
  }

  // Lexicographic order on names.
  predicate NameLess(a: string, b: string) {
    b != "" && (a == "" || a[0] < b[0] || (a[0] == b[0] && NameLess(a[1..], b[1..])))
  }

  predicate Less(a: Manifest, b: Manifest) {
    Wave(a) < Wave(b) || (Wave(a) == Wave(b) && NameLess(a.name, b.name))
  }

  lemma {:induction false} NameTotal(a: string, b: string)
    ensures NameLess(a, b) || a == b || NameLess(b, a)
    ensures !(NameLess(a, b) && NameLess(b, a)) && !(NameLess(a, b) && a == b)
  {
    if a != "" && b != "" {
      NameTotal(a[1..], b[1..]);
      assert a == [a[0]] + a[1..] && b == [b[0]] + b[1..];
    }
  }

  lemma {:induction false} NameTransitive(a: string, b: string, c: string)
    requires NameLess(a, b) && NameLess(b, c)
    ensures NameLess(a, c)
  {
    if a != "" && a[0] == b[0] == c[0] { NameTransitive(a[1..], b[1..], c[1..]); }
  }

  // Names are compared at the first character they differ in, and a prefix comes first.
  lemma {:induction false} NameLessAt(p: string, x: string, y: string)
    requires y != "" && (x == "" || x[0] < y[0])
    ensures NameLess(p + x, p + y)
  {
    if p == "" {
      assert p + x == x && p + y == y;
    } else {
      NameLessAt(p[1..], x, y);
      assert (p + x)[1..] == p[1..] + x && (p + y)[1..] == p[1..] + y;
    }
  }

  // An annotation that writes a number is that wave; any other annotation is an error.
  lemma WaveAsWritten(m: Manifest, s: string)
    requires m.wave == Some(s) && s != ""
    ensures Parses(m) <==> exists v :: MIN_INT <= v <= MAX_INT && Writes(s, v)
    ensures forall v | MIN_INT <= v <= MAX_INT && Writes(s, v) :: Wave(m) == v
  {
    forall v | MIN_INT <= v <= MAX_INT && Writes(s, v) ensures Atoi(s) == (v, true) { AtoiExactly(s, v); }
    if Parses(m) { AtoiExactly(s, Atoi(s).0); }
  }

  // Manifests without an annotation come after all those with a wave below 2^31 - 1.
  lemma UnannotatedLast(ms: seq<Manifest>, i: nat, j: nat, v: int)
    requires Sorted(ms) && i < |ms| && j < |ms| && (ms[i].wave == None || ms[i].wave == Some(""))
    requires ms[j].wave.Some? && Writes(ms[j].wave.value, v) && MIN_INT <= v < 0x7FFF_FFFF
    ensures j < i
  {
    WrittenNotEmpty(ms[j].wave.value, v);
    WaveAsWritten(ms[j], ms[j].wave.value);
    assert Less(ms[j], ms[i]);
  }

  lemma WrittenNotEmpty(s: string, v: int)
    requires Writes(s, v)
    ensures s != ""
  {
    PrintValue(if v < 0 then -v else v);
  }

  // b does not come before a.
  predicate Ordered(a: Manifest, b: Manifest) {
    !Less(b, a)
  }

  predicate SameKey(a: Manifest, b: Manifest) {
    Wave(a) == Wave(b) && a.name == b.name
  }

  lemma OrderedTransitive(a: Manifest, b: Manifest, c: Manifest)
    requires Ordered(a, b) && Ordered(b, c)
    ensures Ordered(a, c)
    ensures SameKey(a, c) ==> SameKey(a, b)
  {
    NameTotal(a.name, b.name);
    NameTotal(b.name, c.name);
    NameTotal(a.name, c.name);
    if NameLess(a.name, b.name) && NameLess(b.name, c.name) { NameTransitive(a.name, b.name, c.name); }
  }

  lemma OrderedTotal(a: Manifest, b: Manifest)
    ensures Ordered(a, b) || Ordered(b, a)
    ensures Ordered(a, b) && Ordered(b, a) <==> SameKey(a, b)
  {
    NameTotal(a.name, b.name);
  }

  predicate Sorted(ms: seq<Manifest>) {
    forall i, j | 0 <= i < j < |ms| :: Ordered(ms[i], ms[j])
  }

  // The manifests with the key of k, in order.
  function WithKey(ms: seq<Manifest>, k: Manifest): seq<Manifest> {
    if ms == [] then [] else (if SameKey(ms[0], k) then [ms[0]] else []) + WithKey(ms[1..], k)
  }

  // r is a stable sort of ms: sorted, and manifests with equal keys keep their order.
  ghost predicate StableSortOf(r: seq<Manifest>, ms: seq<Manifest>) {
    Sorted(r) && forall k :: WithKey(r, k) == WithKey(ms, k)
  }

  // Put x before the manifests that do not come before it.
  function Insert(x: Manifest, ms: seq<Manifest>): seq<Manifest> {
    if ms == [] || Ordered(x, ms[0]) then [x] + ms else [ms[0]] + Insert(x, ms[1..])
  }

  function StableSort(ms: seq<Manifest>): seq<Manifest> {
    if ms == [] then [] else Insert(ms[0], StableSort(ms[1..]))
  }

  lemma {:induction false} InsertSorted(x: Manifest, ms: seq<Manifest>)
    requires Sorted(ms)
    ensures Sorted(Insert(x, ms)) && multiset(Insert(x, ms)) == multiset{x} + multiset(ms)
  {
    if ms == [] {
    } else if Ordered(x, ms[0]) {
      forall j | 0 <= j < |ms| ensures Ordered(x, ms[j]) {
        if j > 0 { OrderedTransitive(x, ms[0], ms[j]); }
      }
    } else {
      InsertSorted(x, ms[1..]);
      OrderedTotal(x, ms[0]);
      var r := Insert(x, ms[1..]);
      forall j | 0 <= j < |r| ensures Ordered(ms[0], r[j]) {
        assert r[j] in multiset{x} + multiset(ms[1..]);
        if r[j] != x {
          var i :| 0 <= i < |ms[1..]| && ms[1..][i] == r[j];
          assert r[j] == ms[i + 1];
        }
      }
      assert ms == [ms[0]] + ms[1..];
    }
  }

  lemma {:induction false} InsertStable(x: Manifest, ms: seq<Manifest>, k: Manifest)
    requires Sorted(ms)
    ensures WithKey(Insert(x, ms), k) == WithKey([x] + ms, k)
  {
    assert ([x] + ms)[1..] == ms;
    if ms != [] && !Ordered(x, ms[0]) {
      InsertStable(x, ms[1..], k);
      assert ([x] + ms[1..])[1..] == ms[1..];
      assert Insert(x, ms)[1..] == Insert(x, ms[1..]);
      OrderedTotal(x, ms[0]);
      OrderedTotal(ms[0], k);
      OrderedTotal(x, k);
    }
  }

  lemma {:induction false} StableSortIsStable(ms: seq<Manifest>)
    ensures StableSortOf(StableSort(ms), ms) && multiset(StableSort(ms)) == multiset(ms)
  {
    if ms != [] {
      StableSortIsStable(ms[1..]);
      InsertSorted(ms[0], StableSort(ms[1..]));
      assert ms == [ms[0]] + ms[1..];
      forall k ensures WithKey(StableSort(ms), k) == WithKey(ms, k) {
        InsertStable(ms[0], StableSort(ms[1..]), k);
        assert ([ms[0]] + StableSort(ms[1..]))[1..] == StableSort(ms[1..]);
      }
    }
  }

  lemma {:induction false} WithKeyMember(ms: seq<Manifest>, k: Manifest)
    ensures (exists i :: 0 <= i < |ms| && SameKey(ms[i], k)) <==> WithKey(ms, k) != []
    ensures WithKey(ms, k) != [] ==> SameKey(WithKey(ms, k)[0], k)
  {
    if ms != [] {
      WithKeyMember(ms[1..], k);
      if i :| 0 <= i < |ms| && SameKey(ms[i], k) {
        assert i > 0 ==> ms[i] == ms[1..][i - 1];
      }
      if j :| 0 <= j < |ms[1..]| && SameKey(ms[1..][j], k) {
        assert ms[j + 1] == ms[1..][j];
      }
    }
  }

  // The first manifest of a sorted list comes before or with those of any list of the same keys.
  lemma FirstComesFirst(r: seq<Manifest>, q: seq<Manifest>)
    requires Sorted(r) && r != [] && q != [] && WithKey(r, q[0]) == WithKey(q, q[0])
    ensures Ordered(r[0], q[0])
  {
    WithKeyMember(q, q[0]);
    assert SameKey(q[0], q[0]);
    WithKeyMember(r, q[0]);
    var i :| 0 <= i < |r| && SameKey(r[i], q[0]);
    OrderedTotal(r[i], q[0]);
    if i > 0 { OrderedTransitive(r[0], r[i], q[0]); }
  }

  ghost predicate SameByKey(r: seq<Manifest>, q: seq<Manifest>) {
    forall k :: WithKey(r, k) == WithKey(q, k)
  }

  lemma SameFirst(r: seq<Manifest>, q: seq<Manifest>)
    requires Sorted(r) && Sorted(q) && r != [] && q != [] && SameByKey(r, q)
    ensures r[0] == q[0] && SameByKey(r[1..], q[1..])
  {
    FirstComesFirst(r, q);
    FirstComesFirst(q, r);
    OrderedTotal(r[0], q[0]);
    assert WithKey(r, r[0]) == WithKey(q, r[0]);
    assert WithKey(r, r[0])[0] == r[0] && WithKey(q, r[0])[0] == q[0];
    forall k ensures WithKey(r[1..], k) == WithKey(q[1..], k) {
      assert WithKey(r, k) == WithKey(q, k);
      var head := if SameKey(r[0], k) then [r[0]] else [];
      assert WithKey(r, k) == head + WithKey(r[1..], k) && WithKey(q, k) == head + WithKey(q[1..], k);
      assert WithKey(r[1..], k) == WithKey(r, k)[|head|..];
    }
  }

  lemma SameEmptiness(r: seq<Manifest>, q: seq<Manifest>)
    requires SameByKey(r, q)
    ensures r == [] <==> q == []
  {
    if r != [] { assert WithKey(r, r[0]) == WithKey(q, r[0]); }
    if q != [] { assert WithKey(r, q[0]) == WithKey(q, q[0]); }
  }

  lemma {:induction false} SortedUnique(r: seq<Manifest>, q: seq<Manifest>)
    requires Sorted(r) && Sorted(q) && SameByKey(r, q)
    ensures r == q
    decreases |r|
  {
    SameEmptiness(r, q);
    if r != [] {
      SameFirst(r, q);
      SortedUnique(r[1..], q[1..]);
    }
  }

  // There is one stable sort: whatever algorithm sorts, the result is the same.
  lemma StableSortUnique(r: seq<Manifest>, ms: seq<Manifest>)
    requires StableSortOf(r, ms)
    ensures r == StableSort(ms)
  {
    StableSortIsStable(ms);
    forall k ensures WithKey(r, k) == WithKey(StableSort(ms), k) {
      assert WithKey(r, k) == WithKey(ms, k);
    }
    SortedUnique(r, StableSort(ms));
  }

  function Flatten<T>(groups: seq<seq<T>>): seq<T> {
    if groups == [] then [] else Flatten(groups[..|groups| - 1]) + groups[|groups| - 1]
  }

  // Each group is not empty and of one wave, and waves strictly increase.
  predicate Grouped(groups: seq<seq<Manifest>>) {
    && (forall g | 0 <= g < |groups| :: groups[g] != [])
    && (forall g, i | 0 <= g < |groups| && 0 <= i < |groups[g]| :: Wave(groups[g][i]) == Wave(groups[g][0]))
    && (forall g, h | 0 <= g < h < |groups| && groups[g] != [] && groups[h] != [] :: Wave(groups[g][0]) < Wave(groups[h][0]))
  }

  // SortAndGroupByApplyWave: the slice is sorted in place and then cut where the wave changes.
  method SortAndGroupByApplyWave(objs: array<Manifest>) returns (groups: seq<seq<Manifest>>, ok: bool)
    modifies objs
    ensures StableSortOf(objs[..], old(objs[..])) && multiset(objs[..]) == multiset(old(objs[..]))
    ensures ok <==> AllParse(old(objs[..]))
    ensures Grouped(groups)
    ensures ok ==> Flatten(groups) == objs[..]
    ensures !ok ==> exists i :: 0 <= i < objs.Length && !Parses(objs[i]) && Flatten(groups) == objs[..i]
  {
    SortInPlace(objs);
    groups, ok := Group(objs[..]);
    SameMembers(objs[..], old(objs[..]));
    if !ok {
      ghost var i := |Flatten(groups)|;
      assert !Parses(objs[i]) && Flatten(groups) == objs[..i];
    }
  }

  predicate AllParse(ms: seq<Manifest>) {
    forall i | 0 <= i < |ms| :: Parses(ms[i])
  }

  // What grouping the first i manifests has to give.
  predicate GroupedSoFar(sorted: seq<Manifest>, i: nat, groups: seq<seq<Manifest>>, previous: int)
    requires i <= |sorted|
  {
    && Grouped(groups) && Flatten(groups) == sorted[..i]
    && (i == 0 ==> groups == [])
    && (i > 0 ==> groups != [] && previous == Wave(sorted[i - 1]) == Wave(groups[|groups| - 1][0]))
  }

  // The grouping loop.
  method Group(sorted: seq<Manifest>) returns (groups: seq<seq<Manifest>>, ok: bool)
    requires Sorted(sorted)
    ensures Grouped(groups) && (ok <==> AllParse(sorted))
    ensures Flatten(groups) <= sorted && (ok <==> Flatten(groups) == sorted)
    ensures !ok ==> !Parses(sorted[|Flatten(groups)|])
  {
    groups := [];
    var previous := 0;
    for i := 0 to |sorted|
      invariant GroupedSoFar(sorted, i, groups, previous)
      invariant forall j | 0 <= j < i :: Parses(sorted[j])
    {
      var value, fine := ParseWave(sorted[i]);
      GroupedPrefix(sorted, i, groups, previous);
      if !fine { ok := false; return; }
      groups := GroupNext(sorted, i, groups, previous, value);
      previous := value;
    }
    GroupedPrefix(sorted, |sorted|, groups, previous);
    ok := true;
  }

  lemma GroupedPrefix(sorted: seq<Manifest>, i: nat, groups: seq<seq<Manifest>>, previous: int)
    requires i <= |sorted| && GroupedSoFar(sorted, i, groups, previous)
    ensures |Flatten(groups)| == i && Flatten(groups) <= sorted && (Flatten(groups) == sorted <==> i == |sorted|)
  {}

  method GroupNext(sorted: seq<Manifest>, i: nat, groups: seq<seq<Manifest>>, previous: int, value: int)
    returns (r: seq<seq<Manifest>>)
    requires Sorted(sorted) && i < |sorted| && value == Wave(sorted[i]) && GroupedSoFar(sorted, i, groups, previous)
    ensures GroupedSoFar(sorted, i + 1, r, value)
  {
    assert sorted[..i + 1] == sorted[..i] + [sorted[i]];
    if i > 0 { WavesAscend(sorted, i); }
    r := Append(groups, sorted[i], i == 0 || value != previous);
  }

  method ParseWave(m: Manifest) returns (value: int, ok: bool)
    ensures ok == Parses(m) && (ok ==> value == Wave(m))
  {
    if Defaulted(m) { return DEFAULT_WAVE, true; }
    var (v, fine) := Atoi(m.wave.value);
    return v, fine;
  }

  // Append a manifest to a new last group or to the last group.
  method Append(groups: seq<seq<Manifest>>, m: Manifest, first: bool) returns (r: seq<seq<Manifest>>)
    requires Grouped(groups) && (groups == [] ==> first)
    requires groups != [] ==>
               var w := Wave(groups[|groups| - 1][0]); if first then w < Wave(m) else w == Wave(m)
    ensures Grouped(r) && Flatten(r) == Flatten(groups) + [m]
    ensures r != [] && Wave(r[|r| - 1][0]) == Wave(m)
  {
    if first {
      r := groups + [[]];
      GroupStarted(groups, m);
    } else {
      r := groups;
      GroupContinued(groups, m);
    }
    var index := |r| - 1;
    r := r[index := r[index] + [m]];
  }

  lemma WavesAscend(sorted: seq<Manifest>, i: nat)
    requires Sorted(sorted) && 0 < i < |sorted|
    ensures Wave(sorted[i - 1]) <= Wave(sorted[i])
  {
    assert Ordered(sorted[i - 1], sorted[i]);
  }

  // Appending a manifest that comes after the last group, in a group of its own.
  lemma GroupStarted(groups: seq<seq<Manifest>>, m: Manifest)
    requires Grouped(groups) && (groups != [] ==> Wave(groups[|groups| - 1][0]) < Wave(m))
    ensures var r := (groups + [[]])[|groups| := [] + [m]];
            Grouped(r) && Flatten(r) == Flatten(groups) + [m]
  {
    var r := (groups + [[]])[|groups| := [] + [m]];
    assert r[..|groups|] == groups && r[|groups|] == [m];
  }

  // Appending a manifest of the wave of the last group to that group.
  lemma GroupContinued(groups: seq<seq<Manifest>>, m: Manifest)
    requires Grouped(groups) && groups != [] && Wave(groups[|groups| - 1][0]) == Wave(m)
    ensures var n := |groups| - 1;
            var r := groups[n := groups[n] + [m]];
            Grouped(r) && Flatten(r) == Flatten(groups) + [m]
  {
    var n := |groups| - 1;
    assert groups[n := groups[n] + [m]][..n] == groups[..n];
  }

  lemma SameMembers(a: seq<Manifest>, b: seq<Manifest>)
    requires multiset(a) == multiset(b)
    ensures AllParse(a) <==> AllParse(b)
  {
    forall i | 0 <= i < |a| ensures a[i] in b { assert a[i] in multiset(a); }
    forall i | 0 <= i < |b| ensures b[i] in a { assert b[i] in multiset(b); }
  }

  // sort.SliceStable
  method SortInPlace(objs: array<Manifest>)
    modifies objs
    ensures StableSortOf(objs[..], old(objs[..])) && multiset(objs[..]) == multiset(old(objs[..]))
  {
    var sorted := StableSort(objs[..]);
    StableSortIsStable(objs[..]);
    assert |sorted| == |multiset(sorted)| == |multiset(objs[..])| == objs.Length;
    forall i | 0 <= i < objs.Length { objs[i] := sorted[i]; }
    assert objs[..] == sorted;
  }
}
