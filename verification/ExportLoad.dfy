/**
 Writing ordered groups of manifests to numbered directories and files, and reading them back.

 The contents of a file are what it decodes to, or None when it does not decode. A locked entry is a
 directory that cannot be read.
 */
module ExportLoad {
  import opened Prelude
  import opened Decimal

  datatype Entry<M> = File(content: Option<M>) | Dir(entries: map<string, Entry<M>>) | Locked

  type Tree<M> = map<string, Entry<M>>

  // ----- numbers in names -----

  // The longest run of digits at the end, and at the start.
  function TrailingDigits(s: string): (d: string)
    ensures AllDigits(d)
  {
    if s == "" || !IsDigit(s[|s| - 1]) then "" else TrailingDigits(s[..|s| - 1]) + [s[|s| - 1]]
  }

  function LeadingDigits(s: string): (d: string)
    ensures AllDigits(d)
  {
    if s == "" || !IsDigit(s[0]) then "" else [s[0]] + LeadingDigits(s[1..])
  }

  // 0 when there is no number or it does not fit.
  function NumberOf(digits: string): int {
    var (v, ok) := Atoi(digits);
    if ok then v else 0
  }

  function ExtractTrailingNumber(s: string): int {
    NumberOf(TrailingDigits(s))
  }

  function ExtractLeadingNumber(s: string): int {
    NumberOf(LeadingDigits(s))
  }

  lemma {:induction false} TrailingOf(prefix: string, digits: string)
    requires AllDigits(digits) && (prefix == "" || !IsDigit(prefix[|prefix| - 1]))
    ensures TrailingDigits(prefix + digits) == digits
    decreases |digits|
  {
    if digits == "" {
      assert prefix + digits == prefix;
    } else {
      var n := |digits| - 1;
      assert (prefix + digits)[..|prefix + digits| - 1] == prefix + digits[..n];
      TrailingOf(prefix, digits[..n]);
    }
  }

  lemma {:induction false} LeadingOf(digits: string, rest: string)
    requires AllDigits(digits) && (rest == "" || !IsDigit(rest[0]))
    ensures LeadingDigits(digits + rest) == digits
    decreases |digits|
  {
    if digits == "" {
      assert digits + rest == rest;
    } else {
      assert (digits + rest)[1..] == digits[1..] + rest;
      LeadingOf(digits[1..], rest);
    }
  }

  // The number is that of the whole run of digits, and 0 when there is none or it does not fit.
  lemma TrailingNumber(prefix: string, digits: string)
    requires AllDigits(digits) && (prefix == "" || !IsDigit(prefix[|prefix| - 1]))
    ensures ExtractTrailingNumber(prefix + digits) == if digits == "" || Value(digits) > MAX_INT then 0 else Value(digits)
  {
    TrailingOf(prefix, digits);
    if digits != "" { assert IsDigit(digits[0]); }
  }

  lemma LeadingNumber(digits: string, rest: string)
    requires AllDigits(digits) && (rest == "" || !IsDigit(rest[0]))
    ensures ExtractLeadingNumber(digits + rest) == if digits == "" || Value(digits) > MAX_INT then 0 else Value(digits)
  {
    LeadingOf(digits, rest);
    if digits != "" { assert IsDigit(digits[0]); }
  }

  // The name of item i: a directory of a group, or a file of a manifest.
  datatype Naming = GroupName(prefix: string) | FileName(rests: seq<string>)

  // "restore" and "group" do not end in a digit; a file's number is followed by an underscore.
  predicate Separated(n: Naming) {
    n.GroupName? ==> n.prefix == "" || !IsDigit(n.prefix[|n.prefix| - 1])
  }

  function Name(n: Naming, i: nat): string
    requires n.FileName? ==> i < |n.rests|
  {
    match n
    case GroupName(prefix) => prefix + Print(i + 1)
    case FileName(rests) => Print(i + 1) + "_" + rests[i] + ".yaml"
  }

  lemma NumberOfGroup(prefix: string, i: nat)
    requires Separated(GroupName(prefix)) && i < MAX_INT
    ensures ExtractTrailingNumber(Name(GroupName(prefix), i)) == i + 1
  {
    PrintValue(i + 1);
    PrintParse(i + 1);
    TrailingOf(prefix, Print(i + 1));
  }

  lemma LeadingOfFile(digits: string, rest: string)
    requires AllDigits(digits)
    ensures LeadingDigits(digits + "_" + rest + ".yaml") == digits
  {
    var tail := "_" + rest + ".yaml";
    LeadingOf(digits, tail);
    assert digits + "_" + rest + ".yaml" == digits + tail;
  }

  lemma NumberOfFile(rests: seq<string>, i: nat)
    requires i < |rests| && i < MAX_INT
    ensures ExtractLeadingNumber(Name(FileName(rests), i)) == i + 1
  {
    PrintValue(i + 1);
    PrintParse(i + 1);
    LeadingOfFile(Print(i + 1), rests[i]);
  }

  // The key reads the number back from each of the first count names.
  ghost predicate Numbers(key: string -> int, n: Naming, count: nat)
    requires n.FileName? ==> count <= |n.rests|
  {
    forall i: nat | i < count :: key(Name(n, i)) == i + 1
  }

  lemma GroupsNumbered(prefix: string, count: nat)
    requires Separated(GroupName(prefix)) && count <= MAX_INT
    ensures Numbers(ExtractTrailingNumber, GroupName(prefix), count)
  {
    forall i: nat | i < count ensures ExtractTrailingNumber(Name(GroupName(prefix), i)) == i + 1 { NumberOfGroup(prefix, i); }
  }

  lemma FilesNumbered(rests: seq<string>, count: nat)
    requires count <= |rests| && count <= MAX_INT
    ensures Numbers(ExtractLeadingNumber, FileName(rests), count)
  {
    forall i: nat | i < count ensures ExtractLeadingNumber(Name(FileName(rests), i)) == i + 1 { NumberOfFile(rests, i); }
  }

  // ----- order -----

  predicate Distinct(names: seq<string>) {
    forall i, j | 0 <= i < j < |names| :: names[i] != names[j]
  }

  predicate SortedBy(key: string -> int, names: seq<string>) {
    forall i, j | 0 <= i < j < |names| :: key(names[i]) <= key(names[j])
  }

  // The names in some order in which their numbers ascend.
  ghost predicate Listing(key: string -> int, names: seq<string>, present: set<string>) {
    Distinct(names) && SortedBy(key, names) && forall x :: x in names <==> x in present
  }

  function Names(n: Naming, count: nat): (s: seq<string>)
    requires n.FileName? ==> count <= |n.rests|
    ensures |s| == count && forall i | 0 <= i < count :: s[i] == Name(n, i)
  {
    seq(count, i requires 0 <= i < count => Name(n, i))
  }

  function NameSet(n: Naming, count: nat): set<string>
    requires n.FileName? ==> count <= |n.rests|
  {
    set x | x in Names(n, count)
  }

  lemma {:induction false} Ascending(ks: seq<int>, i: nat)
    requires forall i, j | 0 <= i < j < |ks| :: ks[i] < ks[j]
    requires i < |ks| && ks[0] >= 1
    ensures ks[i] >= i + 1
  {
    if i > 0 { Ascending(ks, i - 1); }
  }

  // Ascending numbers from 1 to n that leave none out.
  lemma {:induction false} OneTo(ks: seq<int>, n: nat, i: nat)
    requires forall i, j | 0 <= i < j < |ks| :: ks[i] < ks[j]
    requires forall i | 0 <= i < |ks| :: 1 <= ks[i] <= n
    requires forall v | 1 <= v <= n :: v in ks
    requires i <= n
    ensures i <= |ks| <= n && forall j | 0 <= j < i :: ks[j] == j + 1
  {
    if |ks| > 0 { Ascending(ks, |ks| - 1); }
    if i > 0 {
      OneTo(ks, n, i - 1);
      assert i as int in ks;
      var p :| 0 <= p < |ks| && ks[p] == i;
      Ascending(ks, p);
    }
  }

  function Keys(key: string -> int, names: seq<string>): (ks: seq<int>)
    ensures |ks| == |names| && forall i | 0 <= i < |names| :: ks[i] == key(names[i])
  {
    seq(|names|, i requires 0 <= i < |names| => key(names[i]))
  }

  // Distinct names sorted by numbers that are exactly 1 to n are numbered in order.
  lemma NumberedOnce(key: string -> int, names: seq<string>, n: nat)
    requires Distinct(names) && SortedBy(key, names)
    requires forall i | 0 <= i < |names| :: 1 <= key(names[i]) <= n
    requires forall i, j | 0 <= i < j < |names| :: key(names[i]) != key(names[j])
    requires forall v | 1 <= v <= n :: v in Keys(key, names)
    ensures |names| == n && forall i | 0 <= i < n :: key(names[i]) == i + 1
  {
    OneTo(Keys(key, names), n, n);
  }

  // The listing of the names is unique: the names in their order, however the directory is read
  // and however ties would be broken.
  lemma ListingUnique(key: string -> int, ordered: seq<string>, names: seq<string>, present: set<string>)
    requires forall i | 0 <= i < |ordered| :: key(ordered[i]) == i + 1
    requires forall x :: x in present <==> x in ordered
    requires Listing(key, names, present)
    ensures names == ordered
  {
    forall i | 0 <= i < |names| ensures 1 <= key(names[i]) <= |ordered| && names[i] == ordered[key(names[i]) - 1] {
      assert names[i] in names && names[i] in present;
      var q :| 0 <= q < |ordered| && ordered[q] == names[i];
    }
    forall v | 1 <= v <= |ordered| ensures v in Keys(key, names) {
      assert ordered[v - 1] in names;
      var p :| 0 <= p < |names| && names[p] == ordered[v - 1];
      assert Keys(key, names)[p] == v;
    }
    NumberedOnce(key, names, |ordered|);
  }

  // The map holds the values vs under their names and nothing else.
  ghost predicate Numbered<V>(m: map<string, V>, n: Naming, vs: seq<V>) {
    && (n.FileName? ==> |vs| <= |n.rests|)
    && m.Keys == NameSet(n, |vs|)
    && forall i: nat | i < |vs| :: m[Name(n, i)] == vs[i]
  }

  lemma NumberedAdded<V>(key: string -> int, m: map<string, V>, n: Naming, vs: seq<V>, v: V)
    requires Numbered(m, n, vs) && (n.FileName? ==> |vs| < |n.rests|) && Numbers(key, n, |vs| + 1)
    ensures Numbered(m[Name(n, |vs|) := v], n, vs + [v])
  {
    var k := |vs|;
    assert key(Name(n, k)) == k + 1;
    forall j: nat | j < k ensures Name(n, j) != Name(n, k) { assert key(Name(n, j)) == j + 1; }
    assert Names(n, k + 1) == Names(n, k) + [Name(n, k)];
  }

  function Values<V>(m: map<string, V>, names: seq<string>): (vs: seq<V>)
    requires forall i | 0 <= i < |names| :: names[i] in m
    ensures |vs| == |names| && forall i | 0 <= i < |names| :: vs[i] == m[names[i]]
  {
    seq(|names|, i requires 0 <= i < |names| => m[names[i]])
  }

  // Listing the map by number gives the values back in their order.
  lemma NumberedListed<V>(key: string -> int, m: map<string, V>, n: Naming, vs: seq<V>, names: seq<string>)
    requires Numbered(m, n, vs) && Numbers(key, n, |vs|) && Listing(key, names, m.Keys)
    ensures (forall i | 0 <= i < |names| :: names[i] in m) && Values(m, names) == vs
  {
    ListingUnique(key, Names(n, |vs|), names, m.Keys);
    assert forall i | 0 <= i < |names| :: names[i] in names;
  }

  // ----- export -----

  function Files<M>(group: seq<M>): (vs: seq<Entry<M>>)
    ensures |vs| == |group| && forall j | 0 <= j < |group| :: vs[j] == File(Some(group[j]))
  {
    seq(|group|, j requires 0 <= j < |group| => File(Some(group[j])))
  }

  function Dirs<M>(es: seq<Tree<M>>): (vs: seq<Entry<M>>)
    ensures |vs| == |es| && forall i | 0 <= i < |es| :: vs[i] == Dir(es[i])
  {
    seq(|es|, i requires 0 <= i < |es| => Dir(es[i]))
  }

  // The files of one group: file j has number j + 1, then whatever rests[j] says.
  ghost predicate GroupFiles<M>(entries: Tree<M>, group: seq<M>, rests: seq<string>) {
    |rests| == |group| <= MAX_INT && Numbered(entries, FileName(rests), Files(group))
  }

  ghost predicate AllGroupFiles<M>(es: seq<Tree<M>>, groups: seq<seq<M>>, rests: seq<seq<string>>) {
    && |es| == |groups| == |rests|
    && forall i | 0 <= i < |groups| :: GroupFiles(es[i], groups[i], rests[i])
  }

  // The numbered directories of all groups and nothing else.
  ghost predicate Exported<M>(tree: Tree<M>, prefix: string, groups: seq<seq<M>>, rests: seq<seq<string>>) {
    && Separated(GroupName(prefix)) && |rests| == |groups| <= MAX_INT
    && tree.Keys == NameSet(GroupName(prefix), |groups|)
    && forall i: nat | i < |groups| ::
         var d := tree[Name(GroupName(prefix), i)];
         d.Dir? && GroupFiles(d.entries, groups[i], rests[i])
  }

  // The same, with the directories listed.
  ghost predicate ExportedAs<M>(tree: Tree<M>, prefix: string, es: seq<Tree<M>>, groups: seq<seq<M>>, rests: seq<seq<string>>) {
    && Separated(GroupName(prefix)) && |groups| <= MAX_INT
    && AllGroupFiles(es, groups, rests) && Numbered(tree, GroupName(prefix), Dirs(es))
  }

  lemma ExportedDirs<M>(tree: Tree<M>, prefix: string, es: seq<Tree<M>>, groups: seq<seq<M>>, rests: seq<seq<string>>)
    requires ExportedAs(tree, prefix, es, groups, rests)
    ensures Exported(tree, prefix, groups, rests)
  {
    forall i: nat | i < |groups|
      ensures var d := tree[Name(GroupName(prefix), i)]; d.Dir? && GroupFiles(d.entries, groups[i], rests[i])
    {
      assert tree[Name(GroupName(prefix), i)] == Dirs(es)[i] == Dir(es[i]);
    }
  }

  lemma DirsExported<M>(tree: Tree<M>, prefix: string, groups: seq<seq<M>>, rests: seq<seq<string>>) returns (es: seq<Tree<M>>)
    requires Exported(tree, prefix, groups, rests)
    ensures ExportedAs(tree, prefix, es, groups, rests)
  {
    es := seq(|groups|, i requires 0 <= i < |groups| => tree[Name(GroupName(prefix), i)].entries);
    forall i: nat | i < |es| ensures tree[Name(GroupName(prefix), i)] == Dirs(es)[i] {
      assert es[i] == tree[Name(GroupName(prefix), i)].entries;
    }
  }

  lemma FileAdded<M>(rests: seq<string>, entries: Tree<M>, group: seq<M>, j: nat)
    requires j < |group| == |rests| <= MAX_INT && Numbered(entries, FileName(rests), Files(group[..j]))
    ensures Numbered(entries[Name(FileName(rests), j) := File(Some(group[j]))], FileName(rests), Files(group[..j + 1]))
  {
    FilesNumbered(rests, j + 1);
    FilesNext(group, j);
    NumberedAdded(ExtractLeadingNumber, entries, FileName(rests), Files(group[..j]), File(Some(group[j])));
  }

  lemma FilesNext<M>(group: seq<M>, j: nat)
    requires j < |group|
    ensures |Files(group[..j])| == j && Files(group[..j + 1]) == Files(group[..j]) + [File(Some(group[j]))]
  {}

  lemma DirAdded<M>(prefix: string, tree: Tree<M>, es: seq<Tree<M>>, entries: Tree<M>, count: nat)
    requires |es| < count <= MAX_INT && Separated(GroupName(prefix)) && Numbered(tree, GroupName(prefix), Dirs(es))
    ensures Numbered(tree[Name(GroupName(prefix), |es|) := Dir(entries)], GroupName(prefix), Dirs(es + [entries]))
  {
    GroupsNumbered(prefix, |es| + 1);
    NumberedAdded(ExtractTrailingNumber, tree, GroupName(prefix), Dirs(es), Dir(entries));
    assert Dirs(es + [entries]) == Dirs(es) + [Dir(entries)];
  }

  // The inner loop of the export. A length is a Go int.
  method ExportGroup<M>(group: seq<M>, rests: seq<string>) returns (entries: Tree<M>)
    requires |rests| == |group| <= MAX_INT
    ensures GroupFiles(entries, group, rests)
  {
    entries := map[];
    for j := 0 to |group|
      invariant Numbered(entries, FileName(rests), Files(group[..j]))
    {
      FileAdded(rests, entries, group, j);
      entries := entries[Print(j + 1) + "_" + rests[j] + ".yaml" := File(Some(group[j]))];
    }
    assert group[..|group|] == group;
  }

  // ExportRestoresToDir and the exports of extra manifests, into an empty directory.
  method Export<M>(prefix: string, groups: seq<seq<M>>, rests: seq<seq<string>>) returns (tree: Tree<M>)
    requires Separated(GroupName(prefix)) && |rests| == |groups| <= MAX_INT
    requires forall i | 0 <= i < |groups| :: |rests[i]| == |groups[i]| <= MAX_INT
    ensures Exported(tree, prefix, groups, rests)
  {
    tree := map[];
    ghost var es: seq<Tree<M>> := [];
    for i := 0 to |groups|
      invariant |es| == i && Numbered(tree, GroupName(prefix), Dirs(es))
      invariant forall k | 0 <= k < i :: GroupFiles(es[k], groups[k], rests[k])
    {
      var entries := ExportGroup(groups[i], rests[i]);
      DirAdded(prefix, tree, es, entries, |groups|);
      tree := tree[prefix + Print(i + 1) := Dir(entries)];
      es := es + [entries];
    }
    ExportedDirs(tree, prefix, es, groups, rests);
  }

  // ----- load -----

  // os.ReadDir and then sort.Slice, which is not stable: any listing.
  method ReadSorted(key: string -> int, present: set<string>) returns (names: seq<string>)
    ensures Listing(key, names, present)
  {
    names := [];
    var rest := present;
    while rest != {}
      invariant rest <= present && Listing(key, names, present - rest)
      decreases |rest|
    {
      var x :| x in rest;
      names := InsertNumber(key, names, x);
      rest := rest - {x};
    }
  }

  method InsertNumber(key: string -> int, names: seq<string>, x: string) returns (r: seq<string>)
    requires Distinct(names) && SortedBy(key, names) && x !in names
    ensures Distinct(r) && SortedBy(key, r) && forall y :: y in r <==> y == x || y in names
  {
    var i := 0;
    while i < |names| && key(names[i]) < key(x)
      invariant i <= |names| && forall j | 0 <= j < i :: key(names[j]) < key(x)
    {
      i := i + 1;
    }
    r := names[..i] + [x] + names[i..];
    Inserted(key, names, x, i);
  }

  lemma Inserted(key: string -> int, names: seq<string>, x: string, i: nat)
    requires Distinct(names) && SortedBy(key, names) && x !in names && i <= |names|
    requires forall j | 0 <= j < i :: key(names[j]) <= key(x)
    requires i < |names| ==> key(x) <= key(names[i])
    ensures var r := names[..i] + [x] + names[i..];
            Distinct(r) && SortedBy(key, r) && forall y :: y in r <==> y == x || y in names
  {
    InsertedMembers(names, x, i);
    var r := names[..i] + [x] + names[i..];
    forall j, k | 0 <= j < k < |r| ensures r[j] != r[k] && key(r[j]) <= key(r[k]) {
      assert r[j] == if j < i then names[j] else if j == i then x else names[j - 1];
      assert r[k] == if k < i then names[k] else if k == i then x else names[k - 1];
    }
  }

  lemma InsertedMembers(names: seq<string>, x: string, i: nat)
    requires i <= |names|
    ensures forall y :: y in names[..i] + [x] + names[i..] <==> y == x || y in names
  {
    assert names == names[..i] + names[i..];
  }

  ghost predicate Unreadable<M>(entries: Tree<M>) {
    exists x | x in entries :: entries[x] == File(None)
  }

  // Something is true of an entry exactly when it is of a listed one.
  lemma Listed(names: seq<string>, present: set<string>, bad: string -> bool)
    requires forall x :: x in names <==> x in present
    ensures forall i | 0 <= i < |names| :: names[i] in present
    ensures (exists x | x in present :: bad(x)) <==> exists i | 0 <= i < |names| :: bad(names[i])
  {
    forall i | 0 <= i < |names| ensures names[i] in present { assert names[i] in names; }
    if x :| x in present && bad(x) {
      var i :| 0 <= i < |names| && names[i] == x;
      assert bad(names[i]);
    }
  }

  // What the files of a directory decode to, in the order given; directories are skipped.
  function Contents<M>(es: seq<Entry<M>>): Option<seq<M>> {
    if es == [] then Some([])
    else
      var n := |es| - 1;
      match Contents(es[..n])
      case None => None
      case Some(ms) =>
        match es[n]
        case Dir(_) => Some(ms)
        case Locked => Some(ms)
        case File(None) => None
        case File(Some(m)) => Some(ms + [m])
  }

  lemma {:induction false} ContentsFail<M>(es: seq<Entry<M>>)
    ensures Contents(es).None? <==> exists i | 0 <= i < |es| :: es[i] == File(None)
  {
    if es != [] { ContentsFail(es[..|es| - 1]); }
  }

  lemma {:induction false} ContentsOfFiles<M>(group: seq<M>)
    ensures Contents(Files(group)) == Some(group)
  {
    if group != [] {
      var n := |group| - 1;
      assert Files(group)[..n] == Files(group[..n]) && group[..n] + [group[n]] == group;
      ContentsOfFiles(group[..n]);
    }
  }

  lemma {:induction false} ContentsConcat<M>(a: seq<Entry<M>>, b: seq<Entry<M>>)
    ensures Contents(a + b) == match (Contents(a), Contents(b))
                               case (Some(x), Some(y)) => Some(x + y)
                               case _ => None
    decreases |b|
  {
    if b == [] {
      assert a + b == a;
      if Contents(a).Some? { assert Contents(a).value + [] == Contents(a).value; }
    } else {
      var n := |b| - 1;
      assert (a + b)[..|a + b| - 1] == a + b[..n];
      ContentsConcat(a, b[..n]);
      if Contents(a).Some? && Contents(b).Some? {
        var x, y := Contents(a).value, Contents(b[..n]).value;
        if b[n].File? {
          assert x + y + [b[n].content.value] == x + (y + [b[n].content.value]);
        }
      }
    }
  }

  // Directories among the files of a group give nothing, wherever they are listed.
  lemma DirectorySkipped<M>(a: seq<Entry<M>>, d: Entry<M>, b: seq<Entry<M>>)
    requires !d.File?
    ensures Contents(a + [d] + b) == Contents(a + b)
  {
    assert [d][..0] == [];
    ContentsConcat(a, [d]);
    ContentsConcat(a + [d], b);
    ContentsConcat(a, b);
    if Contents(a).Some? { assert Contents(a).value + [] == Contents(a).value; }
  }

  // r is what loading the directory may give: the contents of its files in an order of ascending
  // numbers, if all of them decode.
  ghost predicate FilesLoad<M(!new)>(entries: Tree<M>, r: Option<seq<M>>) {
    exists names :: LoadedAs(entries, names, r)
  }

  ghost predicate LoadedAs<M>(entries: Tree<M>, names: seq<string>, r: Option<seq<M>>) {
    && Listing(ExtractLeadingNumber, names, entries.Keys)
    && (forall i | 0 <= i < |names| :: names[i] in entries)
    && r == Contents(Values(entries, names))
  }

  // So it is nothing exactly when a file does not decode.
  lemma LoadFails<M(!new)>(entries: Tree<M>, r: Option<seq<M>>)
    requires FilesLoad(entries, r)
    ensures r.None? <==> Unreadable(entries)
  {
    var names :| LoadedAs(entries, names, r);
    Listed(names, entries.Keys, x => x in entries && entries[x] == File(None));
    ContentsFail(Values(entries, names));
  }

  // And the group if the directory is an exported one.
  lemma LoadsExported<M(!new)>(entries: Tree<M>, r: Option<seq<M>>, group: seq<M>, rests: seq<string>)
    requires FilesLoad(entries, r) && GroupFiles(entries, group, rests)
    ensures r == Some(group)
  {
    var names :| LoadedAs(entries, names, r);
    FilesNumbered(rests, |group|);
    NumberedListed(ExtractLeadingNumber, entries, FileName(rests), Files(group), names);
    ContentsOfFiles(group);
  }

  // The files of one directory.
  method LoadFiles<M(!new)>(entries: Tree<M>) returns (r: Option<seq<M>>)
    ensures FilesLoad(entries, r)
    ensures r.None? <==> Unreadable(entries)
    ensures forall group, rests | GroupFiles(entries, group, rests) :: r == Some(group)
  {
    var names := ReadSorted(ExtractLeadingNumber, entries.Keys);
    forall i | 0 <= i < |names| ensures names[i] in entries { assert names[i] in names; }
    r := Decode(Values(entries, names));
    assert LoadedAs(entries, names, r);
    LoadFails(entries, r);
    forall group, rests | GroupFiles(entries, group, rests) ensures r == Some(group) { LoadsExported(entries, r, group, rests); }
  }

  // The loop over the sorted files.
  method Decode<M>(es: seq<Entry<M>>) returns (r: Option<seq<M>>)
    ensures r == Contents(es)
  {
    var loaded := [];
    for i := 0 to |es|
      invariant Contents(es[..i]) == Some(loaded)
    {
      assert es[..i + 1][..i] == es[..i];
      match es[i] {
        case Dir(_) =>
        case Locked =>
        case File(None) =>
          ContentsFail(es);
          return None;
        case File(Some(m)) => loaded := loaded + [m];
      }
    }
    assert es[..|es|] == es;
    r := Some(loaded);
  }

  ghost predicate UnreadableGroup<M>(d: Entry<M>) {
    d.Locked? || (d.Dir? && Unreadable(d.entries))
  }

  // The directories among the entries.
  function DirsOf<M>(ds: seq<Entry<M>>): seq<Tree<M>> {
    if ds == [] then []
    else
      var n := |ds| - 1;
      DirsOf(ds[..n]) + if ds[n].Dir? then [ds[n].entries] else []
  }

  lemma {:induction false} DirsOfDirs<M>(es: seq<Tree<M>>)
    ensures DirsOf(Dirs(es)) == es
  {
    if es != [] {
      var n := |es| - 1;
      assert Dirs(es)[..n] == Dirs(es[..n]);
      DirsOfDirs(es[..n]);
    }
  }

  lemma DirsOfNext<M>(ds: seq<Entry<M>>, i: nat)
    requires i < |ds|
    ensures DirsOf(ds[..i + 1]) == DirsOf(ds[..i]) + if ds[i].Dir? then [ds[i].entries] else []
  {
    assert ds[..i + 1][..i] == ds[..i];
  }

  // r has a group for each of the directories, in their order.
  ghost predicate GroupsLoad<M(!new)>(es: seq<Tree<M>>, r: seq<seq<M>>) {
    |r| == |es| && forall i | 0 <= i < |es| :: FilesLoad(es[i], Some(r[i]))
  }

  lemma ExportedGroupsLoad<M(!new)>(es: seq<Tree<M>>, groups: seq<seq<M>>, rests: seq<seq<string>>, r: seq<seq<M>>)
    requires AllGroupFiles(es, groups, rests) && GroupsLoad(es, r)
    ensures r == groups
  {
    forall i | 0 <= i < |es| ensures r[i] == groups[i] { LoadsExported(es[i], Some(r[i]), groups[i], rests[i]); }
  }

  // The loop over the sorted directories; files among them are skipped.
  method LoadDirs<M(!new)>(ds: seq<Entry<M>>) returns (r: Option<seq<seq<M>>>)
    ensures r.None? <==> exists i | 0 <= i < |ds| :: UnreadableGroup(ds[i])
    ensures r.Some? ==> GroupsLoad(DirsOf(ds), r.value)
  {
    var loaded := [];
    for i := 0 to |ds|
      invariant forall j | 0 <= j < i :: !UnreadableGroup(ds[j])
      invariant GroupsLoad(DirsOf(ds[..i]), loaded)
    {
      DirsOfNext(ds, i);
      if ds[i].Locked? { return None; }
      if ds[i].Dir? {
        var files := LoadFiles(ds[i].entries);
        if files.None? { return None; }
        loaded := loaded + [files.value];
      }
    }
    assert ds[..|ds|] == ds;
    r := Some(loaded);
  }

  // r is what the directories of the tree give, in an order of ascending numbers.
  ghost predicate TreeLoad<M(!new)>(tree: Tree<M>, r: seq<seq<M>>) {
    exists names ::
      && Listing(ExtractTrailingNumber, names, tree.Keys)
      && (forall i | 0 <= i < |names| :: names[i] in tree)
      && GroupsLoad(DirsOf(Values(tree, names)), r)
  }

  // LoadGroupedManifestsFromPath; a missing directory holds no groups. For a directory that holds
  // the exported groups and nothing else, the result is those groups.
  method Load<M(!new)>(base: Option<Entry<M>>) returns (r: Option<seq<seq<M>>>)
    ensures base.None? ==> r == Some([])
    ensures base.Some? ==>
              (r.None? <==> !base.value.Dir? || exists x | x in base.value.entries :: UnreadableGroup(base.value.entries[x]))
    ensures base.Some? && r.Some? ==> TreeLoad(base.value.entries, r.value)
    ensures base.Some? && base.value.Dir? ==>
              forall prefix, groups, rests | Exported(base.value.entries, prefix, groups, rests) :: r == Some(groups)
  {
    if base.None? { return Some([]); }
    if !base.value.Dir? { return None; }
    var tree := base.value.entries;
    var names := ReadSorted(ExtractTrailingNumber, tree.Keys);
    Listed(names, tree.Keys, x => x in tree && UnreadableGroup(tree[x]));
    r := LoadDirs(Values(tree, names));
    forall prefix, groups, rests | Exported(tree, prefix, groups, rests) ensures r == Some(groups) {
      var es := DirsExported(tree, prefix, groups, rests);
      GroupsNumbered(prefix, |groups|);
      NumberedListed(ExtractTrailingNumber, tree, GroupName(prefix), Dirs(es), names);
      DirsOfDirs(es);
      ExportedReadable(es, groups, rests, r);
    }
  }

  lemma ExportedReadable<M(!new)>(es: seq<Tree<M>>, groups: seq<seq<M>>, rests: seq<seq<string>>, r: Option<seq<seq<M>>>)
    requires AllGroupFiles(es, groups, rests)
    requires r.None? ==> exists i | 0 <= i < |es| :: UnreadableGroup(Dirs(es)[i])
    requires r.Some? ==> GroupsLoad(es, r.value)
    ensures r == Some(groups)
  {
    forall i | 0 <= i < |es| ensures !Unreadable(es[i]) {
      var n := FileName(rests[i]);
      assert GroupFiles(es[i], groups[i], rests[i]);
      forall x | x in es[i] ensures es[i][x] != File(None) {
        var j: nat :| j < |groups[i]| && Names(n, |groups[i]|)[j] == x;
        assert es[i][Name(n, j)] == Files(groups[i])[j];
      }
    }
    if r.Some? { ExportedGroupsLoad(es, groups, rests, r.value); }
  }

  // Loading what was exported gives the groups and the files back in the order of the export.
  method RoundTrip<M(!new)>(prefix: string, groups: seq<seq<M>>, rests: seq<seq<string>>) returns (r: Option<seq<seq<M>>>)
    requires Separated(GroupName(prefix)) && |rests| == |groups| <= MAX_INT
    requires forall i | 0 <= i < |groups| :: |rests[i]| == |groups[i]| <= MAX_INT
    ensures r == Some(groups)
  {
    var tree := Export(prefix, groups, rests);
    r := Load(Some(Dir(tree)));
  }
}
