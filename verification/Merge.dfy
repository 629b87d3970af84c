/**
 The "musthave" merge of a manifest template into the object that already exists on the cluster.

 The file has four layers: the JSON values, the comparison functions, the merge as a function
 (an explicit pairing of template list elements with existing list elements), and the loops
 of the source proved equal to that function.
 */
module Json {
  datatype Json =
    | Null
    | Bool(b: bool)
    | Num(n: real)
    | Str(s: string)
    | Arr(items: seq<Json>)
    | Obj(fields: map<string, Json>)
  {
    predicate Scalar() {
      !Arr? && !Obj?
    }

    // The zero value of the Go type that holds this value.
    function Zero(): Json {
      match this
      case Null => Null
      case Bool(_) => Bool(false)
      case Num(_) => Num(0.0)
      case Str(_) => Str("")
      case Arr(_) => Arr([])
      case Obj(_) => Obj(map[])
    }

    // The "name" of a map value, when it is a non-empty string.
    predicate Named() {
      Obj? && "name" in fields && fields["name"].Str? && fields["name"].s != ""
    }

    function Name(): string
      requires Named()
    {
      fields["name"].s
    }
  }

  // "t is contained in r": what a musthave policy asks of an object r. A null template asks nothing.
  predicate Contains(t: Json, r: Json)
    decreases t
  {
    match t
    case Null => true
    case Obj(tf) => r.Obj? && forall k | k in tf :: k in r.fields && Contains(tf[k], r.fields[k])
    case Arr(items) =>
      r.Arr? && |items| <= |r.items| && forall i | 0 <= i < |items| :: Contains(items[i], r.items[i])
    case _ => r == t
  }

  lemma {:induction false} ContainsItself(t: Json)
    ensures Contains(t, t)
  {
    match t
    case Obj(tf) =>
      forall k | k in tf ensures Contains(tf[k], tf[k]) { ContainsItself(tf[k]); }
    case Arr(items) =>
      forall i | 0 <= i < |items| ensures Contains(items[i], items[i]) { ContainsItself(items[i]); }
    case _ =>
  }
}

module Merge {
  import opened Prelude
  import opened Json

  datatype Compliance = MustHave | MustOnlyHave

  /** What the merge takes from libraries: `sprint` is fmt.Sprint, `quantity` is
      resource.ParseQuantity (None when it does not parse), and `arrange` is sort.Slice on the
      printed elements. Lawful says what is known of them: a string prints as itself and sorting
      permutes. */
  datatype Comparator = Comparator(
    sprint: Json -> string,
    quantity: string -> Option<int>,
    arrange: seq<Json> -> seq<Json>,
    compliance: Compliance,
    zeroIsNil: bool)
  {
    ghost predicate Lawful() {
      && (forall l {:trigger arrange(l)} :: multiset(arrange(l)) == multiset(l))
      && forall s :: sprint(Str(s)) == s
    }
  }

  // ----- comparison -----

  // equalObjWithSort
  predicate EqualObj(c: Comparator, m: Json, o: Json)
    requires c.Lawful()
  {
    match m
    case Obj(_) => o.Obj? && CheckFields(c, m, o, c.zeroIsNil)
    case Arr(items) => (items == [] && o.Null?) || (o.Arr? && CheckLists(c, m, o))
    case _ =>
      if c.zeroIsNil && o.Null? && !m.Null? then c.sprint(m.Zero()) == c.sprint(m)
      else if c.zeroIsNil && m.Null? && !o.Null? then c.sprint(o.Zero()) == c.sprint(o)
      else c.sprint(m) == c.sprint(o)
  }

  // checkFieldsWithSort
  predicate CheckFields(c: Comparator, m: Json, o: Json, z: bool)
    requires c.Lawful() && m.Obj? && o.Obj?
    decreases m, 1
  {
    && |m.fields| >= |o.fields|
    && forall k | k in m.fields :: CheckField(c, k, m.fields[k], o, z)
  }

  predicate CheckField(c: Comparator, k: string, mv: Json, o: Json, z: bool)
    requires c.Lawful() && o.Obj?
    decreases mv, 2
  {
    match mv
    case Obj(mf) =>
      if k in o.fields && o.fields[k].Obj? then CheckFields(c, mv, o.fields[k], z) else z && mf == map[]
    case Arr(items) =>
      if k in o.fields && o.fields[k].Arr? then CheckLists(c, o.fields[k], mv) else items == []
    case Str(s) =>
      (match c.quantity(s)
       case None => k in o.fields && c.sprint(o.fields[k]) == c.sprint(mv)
       case Some(q) => k in o.fields && o.fields[k].Str? && c.quantity(o.fields[k].s) == Some(q))
    case _ =>
      var ov := if k in o.fields then o.fields[k] else Null;
      c.sprint(if ov.Null? then mv.Zero() else ov) == c.sprint(mv)
  }

  // checkListsMatch; the maps of `b` are checked against the maps of `a`.
  predicate CheckLists(c: Comparator, a: Json, b: Json)
    requires c.Lawful() && a.Arr? && b.Arr?
    decreases b, 0
  {
    && |a.items| == |b.items|
    && ( ArrangeKeeps(c, a.items);
         ArrangeKeeps(c, b.items);
         var sa, sb := c.arrange(a.items), c.arrange(b.items);
         forall i | 0 <= i < |sa| ::
           if sa[i].Obj? then sb[i].Obj? && CheckFields(c, sb[i], sa[i], true)
           else c.sprint(sa[i]) == c.sprint(sb[i]))
  }

  lemma ArrangeKeeps(c: Comparator, l: seq<Json>)
    requires c.Lawful()
    ensures |c.arrange(l)| == |l|
    ensures forall i | 0 <= i < |c.arrange(l)| :: c.arrange(l)[i] in l
  {
    var s := c.arrange(l);
    assert |multiset(s)| == |multiset(l)|;
    forall i | 0 <= i < |s| ensures s[i] in l { assert s[i] in multiset(s); }
  }

  // Every value equals itself.
  lemma {:induction false} EqualReflexive(c: Comparator, v: Json)
    requires c.Lawful()
    ensures EqualObj(c, v, v)
  {
    match v
    case Obj(_) => FieldsReflexive(c, v, c.zeroIsNil);
    case Arr(_) => ListReflexive(c, v);
    case _ =>
  }

  lemma {:induction false} FieldsReflexive(c: Comparator, v: Json, z: bool)
    requires c.Lawful() && v.Obj?
    ensures CheckFields(c, v, v, z)
    decreases v
  {
    forall k | k in v.fields ensures CheckField(c, k, v.fields[k], v, z) {
      match v.fields[k]
      case Obj(_) => FieldsReflexive(c, v.fields[k], z);
      case Arr(_) => ListReflexive(c, v.fields[k]);
      case _ =>
    }
  }

  lemma {:induction false} ListReflexive(c: Comparator, v: Json)
    requires c.Lawful() && v.Arr?
    ensures CheckLists(c, v, v)
    decreases v
  {
    ArrangeKeeps(c, v.items);
    var s := c.arrange(v.items);
    forall i | 0 <= i < |s| && s[i].Obj? ensures CheckFields(c, s[i], s[i], true) {
      assert s[i] in v.items;
      FieldsReflexive(c, s[i], true);
    }
  }

  predicate StringMap(v: Json) {
    v.Obj? && forall k | k in v.fields :: v.fields[k].Str?
  }

  // Maps of strings are equal when they have the same keys and, at each, the same string or two
  // strings that denote the same quantity.
  lemma EqualStringMaps(c: Comparator, m: Json, o: Json)
    requires c.Lawful() && StringMap(m) && StringMap(o)
    ensures EqualObj(c, m, o) <==>
            && m.fields.Keys == o.fields.Keys
            && forall k | k in m.fields ::
                 var p, q := m.fields[k].s, o.fields[k].s;
                 p == q || (c.quantity(p).Some? && c.quantity(p) == c.quantity(q))
  {
    forall k | k in m.fields
      ensures CheckField(c, k, m.fields[k], o, c.zeroIsNil) <==>
              && k in o.fields
              && var p, q := m.fields[k].s, o.fields[k].s;
                 p == q || (c.quantity(p).Some? && c.quantity(p) == c.quantity(q))
    {
      if k in o.fields { assert o.fields[k].Str?; }
    }
    assert |m.fields.Keys| == |m.fields| && |o.fields.Keys| == |o.fields|;
    if CheckFields(c, m, o, c.zeroIsNil) {
      SameSize(m.fields.Keys, o.fields.Keys);
    }
  }

  lemma SameSize<T>(a: set<T>, b: set<T>)
    requires a <= b && |a| >= |b|
    ensures a == b
  {
    assert b == a + (b - a);
  }

  // The test that two list elements are maps with the same non-empty name.
  predicate SameNamed(t: Json, e: Json) {
    e.Named() && t.Obj? && "name" in t.fields && t.fields["name"] == e.fields["name"]
  }

  // ----- the merge as a function -----

  // mergeSpecsHelper
  ghost function MergeSpec(c: Comparator, t: Json, e: Json): Json
    requires c.Lawful()
    decreases t, 3, 0
  {
    match t
    case Obj(tf) =>
      if !e.Obj? then t
      else Obj(map k | k in tf.Keys + e.fields.Keys ::
                 if k !in tf then e.fields[k]
                 else if k !in e.fields then tf[k]
                 else MergeSpec(c, tf[k], e.fields[k]))
    case Arr(_) => if e.Arr? && e.items != [] then Arr(MergeLists(c, t, e.items)) else t
    case Null => if e.Obj? then e else t
    case _ => t
  }

  // The value that stands for template element t when it is compared with existing element e.
  // When e is a map and t is not, the source compares a nil map: its `val1` is shadowed by the
  // failed type assertion.
  ghost function Candidate(c: Comparator, t: Json, e: Json): Json
    requires c.Lawful()
    decreases t, 4, 0
  {
    if !e.Obj? then t
    else if !t.Obj? then Obj(map[])
    else MergeSpec(c, t, e)
  }

  ghost predicate Matches(c: Comparator, t: Json, e: Json)
    requires c.Lawful()
    decreases t, 5, 0
  {
    SameNamed(t, e) || EqualObj(c, Candidate(c, t, e), e)
  }

  // The existing element each template element has been merged with, and the appended elements.
  datatype Walk = Walk(partner: seq<Option<Json>>, extras: seq<Json>)

  function KeyCount(c: Comparator, l: seq<Json>, key: string): nat {
    if l == [] then 0 else (if c.sprint(l[0]) == key then 1 else 0) + KeyCount(c, l[1..], key)
  }

  predicate KeySeen(c: Comparator, l: seq<Json>, key: string) {
    exists i :: 0 <= i < |l| && c.sprint(l[i]) == key
  }

  function Repeat(v: Json, n: nat): (r: seq<Json>)
    ensures |r| == n && forall i | 0 <= i < n :: r[i] == v
  {
    seq(n, _ => v)
  }

  // Pairs up to `need` unpaired template elements from index i on with existing element e;
  // the second result is how many more were needed.
  ghost function Scan(c: Comparator, t: Json, partner: seq<Option<Json>>, i: nat, e: Json, need: nat)
    : (r: (seq<Option<Json>>, nat))
    requires c.Lawful() && t.Arr? && |partner| == |t.items| && i <= |t.items|
    ensures |r.0| == |partner| && r.1 <= need
    decreases t, 0, |t.items| - i
  {
    if i == |t.items| || need == 0 then (partner, need)
    else if partner[i].None? && Matches(c, t.items[i], e) then Scan(c, t, partner[i := Some(e)], i + 1, e, need - 1)
    else Scan(c, t, partner, i + 1, e, need)
  }

  // One existing element: a repeated key was handled with its first occurrence.
  ghost function Visit(c: Comparator, t: Json, e: seq<Json>, k: nat, w: Walk): (r: Walk)
    requires c.Lawful() && t.Arr? && |w.partner| == |t.items| && k < |e|
    ensures |r.partner| == |t.items|
    decreases t, 1, 0
  {
    var key := c.sprint(e[k]);
    if KeySeen(c, e[..k], key) then w
    else
      var (partner, missing) := Scan(c, t, w.partner, 0, e[k], KeyCount(c, e, key));
      Walk(partner, w.extras + Repeat(e[k], missing))
  }

  ghost function WalkTo(c: Comparator, t: Json, e: seq<Json>, k: nat): (w: Walk)
    requires c.Lawful() && t.Arr? && k <= |e|
    ensures |w.partner| == |t.items|
    decreases t, 2, k
  {
    if k == 0 then Walk(seq(|t.items|, _ => None), [])
    else Visit(c, t, e, k - 1, WalkTo(c, t, e, k - 1))
  }

  ghost function Overlay(c: Comparator, t: Json, partner: seq<Option<Json>>): (r: seq<Json>)
    requires c.Lawful() && t.Arr? && |partner| == |t.items|
    ensures |r| == |t.items|
    decreases t, 0, 0
  {
    seq(|t.items|, i requires 0 <= i < |t.items| =>
      if partner[i].Some? then Candidate(c, t.items[i], partner[i].value) else t.items[i])
  }

  // mergeArrays
  ghost function MergeLists(c: Comparator, t: Json, e: seq<Json>): (r: seq<Json>)
    requires c.Lawful() && t.Arr?
    decreases t, 2, |e| + 1
  {
    if c.compliance.MustOnlyHave? then t.items
    else
      var w := WalkTo(c, t, e, |e|);
      Overlay(c, t, w.partner) + w.extras
  }

  // ----- the loops of the source -----

  // mergeSpecsHelper: fills the template map in place, in any order of its keys.
  method MergeSpecsHelper(c: Comparator, templateVal: Json, existingVal: Json) returns (merged: Json)
    requires c.Lawful()
    ensures merged == MergeSpec(c, templateVal, existingVal)
    decreases templateVal, 3
  {
    match templateVal {
      case Obj(tf) =>
        if !existingVal.Obj? { return templateVal; }
        var ef := existingVal.fields;
        var fields := tf;
        var waiting := ef.Keys;
        while waiting != {}
          invariant waiting <= ef.Keys
          invariant fields.Keys == tf.Keys + (ef.Keys - waiting)
          invariant forall k | k in fields ::
            fields[k] == (if k !in ef || k in waiting then tf[k] else if k in tf then MergeSpec(c, tf[k], ef[k]) else ef[k])
          decreases waiting
        {
          var k :| k in waiting;
          waiting := waiting - {k};
          if k in tf {
            var v := MergeSpecsHelper(c, tf[k], ef[k]);
            fields := fields[k := v];
          } else {
            fields := fields[k := ef[k]];
          }
        }
        assert fields == MergeSpec(c, templateVal, existingVal).fields;
        merged := Obj(fields);
      case Arr(items) =>
        if existingVal.Arr? && |existingVal.items| > 0 {
          var items' := MergeArrays(c, templateVal, existingVal.items);
          return Arr(items');
        }
        merged := templateVal;
      case Null =>
        merged := if existingVal.Obj? then existingVal else templateVal;
      case _ =>
        merged := templateVal;
    }
  }

  datatype CountedVal = CountedVal(value: Json, count: nat)

  predicate FirstWithKey(c: Comparator, l: seq<Json>, key: string, v: Json) {
    exists i :: 0 <= i < |l| && l[i] == v && c.sprint(l[i]) == key && !KeySeen(c, l[..i], key)
  }

  // The set of printed keys with the first value and the number of occurrences of each.
  method CountItems(c: Comparator, existing: seq<Json>) returns (items: map<string, CountedVal>)
    ensures forall i | 0 <= i < |existing| :: c.sprint(existing[i]) in items
    ensures forall key | key in items ::
      FirstWithKey(c, existing, key, items[key].value) && items[key].count == KeyCount(c, existing, key) > 0
  {
    items := map[];
    for k := 0 to |existing|
      invariant forall key :: key in items <==> KeySeen(c, existing[..k], key)
      invariant forall key | key in items ::
        FirstWithKey(c, existing, key, items[key].value) && items[key].count == KeyCount(c, existing[..k], key) > 0
    {
      var key := c.sprint(existing[k]);
      assert existing[..k + 1] == existing[..k] + [existing[k]];
      forall q ensures KeySeen(c, existing[..k + 1], q) <==> KeySeen(c, existing[..k], q) || key == q
               ensures KeyCount(c, existing[..k + 1], q) == KeyCount(c, existing[..k], q) + if key == q then 1 else 0
      {
        SeenNext(c, existing, k, q);
        KeyCountConcat(c, existing[..k], [existing[k]], q);
      }
      if key in items {
        items := items[key := items[key].(count := items[key].count + 1)];
      } else {
        KeyCountUnseen(c, existing[..k], key);
        items := items[key := CountedVal(existing[k], 1)];
      }
    }
    assert existing[..|existing|] == existing;
    forall i | 0 <= i < |existing| ensures c.sprint(existing[i]) in items {
      assert KeySeen(c, existing, c.sprint(existing[i]));
    }
  }

  // mergeArrays: matched template elements are overwritten in place, missing elements appended.
  method MergeArrays(c: Comparator, template: Json, existing: seq<Json>) returns (desired: seq<Json>)
    requires c.Lawful() && template.Arr?
    ensures desired == MergeLists(c, template, existing)
    decreases template, 2, 1
  {
    desired := template.items;
    if c.compliance.MustOnlyHave? { return; }

    var n := |template.items|;
    var idxWritten := seq(n, _ => false);
    var oldItemSet := CountItems(c, existing);
    var seen: set<string> := {};
    ghost var w := WalkTo(c, template, existing, 0);
    assert Overlay(c, template, w.partner) == template.items;
    for k := 0 to |existing|
      invariant w == WalkTo(c, template, existing, k)
      invariant Written(c, template, desired, idxWritten, w)
      invariant SeenKeys(c, existing, k, seen)
    {
      var key := c.sprint(existing[k]);
      SeenKeysNext(c, existing, k, seen);
      if key !in seen {
        seen := seen + {key};
        FirstIsHere(c, existing, k, oldItemSet[key].value);
        desired, idxWritten := MergeItem(c, template, existing, k, desired, idxWritten, oldItemSet[key], w);
      }
      w := Visit(c, template, existing, k, w);
    }
  }

  // seen holds the printed values of the first k elements.
  ghost predicate SeenKeys(c: Comparator, l: seq<Json>, k: nat, seen: set<string>)
    requires k <= |l|
  {
    forall key :: key in seen <==> KeySeen(c, l[..k], key)
  }

  lemma SeenKeysNext(c: Comparator, l: seq<Json>, k: nat, seen: set<string>)
    requires k < |l| && SeenKeys(c, l, k, seen)
    ensures SeenKeys(c, l, k + 1, seen + {c.sprint(l[k])})
    ensures c.sprint(l[k]) in seen ==> SeenKeys(c, l, k + 1, seen)
  {
    forall q ensures KeySeen(c, l[..k + 1], q) <==> KeySeen(c, l[..k], q) || c.sprint(l[k]) == q {
      SeenNext(c, l, k, q);
    }
    assert c.sprint(l[k]) in seen ==> seen + {c.sprint(l[k])} == seen;
  }

  // desired is the overlay with the appended elements, and the flags say what was overwritten.
  ghost predicate Written(c: Comparator, t: Json, desired: seq<Json>, idxWritten: seq<bool>, w: Walk)
    requires c.Lawful() && t.Arr? && |w.partner| == |t.items|
  {
    && desired == Overlay(c, t, w.partner) + w.extras
    && |idxWritten| == |w.partner| && forall i | 0 <= i < |idxWritten| :: idxWritten[i] == w.partner[i].Some?
  }

  // The first existing element of its key: match it, then append what is missing.
  method MergeItem(c: Comparator, template: Json, existing: seq<Json>, k: nat,
                   desired: seq<Json>, idxWritten: seq<bool>, item: CountedVal, ghost w: Walk)
    returns (desired': seq<Json>, idxWritten': seq<bool>)
    requires c.Lawful() && template.Arr? && k < |existing| && |w.partner| == |template.items|
    requires !KeySeen(c, existing[..k], c.sprint(existing[k]))
    requires item == CountedVal(existing[k], KeyCount(c, existing, c.sprint(existing[k]))) && item.count > 0
    requires Written(c, template, desired, idxWritten, w)
    ensures Written(c, template, desired', idxWritten', Visit(c, template, existing, k, w))
    decreases template, 2, 0
  {
    var count;
    ghost var partner;
    desired', idxWritten', count, partner := MatchItem(c, template, desired, idxWritten, item.value, item.count, w);
    VisitNew(c, template, existing, k, w, partner, item.count - count);
    desired' := AppendMissing(desired', item.value, item.count - count);
  }

  method AppendMissing(desired: seq<Json>, val2: Json, missing: nat) returns (desired': seq<Json>)
    ensures desired' == desired + Repeat(val2, missing)
  {
    desired' := desired;
    for i := 0 to missing
      invariant desired' == desired + Repeat(val2, i)
    {
      assert Repeat(val2, i + 1) == Repeat(val2, i) + [val2];
      desired' := desired' + [val2];
    }
  }

  lemma FirstIsHere(c: Comparator, l: seq<Json>, k: nat, v: Json)
    requires k < |l| && !KeySeen(c, l[..k], c.sprint(l[k])) && FirstWithKey(c, l, c.sprint(l[k]), v)
    ensures v == l[k]
  {
    var key := c.sprint(l[k]);
    var i :| 0 <= i < |l| && l[i] == v && c.sprint(l[i]) == key && !KeySeen(c, l[..i], key);
    if i < k { SeenAt(c, l, i, k); }
    if k < i { SeenAt(c, l, k, i); }
  }

  lemma SeenAt(c: Comparator, l: seq<Json>, i: nat, k: nat)
    requires i < k <= |l|
    ensures KeySeen(c, l[..k], c.sprint(l[i]))
  {
    assert l[..k][i] == l[i];
  }

  // Writing one matched element in place is the overlay of the extended pairing.
  lemma OverlayUpdate(c: Comparator, t: Json, partner: seq<Option<Json>>, extras: seq<Json>, i: nat, e: Json)
    requires c.Lawful() && t.Arr? && |partner| == |t.items| && i < |partner|
    ensures (Overlay(c, t, partner) + extras)[i := Candidate(c, t.items[i], e)] ==
            Overlay(c, t, partner[i := Some(e)]) + extras
  {
    var before, after := Overlay(c, t, partner), Overlay(c, t, partner[i := Some(e)]);
    forall j | 0 <= j < |before| && j != i ensures before[j] == after[j] {
      assert partner[i := Some(e)][j] == partner[j];
    }
    UpdateBefore(before, after, extras, i);
  }

  lemma UpdateBefore<T>(before: seq<T>, after: seq<T>, extras: seq<T>, i: nat)
    requires |before| == |after| && i < |before|
    requires forall j | 0 <= j < |before| && j != i :: before[j] == after[j]
    ensures (before + extras)[i := after[i]] == after + extras
  {}

  lemma ScanStep(c: Comparator, t: Json, partner: seq<Option<Json>>, i: nat, e: Json, need: nat)
    requires c.Lawful() && t.Arr? && |partner| == |t.items| && i < |t.items| && need > 0
    ensures Scan(c, t, partner, i, e, need) ==
              if partner[i].None? && Matches(c, t.items[i], e) then Scan(c, t, partner[i := Some(e)], i + 1, e, need - 1)
              else Scan(c, t, partner, i + 1, e, need)
  {}

  lemma ScanDone(c: Comparator, t: Json, partner: seq<Option<Json>>, i: nat, e: Json, need: nat)
    requires c.Lawful() && t.Arr? && |partner| == |t.items| && i <= |t.items| && (need == 0 || i == |t.items|)
    ensures Scan(c, t, partner, i, e, need) == (partner, need)
  {}

  lemma VisitNew(c: Comparator, t: Json, e: seq<Json>, k: nat, w: Walk, partner: seq<Option<Json>>, missing: nat)
    requires c.Lawful() && t.Arr? && |w.partner| == |t.items| && k < |e|
    requires !KeySeen(c, e[..k], c.sprint(e[k]))
    requires (partner, missing) == Scan(c, t, w.partner, 0, e[k], KeyCount(c, e, c.sprint(e[k])))
    ensures Visit(c, t, e, k, w) == Walk(partner, w.extras + Repeat(e[k], missing))
  {}

  // One comparison: the candidate value and whether it counts as a match.
  method TryElement(c: Comparator, val1: Json, val2: Json) returns (mergedObj: Json, matched: bool)
    requires c.Lawful()
    ensures mergedObj == Candidate(c, val1, val2) && matched == Matches(c, val1, val2)
    decreases val1, 4
  {
    mergedObj := val1;
    if val2.Obj? {
      if val1.Obj? {
        mergedObj := MergeSpecsHelper(c, val1, val2);
      } else {
        mergedObj := Obj(map[]);
      }
    }
    matched := SameNamed(val1, val2) || EqualObj(c, mergedObj, val2);
  }

  // Overwriting one element and setting its flag is extending the pairing.
  lemma WrittenNext(c: Comparator, t: Json, desired: seq<Json>, idxWritten: seq<bool>, w: Walk, i: nat, e: Json)
    requires c.Lawful() && t.Arr? && |w.partner| == |t.items| && i < |t.items|
    requires Written(c, t, desired, idxWritten, w)
    ensures Written(c, t, desired[i := Candidate(c, t.items[i], e)], idxWritten[i := true],
                    Walk(w.partner[i := Some(e)], w.extras))
  {
    OverlayUpdate(c, t, w.partner, w.extras, i, e);
  }

  // One step of the inner loop: an unwritten template element is overwritten when it matches.
  method MatchOne(c: Comparator, template: Json, desired: seq<Json>, idxWritten: seq<bool>, val2: Json, idx: nat,
                  ghost w: Walk)
    returns (desired': seq<Json>, idxWritten': seq<bool>, matched: bool, ghost partner: seq<Option<Json>>)
    requires c.Lawful() && template.Arr? && |w.partner| == |template.items| && idx < |template.items|
    requires Written(c, template, desired, idxWritten, w)
    ensures matched == (w.partner[idx].None? && Matches(c, template.items[idx], val2))
    ensures partner == if matched then w.partner[idx := Some(val2)] else w.partner
    ensures Written(c, template, desired', idxWritten', Walk(partner, w.extras))
    decreases template, 0
  {
    desired', idxWritten', matched, partner := desired, idxWritten, false, w.partner;
    if idxWritten[idx] { return; }
    var mergedObj;
    mergedObj, matched := TryElement(c, template.items[idx], val2);
    if matched {
      WrittenNext(c, template, desired, idxWritten, w, idx, val2);
      partner := partner[idx := Some(val2)];
      desired' := desired[idx := mergedObj];
      idxWritten' := idxWritten[idx := true];
    }
  }

  // The inner loop of mergeArrays: looks for up to `need` unwritten template elements that match.
  method MatchItem(c: Comparator, template: Json, desired: seq<Json>, idxWritten: seq<bool>, val2: Json, need: nat,
                   ghost w: Walk)
    returns (desired': seq<Json>, idxWritten': seq<bool>, count: nat, ghost partner: seq<Option<Json>>)
    requires c.Lawful() && template.Arr? && |w.partner| == |template.items| && need > 0
    requires Written(c, template, desired, idxWritten, w)
    ensures count <= need && (partner, need - count) == Scan(c, template, w.partner, 0, val2, need)
    ensures Written(c, template, desired', idxWritten', Walk(partner, w.extras))
    decreases template, 1
  {
    desired', idxWritten', count, partner := desired, idxWritten, 0, w.partner;
    ghost var scanned := Scan(c, template, w.partner, 0, val2, need);
    for idx := 0 to |template.items|
      invariant count < need && |partner| == |template.items|
      invariant scanned == Scan(c, template, partner, idx, val2, need - count)
      invariant Written(c, template, desired', idxWritten', Walk(partner, w.extras))
    {
      ScanStep(c, template, partner, idx, val2, need - count);
      var matched;
      desired', idxWritten', matched, partner :=
        MatchOne(c, template, desired', idxWritten', val2, idx, Walk(partner, w.extras));
      if matched { count := count + 1; }
      if count == need {
        ScanDone(c, template, partner, idx + 1, val2, 0);
        return;
      }
    }
    ScanDone(c, template, partner, |template.items|, val2, need - count);
  }

  // ----- musthave soundness -----

  // The template loses an element: somewhere in the aligned lists an element that is neither a map
  // nor null has been paired with an existing map.
  ghost predicate Clobbered(c: Comparator, t: Json, e: Json)
    requires c.Lawful()
    decreases t, 0
  {
    match t
    case Obj(tf) => e.Obj? && exists k | k in tf && k in e.fields :: Clobbered(c, tf[k], e.fields[k])
    case Arr(items) =>
      && e.Arr? && c.compliance.MustHave?
      && var partner := WalkTo(c, t, e.items, |e.items|).partner;
      && exists i | 0 <= i < |items| :: partner[i].Some? && ElementClobbered(c, items[i], partner[i].value)
    case _ => false
  }

  ghost predicate ElementClobbered(c: Comparator, t: Json, e: Json)
    requires c.Lawful()
    decreases t, 1
  {
    e.Obj? && if t.Obj? then Clobbered(c, t, e) else !t.Null?
  }

  // The merge contains its template exactly when no element is clobbered.
  lemma {:induction false} MustHaveSound(c: Comparator, t: Json, e: Json)
    requires c.Lawful()
    ensures Contains(t, MergeSpec(c, t, e)) <==> !Clobbered(c, t, e)
    decreases t, 1
  {
    match t
    case Obj(tf) =>
      if e.Obj? {
        var r := MergeSpec(c, t, e);
        forall k | k in tf
          ensures Contains(tf[k], r.fields[k]) <==> !(k in e.fields && Clobbered(c, tf[k], e.fields[k]))
        {
          if k in e.fields { MustHaveSound(c, tf[k], e.fields[k]); } else { ContainsItself(tf[k]); }
        }
      } else {
        ContainsItself(t);
      }
    case Arr(items) =>
      if e.Arr? && e.items != [] && c.compliance.MustHave? {
        var w := WalkTo(c, t, e.items, |e.items|);
        var r := MergeLists(c, t, e.items);
        assert MergeSpec(c, t, e) == Arr(r) && r == Overlay(c, t, w.partner) + w.extras;
        forall i | 0 <= i < |items|
          ensures Contains(items[i], r[i]) <==>
                  !(w.partner[i].Some? && ElementClobbered(c, items[i], w.partner[i].value))
        {
          assert r[i] == Overlay(c, t, w.partner)[i];
          if w.partner[i].Some? { CandidateSound(c, items[i], w.partner[i].value); } else { ContainsItself(items[i]); }
        }
      } else {
        ContainsItself(t);
      }
    case _ =>
  }

  // ----- what only the existing object has is kept -----

  // r keeps what only e has, and has what t adds: at each map that is in both, r has exactly the keys
  // of the two, each with the value of the one that has it or again merged so. A null in the template
  // stands for nothing, and anything else in the template takes the place of what is not of its kind.
  // Under mustonlyhave a list of the template is all there is to be of it.
  predicate KeepsExisting(p: Compliance, t: Json, e: Json, r: Json)
    decreases t
  {
    match t
    case Null => r == if e.Obj? then e else t
    case Obj(tf) =>
      if !e.Obj? then r == t
      else
        && r.Obj? && r.fields.Keys == tf.Keys + e.fields.Keys
        && (forall k | k in e.fields && k !in tf :: r.fields[k] == e.fields[k])
        && (forall k | k in tf && k !in e.fields :: r.fields[k] == tf[k])
        && (forall k | k in tf && k in e.fields :: KeepsExisting(p, tf[k], e.fields[k], r.fields[k]))
    case Arr(items) => if p.MustHave? && e.Arr? && e.items != [] then r.Arr? && |items| <= |r.items| else r == t
    case _ => r == t
  }

  lemma {:induction false} MergeKeepsExisting(c: Comparator, t: Json, e: Json)
    requires c.Lawful()
    ensures KeepsExisting(c.compliance, t, e, MergeSpec(c, t, e))
    decreases t
  {
    match t
    case Obj(tf) =>
      if e.Obj? {
        var r := MergeSpec(c, t, e);
        forall k | k in tf && k in e.fields ensures KeepsExisting(c.compliance, tf[k], e.fields[k], r.fields[k]) {
          MergeKeepsExisting(c, tf[k], e.fields[k]);
        }
      }
    case _ =>
  }

  // A template map of strings is merged with an existing one in a list exactly when they have the same
  // name, or when the existing one has all its keys with the same strings or the same quantities.
  lemma StringMapsMatch(c: Comparator, t: Json, e: Json)
    requires c.Lawful() && StringMap(t) && StringMap(e)
    ensures Matches(c, t, e) <==>
            || SameNamed(t, e)
            || forall k | k in t.fields ::
                 && k in e.fields
                 && var p, q := t.fields[k].s, e.fields[k].s;
                    p == q || (c.quantity(p).Some? && c.quantity(p) == c.quantity(q))
  {
    var r := MergeSpec(c, t, e);
    assert r.fields.Keys == t.fields.Keys + e.fields.Keys;
    forall k | k in r.fields ensures r.fields[k] == if k in t.fields then t.fields[k] else e.fields[k] {
      if k in t.fields && k in e.fields { assert MergeSpec(c, t.fields[k], e.fields[k]) == t.fields[k]; }
    }
    EqualStringMaps(c, r, e);
  }

  // How often an existing element that prints as key has been merged with a template element.
  ghost function PartnerCount(c: Comparator, partner: seq<Option<Json>>, key: string): nat {
    if partner == [] then 0
    else
      var n := |partner| - 1;
      PartnerCount(c, partner[..n], key) + if partner[n].Some? && c.sprint(partner[n].value) == key then 1 else 0
  }

  lemma {:induction false} PartnerCountSet(c: Comparator, partner: seq<Option<Json>>, i: nat, e: Json, key: string)
    requires i < |partner| && partner[i].None?
    ensures PartnerCount(c, partner[i := Some(e)], key) == PartnerCount(c, partner, key) + if c.sprint(e) == key then 1 else 0
    decreases |partner|
  {
    var n := |partner| - 1;
    if i < n {
      assert partner[i := Some(e)][..n] == partner[..n][i := Some(e)];
      PartnerCountSet(c, partner[..n], i, e, key);
    } else {
      assert partner[i := Some(e)][..n] == partner[..n];
    }
  }

  lemma {:induction false} ScanAccounts(c: Comparator, t: Json, partner: seq<Option<Json>>, i: nat, e: Json, need: nat, key: string)
    requires c.Lawful() && t.Arr? && |partner| == |t.items| && i <= |t.items|
    ensures var (p, missing) := Scan(c, t, partner, i, e, need);
            PartnerCount(c, p, key) == PartnerCount(c, partner, key) + if c.sprint(e) == key then need - missing else 0
    decreases |t.items| - i
  {
    if i < |t.items| && need > 0 {
      ScanStep(c, t, partner, i, e, need);
      if partner[i].None? && Matches(c, t.items[i], e) {
        PartnerCountSet(c, partner, i, e, key);
        ScanAccounts(c, t, partner[i := Some(e)], i + 1, e, need - 1, key);
      } else {
        ScanAccounts(c, t, partner, i + 1, e, need, key);
      }
    }
  }

  lemma VisitAccounts(c: Comparator, t: Json, e: seq<Json>, k: nat, w: Walk, key: string)
    requires c.Lawful() && t.Arr? && |w.partner| == |t.items| && k < |e|
    ensures var w' := Visit(c, t, e, k, w);
            PartnerCount(c, w'.partner, key) + KeyCount(c, w'.extras, key) ==
              PartnerCount(c, w.partner, key) + KeyCount(c, w.extras, key)
              + if c.sprint(e[k]) == key && !KeySeen(c, e[..k], key) then KeyCount(c, e, key) else 0
  {
    var need := KeyCount(c, e, c.sprint(e[k]));
    if !KeySeen(c, e[..k], c.sprint(e[k])) {
      var (partner, missing) := Scan(c, t, w.partner, 0, e[k], need);
      VisitNew(c, t, e, k, w, partner, missing);
      ScanAccounts(c, t, w.partner, 0, e[k], need, key);
      KeyCountConcat(c, w.extras, Repeat(e[k], missing), key);
      KeyCountRepeat(c, e[k], missing, key);
    }
  }

  lemma {:induction false} WalkAccounts(c: Comparator, t: Json, e: seq<Json>, k: nat, key: string)
    requires c.Lawful() && t.Arr? && k <= |e|
    ensures var w := WalkTo(c, t, e, k);
            PartnerCount(c, w.partner, key) + KeyCount(c, w.extras, key) == if KeySeen(c, e[..k], key) then KeyCount(c, e, key) else 0
  {
    if k == 0 {
      NoPartners(c, |t.items|, key);
    } else {
      WalkAccounts(c, t, e, k - 1, key);
      VisitAccounts(c, t, e, k - 1, WalkTo(c, t, e, k - 1), key);
      SeenNext(c, e, k - 1, key);
    }
  }

  lemma {:induction false} NoPartners(c: Comparator, n: nat, key: string)
    ensures PartnerCount(c, seq(n, _ => None), key) == 0
  {
    if n > 0 {
      var none: seq<Option<Json>> := seq(n, _ => None);
      assert none[..n - 1] == seq(n - 1, _ => None);
      NoPartners(c, n - 1, key);
    }
  }

  // Merging lists loses no existing element: for every printed value, as many as there are have been
  // merged with template elements or are appended, and the elements of the template that have been
  // merged with none are as they were.
  lemma ListsKeepExisting(c: Comparator, t: Json, e: seq<Json>, key: string)
    requires c.Lawful() && c.compliance.MustHave? && t.Arr?
    ensures var w := WalkTo(c, t, e, |e|);
            var r := MergeLists(c, t, e);
            && |r| == |t.items| + |w.extras|
            && (forall i | 0 <= i < |t.items| :: r[i] == if w.partner[i].Some? then Candidate(c, t.items[i], w.partner[i].value) else t.items[i])
            && (forall i | 0 <= i < |w.extras| :: r[|t.items| + i] == w.extras[i])
            && PartnerCount(c, w.partner, key) + KeyCount(c, w.extras, key) == KeyCount(c, e, key)
  {
    WalkAccounts(c, t, e, |e|, key);
    assert e[..|e|] == e;
    KeyCountUnseen(c, e, key);
  }

  lemma CandidateSound(c: Comparator, t: Json, e: Json)
    requires c.Lawful()
    ensures Contains(t, Candidate(c, t, e)) <==> !ElementClobbered(c, t, e)
    decreases t, 2
  {
    if !e.Obj? { ContainsItself(t); } else if t.Obj? { MustHaveSound(c, t, e); }
  }

  // Every pairing is one the source's test accepted.
  ghost predicate Paired(c: Comparator, t: Json, e: seq<Json>, partner: seq<Option<Json>>)
    requires c.Lawful() && t.Arr? && |partner| == |t.items|
  {
    forall i | 0 <= i < |partner| && partner[i].Some? ::
      partner[i].value in e && Matches(c, t.items[i], partner[i].value)
  }

  lemma {:induction false} ScanPairs(
    c: Comparator, t: Json, l: seq<Json>, partner: seq<Option<Json>>, i: nat, e: Json, need: nat)
    requires c.Lawful() && t.Arr? && |partner| == |t.items| && i <= |t.items| && e in l
    requires Paired(c, t, l, partner)
    ensures Paired(c, t, l, Scan(c, t, partner, i, e, need).0)
    decreases |t.items| - i
  {
    if i == |t.items| || need == 0 {
    } else if partner[i].None? && Matches(c, t.items[i], e) {
      ScanPairs(c, t, l, partner[i := Some(e)], i + 1, e, need - 1);
    } else {
      ScanPairs(c, t, l, partner, i + 1, e, need);
    }
  }

  lemma {:induction false} WalkPairs(c: Comparator, t: Json, e: seq<Json>, k: nat)
    requires c.Lawful() && t.Arr? && k <= |e|
    ensures Paired(c, t, e, WalkTo(c, t, e, k).partner)
  {
    if k != 0 {
      WalkPairs(c, t, e, k - 1);
      ScanPairs(c, t, e, WalkTo(c, t, e, k - 1).partner, 0, e[k - 1], KeyCount(c, e, c.sprint(e[k - 1])));
    }
  }

  // A template element that is not a map is paired with a map only if that map is empty.
  lemma NonMapMatchesEmptyMap(c: Comparator, t: Json, e: Json)
    requires c.Lawful() && !t.Obj? && e.Obj?
    ensures Matches(c, t, e) <==> e == Obj(map[])
  {
    var nilMap := Obj(map[]);
    assert Matches(c, t, e) <==> CheckFields(c, nilMap, e, c.zeroIsNil);
    assert CheckFields(c, nilMap, e, c.zeroIsNil) <==> |nilMap.fields| >= |e.fields|;
  }

  // No list inside v holds an empty map.
  predicate NoEmptyMapInLists(v: Json) {
    match v
    case Obj(f) => forall k | k in f :: NoEmptyMapInLists(f[k])
    case Arr(items) => forall i | 0 <= i < |items| :: items[i] != Obj(map[]) && NoEmptyMapInLists(items[i])
    case _ => true
  }

  // The check a caller can make on the existing object alone: only an empty map in a list can
  // displace a template element.
  lemma {:induction false} MustHaveWithoutEmptyMaps(c: Comparator, t: Json, e: Json)
    requires c.Lawful() && NoEmptyMapInLists(e)
    ensures Contains(t, MergeSpec(c, t, e))
  {
    NothingClobbered(c, t, e);
    MustHaveSound(c, t, e);
  }

  lemma {:induction false} NothingClobbered(c: Comparator, t: Json, e: Json)
    requires c.Lawful() && NoEmptyMapInLists(e)
    ensures !Clobbered(c, t, e)
  {
    match t
    case Obj(tf) =>
      if e.Obj? {
        forall k | k in tf && k in e.fields ensures !Clobbered(c, tf[k], e.fields[k]) {
          NothingClobbered(c, tf[k], e.fields[k]);
        }
      }
    case Arr(items) =>
      if e.Arr? {
        WalkPairs(c, t, e.items, |e.items|);
        var partner := WalkTo(c, t, e.items, |e.items|).partner;
        forall i | 0 <= i < |items| && partner[i].Some? ensures !ElementClobbered(c, items[i], partner[i].value) {
          var v := partner[i].value;
          assert v in e.items && Matches(c, items[i], v);
          if v.Obj? {
            if items[i].Obj? { NothingClobbered(c, items[i], v); } else { NonMapMatchesEmptyMap(c, items[i], v); }
          }
        }
      }
    case _ =>
  }

  // Merging the template ["a"] into the existing list [{}] loses "a".
  lemma EmptyMapDisplacesTemplate(c: Comparator)
    requires c.Lawful() && c.compliance.MustHave?
    ensures var t, e := Arr([Str("a")]), Arr([Obj(map[])]);
            MergeSpec(c, t, e) == Arr([Obj(map[])]) && !Contains(t, MergeSpec(c, t, e))
  {
    var t, e := Arr([Str("a")]), Arr([Obj(map[])]);
    var v := e.items[0];
    var key := c.sprint(v);
    assert KeyCount(c, e.items, key) == 1 + KeyCount(c, [], key) by { assert e.items[1..] == []; }
    assert Matches(c, t.items[0], v);
    assert [None][0 := Some(v)] == [Some(v)];
    assert Scan(c, t, [None], 0, v, 1) == ([Some(v)], 0);
    assert WalkTo(c, t, e.items, 0).partner == [None];
    assert WalkTo(c, t, e.items, 1) == Walk([Some(v)], []);
    assert MergeLists(c, t, e.items) == [v];
  }

  // ----- scalar lists: the multiset union -----

  predicate ScalarList(l: seq<Json>) {
    forall i | 0 <= i < |l| :: l[i].Scalar()
  }

  function Max(a: nat, b: nat): nat {
    if a < b then b else a
  }

  function Excess(a: nat, b: nat): nat {
    if a < b then 0 else a - b
  }

  lemma ScalarsMatchByPrint(c: Comparator, t: Json, e: Json)
    requires c.Lawful() && !c.zeroIsNil && t.Scalar() && e.Scalar()
    ensures Matches(c, t, e) <==> c.sprint(t) == c.sprint(e)
  {
    assert Candidate(c, t, e) == t;
  }

  lemma {:induction false} KeyCountConcat(c: Comparator, a: seq<Json>, b: seq<Json>, key: string)
    ensures KeyCount(c, a + b, key) == KeyCount(c, a, key) + KeyCount(c, b, key)
  {
    if a == [] {
      assert a + b == b;
    } else {
      KeyCountConcat(c, a[1..], b, key);
      assert (a + b)[1..] == a[1..] + b;
    }
  }

  lemma {:induction false} KeyCountRepeat(c: Comparator, v: Json, n: nat, key: string)
    ensures KeyCount(c, Repeat(v, n), key) == if c.sprint(v) == key then n else 0
  {
    if n != 0 {
      KeyCountRepeat(c, v, n - 1, key);
      assert Repeat(v, n)[1..] == Repeat(v, n - 1);
    }
  }

  lemma {:induction false} KeyCountUnseen(c: Comparator, l: seq<Json>, key: string)
    ensures KeyCount(c, l, key) > 0 <==> KeySeen(c, l, key)
  {
    if l != [] {
      KeyCountUnseen(c, l[1..], key);
      if KeySeen(c, l[1..], key) {
        var i :| 0 <= i < |l[1..]| && c.sprint(l[1..][i]) == key;
        assert c.sprint(l[i + 1]) == key;
      }
      if KeySeen(c, l, key) && c.sprint(l[0]) != key {
        var i :| 0 <= i < |l| && c.sprint(l[i]) == key;
        assert c.sprint(l[1..][i - 1]) == key;
      }
    }
  }

  lemma {:induction false} ScanScalars(
    c: Comparator, t: Json, partner: seq<Option<Json>>, i: nat, e: Json, need: nat)
    requires c.Lawful() && !c.zeroIsNil && t.Arr? && ScalarList(t.items) && e.Scalar()
    requires |partner| == |t.items| && i <= |t.items|
    requires forall j | i <= j < |partner| && partner[j].Some? :: c.sprint(t.items[j]) != c.sprint(e)
    ensures var (p, missing) := Scan(c, t, partner, i, e, need);
            && missing == Excess(need, KeyCount(c, t.items[i..], c.sprint(e)))
            && forall j | 0 <= j < |p| && p[j].Some? :: partner[j].Some? || c.sprint(t.items[j]) == c.sprint(e)
    decreases |t.items| - i
  {
    if i == |t.items| || need == 0 {
    } else {
      assert t.items[i..][1..] == t.items[i + 1..];
      ScalarsMatchByPrint(c, t.items[i], e);
      if partner[i].None? && Matches(c, t.items[i], e) {
        ScanScalars(c, t, partner[i := Some(e)], i + 1, e, need - 1);
      } else {
        ScanScalars(c, t, partner, i + 1, e, need);
      }
    }
  }

  // After the first k existing elements, exactly the surplus of the printed values seen so far
  // has been appended.
  ghost predicate Surplus(c: Comparator, t: Json, e: seq<Json>, k: nat, w: Walk)
    requires t.Arr? && |w.partner| == |t.items| && k <= |e|
  {
    && (forall j | 0 <= j < |w.partner| && w.partner[j].Some? :: KeySeen(c, e[..k], c.sprint(t.items[j])))
    && forall key :: KeyCount(c, w.extras, key) ==
         if KeySeen(c, e[..k], key) then Excess(KeyCount(c, e, key), KeyCount(c, t.items, key)) else 0
  }

  lemma SeenNext(c: Comparator, e: seq<Json>, k: nat, key: string)
    requires k < |e|
    ensures KeySeen(c, e[..k + 1], key) <==> KeySeen(c, e[..k], key) || c.sprint(e[k]) == key
  {
    if KeySeen(c, e[..k], key) {
      var i :| 0 <= i < k && c.sprint(e[..k][i]) == key;
      assert c.sprint(e[..k + 1][i]) == key;
    }
    if KeySeen(c, e[..k + 1], key) {
      var i :| 0 <= i < k + 1 && c.sprint(e[..k + 1][i]) == key;
      assert i < k ==> c.sprint(e[..k][i]) == key;
    }
    assert e[..k + 1][k] == e[k];
  }

  lemma {:induction false} WalkScalars(c: Comparator, t: Json, e: seq<Json>, k: nat)
    requires c.Lawful() && !c.zeroIsNil && t.Arr? && ScalarList(t.items) && ScalarList(e) && k <= |e|
    ensures Surplus(c, t, e, k, WalkTo(c, t, e, k))
  {
    if k != 0 {
      var w := WalkTo(c, t, e, k - 1);
      WalkScalars(c, t, e, k - 1);
      var key := c.sprint(e[k - 1]);
      var need := KeyCount(c, e, key);
      forall q ensures KeySeen(c, e[..k], q) <==> KeySeen(c, e[..k - 1], q) || key == q { SeenNext(c, e, k - 1, q); }
      if !KeySeen(c, e[..k - 1], key) {
        ScanScalars(c, t, w.partner, 0, e[k - 1], need);
        var missing := Scan(c, t, w.partner, 0, e[k - 1], need).1;
        assert t.items[0..] == t.items;
        forall q ensures KeyCount(c, w.extras + Repeat(e[k - 1], missing), q) ==
                         KeyCount(c, w.extras, q) + if q == key then missing else 0
        {
          KeyCountConcat(c, w.extras, Repeat(e[k - 1], missing), q);
          KeyCountRepeat(c, e[k - 1], missing, q);
        }
      }
    }
  }

  // For scalar lists the merge is the multiset union on printed values, and the template list is
  // its prefix.
  lemma {:induction false} ScalarMergeIsUnion(c: Comparator, t: Json, e: seq<Json>, key: string)
    requires c.Lawful() && c.compliance.MustHave? && !c.zeroIsNil
    requires t.Arr? && ScalarList(t.items) && ScalarList(e)
    ensures t.items <= MergeLists(c, t, e)
    ensures KeyCount(c, MergeLists(c, t, e), key) == Max(KeyCount(c, t.items, key), KeyCount(c, e, key))
  {
    WalkScalars(c, t, e, |e|);
    WalkPairs(c, t, e, |e|);
    var w := WalkTo(c, t, e, |e|);
    assert Overlay(c, t, w.partner) == t.items;
    KeyCountConcat(c, t.items, w.extras, key);
    KeyCountUnseen(c, e, key);
    assert e[..|e|] == e;
  }

  // ----- lists of named maps: the merge by name -----

  predicate AllNamed(l: seq<Json>) {
    forall i | 0 <= i < |l| :: l[i].Named()
  }

  // No element of l has the name of v.
  predicate NewName(l: seq<Json>, v: Json)
    requires AllNamed(l) && v.Named()
  {
    forall i | 0 <= i < |l| :: l[i].Name() != v.Name()
  }

  predicate NamedList(l: seq<Json>) {
    AllNamed(l) && forall i, j | 0 <= i < j < |l| :: l[i].Name() != l[j].Name()
  }

  // No two different names that denote the same quantity, such as "1" and "1000m".
  predicate NamesApart(c: Comparator, t: seq<Json>, e: seq<Json>)
    requires AllNamed(t) && AllNamed(e)
  {
    forall i, j | 0 <= i < |t| && 0 <= j < |e| && t[i].Name() != e[j].Name() ::
      c.quantity(t[i].Name()).None? || c.quantity(t[i].Name()) != c.quantity(e[j].Name())
  }

  predicate KeysDistinct(c: Comparator, l: seq<Json>) {
    forall i, j | 0 <= i < j < |l| :: c.sprint(l[i]) != c.sprint(l[j])
  }

  function Lookup(l: seq<Json>, name: string): (r: Option<Json>)
    requires AllNamed(l)
    ensures r.Some? ==> r.value in l && r.value.Named() && r.value.Name() == name
    ensures r.None? ==> forall i | 0 <= i < |l| :: l[i].Name() != name
  {
    if l == [] then None
    else
      var n := |l| - 1;
      if l[n].Name() == name then Some(l[n]) else Lookup(l[..n], name)
  }

  // The elements of l whose name occurs nowhere in d, in order.
  function Without(l: seq<Json>, d: seq<Json>): seq<Json>
    requires AllNamed(l) && AllNamed(d)
  {
    if l == [] then []
    else
      var n := |l| - 1;
      Without(l[..n], d) + if Lookup(d, l[n].Name()).None? then [l[n]] else []
  }

  // The merge by name: shared names are merged in place, the rest of the existing list follows.
  ghost function MergeByName(c: Comparator, d: seq<Json>, e: seq<Json>): seq<Json>
    requires c.Lawful() && NamedList(d) && NamedList(e)
  {
    seq(|d|, i requires 0 <= i < |d| =>
      var v := Lookup(e, d[i].Name());
      if v.Some? then MergeSpec(c, d[i], v.value) else d[i])
    + Without(e, d)
  }

  lemma MergedName(c: Comparator, t: Json, e: Json)
    requires c.Lawful() && t.Named() && e.Named()
    ensures MergeSpec(c, t, e).Named() && MergeSpec(c, t, e).Name() == t.Name()
  {
    var r := MergeSpec(c, t, e);
    assert "name" in t.fields.Keys + e.fields.Keys;
    assert r.fields["name"] == MergeSpec(c, t.fields["name"], e.fields["name"]);
  }

  lemma NamedMatch(c: Comparator, t: Json, e: Json)
    requires c.Lawful() && c.compliance.MustHave? && t.Named() && e.Named()
    requires t.Name() == e.Name() || c.quantity(t.Name()).None? || c.quantity(t.Name()) != c.quantity(e.Name())
    ensures Matches(c, t, e) <==> t.Name() == e.Name()
  {
    MergedName(c, t, e);
    if t.Name() != e.Name() {
      var m := Candidate(c, t, e);
      assert !CheckField(c, "name", m.fields["name"], e, c.zeroIsNil);
    }
  }

  lemma {:induction false} DistinctKeyCount(c: Comparator, l: seq<Json>, i: nat)
    requires KeysDistinct(c, l) && i < |l|
    ensures KeyCount(c, l, c.sprint(l[i])) == 1
  {
    if i == 0 {
      KeyCountUnseen(c, l[1..], c.sprint(l[0]));
    } else {
      DistinctKeyCount(c, l[1..], i - 1);
    }
  }

  lemma {:induction false} ScanByName(c: Comparator, t: Json, partner: seq<Option<Json>>, i: nat, e: Json)
    requires c.Lawful() && c.compliance.MustHave? && t.Arr? && |partner| == |t.items| && i <= |t.items|
    requires NamedList(t.items) && e.Named() && NamesApart(c, t.items, [e])
    requires forall j | i <= j < |partner| && t.items[j].Name() == e.Name() :: partner[j].None?
    requires forall j | 0 <= j < i :: t.items[j].Name() != e.Name()
    ensures var (p, missing) := Scan(c, t, partner, i, e, 1);
            && missing == (if Lookup(t.items, e.Name()).None? then 1 else 0)
            && forall j | 0 <= j < |p| :: p[j] == if t.items[j].Name() == e.Name() then Some(e) else partner[j]
    decreases |t.items| - i
  {
    if i < |t.items| {
      assert [e][0] == e;
      NamedMatch(c, t.items[i], e);
      if t.items[i].Name() != e.Name() { ScanByName(c, t, partner, i + 1, e); }
    }
  }

  // The walk has merged each template element with its namesake in l and kept the rest of l.
  ghost predicate PairedByName(t: Json, l: seq<Json>, w: Walk)
    requires t.Arr? && |w.partner| == |t.items| && AllNamed(t.items) && AllNamed(l)
  {
    && w.extras == Without(l, t.items)
    && forall i | 0 <= i < |t.items| :: w.partner[i] == Lookup(l, t.items[i].Name())
  }

  // Merging v with its namesake, or keeping it, extends the pairing.
  lemma PairedNext(t: Json, l: seq<Json>, v: Json, w: Walk, partner: seq<Option<Json>>)
    requires t.Arr? && |w.partner| == |t.items| == |partner| && AllNamed(t.items) && AllNamed(l) && v.Named()
    requires PairedByName(t, l, w)
    requires forall j | 0 <= j < |partner| :: partner[j] == if t.items[j].Name() == v.Name() then Some(v) else w.partner[j]
    ensures PairedByName(t, l + [v], Walk(partner, w.extras + if Lookup(t.items, v.Name()).None? then [v] else []))
  {
    assert (l + [v])[..|l|] == l && (l + [v])[|l|] == v;
  }

  lemma UnpairedYet(t: Json, l: seq<Json>, v: Json, w: Walk, i: nat)
    requires t.Arr? && |w.partner| == |t.items| && AllNamed(t.items) && AllNamed(l) && v.Named() && NewName(l, v)
    requires PairedByName(t, l, w) && i < |t.items| && t.items[i].Name() == v.Name()
    ensures w.partner[i].None?
  {}

  // With distinct printed values each element is visited once and counted once.
  lemma WalkOnce(c: Comparator, t: Json, e: seq<Json>, k: nat)
    requires c.Lawful() && t.Arr? && k < |e| && KeysDistinct(c, e)
    ensures var w := WalkTo(c, t, e, k);
            var (partner, missing) := Scan(c, t, w.partner, 0, e[k], 1);
            WalkTo(c, t, e, k + 1) == Walk(partner, w.extras + Repeat(e[k], missing))
  {
    var w := WalkTo(c, t, e, k);
    assert !KeySeen(c, e[..k], c.sprint(e[k]));
    DistinctKeyCount(c, e, k);
    var (partner, missing) := Scan(c, t, w.partner, 0, e[k], 1);
    VisitNew(c, t, e, k, w, partner, missing);
  }

  lemma RepeatOnce(v: Json, once: bool)
    ensures Repeat(v, if once then 1 else 0) == if once then [v] else []
  {
    assert Repeat(v, 1) == [v] && Repeat(v, 0) == [];
  }

  lemma VisitByName(c: Comparator, t: Json, l: seq<Json>, v: Json, w: Walk)
    requires c.Lawful() && c.compliance.MustHave? && t.Arr? && |w.partner| == |t.items|
    requires NamedList(t.items) && AllNamed(l) && v.Named() && NewName(l, v) && NamesApart(c, t.items, [v])
    requires PairedByName(t, l, w)
    ensures var (partner, missing) := Scan(c, t, w.partner, 0, v, 1);
            PairedByName(t, l + [v], Walk(partner, w.extras + Repeat(v, missing)))
  {
    forall i | 0 <= i < |t.items| && t.items[i].Name() == v.Name() ensures w.partner[i].None? {
      UnpairedYet(t, l, v, w, i);
    }
    ScanByName(c, t, w.partner, 0, v);
    RepeatOnce(v, Lookup(t.items, v.Name()).None?);
    PairedNext(t, l, v, w, Scan(c, t, w.partner, 0, v, 1).0);
  }

  lemma ApartAt(c: Comparator, t: seq<Json>, e: seq<Json>, k: nat)
    requires NamedList(t) && NamedList(e) && NamesApart(c, t, e) && k < |e|
    ensures NamesApart(c, t, [e[k]]) && AllNamed(e[..k]) && NewName(e[..k], e[k])
    ensures e[..k + 1] == e[..k] + [e[k]]
  {}

  lemma {:induction false} WalkByName(c: Comparator, t: Json, e: seq<Json>, k: nat)
    requires c.Lawful() && c.compliance.MustHave? && t.Arr? && k <= |e|
    requires NamedList(t.items) && NamedList(e) && NamesApart(c, t.items, e) && KeysDistinct(c, e)
    ensures PairedByName(t, e[..k], WalkTo(c, t, e, k))
  {
    if k == 0 {
      assert e[..k] == [];
    } else {
      var w := WalkTo(c, t, e, k - 1);
      WalkByName(c, t, e, k - 1);
      ApartAt(c, t.items, e, k - 1);
      VisitByName(c, t, e[..k - 1], e[k - 1], w);
      WalkOnce(c, t, e, k - 1);
    }
  }

  // With distinct names on both sides the merge is the merge by name.
  lemma {:induction false} NamedMergeIsByName(c: Comparator, t: Json, e: seq<Json>)
    requires c.Lawful() && c.compliance.MustHave? && t.Arr?
    requires NamedList(t.items) && NamedList(e) && NamesApart(c, t.items, e) && KeysDistinct(c, e)
    ensures MergeLists(c, t, e) == MergeByName(c, t.items, e)
  {
    WalkByName(c, t, e, |e|);
    assert e[..|e|] == e;
    var w := WalkTo(c, t, e, |e|);
    var byName := MergeByName(c, t.items, e);
    assert Overlay(c, t, w.partner) == byName[..|t.items|];
  }

  lemma {:induction false} WithoutFrom(l: seq<Json>, d: seq<Json>)
    requires AllNamed(l) && AllNamed(d)
    ensures forall i | 0 <= i < |Without(l, d)| :: Without(l, d)[i] in l && Lookup(d, Without(l, d)[i].Name()).None?
  {
    if l != [] { WithoutFrom(l[..|l| - 1], d); }
  }

  lemma {:induction false} WithoutNames(l: seq<Json>, d: seq<Json>)
    requires NamedList(l) && AllNamed(d)
    ensures AllNamed(Without(l, d)) && NamedList(Without(l, d))
  {
    if l != [] {
      var n := |l| - 1;
      var kept := Without(l[..n], d);
      WithoutNames(l[..n], d);
      WithoutFrom(l[..n], d);
      forall i | 0 <= i < |kept| ensures kept[i].Name() != l[n].Name() {
        var j :| 0 <= j < n && l[j] == kept[i];
      }
      assert NamedList(kept + [l[n]]);
    }
  }

  lemma NamedConcat(a: seq<Json>, b: seq<Json>)
    requires NamedList(a) && NamedList(b)
    requires forall i, j | 0 <= i < |a| && 0 <= j < |b| :: a[i].Name() != b[j].Name()
    ensures NamedList(a + b)
  {}

  // The part of the merge that comes from the template list has its names.
  lemma MergedNames(c: Comparator, d: seq<Json>, e: seq<Json>, r: seq<Json>)
    requires c.Lawful() && NamedList(d) && NamedList(e) && |r| == |d|
    requires forall i | 0 <= i < |d| ::
               var v := Lookup(e, d[i].Name()); r[i] == if v.Some? then MergeSpec(c, d[i], v.value) else d[i]
    ensures NamedList(r) && forall i | 0 <= i < |d| :: r[i].Name() == d[i].Name()
  {
    forall i | 0 <= i < |d| ensures r[i].Named() && r[i].Name() == d[i].Name() {
      var v := Lookup(e, d[i].Name());
      if v.Some? { MergedName(c, d[i], v.value); }
    }
  }

  // Merging by name duplicates no name.
  lemma MergeByNameKeepsNamesDistinct(c: Comparator, d: seq<Json>, e: seq<Json>)
    requires c.Lawful() && NamedList(d) && NamedList(e)
    ensures NamedList(MergeByName(c, d, e))
    ensures forall i | 0 <= i < |d| :: MergeByName(c, d, e)[i].Name() == d[i].Name()
  {
    WithoutNames(e, d);
    WithoutFrom(e, d);
    var all, rest := MergeByName(c, d, e), Without(e, d);
    var r := all[..|d|];
    assert all == r + rest;
    MergedNames(c, d, e, r);
    NamedConcat(r, rest);
  }
}
