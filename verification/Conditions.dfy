/**
 Status conditions: the ordered list kept on a custom resource, its abstraction as a map from
 condition type to (status, reason), and the stage predicates and setters on that map.

 Message, generation and transition time are not kept.
 */
module Conditions {
  import opened Prelude

  datatype ConditionType =
    | Idle
    | PrepInProgress | PrepCompleted
    | UpgradeInProgress | UpgradeCompleted
    | RollbackInProgress | RollbackCompleted
    | ConfigInProgress | ConfigCompleted

  datatype Reason =
    | IsIdle | ConfigurationInProgress | Completed | Failed | InProgress
    | Aborting | AbortFailed | Finalizing | FinalizeFailed
    | InvalidTransition | Blocked

  datatype Cond = Cond(status: bool, reason: Reason)

  datatype Condition = Condition(ctype: ConditionType, cond: Cond)

  type Conds = map<ConditionType, Cond>

  // ----- the list -----

  ghost predicate Distinct(cs: seq<Condition>) {
    forall i, j | 0 <= i < j < |cs| :: cs[i].ctype != cs[j].ctype
  }

  // The first condition of the type, as FindStatusCondition returns it.
  function Find(cs: seq<Condition>, t: ConditionType): Option<Cond> {
    if cs == [] then None
    else if cs[0].ctype == t then Some(cs[0].cond)
    else Find(cs[1..], t)
  }

  function AsMap(cs: seq<Condition>): Conds {
    map t: ConditionType | t in TypesOf(cs) :: Find(cs, t).value
  }

  function TypesOf(cs: seq<Condition>): (s: set<ConditionType>)
    ensures forall t :: t in s <==> Find(cs, t).Some?
  {
    if cs == [] then {} else {cs[0].ctype} + TypesOf(cs[1..])
  }

  function Removed(cs: seq<Condition>, t: ConditionType): seq<Condition> {
    if cs == [] then []
    else if cs[0].ctype == t then Removed(cs[1..], t)
    else [cs[0]] + Removed(cs[1..], t)
  }

  // meta.SetStatusCondition: overwrite the first condition of the type, or append.
  function Upserted(cs: seq<Condition>, c: Condition): seq<Condition> {
    if cs == [] then [c]
    else if cs[0].ctype == c.ctype then [c] + cs[1..]
    else [cs[0]] + Upserted(cs[1..], c)
  }

  // SetStatusCondition: a condition whose status changes, and Idle always, moves to the end.
  function Updated(cs: seq<Condition>, c: Condition): seq<Condition> {
    var prev := Find(cs, c.ctype);
    if prev.Some? && (prev.value.status != c.cond.status || c.ctype.Idle?) && cs[|cs| - 1].ctype != c.ctype
    then Upserted(Removed(cs, c.ctype), c)
    else Upserted(cs, c)
  }

  lemma {:induction false} FindMember(cs: seq<Condition>, t: ConditionType)
    ensures Find(cs, t).Some? <==> exists i :: 0 <= i < |cs| && cs[i].ctype == t
    ensures Distinct(cs) ==> forall i | 0 <= i < |cs| :: cs[i].ctype == t ==> Find(cs, t) == Some(cs[i].cond)
  {
    if cs != [] {
      FindMember(cs[1..], t);
      assert forall i | 0 < i < |cs| :: cs[i] == cs[1..][i - 1];
    }
  }

  lemma {:induction false} RemovedFind(cs: seq<Condition>, t: ConditionType, u: ConditionType)
    ensures Find(Removed(cs, t), u) == if u == t then None else Find(cs, u)
  {
    if cs != [] { RemovedFind(cs[1..], t, u); }
  }

  lemma {:induction false} RemovedDistinct(cs: seq<Condition>, t: ConditionType)
    requires Distinct(cs)
    ensures Distinct(Removed(cs, t)) && forall c | c in Removed(cs, t) :: c in cs
  {
    if cs != [] {
      RemovedDistinct(cs[1..], t);
      forall d | d in cs[1..] ensures d.ctype != cs[0].ctype {
        var i :| 0 <= i < |cs[1..]| && cs[1..][i] == d;
        assert cs[i + 1] == d;
      }
    }
  }

  lemma {:induction false} UpsertedFind(cs: seq<Condition>, c: Condition, u: ConditionType)
    ensures Find(Upserted(cs, c), u) == if u == c.ctype then Some(c.cond) else Find(cs, u)
  {
    if cs != [] && cs[0].ctype != c.ctype { UpsertedFind(cs[1..], c, u); }
  }

  lemma {:induction false} UpsertedDistinct(cs: seq<Condition>, c: Condition)
    requires Distinct(cs)
    ensures Distinct(Upserted(cs, c))
    ensures forall d | d in Upserted(cs, c) :: d == c || d in cs
  {
    if cs != [] && cs[0].ctype != c.ctype {
      UpsertedDistinct(cs[1..], c);
      forall d | d in cs[1..] ensures d.ctype != cs[0].ctype {
        var i :| 0 <= i < |cs[1..]| && cs[1..][i] == d;
        assert cs[i + 1] == d;
      }
    }
  }

  // Setting a condition keeps the types distinct and changes exactly one entry of the map.
  lemma {:induction false} UpdatedIsMapUpdate(cs: seq<Condition>, c: Condition)
    requires Distinct(cs)
    ensures Distinct(Updated(cs, c)) && AsMap(Updated(cs, c)) == AsMap(cs)[c.ctype := c.cond]
  {
    RemovedDistinct(cs, c.ctype);
    UpsertedDistinct(cs, c);
    UpsertedDistinct(Removed(cs, c.ctype), c);
    forall u ensures Find(Updated(cs, c), u) == if u == c.ctype then Some(c.cond) else Find(cs, u) {
      RemovedFind(cs, c.ctype, u);
      UpsertedFind(cs, c, u);
      UpsertedFind(Removed(cs, c.ctype), c, u);
    }
  }

  lemma RemovedIsMapRemoval(cs: seq<Condition>, t: ConditionType)
    requires Distinct(cs)
    ensures Distinct(Removed(cs, t)) && AsMap(Removed(cs, t)) == AsMap(cs) - {t}
  {
    RemovedDistinct(cs, t);
    forall u ensures Find(Removed(cs, t), u) == if u == t then None else Find(cs, u) { RemovedFind(cs, t, u); }
  }

  lemma {:induction false} UpsertedLast(cs: seq<Condition>, c: Condition)
    requires Find(cs, c.ctype).None?
    ensures Upserted(cs, c) == cs + [c]
  {
    if cs != [] { UpsertedLast(cs[1..], c); }
  }

  // The most recent change is listed last: a condition that is new, is Idle, or changes status
  // ends up at the end, after the unchanged others in their order.
  lemma MostRecentLast(cs: seq<Condition>, c: Condition)
    requires Distinct(cs)
    requires var prev := Find(cs, c.ctype); prev.None? || c.ctype.Idle? || prev.value.status != c.cond.status
    ensures Updated(cs, c) == Removed(cs, c.ctype) + [c]
  {
    RemovedFind(cs, c.ctype, c.ctype);
    UpsertedLast(Removed(cs, c.ctype), c);
    FindMember(cs, c.ctype);
    if Find(cs, c.ctype).None? {
      RemovedAbsent(cs, c.ctype);
    } else if cs[|cs| - 1].ctype == c.ctype {
      LastReplaced(cs, c);
    }
  }

  lemma {:induction false} RemovedAbsent(cs: seq<Condition>, t: ConditionType)
    requires Find(cs, t).None?
    ensures Removed(cs, t) == cs
  {
    if cs != [] { RemovedAbsent(cs[1..], t); }
  }

  lemma {:induction false} LastReplaced(cs: seq<Condition>, c: Condition)
    requires Distinct(cs) && cs != [] && cs[|cs| - 1].ctype == c.ctype
    ensures Upserted(cs, c) == Removed(cs, c.ctype) + [c]
  {
    if |cs| > 1 {
      assert cs[0].ctype != cs[|cs| - 1].ctype;
      LastReplaced(cs[1..], c);
    }
  }

  // Removing the condition at position p leaves the others in their order.
  lemma {:induction false} RemovedCuts(cs: seq<Condition>, p: nat)
    requires Distinct(cs) && p < |cs|
    ensures Removed(cs, cs[p].ctype) == cs[..p] + cs[p + 1..]
  {
    var t := cs[p].ctype;
    if p == 0 {
      FindMember(cs[1..], t);
      RemovedAbsent(cs[1..], t);
    } else {
      RemovedCuts(cs[1..], p - 1);
      assert cs[..p] + cs[p + 1..] == [cs[0]] + (cs[1..][..p - 1] + cs[1..][p..]);
    }
  }

  // A condition other than Idle whose status stays is overwritten where it is listed.
  lemma {:induction false} UnchangedKeepsPlace(cs: seq<Condition>, c: Condition, p: nat)
    requires Distinct(cs) && p < |cs| && cs[p].ctype == c.ctype
    requires cs[p].cond.status == c.cond.status && !c.ctype.Idle?
    ensures Updated(cs, c) == cs[p := c]
  {
    FindMember(cs, c.ctype);
    UpsertedAt(cs, c, p);
  }

  lemma {:induction false} UpsertedAt(cs: seq<Condition>, c: Condition, p: nat)
    requires Distinct(cs) && p < |cs| && cs[p].ctype == c.ctype
    ensures Upserted(cs, c) == cs[p := c]
  {
    if p > 0 { UpsertedAt(cs[1..], c, p - 1); }
  }
}
