/**
 Status conditions as values: what one write, one erase and one manager
 operation do to a list of conditions, and what that means for a type.
 */
module Conditions {
  import opened Common
  import opened Ordering

  type ConditionType = string

  datatype ConditionStatus = IsTrue | IsFalse | IsUnknown

  datatype Condition = Condition(
    ctype: ConditionType,
    status: ConditionStatus,
    lastUpdate: int,
    reason: string,
    message: string)

  /** The part of a condition that a write compares: all but the update time. */
  datatype Content = Content(status: ConditionStatus, reason: string, message: string)

  function ContentOf(c: Condition): Content {
    Content(c.status, c.reason, c.message)
  }

  /** The nil-safe status tests of condition_types.go: an absent condition is neither True nor False. */
  predicate True(c: Option<Condition>) { c.Some? && c.value.status.IsTrue? }
  predicate False(c: Option<Condition>) { c.Some? && c.value.status.IsFalse? }

  // ---------------------------------------------------------------- lists

  /** First-match lookup. */
  function Lookup(list: seq<Condition>, t: ConditionType): Option<Condition> {
    if list == [] then None
    else if list[0].ctype == t then Some(list[0])
    else Lookup(list[1..], t)
  }

  /** The list without every condition of type `t`. */
  function Without(list: seq<Condition>, t: ConditionType): seq<Condition> {
    if list == [] then []
    else if list[0].ctype == t then Without(list[1..], t)
    else [list[0]] + Without(list[1..], t)
  }

  /** No type occurs twice. */
  ghost predicate Keyed(list: seq<Condition>) {
    forall i, j :: 0 <= i < j < |list| ==> list[i].ctype != list[j].ctype
  }

  predicate TypeLess(a: Condition, b: Condition) { Less(a.ctype, b.ctype) }

  /** Strictly ascending by type. */
  ghost predicate StrictlySorted(list: seq<Condition>) {
    forall i, j :: 0 <= i < j < |list| ==> Less(list[i].ctype, list[j].ctype)
  }

  function InsertByType(list: seq<Condition>, c: Condition): seq<Condition> {
    if list == [] || TypeLess(c, list[0]) then [c] + list
    else [list[0]] + InsertByType(list[1..], c)
  }

  function SortByType(list: seq<Condition>): seq<Condition> {
    if list == [] then [] else InsertByType(SortByType(list[1..]), list[0])
  }

  // ------------------------------------------------------- list lemmas

  lemma {:induction false} LookupFinds(list: seq<Condition>, t: ConditionType)
    ensures Lookup(list, t).Some? ==> Lookup(list, t).value in list && Lookup(list, t).value.ctype == t
    ensures Lookup(list, t).None? <==> forall c :: c in list ==> c.ctype != t
  {
    if list == [] {
    } else {
      LookupFinds(list[1..], t);
      assert forall c :: c in list <==> c == list[0] || c in list[1..];
    }
  }

  /** In a keyed list, lookup finds exactly the member of that type. */
  lemma LookupIsMember(list: seq<Condition>, t: ConditionType, c: Condition)
    requires Keyed(list)
    ensures Lookup(list, t) == Some(c) <==> c in list && c.ctype == t
  {
    LookupFinds(list, t);
    if c in list && c.ctype == t {
      var d := Lookup(list, t).value;
      var i :| 0 <= i < |list| && list[i] == c;
      var j :| 0 <= j < |list| && list[j] == d;
      assert i == j;
    }
  }

  /** Only the conditions of type `t` are gone: every other occurs as often as before. */
  lemma {:induction false} WithoutMembers(list: seq<Condition>, t: ConditionType)
    ensures forall c :: multiset(Without(list, t))[c] == if c.ctype == t then 0 else multiset(list)[c]
    ensures forall c :: c in Without(list, t) <==> c in list && c.ctype != t
    ensures |Without(list, t)| <= |list|
  {
    if list == [] {
    } else {
      WithoutMembers(list[1..], t);
      HeadAndRest(list);
      assert forall c :: c in list <==> c == list[0] || c in list[1..];
      if list[0].ctype != t { HeadAndRest(Without(list, t)); }
    }
  }

  lemma {:induction false} WithoutKeyed(list: seq<Condition>, t: ConditionType)
    requires Keyed(list)
    ensures Keyed(Without(list, t))
  {
    if list == [] {
    } else {
      var rest := Without(list[1..], t);
      WithoutKeyed(list[1..], t);
      WithoutMembers(list[1..], t);
      forall j | 0 <= j < |rest| ensures rest[j].ctype != list[0].ctype {
        assert rest[j] in list[1..];
      }
    }
  }

  lemma {:induction false} InsertByTypeMultiset(list: seq<Condition>, c: Condition)
    ensures multiset(InsertByType(list, c)) == multiset(list) + multiset{c}
  {
    if list == [] || TypeLess(c, list[0]) {
    } else {
      InsertByTypeMultiset(list[1..], c);
      assert list == [list[0]] + list[1..];
    }
  }

  lemma {:induction false} InsertByTypeSorted(list: seq<Condition>, c: Condition)
    requires StrictlySorted(list)
    requires forall d :: d in list ==> d.ctype != c.ctype
    ensures StrictlySorted(InsertByType(list, c))
  {
    LessIsStrictOrder();
    if list == [] || TypeLess(c, list[0]) {
    } else {
      var rest := InsertByType(list[1..], c);
      InsertByTypeSorted(list[1..], c);
      InsertByTypeMultiset(list[1..], c);
      forall j | 0 <= j < |rest| ensures Less(list[0].ctype, rest[j].ctype) {
        assert rest[j] in multiset(rest);
        assert rest[j] == c || rest[j] in list[1..];
        assert list[0] in list;
      }
    }
  }

  lemma HeadTypeIsNew(list: seq<Condition>, rest: seq<Condition>)
    requires list != [] && Keyed(list) && multiset(rest) == multiset(list[1..])
    ensures forall d :: d in rest ==> d.ctype != list[0].ctype
  {
    forall d | d in rest ensures d.ctype != list[0].ctype {
      assert d in multiset(rest);
      assert d in list[1..];
    }
  }

  lemma HeadAndRest(list: seq<Condition>)
    requires list != []
    ensures multiset(list) == multiset(list[1..]) + multiset{list[0]}
  {
    assert list == [list[0]] + list[1..];
  }

  /** Sorting a keyed list permutes it and makes it strictly ascending. */
  lemma {:induction false} SortByTypeSorts(list: seq<Condition>)
    requires Keyed(list)
    ensures multiset(SortByType(list)) == multiset(list)
    ensures StrictlySorted(SortByType(list))
  {
    if list == [] {
    } else {
      var rest := SortByType(list[1..]);
      SortByTypeSorts(list[1..]);
      HeadTypeIsNew(list, rest);
      InsertByTypeSorted(rest, list[0]);
      InsertByTypeMultiset(rest, list[0]);
      HeadAndRest(list);
    }
  }

  lemma StrictlySortedKeyed(list: seq<Condition>)
    requires StrictlySorted(list)
    ensures Keyed(list)
  {
    LessIsStrictOrder();
  }

  lemma SortedByIsStrict(list: seq<Condition>)
    requires Keyed(list) && SortedBy(TypeLess, list)
    ensures StrictlySorted(list)
  {
    forall i, j | 0 <= i < j < |list| ensures Less(list[i].ctype, list[j].ctype) {
      LessTotal(list[i].ctype, list[j].ctype);
      assert !TypeLess(list[j], list[i]);
    }
  }

  lemma SameHead(a: seq<Condition>, b: seq<Condition>)
    requires StrictlySorted(a) && StrictlySorted(b)
    requires a != [] && b != [] && multiset(a) == multiset(b)
    ensures a[0] == b[0]
  {
    assert a[0] in multiset(a) && b[0] in multiset(b);
    var i :| 0 <= i < |b| && b[i] == a[0];
    var j :| 0 <= j < |a| && a[j] == b[0];
    if i > 0 && j > 0 {
      LessTransitive(a[0].ctype, b[0].ctype, a[0].ctype);
      LessIrreflexive(a[0].ctype);
    }
  }

  lemma {:induction false} StrictArrangementUnique(a: seq<Condition>, b: seq<Condition>)
    requires StrictlySorted(a) && StrictlySorted(b)
    requires multiset(a) == multiset(b)
    ensures a == b
  {
    assert |a| == |multiset(a)| == |multiset(b)| == |b|;
    if a == [] {
    } else {
      SameHead(a, b);
      assert a == [a[0]] + a[1..] && b == [b[0]] + b[1..];
      assert multiset(a[1..]) == multiset(a) - multiset{a[0]} == multiset(b[1..]);
      StrictArrangementUnique(a[1..], b[1..]);
    }
  }

  lemma KeyedArrangement(a: seq<Condition>, b: seq<Condition>)
    requires Keyed(b) && multiset(a) == multiset(b)
    ensures Keyed(a)
  {
    PermutationDistinct(b, a);
    forall i, j | 0 <= i < j < |a| ensures a[i].ctype != a[j].ctype {
      assert a[i] in multiset(a) && a[j] in multiset(a);
      LookupIsMember(b, a[i].ctype, a[i]);
      LookupIsMember(b, a[i].ctype, a[j]);
    }
  }

  /** A keyed list has one sorted arrangement: whatever `sort.Slice` does, this is its result. */
  lemma SortedArrangementUnique(sorted: seq<Condition>, list: seq<Condition>)
    requires Keyed(list) && multiset(sorted) == multiset(list) && SortedBy(TypeLess, sorted)
    ensures sorted == SortByType(list)
  {
    KeyedArrangement(sorted, list);
    SortedByIsStrict(sorted);
    SortByTypeSorts(list);
    StrictArrangementUnique(sorted, SortByType(list));
  }

  // ------------------------------------------------------------- one write

  /** Some stored condition of `cond`'s type already carries `cond`'s content. */
  predicate AlreadySet(list: seq<Condition>, cond: Condition) {
    exists i :: 0 <= i < |list| && list[i].ctype == cond.ctype && ContentOf(list[i]) == ContentOf(cond)
  }

  function SetCondition(list: seq<Condition>, cond: Condition, now: int): seq<Condition> {
    if AlreadySet(list, cond) then list
    else SortByType(Without(list, cond.ctype) + [cond.(lastUpdate := now)])
  }

  function Erase(list: seq<Condition>, t: ConditionType): seq<Condition> {
    if Lookup(list, t).None? then list else SortByType(Without(list, t))
  }

  /** What a write leaves, for any list: the unstable sort decides only where repeated types stand. */
  ghost predicate Written(before: seq<Condition>, cond: Condition, now: int, after: seq<Condition>) {
    if AlreadySet(before, cond) then after == before
    else
      && SortedBy(TypeLess, after)
      && multiset(after) == multiset(Without(before, cond.ctype) + [cond.(lastUpdate := now)])
  }

  /** What an erase leaves, for any list. */
  ghost predicate Erased(before: seq<Condition>, t: ConditionType, after: seq<Condition>) {
    if Lookup(before, t).None? then after == before
    else SortedBy(TypeLess, after) && multiset(after) == multiset(Without(before, t))
  }

  /** Without repeated types a write has one outcome. */
  lemma WrittenIsSetCondition(before: seq<Condition>, cond: Condition, now: int, after: seq<Condition>)
    requires Written(before, cond, now, after)
    ensures Keyed(before) ==> after == SetCondition(before, cond, now)
  {
    if Keyed(before) && !AlreadySet(before, cond) {
      AppendedKeyed(before, cond.(lastUpdate := now));
      SortedArrangementUnique(after, Without(before, cond.ctype) + [cond.(lastUpdate := now)]);
    }
  }

  /** Without repeated types an erase has one outcome. */
  lemma ErasedIsErase(before: seq<Condition>, t: ConditionType, after: seq<Condition>)
    requires Erased(before, t, after)
    ensures Keyed(before) ==> after == Erase(before, t)
  {
    if Keyed(before) && Lookup(before, t).Some? {
      WithoutKeyed(before, t);
      SortedArrangementUnique(after, Without(before, t));
    }
  }

  /** In a keyed list the early return of a write is decided by the first match alone. */
  lemma AlreadySetIsLookup(list: seq<Condition>, cond: Condition)
    requires Keyed(list)
    ensures AlreadySet(list, cond) <==>
            Lookup(list, cond.ctype).Some? && ContentOf(Lookup(list, cond.ctype).value) == ContentOf(cond)
  {
    LookupFinds(list, cond.ctype);
    if AlreadySet(list, cond) {
      var i :| 0 <= i < |list| && list[i].ctype == cond.ctype && ContentOf(list[i]) == ContentOf(cond);
      LookupIsMember(list, cond.ctype, list[i]);
    }
  }

  /** What any sort of a keyed list does to lookups: nothing. */
  lemma ArrangementLookup(a: seq<Condition>, b: seq<Condition>, t: ConditionType)
    requires Keyed(a) && Keyed(b) && multiset(a) == multiset(b)
    ensures Lookup(a, t) == Lookup(b, t)
  {
    LookupFinds(a, t);
    LookupFinds(b, t);
    assert forall c :: c in a <==> c in multiset(a);
    assert forall c :: c in b <==> c in multiset(b);
    if Lookup(a, t).Some? {
      LookupIsMember(a, t, Lookup(a, t).value);
      LookupIsMember(b, t, Lookup(a, t).value);
    }
  }

  lemma {:induction false} AppendedLookup(list: seq<Condition>, c: Condition, t: ConditionType)
    ensures Lookup(Without(list, c.ctype) + [c], t) == if t == c.ctype then Some(c) else Lookup(list, t)
  {
    var w := Without(list, c.ctype);
    if list == [] {
      assert Lookup([c][1..], t) == None;
    } else {
      AppendedLookup(list[1..], c, t);
      if list[0].ctype != c.ctype {
        assert (w + [c])[1..] == Without(list[1..], c.ctype) + [c];
      }
    }
  }

  lemma AppendedKeyed(list: seq<Condition>, c: Condition)
    requires Keyed(list)
    ensures Keyed(Without(list, c.ctype) + [c])
  {
    WithoutKeyed(list, c.ctype);
    WithoutMembers(list, c.ctype);
  }

  /** The abstract effect of a write: a map update of one type, skipped when the content is the same. */
  lemma SetConditionLookup(list: seq<Condition>, cond: Condition, now: int, t: ConditionType)
    requires Keyed(list)
    ensures Keyed(SetCondition(list, cond, now))
    ensures StrictlySorted(list) || !AlreadySet(list, cond) ==> StrictlySorted(SetCondition(list, cond, now))
    ensures Lookup(SetCondition(list, cond, now), t) ==
            if t == cond.ctype && !AlreadySet(list, cond) then Some(cond.(lastUpdate := now))
            else Lookup(list, t)
  {
    if !AlreadySet(list, cond) {
      var c := cond.(lastUpdate := now);
      var all := Without(list, cond.ctype) + [c];
      AppendedKeyed(list, c);
      SortByTypeSorts(all);
      StrictlySortedKeyed(SortByType(all));
      ArrangementLookup(SortByType(all), all, t);
      AppendedLookup(list, c, t);
    }
  }

  lemma {:induction false} WithoutLookup(list: seq<Condition>, u: ConditionType, t: ConditionType)
    ensures Lookup(Without(list, u), t) == if t == u then None else Lookup(list, t)
  {
    if list == [] {
    } else {
      WithoutLookup(list[1..], u, t);
    }
  }

  /** The abstract effect of an erase: a map removal of one type. */
  lemma EraseLookup(list: seq<Condition>, u: ConditionType, t: ConditionType)
    requires Keyed(list)
    ensures Keyed(Erase(list, u))
    ensures StrictlySorted(list) ==> StrictlySorted(Erase(list, u))
    ensures Lookup(Erase(list, u), t) == if t == u then None else Lookup(list, t)
  {
    if Lookup(list, u).Some? {
      WithoutKeyed(list, u);
      SortByTypeSorts(Without(list, u));
      StrictlySortedKeyed(Erase(list, u));
      ArrangementLookup(Erase(list, u), Without(list, u), t);
      WithoutLookup(list, u, t);
    }
  }
}
