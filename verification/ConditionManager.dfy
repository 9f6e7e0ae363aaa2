/**
 The condition manager as the operator runs it: a status object whose list of
 conditions is replaced by the manager's methods. Each method is tied to the
 operation on values that the run theorems speak about.
 */
module ConditionManagement {
  import opened Common
  import opened Conditions
  import opened ManagerRuns
  import opened Ordering

  class Status {
    var conditions: seq<Condition>

    constructor ()
      ensures conditions == []
    {
      conditions := [];
    }

    /** The first condition of the type. */
    method GetCondition(t: ConditionType) returns (r: Option<Condition>)
      ensures r == Lookup(conditions, t)
      ensures r.None? ==> forall i :: 0 <= i < |conditions| ==> conditions[i].ctype != t
      ensures r.Some? ==>
                exists k :: 0 <= k < |conditions| && conditions[k] == r.value && r.value.ctype == t &&
                            forall i :: 0 <= i < k ==> conditions[i].ctype != t
    {
      for i := 0 to |conditions|
        invariant Lookup(conditions, t) == Lookup(conditions[i..], t)
        invariant forall k :: 0 <= k < i ==> conditions[k].ctype != t
      {
        if conditions[i].ctype == t { return Some(conditions[i]); }
      }
      return None;
    }
  }

  // ------------------------------------------- finding an unready dependent

  /** Some stored condition other than ready has this status. */
  ghost predicate Has(list: seq<Condition>, ready: ConditionType, status: ConditionStatus) {
    exists c :: c in list && c.ctype != ready && c.status == status
  }

  /** `c` is such a condition, and none is more recent. */
  ghost predicate MostRecent(list: seq<Condition>, ready: ConditionType, status: ConditionStatus, c: Condition) {
    && c in list && c.ctype != ready && c.status == status
    && forall d :: d in list && d.ctype != ready && d.status == status ==> d.lastUpdate <= c.lastUpdate
  }

  const UNINITIALIZED := Condition("", IsUnknown, 0, "", "")

  /** The specification of `findUnreadyDependent`: False trumps Unknown, recent trumps old. */
  ghost predicate UnreadyDependent(m: Manager, list: seq<Condition>, r: Option<Condition>) {
    if Has(list, m.ready, IsFalse) then r.Some? && MostRecent(list, m.ready, IsFalse, r.value)
    else if Has(list, m.ready, IsUnknown) then r.Some? && MostRecent(list, m.ready, IsUnknown, r.value)
    else r == if |m.dependents| > |Without(list, m.ready)| then Some(Condition("", IsUnknown, 0, "", ""))
              else None
  }

  /** A condition that is not True is reported, or one that is worse or at least as recent is. */
  lemma UnreadyIsReported(m: Manager, list: seq<Condition>, r: Option<Condition>, c: Condition)
    requires UnreadyDependent(m, list, r) && c in list && c.ctype != m.ready && c.status != IsTrue
    ensures r.Some? && r.value in list && r.value.ctype != m.ready
    ensures (r.value.status == c.status && c.lastUpdate <= r.value.lastUpdate) ||
            (r.value.status == IsFalse && c.status == IsUnknown)
  {
    assert Has(list, m.ready, c.status);
  }

  /** Every stored condition other than ready is True. */
  ghost predicate AllTrue(m: Manager, list: seq<Condition>) {
    forall c :: c in list && c.ctype != m.ready ==> c.status == IsTrue
  }

  ghost function MissingDependents(m: Manager, list: seq<Condition>): set<ConditionType> {
    set d | d in m.dependents && Lookup(list, d).None?
  }

  ghost function ForeignTypes(m: Manager, list: seq<Condition>): set<ConditionType> {
    set c | c in list && c.ctype != m.ready && c.ctype !in m.dependents :: c.ctype
  }

  lemma {:induction false} DistinctSize<T>(s: seq<T>)
    requires Distinct(s)
    ensures |set x | x in s| == |s|
  {
    if s == [] {
    } else {
      DistinctSize(s[1..]);
      assert (set x | x in s) == {s[0]} + (set x | x in s[1..]);
    }
  }

  function Types(list: seq<Condition>): seq<ConditionType> {
    seq(|list|, i requires 0 <= i < |list| => list[i].ctype)
  }

  lemma TypesMembers(list: seq<Condition>, t: ConditionType)
    ensures t in Types(list) <==> exists c :: c in list && c.ctype == t
  {
    if t in Types(list) {
      var i :| 0 <= i < |list| && Types(list)[i] == t;
      assert list[i] in list;
    }
    if c :| c in list && c.ctype == t {
      var i :| 0 <= i < |list| && list[i] == c;
      assert Types(list)[i] == t;
    }
  }

  lemma SizesCompare<T>(d: set<T>, t: set<T>)
    ensures |d| > |t| <==> |d - t| > |t - d|
  {
    assert d == (d - t) + (d * t);
    assert t == (t - d) + (d * t);
    assert |d| == |d - t| + |d * t|;
    assert |t| == |t - d| + |d * t|;
  }

  /** The stored types other than ready, each once. */
  lemma StoredTypes(list: seq<Condition>, ready: ConditionType) returns (t: set<ConditionType>)
    requires Keyed(list)
    ensures |t| == |Without(list, ready)|
    ensures forall x :: x in t <==> exists c :: c in list && c.ctype != ready && c.ctype == x
  {
    var rest := Without(list, ready);
    WithoutKeyed(list, ready);
    WithoutMembers(list, ready);
    DistinctSize(Types(rest));
    t := set x | x in Types(rest);
    forall x ensures x in t <==> exists c :: c in list && c.ctype != ready && c.ctype == x {
      TypesMembers(rest, x);
    }
  }

  /** The length check compares how many dependents are missing with how many foreign types are stored. */
  lemma LengthCheck(m: Manager, list: seq<Condition>)
    requires Keyed(list) && Distinct(m.dependents) && m.ready !in m.dependents
    ensures |m.dependents| > |Without(list, m.ready)| <==>
            |MissingDependents(m, list)| > |ForeignTypes(m, list)|
  {
    var d := set x | x in m.dependents;
    var t := StoredTypes(list, m.ready);
    DistinctSize(m.dependents);
    assert MissingDependents(m, list) == d - t by {
      forall x ensures x in MissingDependents(m, list) <==> x in d - t { LookupFinds(list, x); }
    }
    assert ForeignTypes(m, list) == t - d;
    SizesCompare(d, t);
  }

  /** When nil is returned, exactly, whatever types are stored. */
  lemma NothingUnready(m: Manager, list: seq<Condition>, r: Option<Condition>)
    requires Keyed(list) && Distinct(m.dependents) && m.ready !in m.dependents
    requires UnreadyDependent(m, list, r)
    ensures r.None? <==> AllTrue(m, list) && |MissingDependents(m, list)| <= |ForeignTypes(m, list)|
  {
    LengthCheck(m, list);
    if AllTrue(m, list) {
    } else {
      var c :| c in list && c.ctype != m.ready && c.status != IsTrue;
      assert Has(list, m.ready, c.status);
    }
  }

  /** With only terminal types stored, nil means that every dependent is present and True. */
  lemma NothingUnreadyMeansReady(m: Manager, list: seq<Condition>, r: Option<Condition>)
    requires Keyed(list) && Distinct(m.dependents) && m.ready !in m.dependents
    requires UnreadyDependent(m, list, r)
    requires forall c :: c in list ==> c.ctype == m.ready || c.ctype in m.dependents
    ensures r.None? <==>
            forall d :: d in m.dependents ==> Lookup(list, d).Some? && Lookup(list, d).value.status == IsTrue
  {
    NothingUnready(m, list, r);
    assert ForeignTypes(m, list) == {};
    forall d ensures d in m.dependents ==> (Lookup(list, d).None? <==> d in MissingDependents(m, list)) { }
    if r.None? {
      forall d | d in m.dependents ensures True(Lookup(list, d)) {
        assert MissingDependents(m, list) == {};
        LookupFinds(list, d);
      }
    }
    if forall d :: d in m.dependents ==> True(Lookup(list, d)) {
      assert MissingDependents(m, list) == {};
      forall c | c in list && c.ctype != m.ready ensures c.status == IsTrue {
        LookupIsMember(list, c.ctype, c);
      }
    }
  }

  /** A foreign condition can hide a dependent that was never set. */
  lemma ForeignTypeHidesMissing()
    ensures
      var m := Manager("Running", ["Built"]);
      var list := [Condition("Custom", IsTrue, 1, "", "")];
      UnreadyDependent(m, list, None) && Lookup(list, "Built").None?
  {
    var m := Manager("Running", ["Built"]);
    var list := [Condition("Custom", IsTrue, 1, "", "")];
    assert list[1..] == [];
    assert Without(list, "Running") == list;
    assert !Has(list, m.ready, IsFalse) && !Has(list, m.ready, IsUnknown);
  }

  lemma {:induction false} WithoutAppend(a: seq<Condition>, c: Condition, t: ConditionType)
    ensures Without(a + [c], t) == if c.ctype == t then Without(a, t) else Without(a, t) + [c]
  {
    if a == [] {
      assert a + [c] == [c] && [c][1..] == [];
    } else {
      assert (a + [c])[1..] == a[1..] + [c];
      WithoutAppend(a[1..], c, t);
    }
  }

  /** One turn of a filter in place. */
  lemma FilterStep(list: seq<Condition>, cs: seq<Condition>, n: nat, i: nat, t: ConditionType)
    requires n <= i < |list| && |cs| == |list| && cs[..n] == Without(list[..i], t) && cs[i..] == list[i..]
    ensures
      var next := if cs[i].ctype == t then cs else cs[n := cs[i]];
      next[..if cs[i].ctype == t then n else n + 1] == Without(list[..i + 1], t) && next[i + 1..] == list[i + 1..]
  {
    assert cs[i] == cs[i..][0] == list[i..][0] == list[i];
    assert list[..i + 1] == list[..i] + [list[i]];
    WithoutAppend(list[..i], list[i], t);
    assert cs[i + 1..] == cs[i..][1..] == list[i..][1..] == list[i + 1..];
    var next := cs[n := cs[i]];
    assert next[..n + 1] == cs[..n] + [cs[i]];
    assert next[i + 1..] == cs[i + 1..];
  }

  predicate MoreRecent(a: Condition, b: Condition) { a.lastUpdate > b.lastUpdate }

  /** The first hit in a list sorted by time is a most recent one. */
  method FirstWithStatus(sorted: seq<Condition>, status: ConditionStatus) returns (r: Option<Condition>)
    requires SortedBy(MoreRecent, sorted)
    ensures r.None? ==> forall c :: c in sorted ==> c.status != status
    ensures r.Some? ==> r.value in sorted && r.value.status == status
    ensures r.Some? ==> forall c :: c in sorted && c.status == status ==> c.lastUpdate <= r.value.lastUpdate
  {
    for i := 0 to |sorted|
      invariant forall k :: 0 <= k < i ==> sorted[k].status != status
    {
      if sorted[i].status == status {
        forall k | i < k < |sorted| ensures sorted[k].lastUpdate <= sorted[i].lastUpdate {
          assert !MoreRecent(sorted[k], sorted[i]);
        }
        return Some(sorted[i]);
      }
    }
    return None;
  }

  // --------------------------------------------------------------- manager

  class ConditionManager {
    const reader: Status?
    const ready: ConditionType
    const dependents: seq<ConditionType>

    constructor (reader: Status?, ready: ConditionType, dependents: seq<ConditionType>)
      ensures this.reader == reader && this.ready == ready && this.dependents == dependents
    {
      this.reader, this.ready, this.dependents := reader, ready, dependents;
    }

    ghost function Config(): Manager {
      Manager(ready, dependents)
    }

    /** A write: on any list, and, when no type occurs twice, with one outcome. */
    method SetCondition(cond: Condition, now: int)
      modifies reader
      ensures reader != null ==> Written(old(reader.conditions), cond, now, reader.conditions)
      ensures reader != null && old(Keyed(reader.conditions)) ==>
                reader.conditions == Conditions.SetCondition(old(reader.conditions), cond, now)
    {
      if reader == null { return; }
      ghost var list := reader.conditions;
      var conditions: seq<Condition> := [];
      var written := cond;
      for i := 0 to |reader.conditions|
        invariant reader.conditions == list
        invariant written == cond.(lastUpdate := written.lastUpdate)
        invariant conditions == Without(list[..i], cond.ctype)
        invariant forall k :: 0 <= k < i ==> list[k].ctype != cond.ctype || ContentOf(list[k]) != ContentOf(cond)
      {
        var c := reader.conditions[i];
        assert list[..i + 1] == list[..i] + [c];
        WithoutAppend(list[..i], c, cond.ctype);
        if c.ctype != cond.ctype {
          conditions := conditions + [c];
        } else {
          written := written.(lastUpdate := c.lastUpdate);
          if written == c { return; }
        }
      }
      assert list[..|list|] == list && !AlreadySet(list, cond);
      written := written.(lastUpdate := now);
      assert written == cond.(lastUpdate := now);
      conditions := conditions + [written];
      TypeLessIsStrictWeakOrder();
      conditions := SortSlice(conditions, TypeLess);
      WrittenIsSetCondition(list, cond, now, conditions);
      reader.conditions := conditions;
    }

    method IsTerminal(t: ConditionType) returns (r: bool)
      ensures r <==> t in dependents || t == ready
    {
      for i := 0 to |dependents|
        invariant t !in dependents[..i]
      {
        if dependents[i] == t { return true; }
      }
      return t == ready;
    }

    /** Clearing a terminal condition is refused and changes nothing. */
    method ClearCondition(t: ConditionType) returns (ok: bool)
      modifies reader
      ensures ok <==> reader == null || (t !in dependents && t != ready)
      ensures reader != null ==>
                Outcome(Config(), old(reader.conditions), ManagerRuns.ClearCondition(t), reader.conditions)
      ensures reader != null && old(Keyed(reader.conditions)) ==>
                reader.conditions == Apply(Config(), old(reader.conditions), ManagerRuns.ClearCondition(t))
    {
      ok := EraseUnlessTerminal(t);
      if reader != null { ResultIsApply(old(reader.conditions), ManagerRuns.ClearCondition(t), reader.conditions); }
    }

    method EraseUnlessTerminal(t: ConditionType) returns (ok: bool)
      modifies reader
      ensures ok <==> reader == null || (t !in dependents && t != ready)
      ensures reader != null ==>
                if ok then Erased(old(reader.conditions), t, reader.conditions)
                else reader.conditions == old(reader.conditions)
    {
      if reader == null { return true; }
      var terminal := IsTerminal(t);
      if terminal { return false; }
      ghost var list := reader.conditions;
      var cond := reader.GetCondition(t);
      if cond.None? { return true; }
      var conditions: seq<Condition> := [];
      for i := 0 to |reader.conditions|
        invariant reader.conditions == list
        invariant conditions == Without(list[..i], t)
      {
        var c := reader.conditions[i];
        assert list[..i + 1] == list[..i] + [c];
        WithoutAppend(list[..i], c, t);
        if c.ctype != t { conditions := conditions + [c]; }
      }
      assert list[..|list|] == list;
      TypeLessIsStrictWeakOrder();
      conditions := SortSlice(conditions, TypeLess);
      reader.conditions := conditions;
      return true;
    }

    /** On a list without repeated types the outcome of a call is the step of a run. */
    lemma ResultIsApply(before: seq<Condition>, call: Call, after: seq<Condition>)
      requires Outcome(Config(), before, call, after)
      ensures Keyed(before) ==> after == Apply(Config(), before, call)
    {
      if Keyed(before) { OutcomeIsApply(Config(), before, call, after); }
    }

    method MarkTrue(t: ConditionType, now: int)
      modifies reader
      ensures reader != null ==>
                Outcome(Config(), old(reader.conditions), ManagerRuns.MarkTrue(t, now), reader.conditions)
      ensures reader != null && old(Keyed(reader.conditions)) ==>
                reader.conditions == Apply(Config(), old(reader.conditions), ManagerRuns.MarkTrue(t, now))
    {
      SetCondition(Condition(t, IsTrue, 0, "", ""), now);
      if reader != null { ResultIsApply(old(reader.conditions), ManagerRuns.MarkTrue(t, now), reader.conditions); }
    }

    method MarkTrueWithReason(t: ConditionType, reason: string, message: string, now: int)
      modifies reader
      ensures reader != null ==>
                Outcome(Config(), old(reader.conditions), ManagerRuns.MarkTrueWithReason(t, reason, message, now),
                        reader.conditions)
      ensures reader != null && old(Keyed(reader.conditions)) ==>
                reader.conditions ==
                Apply(Config(), old(reader.conditions), ManagerRuns.MarkTrueWithReason(t, reason, message, now))
    {
      SetCondition(Condition(t, IsTrue, 0, reason, message), now);
      if reader != null {
        var call := ManagerRuns.MarkTrueWithReason(t, reason, message, now);
        ResultIsApply(old(reader.conditions), call, reader.conditions);
      }
    }

    method MarkFalse(t: ConditionType, reason: string, message: string, now: int)
      modifies reader
      ensures reader != null ==>
                Outcome(Config(), old(reader.conditions), ManagerRuns.MarkFalse(t, reason, message, now),
                        reader.conditions)
      ensures reader != null && old(Keyed(reader.conditions)) ==>
                reader.conditions ==
                Apply(Config(), old(reader.conditions), ManagerRuns.MarkFalse(t, reason, message, now))
    {
      SetCondition(Condition(t, IsFalse, 0, reason, message), now);
      if reader != null {
        ResultIsApply(old(reader.conditions), ManagerRuns.MarkFalse(t, reason, message, now), reader.conditions);
      }
    }

    method MarkUnknown(t: ConditionType, reason: string, message: string, now: int, later: int)
      requires reader != null || dependents == []
      modifies reader
      ensures reader != null ==>
                Outcome(Config(), old(reader.conditions), ManagerRuns.MarkUnknown(t, reason, message, now, later),
                        reader.conditions)
      ensures reader != null && old(Keyed(reader.conditions)) ==>
                reader.conditions ==
                Apply(Config(), old(reader.conditions), ManagerRuns.MarkUnknown(t, reason, message, now, later))
    {
      SetCondition(Condition(t, IsUnknown, 0, reason, message), now);
      UpdateReady(t, reason, message, later);
      if reader != null {
        var call := ManagerRuns.MarkUnknown(t, reason, message, now, later);
        ResultIsApply(old(reader.conditions), call, reader.conditions);
      }
    }

    /** The dependents' check that follows the write of `MarkUnknown`. */
    method UpdateReady(t: ConditionType, reason: string, message: string, later: int)
      requires reader != null || dependents == []
      modifies reader
      ensures reader != null ==>
                Took(old(reader.conditions), ReadyFollowUp(Config(), old(reader.conditions), t, reason, message, later),
                     reader.conditions)
    {
      var isDependent := false;
      for i := 0 to |dependents|
        invariant reader != null ==> reader.conditions == old(reader.conditions)
        invariant reader != null ==> forall k :: 0 <= k < i ==> !False(Lookup(reader.conditions, dependents[k]))
        invariant isDependent <==> t in dependents[..i]
      {
        var c := reader.GetCondition(dependents[i]);
        if False(c) {
          var readyCondition := reader.GetCondition(ready);
          if !False(readyCondition) { MarkFalse(ready, reason, message, later); }
          return;
        }
        if dependents[i] == t { isDependent := true; }
      }
      if isDependent { SetCondition(Condition(ready, IsUnknown, 0, reason, message), later); }
    }

    method InitializeConditions(clock: nat -> int)
      requires reader != null
      modifies reader
      ensures Outcome(Config(), old(reader.conditions), ManagerRuns.InitializeConditions(clock), reader.conditions)
      ensures old(Keyed(reader.conditions)) ==>
                reader.conditions == Apply(Config(), old(reader.conditions), ManagerRuns.InitializeConditions(clock))
    {
      var readyCondition := reader.GetCondition(ready);
      var status := if True(readyCondition) then IsTrue else IsUnknown;
      if readyCondition.None? { SetCondition(Condition(ready, IsUnknown, 0, "", ""), clock(0)); }
      ghost var lists := InitializeDependents(status, clock);
      ResultIsApply(old(reader.conditions), ManagerRuns.InitializeConditions(clock), reader.conditions);
    }

    /** The loop over the dependents, and the lists it goes through. */
    method InitializeDependents(status: ConditionStatus, clock: nat -> int) returns (ghost lists: seq<seq<Condition>>)
      requires reader != null
      modifies reader
      ensures AddsDependents(lists, dependents, status, clock)
      ensures lists[0] == old(reader.conditions) && lists[|dependents|] == reader.conditions
    {
      lists := [reader.conditions];
      for i := 0 to |dependents|
        invariant |lists| == i + 1 && lists[0] == old(reader.conditions) && lists[i] == reader.conditions
        invariant forall k: nat :: k < i ==> AddsDependent(lists, dependents, status, clock, k)
      {
        ghost var before := lists;
        InitializeTerminalCondition(dependents[i], status, clock(i + 1));
        lists := lists + [reader.conditions];
        forall k: nat | k < i ensures AddsDependent(lists, dependents, status, clock, k) {
          assert AddsDependent(before, dependents, status, clock, k);
        }
      }
    }

    method InitializeTerminalCondition(t: ConditionType, status: ConditionStatus, now: int)
      requires reader != null
      modifies reader
      ensures Took(old(reader.conditions), InitDependent(old(reader.conditions), t, status, now), reader.conditions)
    {
      var c := reader.GetCondition(t);
      if c.Some? { return; }
      SetCondition(Condition(t, status, 0, "", ""), now);
    }

    /** Filters a copy in place: what is not ready moves to the front. */
    method WithoutReady() returns (conditions: seq<Condition>)
      requires reader != null
      ensures conditions == Without(reader.conditions, ready)
    {
      ghost var list := reader.conditions;
      conditions := reader.conditions;
      var n := 0;
      for i := 0 to |conditions|
        invariant |conditions| == |list| && 0 <= n <= i
        invariant conditions[..n] == Without(list[..i], ready)
        invariant conditions[i..] == list[i..]
      {
        FilterStep(list, conditions, n, i, ready);
        var c := conditions[i];
        if c.ctype != ready {
          conditions := conditions[n := c];
          n := n + 1;
        }
      }
      assert list[..|list|] == list;
      conditions := conditions[..n];
    }

    /** Sorts what is not ready by time and scans it twice; the stored list is not touched. */
    method FindUnreadyDependent() returns (r: Option<Condition>)
      requires reader != null
      ensures UnreadyDependent(Config(), reader.conditions, r)
    {
      var rest := WithoutReady();
      WithoutMembers(reader.conditions, ready);
      var conditions := SortSlice(rest, MoreRecent);
      forall c ensures c in conditions <==> c in reader.conditions && c.ctype != ready {
        assert c in conditions <==> c in multiset(conditions);
        assert c in rest <==> c in multiset(rest);
      }
      r := FirstWithStatus(conditions, IsFalse);
      if r.Some? { return; }
      r := FirstWithStatus(conditions, IsUnknown);
      if r.Some? { return; }
      assert |conditions| == |multiset(conditions)| == |multiset(rest)| == |rest|;
      if |dependents| > |conditions| { return Some(UNINITIALIZED); }
      return None;
    }
  }

  lemma TypeLessIsStrictWeakOrder()
    ensures StrictWeakOrder(TypeLess)
  {
    LessIsStrictOrder();
  }
}
