/**
 The condition manager over whole runs. Every operation is a sequence of
 primitive events, writes and erases of one type. A run is compared with its
 event history, which speaks only of events and never of a list.
 */
module ManagerRuns {
  import opened Common
  import opened Conditions
  import opened Ordering

  datatype Manager = Manager(ready: ConditionType, dependents: seq<ConditionType>)

  predicate Terminal(m: Manager, t: ConditionType) {
    t in m.dependents || t == m.ready
  }

  // ---------------------------------------------------------------- events

  /** `cond.lastUpdate` is irrelevant in a write: the stored time is `now`. */
  datatype Event = Write(cond: Condition, now: int) | Remove(t: ConditionType)

  function TypeOf(e: Event): ConditionType {
    match e case Write(c, _) => c.ctype case Remove(t) => t
  }

  function ApplyEvent(list: seq<Condition>, e: Event): seq<Condition> {
    match e
    case Write(c, now) => SetCondition(list, c, now)
    case Remove(t) => Erase(list, t)
  }

  function Replay(list: seq<Condition>, es: seq<Event>): seq<Condition> {
    if es == [] then list else ApplyEvent(Replay(list, es[..|es| - 1]), es[|es| - 1])
  }

  lemma {:induction false} ReplayAppend(list: seq<Condition>, a: seq<Event>, b: seq<Event>)
    ensures Replay(list, a + b) == Replay(Replay(list, a), b)
  {
    if b == [] {
      assert a + b == a;
    } else {
      assert (a + b)[..|a + b| - 1] == a + b[..|b| - 1];
      ReplayAppend(list, a, b[..|b| - 1]);
    }
  }

  // ------------------------------------------------------------ operations

  /** One call on the manager, with the clock readings its writes use. */
  datatype Call =
    | MarkTrue(t: ConditionType, now: int)
    | MarkTrueWithReason(t: ConditionType, reason: string, message: string, now: int)
    | MarkFalse(t: ConditionType, reason: string, message: string, now: int)
    | MarkUnknown(t: ConditionType, reason: string, message: string, now: int, later: int)
    | ClearCondition(t: ConditionType)
    | InitializeConditions(clock: nat -> int)

  /** The second write of `MarkUnknown`, given the list its first write left. */
  function ReadyFollowUp(m: Manager, list: seq<Condition>, t: ConditionType, reason: string, message: string,
                         later: int): seq<Event>
  {
    if exists d :: d in m.dependents && False(Lookup(list, d)) then
      if False(Lookup(list, m.ready)) then []
      else [Write(Condition(m.ready, IsFalse, 0, reason, message), later)]
    else if t in m.dependents then
      [Write(Condition(m.ready, IsUnknown, 0, reason, message), later)]
    else []
  }

  /** The status `InitializeConditions` gives a missing dependent. */
  function InitialStatus(m: Manager, list: seq<Condition>): ConditionStatus {
    if True(Lookup(list, m.ready)) then IsTrue else IsUnknown
  }

  function InitReady(m: Manager, list: seq<Condition>, now: int): seq<Event> {
    if Lookup(list, m.ready).Some? then [] else [Write(Condition(m.ready, IsUnknown, 0, "", ""), now)]
  }

  function InitDependents(list: seq<Condition>, deps: seq<ConditionType>, status: ConditionStatus, i: nat,
                          clock: nat -> int): seq<Event>
    requires i <= |deps|
    decreases |deps| - i
  {
    if i == |deps| then []
    else if Lookup(list, deps[i]).Some? then InitDependents(list, deps, status, i + 1, clock)
    else
      var e := Write(Condition(deps[i], status, 0, "", ""), clock(i + 1));
      [e] + InitDependents(ApplyEvent(list, e), deps, status, i + 1, clock)
  }

  /** The write for dependent `t`, if it is missing. */
  function InitDependent(list: seq<Condition>, t: ConditionType, status: ConditionStatus, now: int): seq<Event> {
    if Lookup(list, t).Some? then [] else [Write(Condition(t, status, 0, "", ""), now)]
  }

  /** The primitive events a call issues on a given list. */
  function Events(m: Manager, list: seq<Condition>, call: Call): seq<Event> {
    match call
    case MarkTrue(t, now) => [Write(Condition(t, IsTrue, 0, "", ""), now)]
    case MarkTrueWithReason(t, reason, message, now) => [Write(Condition(t, IsTrue, 0, reason, message), now)]
    case MarkFalse(t, reason, message, now) => [Write(Condition(t, IsFalse, 0, reason, message), now)]
    case MarkUnknown(t, reason, message, now, later) =>
      var e := Write(Condition(t, IsUnknown, 0, reason, message), now);
      [e] + ReadyFollowUp(m, ApplyEvent(list, e), t, reason, message, later)
    case ClearCondition(t) => if Terminal(m, t) then [] else [Remove(t)]
    case InitializeConditions(clock) =>
      var first := InitReady(m, list, clock(0));
      first + InitDependents(Replay(list, first), m.dependents, InitialStatus(m, list), 0, clock)
  }

  function Apply(m: Manager, list: seq<Condition>, call: Call): seq<Condition> {
    Replay(list, Events(m, list, call))
  }

  // ------------------------------------------- outcomes on any list at all

  /** What at most one event leaves, for any list. */
  ghost predicate Took(before: seq<Condition>, es: seq<Event>, after: seq<Condition>)
    requires |es| <= 1
  {
    if es == [] then after == before
    else match es[0]
      case Write(c, now) => Written(before, c, now, after)
      case Remove(t) => Erased(before, t, after)
  }

  /** Turn `i` of the dependents' loop leads from the `i`-th list to the next. */
  ghost predicate AddsDependent(lists: seq<seq<Condition>>, deps: seq<ConditionType>, status: ConditionStatus,
                                clock: nat -> int, i: nat)
    requires i < |deps| && |lists| > i + 1
  {
    Took(lists[i], InitDependent(lists[i], deps[i], status, clock(i + 1)), lists[i + 1])
  }

  /** The lists that the dependents' loop goes through. */
  ghost predicate AddsDependents(lists: seq<seq<Condition>>, deps: seq<ConditionType>, status: ConditionStatus,
                                 clock: nat -> int)
  {
    && |lists| == |deps| + 1
    && forall i: nat :: i < |deps| ==> AddsDependent(lists, deps, status, clock, i)
  }

  /** What a call leaves, for any list, repeated types included. */
  ghost predicate Outcome(m: Manager, before: seq<Condition>, call: Call, after: seq<Condition>) {
    match call
    case MarkUnknown(t, reason, message, now, later) =>
      exists mid :: Written(before, Condition(t, IsUnknown, 0, reason, message), now, mid) &&
                    Took(mid, ReadyFollowUp(m, mid, t, reason, message, later), after)
    case InitializeConditions(clock) =>
      exists lists :: AddsDependents(lists, m.dependents, InitialStatus(m, before), clock) &&
                      Took(before, InitReady(m, before, clock(0)), lists[0]) &&
                      lists[|m.dependents|] == after
    case _ => Took(before, Events(m, before, call), after)
  }

  lemma TookIsReplay(before: seq<Condition>, es: seq<Event>, after: seq<Condition>)
    requires Keyed(before) && |es| <= 1 && Took(before, es, after)
    ensures Keyed(after) && after == Replay(before, es)
  {
    if es != [] {
      assert Replay(before, es[..0]) == before;
      match es[0]
      case Write(c, now) =>
        WrittenIsSetCondition(before, c, now, after);
        SetConditionLookup(before, c, now, c.ctype);
      case Remove(t) =>
        ErasedIsErase(before, t, after);
        EraseLookup(before, t, t);
    }
  }

  lemma InitDependentsStep(list: seq<Condition>, deps: seq<ConditionType>, status: ConditionStatus,
                           i: nat, clock: nat -> int)
    requires i < |deps|
    ensures
      var es := InitDependent(list, deps[i], status, clock(i + 1));
      InitDependents(list, deps, status, i, clock) == es + InitDependents(Replay(list, es), deps, status, i + 1, clock)
  {
    var es := InitDependent(list, deps[i], status, clock(i + 1));
    if es != [] { assert Replay(list, es[..0]) == list; }
  }

  lemma {:induction false} AddsDependentsIsReplay(lists: seq<seq<Condition>>, deps: seq<ConditionType>,
                                                  status: ConditionStatus, clock: nat -> int, i: nat)
    requires i <= |deps| && AddsDependents(lists, deps, status, clock) && Keyed(lists[i])
    ensures Replay(lists[i], InitDependents(lists[i], deps, status, i, clock)) == lists[|deps|]
    decreases |deps| - i
  {
    if i == |deps| {
    } else {
      assert AddsDependent(lists, deps, status, clock, i);
      DependentAdded(lists[i], lists[i + 1], deps, status, i, clock);
      AddsDependentsIsReplay(lists, deps, status, clock, i + 1);
    }
  }

  lemma DependentAdded(a: seq<Condition>, b: seq<Condition>, deps: seq<ConditionType>,
                       status: ConditionStatus, i: nat, clock: nat -> int)
    requires i < |deps| && Keyed(a) && Took(a, InitDependent(a, deps[i], status, clock(i + 1)), b)
    ensures Keyed(b)
    ensures Replay(a, InitDependents(a, deps, status, i, clock)) ==
            Replay(b, InitDependents(b, deps, status, i + 1, clock))
  {
    var es := InitDependent(a, deps[i], status, clock(i + 1));
    TookIsReplay(a, es, b);
    InitDependentsStep(a, deps, status, i, clock);
    ReplayAppend(a, es, InitDependents(b, deps, status, i + 1, clock));
  }

  lemma UnknownIsApply(m: Manager, before: seq<Condition>, call: Call, mid: seq<Condition>, after: seq<Condition>)
    requires Keyed(before) && call.MarkUnknown?
    requires Written(before, Condition(call.t, IsUnknown, 0, call.reason, call.message), call.now, mid)
    requires Took(mid, ReadyFollowUp(m, mid, call.t, call.reason, call.message, call.later), after)
    ensures Keyed(after) && after == Apply(m, before, call)
  {
    var e := Write(Condition(call.t, IsUnknown, 0, call.reason, call.message), call.now);
    var more := ReadyFollowUp(m, mid, call.t, call.reason, call.message, call.later);
    WrittenIsSetCondition(before, e.cond, call.now, mid);
    TookIsReplay(before, [e], mid);
    TookIsReplay(mid, more, after);
    ReplayAppend(before, [e], more);
  }

  lemma InitializeIsApply(m: Manager, before: seq<Condition>, clock: nat -> int, lists: seq<seq<Condition>>)
    requires Keyed(before) && AddsDependents(lists, m.dependents, InitialStatus(m, before), clock)
    requires Took(before, InitReady(m, before, clock(0)), lists[0])
    ensures lists[|m.dependents|] == Apply(m, before, InitializeConditions(clock))
  {
    var first := InitReady(m, before, clock(0));
    TookIsReplay(before, first, lists[0]);
    AddsDependentsIsReplay(lists, m.dependents, InitialStatus(m, before), clock, 0);
    ReplayAppend(before, first, InitDependents(lists[0], m.dependents, InitialStatus(m, before), 0, clock));
  }

  lemma UnknownOutcomeIsApply(m: Manager, before: seq<Condition>, call: Call, after: seq<Condition>)
    requires Keyed(before) && call.MarkUnknown? && Outcome(m, before, call, after)
    ensures Keyed(after) && after == Apply(m, before, call)
  {
    var mid :| Written(before, Condition(call.t, IsUnknown, 0, call.reason, call.message), call.now, mid) &&
               Took(mid, ReadyFollowUp(m, mid, call.t, call.reason, call.message, call.later), after);
    UnknownIsApply(m, before, call, mid, after);
  }

  lemma InitializeOutcomeIsApply(m: Manager, before: seq<Condition>, call: Call, after: seq<Condition>)
    requires Keyed(before) && call.InitializeConditions? && Outcome(m, before, call, after)
    ensures Keyed(after) && after == Apply(m, before, call)
  {
    var lists :| AddsDependents(lists, m.dependents, InitialStatus(m, before), call.clock) &&
                 Took(before, InitReady(m, before, call.clock(0)), lists[0]) && lists[|m.dependents|] == after;
    InitializeIsApply(m, before, call.clock, lists);
    ReplayKeepsKeyed(before, Events(m, before, call));
  }

  /** Without repeated types a call has one outcome: the step of a run. */
  lemma OutcomeIsApply(m: Manager, before: seq<Condition>, call: Call, after: seq<Condition>)
    requires Keyed(before) && Outcome(m, before, call, after)
    ensures Keyed(after) && after == Apply(m, before, call)
  {
    if call.MarkUnknown? {
      UnknownOutcomeIsApply(m, before, call, after);
    } else if call.InitializeConditions? {
      InitializeOutcomeIsApply(m, before, call, after);
    } else {
      TookIsReplay(before, Events(m, before, call), after);
    }
  }

  lemma {:induction false} ReplayKeepsKeyed(list: seq<Condition>, es: seq<Event>)
    requires Keyed(list)
    ensures Keyed(Replay(list, es))
  {
    if es == [] {
    } else {
      var front, last := es[..|es| - 1], es[|es| - 1];
      ReplayKeepsKeyed(list, front);
      match last
      case Write(c, now) => SetConditionLookup(Replay(list, front), c, now, c.ctype);
      case Remove(t) => EraseLookup(Replay(list, front), t, t);
    }
  }

  // ------------------------------------------------------------------- runs

  function Run(m: Manager, list: seq<Condition>, calls: seq<Call>): seq<Condition>
    decreases |calls|
  {
    if calls == [] then list else Run(m, Apply(m, list, calls[0]), calls[1..])
  }

  /** All primitive events of a run, in order. */
  function History(m: Manager, list: seq<Condition>, calls: seq<Call>): seq<Event>
    decreases |calls|
  {
    if calls == [] then []
    else Events(m, list, calls[0]) + History(m, Apply(m, list, calls[0]), calls[1..])
  }

  lemma {:induction false} RunIsHistory(m: Manager, list: seq<Condition>, calls: seq<Call>)
    ensures Run(m, list, calls) == Replay(list, History(m, list, calls))
    decreases |calls|
  {
    if calls == [] {
    } else {
      var next := Apply(m, list, calls[0]);
      RunIsHistory(m, next, calls[1..]);
      ReplayAppend(list, Events(m, list, calls[0]), History(m, next, calls[1..]));
    }
  }

  // --------------------------------------------------- history of one type

  /** The content the last event about `t` left, if that event was a write. */
  function ContentAfter(es: seq<Event>, t: ConditionType): Option<Content> {
    if es == [] then None
    else
      var last := es[|es| - 1];
      if TypeOf(last) != t then ContentAfter(es[..|es| - 1], t)
      else match last case Write(c, _) => Some(ContentOf(c)) case Remove(_) => None
  }

  /** Event `i` wrote new content for `t`, and every later event about `t` wrote that same content. */
  ghost predicate LastChange(es: seq<Event>, t: ConditionType, i: int) {
    && 0 <= i < |es|
    && es[i].Write? && es[i].cond.ctype == t
    && ContentAfter(es[..i], t) != Some(ContentOf(es[i].cond))
    && forall j :: i < j < |es| && TypeOf(es[j]) == t ==> es[j].Write? && ContentOf(es[j].cond) == ContentOf(es[i].cond)
  }

  ghost predicate Agrees(list: seq<Condition>, es: seq<Event>, t: ConditionType) {
    match Lookup(list, t)
    case None => ContentAfter(es, t) == None
    case Some(c) =>
      && c.ctype == t
      && ContentAfter(es, t) == Some(ContentOf(c))
      && exists i :: LastChange(es, t, i) && c.lastUpdate == es[i].now
  }

  /** There is at most one last change, so its time is the time. */
  lemma LastChangeUnique(es: seq<Event>, t: ConditionType, i: int, j: int)
    requires LastChange(es, t, i) && LastChange(es, t, j)
    ensures i == j
  {
    if i < j { ContentHeld(es, t, i, j); }
    if j < i { ContentHeld(es, t, j, i); }
  }

  lemma {:induction false} ContentHeld(es: seq<Event>, t: ConditionType, i: int, k: int)
    requires LastChange(es, t, i) && i < k <= |es|
    ensures ContentAfter(es[..k], t) == Some(ContentOf(es[i].cond))
  {
    assert es[..k][..k - 1] == es[..k - 1];
    if k > i + 1 { ContentHeld(es, t, i, k - 1); }
  }

  lemma LastChangeExtends(es: seq<Event>, e: Event, t: ConditionType, i: int)
    requires LastChange(es, t, i)
    requires TypeOf(e) != t || (e.Write? && ContentOf(e.cond) == ContentOf(es[i].cond))
    ensures LastChange(es + [e], t, i)
  {
    assert (es + [e])[..i] == es[..i];
  }

  lemma AgreesStep(list: seq<Condition>, es: seq<Event>, e: Event, t: ConditionType)
    requires StrictlySorted(list) && Agrees(list, es, t)
    ensures Agrees(ApplyEvent(list, e), es + [e], t)
  {
    assert (es + [e])[..|es|] == es;
    StrictlySortedKeyed(list);
    match e
    case Remove(u) =>
      EraseLookup(list, u, t);
      if u != t && Lookup(list, t).Some? {
        var i :| LastChange(es, t, i) && Lookup(list, t).value.lastUpdate == es[i].now;
        LastChangeExtends(es, e, t, i);
      }
    case Write(c, now) =>
      SetConditionLookup(list, c, now, t);
      AlreadySetIsLookup(list, c);
      if c.ctype == t && !AlreadySet(list, c) {
        assert LastChange(es + [e], t, |es|);
      } else if Lookup(list, t).Some? {
        var i :| LastChange(es, t, i) && Lookup(list, t).value.lastUpdate == es[i].now;
        ContentHeld(es, t, i, |es|);
        assert es[..|es|] == es;
        LastChangeExtends(es, e, t, i);
      }
  }

  lemma EventKeepsSorted(list: seq<Condition>, e: Event)
    requires StrictlySorted(list)
    ensures StrictlySorted(ApplyEvent(list, e))
  {
    StrictlySortedKeyed(list);
    match e
    case Write(c, now) => SetConditionLookup(list, c, now, c.ctype);
    case Remove(t) => EraseLookup(list, t, t);
  }

  /** A replay from an empty list stays strictly sorted and says exactly what its history says. */
  lemma {:induction false} ReplayAgrees(es: seq<Event>, t: ConditionType)
    ensures StrictlySorted(Replay([], es))
    ensures Agrees(Replay([], es), es, t)
  {
    if es == [] {
    } else {
      var front, last := es[..|es| - 1], es[|es| - 1];
      ReplayAgrees(front, t);
      EventKeepsSorted(Replay([], front), last);
      AgreesStep(Replay([], front), front, last, t);
      assert es == front + [last];
    }
  }

  /** Main theorem: every run of manager calls from an empty status. */
  lemma RunAgrees(m: Manager, calls: seq<Call>, t: ConditionType)
    ensures StrictlySorted(Run(m, [], calls))
    ensures Agrees(Run(m, [], calls), History(m, [], calls), t)
  {
    RunIsHistory(m, [], calls);
    ReplayAgrees(History(m, [], calls), t);
  }

  // ------------------------------------------------------------------ time

  ghost predicate Chronological(es: seq<Event>) {
    forall i, j :: 0 <= i < j < |es| && es[i].Write? && es[j].Write? ==> es[i].now <= es[j].now
  }

  /** While a type is not erased, its update time never goes back. */
  lemma {:induction false} TimeNeverDecreases(es: seq<Event>, k: nat, t: ConditionType)
    requires k <= |es| && Chronological(es)
    requires Lookup(Replay([], es[..k]), t).Some?
    requires forall j :: k <= j < |es| ==> es[j] != Remove(t)
    ensures Lookup(Replay([], es), t).Some?
    ensures Lookup(Replay([], es[..k]), t).value.lastUpdate <= Lookup(Replay([], es), t).value.lastUpdate
  {
    if k == |es| {
      assert es[..k] == es;
    } else {
      var front, last := es[..|es| - 1], es[|es| - 1];
      assert front[..k] == es[..k];
      TimeNeverDecreases(front, k, t);
      ReplayAgrees(front, t);
      var list := Replay([], front);
      StrictlySortedKeyed(list);
      var i :| LastChange(front, t, i) && Lookup(list, t).value.lastUpdate == front[i].now;
      assert front[i] == es[i];
      match last
      case Write(c, now) => SetConditionLookup(list, c, now, t);
      case Remove(u) => EraseLookup(list, u, t);
    }
  }

  // --------------------------------------------------------------- marking

  /** A stored condition after a write of `c`: itself if it differs from `c` in its time only, otherwise `c`. */
  function Stamped(was: Option<Condition>, c: Condition): Option<Condition> {
    if was.Some? && was.value == c.(lastUpdate := was.value.lastUpdate) then was else Some(c)
  }

  /** What a lookup of `u` finds after a write of `c`. */
  function LookupAfter(list: seq<Condition>, c: Condition, u: ConditionType): Option<Condition> {
    if u == c.ctype then Stamped(Lookup(list, u), c) else Lookup(list, u)
  }

  lemma WriteOutcome(list: seq<Condition>, c: Condition, now: int, u: ConditionType)
    requires Keyed(list)
    ensures Keyed(SetCondition(list, c, now))
    ensures Lookup(SetCondition(list, c, now), u) == LookupAfter(list, c.(lastUpdate := now), u)
  {
    SetConditionLookup(list, c, now, u);
    AlreadySetIsLookup(list, c);
    LookupFinds(list, u);
  }

  lemma OneEvent(list: seq<Condition>, e: Event)
    ensures Replay(list, [e]) == ApplyEvent(list, e)
  {
    assert Replay(list, [e][..0]) == list;
  }

  /** `MarkTrue`, `MarkTrueWithReason` and `MarkFalse` write one condition and no other, ready included. */
  lemma MarkOutcome(m: Manager, list: seq<Condition>, call: Call, u: ConditionType)
    requires Keyed(list) && (call.MarkTrue? || call.MarkTrueWithReason? || call.MarkFalse?)
    ensures Keyed(Apply(m, list, call))
    ensures u != call.t ==> Lookup(Apply(m, list, call), u) == Lookup(list, u)
    ensures
      Lookup(Apply(m, list, call), call.t) ==
      Stamped(Lookup(list, call.t),
              match call
              case MarkTrue(t, now) => Condition(t, IsTrue, now, "", "")
              case MarkTrueWithReason(t, reason, message, now) => Condition(t, IsTrue, now, reason, message)
              case MarkFalse(t, reason, message, now) => Condition(t, IsFalse, now, reason, message))
  {
    var e := Events(m, list, call)[0];
    OneEvent(list, e);
    WriteOutcome(list, e.cond, e.now, u);
    WriteOutcome(list, e.cond, e.now, call.t);
  }

  /** What `MarkUnknown` leaves: its own condition, and then ready, made False as long as a dependent is False. */
  lemma MarkUnknownOutcome(m: Manager, list: seq<Condition>, t: ConditionType, reason: string, message: string,
                           now: int, later: int)
    requires Keyed(list)
    ensures
      var after := Apply(m, list, MarkUnknown(t, reason, message, now, later));
      var first := Condition(t, IsUnknown, now, reason, message);
      var ready := LookupAfter(list, first, m.ready);
      && Keyed(after)
      && (forall u :: u != m.ready ==> Lookup(after, u) == LookupAfter(list, first, u))
      && Lookup(after, m.ready) ==
         if exists d :: d in m.dependents && LookupAfter(list, first, d).Some? &&
                        LookupAfter(list, first, d).value.status == IsFalse
         then if ready.Some? && ready.value.status == IsFalse then ready
              else Some(Condition(m.ready, IsFalse, later, reason, message))
         else if t in m.dependents then Stamped(ready, Condition(m.ready, IsUnknown, later, reason, message))
         else ready
  {
    var e := Write(Condition(t, IsUnknown, 0, reason, message), now);
    var mid := ApplyEvent(list, e);
    var more := ReadyFollowUp(m, mid, t, reason, message, later);
    ReplayAppend(list, [e], more);
    OneEvent(list, e);
    WriteOutcome(list, e.cond, now, t);
    forall u ensures Lookup(mid, u) == LookupAfter(list, e.cond.(lastUpdate := now), u) {
      WriteOutcome(list, e.cond, now, u);
    }
    if more != [] {
      assert more == [more[0]];
      OneEvent(mid, more[0]);
      WriteOutcome(mid, more[0].cond, later, t);
      forall u ensures Lookup(ApplyEvent(mid, more[0]), u) ==
                       LookupAfter(mid, more[0].cond.(lastUpdate := later), u) {
        WriteOutcome(mid, more[0].cond, later, u);
      }
    }
  }

  /** Whatever is marked Unknown, a False dependent leaves ready False. */
  lemma FalseDependentMakesReadyFalse(m: Manager, list: seq<Condition>, call: Call, d: ConditionType)
    requires Keyed(list) && call.MarkUnknown? && d in m.dependents && d != m.ready && d != call.t
    requires Lookup(list, d).Some? && Lookup(list, d).value.status == IsFalse
    ensures
      var after := Apply(m, list, call);
      && Lookup(after, d) == Lookup(list, d)
      && Lookup(after, m.ready).Some? && Lookup(after, m.ready).value.status == IsFalse
  {
    MarkUnknownOutcome(m, list, call.t, call.reason, call.message, call.now, call.later);
  }

  /** `ClearCondition` removes its type, unless that is ready or a dependent, and no other. */
  lemma ClearOutcome(m: Manager, list: seq<Condition>, t: ConditionType, u: ConditionType)
    requires Keyed(list)
    ensures Keyed(Apply(m, list, ClearCondition(t)))
    ensures Lookup(Apply(m, list, ClearCondition(t)), u) ==
            if u == t && t != m.ready && t !in m.dependents then None else Lookup(list, u)
  {
    OneEvent(list, Remove(t));
    EraseLookup(list, t, u);
  }

  // --------------------------------------------------- InitializeConditions

  /** Ready and every dependent are present. */
  ghost predicate Initialized(m: Manager, list: seq<Condition>) {
    forall t :: t == m.ready || t in m.dependents ==> Lookup(list, t).Some?
  }

  /** `t` stands at `k` in the dependents from `i` on, and not before. */
  ghost predicate FirstAt(deps: seq<ConditionType>, i: nat, t: ConditionType, k: nat) {
    i <= k < |deps| && deps[k] == t && forall j :: i <= j < k ==> deps[j] != t
  }

  /** What the dependents' loop leaves: old lookups kept, missing dependents from `i` on added. */
  lemma {:induction false} InitDependentsOutcome(list: seq<Condition>, deps: seq<ConditionType>,
                                                 status: ConditionStatus, i: nat, clock: nat -> int, t: ConditionType)
    requires Keyed(list) && i <= |deps|
    ensures
      var after := Replay(list, InitDependents(list, deps, status, i, clock));
      && Keyed(after)
      && (Lookup(list, t).Some? || t !in deps[i..] ==> Lookup(after, t) == Lookup(list, t))
      && (Lookup(list, t).None? ==>
            forall k: nat | FirstAt(deps, i, t, k) ::
              Lookup(after, t) == Some(Condition(t, status, clock(k + 1), "", "")))
    decreases |deps| - i
  {
    if i == |deps| {
    } else {
      assert deps[i..] == [deps[i]] + deps[i + 1..];
      forall k: nat | FirstAt(deps, i, t, k) ensures (deps[i] == t && k == i) || FirstAt(deps, i + 1, t, k) { }
      if Lookup(list, deps[i]).Some? {
        InitDependentsOutcome(list, deps, status, i + 1, clock, t);
      } else {
        var e := Write(Condition(deps[i], status, 0, "", ""), clock(i + 1));
        var mid := ApplyEvent(list, e);
        WriteOutcome(list, e.cond, e.now, t);
        InitDependentsOutcome(mid, deps, status, i + 1, clock, t);
        ReplayAppend(list, [e], InitDependents(mid, deps, status, i + 1, clock));
        OneEvent(list, e);
      }
    }
  }

  lemma InitReadyOutcome(m: Manager, list: seq<Condition>, now: int, t: ConditionType)
    requires Keyed(list)
    ensures
      var mid := Replay(list, InitReady(m, list, now));
      && Keyed(mid)
      && Lookup(mid, t) == if t == m.ready && Lookup(list, t).None? then Some(Condition(t, IsUnknown, now, "", ""))
                           else Lookup(list, t)
  {
    if Lookup(list, m.ready).None? {
      var c := Condition(m.ready, IsUnknown, 0, "", "");
      OneEvent(list, Write(c, now));
      WriteOutcome(list, c, now, t);
    }
  }

  /** `InitializeConditions` keeps what is there and adds ready and every missing dependent, and no other type. */
  lemma InitializeOutcome(m: Manager, list: seq<Condition>, clock: nat -> int, t: ConditionType)
    requires Keyed(list)
    ensures
      var after := Apply(m, list, InitializeConditions(clock));
      var ready := Lookup(list, m.ready);
      && Keyed(after)
      && (Lookup(list, t).Some? || (t != m.ready && t !in m.dependents) ==> Lookup(after, t) == Lookup(list, t))
      && (Lookup(list, t).None? && t == m.ready ==>
            Lookup(after, t) == Some(Condition(t, IsUnknown, clock(0), "", "")))
      && (Lookup(list, t).None? && t != m.ready ==>
            forall k: nat | FirstAt(m.dependents, 0, t, k) ::
              Lookup(after, t) ==
              Some(Condition(t, if ready.Some? && ready.value.status == IsTrue then IsTrue else IsUnknown,
                             clock(k + 1), "", "")))
  {
    var first := InitReady(m, list, clock(0));
    var mid := Replay(list, first);
    InitReadyOutcome(m, list, clock(0), t);
    InitDependentsOutcome(mid, m.dependents, InitialStatus(m, list), 0, clock, t);
    ReplayAppend(list, first, InitDependents(mid, m.dependents, InitialStatus(m, list), 0, clock));
    assert m.dependents[0..] == m.dependents;
  }

  /** A dependent has a first position. */
  lemma {:induction false} SomeFirst(deps: seq<ConditionType>, i: nat, t: ConditionType) returns (k: nat)
    requires i <= |deps| && t in deps[i..]
    ensures FirstAt(deps, i, t, k)
    decreases |deps| - i
  {
    assert deps[i..] == [deps[i]] + deps[i + 1..];
    if deps[i] == t { k := i; } else { k := SomeFirst(deps, i + 1, t); }
  }

  lemma InitializeAdds(m: Manager, list: seq<Condition>, clock: nat -> int)
    requires Keyed(list)
    ensures Initialized(m, Apply(m, list, InitializeConditions(clock)))
  {
    var after := Apply(m, list, InitializeConditions(clock));
    forall t | t == m.ready || t in m.dependents ensures Lookup(after, t).Some? {
      InitializeOutcome(m, list, clock, t);
      if t in m.dependents {
        assert t in m.dependents[0..];
        var k := SomeFirst(m.dependents, 0, t);
      }
    }
  }

  lemma {:induction false} NothingToInitialize(list: seq<Condition>, deps: seq<ConditionType>, status: ConditionStatus,
                                               i: nat, clock: nat -> int)
    requires i <= |deps| && forall k :: i <= k < |deps| ==> Lookup(list, deps[k]).Some?
    ensures InitDependents(list, deps, status, i, clock) == []
    decreases |deps| - i
  {
    if i == |deps| {
    } else {
      NothingToInitialize(list, deps, status, i + 1, clock);
    }
  }

  /** A second initialization, at whatever time, changes nothing. */
  lemma InitializeIdempotent(m: Manager, list: seq<Condition>, clock: nat -> int, clock': nat -> int)
    requires Keyed(list)
    ensures
      var after := Apply(m, list, InitializeConditions(clock));
      Initialized(m, after) && Apply(m, after, InitializeConditions(clock')) == after
  {
    var after := Apply(m, list, InitializeConditions(clock));
    InitializeOutcome(m, list, clock, m.ready);
    InitializeAdds(m, list, clock);
    assert Replay(after, []) == after;
    NothingToInitialize(after, m.dependents, InitialStatus(m, after), 0, clock');
  }

  // ---------------------------------------------------- terminal conditions

  lemma EventsSpareTerminal(m: Manager, list: seq<Condition>, call: Call, k: int)
    requires 0 <= k < |Events(m, list, call)|
    ensures Events(m, list, call)[k].Remove? ==> !Terminal(m, Events(m, list, call)[k].t)
  {
    match call
    case InitializeConditions(clock) =>
      var first := InitReady(m, list, clock(0));
      InitDependentsWrites(Replay(list, first), m.dependents, InitialStatus(m, list), 0, clock);
    case _ =>
  }

  lemma {:induction false} InitDependentsWrites(list: seq<Condition>, deps: seq<ConditionType>, status: ConditionStatus,
                                                i: nat, clock: nat -> int)
    requires i <= |deps|
    ensures forall k :: 0 <= k < |InitDependents(list, deps, status, i, clock)| ==>
                          InitDependents(list, deps, status, i, clock)[k].Write?
    decreases |deps| - i
  {
    if i == |deps| {
    } else {
      if Lookup(list, deps[i]).Some? {
        InitDependentsWrites(list, deps, status, i + 1, clock);
      } else {
        var e := Write(Condition(deps[i], status, 0, "", ""), clock(i + 1));
        InitDependentsWrites(ApplyEvent(list, e), deps, status, i + 1, clock);
      }
    }
  }

  lemma {:induction false} ReplayKeepsPresent(list: seq<Condition>, es: seq<Event>, t: ConditionType)
    requires Keyed(list) && Lookup(list, t).Some?
    requires forall k :: 0 <= k < |es| ==> es[k] != Remove(t)
    ensures Keyed(Replay(list, es)) && Lookup(Replay(list, es), t).Some?
  {
    if es == [] {
    } else {
      var front, last := es[..|es| - 1], es[|es| - 1];
      ReplayKeepsPresent(list, front, t);
      match last
      case Write(c, now) => SetConditionLookup(Replay(list, front), c, now, t);
      case Remove(u) => EraseLookup(Replay(list, front), u, t);
    }
  }

  /** A type once present stays present over any run, if the manager counts it terminal. */
  lemma {:induction false} TerminalStaysPresent(m: Manager, list: seq<Condition>, calls: seq<Call>, t: ConditionType)
    requires Keyed(list) && Terminal(m, t) && Lookup(list, t).Some?
    ensures Lookup(Run(m, list, calls), t).Some?
    decreases |calls|
  {
    if calls == [] {
    } else {
      var es := Events(m, list, calls[0]);
      forall k | 0 <= k < |es| ensures es[k] != Remove(t) { EventsSpareTerminal(m, list, calls[0], k); }
      ReplayKeepsPresent(list, es, t);
      TerminalStaysPresent(m, Apply(m, list, calls[0]), calls[1..], t);
    }
  }

  lemma {:induction false} CallsAppend(m: Manager, list: seq<Condition>, a: seq<Call>, b: seq<Call>)
    ensures Run(m, list, a + b) == Run(m, Run(m, list, a), b)
    decreases |a|
  {
    if a == [] {
      assert a + b == b;
    } else {
      assert (a + b)[1..] == a[1..] + b;
      CallsAppend(m, Apply(m, list, a[0]), a[1..], b);
    }
  }

  /** From the first initialization of a run on, ready and every dependent are present. */
  lemma InitializedForever(m: Manager, before: seq<Call>, clock: nat -> int, later: seq<Call>)
    ensures Initialized(m, Run(m, [], before + [InitializeConditions(clock)] + later))
  {
    var init := [InitializeConditions(clock)];
    var start := Run(m, [], before);
    RunAgrees(m, before, m.ready);
    StrictlySortedKeyed(start);
    var after := Apply(m, start, init[0]);
    assert Run(m, start, init) == after by { assert init[1..] == []; }
    CallsAppend(m, [], before, init);
    CallsAppend(m, [], before + init, later);
    InitializeOutcome(m, start, clock, m.ready);
    InitializeAdds(m, start, clock);
    forall t | t == m.ready || t in m.dependents ensures Lookup(Run(m, after, later), t).Some? {
      TerminalStaysPresent(m, after, later, t);
    }
  }

  // ------------------------------------------------------ time over a run

  lemma {:induction false} HistoryAppend(m: Manager, list: seq<Condition>, a: seq<Call>, b: seq<Call>)
    ensures History(m, list, a + b) == History(m, list, a) + History(m, Run(m, list, a), b)
    decreases |a|
  {
    if a == [] {
      assert a + b == b;
    } else {
      var next := Apply(m, list, a[0]);
      var es := Events(m, list, a[0]);
      assert (a + b)[0] == a[0] && (a + b)[1..] == a[1..] + b;
      HistoryAppend(m, next, a[1..], b);
      var x, y := History(m, next, a[1..]), History(m, Run(m, next, a[1..]), b);
      assert es + (x + y) == (es + x) + y;
    }
  }

  /** Only a `ClearCondition` of a non-terminal type erases. */
  lemma {:induction false} HistorySpares(m: Manager, list: seq<Condition>, calls: seq<Call>, t: ConditionType)
    requires Terminal(m, t) || ClearCondition(t) !in calls
    ensures Remove(t) !in History(m, list, calls)
    decreases |calls|
  {
    if calls == [] {
    } else {
      var es := Events(m, list, calls[0]);
      assert forall c :: c in calls[1..] ==> c in calls;
      HistorySpares(m, Apply(m, list, calls[0]), calls[1..], t);
      forall k | 0 <= k < |es| ensures es[k] != Remove(t) {
        EventsSpareTerminal(m, list, calls[0], k);
        if es[k].Remove? { RemovesOnlyOwn(m, list, calls[0], k); }
      }
    }
  }

  lemma RemovesOnlyOwn(m: Manager, list: seq<Condition>, call: Call, k: int)
    requires 0 <= k < |Events(m, list, call)| && Events(m, list, call)[k].Remove?
    ensures call == ClearCondition(Events(m, list, call)[k].t)
  {
    match call
    case InitializeConditions(clock) =>
      InitDependentsWrites(Replay(list, InitReady(m, list, clock(0))), m.dependents, InitialStatus(m, list), 0, clock);
    case _ =>
  }

  /** With a clock that never goes back, neither does the update time of a type that is not cleared. */
  lemma RunTimeNeverDecreases(m: Manager, before: seq<Call>, later: seq<Call>, t: ConditionType)
    requires Chronological(History(m, [], before + later))
    requires t == m.ready || t in m.dependents || ClearCondition(t) !in later
    requires Lookup(Run(m, [], before), t).Some?
    ensures Lookup(Run(m, [], before + later), t).Some?
    ensures Lookup(Run(m, [], before), t).value.lastUpdate <= Lookup(Run(m, [], before + later), t).value.lastUpdate
  {
    var first, rest := History(m, [], before), History(m, Run(m, [], before), later);
    HistoryAppend(m, [], before, later);
    RunIsHistory(m, [], before);
    RunIsHistory(m, [], before + later);
    HistorySpares(m, Run(m, [], before), later, t);
    assert (first + rest)[..|first|] == first;
    TimeNeverDecreases(first + rest, |first|, t);
  }
}
