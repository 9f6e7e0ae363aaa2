/**
 Order-preserving upserts of volumes, volume mounts and environment variables:
 an input replaces the first entry of its name, inputs without such an entry are
 appended at the end, in input order.
 */
module Upserts {

  /** An entry with a name and whatever else it carries. */
  datatype Named<V> = Named(name: string, body: V)

  /** Index of the first entry of that name, or the length. */
  function IndexOf<V>(s: seq<Named<V>>, name: string): (i: nat)
    ensures i <= |s|
    ensures forall k :: 0 <= k < i ==> s[k].name != name
    ensures i < |s| ==> s[i].name == name
  {
    if s == [] || s[0].name == name then 0 else 1 + IndexOf(s[1..], name)
  }

  predicate Contains<V>(s: seq<Named<V>>, name: string) {
    IndexOf(s, name) < |s|
  }

  /** Overwrites the first entry of `v`'s name, if there is one. */
  function Replace<V>(s: seq<Named<V>>, v: Named<V>): seq<Named<V>> {
    if Contains(s, v.name) then s[IndexOf(s, v.name) := v] else s
  }

  function ReplaceAll<V>(s: seq<Named<V>>, vs: seq<Named<V>>): seq<Named<V>> {
    if vs == [] then s else Replace(ReplaceAll(s, vs[..|vs| - 1]), vs[|vs| - 1])
  }

  /** The inputs whose name no entry of `s` has, in order. */
  function Unmatched<V>(s: seq<Named<V>>, vs: seq<Named<V>>): seq<Named<V>> {
    if vs == [] then []
    else
      var front, last := Unmatched(s, vs[..|vs| - 1]), vs[|vs| - 1];
      if Contains(s, last.name) then front else front + [last]
  }

  /** One call with deferred appends. */
  function Batch<V>(s: seq<Named<V>>, vs: seq<Named<V>>): seq<Named<V>> {
    ReplaceAll(s, vs) + Unmatched(s, vs)
  }

  /** The simple form: one entry at a time, appended at once. */
  function Upsert<V>(s: seq<Named<V>>, v: Named<V>): seq<Named<V>> {
    if Contains(s, v.name) then s[IndexOf(s, v.name) := v] else s + [v]
  }

  function UpsertAll<V>(s: seq<Named<V>>, vs: seq<Named<V>>): seq<Named<V>> {
    if vs == [] then s else Upsert(UpsertAll(s, vs[..|vs| - 1]), vs[|vs| - 1])
  }

  /** The last input of a name, its index being `|vs|` when there is none. */
  function LastIndexOf<V>(vs: seq<Named<V>>, name: string): (i: nat)
    ensures i <= |vs|
    ensures i < |vs| ==> vs[i].name == name && forall k :: i < k < |vs| ==> vs[k].name != name
    ensures i == |vs| ==> forall k :: 0 <= k < |vs| ==> vs[k].name != name
  {
    if vs == [] then 0
    else if vs[|vs| - 1].name == name then |vs| - 1
    else
      var i := LastIndexOf(vs[..|vs| - 1], name);
      if i == |vs| - 1 then |vs| else i
  }

  lemma ContainsExists<V>(s: seq<Named<V>>, name: string)
    ensures Contains(s, name) <==> exists k :: 0 <= k < |s| && s[k].name == name
  {
  }

  lemma IndexUnique<V>(s: seq<Named<V>>, name: string, i: nat)
    requires i < |s| && s[i].name == name
    requires forall k :: 0 <= k < i ==> s[k].name != name
    ensures IndexOf(s, name) == i
  {
  }

  lemma IndexOfAppend<V>(a: seq<Named<V>>, b: seq<Named<V>>, name: string)
    ensures IndexOf(a + b, name) == if Contains(a, name) then IndexOf(a, name) else |a| + IndexOf(b, name)
  {
    var i := if Contains(a, name) then IndexOf(a, name) else |a| + IndexOf(b, name);
    if i < |a + b| { IndexUnique(a + b, name, i); } else { ContainsExists(a + b, name); }
  }

  ghost predicate SameNames<V>(s: seq<Named<V>>, r: seq<Named<V>>) {
    |s| == |r| && forall i :: 0 <= i < |s| ==> s[i].name == r[i].name
  }

  lemma SameNamesIndex<V>(s: seq<Named<V>>, r: seq<Named<V>>, name: string)
    requires SameNames(s, r)
    ensures IndexOf(s, name) == IndexOf(r, name)
  {
    if Contains(s, name) { IndexUnique(r, name, IndexOf(s, name)); } else { ContainsExists(r, name); }
  }

  // ------------------------------------------------------------------ layout

  /** What old position `i` holds after the inputs: the last of its name, if it is the first entry of that name. */
  function Settled<V>(s: seq<Named<V>>, vs: seq<Named<V>>, i: nat): Named<V>
    requires i < |s|
  {
    var k := LastIndexOf(vs, s[i].name);
    if IndexOf(s, s[i].name) == i && k < |vs| then vs[k] else s[i]
  }

  lemma {:induction false} ReplaceAllLayout<V>(s: seq<Named<V>>, vs: seq<Named<V>>)
    ensures SameNames(s, ReplaceAll(s, vs))
    ensures forall i :: 0 <= i < |s| ==> ReplaceAll(s, vs)[i] == Settled(s, vs, i)
  {
    if vs == [] {
    } else {
      var front, last := vs[..|vs| - 1], vs[|vs| - 1];
      var mid := ReplaceAll(s, front);
      ReplaceAllLayout(s, front);
      SameNamesIndex(s, mid, last.name);
      forall i | 0 <= i < |s| ensures ReplaceAll(s, vs)[i] == Settled(s, vs, i) {
        assert mid[i] == Settled(s, front, i);
      }
    }
  }

  lemma {:induction false} UnmatchedAppend<V>(s: seq<Named<V>>, a: seq<Named<V>>, b: seq<Named<V>>)
    ensures Unmatched(s, a + b) == Unmatched(s, a) + Unmatched(s, b)
  {
    if b == [] {
      assert a + b == a;
    } else {
      assert (a + b)[..|a + b| - 1] == a + b[..|b| - 1];
      UnmatchedAppend(s, a, b[..|b| - 1]);
    }
  }

  /** Any input is appended exactly when it has no old match, between what the inputs before and after it append. */
  lemma UnmatchedIsFilter<V>(s: seq<Named<V>>, a: seq<Named<V>>, v: Named<V>, b: seq<Named<V>>)
    ensures Unmatched(s, a + [v] + b) ==
            Unmatched(s, a) + (if exists j :: 0 <= j < |s| && s[j].name == v.name then [] else [v]) + Unmatched(s, b)
  {
    ContainsExists(s, v.name);
    UnmatchedAppend(s, a + [v], b);
    UnmatchedAppend(s, a, [v]);
    assert [v][..0] == [];
  }

  /** Layout of any call, duplicate names included. */
  lemma BatchLayout<V>(s: seq<Named<V>>, vs: seq<Named<V>>)
    ensures |Batch(s, vs)| == |s| + |Unmatched(s, vs)|
    ensures Batch(s, vs)[|s|..] == Unmatched(s, vs)
    ensures forall i :: 0 <= i < |s| ==>
              && Batch(s, vs)[i].name == s[i].name
              && Batch(s, vs)[i] == Settled(s, vs, i)
  {
    ReplaceAllLayout(s, vs);
  }

  /** The first old entry of a name becomes the last input of that name. */
  lemma LastInputWins<V>(s: seq<Named<V>>, vs: seq<Named<V>>, i: nat, k: nat)
    requires i < |s| && k < |vs| && s[i].name == vs[k].name
    requires forall j :: 0 <= j < i ==> s[j].name != s[i].name
    requires forall j :: k < j < |vs| ==> vs[j].name != vs[k].name
    ensures i < |Batch(s, vs)| && Batch(s, vs)[i] == vs[k]
  {
    BatchLayout(s, vs);
    IndexUnique(s, s[i].name, i);
    assert LastIndexOf(vs, s[i].name) == k;
  }

  /** Every other old entry stays what it was and where it was. */
  lemma OtherEntriesStay<V>(s: seq<Named<V>>, vs: seq<Named<V>>, i: nat)
    requires i < |s|
    requires (exists j :: 0 <= j < i && s[j].name == s[i].name) || forall k :: 0 <= k < |vs| ==> vs[k].name != s[i].name
    ensures i < |Batch(s, vs)| && Batch(s, vs)[i] == s[i]
  {
    BatchLayout(s, vs);
  }

  // ---------------------------------------------------- batch against simple

  /** Two inputs share a name that no old entry has. */
  ghost predicate RepeatsNewName<V>(s: seq<Named<V>>, vs: seq<Named<V>>) {
    exists i, j :: 0 <= i < j < |vs| && vs[i].name == vs[j].name && !Contains(s, vs[i].name)
  }

  lemma {:induction false} UpsertAllContains<V>(s: seq<Named<V>>, vs: seq<Named<V>>, name: string)
    ensures Contains(UpsertAll(s, vs), name) <==> Contains(s, name) || LastIndexOf(vs, name) < |vs|
  {
    if vs == [] {
    } else {
      var front, last := vs[..|vs| - 1], vs[|vs| - 1];
      var mid := UpsertAll(s, front);
      UpsertAllContains(s, front, name);
      ContainsExists(mid, name);
      ContainsExists(UpsertAll(s, vs), name);
      if Contains(mid, last.name) {
        SameNamesIndex(mid, mid[IndexOf(mid, last.name) := last], name);
      } else {
        assert forall k :: 0 <= k < |mid| ==> (mid + [last])[k] == mid[k];
        assert (mid + [last])[|mid|] == last;
      }
    }
  }

  lemma BatchIndex<V>(s: seq<Named<V>>, vs: seq<Named<V>>, name: string)
    requires Contains(s, name)
    ensures IndexOf(Batch(s, vs), name) == IndexOf(s, name)
  {
    ReplaceAllLayout(s, vs);
    SameNamesIndex(s, ReplaceAll(s, vs), name);
    IndexOfAppend(ReplaceAll(s, vs), Unmatched(s, vs), name);
  }

  /** One more input changes one old position or adds one entry at the end. */
  lemma BatchExtend<V>(s: seq<Named<V>>, vs: seq<Named<V>>)
    requires vs != []
    ensures
      var front, last := vs[..|vs| - 1], vs[|vs| - 1];
      if Contains(s, last.name) then
        IndexOf(s, last.name) < |Batch(s, front)| && Batch(s, vs) == Batch(s, front)[IndexOf(s, last.name) := last]
      else Batch(s, vs) == Batch(s, front) + [last]
  {
    var front, last := vs[..|vs| - 1], vs[|vs| - 1];
    ReplaceAllLayout(s, front);
    SameNamesIndex(s, ReplaceAll(s, front), last.name);
    if Contains(s, last.name) {
      UpdateLeft(ReplaceAll(s, front), Unmatched(s, front), IndexOf(s, last.name), last);
    } else {
      AppendRight(ReplaceAll(s, front), Unmatched(s, front), last);
    }
  }

  lemma UpdateLeft<T>(a: seq<T>, b: seq<T>, i: nat, v: T)
    requires i < |a|
    ensures (a + b)[i := v] == a[i := v] + b
  {
  }

  lemma AppendRight<T>(a: seq<T>, b: seq<T>, v: T)
    ensures a + (b + [v]) == (a + b) + [v]
  {
  }

  lemma {:induction false} BatchIsUpsertAll<V>(s: seq<Named<V>>, vs: seq<Named<V>>)
    requires !RepeatsNewName(s, vs)
    ensures Batch(s, vs) == UpsertAll(s, vs)
  {
    if vs == [] {
    } else {
      var front, last := vs[..|vs| - 1], vs[|vs| - 1];
      assert forall i :: 0 <= i < |front| ==> front[i] == vs[i];
      BatchIsUpsertAll(s, front);
      BatchExtend(s, vs);
      UpsertAllContains(s, front, last.name);
      if Contains(s, last.name) { BatchIndex(s, front, last.name); }
    }
  }

  lemma RepeatAtEnd<V>(s: seq<Named<V>>, vs: seq<Named<V>>)
    requires RepeatsNewName(s, vs) && !RepeatsNewName(s, vs[..|vs| - 1])
    ensures
      var front, last := vs[..|vs| - 1], vs[|vs| - 1];
      LastIndexOf(front, last.name) < |front| && !Contains(s, last.name)
  {
    var front := vs[..|vs| - 1];
    var i, j :| 0 <= i < j < |vs| && vs[i].name == vs[j].name && !Contains(s, vs[i].name);
    assert forall k :: 0 <= k < |front| ==> front[k] == vs[k];
    assert j == |vs| - 1 && front[i].name == vs[j].name;
  }

  lemma {:induction false} RepeatedNameShortens<V>(s: seq<Named<V>>, vs: seq<Named<V>>)
    ensures |UpsertAll(s, vs)| <= |Batch(s, vs)|
    ensures RepeatsNewName(s, vs) ==> |UpsertAll(s, vs)| < |Batch(s, vs)|
  {
    ReplaceAllLayout(s, vs);
    if vs == [] {
    } else {
      var front, last := vs[..|vs| - 1], vs[|vs| - 1];
      ReplaceAllLayout(s, front);
      RepeatedNameShortens(s, front);
      UpsertAllContains(s, front, last.name);
      if RepeatsNewName(s, vs) && !RepeatsNewName(s, front) { RepeatAtEnd(s, vs); }
    }
  }

  /** Deferring the appends is the same as upserting one by one exactly when no new name comes twice. */
  lemma BatchIsUpsertAllIff<V>(s: seq<Named<V>>, vs: seq<Named<V>>)
    ensures Batch(s, vs) == UpsertAll(s, vs) <==> !RepeatsNewName(s, vs)
  {
    RepeatedNameShortens(s, vs);
    if !RepeatsNewName(s, vs) { BatchIsUpsertAll(s, vs); }
  }

  // ------------------------------------------------------ reconcile fixpoint

  /** When every input has an entry, upserting only replaces. */
  lemma {:induction false} UpsertAllPresent<V>(s: seq<Named<V>>, vs: seq<Named<V>>)
    requires forall k :: 0 <= k < |vs| ==> Contains(s, vs[k].name)
    ensures UpsertAll(s, vs) == ReplaceAll(s, vs)
    ensures Unmatched(s, vs) == []
  {
    if vs == [] {
    } else {
      var front := vs[..|vs| - 1];
      assert forall k :: 0 <= k < |front| ==> front[k] == vs[k];
      UpsertAllPresent(s, front);
      ReplaceAllLayout(s, front);
      SameNamesIndex(s, ReplaceAll(s, front), vs[|vs| - 1].name);
    }
  }

  /** After upserting, the first entry of every input name holds the last input of that name. */
  lemma {:induction false} UpsertAllHoldsLast<V>(s: seq<Named<V>>, vs: seq<Named<V>>, name: string)
    requires LastIndexOf(vs, name) < |vs|
    ensures Contains(UpsertAll(s, vs), name)
    ensures UpsertAll(s, vs)[IndexOf(UpsertAll(s, vs), name)] == vs[LastIndexOf(vs, name)]
  {
    UpsertAllContains(s, vs, name);
    var front, last := vs[..|vs| - 1], vs[|vs| - 1];
    var mid, r := UpsertAll(s, front), UpsertAll(s, vs);
    if last.name == name {
      if Contains(mid, name) {
        IndexUnique(r, name, IndexOf(mid, name));
      } else {
        IndexUnique(r, name, |mid|);
      }
    } else {
      UpsertAllHoldsLast(s, front, name);
      IndexUnique(r, name, IndexOf(mid, name));
    }
  }

  lemma UpsertAllTwice<V>(s: seq<Named<V>>, vs: seq<Named<V>>)
    ensures UpsertAll(UpsertAll(s, vs), vs) == UpsertAll(s, vs)
  {
    var r := UpsertAll(s, vs);
    forall k | 0 <= k < |vs| ensures Contains(r, vs[k].name) { UpsertAllContains(s, vs, vs[k].name); }
    UpsertAllPresent(r, vs);
    ReplaceAllLayout(r, vs);
    forall i | 0 <= i < |r| ensures Settled(r, vs, i) == r[i] {
      if LastIndexOf(vs, r[i].name) < |vs| { UpsertAllHoldsLast(s, vs, r[i].name); }
    }
  }

  ghost predicate DistinctNames<V>(vs: seq<Named<V>>) {
    forall i, j :: 0 <= i < j < |vs| ==> vs[i].name != vs[j].name
  }

  /** A reconcile cycle: a fixed sequence of calls. */
  function Cycle<V>(s: seq<Named<V>>, calls: seq<seq<Named<V>>>): seq<Named<V>> {
    if calls == [] then s else Batch(Cycle(s, calls[..|calls| - 1]), calls[|calls| - 1])
  }

  function Flatten<V>(calls: seq<seq<Named<V>>>): seq<Named<V>> {
    if calls == [] then [] else Flatten(calls[..|calls| - 1]) + calls[|calls| - 1]
  }

  lemma {:induction false} UpsertAllAppend<V>(s: seq<Named<V>>, a: seq<Named<V>>, b: seq<Named<V>>)
    ensures UpsertAll(s, a + b) == UpsertAll(UpsertAll(s, a), b)
  {
    if b == [] {
      assert a + b == a;
    } else {
      assert (a + b)[..|a + b| - 1] == a + b[..|b| - 1];
      UpsertAllAppend(s, a, b[..|b| - 1]);
    }
  }

  lemma {:induction false} CycleIsUpsertAll<V>(s: seq<Named<V>>, calls: seq<seq<Named<V>>>)
    requires forall k :: 0 <= k < |calls| ==> DistinctNames(calls[k])
    ensures Cycle(s, calls) == UpsertAll(s, Flatten(calls))
  {
    if calls == [] {
    } else {
      var front, last := calls[..|calls| - 1], calls[|calls| - 1];
      CycleIsUpsertAll(s, front);
      BatchIsUpsertAll(Cycle(s, front), last);
      UpsertAllAppend(s, Flatten(front), last);
    }
  }

  /** Main theorem: repeating a cycle changes nothing, order included. */
  lemma CycleFixpoint<V>(s: seq<Named<V>>, calls: seq<seq<Named<V>>>)
    requires forall k :: 0 <= k < |calls| ==> DistinctNames(calls[k])
    ensures Cycle(Cycle(s, calls), calls) == Cycle(s, calls)
  {
    CycleIsUpsertAll(s, calls);
    CycleIsUpsertAll(Cycle(s, calls), calls);
    UpsertAllTwice(s, Flatten(calls));
  }

  /** Every new name is first and last given with the same entry. */
  ghost predicate NewNamesAgree<V>(s: seq<Named<V>>, vs: seq<Named<V>>) {
    forall k :: 0 <= k < |vs| && !Contains(s, vs[k].name) ==>
      vs[IndexOf(vs, vs[k].name)] == vs[LastIndexOf(vs, vs[k].name)]
  }

  lemma {:induction false} UnmatchedFirst<V>(s: seq<Named<V>>, vs: seq<Named<V>>, name: string)
    requires !Contains(s, name)
    ensures Contains(Unmatched(s, vs), name) <==> Contains(vs, name)
    ensures Contains(vs, name) ==> Unmatched(s, vs)[IndexOf(Unmatched(s, vs), name)] == vs[IndexOf(vs, name)]
  {
    if vs == [] {
    } else {
      var front, last := vs[..|vs| - 1], vs[|vs| - 1];
      assert vs == front + [last];
      UnmatchedFirst(s, front, name);
      IndexOfAppend(front, [last], name);
      IndexOfAppend(Unmatched(s, front), [last], name);
    }
  }

  /** In the appended tail the first entry of a new name is its first input. */
  lemma TailFirst<V>(s: seq<Named<V>>, vs: seq<Named<V>>, name: string)
    requires !Contains(s, name) && Contains(vs, name)
    ensures Contains(Batch(s, vs), name)
    ensures IndexOf(Batch(s, vs), name) >= |s|
    ensures Batch(s, vs)[IndexOf(Batch(s, vs), name)] == vs[IndexOf(vs, name)]
  {
    ReplaceAllLayout(s, vs);
    SameNamesIndex(s, ReplaceAll(s, vs), name);
    UnmatchedFirst(s, vs, name);
    IndexOfAppend(ReplaceAll(s, vs), Unmatched(s, vs), name);
  }

  lemma BatchContains<V>(s: seq<Named<V>>, vs: seq<Named<V>>, k: nat)
    requires k < |vs|
    ensures Contains(Batch(s, vs), vs[k].name)
  {
    BatchLayout(s, vs);
    if Contains(s, vs[k].name) { BatchIndex(s, vs, vs[k].name); } else { TailFirst(s, vs, vs[k].name); }
  }

  /** What a repeated call changes: the first entry of every input name takes the last input of that name. */
  lemma BatchTwice<V>(s: seq<Named<V>>, vs: seq<Named<V>>)
    ensures
      var r := Batch(s, vs);
      |Batch(r, vs)| == |r| && forall i :: 0 <= i < |r| ==> Batch(r, vs)[i] == Settled(r, vs, i)
  {
    var r := Batch(s, vs);
    forall k | 0 <= k < |vs| ensures Contains(r, vs[k].name) { BatchContains(s, vs, k); }
    UpsertAllPresent(r, vs);
    ReplaceAllLayout(r, vs);
  }

  /** One call, repeated, is a fixpoint exactly when the inputs of every new name agree first and last. */
  lemma BatchFixpointIff<V>(s: seq<Named<V>>, vs: seq<Named<V>>)
    ensures Batch(Batch(s, vs), vs) == Batch(s, vs) <==> NewNamesAgree(s, vs)
  {
    var r := Batch(s, vs);
    BatchTwice(s, vs);
    BatchLayout(s, vs);
    if Batch(r, vs) == r {
      forall k | 0 <= k < |vs| && !Contains(s, vs[k].name)
        ensures vs[IndexOf(vs, vs[k].name)] == vs[LastIndexOf(vs, vs[k].name)] {
        TailFirst(s, vs, vs[k].name);
        assert Batch(r, vs)[IndexOf(r, vs[k].name)] == Settled(r, vs, IndexOf(r, vs[k].name));
      }
    }
    if NewNamesAgree(s, vs) {
      forall i | 0 <= i < |r| ensures Settled(r, vs, i) == r[i] {
        SettledTwice(s, vs, i);
      }
    }
  }

  lemma SettledTwice<V>(s: seq<Named<V>>, vs: seq<Named<V>>, i: nat)
    requires NewNamesAgree(s, vs) && i < |Batch(s, vs)|
    ensures Settled(Batch(s, vs), vs, i) == Batch(s, vs)[i]
  {
    var r := Batch(s, vs);
    var name := r[i].name;
    BatchLayout(s, vs);
    if IndexOf(r, name) == i && LastIndexOf(vs, name) < |vs| {
      if Contains(s, name) { BatchIndex(s, vs, name); } else { TailFirst(s, vs, name); }
    }
  }

  /** A call that gives one new name twice, with different entries, is not stable under repetition. */
  lemma RepeatedNewNameUnstable()
    ensures
      var call := [Named("data", 1), Named("data", 2)];
      Batch(Batch([], call), call) != Batch([], call)
  {
    var call := [Named("data", 1), Named("data", 2)];
    BatchFixpointIff([], call);
    assert IndexOf(call, call[0].name) == 0 && LastIndexOf(call, call[0].name) == 1;
  }

  // ------------------------------------------------------------- imperative

  datatype VolumeSource = ConfigMapSource(configMap: string) | OtherSource(description: string)
  datatype MountSpec = MountSpec(readOnly: bool, mountPath: string)
  datatype EnvValue = Literal(value: string) | ValueFrom(source: string)

  type Volume = Named<VolumeSource>
  type VolumeMount = Named<MountSpec>
  type EnvVar = Named<EnvValue>

  class PodSpec {
    var volumes: seq<Volume>

    constructor (volumes: seq<Volume>)
      ensures this.volumes == volumes
    {
      this.volumes := volumes;
    }
  }

  class Container {
    var volumeMounts: seq<VolumeMount>
    var env: seq<EnvVar>

    constructor (volumeMounts: seq<VolumeMount>, env: seq<EnvVar>)
      ensures this.volumeMounts == volumeMounts && this.env == env
    {
      this.volumeMounts, this.env := volumeMounts, env;
    }
  }

  /** One more input of a call: what the scan of the current entries decides. */
  lemma BatchStep<V>(s: seq<Named<V>>, vs: seq<Named<V>>, k: nat)
    requires k < |vs|
    ensures ReplaceAll(s, vs[..k + 1]) == Replace(ReplaceAll(s, vs[..k]), vs[k])
    ensures Contains(ReplaceAll(s, vs[..k]), vs[k].name) <==> Contains(s, vs[k].name)
    ensures Unmatched(s, vs[..k + 1]) ==
            Unmatched(s, vs[..k]) + if Contains(s, vs[k].name) then [] else [vs[k]]
  {
    assert vs[..k + 1][..k] == vs[..k];
    ReplaceAllLayout(s, vs[..k]);
    SameNamesIndex(s, ReplaceAll(s, vs[..k]), vs[k].name);
  }

  method AddOrReplaceVolume(podSpec: PodSpec, volumes: seq<Volume>)
    modifies podSpec
    ensures podSpec.volumes == Batch(old(podSpec.volumes), volumes)
  {
    ghost var start := podSpec.volumes;
    var volumesToAdd: seq<Volume> := [];
    for k := 0 to |volumes|
      invariant podSpec.volumes == ReplaceAll(start, volumes[..k])
      invariant volumesToAdd == Unmatched(start, volumes[..k])
    {
      BatchStep(start, volumes, k);
      ghost var before := podSpec.volumes;
      var wasAdded := false;
      var i := 0;
      while !wasAdded && i < |podSpec.volumes|
        invariant 0 <= i <= |before|
        invariant !wasAdded ==> podSpec.volumes == before && IndexOf(before, volumes[k].name) >= i
        invariant wasAdded ==> Contains(before, volumes[k].name) && podSpec.volumes == Replace(before, volumes[k])
        decreases !wasAdded, |before| - i
      {
        if volumes[k].name == podSpec.volumes[i].name {
          podSpec.volumes := podSpec.volumes[i := volumes[k]];
          wasAdded := true;
        }
        i := i + 1;
      }
      if !wasAdded { volumesToAdd := volumesToAdd + [volumes[k]]; }
    }
    assert volumes[..|volumes|] == volumes;
    ghost var replaced := podSpec.volumes;
    for k := 0 to |volumesToAdd|
      invariant podSpec.volumes == replaced + volumesToAdd[..k]
    {
      podSpec.volumes := podSpec.volumes + [volumesToAdd[k]];
    }
    assert volumesToAdd[..|volumesToAdd|] == volumesToAdd;
  }

  method AddOrReplaceVolumeMount(container: Container, mounts: seq<VolumeMount>)
    modifies container`volumeMounts
    ensures container.volumeMounts == Batch(old(container.volumeMounts), mounts)
  {
    ghost var start := container.volumeMounts;
    var mountsToAdd: seq<VolumeMount> := [];
    for k := 0 to |mounts|
      invariant container.volumeMounts == ReplaceAll(start, mounts[..k])
      invariant mountsToAdd == Unmatched(start, mounts[..k])
    {
      BatchStep(start, mounts, k);
      ghost var before := container.volumeMounts;
      var wasAdded := false;
      var i := 0;
      while !wasAdded && i < |container.volumeMounts|
        invariant 0 <= i <= |before|
        invariant !wasAdded ==> container.volumeMounts == before && IndexOf(before, mounts[k].name) >= i
        invariant wasAdded ==> Contains(before, mounts[k].name) && container.volumeMounts == Replace(before, mounts[k])
        decreases !wasAdded, |before| - i
      {
        if mounts[k].name == container.volumeMounts[i].name {
          container.volumeMounts := container.volumeMounts[i := mounts[k]];
          wasAdded := true;
        }
        i := i + 1;
      }
      if !wasAdded { mountsToAdd := mountsToAdd + [mounts[k]]; }
    }
    assert mounts[..|mounts|] == mounts;
    container.volumeMounts := container.volumeMounts + mountsToAdd;
  }

  method AddOrReplaceEnvVar(container: Container, envs: seq<EnvVar>)
    modifies container`env
    ensures container.env == Batch(old(container.env), envs)
  {
    ghost var start := container.env;
    var envVarsToAdd: seq<EnvVar> := [];
    for k := 0 to |envs|
      invariant container.env == ReplaceAll(start, envs[..k])
      invariant envVarsToAdd == Unmatched(start, envs[..k])
    {
      BatchStep(start, envs, k);
      ghost var before := container.env;
      var wasAdded := false;
      var i := 0;
      while !wasAdded && i < |container.env|
        invariant 0 <= i <= |before|
        invariant !wasAdded ==> container.env == before && IndexOf(before, envs[k].name) >= i
        invariant wasAdded ==> Contains(before, envs[k].name) && container.env == Replace(before, envs[k])
        decreases !wasAdded, |before| - i
      {
        if envs[k].name == container.env[i].name {
          container.env := container.env[i := envs[k]];
          wasAdded := true;
        }
        i := i + 1;
      }
      if !wasAdded { envVarsToAdd := envVarsToAdd + [envs[k]]; }
    }
    assert envs[..|envs|] == envs;
    container.env := container.env + envVarsToAdd;
  }
}
