/**
 `ReplaceResource` against an API server, interleaved with other callers and
 other writers.

 Assumed of the server: every accepted write gets a version never used before,
 and an update is accepted only if it carries the live version. Calls may be
 rejected, or applied with the reply lost. Reads may come from a stale cache.
 */
module ReplaceProtocol {
  import opened Common

  datatype Kind = ServiceKind | RouteKind | OtherKind(kind: string)

  datatype Spec =
    | Service(clusterIP: string, rest: string)
    | Route(host: string, rest: string)
    | Other(kind: string, rest: string)

  function KindOf(spec: Spec): Kind {
    match spec
    case Service(_, _) => ServiceKind
    case Route(_, _) => RouteKind
    case Other(kind, _) => OtherKind(kind)
  }

  datatype Key = Key(kind: Kind, namespace: string, name: string)

  datatype Object = Object(namespace: string, name: string, version: nat, spec: Spec)

  function KeyOf(o: Object): Key {
    Key(KindOf(o.spec), o.namespace, o.name)
  }

  /** What the server must never see changed by a replace: the Service's ClusterIP, the Route's Host. */
  function Immutable(spec: Spec): Option<string> {
    match spec
    case Service(ip, _) => Some(ip)
    case Route(host, _) => Some(host)
    case Other(_, _) => None
  }

  // --------------------------------------------------------------- mapping

  function MapRequiredMeta(from: Object, to: Object): Object {
    to.(version := from.version)
  }

  function MapRequiredServiceData(from: Object, to: Object): Object {
    if from.spec.Service? && to.spec.Service? then to.(spec := to.spec.(clusterIP := from.spec.clusterIP)) else to
  }

  function MapRequiredRouteData(from: Object, to: Object): Object {
    if from.spec.Route? && to.spec.Route? then to.(spec := to.spec.(host := from.spec.host)) else to
  }

  function MapRequired(from: Object, to: Object): Object {
    MapRequiredRouteData(from, MapRequiredServiceData(from, MapRequiredMeta(from, to)))
  }

  /** Two objects are the same resource exactly if kind, namespace and name agree. */
  lemma KeysTellApart(a: Object, b: Object)
    ensures KeyOf(a) == KeyOf(b) <==>
            && a.namespace == b.namespace && a.name == b.name
            && ((a.spec.Service? && b.spec.Service?) || (a.spec.Route? && b.spec.Route?) ||
                (a.spec.Other? && b.spec.Other? && a.spec.kind == b.spec.kind))
  {
  }

  /** The object sent has the version read, and the ClusterIP or Host read if both are of that kind. */
  lemma MapRequiredOutcome(from: Object, to: Object)
    ensures MapRequired(from, to) ==
            Object(to.namespace, to.name, from.version,
                   if from.spec.Service? && to.spec.Service? then Service(from.spec.clusterIP, to.spec.rest)
                   else if from.spec.Route? && to.spec.Route? then Route(from.spec.host, to.spec.rest)
                   else to.spec)
    ensures KeyOf(MapRequired(from, to)) == KeyOf(to)
    ensures KeyOf(from) == KeyOf(to) ==> Immutable(MapRequired(from, to).spec) == Immutable(from.spec)
  {
  }

  // ---------------------------------------------------------------- server

  datatype Error = AlreadyExists | NotFound | Conflict | Failed

  datatype Reply = Ok(value: Object) | Err(error: Error)

  /** `seen` holds every object ever stored: a cache may still serve any of them. */
  datatype Api = Api(store: map<Key, Object>, seen: set<Object>, nextVersion: nat)

  function Put(api: Api, o: Object): Api {
    var stored := o.(version := api.nextVersion);
    Api(api.store[KeyOf(o) := stored], api.seen + {stored}, api.nextVersion + 1)
  }

  function Drop(api: Api, k: Key): Api {
    api.(store := api.store - {k})
  }

  function Told(fault: Fault, reply: Reply): Reply {
    if fault.ReplyLost? then Err(Failed) else reply
  }

  function ServerCreate(api: Api, o: Object, fault: Fault): (Api, Reply) {
    if fault.Rejected? then (api, Err(Failed))
    else if KeyOf(o) in api.store then (api, Told(fault, Err(AlreadyExists)))
    else (Put(api, o), Told(fault, Ok(o.(version := api.nextVersion))))
  }

  /** A read serves the live object, or a cached one of the same key. */
  function ServerGet(api: Api, k: Key, fault: Fault, cached: Option<Object>): Reply {
    if !fault.NoFault? then Err(Failed)
    else if cached.Some? && cached.value in api.seen && KeyOf(cached.value) == k then Ok(cached.value)
    else if k in api.store then Ok(api.store[k])
    else Err(NotFound)
  }

  function ServerUpdate(api: Api, o: Object, fault: Fault): (Api, Reply) {
    if fault.Rejected? then (api, Err(Failed))
    else if KeyOf(o) !in api.store then (api, Told(fault, Err(NotFound)))
    else if api.store[KeyOf(o)].version != o.version then (api, Told(fault, Err(Conflict)))
    else (Put(api, o), Told(fault, Ok(o.(version := api.nextVersion))))
  }

  // --------------------------------------------------------- state machine

  /** Where a caller of `ReplaceResource` stands. `read` is the object its read returned. */
  datatype Caller =
    | Creating(res: Object)
    | Reading(res: Object)
    | Updating(res: Object, read: Object)
    | Done(replaced: bool, error: Option<Error>)

  datatype State = State(api: Api, callers: map<int, Caller>)

  datatype Action =
    | Start(id: int, res: Object)
    | Create(id: int, fault: Fault)
    | Get(id: int, fault: Fault, cached: Option<Object>)
    | Update(id: int, fault: Fault)
    | OtherPut(put: Object)
    | OtherDrop(key: Key)

  function Outcome(replaced: bool, reply: Reply): Caller {
    match reply case Ok(_) => Done(replaced, None) case Err(e) => Done(replaced, Some(e))
  }

  /** One atomic step; an action whose caller is not ready for it does nothing. */
  function Step(st: State, a: Action): State {
    match a
    case Start(id, res) => st.(callers := st.callers[id := Creating(res)])
    case Create(id, fault) =>
      if id in st.callers && st.callers[id].Creating? then
        var res := st.callers[id].res;
        var (api, reply) := ServerCreate(st.api, res, fault);
        State(api, st.callers[id := if reply == Err(AlreadyExists) then Reading(res) else Outcome(false, reply)])
      else st
    case Get(id, fault, cached) =>
      if id in st.callers && st.callers[id].Reading? then
        var res := st.callers[id].res;
        var reply := ServerGet(st.api, KeyOf(res), fault, cached);
        st.(callers := st.callers[id := match reply
                                        case Ok(o) => Updating(MapRequired(o, res), o)
                                        case Err(e) => Done(true, Some(e))])
      else st
    case Update(id, fault) =>
      if id in st.callers && st.callers[id].Updating? then
        var (api, reply) := ServerUpdate(st.api, st.callers[id].res, fault);
        State(api, st.callers[id := Outcome(true, reply)])
      else st
    case OtherPut(o) => st.(api := Put(st.api, o))
    case OtherDrop(k) => st.(api := Drop(st.api, k))
  }

  function Run(st: State, actions: seq<Action>): State {
    RunFrom(Step, st, actions)
  }

  const INITIAL := State(Api(map[], {}, 1), map[])

  // ------------------------------------------------------------- invariant

  ghost predicate ApiInv(api: Api) {
    && (forall k :: k in api.store ==> api.store[k] in api.seen && KeyOf(api.store[k]) == k)
    && (forall o :: o in api.seen ==> o.version < api.nextVersion)
    && (forall o, p :: o in api.seen && p in api.seen && o.version == p.version ==> o == p)
  }

  ghost predicate CallerInv(api: Api, c: Caller) {
    c.Updating? ==>
      && c.read in api.seen
      && KeyOf(c.res) == KeyOf(c.read)
      && c.res.version == c.read.version
      && Immutable(c.res.spec) == Immutable(c.read.spec)
  }

  ghost predicate Inv(st: State) {
    && ApiInv(st.api)
    && forall id :: id in st.callers ==> CallerInv(st.api, st.callers[id])
  }

  lemma PutKeepsInv(api: Api, o: Object)
    requires ApiInv(api)
    ensures ApiInv(Put(api, o)) && api.seen <= Put(api, o).seen
  {
  }

  /** A put by anyone keeps the invariant of every caller. */
  lemma PutKeepsCallers(st: State, o: Object, callers: map<int, Caller>)
    requires Inv(st)
    requires forall id :: id in callers ==> callers[id].Done? || (id in st.callers && callers[id] == st.callers[id])
    ensures Inv(State(Put(st.api, o), callers))
  {
    PutKeepsInv(st.api, o);
    forall id | id in callers ensures CallerInv(Put(st.api, o), callers[id]) {
      if !callers[id].Done? { assert CallerInv(st.api, st.callers[id]); }
    }
  }

  lemma GetKeepsInv(st: State, id: int, fault: Fault, cached: Option<Object>)
    requires Inv(st)
    ensures Inv(Step(st, Get(id, fault, cached)))
  {
    if id in st.callers && st.callers[id].Reading? {
      var res := st.callers[id].res;
      var reply := ServerGet(st.api, KeyOf(res), fault, cached);
      if reply.Ok? { MapRequiredOutcome(reply.value, res); }
    }
  }

  lemma StepKeepsInv(st: State, a: Action)
    requires Inv(st)
    ensures Inv(Step(st, a))
  {
    var after := Step(st, a);
    match a
    case Create(id, fault) =>
      if after.api != st.api { PutKeepsCallers(st, st.callers[id].res, after.callers); }
    case Get(id, fault, cached) => GetKeepsInv(st, id, fault, cached);
    case Update(id, fault) =>
      if after.api != st.api { PutKeepsCallers(st, st.callers[id].res, after.callers); }
    case OtherPut(o) => PutKeepsCallers(st, o, st.callers);
    case _ =>
  }

  lemma {:induction false} RunKeepsInv(st: State, actions: seq<Action>)
    requires Inv(st)
    ensures Inv(Run(st, actions))
    decreases |actions|
  {
    if actions == [] {
    } else {
      StepKeepsInv(st, actions[0]);
      RunKeepsInv(Step(st, actions[0]), actions[1..]);
    }
  }

  // --------------------------------------------------------------- results

  ghost predicate ActsFor(a: Action, id: int) {
    !a.OtherPut? && !a.OtherDrop? && a.id == id
  }

  /** The caller takes its next step with this call. */
  ghost predicate Acts(st: State, id: int, a: Action) {
    && ActsFor(a, id) && id in st.callers
    && ((a.Create? && st.callers[id].Creating?) || (a.Get? && st.callers[id].Reading?) ||
        (a.Update? && st.callers[id].Updating?))
  }

  /**
   No false success: a call that ends a replace without an error has stored the
   object it held, as a creation if there was none and as a replacement if there was.
   */
  lemma SuccessMeansStored(st: State, id: int, a: Action)
    requires ActsFor(a, id) && !a.Start? && id in st.callers && !st.callers[id].Done?
    requires Step(st, a).callers[id].Done? && Step(st, a).callers[id].error.None?
    ensures
      var res, k := st.callers[id].res, KeyOf(st.callers[id].res);
      && Acts(st, id, a) && a.fault == NoFault
      && Step(st, a).api.store == st.api.store[k := res.(version := st.api.nextVersion)]
      && if k in st.api.store then
           a.Update? && Step(st, a).callers[id].replaced && st.api.store[k].version == res.version
         else
           a.Create? && !Step(st, a).callers[id].replaced
  {
  }

  /** A call that ends a replace with an error: which error, and that nothing was stored unless the reply was lost. */
  lemma FailureMeaning(st: State, id: int, a: Action)
    requires Acts(st, id, a) && Step(st, a).callers[id].Done? && Step(st, a).callers[id].error.Some?
    ensures
      var k, e := KeyOf(st.callers[id].res), Step(st, a).callers[id].error.value;
      && Step(st, a).callers[id].replaced == !a.Create?
      && (a.fault != ReplyLost ==> Step(st, a).api == st.api)
      && (a.fault != NoFault ==> e == Failed)
      && (a.fault == NoFault ==>
            && !a.Create?
            && if k !in st.api.store then e == NotFound
               else a.Update? && e == Conflict && st.api.store[k].version != st.callers[id].res.version)
  {
  }

  /** A call that does not end a replace: the object exists, or it has been read, live or from the cache. */
  lemma GoingOnMeaning(st: State, id: int, a: Action)
    requires Acts(st, id, a) && !Step(st, a).callers[id].Done?
    ensures
      var res, k, next := st.callers[id].res, KeyOf(st.callers[id].res), Step(st, a).callers[id];
      && Step(st, a).api == st.api && a.fault == NoFault
      && if a.Create? then k in st.api.store && next == Reading(res)
         else
           && a.Get? && next.Updating? && next.res == MapRequired(next.read, res)
           && ((k in st.api.store && next.read == st.api.store[k]) ||
               (a.cached == Some(next.read) && next.read in st.api.seen && KeyOf(next.read) == k))
  {
  }

  /** The state in which action `k` of a run is taken. */
  ghost function Before(actions: seq<Action>, k: nat): State
    requires k <= |actions|
  {
    Run(INITIAL, actions[..k])
  }

  /** The latest replace of caller `id` asked for `res`, at `b`. */
  ghost predicate Requested(actions: seq<Action>, id: int, b: nat, res: Object) {
    && b < |actions| && actions[b] == Start(id, res)
    && forall k :: b < k < |actions| ==> !(actions[k].Start? && actions[k].id == id)
  }

  ghost predicate SamePayload(a: Object, b: Object) {
    KeyOf(a) == KeyOf(b) && a.spec.rest == b.spec.rest
  }

  /** Call `k` of caller `id` stored what `res` asks for, over an older object or as a new one. */
  ghost predicate StoredAt(actions: seq<Action>, id: int, res: Object, replaced: bool, k: nat) {
    && k < |actions| && ActsFor(actions[k], id)
    && var before, after := Before(actions, k).api, Before(actions, k + 1).api;
    && KeyOf(res) in after.store && SamePayload(after.store[KeyOf(res)], res)
    && after.store == before.store[KeyOf(res) := after.store[KeyOf(res)]]
    && after.store[KeyOf(res)].version == before.nextVersion
    && (replaced <==> KeyOf(res) in before.store)
  }

  ghost predicate Pending(actions: seq<Action>, id: int, held: Object) {
    exists b, res :: Requested(actions, id, b, res) && SamePayload(held, res)
  }

  ghost predicate Fulfilled(actions: seq<Action>, id: int, replaced: bool) {
    exists b, k, res :: b < k && Requested(actions, id, b, res) && StoredAt(actions, id, res, replaced, k)
  }

  lemma AccountExtends(actions: seq<Action>, a: Action, id: int)
    requires !(a.Start? && a.id == id)
    ensures forall held :: Pending(actions, id, held) ==> Pending(actions + [a], id, held)
    ensures forall replaced :: Fulfilled(actions, id, replaced) ==> Fulfilled(actions + [a], id, replaced)
  {
    forall held | Pending(actions, id, held) ensures Pending(actions + [a], id, held) {
      var b, res :| Requested(actions, id, b, res) && SamePayload(held, res);
      assert Requested(actions + [a], id, b, res);
    }
    forall replaced | Fulfilled(actions, id, replaced) ensures Fulfilled(actions + [a], id, replaced) {
      var b, k, res :| b < k && Requested(actions, id, b, res) && StoredAt(actions, id, res, replaced, k);
      assert (actions + [a])[..k] == actions[..k] && (actions + [a])[..k + 1] == actions[..k + 1];
      assert Requested(actions + [a], id, b, res) && StoredAt(actions + [a], id, res, replaced, k);
    }
  }

  /** The step that ends a replace without an error fulfils the request its caller had pending. */
  lemma SuccessFulfils(front: seq<Action>, a: Action, id: int)
    requires
      var st := Run(INITIAL, front);
      && ActsFor(a, id) && !a.Start? && id in st.callers && !st.callers[id].Done?
      && Pending(front, id, st.callers[id].res)
      && Step(st, a).callers[id].Done? && Step(st, a).callers[id].error.None?
    ensures Fulfilled(front + [a], id, Step(Run(INITIAL, front), a).callers[id].replaced)
  {
    var st := Run(INITIAL, front);
    var b, res :| Requested(front, id, b, res) && SamePayload(st.callers[id].res, res);
    SuccessMeansStored(st, id, a);
    RunOne(Step, INITIAL, front, a);
    assert (front + [a])[..|front|] == front && (front + [a])[..|front| + 1] == front + [a];
    assert Requested(front + [a], id, b, res);
    assert StoredAt(front + [a], id, res, Step(st, a).callers[id].replaced, |front|);
  }

  /**
   No false success over any run: a caller that ended without an error has,
   since its request, stored what it asked for, and reports a replacement
   exactly if there was an object to replace.
   */
  lemma {:induction false} SuccessIsFulfilled(actions: seq<Action>, id: int)
    ensures
      var st := Run(INITIAL, actions);
      id in st.callers ==>
        match st.callers[id]
        case Done(replaced, error) => error.None? ==> Fulfilled(actions, id, replaced)
        case c => Pending(actions, id, c.res)
  {
    if actions == [] {
    } else {
      var front, a := actions[..|actions| - 1], actions[|actions| - 1];
      assert actions == front + [a];
      SuccessIsFulfilled(front, id);
      RunOne(Step, INITIAL, front, a);
      var st, after := Run(INITIAL, front), Run(INITIAL, actions);
      if a.Start? && a.id == id {
        assert Requested(actions, id, |front|, a.res) && SamePayload(a.res, a.res);
      } else {
        AccountExtends(front, a, id);
        if id in st.callers && after.callers[id] != st.callers[id] {
          if after.callers[id].Updating? {
            MapRequiredOutcome(after.callers[id].read, st.callers[id].res);
            SamePayloadPending(actions, id, st.callers[id].res, after.callers[id].res);
          }
          if after.callers[id].Done? && after.callers[id].error.None? { SuccessFulfils(front, a, id); }
        }
      }
    }
  }

  lemma SamePayloadPending(actions: seq<Action>, id: int, a: Object, b: Object)
    requires Pending(actions, id, a) && SamePayload(a, b)
    ensures Pending(actions, id, b)
  {
    var i, res :| Requested(actions, id, i, res) && SamePayload(a, res);
    assert SamePayload(b, res);
  }

  // ---------------------------------------------------------------- safety

  /**
   Main theorem. Whatever happened before, an update step of `ReplaceResource`
   that changes the store overwrites exactly the object its caller read, keeps
   ClusterIP and Host, writes the requested payload and touches no other key.
   */
  lemma UpdateIsSafe(actions: seq<Action>, id: int, fault: Fault)
    ensures
      var st := Run(INITIAL, actions);
      var after := Step(st, Update(id, fault));
      after.api.store != st.api.store ==>
        && id in st.callers && st.callers[id].Updating?
        && var c := st.callers[id];
        && var k := KeyOf(c.res);
        && k in st.api.store && st.api.store[k] == c.read
        && after.api.store == st.api.store[k := c.res.(version := st.api.nextVersion)]
        && var was, now := st.api.store[k].spec, after.api.store[k].spec;
        && (was.Service? ==> now.Service? && now.clusterIP == was.clusterIP)
        && (was.Route? ==> now.Route? && now.host == was.host)
        && after.api.store[k].version > st.api.store[k].version
  {
    RunKeepsInv(INITIAL, actions);
  }

  /** The caller holds a version that is no longer live. */
  ghost predicate Overtaken(st: State, id: int) {
    && id in st.callers && st.callers[id].Updating?
    && var k := KeyOf(st.callers[id].res);
    && (k !in st.api.store || st.api.store[k].version != st.callers[id].res.version)
  }

  lemma OvertakenStep(st: State, id: int, a: Action)
    requires Inv(st) && Overtaken(st, id) && !ActsFor(a, id)
    ensures Overtaken(Step(st, a), id)
  {
    assert CallerInv(st.api, st.callers[id]);
  }

  /** An overtaken caller stays overtaken, whatever the others do: the old version never becomes live again. */
  lemma {:induction false} OvertakenForever(st: State, id: int, actions: seq<Action>)
    requires Inv(st) && Overtaken(st, id)
    requires forall k :: 0 <= k < |actions| ==> !ActsFor(actions[k], id)
    ensures Overtaken(Run(st, actions), id)
    decreases |actions|
  {
    if actions == [] {
    } else {
      OvertakenStep(st, id, actions[0]);
      StepKeepsInv(st, actions[0]);
      OvertakenForever(Step(st, actions[0]), id, actions[1..]);
    }
  }

  /** Any step of another party that changes the object a caller has read overtakes that caller. */
  lemma ChangeOvertakes(st: State, id: int, a: Action)
    requires Inv(st) && id in st.callers && st.callers[id].Updating? && !ActsFor(a, id)
    requires
      var k := KeyOf(st.callers[id].res);
      (k in st.api.store) != (k in Step(st, a).api.store) ||
      (k in st.api.store && st.api.store[k] != Step(st, a).api.store[k])
    ensures Overtaken(Step(st, a), id)
  {
    assert CallerInv(st.api, st.callers[id]);
  }

  /** No lost update: once overtaken, a caller's update is refused and the store is as it was. */
  lemma OvertakenUpdateRefused(st: State, id: int, actions: seq<Action>, fault: Fault)
    requires Inv(st) && Overtaken(st, id)
    requires forall k :: 0 <= k < |actions| ==> !ActsFor(actions[k], id)
    ensures
      var before := Run(st, actions);
      var after := Step(before, Update(id, fault));
      && after.api == before.api
      && id in after.callers && after.callers[id].Done?
      && after.callers[id].replaced && after.callers[id].error.Some?
  {
    OvertakenForever(st, id, actions);
  }

  // ------------------------------------------------------------ imperative

  ghost predicate OnlyOthers(actions: seq<Action>) {
    forall k :: 0 <= k < |actions| ==> actions[k].OtherPut? || actions[k].OtherDrop?
  }

  /** The server object the operator talks to. */
  class ApiServer {
    var api: Api

    constructor ()
      ensures api == INITIAL.api
    {
      api := Api(map[], {}, 1);
    }

    method CreateObject(o: Object, fault: Fault) returns (reply: Reply)
      modifies this
      ensures (api, reply) == ServerCreate(old(api), o, fault)
    {
      var (next, told) := ServerCreate(api, o, fault);
      api, reply := next, told;
    }

    method GetObject(k: Key, fault: Fault, cached: Option<Object>) returns (reply: Reply)
      ensures reply == ServerGet(api, k, fault, cached)
    {
      reply := ServerGet(api, k, fault, cached);
    }

    method UpdateObject(o: Object, fault: Fault) returns (reply: Reply)
      modifies this
      ensures (api, reply) == ServerUpdate(old(api), o, fault)
    {
      var (next, told) := ServerUpdate(api, o, fault);
      api, reply := next, told;
    }

    /** Other writers, between two calls of one caller. */
    method Interfere(actions: seq<Action>, ghost callers: map<int, Caller>)
      requires OnlyOthers(actions)
      modifies this
      ensures State(api, callers) == Run(State(old(api), callers), actions)
    {
      ghost var start := State(api, callers);
      for i := 0 to |actions|
        invariant Run(start, actions) == Run(State(api, callers), actions[i..])
      {
        match actions[i] {
          case OtherPut(o) => api := Put(api, o);
          case OtherDrop(k) => api := Drop(api, k);
        }
        assert actions[i..][1..] == actions[i + 1..];
      }
    }
  }

  /** What the world does during one call: failures, a possible cached read, and other writers in between. */
  datatype World = World(
    create: Fault, get: Fault, update: Fault, cached: Option<Object>,
    beforeGet: seq<Action>, beforeUpdate: seq<Action>)

  /** The calls of a replace once the object is known to exist. */
  function ExistingScript(id: int, world: World): seq<Action> {
    world.beforeGet + [Get(id, world.get, world.cached)] + world.beforeUpdate + [Update(id, world.update)]
  }

  /** The calls of one replace in this world, were each to lead to the next. */
  function Script(id: int, res: Object, world: World): seq<Action> {
    [Start(id, res), Create(id, world.create)] + ExistingScript(id, world)
  }

  /**
   The code, proved to be one caller of the machine: the server ends as the
   machine ends on `trace`, a prefix of the calls of its script, and the result
   is what the machine's caller holds.
   */
  method ReplaceResource(server: ApiServer, res: Object, world: World, ghost id: int, ghost callers: map<int, Caller>)
    returns (replaced: bool, error: Option<Error>, ghost trace: seq<Action>)
    requires OnlyOthers(world.beforeGet) && OnlyOthers(world.beforeUpdate)
    modifies server
    ensures trace <= Script(id, res, world)
    ensures
      var final := Run(State(old(server.api), callers), trace);
      && server.api == final.api
      && final.callers == callers[id := Done(replaced, error)]
    ensures replaced <==> world.create == NoFault && KeyOf(res) in old(server.api.store)
    ensures world.create != NoFault ==> error == Some(Failed)
    ensures world.create == Rejected ==> server.api == old(server.api)
    ensures replaced && (world.get != NoFault || world.update != NoFault) ==> error.Some?
    ensures error.None? ==>
              && KeyOf(res) in server.api.store
              && server.api.store[KeyOf(res)].version + 1 == server.api.nextVersion
              && server.api.store[KeyOf(res)].spec.rest == res.spec.rest
    ensures !replaced && error.None? ==>
              server.api.store == old(server.api.store)[KeyOf(res) := res.(version := old(server.api.nextVersion))]
  {
    ghost var start := State(server.api, callers);
    trace := [Start(id, res), Create(id, world.create)];
    assert trace == [] + [Start(id, res)] + [Create(id, world.create)];
    RunOne(Step, start, [], Start(id, res));
    RunOne(Step, start, [] + [Start(id, res)], Create(id, world.create));
    replaced := false;
    var reply := server.CreateObject(res, world.create);
    if reply == Err(AlreadyExists) {
      replaced := true;
      ghost var mine := callers[id := Reading(res)];
      assert Run(start, trace) == State(server.api, mine);
      ghost var rest;
      error, rest := ReplaceExisting(server, res, world, id, mine);
      assert mine[id := Done(true, error)] == callers[id := Done(true, error)];
      RunAppend(Step, start, trace, rest);
      trace := trace + rest;
    } else {
      error := if reply.Err? then Some(reply.error) else None;
    }
    assert Run(start, trace).callers == callers[id := Done(replaced, error)];
  }

  /** The branch taken when the object exists: read it, take over what must stay, update. */
  method ReplaceExisting(server: ApiServer, res: Object, world: World, ghost id: int, ghost callers: map<int, Caller>)
    returns (error: Option<Error>, ghost trace: seq<Action>)
    requires OnlyOthers(world.beforeGet) && OnlyOthers(world.beforeUpdate)
    requires id in callers && callers[id] == Reading(res)
    modifies server
    ensures trace <= ExistingScript(id, world)
    ensures
      var final := Run(State(old(server.api), callers), trace);
      server.api == final.api && final.callers == callers[id := Done(true, error)]
    ensures world.get != NoFault || world.update != NoFault ==> error.Some?
    ensures error.None? ==>
              && KeyOf(res) in server.api.store
              && server.api.store[KeyOf(res)].version + 1 == server.api.nextVersion
              && server.api.store[KeyOf(res)].spec.rest == res.spec.rest
  {
    ghost var start := State(server.api, callers);
    server.Interfere(world.beforeGet, callers);
    trace := world.beforeGet;
    RunOne(Step, start, trace, Get(id, world.get, world.cached));
    trace := trace + [Get(id, world.get, world.cached)];
    var existing := server.GetObject(KeyOf(res), world.get, world.cached);
    if existing.Err? { return Some(existing.error), trace; }
    var target := MapRequiredMeta(existing.value, res);
    target := MapRequiredServiceData(existing.value, target);
    target := MapRequiredRouteData(existing.value, target);
    ghost var mine := callers[id := Updating(target, existing.value)];
    assert Run(start, trace) == State(server.api, mine);
    RunAppend(Step, start, trace, world.beforeUpdate);
    server.Interfere(world.beforeUpdate, mine);
    trace := trace + world.beforeUpdate;
    RunOne(Step, start, trace, Update(id, world.update));
    trace := trace + [Update(id, world.update)];
    var reply := server.UpdateObject(target, world.update);
    error := if reply.Err? then Some(reply.error) else None;
    assert Run(start, trace).callers == callers[id := Done(true, error)];
  }

  /** Undisturbed, an object that does not exist is created as requested. */
  lemma UndisturbedCreate(api: Api, res: Object)
    requires KeyOf(res) !in api.store
    ensures
      var end := Run(State(api, map[]), [Start(0, res), Create(0, NoFault)]);
      && end.callers == map[0 := Done(false, None)]
      && end.api.store == api.store[KeyOf(res) := res.(version := api.nextVersion)]
  {
    var st := State(api, map[]);
    RunOne(Step, st, [], Start(0, res));
    RunOne(Step, st, [Start(0, res)], Create(0, NoFault));
    assert [] + [Start(0, res)] == [Start(0, res)];
    assert [Start(0, res)] + [Create(0, NoFault)] == [Start(0, res), Create(0, NoFault)];
  }

  /** Undisturbed, an existing object is replaced: payload taken, immutable fields and other keys kept. */
  lemma UndisturbedReplace(api: Api, res: Object)
    requires ApiInv(api) && KeyOf(res) in api.store
    ensures
      var k := KeyOf(res);
      var end := Run(State(api, map[]), [Start(0, res), Create(0, NoFault), Get(0, NoFault, None), Update(0, NoFault)]);
      && end.callers == map[0 := Done(true, None)]
      && k in end.api.store
      && end.api.store == api.store[k := end.api.store[k]]
      && end.api.store[k].spec.rest == res.spec.rest
      && Immutable(end.api.store[k].spec) == Immutable(api.store[k].spec)
      && end.api.store[k].version == api.nextVersion
  {
    var st := State(api, map[]);
    var a, b, c, d := Start(0, res), Create(0, NoFault), Get(0, NoFault, None), Update(0, NoFault);
    MapRequiredOutcome(api.store[KeyOf(res)], res);
    var s1 := Step(st, a);
    var s2 := Step(s1, b);
    var s3 := Step(s2, c);
    assert s2.callers[0] == Reading(res);
    assert s3.callers[0] == Updating(MapRequired(api.store[KeyOf(res)], res), api.store[KeyOf(res)]);
    RunOne(Step, st, [a, b, c], d);
    RunOne(Step, st, [a, b], c);
    RunOne(Step, st, [a], b);
    RunOne(Step, st, [], a);
    assert [a, b, c] + [d] == [a, b, c, d] && [a, b] + [c] == [a, b, c] && [a] + [b] == [a, b] && [] + [a] == [a];
  }
}
