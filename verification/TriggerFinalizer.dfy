/**
 Trigger cleanup behind a finalizer, for workflows and platforms alike. A
 deleted owner is read, every trigger listed in its status is deleted, and only
 then the finalizer is removed by an update. Any call may fail, other writers
 may act between any two calls, and reads may be stale.
 */
module TriggerFinalizer {
  import opened Common

  const FINALIZER := "trigger-deletion"

  datatype Ref = Ref(name: string, namespace: string)

  /** The owner of the triggers, a SonataFlow or a SonataFlowPlatform. */
  datatype Owner = Owner(
    version: nat,
    deleting: bool,
    finalizers: seq<string>,
    triggers: seq<Ref>,
    profile: string,
    deploymentModel: string)

  function RemoveFinalizer(fs: seq<string>, f: string): (r: seq<string>)
    ensures f !in r
    ensures forall g :: g != f ==> multiset(r)[g] == multiset(fs)[g]
  {
    if fs == [] then []
    else
      assert fs == [fs[0]] + fs[1..];
      if fs[0] == f then RemoveFinalizer(fs[1..], f) else [fs[0]] + RemoveFinalizer(fs[1..], f)
  }

  /** What is left keeps its order. */
  lemma {:induction false} RemoveFinalizerAppend(a: seq<string>, b: seq<string>, f: string)
    ensures RemoveFinalizer(a + b, f) == RemoveFinalizer(a, f) + RemoveFinalizer(b, f)
  {
    if a == [] {
      assert a + b == b;
    } else {
      assert (a + b)[0] == a[0] && (a + b)[1..] == a[1..] + b;
      RemoveFinalizerAppend(a[1..], b, f);
    }
  }

  // --------------------------------------------------------------- server

  datatype Error = NotFound | Conflict | Failed

  datatype Reply = Ok(value: Owner) | Err(error: Error)

  /** The answer to the deletion of one trigger. */
  datatype Answer = Deleted | Absent | Refused

  /** One stored owner; `seen` holds every version ever stored. */
  datatype Api = Api(store: Option<Owner>, seen: set<Owner>, nextVersion: nat)

  /** A deleted object without finalizers is removed by the server. */
  function Commit(api: Api, o: Owner): Api {
    var stored := o.(version := api.nextVersion);
    Api(if o.deleting && o.finalizers == [] then None else Some(stored), api.seen + {stored}, api.nextVersion + 1)
  }

  function ServerGet(api: Api, fault: Fault, cached: Option<Owner>): Reply {
    if !fault.NoFault? then Err(Failed)
    else if cached.Some? && cached.value in api.seen then Ok(cached.value)
    else if api.store.Some? then Ok(api.store.value)
    else Err(NotFound)
  }

  /** An update of the object, not of its status: the listed triggers are the live ones. */
  function ServerUpdate(api: Api, o: Owner, fault: Fault): (Api, Reply) {
    if fault.Rejected? then (api, Err(Failed))
    else if api.store.None? then (api, Err(if fault.ReplyLost? then Failed else NotFound))
    else if api.store.value.version != o.version then (api, Err(if fault.ReplyLost? then Failed else Conflict))
    else
      var stored := o.(triggers := api.store.value.triggers);
      (Commit(api, stored), if fault.ReplyLost? then Err(Failed) else Ok(stored.(version := api.nextVersion)))
  }

  // ------------------------------------------------------- state machine

  /** The two controllers that clean up triggers. */
  datatype Controller = Workflow | Platform

  const SUPPORTED_PROFILES := {"dev", "preview", "gitops"}

  /** `setDefaults`, which only the workflow controller calls. */
  function SetDefaults(controller: Controller, o: Owner): Owner {
    match controller
    case Platform => o
    case Workflow =>
      var profile := if o.profile in SUPPORTED_PROFILES then o.profile else "preview";
      o.(profile := profile, deploymentModel := if profile == "dev" then "kubernetes" else o.deploymentModel)
  }

  /** A platform is left as it is; a workflow gets a supported profile, and `kubernetes` as the model of `dev`. */
  lemma DefaultsOutcome(o: Owner)
    ensures SetDefaults(Platform, o) == o
    ensures SetDefaults(Workflow, o).profile in {"dev", "preview", "gitops"}
    ensures SetDefaults(Workflow, o).profile == o.profile ||
            (o.profile !in {"dev", "preview", "gitops"} && SetDefaults(Workflow, o).profile == "preview")
    ensures SetDefaults(Workflow, o).deploymentModel == if o.profile == "dev" then "kubernetes" else o.deploymentModel
    ensures SetDefaults(Workflow, o).(profile := o.profile, deploymentModel := o.deploymentModel) == o
  {
  }

  /** A cleanup in progress: the owner as read, as edited, and the index of the trigger to delete next. */
  datatype Attempt =
    | Cleaning(read: Owner, edited: Owner, next: nat)
    | Ended(error: Option<Error>)
    | Skipped

  datatype State = State(api: Api, attempts: map<int, Attempt>)

  datatype Action =
    | Begin(id: int, controller: Controller, fault: Fault, cached: Option<Owner>)
    | Delete(id: int, trigger: Ref, answer: Answer)
    | Finish(id: int, fault: Fault)
    | OtherWrite(owner: Owner)

  predicate Cleans(st: State, id: int) { id in st.attempts && st.attempts[id].Cleaning? }

  /** The attempt deletes this trigger next. */
  predicate DeletesNext(st: State, id: int, trigger: Ref) {
    && Cleans(st, id) && st.attempts[id].next < |st.attempts[id].edited.triggers|
    && st.attempts[id].edited.triggers[st.attempts[id].next] == trigger
  }

  function FinishedOwner(a: Attempt): Owner
    requires a.Cleaning?
  {
    a.edited.(finalizers := RemoveFinalizer(a.edited.finalizers, FINALIZER))
  }

  function Step(st: State, a: Action): State {
    match a
    case Begin(id, controller, fault, cached) =>
      var attempt := match ServerGet(st.api, fault, cached)
        case Err(NotFound) => Ended(None)
        case Err(e) => Ended(Some(e))
        case Ok(o) =>
          if o.deleting && FINALIZER in o.finalizers then Cleaning(o, SetDefaults(controller, o), 0) else Skipped;
      st.(attempts := st.attempts[id := attempt])
    case Delete(id, trigger, answer) =>
      if DeletesNext(st, id, trigger) then
        var c := st.attempts[id];
        var attempt := if answer.Refused? then Ended(Some(Failed)) else c.(next := c.next + 1);
        st.(attempts := st.attempts[id := attempt])
      else st
    case Finish(id, fault) =>
      if Cleans(st, id) && st.attempts[id].next == |st.attempts[id].edited.triggers| then
        var c := st.attempts[id];
        var (api, reply) := ServerUpdate(st.api, FinishedOwner(c), fault);
        State(api, st.attempts[id := Ended(if reply.Ok? then None else Some(reply.error))])
      else st
    case OtherWrite(o) => st.(api := Commit(st.api, o))
  }

  function Run(st: State, actions: seq<Action>): State {
    RunFrom(Step, st, actions)
  }

  const INITIAL := State(Api(None, {}, 1), map[])

  // --------------------------------------------------------------- results

  /** The attempt takes a step with this call: it begins, deletes its next trigger, or has deleted all and finishes. */
  ghost predicate Acts(st: State, id: int, a: Action) {
    match a
    case Begin(i, _, _, _) => i == id
    case Delete(i, trigger, _) => i == id && DeletesNext(st, id, trigger)
    case Finish(i, _) => i == id && Cleans(st, id) && st.attempts[id].next == |st.attempts[id].edited.triggers|
    case OtherWrite(_) => false
  }

  /** Any call at which an attempt comes to an end without an error found no owner, or removed the finalizer. */
  lemma NoErrorMeansRemoved(st: State, id: int, a: Action)
    requires id in Step(st, a).attempts && Step(st, a).attempts[id] == Ended(None)
    requires id !in st.attempts || st.attempts[id] != Ended(None)
    ensures Acts(st, id, a) && (a.Begin? || a.Finish?) && a.fault == NoFault
    ensures a.Begin? ==> st.api.store.None?
    ensures a.Finish? ==>
              && st.api.store.Some? && st.api.store.value.version == st.attempts[id].edited.version
              && Step(st, a).api.nextVersion == st.api.nextVersion + 1
              && (Step(st, a).api.store.Some? ==> "trigger-deletion" !in Step(st, a).api.store.value.finalizers)
  {
  }

  /** What ends an attempt with an error, and that nothing was stored unless the reply was lost. */
  lemma ErrorMeaning(st: State, id: int, a: Action)
    requires Acts(st, id, a) && Step(st, a).attempts[id].Ended? && Step(st, a).attempts[id].error.Some?
    ensures
      var e := Step(st, a).attempts[id].error.value;
      match a
      case Begin(_, _, fault, _) => fault != NoFault && e == Failed && Step(st, a).api == st.api
      case Delete(_, _, answer) => answer == Refused && e == Failed && Step(st, a).api == st.api
      case Finish(_, fault) =>
        && (fault != ReplyLost ==> Step(st, a).api == st.api)
        && if fault != NoFault then e == Failed
           else if st.api.store.None? then e == NotFound
           else e == Conflict && st.api.store.value.version != st.attempts[id].edited.version
  {
  }

  /** A call after which an attempt has not ended: it cleans up a deleted owner with the finalizer, or stays out. */
  lemma GoingOnMeaning(st: State, id: int, a: Action)
    requires Acts(st, id, a) && !Step(st, a).attempts[id].Ended?
    ensures Step(st, a).api == st.api
    ensures
      var next := Step(st, a).attempts[id];
      match a
      case Begin(_, controller, fault, cached) =>
        && fault == NoFault
        && exists o :: (st.api.store == Some(o) || (cached == Some(o) && o in st.api.seen))
                       && next == if o.deleting && "trigger-deletion" in o.finalizers
                                  then Cleaning(o, SetDefaults(controller, o), 0) else Skipped
      case Delete(_, _, answer) =>
        answer != Refused && next == st.attempts[id].(next := st.attempts[id].next + 1)
      case Finish(_, _) => false
  {
    if a.Begin? {
      var o := ServerGet(st.api, a.fault, a.cached).value;
      assert st.api.store == Some(o) || (a.cached == Some(o) && o in st.api.seen);
    }
  }

  // ------------------------------------------------------------ invariant

  ghost predicate ApiInv(api: Api) {
    && (api.store.Some? ==> api.store.value in api.seen)
    && (forall o :: o in api.seen ==> o.version < api.nextVersion)
    && (forall o, p :: o in api.seen && p in api.seen && o.version == p.version ==> o == p)
  }

  ghost predicate AttemptInv(api: Api, a: Attempt) {
    a.Cleaning? ==>
      && a.read in api.seen
      && a.read.deleting && FINALIZER in a.read.finalizers
      && (a.edited == SetDefaults(Workflow, a.read) || a.edited == SetDefaults(Platform, a.read))
      && a.next <= |a.edited.triggers|
  }

  ghost predicate Inv(st: State) {
    && ApiInv(st.api)
    && forall id :: id in st.attempts ==> AttemptInv(st.api, st.attempts[id])
  }

  lemma CommitKeepsInv(api: Api, o: Owner)
    requires ApiInv(api)
    ensures ApiInv(Commit(api, o)) && api.seen <= Commit(api, o).seen
  {
  }

  lemma StepKeepsInv(st: State, a: Action)
    requires Inv(st)
    ensures Inv(Step(st, a))
  {
    match a
    case Finish(id, fault) =>
      if id in st.attempts && st.attempts[id].Cleaning? && st.api.store.Some? {
        CommitKeepsInv(st.api, FinishedOwner(st.attempts[id]).(triggers := st.api.store.value.triggers));
      }
    case OtherWrite(o) => CommitKeepsInv(st.api, o);
    case _ =>
  }

  lemma {:induction false} RunKeepsInv(st: State, actions: seq<Action>)
    requires Inv(st)
    ensures Inv(Run(st, actions))
    decreases |actions|
  {
    if actions == [] {
    } else {
      StepKeepsInv(st, actions[0]);
      RunKeepsInv(Step(st, actions[0]), actions[1..]);
    }
  }

  // --------------------------------------------------------------- safety

  /** The state in which action `k` of a run is taken. */
  ghost function Before(actions: seq<Action>, k: nat): State
    requires k <= |actions|
  {
    Run(INITIAL, actions[..k])
  }

  /** Action `d` deleted trigger `i` that `owner` lists for attempt `id`, or found it absent. */
  ghost predicate Answered(actions: seq<Action>, id: int, owner: Owner, d: nat, i: int) {
    && d < |actions| && actions[d].Delete? && actions[d].id == id && actions[d].answer in {Deleted, Absent}
    && 0 <= i < |owner.triggers| && actions[d].trigger == owner.triggers[i]
    && var st := Before(actions, d);
    && Cleans(st, id)
    && st.attempts[id].read == owner && st.attempts[id].next == i
  }

  ghost predicate AnsweredSince(actions: seq<Action>, id: int, owner: Owner, b: nat, i: int) {
    exists d :: b < d && Answered(actions, id, owner, d, i)
  }

  ghost predicate Begins(a: Action, id: int) { a.Begin? && a.id == id }

  /** The latest attempt of `id` began at `b`, and has since had the first `n` triggers of `owner` answered for. */
  ghost predicate Cleaned(actions: seq<Action>, id: int, owner: Owner, b: nat, n: nat) {
    && b < |actions| && Begins(actions[b], id)
    && (forall k :: b < k < |actions| ==> !Begins(actions[k], id))
    && forall i :: 0 <= i < n ==> AnsweredSince(actions, id, owner, b, i)
  }

  lemma AnsweredExtends(actions: seq<Action>, a: Action, id: int, owner: Owner, d: nat, i: int)
    requires Answered(actions, id, owner, d, i)
    ensures Answered(actions + [a], id, owner, d, i)
  {
    assert (actions + [a])[..d] == actions[..d];
  }

  lemma CleanedExtends(actions: seq<Action>, a: Action, id: int, owner: Owner, b: nat, n: nat)
    requires Cleaned(actions, id, owner, b, n) && !Begins(a, id)
    ensures Cleaned(actions + [a], id, owner, b, n)
  {
    forall i | 0 <= i < n ensures AnsweredSince(actions + [a], id, owner, b, i) {
      assert AnsweredSince(actions, id, owner, b, i);
      var d :| b < d && Answered(actions, id, owner, d, i);
      AnsweredExtends(actions, a, id, owner, d, i);
    }
  }

  /** One more answered deletion. */
  lemma CleanedOneMore(actions: seq<Action>, a: Action, id: int, owner: Owner, b: nat, n: nat)
    requires Cleaned(actions, id, owner, b, n) && !Begins(a, id)
    requires Answered(actions + [a], id, owner, |actions|, n)
    ensures Cleaned(actions + [a], id, owner, b, n + 1)
  {
    CleanedExtends(actions, a, id, owner, b, n);
    assert AnsweredSince(actions + [a], id, owner, b, n);
  }

  /** What is edited after a read are not the triggers. */
  lemma EditedTriggers(actions: seq<Action>, id: int)
    ensures Cleans(Run(INITIAL, actions), id) ==>
              Run(INITIAL, actions).attempts[id].edited.triggers == Run(INITIAL, actions).attempts[id].read.triggers
  {
    RunKeepsInv(INITIAL, actions);
    if Cleans(Run(INITIAL, actions), id) {
      assert AttemptInv(Run(INITIAL, actions).api, Run(INITIAL, actions).attempts[id]);
    }
  }

  lemma CleanedStep(front: seq<Action>, a: Action, id: int, b: nat)
    requires
      var st := Run(INITIAL, front);
      && Cleans(st, id) && Cleaned(front, id, st.attempts[id].read, b, st.attempts[id].next)
      && !Begins(a, id) && Cleans(Step(st, a), id)
    ensures
      var after := Step(Run(INITIAL, front), a);
      Cleaned(front + [a], id, after.attempts[id].read, b, after.attempts[id].next)
  {
    var st := Run(INITIAL, front);
    CleanedExtends(front, a, id, st.attempts[id].read, b, st.attempts[id].next);
    if Step(st, a).attempts[id].next != st.attempts[id].next {
      assert (front + [a])[..|front|] == front;
      EditedTriggers(front, id);
      CleanedOneMore(front, a, id, st.attempts[id].read, b, st.attempts[id].next);
    }
  }

  /** In every run an attempt in progress has had every trigger up to its index answered for, since it began. */
  lemma {:induction false} AttemptIsCleaned(actions: seq<Action>, id: int)
    ensures
      var st := Run(INITIAL, actions);
      Cleans(st, id) ==>
        exists b :: Cleaned(actions, id, st.attempts[id].read, b, st.attempts[id].next)
  {
    if actions == [] {
    } else {
      var front, a := actions[..|actions| - 1], actions[|actions| - 1];
      assert actions == front + [a];
      var st := Run(INITIAL, front);
      RunOne(Step, INITIAL, front, a);
      AttemptIsCleaned(front, id);
      var after := Step(st, a);
      if Begins(a, id) {
        if Cleans(after, id) { assert Cleaned(actions, id, after.attempts[id].read, |front|, 0); }
      } else if Cleans(after, id) {
        var b :| Cleaned(front, id, st.attempts[id].read, b, st.attempts[id].next);
        CleanedStep(front, a, id, b);
      }
    }
  }

  /**
   A finishing step that changes the store found there exactly the owner its
   attempt had read: being deleted, with the finalizer, and with every listed
   trigger answered for since the attempt began. It removes the finalizer and
   keeps all the others.
   */
  lemma FinishIsSafe(actions: seq<Action>, id: int, fault: Fault)
    ensures
      var st := Run(INITIAL, actions);
      var after := Step(st, Finish(id, fault));
      after.api != st.api ==>
        && Cleans(st, id)
        && var read := st.attempts[id].read;
        && st.api.store == Some(read)
        && read.deleting && "trigger-deletion" in read.finalizers
        && (exists b :: Cleaned(actions, id, read, b, |read.triggers|))
        && (after.api.store.None? <==> forall f :: f in read.finalizers ==> f == "trigger-deletion")
        && (after.api.store.Some? ==>
              after.api.store.value ==
              st.attempts[id].edited.(version := st.api.nextVersion, triggers := read.triggers,
                                      finalizers := RemoveFinalizer(read.finalizers, "trigger-deletion")))
        && (st.attempts[id].edited == SetDefaults(Workflow, read) ||
            st.attempts[id].edited == SetDefaults(Platform, read))
  {
    RunKeepsInv(INITIAL, actions);
    AttemptIsCleaned(actions, id);
    var st := Run(INITIAL, actions);
    if Step(st, Finish(id, fault)).api != st.api {
      assert AttemptInv(st.api, st.attempts[id]);
      OnlyRemoved(st.attempts[id].read.finalizers);
    }
  }

  lemma OnlyRemoved(fs: seq<string>)
    ensures RemoveFinalizer(fs, FINALIZER) == [] <==> forall f :: f in fs ==> f == FINALIZER
  {
    forall f | f in RemoveFinalizer(fs, FINALIZER) ensures f in fs && f != FINALIZER {
      assert f in multiset(RemoveFinalizer(fs, FINALIZER));
      assert multiset(RemoveFinalizer(fs, FINALIZER))[f] == multiset(fs)[f];
    }
    if RemoveFinalizer(fs, FINALIZER) != [] {
      assert RemoveFinalizer(fs, FINALIZER)[0] in RemoveFinalizer(fs, FINALIZER);
    }
    forall f | f in fs ensures f != FINALIZER ==> f in multiset(RemoveFinalizer(fs, FINALIZER)) {
      assert multiset(fs)[f] > 0;
    }
  }

  predicate Holds(st: State) {
    st.api.store.Some? && "trigger-deletion" in st.api.store.value.finalizers
  }

  /** Another writer leaves the finalizer where it is. */
  predicate SparesFinalizer(st: State, a: Action) {
    a.OtherWrite? && Holds(st) ==> "trigger-deletion" in a.owner.finalizers
  }

  /**
   Action `k` took the finalizer away: it finished an attempt that had begun
   before it and, in between, deleted or found absent each trigger its owner
   listed in that very state.
   */
  ghost predicate LostProperly(actions: seq<Action>, k: nat) {
    && k < |actions| && actions[k].Finish?
    && Holds(Before(actions, k)) && !Holds(Before(actions, k + 1))
    && var owner := Before(actions, k).api.store.value;
    && owner.deleting
    && exists b :: Cleaned(actions[..k], actions[k].id, owner, b, |owner.triggers|)
  }

  /** Every step that takes the finalizer away, unless another writer does, is a proper finish. */
  lemma LossIsProper(actions: seq<Action>, k: nat)
    requires k < |actions| && SparesFinalizer(Before(actions, k), actions[k])
    requires Holds(Before(actions, k)) && !Holds(Before(actions, k + 1))
    ensures LostProperly(actions, k)
  {
    assert actions[..k + 1] == actions[..k] + [actions[k]];
    RunOne(Step, INITIAL, actions[..k], actions[k]);
    assert actions[k].Finish? by {
      assert Step(Before(actions, k), actions[k]).api != Before(actions, k).api;
    }
    FinishIsSafe(actions[..k], actions[k].id, actions[k].fault);
  }

  /**
   Main theorem: over any number of attempts failing at arbitrary calls, a
   finalizer that was there and is gone was last taken away by a proper finish.
   */
  lemma {:induction false} FinalizerSafety(actions: seq<Action>, j: nat, n: nat)
    requires j <= n <= |actions|
    requires Holds(Before(actions, j)) && !Holds(Before(actions, n))
    requires forall k: nat :: j <= k < n ==> SparesFinalizer(Before(actions, k), actions[k])
    ensures exists k: nat :: j <= k < n && LostProperly(actions, k) &&
              forall l: nat :: k < l <= n ==> !Holds(Before(actions, l))
    decreases n - j
  {
    if Holds(Before(actions, n - 1)) {
      LossIsProper(actions, n - 1);
    } else {
      FinalizerSafety(actions, j, n - 1);
    }
  }

  /** Attempt `id` began last at `b`. */
  ghost predicate BeganLast(actions: seq<Action>, id: int, b: nat) {
    b < |actions| && Begins(actions[b], id) && forall k :: b < k < |actions| ==> !Begins(actions[k], id)
  }

  /** Attempt `id`, begun at `b`, found no owner then, or has since taken the finalizer away properly. */
  ghost predicate Achieved(actions: seq<Action>, id: int, b: nat) {
    && BeganLast(actions, id, b)
    && (Before(actions, b).api.store.None? || exists k :: b < k && LostProperly(actions, k) && actions[k].id == id)
  }

  lemma AchievedExtends(actions: seq<Action>, a: Action, id: int, b: nat)
    requires Achieved(actions, id, b) && !Begins(a, id)
    ensures Achieved(actions + [a], id, b)
  {
    assert (actions + [a])[..b] == actions[..b];
    if !Before(actions, b).api.store.None? {
      var k :| b < k && LostProperly(actions, k) && actions[k].id == id;
      assert (actions + [a])[..k] == actions[..k] && (actions + [a])[..k + 1] == actions[..k + 1];
      assert LostProperly(actions + [a], k);
    }
  }

  /** A finish without an error takes the finalizer away properly. */
  lemma FinishAchieves(front: seq<Action>, id: int, fault: Fault, b: nat)
    requires BeganLast(front, id, b) && Cleans(Run(INITIAL, front), id)
    requires Step(Run(INITIAL, front), Finish(id, fault)).attempts[id] == Ended(None)
    ensures Achieved(front + [Finish(id, fault)], id, b)
  {
    var actions := front + [Finish(id, fault)];
    RunOne(Step, INITIAL, front, Finish(id, fault));
    assert actions[..|front|] == front && actions[..|front| + 1] == actions;
    NoErrorMeansRemoved(Run(INITIAL, front), id, Finish(id, fault));
    FinishIsSafe(front, id, fault);
    var owner := Run(INITIAL, front).api.store.value;
    var c :| Cleaned(front, id, owner, c, |owner.triggers|);
    assert Cleaned(actions[..|front|], actions[|front|].id, owner, c, |owner.triggers|);
    assert LostProperly(actions, |front|);
    assert BeganLast(actions, id, b);
  }

  /**
   No false success over any run: an attempt that has ended without an error
   found no owner when it began, or took the finalizer away itself, properly.
   */
  lemma {:induction false} NoErrorMeansAchieved(actions: seq<Action>, id: int)
    ensures id in Run(INITIAL, actions).attempts ==> exists b :: BeganLast(actions, id, b)
    ensures id in Run(INITIAL, actions).attempts && Run(INITIAL, actions).attempts[id] == Ended(None) ==>
              exists b :: Achieved(actions, id, b)
  {
    if actions == [] {
    } else {
      var front, a := actions[..|actions| - 1], actions[|actions| - 1];
      assert actions == front + [a];
      NoErrorMeansAchieved(front, id);
      RunOne(Step, INITIAL, front, a);
      var st, after := Run(INITIAL, front), Run(INITIAL, actions);
      if Begins(a, id) {
        assert actions[..|front|] == front && BeganLast(actions, id, |front|);
        if after.attempts[id] == Ended(None) { assert Achieved(actions, id, |front|); }
      } else if id in st.attempts {
        var b :| BeganLast(front, id, b);
        assert BeganLast(actions, id, b);
        if after.attempts[id] == Ended(None) {
          if st.attempts[id] == Ended(None) {
            var c :| Achieved(front, id, c);
            AchievedExtends(front, a, id, c);
          } else {
            NoErrorMeansRemoved(st, id, a);
            FinishAchieves(front, id, a.fault, b);
          }
        }
      }
    }
  }

  // ------------------------------------------------------------- progress

  /** One deletion per trigger, each answered. */
  function Deletes(id: int, triggers: seq<Ref>, answers: nat -> Answer): seq<Action> {
    if triggers == [] then []
    else
      var n := |triggers| - 1;
      Deletes(id, triggers[..n], answers) + [Delete(id, triggers[n], answers(n))]
  }

  lemma {:induction false} DeletesConfirm(st: State, id: int, n: nat, answers: nat -> Answer)
    requires id in st.attempts && st.attempts[id].Cleaning? && st.attempts[id].next == 0
    requires n <= |st.attempts[id].edited.triggers| && forall k: nat :: !answers(k).Refused?
    ensures
      var after := Run(st, Deletes(id, st.attempts[id].edited.triggers[..n], answers));
      && after.api == st.api
      && id in after.attempts && after.attempts[id].Cleaning? && after.attempts[id].next == n
      && after.attempts[id].edited == st.attempts[id].edited
  {
    if n == 0 {
    } else {
      var triggers := st.attempts[id].edited.triggers;
      DeletesConfirm(st, id, n - 1, answers);
      assert triggers[..n][..n - 1] == triggers[..n - 1];
      RunOne(Step, st, Deletes(id, triggers[..n - 1], answers), Delete(id, triggers[n - 1], answers(n - 1)));
    }
  }

  /** An attempt on a deleted owner that meets no failure and no other writer ends with the finalizer removed. */
  lemma CleanupCompletes(st: State, id: int, controller: Controller, answers: nat -> Answer)
    requires st.api.store.Some? && st.api.store.value.deleting
    requires "trigger-deletion" in st.api.store.value.finalizers
    requires forall k: nat :: !answers(k).Refused?
    ensures
      var o := st.api.store.value;
      var calls := [Begin(id, controller, NoFault, None)] + Deletes(id, o.triggers, answers) + [Finish(id, NoFault)];
      var after := Run(st, calls);
      && id in after.attempts && after.attempts[id] == Ended(None)
      && (after.api.store.None? <==> forall f :: f in o.finalizers ==> f == "trigger-deletion")
      && (after.api.store.Some? ==>
            after.api.store.value.finalizers == RemoveFinalizer(o.finalizers, "trigger-deletion"))
  {
    OnlyRemoved(st.api.store.value.finalizers);
    var o := st.api.store.value;
    var begin := [Begin(id, controller, NoFault, None)];
    var deletes := Deletes(id, o.triggers, answers);
    RunOne(Step, st, [], begin[0]);
    assert [] + [begin[0]] == begin;
    var started := Run(st, begin);
    assert started.attempts[id] == Cleaning(o, SetDefaults(controller, o), 0);
    DeletesConfirm(started, id, |o.triggers|, answers);
    assert o.triggers[..|o.triggers|] == o.triggers;
    RunAppend(Step, st, begin, deletes);
    RunOne(Step, st, begin + deletes, Finish(id, NoFault));
  }

  // ----------------------------------------------------------- imperative

  /** What the world does during one reconcile: faults, answers to deletions, writes before each call. */
  datatype World = World(
    get: Fault, cached: Option<Owner>, answers: nat -> Answer, others: nat -> seq<Owner>, update: Fault)

  function Writes(owners: seq<Owner>): seq<Action> {
    seq(|owners|, i requires 0 <= i < |owners| => OtherWrite(owners[i]))
  }

  /** The calls of a cleanup in this world from trigger `i` on, were each to succeed. */
  function CleanupScript(id: int, world: World, triggers: seq<Ref>, i: nat): seq<Action>
    requires i <= |triggers|
    decreases |triggers| - i
  {
    Writes(world.others(i)) +
    if i == |triggers| then [Finish(id, world.update)]
    else [Delete(id, triggers[i], world.answers(i))] + CleanupScript(id, world, triggers, i + 1)
  }

  lemma ScriptStep(before: seq<Action>, id: int, world: World, triggers: seq<Ref>, i: nat)
    requires i < |triggers|
    ensures before + CleanupScript(id, world, triggers, i) ==
            before + Writes(world.others(i)) + [Delete(id, triggers[i], world.answers(i))]
            + CleanupScript(id, world, triggers, i + 1)
  {
    assert CleanupScript(id, world, triggers, i) ==
           Writes(world.others(i)) +
           ([Delete(id, triggers[i], world.answers(i))] + CleanupScript(id, world, triggers, i + 1));
  }

  /** The calls of one reconcile; it makes a prefix of them. */
  function Script(id: int, controller: Controller, world: World, api: Api): seq<Action> {
    var reply := ServerGet(api, world.get, world.cached);
    [Begin(id, controller, world.get, world.cached)] +
    if reply.Ok? then CleanupScript(id, world, reply.value.triggers, 0) else []
  }

  /** The server, with the machine and the actions it mirrors. */
  class OwnerServer {
    var api: Api
    ghost const start: State
    ghost var trace: seq<Action>

    ghost predicate Valid()
      reads this
    {
      Run(start, trace).api == api
    }

    ghost function Attempts(): map<int, Attempt>
      reads this
    {
      Run(start, trace).attempts
    }

    constructor (ghost start: State, api: Api)
      requires api == start.api
      ensures Valid() && this.start == start && trace == []
    {
      this.api, this.start, this.trace := api, start, [];
    }

    method Interfere(owners: seq<Owner>)
      requires Valid()
      modifies this
      ensures Valid() && Attempts() == old(Attempts())
      ensures trace == old(trace) + Writes(owners)
    {
      for i := 0 to |owners|
        invariant Valid() && Attempts() == old(Attempts())
        invariant trace == old(trace) + Writes(owners)[..i]
      {
        RunOne(Step, start, trace, OtherWrite(owners[i]));
        api, trace := Commit(api, owners[i]), trace + [OtherWrite(owners[i])];
      }
    }

    ghost function Now(): State
      reads this
    {
      Run(start, trace)
    }

    /** Records that the machine takes the step the code is about to take. */
    ghost method Mirror(a: Action)
      modifies this`trace
      ensures trace == old(trace) + [a] && Now() == Step(old(Now()), a)
    {
      RunOne(Step, start, trace, a);
      trace := trace + [a];
    }
  }

  /** The deletion loop, then the update without the finalizer. */
  method CleanupTriggers(server: OwnerServer, owner: Owner, world: World, ghost id: int, ghost read: Owner)
    returns (error: Option<Error>)
    requires server.Valid() && id in server.Attempts() && server.Attempts()[id] == Cleaning(read, owner, 0)
    modifies server
    ensures server.Valid() && old(server.trace) <= server.trace
    ensures server.trace <= old(server.trace) + CleanupScript(id, world, owner.triggers, 0)
    ensures server.Attempts() == old(server.Attempts())[id := Ended(error)]
    ensures error.None? ==>
              && world.update == NoFault
              && (forall k: nat :: k < |owner.triggers| ==> world.answers(k) != Refused)
              && (server.api.store.Some? ==> "trigger-deletion" !in server.api.store.value.finalizers)
  {
    ghost var attempts := server.Attempts();
    for i := 0 to |owner.triggers|
      invariant server.Valid() && old(server.trace) <= server.trace
      invariant server.trace + CleanupScript(id, world, owner.triggers, i) ==
                old(server.trace) + CleanupScript(id, world, owner.triggers, 0)
      invariant server.Attempts() == attempts[id := Cleaning(read, owner, i)]
      invariant forall k: nat :: k < i ==> world.answers(k) != Refused
    {
      ScriptStep(server.trace, id, world, owner.triggers, i);
      server.Interfere(world.others(i));
      var ref := owner.triggers[i];
      var trigger := Ref(ref.name, ref.namespace);
      var answer := world.answers(i);
      server.Mirror(Delete(id, trigger, answer));
      if answer.Refused? {
        assert server.Attempts() == attempts[id := Ended(Some(Failed))];
        return Some(Failed);
      }
    }
    error := FinishCleanup(server, owner, world, id, read);
    assert server.Attempts() == attempts[id := Ended(error)];
  }

  /** The update without the finalizer, once every trigger is answered for. */
  method FinishCleanup(server: OwnerServer, owner: Owner, world: World, ghost id: int, ghost read: Owner)
    returns (error: Option<Error>)
    requires server.Valid() && id in server.Attempts()
    requires server.Attempts()[id] == Cleaning(read, owner, |owner.triggers|)
    modifies server
    ensures server.Valid()
    ensures server.trace == old(server.trace) + CleanupScript(id, world, owner.triggers, |owner.triggers|)
    ensures server.Attempts() == old(server.Attempts())[id := Ended(error)]
    ensures error.None? ==>
              && world.update == NoFault
              && (server.api.store.Some? ==> "trigger-deletion" !in server.api.store.value.finalizers)
  {
    server.Interfere(world.others(|owner.triggers|));
    var target := owner.(finalizers := RemoveFinalizer(owner.finalizers, FINALIZER));
    server.Mirror(Finish(id, world.update));
    var (api, reply) := ServerUpdate(server.api, target, world.update);
    server.api := api;
    error := if reply.Ok? then None else Some(reply.error);
  }

  /**
   The deletion branch of `Reconcile`, proved to be one attempt of the machine:
   it makes a prefix of the calls of its script, up to the one that ends it.
   */
  method ReconcileDeletion(server: OwnerServer, controller: Controller, world: World, ghost id: int)
    returns (handled: bool, error: Option<Error>)
    requires server.Valid()
    modifies server
    ensures server.Valid() && old(server.trace) < server.trace
    ensures server.trace <= old(server.trace) + Script(id, controller, world, old(server.api))
    ensures server.Attempts() == old(server.Attempts())[id := if handled then Ended(error) else Skipped]
    ensures world.get != NoFault ==> handled && error == Some(Failed)
    ensures !handled ==> error.None? && server.api == old(server.api)
  {
    ghost var attempts := server.Attempts();
    server.Mirror(Begin(id, controller, world.get, world.cached));
    var reply := ServerGet(server.api, world.get, world.cached);
    if reply.Err? {
      return true, if reply.error.NotFound? then None else Some(reply.error);
    }
    var owner := SetDefaults(controller, reply.value);
    if owner.deleting && FINALIZER in owner.finalizers {
      error := CleanupTriggers(server, owner, world, id, reply.value);
      assert server.Attempts() == attempts[id := Ended(error)];
      return true, error;
    }
    return false, None;
  }
}
