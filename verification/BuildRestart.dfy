/**
 The build controller and its restart mark. A build is scheduled when it has no
 phase or carries the mark; the mark is cleared by a last update. The build
 manager is an oracle, any API call may fail, and other writers may act between
 any two calls.
 */
module BuildRestart {
  import opened Common

  datatype Phase =
    | NoPhase | Initialization | Scheduling | Pending | Running | Succeeded | Failed | Interrupted | Errored

  predicate Terminal(p: Phase) { p.Succeeded? || p.Failed? || p.Errored? }

  datatype Status = Status(phase: Phase, details: string)

  /** `restart` is the value of the restart annotation. */
  datatype Build = Build(version: nat, status: Status, restart: Option<string>)

  /** `GetAnnotationAsBool`: what `strconv.ParseBool` accepts as true; absent or malformed is false. */
  predicate Marked(b: Build) {
    b.restart.Some? && b.restart.value in {"1", "t", "T", "true", "TRUE", "True"}
  }

  predicate NeedsSchedule(b: Build) { b.status.phase.NoPhase? || Marked(b) }

  // --------------------------------------------------------------- server

  datatype Reply = Ok(value: Build) | NotFound | Error

  datatype Api = Api(store: Option<Build>, seen: set<Build>, nextVersion: nat)

  function Commit(api: Api, b: Build): Api {
    var stored := b.(version := api.nextVersion);
    Api(Some(stored), api.seen + {stored}, api.nextVersion + 1)
  }

  function ServerGet(api: Api, fault: Fault, cached: Option<Build>): Reply {
    if !fault.NoFault? then Error
    else if cached.Some? && cached.value in api.seen then Ok(cached.value)
    else if api.store.Some? then Ok(api.store.value)
    else NotFound
  }

  predicate Accepts(api: Api, b: Build, fault: Fault) {
    !fault.Rejected? && api.store.Some? && api.store.value.version == b.version
  }

  /** An update of the status keeps the stored annotation; an update of the object keeps the stored status. */
  function ServerStatusUpdate(api: Api, b: Build, fault: Fault): (Api, Reply) {
    if !Accepts(api, b, fault) then (api, Error)
    else
      var next := Commit(api, api.store.value.(status := b.status));
      (next, if fault.ReplyLost? then Error else Ok(next.store.value))
  }

  function ServerUpdate(api: Api, b: Build, fault: Fault): (Api, Reply) {
    if !Accepts(api, b, fault) then (api, Error)
    else
      var next := Commit(api, api.store.value.(restart := b.restart));
      (next, if fault.ReplyLost? then Error else Ok(next.store.value))
  }

  // ------------------------------------------------------- state machine

  /** What a run has done so far, oldest first. `Written` is a write of some other party. */
  datatype Event =
    | Began(id: int)
    | ScheduleOk(id: int)
    | StatusStored(id: int)
    | MarkCleared(id: int)
    | Signalled(id: int)
    | Written

  /** A reconcile in flight; `since` is where its `Began` stands in the log. */
  datatype Reconcile =
    | Read(build: Build, since: nat)
    | ScheduledBuild(build: Build, since: nat)
    | ObservedBuild(build: Build, since: nat)
    | StoredBuild(build: Build, since: nat)
    | Notifying
    | Ended(requeue: bool, failed: bool)

  datatype State = State(api: Api, reconciles: map<int, Reconcile>, log: seq<Event>)

  datatype Action =
    | Begin(id: int, fault: Fault, cached: Option<Build>, managerFails: bool)
    | Schedule(id: int, outcome: Option<Status>)
    | Observe(id: int, outcome: Option<Status>)
    | StoreStatus(id: int, fault: Fault)
    | ClearMark(id: int, fault: Fault)
    | Notify(id: int, fails: bool)
    | OtherWrite(build: Build)

  /** The reconcile has read a build and asks the build manager next. */
  predicate HasRead(st: State, id: int) { id in st.reconciles && st.reconciles[id].Read? }

  /** The build manager has set the status, which is stored next. */
  predicate HasStatus(st: State, id: int) {
    id in st.reconciles && (st.reconciles[id].ScheduledBuild? || st.reconciles[id].ObservedBuild?)
  }

  /** The status of a marked build is stored, and the mark is cleared next. */
  predicate HasStored(st: State, id: int) { id in st.reconciles && st.reconciles[id].StoredBuild? }

  /** The mark is cleared, and the workflow is told next. */
  predicate Signalling(st: State, id: int) { id in st.reconciles && st.reconciles[id].Notifying? }

  function Enter(st: State, id: int, r: Reconcile): State {
    st.(reconciles := st.reconciles[id := r])
  }

  function Record(st: State, e: Event): State {
    st.(log := st.log + [e])
  }

  function BeginStep(st: State, id: int, fault: Fault, cached: Option<Build>, managerFails: bool): State {
    match ServerGet(st.api, fault, cached)
    case NotFound => Enter(st, id, Ended(false, false))
    case Error => Enter(st, id, Ended(false, true))
    case Ok(b) =>
      if managerFails then Enter(st, id, Ended(false, true))
      else if NeedsSchedule(b) || !Terminal(b.status.phase) then
        Record(Enter(st, id, Read(b, |st.log|)), Began(id))
      else Enter(st, id, Ended(false, false))
  }

  /** The build manager's `Schedule` or `Reconcile`: it sets the status, or fails. */
  function OracleStep(st: State, id: int, outcome: Option<Status>): State
    requires HasRead(st, id)
  {
    var r := st.reconciles[id];
    if outcome.None? then Enter(st, id, Ended(false, true))
    else if NeedsSchedule(r.build) then
      Record(Enter(st, id, ScheduledBuild(r.build.(status := outcome.value), r.since)), ScheduleOk(id))
    else Enter(st, id, ObservedBuild(r.build.(status := outcome.value), r.since))
  }

  function StoreStatusStep(st: State, id: int, fault: Fault): State
    requires HasStatus(st, id)
  {
    var r := st.reconciles[id];
    var (api, reply) := ServerStatusUpdate(st.api, r.build, fault);
    var logged := if api == st.api then st else Record(st.(api := api), StatusStored(id));
    Enter(logged, id,
          if !reply.Ok? then Ended(false, true)
          else if r.ObservedBuild? then Ended(true, false)
          else if Marked(reply.value) then StoredBuild(reply.value, r.since)
          else Ended(true, false))
  }

  function ClearMarkStep(st: State, id: int, fault: Fault): State
    requires HasStored(st, id)
  {
    var r := st.reconciles[id];
    var (api, reply) := ServerUpdate(st.api, r.build.(restart := Some("false")), fault);
    var logged := if api == st.api then st else Record(st.(api := api), MarkCleared(id));
    Enter(logged, id, if reply.Ok? then Notifying else Ended(false, true))
  }

  /** One atomic step; an action whose reconcile is not ready for it does nothing. */
  function Step(st: State, a: Action): State {
    match a
    case Begin(id, fault, cached, managerFails) => BeginStep(st, id, fault, cached, managerFails)
    case Schedule(id, outcome) =>
      if HasRead(st, id) && NeedsSchedule(st.reconciles[id].build) then OracleStep(st, id, outcome) else st
    case Observe(id, outcome) =>
      if HasRead(st, id) && !NeedsSchedule(st.reconciles[id].build) then OracleStep(st, id, outcome) else st
    case StoreStatus(id, fault) =>
      if HasStatus(st, id) then StoreStatusStep(st, id, fault) else st
    case ClearMark(id, fault) =>
      if HasStored(st, id) then ClearMarkStep(st, id, fault) else st
    case Notify(id, fails) =>
      if !Signalling(st, id) then st
      else if fails then Enter(st, id, Ended(false, true))
      else Record(Enter(st, id, Ended(true, false)), Signalled(id))
    case OtherWrite(b) => Record(st.(api := Commit(st.api, b)), Written)
  }

  function Run(st: State, actions: seq<Action>): State {
    RunFrom(Step, st, actions)
  }

  const INITIAL := State(Api(None, {}, 1), map[], [])

  // --------------------------------------------------------------- results

  /** The reconcile takes its next step with this call. */
  ghost predicate Acts(st: State, id: int, a: Action) {
    match a
    case Begin(i, _, _, _) => i == id
    case Schedule(i, _) => i == id && HasRead(st, id) && NeedsSchedule(st.reconciles[id].build)
    case Observe(i, _) => i == id && HasRead(st, id) && !NeedsSchedule(st.reconciles[id].build)
    case StoreStatus(i, _) => i == id && HasStatus(st, id)
    case ClearMark(i, _) => i == id && HasStored(st, id)
    case Notify(i, _) => i == id && Signalling(st, id)
    case OtherWrite(_) => false
  }

  /** A beginning reads the live build or a cached one. */
  ghost predicate Reads(st: State, a: Action, b: Build) {
    a.Begin? && (st.api.store == Some(b) || (a.cached == Some(b) && b in st.api.seen))
  }

  /** The version of `b` is the live one. */
  ghost predicate Live(api: Api, b: Build) {
    api.store.Some? && api.store.value.version == b.version
  }

  /**
   A call that ends a reconcile without a failure found nothing to do, stored the
   status of a build without the mark, or told the workflow.
   */
  lemma NoFailureMeaning(st: State, id: int, a: Action)
    requires Acts(st, id, a) && Step(st, a).reconciles[id].Ended? && !Step(st, a).reconciles[id].failed
    ensures Step(st, a).reconciles[id].requeue <==> a.StoreStatus? || a.Notify?
    ensures !a.StoreStatus? ==> Step(st, a).api == st.api
    ensures
      match a
      case Begin(_, fault, _, managerFails) =>
        && fault == NoFault && Step(st, a).log == st.log
        && (st.api.store.None? || exists b ::
              && Reads(st, a, b) && b.status.phase in {Succeeded, Failed, Errored} && !managerFails
              && (b.restart.None? || b.restart.value !in {"1", "t", "T", "true", "TRUE", "True"}))
      case StoreStatus(_, fault) =>
        && fault == NoFault && st.api.store.Some? && Step(st, a).api.store.Some?
        && var was, now := st.api.store.value, Step(st, a).api.store.value;
        && was.version == st.reconciles[id].build.version
        && now == Build(st.api.nextVersion, st.reconciles[id].build.status, was.restart)
        && (st.reconciles[id].ObservedBuild? || now.restart.None? ||
            now.restart.value !in {"1", "t", "T", "true", "TRUE", "True"})
      case Notify(_, fails) => !fails && Step(st, a).log == st.log + [Signalled(id)]
      case _ => false
  {
    if a.Begin? && st.api.store.Some? {
      assert Reads(st, a, ServerGet(st.api, a.fault, a.cached).value);
    }
  }

  /** What ends a reconcile with a failure, and that nothing was stored unless the reply was lost. */
  lemma FailureMeaning(st: State, id: int, a: Action)
    requires Acts(st, id, a) && Step(st, a).reconciles[id].Ended? && Step(st, a).reconciles[id].failed
    ensures !Step(st, a).reconciles[id].requeue
    ensures
      match a
      case Begin(_, fault, _, managerFails) => (fault != NoFault || managerFails) && Step(st, a).api == st.api
      case Schedule(_, outcome) => outcome.None? && Step(st, a).api == st.api && Step(st, a).log == st.log
      case Observe(_, outcome) => outcome.None? && Step(st, a).api == st.api && Step(st, a).log == st.log
      case Notify(_, fails) => fails && Step(st, a).api == st.api && Step(st, a).log == st.log
      case StoreStatus(_, fault) =>
        && (fault != ReplyLost ==> Step(st, a).api == st.api)
        && (fault == NoFault ==> !Live(st.api, st.reconciles[id].build))
      case ClearMark(_, fault) =>
        && (fault != ReplyLost ==> Step(st, a).api == st.api)
        && (fault == NoFault ==> !Live(st.api, st.reconciles[id].build))
      case OtherWrite(_) => false
  {
  }

  /** A call after which a reconcile goes on, and with what. */
  lemma GoingOnMeaning(st: State, id: int, a: Action)
    requires Acts(st, id, a) && !Step(st, a).reconciles[id].Ended?
    ensures
      var now := Step(st, a);
      var next := now.reconciles[id];
      match a
      case Begin(_, fault, _, managerFails) =>
        && fault == NoFault && !managerFails && now.api == st.api && now.log == st.log + [Began(id)]
        && next.Read? && next.since == |st.log| && Reads(st, a, next.build)
        && (next.build.status.phase in {Succeeded, Failed, Errored} ==>
              next.build.restart.Some? && next.build.restart.value in {"1", "t", "T", "true", "TRUE", "True"})
      case Schedule(_, outcome) =>
        var was := st.reconciles[id];
        && outcome.Some? && now.api == st.api && now.log == st.log + [ScheduleOk(id)]
        && next == ScheduledBuild(was.build.(status := outcome.value), was.since)
      case Observe(_, outcome) =>
        var was := st.reconciles[id];
        && outcome.Some? && now.api == st.api && now.log == st.log
        && next == ObservedBuild(was.build.(status := outcome.value), was.since)
      case StoreStatus(_, fault) =>
        && fault == NoFault && st.reconciles[id].ScheduledBuild? && now.log == st.log + [StatusStored(id)]
        && now.api.store.Some? && next == StoredBuild(now.api.store.value, st.reconciles[id].since)
        && next.build.status == st.reconciles[id].build.status
        && next.build.restart.Some? && next.build.restart.value in {"1", "t", "T", "true", "TRUE", "True"}
      case ClearMark(_, fault) =>
        && fault == NoFault && next == Notifying && now.log == st.log + [MarkCleared(id)]
        && now.api.store.Some? && now.api.store.value.restart == Some("false")
      case _ => false
  {
  }

  /** Which call a reconcile makes on the build it read: `Schedule` for no phase or the mark, otherwise `Observe`. */
  lemma ScheduleOrObserve(st: State, id: int, outcome: Option<Status>)
    requires HasRead(st, id)
    ensures
      var b := st.reconciles[id].build;
      var due := b.status.phase == NoPhase ||
                 (b.restart.Some? && b.restart.value in {"1", "t", "T", "true", "TRUE", "True"});
      && (Acts(st, id, Schedule(id, outcome)) <==> due)
      && (Acts(st, id, Observe(id, outcome)) <==> !due)
      && (Step(st, Schedule(id, outcome)) == st <==> !due)
      && (Step(st, Observe(id, outcome)) == st <==> due)
  {
  }

  // ------------------------------------------------------------ invariant

  /** A write by anyone but reconcile `id`. */
  predicate Foreign(e: Event, id: int) {
    e.Written? || ((e.StatusStored? || e.MarkCleared?) && e.id != id)
  }

  ghost predicate Undisturbed(log: seq<Event>, since: nat, id: int) {
    forall k :: since <= k < |log| ==> !Foreign(log[k], id)
  }

  /** `id` has not begun again: all its later events are of the reconcile that began at `since`. */
  ghost predicate OnlyOnce(log: seq<Event>, since: nat, id: int) {
    forall k :: since < k < |log| ==> log[k] != Began(id)
  }

  ghost predicate BeganAt(log: seq<Event>, since: nat, id: int) {
    since < |log| && log[since] == Began(id)
  }

  ghost predicate ScheduledSince(log: seq<Event>, since: nat, id: int) {
    exists i :: since < i < |log| && log[i] == ScheduleOk(id)
  }

  ghost predicate StoredSince(log: seq<Event>, since: nat, id: int) {
    exists i, j :: since < i < j < |log| && log[i] == ScheduleOk(id) && log[j] == StatusStored(id)
  }

  /** If the reconcile's version is still live, nobody else has written since it began. */
  ghost predicate ReconcileInv(st: State, id: int) {
    id in st.reconciles ==>
      var r := st.reconciles[id];
      r.Read? || r.ScheduledBuild? || r.ObservedBuild? || r.StoredBuild? ==>
        && BeganAt(st.log, r.since, id) && OnlyOnce(st.log, r.since, id)
        && r.build.version < st.api.nextVersion
        && (st.api.store.Some? && st.api.store.value.version == r.build.version ==> Undisturbed(st.log, r.since, id))
        && (r.ScheduledBuild? ==> ScheduledSince(st.log, r.since, id))
        && (r.StoredBuild? ==> StoredSince(st.log, r.since, id))
  }

  /** The latest reconcile of `id`: begun at `b`, scheduled at `i`, status stored at `j`, and no foreign write since. */
  ghost predicate OneReconcile(log: seq<Event>, id: int, b: int, i: int, j: int) {
    && 0 <= b < i < j < |log|
    && log[b] == Began(id) && log[i] == ScheduleOk(id) && log[j] == StatusStored(id)
    && OnlyOnce(log, b, id) && Undisturbed(log, b, id)
  }

  /** A mark cleared at `k` was cleared by a reconcile that had scheduled, then stored the status. */
  ghost predicate Justified(log: seq<Event>, k: nat) {
    k < |log| && log[k].MarkCleared? ==>
      exists b, i, j :: OneReconcile(log[..k], log[k].id, b, i, j)
  }

  ghost predicate ApiInv(api: Api) {
    && (api.store.Some? ==> api.store.value in api.seen)
    && (forall b :: b in api.seen ==> b.version < api.nextVersion)
  }

  ghost predicate Inv(st: State) {
    && ApiInv(st.api)
    && (forall id :: ReconcileInv(st, id))
    && (forall k: nat :: k < |st.log| ==> Justified(st.log, k))
  }

  lemma JustifiedExtends(log: seq<Event>, e: Event, k: nat)
    requires k < |log| && Justified(log, k)
    ensures Justified(log + [e], k)
  {
    assert (log + [e])[..k] == log[..k];
  }

  lemma AllJustifiedExtends(log: seq<Event>, e: Event)
    requires forall k: nat :: k < |log| ==> Justified(log, k)
    requires Justified(log + [e], |log|)
    ensures forall k: nat :: k < |log + [e]| ==> Justified(log + [e], k)
  {
    forall k: nat | k < |log + [e]| ensures Justified(log + [e], k) {
      if k < |log| { JustifiedExtends(log, e, k); }
    }
  }

  /** A reconcile not concerned by a step keeps its invariant: the log grows, and a foreign write has a new version. */
  lemma BystanderKeepsInv(st: State, after: State, id: int, e: Event)
    requires ReconcileInv(st, id) && e != Began(id)
    requires after.log == st.log || after.log == st.log + [e]
    requires id in after.reconciles <==> id in st.reconciles
    requires id in st.reconciles ==> after.reconciles[id] == st.reconciles[id]
    requires st.api.nextVersion <= after.api.nextVersion
    requires after.log == st.log + [e] && Foreign(e, id) ==>
               after.api.store.Some? && after.api.store.value.version >= st.api.nextVersion
    requires after.log == st.log || !Foreign(e, id) ==> after.api.store == st.api.store
    ensures ReconcileInv(after, id)
  {
    if id in st.reconciles {
      var r := st.reconciles[id];
      if r.ScheduledBuild? {
        var i :| r.since < i < |st.log| && st.log[i] == ScheduleOk(id);
        assert after.log[i] == ScheduleOk(id);
      }
      if r.StoredBuild? {
        var i, j :| r.since < i < j < |st.log| && st.log[i] == ScheduleOk(id) && st.log[j] == StatusStored(id);
        assert after.log[i] == ScheduleOk(id) && after.log[j] == StatusStored(id);
      }
    }
  }

  lemma BeginKeepsInv(st: State, id: int, fault: Fault, cached: Option<Build>, managerFails: bool)
    requires Inv(st)
    ensures Inv(BeginStep(st, id, fault, cached, managerFails))
  {
    var after := BeginStep(st, id, fault, cached, managerFails);
    forall x ensures ReconcileInv(after, x) {
      if x != id { BystanderKeepsInv(st, after, x, Began(id)); }
    }
    if after.log != st.log { AllJustifiedExtends(st.log, Began(id)); }
  }

  lemma OracleKeepsInv(st: State, id: int, outcome: Option<Status>)
    requires Inv(st) && HasRead(st, id)
    ensures Inv(OracleStep(st, id, outcome))
  {
    var after := OracleStep(st, id, outcome);
    assert ReconcileInv(st, id);
    if after.log != st.log {
      assert after.log[|st.log|] == ScheduleOk(id);
      AllJustifiedExtends(st.log, ScheduleOk(id));
    }
    forall x ensures ReconcileInv(after, x) {
      if x != id { BystanderKeepsInv(st, after, x, ScheduleOk(id)); }
    }
  }

  lemma StoreStatusKeepsInv(st: State, id: int, fault: Fault)
    requires Inv(st) && HasStatus(st, id)
    ensures Inv(StoreStatusStep(st, id, fault))
  {
    var after := StoreStatusStep(st, id, fault);
    var r := st.reconciles[id];
    assert ReconcileInv(st, id);
    if after.log != st.log {
      assert after.log[|st.log|] == StatusStored(id);
      AllJustifiedExtends(st.log, StatusStored(id));
      if r.ScheduledBuild? {
        var i :| r.since < i < |st.log| && st.log[i] == ScheduleOk(id);
        assert after.log[i] == ScheduleOk(id);
      }
    }
    forall x ensures ReconcileInv(after, x) {
      if x != id { BystanderKeepsInv(st, after, x, StatusStored(id)); }
    }
  }

  lemma ClearMarkKeepsInv(st: State, id: int, fault: Fault)
    requires Inv(st) && HasStored(st, id)
    ensures Inv(ClearMarkStep(st, id, fault))
  {
    var after := ClearMarkStep(st, id, fault);
    var r := st.reconciles[id];
    assert ReconcileInv(st, id);
    if after.log != st.log {
      var log := after.log;
      assert log[..|st.log|] == st.log && log[|st.log|] == MarkCleared(id);
      var i, j :| r.since < i < j < |st.log| && st.log[i] == ScheduleOk(id) && st.log[j] == StatusStored(id);
      assert OneReconcile(log[..|st.log|], id, r.since, i, j);
      AllJustifiedExtends(st.log, MarkCleared(id));
    }
    forall x ensures ReconcileInv(after, x) {
      if x != id { BystanderKeepsInv(st, after, x, MarkCleared(id)); }
    }
  }

  lemma StepKeepsInv(st: State, a: Action)
    requires Inv(st)
    ensures Inv(Step(st, a))
  {
    var after := Step(st, a);
    match a
    case Begin(id, fault, cached, managerFails) => BeginKeepsInv(st, id, fault, cached, managerFails);
    case Schedule(id, outcome) => if after != st { OracleKeepsInv(st, id, outcome); }
    case Observe(id, outcome) => if after != st { OracleKeepsInv(st, id, outcome); }
    case StoreStatus(id, fault) => if after != st { StoreStatusKeepsInv(st, id, fault); }
    case ClearMark(id, fault) => if after != st { ClearMarkKeepsInv(st, id, fault); }
    case Notify(id, fails) =>
      forall x ensures ReconcileInv(after, x) {
        if x != id { BystanderKeepsInv(st, after, x, Signalled(id)); }
      }
      if after.log != st.log { AllJustifiedExtends(st.log, Signalled(id)); }
    case OtherWrite(b) =>
      forall x ensures ReconcileInv(after, x) { BystanderKeepsInv(st, after, x, Written); }
      AllJustifiedExtends(st.log, Written);
  }

  lemma {:induction false} RunKeepsInv(st: State, actions: seq<Action>)
    requires Inv(st)
    ensures Inv(Run(st, actions))
    decreases |actions|
  {
    if actions == [] {
    } else {
      StepKeepsInv(st, actions[0]);
      RunKeepsInv(Step(st, actions[0]), actions[1..]);
    }
  }

  /**
   Main theorem: in every run, wherever the controller cleared the mark, the
   same reconcile had begun, scheduled a build and stored its status before,
   and nobody else had written the build since it began. So no mark is lost.
   */
  lemma MarkClearedJustified(actions: seq<Action>, k: nat)
    requires k < |Run(INITIAL, actions).log|
    ensures Justified(Run(INITIAL, actions).log, k)
  {
    RunKeepsInv(INITIAL, actions);
  }

  /** The log is honest: every change of the store is one logged write, and only `ClearMark` takes a mark away. */
  lemma WritesAreLogged(st: State, a: Action)
    requires ApiInv(st.api) && Step(st, a).api != st.api
    ensures a.OtherWrite? || a.StoreStatus? || a.ClearMark?
    ensures a.OtherWrite? ==> Step(st, a).log == st.log + [Written]
    ensures a.StoreStatus? ==> Step(st, a).log == st.log + [StatusStored(a.id)]
    ensures a.ClearMark? ==> Step(st, a).log == st.log + [MarkCleared(a.id)]
    ensures a.StoreStatus? || a.ClearMark? ==> st.api.store.Some? && Step(st, a).api.store.Some?
    ensures a.StoreStatus? ==>
              && Step(st, a).api.store.value.restart == st.api.store.value.restart
              && HasStatus(st, a.id) && Step(st, a).api.store.value.status == st.reconciles[a.id].build.status
    ensures a.ClearMark? ==> Step(st, a).api.store.value.restart == Some("false") &&
                             Step(st, a).api.store.value.status == st.api.store.value.status
  {
  }

  // --------------------------------------------- the signal to the workflow

  /** `id` has cleared the mark, has not told the workflow since, and has not begun again. */
  ghost predicate Unsignalled(log: seq<Event>, id: int) {
    exists k: nat :: k < |log| && ClearedAt(log, k, id)
  }

  /** The mark is cleared at `k`, and `id` neither tells the workflow nor begins again later. */
  ghost predicate ClearedAt(log: seq<Event>, k: nat, id: int)
    requires k < |log|
  {
    log[k] == MarkCleared(id) && forall j :: k < j < |log| ==> log[j] !in {Began(id), Signalled(id)}
  }

  /** A signal at `n` follows a clearing of the mark by the same reconcile, its first since. */
  ghost predicate SignalJustified(log: seq<Event>, n: nat) {
    n < |log| && log[n].Signalled? ==> Unsignalled(log[..n], log[n].id)
  }

  ghost predicate SignalInv(st: State) {
    && (forall id :: Unsignalled(st.log, id) ==>
          id in st.reconciles && (st.reconciles[id].Notifying? || st.reconciles[id].Ended?)
          && (st.reconciles[id].Ended? ==> !st.reconciles[id].requeue))
    && (forall id :: Signalling(st, id) ==> Unsignalled(st.log, id))
    && (forall n: nat :: n < |st.log| ==> SignalJustified(st.log, n))
  }

  lemma UnsignalledStep(log: seq<Event>, e: Event, id: int)
    ensures Unsignalled(log + [e], id) <==>
            e == MarkCleared(id) || (Unsignalled(log, id) && e !in {Began(id), Signalled(id)})
  {
    if e == MarkCleared(id) {
      assert ClearedAt(log + [e], |log|, id);
    } else {
      if Unsignalled(log, id) && e !in {Began(id), Signalled(id)} {
        var k: nat :| k < |log| && ClearedAt(log, k, id);
        assert ClearedAt(log + [e], k, id);
      }
      if Unsignalled(log + [e], id) {
        var k: nat :| k < |log + [e]| && ClearedAt(log + [e], k, id);
        assert k < |log| && (log + [e])[|log|] == e;
        assert ClearedAt(log, k, id) by {
          assert forall j :: k <= j < |log| ==> log[j] == (log + [e])[j];
        }
      }
    }
  }

  lemma SignalsExtend(log: seq<Event>, e: Event)
    requires forall n: nat :: n < |log| ==> SignalJustified(log, n)
    requires e.Signalled? ==> Unsignalled(log, e.id)
    ensures forall n: nat :: n < |log + [e]| ==> SignalJustified(log + [e], n)
  {
    forall n: nat | n < |log + [e]| ensures SignalJustified(log + [e], n) {
      assert (log + [e])[..n] == log[..n];
      if n < |log| { assert SignalJustified(log, n); } else { assert log[..n] == log; }
    }
  }

  /** What one action may log. */
  lemma LogsAtMostOne(st: State, a: Action) returns (e: Event)
    ensures Step(st, a).log == st.log || Step(st, a).log == st.log + [e]
    ensures e == match a
                 case Begin(id, _, _, _) => Began(id)
                 case Schedule(id, _) => ScheduleOk(id)
                 case Observe(id, _) => ScheduleOk(id)
                 case StoreStatus(id, _) => StatusStored(id)
                 case ClearMark(id, _) => MarkCleared(id)
                 case Notify(id, _) => Signalled(id)
                 case OtherWrite(_) => Written
    ensures e.MarkCleared? && Step(st, a).log != st.log ==> HasStored(st, e.id)
    ensures e.Signalled? && Step(st, a).log != st.log ==> Signalling(st, e.id)
  {
    e := match a
      case Begin(id, _, _, _) => Began(id)
      case Schedule(id, _) => ScheduleOk(id)
      case Observe(id, _) => ScheduleOk(id)
      case StoreStatus(id, _) => StatusStored(id)
      case ClearMark(id, _) => MarkCleared(id)
      case Notify(id, _) => Signalled(id)
      case OtherWrite(_) => Written;
  }

  lemma StepKeepsSignals(st: State, a: Action)
    requires SignalInv(st)
    ensures SignalInv(Step(st, a))
  {
    var after := Step(st, a);
    var e := LogsAtMostOne(st, a);
    if after.log != st.log {
      SignalsExtend(st.log, e);
      forall id ensures Unsignalled(after.log, id) <==>
                        e == MarkCleared(id) || (Unsignalled(st.log, id) && e !in {Began(id), Signalled(id)}) {
        UnsignalledStep(st.log, e, id);
      }
    }
  }

  lemma {:induction false} RunKeepsSignals(st: State, actions: seq<Action>)
    requires SignalInv(st)
    ensures SignalInv(Run(st, actions))
    decreases |actions|
  {
    if actions == [] {
    } else {
      StepKeepsSignals(st, actions[0]);
      RunKeepsSignals(Step(st, actions[0]), actions[1..]);
    }
  }

  /**
   In every run, a reconcile that cleared the mark and asks to come back, which
   it does only without a failure, has told the workflow after that.
   */
  lemma ClearedMarkIsSignalled(actions: seq<Action>, id: int, k: nat)
    requires
      var st := Run(INITIAL, actions);
      && id in st.reconciles && st.reconciles[id].Ended? && st.reconciles[id].requeue
      && k < |st.log| && st.log[k] == MarkCleared(id)
      && forall j :: k < j < |st.log| ==> st.log[j] != Began(id)
    ensures
      var log := Run(INITIAL, actions).log;
      exists n :: k < n < |log| && log[n] == Signalled(id)
  {
    RunKeepsSignals(INITIAL, actions);
    var st := Run(INITIAL, actions);
    assert !ClearedAt(st.log, k, id);
  }

  /** In every run, the workflow is told only after the same reconcile cleared the mark, and once for it. */
  lemma SignalFollowsClearing(actions: seq<Action>, n: nat)
    requires n < |Run(INITIAL, actions).log| && Run(INITIAL, actions).log[n].Signalled?
    ensures
      var log := Run(INITIAL, actions).log;
      exists k :: 0 <= k < n && log[k] == MarkCleared(log[n].id) &&
                  forall j :: k < j < n ==> log[j] !in {Began(log[n].id), Signalled(log[n].id)}
  {
    RunKeepsSignals(INITIAL, actions);
    var log := Run(INITIAL, actions).log;
    assert SignalJustified(log, n);
    var k: nat :| k < n && ClearedAt(log[..n], k, log[n].id);
    assert forall j :: 0 <= j < n ==> log[j] == log[..n][j];
  }

  // -------------------------------------------------- runs without failures

  /** The whole reconcile, undisturbed: the oracle answers `outcome` to whichever call is made. */
  function Tick(st: State, outcome: Status): State {
    FinishTick(Answered(st, outcome))
  }

  function Answered(st: State, outcome: Status): State {
    Step(Step(Step(st, Begin(0, NoFault, None, false)), Schedule(0, Some(outcome))), Observe(0, Some(outcome)))
  }

  function FinishTick(st: State): State {
    Step(Step(Step(st, StoreStatus(0, NoFault)), ClearMark(0, NoFault)), Notify(0, false))
  }

  function Schedules(log: seq<Event>): nat {
    if log == [] then 0 else Schedules(log[..|log| - 1]) + if log[|log| - 1].ScheduleOk? then 1 else 0
  }

  /** A build owed a schedule. */
  function Owed(st: State): nat {
    if st.api.store.Some? && NeedsSchedule(st.api.store.value) then 1 else 0
  }

  lemma SchedulesAppend(log: seq<Event>, e: Event)
    ensures Schedules(log + [e]) == Schedules(log) + if e.ScheduleOk? then 1 else 0
  {
    assert (log + [e])[..|log + [e]| - 1] == log;
  }

  /** Up to the build manager's answer: nothing is written, and `Schedule` is called if it is owed. */
  lemma AnsweredOutcome(st: State, outcome: Status)
    requires st.api.store.Some?
    ensures
      var b, mid := st.api.store.value, Answered(st, outcome);
      && mid.api == st.api
      && Schedules(mid.log) == Schedules(st.log) + Owed(st)
      && 0 in mid.reconciles
      && mid.reconciles[0] ==
           (if NeedsSchedule(b) then ScheduledBuild(b.(status := outcome), |st.log|)
            else if !Terminal(b.status.phase) then ObservedBuild(b.(status := outcome), |st.log|)
            else Ended(false, false))
      && mid.log == st.log + (if NeedsSchedule(b) then [Began(0), ScheduleOk(0)]
                              else if !Terminal(b.status.phase) then [Began(0)]
                              else [])
  {
    var b := st.api.store.value;
    var s1 := Step(st, Begin(0, NoFault, None, false));
    var s2 := Step(s1, Schedule(0, Some(outcome)));
    if NeedsSchedule(b) || !Terminal(b.status.phase) {
      assert s1.reconciles[0] == Read(b, |st.log|) && s1.log == st.log + [Began(0)] && s1.api == st.api;
      SchedulesAppend(st.log, Began(0));
      if NeedsSchedule(b) {
        assert s2.reconciles[0] == ScheduledBuild(b.(status := outcome), |st.log|);
        assert s2.log == s1.log + [ScheduleOk(0)] && s2.api == st.api;
        assert st.log + [Began(0)] + [ScheduleOk(0)] == st.log + [Began(0), ScheduleOk(0)];
        SchedulesAppend(s1.log, ScheduleOk(0));
      } else {
        assert s2 == s1;
      }
    } else {
      assert s1.reconciles[0] == Ended(false, false) && s2 == s1;
    }
  }

  /** From a cleared mark on: the workflow is told. */
  lemma ClearTickOutcome(st: State)
    requires HasStored(st, 0) && st.api.store == Some(st.reconciles[0].build)
    ensures
      var after := Step(Step(st, ClearMark(0, NoFault)), Notify(0, false));
      && after.api.store.Some?
      && after.api.store.value.status == st.api.store.value.status
      && after.api.store.value.restart == Some("false")
      && after.log == st.log + [MarkCleared(0), Signalled(0)]
      && Schedules(after.log) == Schedules(st.log)
      && 0 in after.reconciles && after.reconciles[0] == Ended(true, false)
  {
    var s5 := Step(st, ClearMark(0, NoFault));
    assert s5.log == st.log + [MarkCleared(0)] && s5.reconciles[0] == Notifying;
    SchedulesAppend(st.log, MarkCleared(0));
    SchedulesAppend(s5.log, Signalled(0));
    assert st.log + [MarkCleared(0)] + [Signalled(0)] == st.log + [MarkCleared(0), Signalled(0)];
  }

  /** From the answer on: the status is stored, and with it the mark, if any, is cleared. */
  lemma FinishTickOutcome(st: State)
    requires HasStatus(st, 0) && st.api.store.Some?
    requires st.reconciles[0].build.version == st.api.store.value.version
    requires Marked(st.api.store.value) ==> st.reconciles[0].ScheduledBuild?
    ensures
      var after := FinishTick(st);
      var marked := Marked(st.api.store.value);
      && after.api.store.Some?
      && after.api.store.value.status == st.reconciles[0].build.status
      && after.api.store.value.restart == (if marked then Some("false") else st.api.store.value.restart)
      && after.log ==
         st.log + (if marked then [StatusStored(0), MarkCleared(0), Signalled(0)] else [StatusStored(0)])
      && Schedules(after.log) == Schedules(st.log)
      && 0 in after.reconciles && after.reconciles[0] == Ended(true, false)
  {
    var s4 := Step(st, StoreStatus(0, NoFault));
    assert s4.log == st.log + [StatusStored(0)];
    SchedulesAppend(st.log, StatusStored(0));
    if Marked(st.api.store.value) {
      assert s4.reconciles[0] == StoredBuild(s4.api.store.value, st.reconciles[0].since);
      ClearTickOutcome(s4);
      assert s4.log + [MarkCleared(0), Signalled(0)] == st.log + [StatusStored(0), MarkCleared(0), Signalled(0)];
    } else {
      assert FinishTick(st) == s4;
    }
  }

  lemma FinishTickIdle(st: State)
    requires 0 in st.reconciles && st.reconciles[0].Ended?
    ensures FinishTick(st) == st
  {
  }

  /**
   One undisturbed reconcile: it schedules exactly a build without a phase or
   with the mark, stores the status the build manager sets, and leaves no mark.
   A finished build without the mark is left alone.
   */
  lemma TickOutcome(st: State, outcome: Status)
    requires st.api.store.Some?
    ensures
      var b, after := st.api.store.value, Tick(st, outcome);
      var marked := b.restart.Some? && b.restart.value in {"1", "t", "T", "true", "TRUE", "True"};
      var due := b.status.phase == NoPhase || marked;
      && 0 in after.reconciles
      && Schedules(after.log) == Schedules(st.log) + (if due then 1 else 0)
      && if due || b.status.phase !in {Succeeded, Failed, Errored} then
           && after.reconciles[0] == Ended(true, false)
           && after.api.store.Some?
           && after.api.store.value.status == outcome
           && after.api.store.value.restart == (if marked then Some("false") else b.restart)
         else
           after.api == st.api && after.log == st.log && after.reconciles[0] == Ended(false, false)
  {
    var b, mid := st.api.store.value, Answered(st, outcome);
    AnsweredOutcome(st, outcome);
    if NeedsSchedule(b) || !Terminal(b.status.phase) { FinishTickOutcome(mid); } else { FinishTickIdle(mid); }
  }

  /** What an undisturbed reconcile does with this build, in order. */
  function TickEvents(b: Build): seq<Event> {
    if b.restart.Some? && b.restart.value in {"1", "t", "T", "true", "TRUE", "True"} then
      [Began(0), ScheduleOk(0), StatusStored(0), MarkCleared(0), Signalled(0)]
    else if b.status.phase == NoPhase then [Began(0), ScheduleOk(0), StatusStored(0)]
    else if b.status.phase !in {Succeeded, Failed, Errored} then [Began(0), StatusStored(0)]
    else []
  }

  lemma TickLog(st: State, outcome: Status)
    requires st.api.store.Some?
    ensures Tick(st, outcome).log == st.log + TickEvents(st.api.store.value)
  {
    var b, mid := st.api.store.value, Answered(st, outcome);
    AnsweredOutcome(st, outcome);
    if NeedsSchedule(b) || !Terminal(b.status.phase) {
      FinishTickOutcome(mid);
      TickLogParts(st.log, b, mid.log, FinishTick(mid).log);
    } else {
      FinishTickIdle(mid);
    }
  }

  lemma TickLogParts(log: seq<Event>, b: Build, mid: seq<Event>, after: seq<Event>)
    requires NeedsSchedule(b) || !Terminal(b.status.phase)
    requires mid == log + if NeedsSchedule(b) then [Began(0), ScheduleOk(0)] else [Began(0)]
    requires after == mid + if Marked(b) then [StatusStored(0), MarkCleared(0), Signalled(0)] else [StatusStored(0)]
    ensures after == log + TickEvents(b)
  {
  }

  /** A finished build without a mark: no write, no schedule, no requeue. */
  lemma TerminalFixpoint(st: State, outcome: Status)
    requires st.api.store.Some? && st.api.store.value.status.phase in {Succeeded, Failed, Errored}
    requires st.api.store.value.restart !in
             {Some("1"), Some("t"), Some("T"), Some("true"), Some("TRUE"), Some("True")}
    ensures Tick(st, outcome).api == st.api && Tick(st, outcome).log == st.log
    ensures 0 in Tick(st, outcome).reconciles && Tick(st, outcome).reconciles[0] == Ended(false, false)
  {
    TickOutcome(st, outcome);
  }

  /** A signal that failed is not repeated: the mark is gone, and the next reconcile does not see it. */
  lemma FailedSignalIsLost(st: State, id: int, outcome: Status)
    requires Signalling(st, id) && st.api.store.Some? && st.api.store.value.restart == Some("false")
    ensures
      var after := Step(st, Notify(id, true));
      && id in after.reconciles && after.reconciles[id] == Ended(false, true)
      && Signalled(0) !in Tick(after, outcome).log[|st.log|..]
  {
    var after := Step(st, Notify(id, true));
    TickLog(after, outcome);
    assert after.log == st.log;
  }

  // ------------------------------------------------- counting the schedules

  /** The reconcile has called `Schedule` and not yet stored what settles it. */
  predicate IsPaid(st: State, id: int) {
    id in st.reconciles && (st.reconciles[id].ScheduledBuild? || st.reconciles[id].StoredBuild?)
  }

  ghost function Paid(st: State): set<int> {
    set id | id in st.reconciles && IsPaid(st, id)
  }

  function One(b: bool): nat { if b then 1 else 0 }

  /** Where only reconcile `id` moves, the number of paid ones changes with it. */
  lemma PaidMoves(st: State, after: State, id: int)
    requires id in after.reconciles && after.reconciles == st.reconciles[id := after.reconciles[id]]
    ensures |Paid(after)| + One(IsPaid(st, id)) == |Paid(st)| + One(IsPaid(after, id))
  {
    var others := Paid(st) - {id};
    assert Paid(after) == if IsPaid(after, id) then others + {id} else others;
    assert Paid(st) == if IsPaid(st, id) then others + {id} else others;
  }

  /** The step ends a paid reconcile before it settles: by a failure, or because its id begins anew. */
  predicate Abandons(st: State, a: Action) {
    !a.OtherWrite? && IsPaid(st, a.id) &&
    var after := Step(st, a);
    !IsPaid(after, a.id) && after.reconciles[a.id] !in {Notifying, Ended(true, false)}
  }

  /** Another writer makes a build owed a schedule that was not: by the mark, or by resetting the phase. */
  function Raised(st: State, a: Action): nat {
    if a.OtherWrite? && Owed(st) == 0 && NeedsSchedule(a.build) then 1 else 0
  }

  /** Another writer takes back what was owed. */
  function Withdrawn(st: State, a: Action): nat {
    if a.OtherWrite? && Owed(st) == 1 && !NeedsSchedule(a.build) then 1 else 0
  }

  function AllRaised(st: State, actions: seq<Action>): nat
    decreases |actions|
  {
    if actions == [] then 0 else Raised(st, actions[0]) + AllRaised(Step(st, actions[0]), actions[1..])
  }

  function AllWithdrawn(st: State, actions: seq<Action>): nat
    decreases |actions|
  {
    if actions == [] then 0 else Withdrawn(st, actions[0]) + AllWithdrawn(Step(st, actions[0]), actions[1..])
  }

  /** The build manager never answers with the empty phase. */
  predicate Answers(a: Action) {
    (a.Schedule? || a.Observe?) && a.outcome.Some? ==> !a.outcome.value.phase.NoPhase?
  }

  ghost predicate Regular(st: State, actions: seq<Action>)
    decreases |actions|
  {
    actions != [] ==>
      Answers(actions[0]) && !Abandons(st, actions[0]) && Regular(Step(st, actions[0]), actions[1..])
  }

  /** What a reconcile in flight knows of the build stored under its version. */
  ghost predicate Knows(api: Api, r: Reconcile) {
    match r
    case Read(b, _) => b in api.seen
    case ScheduledBuild(b, _) =>
      && b.version < api.nextVersion && !b.status.phase.NoPhase?
      && forall c :: c in api.seen && c.version == b.version ==> NeedsSchedule(c) && c.restart == b.restart
    case ObservedBuild(b, _) =>
      && b.version < api.nextVersion && !b.status.phase.NoPhase?
      && forall c :: c in api.seen && c.version == b.version ==> !NeedsSchedule(c) && c.restart == b.restart
    case StoredBuild(b, _) =>
      && b.version < api.nextVersion && !b.status.phase.NoPhase? && Marked(b)
      && forall c :: c in api.seen && c.version == b.version ==> c == b
    case _ => true
  }

  ghost predicate Informed(st: State) {
    && ApiInv(st.api)
    && (forall b, c :: b in st.api.seen && c in st.api.seen && b.version == c.version ==> b == c)
    && forall id :: id in st.reconciles ==> Knows(st.api, st.reconciles[id])
  }

  /** What is known of a version survives every commit, which has a new one. */
  lemma CommitKeepsKnowing(api: Api, b: Build, r: Reconcile)
    requires ApiInv(api) && Knows(api, r)
    ensures Knows(Commit(api, b), r)
  {
  }

  /** After a commit it is enough to look at the reconcile `id` that made it. */
  lemma CommitKeepsInformed(st: State, after: State, b: Build, id: int)
    requires Informed(st) && after.api == Commit(st.api, b)
    requires forall x :: x in after.reconciles && x != id ==>
               x in st.reconciles && after.reconciles[x] == st.reconciles[x]
    requires id in after.reconciles ==>
               Knows(after.api, after.reconciles[id]) ||
               (id in st.reconciles && after.reconciles[id] == st.reconciles[id])
    ensures Informed(after)
  {
    forall x | x in after.reconciles ensures Knows(after.api, after.reconciles[x]) {
      if x in st.reconciles { CommitKeepsKnowing(st.api, b, st.reconciles[x]); }
    }
  }

  lemma BeginKeepsInformed(st: State, id: int, fault: Fault, cached: Option<Build>, managerFails: bool)
    requires Informed(st)
    ensures Informed(BeginStep(st, id, fault, cached, managerFails))
  {
  }

  lemma OracleKeepsInformed(st: State, id: int, outcome: Option<Status>)
    requires Informed(st) && HasRead(st, id) && (outcome.Some? ==> !outcome.value.phase.NoPhase?)
    ensures Informed(OracleStep(st, id, outcome))
  {
    assert Knows(st.api, st.reconciles[id]);
  }

  lemma StatusKeepsInformed(st: State, id: int, fault: Fault)
    requires Informed(st) && HasStatus(st, id)
    ensures Informed(StoreStatusStep(st, id, fault))
  {
    var r, after := st.reconciles[id], StoreStatusStep(st, id, fault);
    if Accepts(st.api, r.build, fault) {
      var b := st.api.store.value.(status := r.build.status);
      assert Knows(st.api, r) && after.api == Commit(st.api, b);
      assert Knows(after.api, after.reconciles[id]);
      CommitKeepsInformed(st, after, b, id);
    }
  }

  lemma ClearKeepsInformed(st: State, id: int, fault: Fault)
    requires Informed(st) && HasStored(st, id)
    ensures Informed(ClearMarkStep(st, id, fault))
  {
    if Accepts(st.api, st.reconciles[id].build, fault) {
      CommitKeepsInformed(st, ClearMarkStep(st, id, fault), st.api.store.value.(restart := Some("false")), id);
    }
  }

  lemma StepKeepsInformed(st: State, a: Action)
    requires Informed(st) && Answers(a)
    ensures Informed(Step(st, a))
  {
    match a
    case Begin(id, fault, cached, managerFails) => BeginKeepsInformed(st, id, fault, cached, managerFails);
    case Schedule(id, outcome) => if Step(st, a) != st { OracleKeepsInformed(st, id, outcome); }
    case Observe(id, outcome) => if Step(st, a) != st { OracleKeepsInformed(st, id, outcome); }
    case StoreStatus(id, fault) => if HasStatus(st, id) { StatusKeepsInformed(st, id, fault); }
    case ClearMark(id, fault) => if HasStored(st, id) { ClearKeepsInformed(st, id, fault); }
    case Notify(_, _) =>
    case OtherWrite(b) => CommitKeepsInformed(st, Step(st, a), b, 0);
  }

  /** The stored build is the one the reconcile read, so its status settles what was owed, up to the mark. */
  lemma StatusSettles(st: State, id: int, fault: Fault)
    requires Informed(st) && HasStatus(st, id) && Accepts(st.api, st.reconciles[id].build, fault)
    ensures
      var r, after := st.reconciles[id], StoreStatusStep(st, id, fault);
      && Owed(st) == One(r.ScheduledBuild?)
      && Owed(after) == One(r.ScheduledBuild? && Marked(r.build))
      && (IsPaid(after, id) <==> r.ScheduledBuild? && Marked(r.build) && !fault.ReplyLost?)
  {
    assert Knows(st.api, st.reconciles[id]);
  }

  /** The stored build is the one whose status the reconcile stored, so clearing its mark settles what was owed. */
  lemma ClearSettles(st: State, id: int, fault: Fault)
    requires Informed(st) && HasStored(st, id) && Accepts(st.api, st.reconciles[id].build, fault)
    ensures Owed(st) == 1 && Owed(ClearMarkStep(st, id, fault)) == 0
  {
    assert Knows(st.api, st.reconciles[id]);
  }

  /** The books balance over a step: what is scheduled, owed and in flight changes together. */
  ghost predicate Balanced(st: State, a: Action) {
    var after := Step(st, a);
    Schedules(after.log) + Owed(after) + Withdrawn(st, a) + |Paid(st)| ==
    Schedules(st.log) + Owed(st) + Raised(st, a) + |Paid(after)|
  }

  lemma StoreStatusBalances(st: State, id: int, fault: Fault)
    requires Informed(st) && HasStatus(st, id) && !Abandons(st, StoreStatus(id, fault))
    ensures Balanced(st, StoreStatus(id, fault))
  {
    var after := StoreStatusStep(st, id, fault);
    assert after == Step(st, StoreStatus(id, fault));
    PaidMoves(st, after, id);
    assert Schedules(after.log) == Schedules(st.log) by { SchedulesAppend(st.log, StatusStored(id)); }
    if Accepts(st.api, st.reconciles[id].build, fault) { StatusSettles(st, id, fault); }
  }

  lemma ClearMarkBalances(st: State, id: int, fault: Fault)
    requires Informed(st) && HasStored(st, id) && !Abandons(st, ClearMark(id, fault))
    ensures Balanced(st, ClearMark(id, fault))
  {
    var after := ClearMarkStep(st, id, fault);
    assert after == Step(st, ClearMark(id, fault));
    assert after.reconciles == st.reconciles[id := after.reconciles[id]];
    assert IsPaid(st, id) && !IsPaid(after, id);
    PaidMoves(st, after, id);
    assert Schedules(after.log) == Schedules(st.log) by { SchedulesAppend(st.log, MarkCleared(id)); }
    if Accepts(st.api, st.reconciles[id].build, fault) { ClearSettles(st, id, fault); }
  }

  lemma OracleBalances(st: State, id: int, outcome: Option<Status>)
    requires HasRead(st, id)
    ensures
      var after := OracleStep(st, id, outcome);
      after.api == st.api && Schedules(after.log) + |Paid(st)| == Schedules(st.log) + |Paid(after)|
  {
    PaidMoves(st, OracleStep(st, id, outcome), id);
    SchedulesAppend(st.log, ScheduleOk(id));
  }

  lemma BeginChanges(st: State, id: int, fault: Fault, cached: Option<Build>, managerFails: bool)
    ensures
      var after := BeginStep(st, id, fault, cached, managerFails);
      && after.api == st.api
      && id in after.reconciles && after.reconciles == st.reconciles[id := after.reconciles[id]]
      && !IsPaid(after, id) && after.reconciles[id] !in {Notifying, Ended(true, false)}
      && Schedules(after.log) == Schedules(st.log)
  {
    var after := BeginStep(st, id, fault, cached, managerFails);
    assert after.api == st.api;
    assert Schedules(after.log) == Schedules(st.log) by { SchedulesAppend(st.log, Began(id)); }
  }

  lemma BeginBalances(st: State, id: int, fault: Fault, cached: Option<Build>, managerFails: bool)
    requires !Abandons(st, Begin(id, fault, cached, managerFails))
    ensures Balanced(st, Begin(id, fault, cached, managerFails))
  {
    BeginChanges(st, id, fault, cached, managerFails);
    PaidMoves(st, BeginStep(st, id, fault, cached, managerFails), id);
  }

  lemma AskBalances(st: State, a: Action)
    requires a.Schedule? || a.Observe?
    ensures Balanced(st, a)
  {
    if Step(st, a) != st { OracleBalances(st, a.id, a.outcome); }
  }

  lemma NotifyBalances(st: State, id: int, fails: bool)
    ensures Balanced(st, Notify(id, fails))
  {
    if Signalling(st, id) {
      var after := Step(st, Notify(id, fails));
      assert after.api == st.api && !IsPaid(after, id);
      PaidMoves(st, after, id);
      assert Schedules(after.log) == Schedules(st.log) by { SchedulesAppend(st.log, Signalled(id)); }
    }
  }

  lemma OtherWriteBalances(st: State, b: Build)
    ensures Balanced(st, OtherWrite(b))
  {
    var after := Step(st, OtherWrite(b));
    assert Paid(after) == Paid(st);
    assert Schedules(after.log) == Schedules(st.log) by { SchedulesAppend(st.log, Written); }
  }

  lemma StepBalances(st: State, a: Action)
    requires Informed(st) && !Abandons(st, a)
    ensures Balanced(st, a)
  {
    match a
    case Begin(id, fault, cached, managerFails) => BeginBalances(st, id, fault, cached, managerFails);
    case Schedule(_, _) => AskBalances(st, a);
    case Observe(_, _) => AskBalances(st, a);
    case StoreStatus(id, fault) => if HasStatus(st, id) { StoreStatusBalances(st, id, fault); }
    case ClearMark(id, fault) => if HasStored(st, id) { ClearMarkBalances(st, id, fault); }
    case Notify(id, fails) => NotifyBalances(st, id, fails);
    case OtherWrite(b) => OtherWriteBalances(st, b);
  }

  /**
   Conservation over every run, with stale reads, several reconciles in flight
   and other writers between any two calls: if no reconcile is abandoned after
   it scheduled, the schedules made are those owed at the start or raised since,
   less what is still owed or was withdrawn, and more only by what is in flight.
   */
  lemma {:induction false} SchedulesConserved(st: State, actions: seq<Action>)
    requires Informed(st) && Regular(st, actions)
    ensures
      var end := Run(st, actions);
      Schedules(end.log) + Owed(end) + AllWithdrawn(st, actions) + |Paid(st)| ==
      Schedules(st.log) + Owed(st) + AllRaised(st, actions) + |Paid(end)|
    decreases |actions|
  {
    if actions == [] {
    } else {
      StepKeepsInformed(st, actions[0]);
      StepBalances(st, actions[0]);
      SchedulesConserved(Step(st, actions[0]), actions[1..]);
    }
  }

  /** Once nothing is in flight and nothing is owed, each mark or reset not withdrawn has had exactly one schedule. */
  lemma OneSchedulePerMark(actions: seq<Action>)
    requires Regular(INITIAL, actions)
    requires Paid(Run(INITIAL, actions)) == {} && Owed(Run(INITIAL, actions)) == 0
    ensures Schedules(Run(INITIAL, actions).log) + AllWithdrawn(INITIAL, actions) == AllRaised(INITIAL, actions)
  {
    assert Paid(INITIAL) == {};
    SchedulesConserved(INITIAL, actions);
  }

  // ----------------------------------------------------------- imperative

  /** Faults, oracle answers and the writes of others before each call of one reconcile. */
  datatype World = World(
    get: Fault, cached: Option<Build>, managerFails: bool, outcome: Option<Status>,
    status: Fault, update: Fault, notifyFails: bool, others: nat -> seq<Build>)

  function Writes(builds: seq<Build>): seq<Action> {
    seq(|builds|, i requires 0 <= i < |builds| => OtherWrite(builds[i]))
  }

  function ClearScript(id: int, world: World): seq<Action> {
    Writes(world.others(1)) + [ClearMark(id, world.update)] + [Notify(id, world.notifyFails)]
  }

  function StoreScript(id: int, world: World): seq<Action> {
    Writes(world.others(0)) + [StoreStatus(id, world.status)]
  }

  /** The calls of one reconcile in this world, were each to succeed: a reconcile makes a prefix of them. */
  function Script(id: int, world: World, api: Api): seq<Action> {
    var reply := ServerGet(api, world.get, world.cached);
    [Begin(id, world.get, world.cached, world.managerFails)] +
    if reply.Ok? && NeedsSchedule(reply.value) then
      [Schedule(id, world.outcome)] + StoreScript(id, world) + ClearScript(id, world)
    else [Observe(id, world.outcome)] + StoreScript(id, world)
  }

  /** The server, with the machine and the actions it mirrors. */
  class BuildServer {
    var api: Api
    ghost const start: State
    ghost var trace: seq<Action>

    ghost predicate Valid()
      reads this
    {
      Run(start, trace).api == api
    }

    ghost function Now(): State
      reads this
    {
      Run(start, trace)
    }

    constructor (ghost start: State, api: Api)
      requires api == start.api
      ensures Valid() && this.start == start && trace == []
    {
      this.api, this.start, this.trace := api, start, [];
    }

    method Interfere(builds: seq<Build>)
      requires Valid()
      modifies this
      ensures Valid() && Now().reconciles == old(Now().reconciles)
      ensures trace == old(trace) + Writes(builds)
    {
      for i := 0 to |builds|
        invariant Valid() && Now().reconciles == old(Now().reconciles)
        invariant trace == old(trace) + Writes(builds)[..i]
      {
        RunOne(Step, start, trace, OtherWrite(builds[i]));
        api, trace := Commit(api, builds[i]), trace + [OtherWrite(builds[i])];
      }
    }

    /** Records that the machine takes the step the code is about to take. */
    ghost method Mirror(a: Action)
      modifies this`trace
      ensures trace == old(trace) + [a] && Now() == Step(old(Now()), a)
    {
      RunOne(Step, start, trace, a);
      trace := trace + [a];
    }

    method UpdateStatus(b: Build, fault: Fault) returns (reply: Reply)
      modifies this`api
      ensures (api, reply) == ServerStatusUpdate(old(api), b, fault)
    {
      var (next, told) := ServerStatusUpdate(api, b, fault);
      api, reply := next, told;
    }

    method Update(b: Build, fault: Fault) returns (reply: Reply)
      modifies this`api
      ensures (api, reply) == ServerUpdate(old(api), b, fault)
    {
      var (next, told) := ServerUpdate(api, b, fault);
      api, reply := next, told;
    }
  }

  /** The last update of a marked build, and the signal to its workflow. */
  method ClearRestartMark(server: BuildServer, stored: Build, world: World, ghost id: int, ghost since: nat)
    returns (requeue: bool, failed: bool)
    requires server.Valid()
    requires id in server.Now().reconciles && server.Now().reconciles[id] == StoredBuild(stored, since)
    modifies server
    ensures server.Valid() && old(server.trace) <= server.trace <= old(server.trace) + ClearScript(id, world)
    ensures server.Now().reconciles == old(server.Now().reconciles)[id := Ended(requeue, failed)]
  {
    var build := stored.(restart := Some("false"));
    server.Interfere(world.others(1));
    server.Mirror(ClearMark(id, world.update));
    var reply := server.Update(build, world.update);
    if !reply.Ok? { return false, true; }
    server.Mirror(Notify(id, world.notifyFails));
    if world.notifyFails { return false, true; }
    return true, false;
  }

  /** Storing the status the build manager set; `reply` carries the build as stored. */
  method ManageStatusUpdate(server: BuildServer, build: Build, world: World, ghost id: int)
    returns (reply: Reply)
    requires server.Valid() && HasStatus(server.Now(), id) && server.Now().reconciles[id].build == build
    modifies server
    ensures server.Valid() && server.trace == old(server.trace) + StoreScript(id, world)
    ensures
      var r := old(server.Now().reconciles)[id];
      server.Now().reconciles == old(server.Now().reconciles)[id :=
        if !reply.Ok? then Ended(false, true)
        else if r.ScheduledBuild? && Marked(reply.value) then StoredBuild(reply.value, r.since)
        else Ended(true, false)]
  {
    server.Interfere(world.others(0));
    server.Mirror(StoreStatus(id, world.status));
    reply := server.UpdateStatus(build, world.status);
  }

  method ScheduleNewBuild(server: BuildServer, read: Build, world: World, ghost id: int, ghost since: nat)
    returns (requeue: bool, failed: bool)
    requires server.Valid() && NeedsSchedule(read)
    requires id in server.Now().reconciles && server.Now().reconciles[id] == Read(read, since)
    modifies server
    ensures server.Valid() && old(server.trace) <= server.trace
    ensures server.trace <=
            old(server.trace) + ([Schedule(id, world.outcome)] + StoreScript(id, world) + ClearScript(id, world))
    ensures server.Now().reconciles == old(server.Now().reconciles)[id := Ended(requeue, failed)]
  {
    server.Mirror(Schedule(id, world.outcome));
    if world.outcome.None? { return false, true; }
    var build := read.(status := world.outcome.value);
    var reply := ManageStatusUpdate(server, build, world, id);
    if !reply.Ok? { return false, true; }
    if Marked(reply.value) {
      requeue, failed := ClearRestartMark(server, reply.value, world, id, since);
    } else {
      return true, false;
    }
  }

  /**
   The code, proved to be one reconcile of the machine: it makes a prefix of
   the calls of its script, up to the one that ends it, and returns what that
   reconcile ended with.
   */
  method ReconcileBuild(server: BuildServer, world: World, ghost id: int) returns (requeue: bool, failed: bool)
    requires server.Valid()
    modifies server
    ensures server.Valid() && old(server.trace) < server.trace
    ensures server.trace <= old(server.trace) + Script(id, world, old(server.api))
    ensures server.Now().reconciles == old(server.Now().reconciles)[id := Ended(requeue, failed)]
  {
    ghost var since := |server.Now().log|;
    server.Mirror(Begin(id, world.get, world.cached, world.managerFails));
    var reply := ServerGet(server.api, world.get, world.cached);
    if reply.NotFound? { return false, false; }
    if reply.Error? || world.managerFails { return false, true; }
    var build := reply.value;
    if NeedsSchedule(build) {
      requeue, failed := ScheduleNewBuild(server, build, world, id, since);
    } else if !Terminal(build.status.phase) {
      server.Mirror(Observe(id, world.outcome));
      if world.outcome.None? { return false, true; }
      build := build.(status := world.outcome.value);
      reply := ManageStatusUpdate(server, build, world, id);
      if !reply.Ok? { return false, true; }
      return true, false;
    } else {
      return false, false;
    }
  }
}
