# SonataFlow operator: verified models

Dafny models of the parts of the SonataFlow operator that carry state of their
own, and proofs of what the operator relies on them for. Check the project with
`dafny verify dfyconfig.toml`.

| file | what it models |
|---|---|
| `Common.dfy` | optional values, failing API calls, runs of a state machine |
| `Ordering.dfy` | Go's order on strings and the contract of `sort.Slice`, which is not stable |
| `Conditions.dfy`, `ManagerRuns.dfy`, `ConditionManager.dfy` | the condition manager: one write, whole runs against their history, and the objects that are changed in place |
| `Upserts.dfy` | order-preserving upserts of volumes, volume mounts and environment variables |
| `ReplaceProtocol.dfy` | `ReplaceResource`, any number of callers interleaved with other writers |
| `TriggerFinalizer.dfy` | trigger cleanup behind the finalizer, for workflows and platforms |
| `BuildRestart.dfy` | the build controller and its restart mark |
| `PropertyLayers.dfy` | layering of application properties over shared, mutable lists |
| `ProjectManifest.dfy` | ConfigMaps generated from the resources of a workflow project |
| `Naming.dfy` | name sanitizing, and the regular expression it is built on |
| `ConfigRollout.dfy` | rollout on a changed configuration checksum |

## How to read the models

Code that changes state is modelled by classes and methods with the source's
loops. Each such method is tied, in its `ensures`, to a function or a state
machine on values, and the main theorems are lemmas about those values over all
inputs and all runs.

**Conditions.** A manager call is a sequence of primitive events, writes and
erases of one type. `RunAgrees` compares the list after any run with the event
history alone: per type, the content of its last event, and the time of the
last write that changed that content. The clock is a parameter of each write.
`Keyed` says that no type occurs twice, which the API declares by its merge key
(`api/status_types.go:39-41`) and every run from an empty status keeps. On a
list with repeated types the unstable sort leaves open where they stand, so
what a call leaves is a relation, `Outcome`, which holds of every list; on a
keyed list it has one result, the step of a run (`OutcomeIsApply`). The comment
on `MarkFalse` says that ready is set as well. The code sets one type only, and
so does the model (`MarkOutcome`).

**Cluster protocols.** Each protocol is a state machine over single API calls.
Assumed of the server: a write gets a version never used before, and an update
is accepted only with the live version. Nothing else is assumed: a call may be
rejected, or applied with its reply lost; a read may return any version ever
stored (the operator reads through a cache); other writers may act between any
two calls, and several callers may be in flight. The code (`ReplaceResource`,
`CleanupTriggers`, `ScheduleNewBuild`) is proved to make a prefix of the calls
its world dictates, to leave the server as the machine leaves it, and to return
what the machine's caller ends with. `World` holds faults, cached reads, oracle
answers and the writes of others. What a call may report is then stated of every
state and every call, with constants, annotations and phases written out: which
calls end an operation without an error, which with one, and which go on
(`NoErrorMeansRemoved`, `SuccessMeansStored`, `NoFailureMeaning` and the lemmas
beside them). Two of these become laws of whole runs: no replace and no cleanup
reports a success it has not achieved. The signal of the build controller is
weaker: it follows every cleared mark unless the reconcile fails in between, and
then it is lost.

**Properties.** The lists of the properties library are modelled by their
values and their key order. `Build` reads, deletes and merges through
references, so its contract has one clause per way the defaults can be shared.
The layering law fails when they are, and the two lemmas on sharing say exactly
when it still holds.

**Names.** Go's tables for lower case and white space are parameters; all that
is assumed is that `-`, `a`-`z` and `0`-`9` are lower case and no white space.
Results consist of those characters only, so their length in bytes is their
length in characters.

## Model

| member | source | states |
|---|---|---|
| `ConditionManagement.Status.GetCondition` | api/status_types.go:53-60 | The first condition of a type in list order, or none if the type is absent; the list is not changed. |
| `ConditionManagement.ConditionManager.SetCondition` | api/status_types.go:118-140 | On any list, a write whose content some stored condition of the type already has leaves the whole list untouched; otherwise the list becomes a sorted permutation of the other types plus the condition stamped now. Without repeated types that result is unique. |
| `Conditions.SortedArrangementUnique` | api/status_types.go:137-139 | Whatever the unstable sort does, a list without repeated types has one sorted arrangement. |
| `Ordering.LessIsLexicographic` | api/status_types.go:137-139 | A string is below another exactly if it is a proper prefix of it or has the smaller character at the first difference. |
| `Conditions.SetConditionLookup` | api/status_types.go:118-140 | A write is a map update of one type, skipped when the content is equal; every other type's lookup is untouched, and types stay distinct and sorted. |
| `Conditions.EraseLookup` | api/status_types.go:163-175 | An erase is a map removal of one type; every other type's lookup is untouched, and order is kept. |
| `ConditionManagement.ConditionManager.ClearCondition` | api/status_types.go:153-178 | On any list, clearing a terminal type is refused without change, clearing an absent type changes nothing, otherwise the list becomes a sorted permutation of the other types. |
| `ManagerRuns.ClearOutcome` | api/status_types.go:153-178 | Every lookup is as before, but that of the given type, which is none unless the type is ready or a dependent. |
| `ConditionManagement.ConditionManager.IsTerminal` | api/status_types.go:142-149 | True exactly for the dependents and ready. |
| `ManagerRuns.OutcomeIsApply` | api/status_types.go:116-328 | For every call: what it may leave of any list is, without repeated types, exactly one list, the step of a run. |
| `ManagerRuns.RunAgrees` | api/status_types.go:116-178 | After every run of manager calls from an empty status the list is strictly sorted by type, and each lookup agrees with the event history: content of the last event, time of the last write that changed it. |
| `ManagerRuns.ReplayAgrees` | api/status_types.go:118-178 | The same for every sequence of primitive writes and erases. |
| `ManagerRuns.LastChangeUnique` | api/status_types.go:128-135 | A history has at most one last change of a type, so the stored time is determined. |
| `ManagerRuns.RunTimeNeverDecreases` | api/status_types.go:118-140 | With a clock that never goes back, the update time of a type that is not cleared never decreases over a run. |
| `ManagerRuns.MarkOutcome` | api/status_types.go:181-198 | `MarkTrue`, `MarkTrueWithReason` and `MarkFalse` leave of their type the old condition if it differs in its time only, else the new one stamped now, and leave every other type alone, ready included. |
| `ConditionManagement.ConditionManager.MarkTrue` | api/status_types.go:181-187 | On any list the call writes its one condition; without repeated types it is one step of a run. |
| `ConditionManagement.ConditionManager.MarkTrueWithReason` | api/status_types.go:190-198 | On any list the call writes its one condition; without repeated types it is one step of a run. |
| `ConditionManagement.ConditionManager.MarkFalse` | api/status_types.go:285-292 | On any list the call writes its one condition; without repeated types it is one step of a run. |
| `ConditionManagement.ConditionManager.MarkUnknown` | api/status_types.go:246-282 | On any list the call writes its condition and then, by its loop over the dependents and its early return, ready or nothing; without repeated types it is one step of a run. |
| `ManagerRuns.MarkUnknownOutcome` | api/status_types.go:246-282 | The exact lookup of every type afterwards, times included: the type is Unknown; then, if some dependent has status False, ready is False, kept if it was and written otherwise; else ready is Unknown if the type is a dependent, and unchanged if not. Nothing else changes. |
| `ManagerRuns.FalseDependentMakesReadyFalse` | api/status_types.go:256-271 | Whatever other type is marked Unknown, a dependent with status False stays and leaves ready with status False. |
| `ConditionManagement.ConditionManager.InitializeConditions` | api/status_types.go:296-328 | On any list the call adds ready if it is missing and then each missing dependent in turn; without repeated types it is one step of a run. |
| `ManagerRuns.InitializeOutcome` | api/status_types.go:296-328 | No existing condition is altered, no foreign type appears, a missing ready becomes Unknown, and a missing dependent becomes True exactly when ready was True, each with the clock reading of its first turn. |
| `ManagerRuns.InitializeIdempotent` | api/status_types.go:296-328 | After initialization ready and all dependents are present, and a second one at any time changes nothing. |
| `ManagerRuns.InitializedForever` | api/status_types.go:142-178 | From the first initialization of any run on, ready and every dependent are present at every later point. |
| `ConditionManagement.ConditionManager.FindUnreadyDependent` | api/status_types.go:200-242 | Filtering in place, sorting by time and scanning twice returns a most recent False condition other than ready, else a most recent Unknown one, else the uninitialized one if dependents outnumber the rest, else none; the stored list is not changed. |
| `ConditionManagement.UnreadyIsReported` | api/status_types.go:219-231 | If a condition other than ready is not True, the result is a stored one of the same status and at least as recent, or a False one where that is Unknown. |
| `ConditionManagement.NothingUnready` | api/status_types.go:219-241 | None is returned exactly when every condition but ready is True and the missing dependents are no more than the foreign types stored. |
| `ConditionManagement.NothingUnreadyMeansReady` | api/status_types.go:219-241 | With terminal types only, none is returned exactly when every dependent is present and True. |
| `ConditionManagement.ForeignTypeHidesMissing` | api/status_types.go:233-241 | A concrete list in which a foreign condition hides a dependent that was never set. |
| `Upserts.AddOrReplaceVolume` | utils/kubernetes/volumes.go:103-127 | The nested loops compute the batch upsert of the volumes. |
| `Upserts.AddOrReplaceVolumeMount` | utils/kubernetes/volumes.go:130-150 | The nested loops compute the batch upsert of the mounts. |
| `Upserts.AddOrReplaceEnvVar` | utils/kubernetes/volumes.go:154-172 | The nested loops compute the batch upsert of the environment variables. |
| `Upserts.BatchLayout` | utils/kubernetes/volumes.go:108-126 | For any input, repeated names included: old positions keep their names, the first old entry of a matched name holds the last input of that name, all other old entries are unchanged, and the tail is the unmatched inputs. |
| `Upserts.LastInputWins` | utils/kubernetes/volumes.go:112-120 | The first old entry of a name becomes the last input of that name, in place. |
| `Upserts.OtherEntriesStay` | utils/kubernetes/volumes.go:112-120 | An old entry that no input names, or that is not the first of its name, stays what it was and where it was. |
| `Upserts.UnmatchedIsFilter` | utils/kubernetes/volumes.go:119-126 | For every input and everything given before and after it: it is appended exactly when no old entry has its name, after what the inputs before it append and before what the later ones do. So the tail is the unmatched inputs in input order. |
| `Upserts.BatchIsUpsertAllIff` | utils/kubernetes/volumes.go:103-172 | Deferring the appends equals upserting one by one exactly when no name new to the list is given twice. |
| `Upserts.CycleFixpoint` | utils/kubernetes/volumes.go:103-127 | For any start list and any sequence of calls, each with distinct names, running the sequence again changes nothing, order included. |
| `Upserts.BatchFixpointIff` | utils/kubernetes/volumes.go:103-127 | One call repeated is a fixpoint exactly when each name new to the list is first and last given with the same entry. |
| `Upserts.RepeatedNewNameUnstable` | utils/kubernetes/volumes.go:108-126 | A concrete call that gives one new name twice and is not stable. |
| `ReplaceProtocol.ReplaceResource` | utils/kubernetes/replace.go:40-62 | The code runs as one caller of the machine, in the source's order, for every choice of faults, cached reads and other writes. A failed create or read is an error; without an error what was asked for is stored, and it is called a replacement exactly if the create found the object. |
| `ReplaceProtocol.ReplaceExisting` | utils/kubernetes/replace.go:43-57 | The branch for an existing object reads it, takes over what must stay and updates; any fault on the way is an error, and without one the object is stored. |
| `ReplaceProtocol.MapRequiredOutcome` | utils/kubernetes/replace.go:64-82 | The mapped object is the one requested with the version read, and with the ClusterIP or Host read if both are Services or Routes. |
| `ReplaceProtocol.KeysTellApart` | utils/kubernetes/replace.go:49 | Two objects are one resource exactly if kind, namespace and name agree. |
| `ReplaceProtocol.SuccessMeansStored` | utils/kubernetes/replace.go:40-62 | In any state, the call that ends a replace without an error has stored the object held: by a create if there was none, by an update of the live version if there was. |
| `ReplaceProtocol.FailureMeaning` | utils/kubernetes/replace.go:50-60 | The call that ends a replace with an error: which error, that the result says replaced exactly after a create that found the object, and that nothing was stored unless the reply was lost. |
| `ReplaceProtocol.GoingOnMeaning` | utils/kubernetes/replace.go:42-56 | A call that does not end a replace: a create that found the object, or a read that returned it, live or cached, whose mapped form is sent next. |
| `ReplaceProtocol.SuccessIsFulfilled` | utils/kubernetes/replace.go:39-62 | No false success over any run: a caller that ended without an error has, since its request, stored what it asked for and no other key, and reports a replacement exactly if there was an object to replace. |
| `ReplaceProtocol.UpdateIsSafe` | utils/kubernetes/replace.go:49-56 | In every interleaving, an update that changes the store overwrites exactly the object its caller read, keeps ClusterIP and Host, and touches no other key. |
| `ReplaceProtocol.ChangeOvertakes` | utils/kubernetes/replace.go:49-56 | Any step of another party that changes or removes the object a caller has read leaves that caller with a version that is not live. |
| `ReplaceProtocol.OvertakenUpdateRefused` | utils/kubernetes/replace.go:56-60 | No lost update: whatever happens later, the update of such a caller fails and leaves the server as it was. |
| `ReplaceProtocol.UndisturbedCreate` | utils/kubernetes/replace.go:41-42 | Without faults an object that does not exist is created as requested, and the result says it replaced nothing. |
| `ReplaceProtocol.UndisturbedReplace` | utils/kubernetes/replace.go:40-62 | Without faults and other writers an existing object is replaced, its immutable fields and all other keys kept. |
| `TriggerFinalizer.CleanupTriggers` | internal/controller/sonataflow_controller.go:136-150 | The deletion loop and the final update run as one cleanup of the machine, ending at the first failure, which is returned; no error means that no deletion was refused and that no owner with the finalizer is left. |
| `TriggerFinalizer.ReconcileDeletion` | internal/controller/sonataflow_controller.go:94-114 | Reading, defaulting and the guard start that cleanup exactly on a deleted owner with the finalizer. |
| `TriggerFinalizer.NoErrorMeansRemoved` | internal/controller/sonataflow_controller.go:94-150 | In any state, the call at which an attempt comes to end without an error is a read that found no owner, or an update that stored the owner without the finalizer. |
| `TriggerFinalizer.ErrorMeaning` | internal/controller/sonataflow_controller.go:94-150 | What ends an attempt with an error, and which: a failed read, a refused deletion, a failed or outdated update; nothing is stored unless the reply was lost. |
| `TriggerFinalizer.GoingOnMeaning` | internal/controller/sonataflow_controller.go:105-147 | A read starts a cleanup exactly on a deleted owner with the finalizer; a deletion that is not refused moves to the next trigger. |
| `TriggerFinalizer.DefaultsOutcome` | internal/controller/sonataflow_controller.go:125-134 | A workflow gets a supported profile, the deployment model of `dev`, and no other change; a platform none. |
| `TriggerFinalizer.AttemptIsCleaned` | internal/controller/sonataflow_controller.go:136-147 | In every run, an attempt in progress has had each trigger before its index deleted by its name and namespace, or reported absent, by its own calls, in order, since it began. |
| `TriggerFinalizer.FinishIsSafe` | internal/controller/sonataflowplatform_controller.go:202-216 | In every run, an update that removes the finalizer found the owner exactly as read: being deleted, holding the finalizer, with every listed trigger answered for since the attempt began. What it stores is that owner with its defaults and all other finalizers, or nothing if there was no other. |
| `TriggerFinalizer.LossIsProper` | internal/controller/sonataflow_controller.go:107-150 | Any step of any run that takes the finalizer away, unless another writer does, is such an update. |
| `TriggerFinalizer.FinalizerSafety` | internal/controller/sonataflowplatform_controller.go:130-137 | Over any number of attempts failing anywhere, if other writers spare it, a finalizer that was there and is gone was last taken away by an update whose attempt had, between its beginning and that update, deleted or found absent each trigger its owner listed at that moment. |
| `TriggerFinalizer.NoErrorMeansAchieved` | internal/controller/sonataflowplatform_controller.go:130-137 | No false success over any run: an attempt that has ended without an error found no owner when it began, or took the finalizer away itself, after every trigger the owner listed was answered for. |
| `TriggerFinalizer.CleanupCompletes` | internal/controller/sonataflow_controller.go:136-150 | An attempt that meets no failure and no other writer ends with the finalizer removed, and with the owner gone if it was the last one. |
| `TriggerFinalizer.RemoveFinalizer` | internal/controller/sonataflow_controller.go:148 | The finalizer is gone and every other one occurs as often as before. |
| `TriggerFinalizer.RemoveFinalizerAppend` | internal/controller/sonataflow_controller.go:148 | The finalizers that stay keep their order. |
| `BuildRestart.ReconcileBuild` | internal/controller/sonataflowbuild_controller.go:74-108 | The code runs as one reconcile of the machine, through each of its branches, and returns what that reconcile ends with. |
| `BuildRestart.ScheduleNewBuild` | internal/controller/sonataflowbuild_controller.go:110-134 | Schedule, status update, clearing of the mark and the signal to the workflow run in that order, up to the first failure. |
| `BuildRestart.ClearRestartMark` | internal/controller/sonataflowbuild_controller.go:117-131 | The mark is cleared by an update before the workflow is told. |
| `BuildRestart.ManageStatusUpdate` | internal/controller/sonataflowbuild_controller.go:136-143 | The status is stored and the reconcile continues only if that succeeded. |
| `BuildRestart.ScheduleOrObserve` | internal/controller/sonataflowbuild_controller.go:92-96 | Of a build read, the build manager is asked to schedule exactly if it has no phase or its annotation is true, and otherwise to observe. |
| `BuildRestart.NoFailureMeaning` | internal/controller/sonataflowbuild_controller.go:74-134 | In any state, the call that ends a reconcile without a failure: a read that found nothing to do, a stored status of a build without the mark, or the signal; it asks to come back in the last two. |
| `BuildRestart.FailureMeaning` | internal/controller/sonataflowbuild_controller.go:74-134 | In any state, what ends a reconcile with a failure, and that nothing was stored unless the reply was lost. |
| `BuildRestart.GoingOnMeaning` | internal/controller/sonataflowbuild_controller.go:74-134 | In any state, which calls a reconcile goes on from, and with which build. |
| `BuildRestart.MarkClearedJustified` | internal/controller/sonataflowbuild_controller.go:110-122 | In every run, wherever the mark is cleared, the same reconcile, from its last beginning on, had scheduled and then stored the status, and nobody else had written the build since it began: no mark is lost. |
| `BuildRestart.WritesAreLogged` | internal/controller/sonataflowbuild_controller.go:114-122 | Every change of the store is one logged write, a status update stores the status set and keeps the annotation, and clearing stores `false` there and keeps the status. |
| `BuildRestart.ClearedMarkIsSignalled` | internal/controller/sonataflowbuild_controller.go:117-131 | In every run, a reconcile that cleared the mark and ended asking to come back, as it does unless it fails, has told the workflow after that. |
| `BuildRestart.SignalFollowsClearing` | internal/controller/sonataflowbuild_controller.go:117-131 | In every run, the workflow is told only after the same reconcile cleared the mark, and once for it. |
| `BuildRestart.FailedSignalIsLost` | internal/controller/sonataflowbuild_controller.go:117-131 | A signal that failed is not repeated: the mark is gone, so the next reconcile does not see it. |
| `BuildRestart.TickOutcome` | internal/controller/sonataflowbuild_controller.go:85-133 | A reconcile without failures schedules exactly if the build has no phase or its annotation is one of the six true values, stores the build manager's status, makes the annotation `false` if it was true, and asks to come back; a build that is Succeeded, Failed or Error without a true annotation is left alone. |
| `BuildRestart.TickLog` | internal/controller/sonataflowbuild_controller.go:85-133 | What such a reconcile does, in order: schedule, status, clearing of the mark, signal, each exactly if it is due. |
| `BuildRestart.TerminalFixpoint` | internal/controller/sonataflowbuild_controller.go:92-107 | A Succeeded, Failed or Error build without a mark: no write, no schedule, no requeue. |
| `BuildRestart.SchedulesConserved` | internal/controller/sonataflowbuild_controller.go:92-122 | Over every run, with stale reads, several reconciles in flight and other writers between any two calls, in which no reconcile is abandoned after it scheduled: schedules made, owed and withdrawn balance those owed at the start, raised by a mark or a phase reset, and in flight. |
| `BuildRestart.OneSchedulePerMark` | internal/controller/sonataflowbuild_controller.go:92-122 | Once such a run has nothing in flight and nothing owed, each mark or phase reset that was not withdrawn has had exactly one schedule. |
| `PropertyLayers.ApplicationPropertiesBuilder.Build` | utils/properties.go:59-85 | The user's list is changed in place and returned, the defaults lose exactly the user's keys, the immutable list is unchanged unless it is also the defaults or the user's list; with separate lists the result is the layered one, and with shared defaults it is as the other clauses say. |
| `PropertyLayers.DropShadowed` | utils/properties.go:71-76 | The loop deletes from the defaults exactly the keys the user's list has, even when both are one list. |
| `PropertyLayers.FilterAppend` | utils/properties.go:71-76 | The keys that stay keep their order. |
| `PropertyLayers.LayeringLaw` | utils/properties.go:59-85 | Each value comes from the immutable list if present, else the user's, else the defaults; the key set is the union. |
| `PropertyLayers.KeyOrder` | utils/properties.go:77-83 | Keys stand in the user's order, then the new defaults in theirs, then the new immutable ones. |
| `PropertyLayers.BuildTwice` | utils/properties.go:59-85 | Building again from what the first build left gives the same keys, order and values. |
| `PropertyLayers.AliasedLayeringIff` | utils/properties.go:70-78 | When the defaults are the user's own list, layering holds exactly if the immutable list covers it. |
| `PropertyLayers.SharedDefaultsIff` | utils/properties.go:70-83 | When the defaults are the immutable list, immutable values win exactly if the user's values for its keys are the same. |
| `ProjectManifest.WorkflowProjectHandler.AddResource` | workflowproj/workflowproj.go:136-138 | The same as adding at the default path, parsed flag included. |
| `ProjectManifest.WorkflowProjectHandler.AddResourceAt` | workflowproj/workflowproj.go:140-150 | A known name gets the new content in place and the parsed flag stays; a new name is appended and the flag is cleared. |
| `ProjectManifest.CollectedIsLastContent` | workflowproj/workflowproj.go:140-150 | A fresh handler holds, per path and name, exactly the last content given, each name once. |
| `ProjectManifest.AddToOutcome` | workflowproj/workflowproj.go:141-148 | Adding replaces the content of a known name in place, appends an unknown one at the end and keeps the others. |
| `ProjectManifest.LastGivenIsHeld` | workflowproj/workflowproj.go:140-150 | What a call gave is held if no later call gave the same path and name. |
| `ProjectManifest.HeldWasGivenLast` | workflowproj/workflowproj.go:140-150 | Everything held was given by some call, and nothing later for its path and name. |
| `ProjectManifest.WorkflowProjectHandler.ParseRawResources` | workflowproj/workflowproj.go:264-306 | Walking the map in any order, sorting and the nested loops generate one ConfigMap and one reference per path in sorted order, up to the first bad resource. |
| `ProjectManifest.WorkflowProjectHandler.ReadAll` | workflowproj/workflowproj.go:288-297 | Reads a path's resources and stops at the first that cannot be read or is empty. |
| `ProjectManifest.WorkflowProjectHandler.AddResourceConfigMapToProject` | workflowproj/workflowproj.go:308-318 | Appends the ConfigMap and the reference that names it. |
| `ProjectManifest.SortPaths` | workflowproj/workflowproj.go:270-278 | Whatever order the map is walked in, the paths come out strictly sorted, each once. |
| `ProjectManifest.ManifestsDeterministic` | workflowproj/workflowproj.go:264-306 | Any two call sequences that leave the same non-empty last contents generate the same ConfigMaps and references in the same order on a first parse. |
| `ProjectManifest.ManifestsSucceedIff` | workflowproj/workflowproj.go:288-297 | Generation succeeds exactly when every last content is readable and not empty. |
| `ProjectManifest.GenerateError` | workflowproj/workflowproj.go:288-301 | Otherwise generation stops at the first path with an empty or unreadable resource, with the error of the first such resource, and keeps one ConfigMap and one reference for each path before it. |
| `ProjectManifest.ManifestShape` | workflowproj/workflowproj.go:279-318 | ConfigMap names are pairwise distinct and built from the position, the workflow and the path, and the i-th reference names the i-th ConfigMap with its own path. |
| `ProjectManifest.ManifestData` | workflowproj/workflowproj.go:288-297 | The data of the i-th ConfigMap is exactly the last content of each name at its path. |
| `ProjectManifest.ConfigMapNameInjective` | workflowproj/workflowproj.go:284 | The padded counter can be read back from a generated name, for any number of paths. |
| `ProjectManifest.ConfigMapNameParts` | workflowproj/workflowproj.go:284 | After its counter a name is the workflow, `-resources-` and the path, so for one counter and path it tells workflows apart. |
| `ProjectManifest.PaddedDenotes` | workflowproj/workflowproj.go:284 | The counter is two digits up to 99 and the plain decimal from 100 on. |
| `Naming.NamingRegexAccepts` | api/v1alpha08/conversion.go:37 | The pattern accepts exactly the non-empty strings over `[-a-z0-9]` that start and end with a letter or digit and have no two adjacent dashes. |
| `Naming.SanitizedShape` | api/v1alpha08/conversion.go:162-171 | A result uses `[-a-z0-9]` only, does not start with a dash, and is at most 253 long unless the input already matched. |
| `Naming.NamesAreKept` | api/v1alpha08/conversion.go:163-165 | A name that matches the pattern is returned as it is, whatever its length. |
| `Naming.SanitizedContent` | api/v1alpha08/conversion.go:166-170 | A result is the input from its first letter or digit to its last character that is no white space, in lower case, with a dash for every other character, cut at the limit. |
| `Naming.SanitizeIdempotent` | api/v1alpha08/conversion.go:162-171 | Sanitizing twice is sanitizing once. |
| `Naming.SanitizedEmptyIff` | api/v1alpha08/conversion.go:162-171 | The result is empty exactly when the input has no letter or digit. |
| `Naming.SanitizedIsNameIff` | api/v1alpha08/conversion.go:162-171 | A result matches the pattern exactly when the part kept ends with a letter or digit and has no two other characters in a row. |
| `Naming.SanitizedMayBeNoName` | api/v1alpha08/conversion.go:162-171 | A concrete input whose result ends with a dash and does not match the pattern. |
| `Naming.ExtractNamePrefers` | api/v1alpha08/conversion.go:149-160 | The first name given among id, key and name is the one that is sanitized; without any the result is empty. |
| `Naming.ExtractNameStable` | api/v1alpha08/conversion.go:149-160 | An extracted name is a fixpoint of sanitizing and is kept when it becomes the workflow's id. |
| `ConfigRollout.AnnotateDeploymentConfigChecksum` | utils/kubernetes/deployment.go:116-143 | The call is one step of a run: refused without change when paused, otherwise the stored checksum is the hash of the configuration. |
| `ConfigRollout.RunOutcome` | utils/kubernetes/deployment.go:116-165 | After any run the checksum is the hash of the last accepted configuration, the stamp is the time of the last accepted call that changed a non-empty checksum, and other annotations are untouched. |
| `ConfigRollout.FirstCallNeverRestarts` | utils/kubernetes/deployment.go:124-138 | The first accepted call without a stored checksum stores one and changes nothing else. |
| `ConfigRollout.LaterCallRestartsIff` | utils/kubernetes/deployment.go:132-138 | After an accepted call, the next one stamps exactly if its hash differs. |
| `ConfigRollout.ChangedTextRestarts` | utils/kubernetes/deployment.go:132-138 | Such a call with another hash stores it and stamps its own time; with the same hash it changes nothing. |
| `ConfigRollout.HashTellsApart` | utils/kubernetes/deployment.go:153-155 | With an injective digest two configurations get one hash exactly if the joined texts are equal: the user's `application.properties`, a comma, and the managed `application-dev.properties` or `application-prod.properties` by profile, absent ones being empty. |
| `ConfigRollout.ManagedChangeRestarts` | utils/kubernetes/deployment.go:116-155 | After an accepted call, an accepted call that differs only in the managed properties of the profile stamps its own time. |
| `ConfigRollout.MovedTextIsHidden` | utils/kubernetes/deployment.go:153-155 | Two concrete configurations with one joined text: what moved across the comma is not noticed. |

## Left out

- The text of log lines, events and errors, and requeue delays: only whether a requeue or an error results is kept.
- `fmt.Sprintf` of condition messages: a message is given as formatted.
- Condition statuses other than True, False and Unknown: the API documents these three.
- `ManagerRuns.MarkUnknownOutcome`: assumes that no type is stored twice; for any other list `MarkUnknown` states its outcome as a relation.
- `BuildRestart.SchedulesConserved`: a reconcile that fails or is cut off after it scheduled is excluded; the next one schedules again, so there is then more than one schedule for a mark.
- The copy check of `ReplaceResource` (`utils/kubernetes/replace.go:45-48`): a deep copy of an object always is one.
- `ReplaceProtocol.ReplaceResource`: the writes of other parties between two of its calls are arbitrary puts and drops; other callers of the function itself are covered by the machine.
- The namespace and operator-lock guards before the deletion branches, and the cluster-platform lookup before the platform's: each of them only ends a reconcile early.
- Asynchronous deletion of triggers: a trigger counts as deleted when the API accepts its deletion.
- `TriggerFinalizer.FinalizerSafety`: another writer that strips the finalizer by hand is excluded, because nothing in the operator can prevent it.
- The build manager, the platform and profile actions and the workflow manager: oracles that answer or fail.
- The comparison of the build status before it is stored (`internal/controller/sonataflowbuild_controller.go:99`) relates a value to a pointer and never holds, so the status is always stored.
- Comments kept by the properties library, and property expansion, which `Build` switches off.
- Parsing a project a second time: readers are consumed by the first parse and the lists are appended to.
- The workflow definition, application properties and labels of a project: converted by foreign libraries or copied field by field.
- `Naming.SanitizeNaming`: strings that are not valid UTF-8 are not modelled.
- `ConfigRollout.CalculateHash`: the digest is any function; where the results need it, it is assumed injective or never empty.
- `VolumeMountAdd` (`utils/kubernetes/volumes.go:91-99`): its loop assigns to a copy of the element, so code and comment disagree on what a replacement does.
