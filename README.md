# Persistent tasks: the node-side reconciliation engine

A Dafny model of `PersistentTasksNodeService` from Elasticsearch's persistent-task
framework. Each node keeps a registry `runningTasks` of the persistent tasks it is
running, keyed by allocation. On every cluster-state change it compares that registry
with the tasks the master assigns to it:
- it starts the assignments that are new on this node;
- it resends completion notifications that failed earlier;
- it finishes tasks whose result was acknowledged (or that failed);
- it cancels local tasks the master no longer assigns here.

On completion it decides which error, if any, to report to the master, sends the
notification and handles the master's answer.

Layout, one Dafny module per file:

- `options.dfy` (`Options`): the `Option` datatype.
- `task_identity.dfy` (`TaskIdentity`): `PersistentTaskId`, the key of one allocation.
  - Its equality compares the id and the allocation id.
  - Its hash code is Java's `Objects.hash` over two `long`s, written out in wrapping
    32-bit arithmetic.
- `completion_report.dfy` (`CompletionReport`): how `PersistentTaskListener.onFailure`
  picks the error to report.
- `reconciliation.dfy` (`Reconciliation`): one `clusterChanged` pass and the
  notification steps, as functions on values.
  - The registry is a `map<TaskKey, TaskInfo>`.
  - Everything the service does to its collaborators goes into a log of `Effect`s:
    registering and unregistering with the task manager, invoking the executor,
    finishing, cancelling, and sending cancellations and completion notifications.
  - The first loop is a fold over the snapshot.
  - The second loop is a fold over `order`, an enumeration of the registry's keys
    standing for the `HashSet` iteration order.
- `reconciliation_lemmas.dfy` (`ReconciliationLemmas`): what a pass does, key by key.
  - `KeyFate` is a reference definition that says what a complete pass does to each
    key without looking at any other key.
  - `PassByKey` proves that the pass agrees with `KeyFate` for every key.
  - The remaining properties are proved from that.
- `node_service.dfy` (`NodeService`): the service as the source has it.
  - `AllocatedTask` is a class whose state and failure are updated in place.
  - `PersistentTasksNodeService` is a class whose `runningTasks` map field is updated in
    place, with the effect log as a second field.
  - Each method is proved against the functions of `Reconciliation`:
    `ClusterChanged` leaves exactly the registry and log that `Pass` computes.

Collaborators that are not part of this model become inputs. They are gathered in an
`Env` value:
- whether `getPersistentTaskExecutorSafe` knows the task name;
- whether `task.init` throws;
- whether `executeTask` throws, and with what;
- the verdicts of the task's guarded transitions (`startNotification`,
  `restartCompletionNotification`, `markAsCancelled`).

A refused transition leaves the task as it was. A granted one moves it to the state the
verdict names. A granted `startNotification(e)` also records `e` as the task's failure;
that is what `getFailure()` returns when the notification is resent (line 199).

Two details of the code that the model keeps as written:
- `PublishedResponseListener.onResponse` (lines 265-271) tries `markAsNotified` and
  then only unregisters the task from the task manager. Its `runningTasks` entry stays,
  now NOTIFIED. A later pass that still assigns the key here leaves it alone (lines
  94-101); the first pass that no longer assigns it here finishes it (lines 107-111).
- `PersistentTaskListener.onFailure` suppresses the error only when the cancellation
  reason equals `CancelTasksRequest.DEFAULT_REASON` as a string (line 245). Any other
  reason, and a missing one, still reports the exception.

## Model

| member | source | states |
|---|---|---|
| TaskIdentity.KeyEquals | server/src/main/java/org/elasticsearch/persistent/PersistentTasksNodeService.java:292-299 | two keys are equal exactly when both the id and the allocation id agree |
| TaskIdentity.LongHash | server/src/main/java/org/elasticsearch/persistent/PersistentTasksNodeService.java:303 | `Long.hashCode(v)`: the low word of the 64-bit two's-complement pattern of `v` xor its high word, narrowed to a Java `int` |
| TaskIdentity.HashCode | server/src/main/java/org/elasticsearch/persistent/PersistentTasksNodeService.java:301-304 | `Objects.hash(id, allocationId)`: starting from 1, each field's `Long.hashCode` is added to 31 times the running value, wrapping at 32 bits |
| TaskIdentity.LongHashOfSmall | server/src/main/java/org/elasticsearch/persistent/PersistentTasksNodeService.java:301-304 | `Long.hashCode` of a `long` that fits in a non-negative `int` is the value itself |
| TaskIdentity.LongHashOfSmallNegative | server/src/main/java/org/elasticsearch/persistent/PersistentTasksNodeService.java:301-304 | `Long.hashCode` of a `long` that fits in a negative `int` is `-1 - v`, the complement of its low word |
| TaskIdentity.HashCodeOfSmallKey | server/src/main/java/org/elasticsearch/persistent/PersistentTasksNodeService.java:301-304 | when nothing wraps around, `Objects.hash(id, allocationId)` is `31 * (31 + id) + allocationId` |
| CompletionReport.ReportOnFailure | server/src/main/java/org/elasticsearch/persistent/PersistentTasksNodeService.java:237-253 | no error is reported exactly when the task is cancelled with the default reason; otherwise the exception itself is reported |
| CompletionReport.OtherReasonKeepsFailure | server/src/main/java/org/elasticsearch/persistent/PersistentTasksNodeService.java:245-249 | a cancellation for any reason other than the default one still reports the exception |
| Reconciliation.NotifyCompletion | server/src/main/java/org/elasticsearch/persistent/PersistentTasksNodeService.java:211-222 | starting a notification produces at most one effect, always about the task itself |
| Reconciliation.RestartNotification | server/src/main/java/org/elasticsearch/persistent/PersistentTasksNodeService.java:181-209 | a resend produces at most one effect, always about the task itself |
| Reconciliation.StartAborts | server/src/main/java/org/elasticsearch/persistent/PersistentTasksNodeService.java:129-134 | startTask throws before the task reaches the registry exactly when the executor for the task name is unknown (129) or init throws (134) |
| Reconciliation.Launch | server/src/main/java/org/elasticsearch/persistent/PersistentTasksNodeService.java:128-150 | a started task is first registered and then handed to the executor, and every effect of the start concerns its key |
| Reconciliation.AbortEffects | server/src/main/java/org/elasticsearch/persistent/PersistentTasksNodeService.java:129-148 | a start that throws leaves effects only about its own key |
| Reconciliation.LocalKeys | server/src/main/java/org/elasticsearch/persistent/PersistentTasksNodeService.java:87-89 | a key is local exactly when some descriptor of the snapshot names it and is assigned to this node |
| Reconciliation.Revisit | server/src/main/java/org/elasticsearch/persistent/PersistentTasksNodeService.java:94-101 | a registered task still assigned here has its completion notification restarted when it is FAILED_NOTIFICATION, and is left as it is otherwise |
| Reconciliation.VisitStep | server/src/main/java/org/elasticsearch/persistent/PersistentTasksNodeService.java:88-102 | a descriptor for another node changes nothing; an unregistered key is started, and a throw ends the pass with the abort effects; a registered key is marked visited and revisited |
| Reconciliation.Visit | server/src/main/java/org/elasticsearch/persistent/PersistentTasksNodeService.java:87-104 | the descriptors in snapshot order, each through VisitStep, with nothing after the first descriptor whose start threw |
| Reconciliation.FirstLoop | server/src/main/java/org/elasticsearch/persistent/PersistentTasksNodeService.java:85-105 | every registered key starts out not visited (85); with no task metadata nothing is visited (86), otherwise the snapshot goes through Visit |
| Reconciliation.Retire | server/src/main/java/org/elasticsearch/persistent/PersistentTasksNodeService.java:108-121 | a NOTIFIED, FAILED or FAILED_NOTIFICATION task goes through finishTask, every other one through cancelTask, and only effects about its key occur |
| Reconciliation.SweepStep | server/src/main/java/org/elasticsearch/persistent/PersistentTasksNodeService.java:108-121 | a not-visited registered key is removed and retired, its final state recorded as removed; any other key changes nothing. A key no longer registered is skipped; in the source that cannot occur, since the set enumerates each key once and the first loop removes nothing |
| Reconciliation.SweepAll | server/src/main/java/org/elasticsearch/persistent/PersistentTasksNodeService.java:107-122 | the keys of `order` in turn, each through SweepStep |
| Reconciliation.Skipped | server/src/main/java/org/elasticsearch/persistent/PersistentTasksNodeService.java:82 | the pass is skipped exactly when the new and the previous snapshots hold the same descriptors and the nodes did not change |
| Reconciliation.Pass | server/src/main/java/org/elasticsearch/persistent/PersistentTasksNodeService.java:78-126 | skipped when the descriptor sets are equal and the nodes unchanged; otherwise the first loop, then, unless startTask threw, the second loop over the not-visited keys in `order` |
| ReconciliationLemmas.LocalKeysPrefix | server/src/main/java/org/elasticsearch/persistent/PersistentTasksNodeService.java:87-89 | the local keys of a prefix of the snapshot are among the local keys of the whole snapshot |
| ReconciliationLemmas.VisitStepByKey | server/src/main/java/org/elasticsearch/persistent/PersistentTasksNodeService.java:88-102 | one iteration of the first loop changes the entry, the not-visited mark and the effects of the descriptor's key only, as the per-key outcome says |
| ReconciliationLemmas.VisitByKey | server/src/main/java/org/elasticsearch/persistent/PersistentTasksNodeService.java:85-105 | after the first loop a key is still not visited exactly when it was registered and not assigned here; its entry and its effects are the start or revisit outcome when it is assigned here, unchanged and none otherwise |
| ReconciliationLemmas.SweepStepByKey | server/src/main/java/org/elasticsearch/persistent/PersistentTasksNodeService.java:108-121 | one iteration of the second loop removes and retires its key exactly when it is not visited and still registered, and changes nothing about any other key |
| ReconciliationLemmas.SweepByKey | server/src/main/java/org/elasticsearch/persistent/PersistentTasksNodeService.java:107-122 | the second loop removes and retires exactly the not-visited keys the iteration reaches, once each, and leaves every other key alone |
| ReconciliationLemmas.PassByKey | server/src/main/java/org/elasticsearch/persistent/PersistentTasksNodeService.java:78-126 | a complete pass agrees key by key with the reference definition KeyFate: entry, removed state and the effects about the key |
| ReconciliationLemmas.NotVisitedAreUnassigned | server/src/main/java/org/elasticsearch/persistent/PersistentTasksNodeService.java:85-107 | the not-visited set after the first loop is the registry's keys before the pass minus the keys assigned here |
| ReconciliationLemmas.RegistryMatchesAssignment | server/src/main/java/org/elasticsearch/persistent/PersistentTasksNodeService.java:85-122 | after a complete pass the registry holds exactly the keys assigned here, and exactly the other registered keys were removed |
| ReconciliationLemmas.LaunchStartsOnce | server/src/main/java/org/elasticsearch/persistent/PersistentTasksNodeService.java:137-141 | starting a task invokes the executor exactly once, even when it throws |
| ReconciliationLemmas.RevisitAndRetireDoNotStart | server/src/main/java/org/elasticsearch/persistent/PersistentTasksNodeService.java:94-121 | revisiting a registered key never starts, finishes or cancels it, and retiring a key never starts it |
| ReconciliationLemmas.LaunchDoesNotRetire | server/src/main/java/org/elasticsearch/persistent/PersistentTasksNodeService.java:128-150 | starting a task never finishes or cancels it |
| ReconciliationLemmas.LaunchOutcome | server/src/main/java/org/elasticsearch/persistent/PersistentTasksNodeService.java:136-142 | when executeTask returns, the task is RUNNING with no failure and was registered then started; when it throws `e`, onFailure sends one completion carrying `e` and the task records `e` exactly when startNotification is granted, otherwise nothing more happens |
| ReconciliationLemmas.AbortLeavesNothing | server/src/main/java/org/elasticsearch/persistent/PersistentTasksNodeService.java:129-148 | a start that throws registers nothing for an unknown executor, unregisters as often as it registered when init throws, and never invokes the executor |
| ReconciliationLemmas.StartedExactlyOnce | server/src/main/java/org/elasticsearch/persistent/PersistentTasksNodeService.java:86-141 | in a complete pass the executor is invoked once for each key assigned here and absent from the registry and never for any other key; such a key is registered then started and is in the registry afterwards |
| ReconciliationLemmas.StillDesiredKeys | server/src/main/java/org/elasticsearch/persistent/PersistentTasksNodeService.java:94-101 | a key registered and still assigned here is kept and never finished or cancelled; in FAILED_NOTIFICATION exactly one resend carrying its failure is sent when granted, otherwise nothing happens to it |
| ReconciliationLemmas.OnlyUnassignedRetired | server/src/main/java/org/elasticsearch/persistent/PersistentTasksNodeService.java:85-121 | only keys that were registered before the pass and are not assigned here are finished or cancelled, so never a task started in the same pass |
| ReconciliationLemmas.OrphanCleanup | server/src/main/java/org/elasticsearch/persistent/PersistentTasksNodeService.java:107-177 | a registered key no longer assigned here leaves the registry; NOTIFIED, FAILED and FAILED_NOTIFICATION ones are finished and unregistered, others are cancelled, with a cancellation request exactly when markAsCancelled is granted, and no completion notification |
| ReconciliationLemmas.UnrelatedKeysUntouched | server/src/main/java/org/elasticsearch/persistent/PersistentTasksNodeService.java:86-122 | a key neither registered nor assigned here is not in the registry afterwards and no effect concerns it |
| ReconciliationLemmas.ReassignmentFirstLoop | server/src/main/java/org/elasticsearch/persistent/PersistentTasksNodeService.java:87-93 | a snapshot holding one new allocation for this node starts it without throwing, logs its Start and leaves it in the registry |
| ReconciliationLemmas.Reassignment | server/src/main/java/org/elasticsearch/persistent/PersistentTasksNodeService.java:89-121 | with (id, a1) running and a snapshot holding only (id, a2) for this node, (id, a1) is cancelled and (id, a2) started, as two separate entries |
| ReconciliationLemmas.VisitWithoutStarts | server/src/main/java/org/elasticsearch/persistent/PersistentTasksNodeService.java:87-104 | when every assigned key is registered, the first loop starts nothing and so cannot throw |
| ReconciliationLemmas.ResendsOnly | server/src/main/java/org/elasticsearch/persistent/PersistentTasksNodeService.java:94-101 | a pass over a registry that already holds exactly the assigned keys has, for every key, only completion resends as effects |
| ReconciliationLemmas.SecondPassQuiet | server/src/main/java/org/elasticsearch/persistent/PersistentTasksNodeService.java:82-122 | a second pass over the same assignment starts, finishes, cancels and removes nothing; it can only resend notifications |
| ReconciliationLemmas.VisitStepKeepsEntries | server/src/main/java/org/elasticsearch/persistent/PersistentTasksNodeService.java:88-102 | one iteration of the first loop keeps every registered key and neither finishes nor cancels |
| ReconciliationLemmas.VisitKeepsEntries | server/src/main/java/org/elasticsearch/persistent/PersistentTasksNodeService.java:86-105 | the first loop never removes an entry, finishes or cancels |
| ReconciliationLemmas.AbortedPassKeepsRegistry | server/src/main/java/org/elasticsearch/persistent/PersistentTasksNodeService.java:128-149 | a pass ended by an exception from startTask removes no registered task and finishes or cancels nothing |
| ReconciliationLemmas.AbortIsFinal | server/src/main/java/org/elasticsearch/persistent/PersistentTasksNodeService.java:87-93 | once startTask throws, the rest of the snapshot is not looked at |
| ReconciliationLemmas.NotificationOutcome | server/src/main/java/org/elasticsearch/persistent/PersistentTasksNodeService.java:181-209 | a cancelled task is only unregistered; otherwise one notification carrying the recorded failure is resent exactly when restartCompletionNotification is granted |
| ReconciliationLemmas.FirstNotificationOutcome | server/src/main/java/org/elasticsearch/persistent/PersistentTasksNodeService.java:211-222 | a cancelled task is only unregistered; otherwise the given error is sent exactly when startNotification is granted, and the task records it |
| ReconciliationLemmas.NoOpPass | server/src/main/java/org/elasticsearch/persistent/PersistentTasksNodeService.java:82 | equal task metadata and unchanged nodes leave the registry as it was and produce no effect |
| ReconciliationLemmas.ReorderedSnapshotSkipped | server/src/main/java/org/elasticsearch/persistent/PersistentTasksNodeService.java:82 | the metadata comparison ignores the order of the tasks: the same tasks listed in another order, with the nodes unchanged, skip the pass |
| NodeService.AllocatedTask.Transition | server/src/main/java/org/elasticsearch/persistent/PersistentTasksNodeService.java:186 | a guarded transition succeeds exactly when granted, and only then moves the task to the granted state |
| NodeService.AllocatedTask.StartNotification | server/src/main/java/org/elasticsearch/persistent/PersistentTasksNodeService.java:216 | startNotification succeeds exactly when granted and then records the error it reports |
| NodeService.PersistentTasksNodeService.StartCompletionNotification | server/src/main/java/org/elasticsearch/persistent/PersistentTasksNodeService.java:211-222 | the task and the log change as NotifyCompletion says |
| NodeService.PersistentTasksNodeService.RestartCompletionNotification | server/src/main/java/org/elasticsearch/persistent/PersistentTasksNodeService.java:181-209 | the task and the log change as RestartNotification says |
| NodeService.PersistentTasksNodeService.OnTaskResponse | server/src/main/java/org/elasticsearch/persistent/PersistentTasksNodeService.java:232-234 | success starts a notification with no error |
| NodeService.PersistentTasksNodeService.OnTaskFailure | server/src/main/java/org/elasticsearch/persistent/PersistentTasksNodeService.java:237-253 | a failure starts a notification with the error ReportOnFailure picks; a cancelled task is only unregistered |
| NodeService.PersistentTasksNodeService.OnNotificationResponse | server/src/main/java/org/elasticsearch/persistent/PersistentTasksNodeService.java:265-271 | markAsNotified is attempted and the task is unregistered whatever its outcome |
| NodeService.PersistentTasksNodeService.OnNotificationFailure | server/src/main/java/org/elasticsearch/persistent/PersistentTasksNodeService.java:274-279 | notificationFailed is attempted and nothing is unregistered or sent |
| NodeService.PersistentTasksNodeService.StartTask | server/src/main/java/org/elasticsearch/persistent/PersistentTasksNodeService.java:128-150 | startTask throws exactly on an unknown executor or a failing init, leaving the registry unchanged; otherwise a fresh task is in the registry under its key, and the task and the log are as Launch says |
| NodeService.PersistentTasksNodeService.FinishTask | server/src/main/java/org/elasticsearch/persistent/PersistentTasksNodeService.java:152-157 | the key leaves the registry, and its task is unregistered if there was one |
| NodeService.PersistentTasksNodeService.CancelTask | server/src/main/java/org/elasticsearch/persistent/PersistentTasksNodeService.java:159-178 | the key leaves the registry; a cancellation request is sent exactly when it had a task and markAsCancelled is granted |
| NodeService.PersistentTasksNodeService.StartNew | server/src/main/java/org/elasticsearch/persistent/PersistentTasksNodeService.java:91-93 | a descriptor whose key is not registered is started; a throw leaves the registry as it was, otherwise the new entry and the log are as Launch says |
| NodeService.PersistentTasksNodeService.Revisit | server/src/main/java/org/elasticsearch/persistent/PersistentTasksNodeService.java:94-101 | a registered task in FAILED_NOTIFICATION has its notification restarted as RestartNotification says; any other registered task is left alone |
| NodeService.PersistentTasksNodeService.RetireTask | server/src/main/java/org/elasticsearch/persistent/PersistentTasksNodeService.java:108-121 | a not-visited task is finished when NOTIFIED, FAILED or FAILED_NOTIFICATION and cancelled otherwise; it leaves the registry in the state Retire gives it and the log grows by Retire's effects |
| NodeService.PersistentTasksNodeService.VisitAssigned | server/src/main/java/org/elasticsearch/persistent/PersistentTasksNodeService.java:88-102 | one iteration of the first loop changes the registry, the not-visited set and the log as VisitStep says, keeping every registered task object |
| NodeService.PersistentTasksNodeService.RetireNotVisited | server/src/main/java/org/elasticsearch/persistent/PersistentTasksNodeService.java:108-121 | one iteration of the second loop changes the registry and the log as SweepStep says, and the removed task ends in the state SweepStep records |
| NodeService.PersistentTasksNodeService.VisitTasks | server/src/main/java/org/elasticsearch/persistent/PersistentTasksNodeService.java:87-104 | the loop over the snapshot leaves the registry, the not-visited set and the log as Visit computes, stopping at the first exception and keeping every registered task object |
| NodeService.PersistentTasksNodeService.VisitAllAssigned | server/src/main/java/org/elasticsearch/persistent/PersistentTasksNodeService.java:85-105 | the first loop leaves the registry, the not-visited set and the log as FirstLoop computes, and stops at the first exception |
| NodeService.PersistentTasksNodeService.RetireStep | server/src/main/java/org/elasticsearch/persistent/PersistentTasksNodeService.java:107-122 | one iteration of the second loop keeps the loop invariant Sweeping: the registry mirrors SweepStep's, the log extends by its effects, and every removed task keeps the state SweepStep records |
| NodeService.PersistentTasksNodeService.RetireAllNotVisited | server/src/main/java/org/elasticsearch/persistent/PersistentTasksNodeService.java:107-122 | the second loop leaves the registry and the log as SweepAll computes, and every removed task ends in the state SweepAll records |
| NodeService.PersistentTasksNodeService.ClusterChanged | server/src/main/java/org/elasticsearch/persistent/PersistentTasksNodeService.java:78-126 | the new registry, the log, the removed tasks' final states and whether the pass threw are exactly those of Pass; tasks that stay are the same objects |

## Left out

- Logging (`logger.warn`, `logger.trace`): it has no effect on behaviour.
- `Status` and its stream and XContent serialisation: plumbing over the state enum.
- Thread-pool forking in restartCompletionNotification: the send runs at once.
  - A rejected submission calls the listener's onFailure, the same as a failed send.
  - That path is `OnNotificationFailure`.
- Interleaving of asynchronous callbacks with a pass: each callback is a separate
  sequential method.
- The transition table of `AllocatedPersistentTask` is not part of this model.
  - Each guarded transition takes its verdict as an input (`Guard`).
  - `isCancelled()` and `getReasonCancelled()` are inputs of `OnTaskFailure`.
- `TaskManager`, `PersistentTasksService`, `PersistentTasksExecutorRegistry` and
  `NodePersistentTasksExecutor` are not part of this model.
  - Their calls are recorded `Effect`s.
  - Their answers come from `Env`.
  - They are assumed not to throw except where `Env` says so.
  - A listener's onFailure throwing inside startTask is not modelled.
- The asynchronous completion of `executeTask` is not part of a pass. It enters through
  `OnTaskResponse` and `OnTaskFailure`.
- Cancellation-request replies (lines 163-175) only log, so they are not modelled.
- The `TaskCancelledException` test in onFailure only affects logging.
- `CancelTasksRequest` is not part of this model. `DefaultReason` is its
  `DEFAULT_REASON` value, "by user request".
- `Objects.equals` on the task metadata (line 82) is modelled by comparing the
  snapshots' sets of descriptors (`TaskSet`), so the order of the tasks does not matter.
  - Metadata fields beyond the descriptors are not modelled: the request, the status
    and the last allocation id. Descriptors carry none of them.
  - `Skipped` is therefore coarser than the source. An event that changes only such
    fields, with the nodes unchanged, runs a pass in the source, which can resend
    FAILED_NOTIFICATION notifications. The model skips that pass.
- The order of `runningTasks.put` before `executeTask` (lines 137-138) is not stated.
  - `StartTask` performs the two steps in that order.
  - No contract can observe it, since nothing runs between the two steps.
- The agreement of `hashCode` with `equals` (lines 292-304) is not stated as a property.
  - Keys are Dafny values and the registry is a value-keyed `map`, so equal keys
    are the same key.
  - `HashCode` is modelled. Its lemmas cover every `long` that fits in an `int`, and
    every key whose hash does not wrap around.
- `AllocatedPersistentTask` is assumed to record the error of a granted
  `startNotification(e)` as its failure. Its code is not part of this model.
- The iteration order of the `HashSet` of not-visited keys is an input sequence
  (`order`) that enumerates the registry.
- `init` throwing: the task is registered and unregistered again, before it ever
  reaches the registry. The exception leaves clusterChanged (`aborted`); the rollback's
  own exceptions are not modelled.
- PassByKey, StartedExactlyOnce, StillDesiredKeys, OnlyUnassignedRetired,
  OrphanCleanup, UnrelatedKeysUntouched, SecondPassQuiet: these lemmas require the
  snapshot to name each allocation at most once, since the metadata has one entry per
  task id.
  - `CompletePass` holds that condition.
  - `ClusterChanged` itself does not need it.
