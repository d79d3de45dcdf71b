/**
 * The reconciliation pass of PersistentTasksNodeService.clusterChanged, and the
 * completion-notification decisions it relies on, as functions on values.
 *
 * A pass reads the master's list of assigned tasks, starts the ones that are
 * new on this node, resends failed completion notifications of the ones still
 * assigned here, and finishes or cancels the local tasks that are no longer
 * assigned here. Everything the pass does to the outside world (the task manager,
 * the executor, the master) is recorded as an `Effect`.
 */
module Reconciliation {
  import opened Options
  import opened TaskIdentity
  import opened CompletionReport

  /**
   * States of AllocatedPersistentTask as far as PersistentTasksNodeService tests
   * them. `Running` stands for every state this file does not test (STARTED and the
   * others of the task's own state machine).
   */
  datatype State = Running | Failed | FailedNotification | Notified | Cancelled

  /**
   * The verdict of a guarded (compare-and-set) transition of AllocatedPersistentTask:
   * refused, leaving the task as it was, or granted, moving it to `next`.
   */
  datatype Guard = Refuse | Grant(next: State)

  /** One assigned task of the master's snapshot (PersistentTask). */
  datatype Descriptor = Descriptor(id: int64, allocationId: int64, taskName: string, executorNode: string)

  function KeyOf(d: Descriptor): TaskKey
  {
    TaskKey(d.id, d.allocationId)
  }

  /** What the node service reads of an AllocatedPersistentTask: getState() and getFailure(). */
  datatype TaskInfo = TaskInfo(state: State, failure: Option<Error>)

  /** The outside-world actions of the node service, each about one task. */
  datatype Effect =
    | Register(key: TaskKey)          // taskManager.register
    | Start(key: TaskKey)             // nodePersistentTasksExecutor.executeTask is invoked
    | Unregister(key: TaskKey)        // taskManager.unregister
    | Finish(key: TaskKey)            // finishTask is invoked on the key
    | Cancel(key: TaskKey)            // cancelTask is invoked on the key
    | SendCancellation(key: TaskKey)  // persistentTasksService.sendCancellation for the local task
    | SendCompletion(key: TaskKey, error: Option<Error>)  // persistentTasksService.sendCompletionNotification

  /**
   * What the collaborators that are not part of this model answer during a pass:
   * whether the executor registry knows a task name, whether task.init throws,
   * whether executeTask throws synchronously (and with what), and the verdicts of
   * the task's guarded transitions.
   */
  datatype Env = Env(
    hasExecutor: string -> bool,
    initFails: TaskKey -> bool,
    executeThrows: TaskKey -> Option<Error>,
    startNotification: TaskKey -> Guard,
    restartNotification: TaskKey -> Guard,
    markAsCancelled: TaskKey -> Guard)

  /**
   * A cluster-state change as the node service sees it: the new and the previous
   * task metadata (`None` when the cluster state holds none), whether the set of
   * nodes changed, and this node's id.
   */
  datatype Event = Event(
    tasks: Option<seq<Descriptor>>,
    previousTasks: Option<seq<Descriptor>>,
    nodesChanged: bool,
    localNodeId: string)

  /** The new state of one task and the effects an operation on it produced. */
  datatype Step = Step(task: TaskInfo, effects: seq<Effect>)

  /** Every effect in `es` is about the task with key `k`. */
  ghost predicate Concerns(es: seq<Effect>, k: TaskKey)
  {
    forall e :: e in es ==> e.key == k
  }

  function Get(m: map<TaskKey, TaskInfo>, k: TaskKey): Option<TaskInfo>
  {
    if k in m then Some(m[k]) else None
  }

  // ---------------------------------------------------------------------------
  // Completion notification

  /**
   * startCompletionNotification(task, error): a cancelled task is only
   * unregistered; otherwise the notification is sent when startNotification(error)
   * is granted, and nothing happens when it is refused.
   */
  function NotifyCompletion(k: TaskKey, t: TaskInfo, error: Option<Error>, g: Guard): (r: Step)
    ensures Concerns(r.effects, k)
    ensures |r.effects| <= 1
  {
    if t.state == Cancelled then Step(t, [Unregister(k)])
    else match g
      case Grant(next) => Step(TaskInfo(next, error), [SendCompletion(k, error)])
      case Refuse => Step(t, [])
  }

  /**
   * restartCompletionNotification(task): a cancelled task is only unregistered;
   * otherwise the notification is sent again, carrying the failure the task
   * recorded, when restartCompletionNotification() is granted.
   */
  function RestartNotification(k: TaskKey, t: TaskInfo, g: Guard): (r: Step)
    ensures Concerns(r.effects, k)
    ensures |r.effects| <= 1
  {
    if t.state == Cancelled then Step(t, [Unregister(k)])
    else match g
      case Grant(next) => Step(t.(state := next), [SendCompletion(k, t.failure)])
      case Refuse => Step(t, [])
  }

  // ---------------------------------------------------------------------------
  // Starting a task

  /** startTask throws before the task reaches the registry: unknown executor or failing init. */
  function StartAborts(d: Descriptor, env: Env): bool
  {
    !env.hasExecutor(d.taskName) || env.initFails(KeyOf(d))
  }

  /**
   * The task startTask puts in the registry and the effects of the hand-off:
   * the task is registered, put in the registry and handed to executeTask; when
   * executeTask throws, the listener's onFailure reports the exception of the
   * fresh (never cancelled) task.
   */
  function Launch(k: TaskKey, env: Env): (r: Step)
    ensures Concerns(r.effects, k)
    ensures |r.effects| >= 2 && r.effects[..2] == [Register(k), Start(k)]
  {
    var started := TaskInfo(Running, None);
    match env.executeThrows(k)
    case None => Step(started, [Register(k), Start(k)])
    case Some(e) =>
      var n := NotifyCompletion(k, started, ReportOnFailure(e, false, None), env.startNotification(k));
      Step(n.task, [Register(k), Start(k)] + n.effects)
  }

  /**
   * The effects of startTask when it throws: nothing when the executor is unknown
   * (it throws before registering), registration undone when init throws.
   */
  function AbortEffects(d: Descriptor, env: Env): (r: seq<Effect>)
    ensures Concerns(r, KeyOf(d))
  {
    if !env.hasExecutor(d.taskName) then [] else [Register(KeyOf(d)), Unregister(KeyOf(d))]
  }

  // ---------------------------------------------------------------------------
  // First loop: the snapshot

  /**
   * The state of the first loop of clusterChanged: the registry, the keys not
   * visited yet, the effects so far, and whether an exception ended the pass.
   */
  datatype Scan = Scan(reg: map<TaskKey, TaskInfo>, notVisited: set<TaskKey>, log: seq<Effect>, aborted: bool)

  /** The first loop on a key that is still assigned here: a resend when its notification failed. */
  function Revisit(k: TaskKey, t: TaskInfo, env: Env): Step
  {
    if t.state == FailedNotification then RestartNotification(k, t, env.restartNotification(k)) else Step(t, [])
  }

  /** One iteration of the first loop of clusterChanged, on descriptor `d`. */
  function VisitStep(s: Scan, d: Descriptor, localNodeId: string, env: Env): Scan
  {
    if localNodeId != d.executorNode then s
    else
      var k := KeyOf(d);
      if k !in s.reg then
        if StartAborts(d, env) then s.(log := s.log + AbortEffects(d, env), aborted := true)
        else
          var n := Launch(k, env);
          s.(reg := s.reg[k := n.task], log := s.log + n.effects)
      else
        var s' := s.(notVisited := s.notVisited - {k});
        if s.reg[k].state == FailedNotification then
          var n := RestartNotification(k, s.reg[k], env.restartNotification(k));
          s'.(reg := s.reg[k := n.task], log := s.log + n.effects)
        else s'
  }

  /** The first loop over the descriptors `tasks`, in order; an exception stops it. */
  function Visit(s: Scan, tasks: seq<Descriptor>, localNodeId: string, env: Env): Scan
    decreases |tasks|
  {
    if tasks == [] then s
    else
      var p := Visit(s, tasks[..|tasks| - 1], localNodeId, env);
      if p.aborted then p else VisitStep(p, tasks[|tasks| - 1], localNodeId, env)
  }

  /** The keys that `tasks` assigns to the node `localNodeId`. */
  function LocalKeys(tasks: seq<Descriptor>, localNodeId: string): (r: set<TaskKey>)
    ensures forall k :: k in r <==>
      exists i :: 0 <= i < |tasks| && tasks[i].executorNode == localNodeId && KeyOf(tasks[i]) == k
    decreases |tasks|
  {
    if tasks == [] then {}
    else
      var p := tasks[..|tasks| - 1];
      var d := tasks[|tasks| - 1];
      assert forall i :: 0 <= i < |p| ==> p[i] == tasks[i];
      LocalKeys(p, localNodeId) + (if d.executorNode == localNodeId then {KeyOf(d)} else {})
  }

  /** The keys an event assigns to this node: none when the cluster state has no task metadata. */
  function EventLocalKeys(ev: Event): set<TaskKey>
  {
    if ev.tasks.Some? then LocalKeys(ev.tasks.value, ev.localNodeId) else {}
  }

  // ---------------------------------------------------------------------------
  // Second loop: the keys not visited

  /** The states finishTask is used for (NOTIFIED, FAILED, and FAILED_NOTIFICATION with a warning). */
  predicate Finishable(s: State)
  {
    s == Notified || s == Failed || s == FailedNotification
  }

  /**
   * What the second loop of clusterChanged does to a not-visited key: finishTask
   * (remove and unregister) for a finishable state, otherwise cancelTask (remove,
   * and a cancellation request when markAsCancelled() is granted).
   */
  function Retire(k: TaskKey, t: TaskInfo, g: Guard): (r: Step)
    ensures Concerns(r.effects, k)
    ensures Finish(k) in r.effects <==> Finishable(t.state)
    ensures Cancel(k) in r.effects <==> !Finishable(t.state)
  {
    if Finishable(t.state) then Step(t, [Finish(k), Unregister(k)])
    else match g
      case Grant(next) => Step(t.(state := next), [Cancel(k), SendCancellation(k)])
      case Refuse => Step(t, [Cancel(k)])
  }

  /** The state of the second loop: the registry, the tasks removed from it with their final state, the effects. */
  datatype Sweep = Sweep(reg: map<TaskKey, TaskInfo>, removed: map<TaskKey, TaskInfo>, log: seq<Effect>)

  /**
   * One iteration of the second loop on key `k`. The iteration order is an
   * enumeration of the registry's keys in which a key may repeat; a key that was
   * already handled is no longer in the registry and is passed over.
   */
  function SweepStep(w: Sweep, notVisited: set<TaskKey>, k: TaskKey, env: Env): Sweep
  {
    if k in notVisited && k in w.reg then
      var n := Retire(k, w.reg[k], env.markAsCancelled(k));
      Sweep(w.reg - {k}, w.removed[k := n.task], w.log + n.effects)
    else w
  }

  function SweepAll(w: Sweep, notVisited: set<TaskKey>, order: seq<TaskKey>, env: Env): Sweep
    decreases |order|
  {
    if order == [] then w
    else SweepStep(SweepAll(w, notVisited, order[..|order| - 1], env), notVisited, order[|order| - 1], env)
  }

  // ---------------------------------------------------------------------------
  // The pass

  /**
   * The outcome of clusterChanged: the new registry, the tasks removed from it
   * with their final state, the effects in order, and whether an exception
   * from startTask ended the pass early.
   */
  datatype PassResult = PassResult(reg: map<TaskKey, TaskInfo>, removed: map<TaskKey, TaskInfo>, log: seq<Effect>, aborted: bool)

  /**
   * A snapshot as the task metadata compares it: the metadata holds its tasks
   * in a map, so the order in which they are listed does not matter.
   */
  function TaskSet(tasks: Option<seq<Descriptor>>): (r: Option<set<Descriptor>>)
    ensures r.Some? <==> tasks.Some?
    ensures r.Some? ==> forall d :: d in r.value <==> d in tasks.value
  {
    match tasks
    case None => None
    case Some(ds) => Some(set d | d in ds)
  }

  /** clusterChanged never looks at the tasks when nothing it depends on changed. */
  predicate Skipped(ev: Event)
  {
    TaskSet(ev.tasks) == TaskSet(ev.previousTasks) && !ev.nodesChanged
  }

  /** The first loop of clusterChanged from registry `reg`, with every key not visited yet. */
  function FirstLoop(reg: map<TaskKey, TaskInfo>, ev: Event, env: Env): Scan
  {
    var s0 := Scan(reg, reg.Keys, [], false);
    if ev.tasks.Some? then Visit(s0, ev.tasks.value, ev.localNodeId, env) else s0
  }

  /**
   * clusterChanged on registry `reg`; `order` is the order in which the set of
   * not-visited keys is iterated.
   */
  function Pass(reg: map<TaskKey, TaskInfo>, ev: Event, order: seq<TaskKey>, env: Env): PassResult
  {
    if Skipped(ev) then PassResult(reg, map[], [], false)
    else
      var s := FirstLoop(reg, ev, env);
      if s.aborted then PassResult(s.reg, map[], s.log, true)
      else
        var w := SweepAll(Sweep(s.reg, map[], []), s.notVisited, order, env);
        PassResult(w.reg, w.removed, s.log + w.log, false)
  }

  // ---------------------------------------------------------------------------
  // Reading a log key by key

  /** The effects of `log` that are about the task with key `k`, in order. */
  function About(log: seq<Effect>, k: TaskKey): seq<Effect>
    decreases |log|
  {
    if log == [] then [] else (if log[0].key == k then [log[0]] else []) + About(log[1..], k)
  }
}
