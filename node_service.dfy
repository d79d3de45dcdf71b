/**
 * PersistentTasksNodeService: the service on each node that keeps the registry of
 * running persistent tasks in step with the tasks the master assigns to this
 * node, and reports completions back to the master.
 *
 * The registry `runningTasks` is updated in place; every action on the outside
 * world is appended to `effects`. Each method is proved against the functions
 * of Reconciliation, whose properties ReconciliationLemmas proves.
 */
module NodeService {
  import opened Options
  import opened TaskIdentity
  import opened CompletionReport
  import opened Reconciliation
  import ReconciliationLemmas

  /** Appending effects to a log in two steps or in one gives the same log. */
  lemma AppendAssoc(a: seq<Effect>, b: seq<Effect>, c: seq<Effect>)
    ensures (a + b) + c == a + (b + c)
  {
  }

  /**
   * A task allocated on this node (AllocatedPersistentTask), as far as the node
   * service reads it: its key, getState() and getFailure(). The task's own
   * transition table is not part of this model: each guarded transition is
   * given its verdict, and a refused transition changes nothing.
   */
  class AllocatedTask {
    const key: TaskKey
    var state: State
    var failure: Option<Error>

    /** A task just registered and initialised: running, with no failure recorded. */
    constructor (key: TaskKey)
      ensures this.key == key && state == Running && failure == None
    {
      this.key := key;
      state := Running;
      failure := None;
    }

    function Info(): TaskInfo
      reads this
    {
      TaskInfo(state, failure)
    }

    /**
     * A guarded transition that records nothing else: markAsCancelled,
     * restartCompletionNotification, markAsNotified, notificationFailed.
     */
    method Transition(g: Guard) returns (ok: bool)
      modifies this
      ensures ok == g.Grant?
      ensures Info() == if ok then old(Info()).(state := g.next) else old(Info())
    {
      ok := g.Grant?;
      if ok {
        state := g.next;
      }
    }

    /** startNotification(error): when granted, the task also records the error it reports. */
    method StartNotification(error: Option<Error>, g: Guard) returns (ok: bool)
      modifies this
      ensures ok == g.Grant?
      ensures Info() == if ok then TaskInfo(g.next, error) else old(Info())
    {
      ok := g.Grant?;
      if ok {
        state := g.next;
        failure := error;
      }
    }
  }

  class PersistentTasksNodeService {
    var runningTasks: map<TaskKey, AllocatedTask>
    var effects: seq<Effect>

    /** Every registry entry holds the task of its own key. */
    ghost predicate Valid()
      reads this
    {
      forall k :: k in runningTasks ==> runningTasks[k].key == k
    }

    /** The registry as values: what each registered task currently reads as. */
    ghost function Registry(): map<TaskKey, TaskInfo>
      reads this, runningTasks.Values
    {
      map k | k in runningTasks :: runningTasks[k].Info()
    }

    /** The registry holds the keys of `m`, each with a task that reads as its value in `m`. */
    ghost predicate Mirrors(m: map<TaskKey, TaskInfo>)
      reads this, runningTasks.Values
    {
      && runningTasks.Keys == m.Keys
      && forall k :: k in runningTasks ==> runningTasks[k].state == m[k].state && runningTasks[k].failure == m[k].failure
    }

    /** The task registered under `k`, if any. */
    function TaskAt(k: TaskKey): set<AllocatedTask>
      reads this
    {
      if k in runningTasks then {runningTasks[k]} else {}
    }

    constructor ()
      ensures Valid() && runningTasks == map[] && effects == []
    {
      runningTasks := map[];
      effects := [];
    }

    // -------------------------------------------------------------------------
    // Completion notification

    /** startCompletionNotification: see Reconciliation.NotifyCompletion. */
    method StartCompletionNotification(task: AllocatedTask, error: Option<Error>, g: Guard)
      modifies this`effects, task
      ensures var n := NotifyCompletion(task.key, old(task.Info()), error, g);
        task.Info() == n.task && effects == old(effects) + n.effects
    {
      if task.state == Cancelled {
        effects := effects + [Unregister(task.key)];
      } else {
        var ok := task.StartNotification(error, g);
        if ok {
          effects := effects + [SendCompletion(task.key, error)];
        }
      }
    }

    /**
     * restartCompletionNotification: see Reconciliation.RestartNotification.
     * The hand-off to the generic thread pool is an immediate send.
     */
    method RestartCompletionNotification(task: AllocatedTask, g: Guard)
      modifies this`effects, task
      ensures var n := RestartNotification(task.key, old(task.Info()), g);
        task.Info() == n.task && effects == old(effects) + n.effects
    {
      if task.state == Cancelled {
        effects := effects + [Unregister(task.key)];
      } else {
        var ok := task.Transition(g);
        if ok {
          effects := effects + [SendCompletion(task.key, task.failure)];
        }
      }
    }

    /** PersistentTaskListener.onResponse: the business logic succeeded, so no error is reported. */
    method OnTaskResponse(task: AllocatedTask, g: Guard)
      modifies this`effects, task
      ensures var n := NotifyCompletion(task.key, old(task.Info()), None, g);
        task.Info() == n.task && effects == old(effects) + n.effects
      ensures forall e :: e in effects[|old(effects)|..] ==> e == Unregister(task.key) || e == SendCompletion(task.key, None)
    {
      StartCompletionNotification(task, None, g);
    }

    /**
     * PersistentTaskListener.onFailure: the business logic failed with `e`; the
     * task's cancellation flag and reason (owned by the task manager) are given.
     * The error sent is ReportOnFailure's: none after a cancellation with the
     * default reason, `e` otherwise.
     */
    method OnTaskFailure(task: AllocatedTask, e: Error, cancelled: bool, reasonCancelled: Option<string>, g: Guard)
      modifies this`effects, task
      ensures var n := NotifyCompletion(task.key, old(task.Info()), ReportOnFailure(e, cancelled, reasonCancelled), g);
        task.Info() == n.task && effects == old(effects) + n.effects
      ensures old(task.state) == Cancelled ==> effects == old(effects) + [Unregister(task.key)]
      ensures old(task.state) != Cancelled ==>
        effects == old(effects) + (if g.Grant? then [SendCompletion(task.key, ReportOnFailure(e, cancelled, reasonCancelled))] else [])
    {
      StartCompletionNotification(task, ReportOnFailure(e, cancelled, reasonCancelled), g);
    }

    /** PublishedResponseListener.onResponse: the master acknowledged; markAsNotified(), then always unregister. */
    method OnNotificationResponse(task: AllocatedTask, g: Guard)
      modifies this`effects, task
      ensures task.Info() == if g.Grant? then old(task.Info()).(state := g.next) else old(task.Info())
      ensures effects == old(effects) + [Unregister(task.key)]
    {
      var ok := task.Transition(g);
      effects := effects + [Unregister(task.key)];
    }

    /**
     * PublishedResponseListener.onFailure: the send failed; notificationFailed()
     * is attempted and the task stays registered for a later resend.
     */
    method OnNotificationFailure(task: AllocatedTask, g: Guard)
      modifies task
      ensures task.Info() == if g.Grant? then old(task.Info()).(state := g.next) else old(task.Info())
    {
      var ok := task.Transition(g);
    }

    // -------------------------------------------------------------------------
    // Starting, finishing and cancelling

    /**
     * startTask: resolve the executor (an unknown one throws before anything
     * is registered), register and init the task (a failing init unregisters
     * it again and throws), put it in the registry, then hand it to executeTask;
     * an exception from executeTask goes to the listener's onFailure and the
     * task stays in the registry. Returns whether startTask threw.
     */
    method StartTask(d: Descriptor, env: Env) returns (aborted: bool)
      requires Valid()
      modifies this`runningTasks, this`effects
      ensures Valid()
      ensures aborted == StartAborts(d, env)
      ensures aborted ==> runningTasks == old(runningTasks) && effects == old(effects) + AbortEffects(d, env)
      ensures !aborted ==>
        && KeyOf(d) in runningTasks && fresh(runningTasks[KeyOf(d)])
        && runningTasks == old(runningTasks)[KeyOf(d) := runningTasks[KeyOf(d)]]
        && runningTasks[KeyOf(d)].Info() == Launch(KeyOf(d), env).task
        && effects == old(effects) + Launch(KeyOf(d), env).effects
    {
      var k := TaskKey(d.id, d.allocationId);
      if !env.hasExecutor(d.taskName) {
        return true;
      }
      var task := new AllocatedTask(k);
      effects := effects + [Register(k)];
      if env.initFails(k) {
        effects := effects + [Unregister(k)];
        return true;
      }
      runningTasks := runningTasks[k := task];
      effects := effects + [Start(k)];
      aborted := false;
      match env.executeThrows(k)
      case Some(e) =>
        OnTaskFailure(task, e, false, None, env.startNotification(k));
      case None =>
    }

    /** finishTask: remove the key from the registry and unregister its task, if there was one. */
    method FinishTask(k: TaskKey)
      requires Valid()
      modifies this`runningTasks, this`effects
      ensures Valid()
      ensures runningTasks == old(runningTasks) - {k}
      ensures effects == old(effects) + [Finish(k)] + (if k in old(runningTasks) then [Unregister(k)] else [])
    {
      effects := effects + [Finish(k)];
      if k in runningTasks {
        runningTasks := runningTasks - {k};
        effects := effects + [Unregister(k)];
      }
    }

    /**
     * cancelTask: remove the key from the registry; when its task accepts
     * markAsCancelled(), send a cancellation request for it. No completion
     * notification is sent.
     */
    method CancelTask(k: TaskKey, g: Guard)
      requires Valid()
      modifies this`runningTasks, this`effects, TaskAt(k)
      ensures Valid()
      ensures runningTasks == old(runningTasks) - {k}
      ensures k in old(runningTasks) ==>
        old(runningTasks)[k].Info() == if g.Grant? then old(runningTasks[k].Info()).(state := g.next) else old(runningTasks[k].Info())
      ensures effects == old(effects) + [Cancel(k)] + (if k in old(runningTasks) && g.Grant? then [SendCancellation(k)] else [])
    {
      effects := effects + [Cancel(k)];
      if k in runningTasks {
        var task := runningTasks[k];
        runningTasks := runningTasks - {k};
        var ok := task.Transition(g);
        if ok {
          effects := effects + [SendCancellation(k)];
        }
      }
    }

    // -------------------------------------------------------------------------
    // The reconciliation pass

    /**
     * startTask on a key that is not registered yet, seen on the registry's
     * image `m`: a start that throws leaves it as it was, a start that
     * succeeds adds the launched task under the descriptor's key.
     */
    method StartNew(d: Descriptor, env: Env, ghost m: map<TaskKey, TaskInfo>) returns (aborted: bool)
      requires Valid() && Mirrors(m) && KeyOf(d) !in runningTasks
      modifies this`runningTasks, this`effects
      ensures Valid()
      ensures aborted == StartAborts(d, env)
      ensures aborted ==> Mirrors(m) && effects == old(effects) + AbortEffects(d, env)
      ensures !aborted ==> Mirrors(m[KeyOf(d) := Launch(KeyOf(d), env).task]) && effects == old(effects) + Launch(KeyOf(d), env).effects
      ensures forall k :: k in old(runningTasks) ==> k in runningTasks && runningTasks[k] == old(runningTasks)[k]
      ensures forall k :: k in runningTasks && k !in old(runningTasks) ==> fresh(runningTasks[k])
    {
      aborted := StartTask(d, env);
    }

    /**
     * The first loop on a key that is still assigned here, seen on the
     * registry's image `m`: a task whose notification failed resends it.
     */
    method Revisit(k: TaskKey, env: Env, ghost m: map<TaskKey, TaskInfo>)
      requires Valid() && Mirrors(m) && k in runningTasks
      modifies this`effects, TaskAt(k)
      ensures Mirrors(m[k := Reconciliation.Revisit(k, m[k], env).task])
      ensures effects == old(effects) + Reconciliation.Revisit(k, m[k], env).effects
    {
      var task := runningTasks[k];
      if task.state == FailedNotification {
        OthersAreNotAt(k);
        RestartCompletionNotification(task, env.restartNotification(k));
      } else {
        assert m[k := m[k]] == m;
      }
    }

    /**
     * The second loop on a registered key it has to handle, seen on the
     * registry's image `m`: finishTask or cancelTask, as Reconciliation.Retire
     * decides; the key leaves the registry and its task ends in the state
     * Retire gives it.
     */
    method RetireTask(k: TaskKey, env: Env, ghost m: map<TaskKey, TaskInfo>)
      requires Valid() && Mirrors(m) && k in runningTasks
      modifies this`runningTasks, this`effects, TaskAt(k)
      ensures Valid()
      ensures Mirrors(m - {k})
      ensures effects == old(effects) + Retire(k, m[k], env.markAsCancelled(k)).effects
      ensures old(runningTasks)[k].Info() == Retire(k, m[k], env.markAsCancelled(k)).task
      ensures runningTasks == old(runningTasks) - {k}
    {
      var task := runningTasks[k];
      OthersAreNotAt(k);
      if task.state == Notified || task.state == Failed {
        // the master acknowledged the result
        FinishTask(k);
      } else if task.state == FailedNotification {
        // the result could not be sent and the master no longer knows the task
        FinishTask(k);
      } else {
        // running here but dropped by the master: cancel without notifying it
        CancelTask(k, env.markAsCancelled(k));
      }
    }

    /**
     * One iteration of the first loop of clusterChanged, on descriptor `d`:
     * Reconciliation.VisitStep on the loop state `sp`. Returns the new set of
     * not-visited keys and whether startTask threw.
     */
    method VisitAssigned(d: Descriptor, localNodeId: string, notVisited: set<TaskKey>, env: Env,
                         ghost sp: Scan, ghost log0: seq<Effect>)
      returns (notVisited': set<TaskKey>, aborted: bool)
      requires Valid()
      requires !sp.aborted && Mirrors(sp.reg) && notVisited == sp.notVisited && effects == log0 + sp.log
      modifies this`runningTasks, this`effects, TaskAt(KeyOf(d))
      ensures Valid()
      ensures var s := VisitStep(sp, d, localNodeId, env);
        && aborted == s.aborted
        && effects == log0 + s.log
        && Mirrors(s.reg)
        && (!aborted ==> notVisited' == s.notVisited)
      ensures notVisited' <= notVisited
      ensures forall k :: k in old(runningTasks) ==> k in runningTasks && runningTasks[k] == old(runningTasks)[k]
      ensures forall k :: k in runningTasks && k !in old(runningTasks) ==> fresh(runningTasks[k])
    {
      notVisited', aborted := notVisited, false;
      if localNodeId == d.executorNode {
        var k := TaskKey(d.id, d.allocationId);
        if k !in runningTasks {
          // a new task: start it
          aborted := StartNew(d, env, sp.reg);
          AppendAssoc(log0, sp.log, if aborted then AbortEffects(d, env) else Launch(k, env).effects);
        } else {
          // still assigned here: resend a notification that failed before
          notVisited' := notVisited - {k};
          Revisit(k, env, sp.reg);
          AppendAssoc(log0, sp.log, Reconciliation.Revisit(k, sp.reg[k], env).effects);
        }
      }
    }

    /**
     * One iteration of the second loop of clusterChanged, on key `k`:
     * Reconciliation.SweepStep on the loop state `wp`. A removed task ends in
     * the state SweepStep records for it.
     */
    method RetireNotVisited(k: TaskKey, notVisited: set<TaskKey>, env: Env, ghost wp: Sweep, ghost log0: seq<Effect>)
      requires Valid()
      requires Mirrors(wp.reg) && effects == log0 + wp.log
      modifies this`runningTasks, this`effects, TaskAt(k)
      ensures Valid()
      ensures var w := SweepStep(wp, notVisited, k, env);
        && Mirrors(w.reg)
        && effects == log0 + w.log
        && (k in w.removed && k !in wp.removed ==> k in old(runningTasks) && old(runningTasks)[k].Info() == w.removed[k])
        && (forall k' :: k' in w.removed && k' != k ==> k' in wp.removed && w.removed[k'] == wp.removed[k'])
      ensures runningTasks == old(runningTasks) || runningTasks == old(runningTasks) - {k}
    {
      if k in notVisited && k in runningTasks {
        RetireTask(k, env, wp.reg);
        AppendAssoc(log0, wp.log, Retire(k, wp.reg[k], env.markAsCancelled(k)).effects);
      }
    }

    /** A registry that mirrors `m` reads as `m`. */
    lemma RegistryMirrors(m: map<TaskKey, TaskInfo>)
      requires Mirrors(m)
      ensures Registry() == m
    {
      forall k | k in m ensures Registry()[k] == m[k] {
        assert runningTasks[k].Info() == TaskInfo(m[k].state, m[k].failure);
      }
    }

    /** The task registered under `k` is registered under no other key. */
    lemma OthersAreNotAt(k: TaskKey)
      requires Valid() && k in runningTasks
      ensures forall k' :: k' in runningTasks && k' != k ==> runningTasks[k'] != runningTasks[k]
    {
      forall k' | k' in runningTasks && k' != k ensures runningTasks[k'] != runningTasks[k] {
        assert runningTasks[k'].key == k';
      }
    }

    /**
     * What the first loop keeps: the registry mirrors the scan's registry, the
     * effect log extends `log0` by the scan's log, and every task registered
     * when the loop began (`objs0`) is still registered as the same object.
     */
    ghost predicate Visiting(objs0: map<TaskKey, AllocatedTask>, sp: Scan, log0: seq<Effect>)
      reads this, runningTasks.Values
    {
      && Valid() && !sp.aborted && Mirrors(sp.reg) && effects == log0 + sp.log
      && (forall k :: k in objs0 ==> k in runningTasks && runningTasks[k] == objs0[k])
    }

    /**
     * The loop over the descriptors `tasks` of the first loop of clusterChanged:
     * Reconciliation.Visit from the scan state `s0`, whose not-visited keys
     * are `notVisited0`. Returns the keys not visited and whether startTask threw.
     */
    method VisitTasks(tasks: seq<Descriptor>, localNodeId: string, notVisited0: set<TaskKey>, env: Env, ghost s0: Scan)
      returns (notVisited: set<TaskKey>, aborted: bool)
      requires Valid() && !s0.aborted && Mirrors(s0.reg) && notVisited0 == s0.notVisited && s0.log == []
      modifies this`runningTasks, this`effects, runningTasks.Values
      ensures Valid()
      ensures var s := Visit(s0, tasks, localNodeId, env);
        && aborted == s.aborted
        && Mirrors(s.reg)
        && effects == old(effects) + s.log
        && (!aborted ==> notVisited == s.notVisited)
      ensures notVisited <= s0.notVisited
      ensures forall k :: k in old(runningTasks) ==> k in runningTasks && runningTasks[k] == old(runningTasks)[k]
      ensures forall k :: k in runningTasks && k !in old(runningTasks) ==> fresh(runningTasks[k])
    {
      ghost var objs0 := runningTasks;
      ghost var log0 := effects;
      ghost var sp := s0;
      notVisited, aborted := notVisited0, false;
      var i := 0;
      while i < |tasks|
        invariant 0 <= i <= |tasks|
        invariant sp == Visit(s0, tasks[..i], localNodeId, env)
        invariant Visiting(objs0, sp, log0) && notVisited == sp.notVisited && notVisited <= s0.notVisited
        invariant forall k :: k in runningTasks && k !in objs0 ==> fresh(runningTasks[k])
      {
        assert tasks[..i + 1][..i] == tasks[..i];
        notVisited, aborted := VisitAssigned(tasks[i], localNodeId, notVisited, env, sp, log0);
        sp := VisitStep(sp, tasks[i], localNodeId, env);
        if aborted {
          // the exception from startTask leaves clusterChanged
          ReconciliationLemmas.AbortIsFinal(s0, tasks, i + 1, localNodeId, env);
          return;
        }
        i := i + 1;
      }
      assert tasks[..i] == tasks;
    }

    /**
     * The first loop of clusterChanged: Reconciliation.FirstLoop on the
     * registry `reg0`. Returns the keys not visited and whether startTask threw.
     */
    method VisitAllAssigned(ev: Event, env: Env, ghost reg0: map<TaskKey, TaskInfo>)
      returns (notVisited: set<TaskKey>, aborted: bool)
      requires Valid() && Mirrors(reg0)
      modifies this`runningTasks, this`effects, runningTasks.Values
      ensures Valid()
      ensures var s := FirstLoop(reg0, ev, env);
        && aborted == s.aborted
        && Mirrors(s.reg)
        && effects == old(effects) + s.log
        && (!aborted ==> notVisited == s.notVisited)
      ensures notVisited <= old(runningTasks).Keys
      ensures forall k :: k in old(runningTasks) ==> k in runningTasks && runningTasks[k] == old(runningTasks)[k]
      ensures forall k :: k in runningTasks && k !in old(runningTasks) ==> fresh(runningTasks[k])
    {
      notVisited, aborted := runningTasks.Keys, false;
      if ev.tasks.Some? {
        notVisited, aborted := VisitTasks(ev.tasks.value, ev.localNodeId, notVisited, env, Scan(reg0, reg0.Keys, [], false));
      }
    }

    /**
     * What the second loop keeps: the registry mirrors the sweep's registry,
     * the effect log extends `log0` by the sweep's log, every registered task
     * is the object it was when the loop began (`objs1`), and every removed
     * task is an object of `objs1` that reads as the sweep recorded it.
     */
    ghost predicate Sweeping(objs1: map<TaskKey, AllocatedTask>, w: Sweep, log0: seq<Effect>)
      reads this, objs1.Values
    {
      && (forall k :: k in objs1 ==> objs1[k].key == k)
      && (forall k :: k in runningTasks ==> k in objs1 && runningTasks[k] == objs1[k])
      && Valid() && Mirrors(w.reg) && effects == log0 + w.log
      && (forall k :: k in w.removed ==> k in objs1 && k !in runningTasks && objs1[k].Info() == w.removed[k])
    }

    /** One iteration of the second loop, on the key `k`: Reconciliation.SweepStep. */
    method RetireStep(k: TaskKey, notVisited: set<TaskKey>, env: Env, ghost w: Sweep, ghost log0: seq<Effect>,
                      ghost objs1: map<TaskKey, AllocatedTask>)
      requires Sweeping(objs1, w, log0)
      modifies this`runningTasks, this`effects, TaskAt(k)
      ensures Sweeping(objs1, SweepStep(w, notVisited, k, env), log0)
    {
      forall k' | k' in w.removed ensures objs1[k'] !in TaskAt(k) {
        assert objs1[k'].key == k';
      }
      ghost var before := runningTasks;
      RetireNotVisited(k, notVisited, env, w, log0);
      ghost var w' := SweepStep(w, notVisited, k, env);
      forall k' | k' in w'.removed ensures k' in objs1 && k' !in runningTasks && objs1[k'].Info() == w'.removed[k'] {
        if k' == k && k' !in w.removed {
          assert before[k'] == objs1[k'];
        } else {
          assert k' in w.removed && w'.removed[k'] == w.removed[k'];
        }
      }
    }

    /**
     * The second loop of clusterChanged: Reconciliation.SweepAll from the
     * first loop's registry `reg1`, over the keys in the order `order`. Every
     * task it removes ends in the state SweepAll records for it.
     */
    method RetireAllNotVisited(notVisited: set<TaskKey>, order: seq<TaskKey>, env: Env,
                               ghost reg1: map<TaskKey, TaskInfo>)
      requires Valid() && Mirrors(reg1)
      modifies this`runningTasks, this`effects, runningTasks.Values
      ensures Valid()
      ensures var w := SweepAll(Sweep(reg1, map[], []), notVisited, order, env);
        && Mirrors(w.reg)
        && effects == old(effects) + w.log
        && (forall k :: k in w.removed ==> k in old(runningTasks) && old(runningTasks)[k].Info() == w.removed[k])
      ensures forall k :: k in runningTasks ==> k in old(runningTasks) && runningTasks[k] == old(runningTasks)[k]
    {
      ghost var objs1 := runningTasks;
      ghost var log0 := effects;
      ghost var w := Sweep(reg1, map[], []);
      var j := 0;
      while j < |order|
        invariant 0 <= j <= |order|
        invariant w == SweepAll(Sweep(reg1, map[], []), notVisited, order[..j], env)
        invariant Sweeping(objs1, w, log0)
      {
        assert order[..j + 1][..j] == order[..j];
        RetireStep(order[j], notVisited, env, w, log0, objs1);
        w := SweepStep(w, notVisited, order[j], env);
        j := j + 1;
      }
      assert order[..j] == order;
    }

    /**
     * clusterChanged: Reconciliation.Pass on the registry. `order` is the
     * iteration order of the set of not-visited keys, an enumeration of the
     * registry's keys. Returns whether startTask threw, which ends the pass.
     * Tasks removed from the registry end in the state Pass gives them; the
     * tasks that stay are the same objects as before.
     */
    method ClusterChanged(ev: Event, order: seq<TaskKey>, env: Env) returns (aborted: bool)
      requires Valid()
      requires forall k :: k in runningTasks ==> k in order
      modifies this, runningTasks.Values
      ensures Valid()
      ensures var r := Pass(old(Registry()), ev, order, env);
        && Registry() == r.reg
        && effects == old(effects) + r.log
        && aborted == r.aborted
        && (forall k :: k in r.removed ==> k in old(runningTasks) && old(runningTasks)[k].Info() == r.removed[k])
      ensures forall k :: k in runningTasks ==>
        if k in old(runningTasks) then runningTasks[k] == old(runningTasks)[k] else fresh(runningTasks[k])
    {
      aborted := false;
      if !Skipped(ev) {
        ghost var objs0 := runningTasks;
        ghost var reg0 := Registry();
        ghost var s := FirstLoop(reg0, ev, env);
        var notVisited;
        notVisited, aborted := VisitAllAssigned(ev, env, reg0);
        if !aborted {
          ghost var objs1 := runningTasks;
          RetireAllNotVisited(notVisited, order, env, s.reg);
          ghost var w := SweepAll(Sweep(s.reg, map[], []), notVisited, order, env);
          forall k | k in w.removed ensures k in objs0 && objs0[k] == objs1[k] {
            ReconciliationLemmas.SweepByKey(s.reg, notVisited, order, env, k);
          }
          assert Pass(reg0, ev, order, env) == PassResult(w.reg, w.removed, s.log + w.log, false);
          RegistryMirrors(w.reg);
        } else {
          assert Pass(reg0, ev, order, env) == PassResult(s.reg, map[], s.log, true);
          RegistryMirrors(s.reg);
        }
      }
    }
  }
}
