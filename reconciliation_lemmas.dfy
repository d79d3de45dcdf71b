/**
 * Properties of one reconciliation pass (Reconciliation.Pass).
 *
 * The central result, PassByKey, reads a complete pass key by key: what happens
 * to a key depends only on whether the snapshot assigns it to this node and
 * whether the registry already held it (KeyFate). The other properties follow
 * from it.
 */
module ReconciliationLemmas {
  import opened Options
  import opened TaskIdentity
  import opened CompletionReport
  import opened Reconciliation

  // ---------------------------------------------------------------------------
  // Reading a log key by key

  lemma {:induction false} AboutConcat(a: seq<Effect>, b: seq<Effect>, k: TaskKey)
    ensures About(a + b, k) == About(a, k) + About(b, k)
  {
    if a == [] {
      assert a + b == b;
    } else {
      assert (a + b)[0] == a[0];
      assert (a + b)[1..] == a[1..] + b;
      AboutConcat(a[1..], b, k);
    }
  }

  lemma {:induction false} AboutConcerned(es: seq<Effect>, k: TaskKey, k': TaskKey)
    requires Concerns(es, k)
    ensures About(es, k') == if k' == k then es else []
  {
    if es != [] {
      assert es[0] in es;
      assert forall e :: e in es[1..] ==> e in es;
      AboutConcerned(es[1..], k, k');
      if k' == k {
        assert es == [es[0]] + es[1..];
      }
    }
  }

  /** Every occurrence of an effect in a log is an occurrence in the part of the log about its task. */
  lemma {:induction false} AboutCount(log: seq<Effect>, e: Effect)
    ensures multiset(log)[e] == multiset(About(log, e.key))[e]
  {
    if log != [] {
      AboutCount(log[1..], e);
      assert log == [log[0]] + log[1..];
      var head := if log[0].key == e.key then [log[0]] else [];
      assert multiset(About(log, e.key)) == multiset(head) + multiset(About(log[1..], e.key));
    }
  }

  lemma AboutMember(log: seq<Effect>, e: Effect)
    ensures e in log <==> e in About(log, e.key)
  {
    AboutCount(log, e);
  }

  // ---------------------------------------------------------------------------
  // What a complete pass does, key by key

  /** No two descriptors of the snapshot name the same allocation. */
  ghost predicate DistinctKeys(tasks: seq<Descriptor>)
  {
    forall i, j :: 0 <= i < j < |tasks| ==> KeyOf(tasks[i]) != KeyOf(tasks[j])
  }

  ghost predicate EventDistinct(ev: Event)
  {
    ev.tasks.Some? ==> DistinctKeys(ev.tasks.value)
  }

  /**
   * A pass that looks at the tasks and is not ended by an exception, over a
   * snapshot naming each allocation once, with an iteration order that
   * enumerates the registry.
   */
  ghost predicate CompletePass(reg0: map<TaskKey, TaskInfo>, ev: Event, order: seq<TaskKey>, env: Env)
  {
    && !Skipped(ev)
    && EventDistinct(ev)
    && (forall k :: k in reg0 ==> k in order)
    && !Pass(reg0, ev, order, env).aborted
  }

  /** The first loop on a key assigned to this node: revisit it if it is registered, start it otherwise. */
  function LocalOutcome(reg0: map<TaskKey, TaskInfo>, k: TaskKey, env: Env): Step
  {
    if k in reg0 then Revisit(k, reg0[k], env) else Launch(k, env)
  }

  /** The entry a key ends with, the final state of the task when it was removed, and the effects about it. */
  datatype Fate = Fate(entry: Option<TaskInfo>, removed: Option<TaskInfo>, effects: seq<Effect>)

  /** The reference definition of a complete pass, one key at a time. */
  function KeyFate(reg0: map<TaskKey, TaskInfo>, ev: Event, env: Env, k: TaskKey): Fate
  {
    if k in EventLocalKeys(ev) then
      var n := LocalOutcome(reg0, k, env);
      Fate(Some(n.task), None, n.effects)
    else if k in reg0 then
      var n := Retire(k, reg0[k], env.markAsCancelled(k));
      Fate(None, Some(n.task), n.effects)
    else
      Fate(None, None, [])
  }

  lemma LocalKeysPrefix(tasks: seq<Descriptor>, localNodeId: string)
    requires tasks != []
    ensures LocalKeys(tasks[..|tasks| - 1], localNodeId) <= LocalKeys(tasks, localNodeId)
  {
  }

  /** One iteration of the first loop, on a key the loop has not met before. */
  lemma VisitStepByKey(reg0: map<TaskKey, TaskInfo>, sp: Scan, d: Descriptor, localNodeId: string, env: Env, k: TaskKey)
    requires !sp.aborted && !VisitStep(sp, d, localNodeId, env).aborted
    requires localNodeId == d.executorNode ==>
      && Get(sp.reg, KeyOf(d)) == Get(reg0, KeyOf(d))
      && (KeyOf(d) in sp.notVisited <==> KeyOf(d) in reg0)
      && About(sp.log, KeyOf(d)) == []
    ensures var s := VisitStep(sp, d, localNodeId, env);
      var hit := localNodeId == d.executorNode && k == KeyOf(d);
      && (k in s.notVisited <==> !hit && k in sp.notVisited)
      && Get(s.reg, k) == (if hit then Some(LocalOutcome(reg0, k, env).task) else Get(sp.reg, k))
      && About(s.log, k) == (if hit then LocalOutcome(reg0, k, env).effects else About(sp.log, k))
  {
    if localNodeId == d.executorNode {
      var kd := KeyOf(d);
      var s := VisitStep(sp, d, localNodeId, env);
      if kd !in sp.reg {
        var n := Launch(kd, env);
        assert kd !in reg0 && s.notVisited == sp.notVisited;
        assert s.reg == sp.reg[kd := n.task] && s.log == sp.log + n.effects;
        AboutConcat(sp.log, n.effects, k);
        AboutConcerned(n.effects, kd, k);
      } else {
        var n := Revisit(kd, sp.reg[kd], env);
        assert sp.reg[kd] == reg0[kd] && s.notVisited == sp.notVisited - {kd};
        assert s.reg == sp.reg[kd := n.task] && s.log == sp.log + n.effects;
        AboutConcat(sp.log, n.effects, k);
        AboutConcerned(n.effects, kd, k);
      }
    }
  }

  /** The first loop, key by key. */
  lemma {:induction false} VisitByKey(reg0: map<TaskKey, TaskInfo>, tasks: seq<Descriptor>, localNodeId: string, env: Env, k: TaskKey)
    requires DistinctKeys(tasks)
    requires !Visit(Scan(reg0, reg0.Keys, [], false), tasks, localNodeId, env).aborted
    ensures var s := Visit(Scan(reg0, reg0.Keys, [], false), tasks, localNodeId, env);
      var local := k in LocalKeys(tasks, localNodeId);
      && (k in s.notVisited <==> k in reg0 && !local)
      && Get(s.reg, k) == (if local then Some(LocalOutcome(reg0, k, env).task) else Get(reg0, k))
      && About(s.log, k) == (if local then LocalOutcome(reg0, k, env).effects else [])
    decreases |tasks|
  {
    var s0 := Scan(reg0, reg0.Keys, [], false);
    if tasks != [] {
      var p := tasks[..|tasks| - 1];
      var d := tasks[|tasks| - 1];
      var sp := Visit(s0, p, localNodeId, env);
      assert !sp.aborted;
      assert DistinctKeys(p) by {
        forall i, j | 0 <= i < j < |p| ensures KeyOf(p[i]) != KeyOf(p[j]) {
          assert p[i] == tasks[i] && p[j] == tasks[j];
        }
      }
      VisitByKey(reg0, p, localNodeId, env, k);
      if localNodeId == d.executorNode {
        assert KeyOf(d) !in LocalKeys(p, localNodeId) by {
          forall i | 0 <= i < |p| ensures KeyOf(p[i]) != KeyOf(d) {
            assert p[i] == tasks[i];
          }
        }
        VisitByKey(reg0, p, localNodeId, env, KeyOf(d));
      }
      VisitStepByKey(reg0, sp, d, localNodeId, env, k);
    }
  }

  /** One iteration of the second loop, seen from key `k`. */
  lemma SweepStepByKey(wp: Sweep, notVisited: set<TaskKey>, ko: TaskKey, env: Env, k: TaskKey)
    ensures var w := SweepStep(wp, notVisited, ko, env);
      var hit := ko in notVisited && ko in wp.reg && k == ko;
      && Get(w.reg, k) == (if hit then None else Get(wp.reg, k))
      && Get(w.removed, k) == (if hit then Some(Retire(k, wp.reg[k], env.markAsCancelled(k)).task) else Get(wp.removed, k))
      && About(w.log, k) == (if hit then About(wp.log, k) + Retire(k, wp.reg[k], env.markAsCancelled(k)).effects else About(wp.log, k))
  {
    if ko in notVisited && ko in wp.reg {
      var n := Retire(ko, wp.reg[ko], env.markAsCancelled(ko));
      AboutConcat(wp.log, n.effects, k);
      AboutConcerned(n.effects, ko, k);
    }
  }

  /** The second loop, key by key: a key is handled once it is both not visited and reached in the order. */
  lemma {:induction false} SweepByKey(reg1: map<TaskKey, TaskInfo>, notVisited: set<TaskKey>, order: seq<TaskKey>, env: Env, k: TaskKey)
    requires notVisited <= reg1.Keys
    ensures var w := SweepAll(Sweep(reg1, map[], []), notVisited, order, env);
      var done := k in notVisited && k in order;
      && Get(w.reg, k) == (if done then None else Get(reg1, k))
      && Get(w.removed, k) == (if done then Some(Retire(k, reg1[k], env.markAsCancelled(k)).task) else None)
      && About(w.log, k) == (if done then Retire(k, reg1[k], env.markAsCancelled(k)).effects else [])
    decreases |order|
  {
    if order != [] {
      var p := order[..|order| - 1];
      var ko := order[|order| - 1];
      assert order == p + [ko];
      assert k in order <==> k in p || k == ko;
      var wp := SweepAll(Sweep(reg1, map[], []), notVisited, p, env);
      SweepByKey(reg1, notVisited, p, env, k);
      SweepStepByKey(wp, notVisited, ko, env, k);
    }
  }

  /**
   * A complete pass agrees, key by key, with its reference definition KeyFate:
   * keys assigned here end in the registry (started or revisited), the other
   * registered keys are finished or cancelled, and every other key is untouched.
   */
  lemma PassByKey(reg0: map<TaskKey, TaskInfo>, ev: Event, order: seq<TaskKey>, env: Env, k: TaskKey)
    requires CompletePass(reg0, ev, order, env)
    ensures var r := Pass(reg0, ev, order, env);
      Fate(Get(r.reg, k), Get(r.removed, k), About(r.log, k)) == KeyFate(reg0, ev, env, k)
  {
    var s := FirstLoop(reg0, ev, env);
    var local := k in EventLocalKeys(ev);
    assert (k in s.notVisited <==> k in reg0 && !local)
      && Get(s.reg, k) == (if local then Some(LocalOutcome(reg0, k, env).task) else Get(reg0, k))
      && About(s.log, k) == (if local then LocalOutcome(reg0, k, env).effects else [])
    by {
      if ev.tasks.Some? {
        VisitByKey(reg0, ev.tasks.value, ev.localNodeId, env, k);
      }
    }
    assert s.notVisited <= s.reg.Keys by {
      forall k' | k' in s.notVisited ensures k' in s.reg {
        if ev.tasks.Some? {
          VisitByKey(reg0, ev.tasks.value, ev.localNodeId, env, k');
        }
      }
    }
    var w := SweepAll(Sweep(s.reg, map[], []), s.notVisited, order, env);
    SweepByKey(s.reg, s.notVisited, order, env, k);
    AboutConcat(s.log, w.log, k);
  }

  // ---------------------------------------------------------------------------
  // The properties

  /**
   * The not-visited set: after the first loop it holds exactly the registered
   * keys this snapshot no longer assigns here, so a task started in the pass is
   * never among them.
   */
  lemma NotVisitedAreUnassigned(reg0: map<TaskKey, TaskInfo>, ev: Event, env: Env)
    requires EventDistinct(ev)
    requires !FirstLoop(reg0, ev, env).aborted
    ensures FirstLoop(reg0, ev, env).notVisited == reg0.Keys - EventLocalKeys(ev)
  {
    if ev.tasks.Some? {
      forall k ensures k in FirstLoop(reg0, ev, env).notVisited <==> k in reg0.Keys - EventLocalKeys(ev) {
        VisitByKey(reg0, ev.tasks.value, ev.localNodeId, env, k);
      }
    }
  }

  /**
   * After a complete pass the registry holds exactly the allocations the
   * snapshot assigns to this node, and every other registered task was removed.
   */
  lemma RegistryMatchesAssignment(reg0: map<TaskKey, TaskInfo>, ev: Event, order: seq<TaskKey>, env: Env)
    requires CompletePass(reg0, ev, order, env)
    ensures Pass(reg0, ev, order, env).reg.Keys == EventLocalKeys(ev)
    ensures Pass(reg0, ev, order, env).removed.Keys == reg0.Keys - EventLocalKeys(ev)
  {
    var r := Pass(reg0, ev, order, env);
    forall k ensures (k in r.reg <==> k in EventLocalKeys(ev)) && (k in r.removed <==> k in reg0.Keys - EventLocalKeys(ev)) {
      PassByKey(reg0, ev, order, env, k);
    }
  }

  /**
   * A startTask that throws leaks nothing: an unknown executor registers no
   * task, and a task whose init throws is unregistered as often as it was
   * registered. The executor is never invoked.
   */
  lemma AbortLeavesNothing(d: Descriptor, env: Env)
    requires StartAborts(d, env)
    ensures var r := AbortEffects(d, env);
      && (Register(KeyOf(d)) in r <==> env.hasExecutor(d.taskName))
      && multiset(r)[Register(KeyOf(d))] == multiset(r)[Unregister(KeyOf(d))]
      && Start(KeyOf(d)) !in r
  {
    var k := KeyOf(d);
    if env.hasExecutor(d.taskName) {
      assert AbortEffects(d, env) == [Register(k)] + [Unregister(k)];
    }
  }

  /**
   * What startTask leaves once the task is in the registry. When executeTask
   * returns, the task is fresh (RUNNING, no failure) and only registered and
   * started. When it throws `e`, the listener's onFailure reports `e` (a fresh
   * task is never cancelled): on a granted startNotification the task records
   * `e` and one completion carrying `e` is sent; on a refused one nothing more
   * happens.
   */
  lemma LaunchOutcome(k: TaskKey, env: Env)
    ensures env.executeThrows(k).None? ==>
      Launch(k, env) == Step(TaskInfo(Running, None), [Register(k), Start(k)])
    ensures env.executeThrows(k).Some? ==>
      var e := env.executeThrows(k).value;
      match env.startNotification(k)
      case Grant(next) =>
        Launch(k, env) == Step(TaskInfo(next, Some(e)), [Register(k), Start(k), SendCompletion(k, Some(e))])
      case Refuse =>
        Launch(k, env) == Step(TaskInfo(Running, None), [Register(k), Start(k)])
  {
    if env.executeThrows(k).Some? {
      var e := env.executeThrows(k).value;
      assert ReportOnFailure(e, false, None) == Some(e);
    }
  }

  /** executeTask is invoked once for a started task; the failure path adds no other start. */
  lemma LaunchStartsOnce(k: TaskKey, env: Env)
    ensures multiset(Launch(k, env).effects)[Start(k)] == 1
  {
    var es := Launch(k, env).effects;
    assert es == [Register(k), Start(k)] + es[2..];
    assert Start(k) !in es[2..];
    assert multiset(es) == multiset([Register(k), Start(k)]) + multiset(es[2..]);
  }

  /** The first loop on a registered key and the second loop never start anything, finish or cancel. */
  lemma RevisitAndRetireDoNotStart(k: TaskKey, t: TaskInfo, env: Env)
    ensures Start(k) !in Revisit(k, t, env).effects
    ensures Start(k) !in Retire(k, t, env.markAsCancelled(k)).effects
    ensures Finish(k) !in Revisit(k, t, env).effects && Cancel(k) !in Revisit(k, t, env).effects
  {
  }

  /** Starting a task never finishes or cancels it. */
  lemma LaunchDoesNotRetire(k: TaskKey, env: Env)
    ensures Finish(k) !in Launch(k, env).effects && Cancel(k) !in Launch(k, env).effects
  {
  }

  /**
   * Start rule: a key assigned here and absent from the registry is started
   * exactly once, after being registered, and is in the registry afterwards
   * even when executeTask throws; no other key is started.
   */
  lemma StartedExactlyOnce(reg0: map<TaskKey, TaskInfo>, ev: Event, order: seq<TaskKey>, env: Env, k: TaskKey)
    requires CompletePass(reg0, ev, order, env)
    ensures var r := Pass(reg0, ev, order, env);
      multiset(r.log)[Start(k)] == if k in EventLocalKeys(ev) && k !in reg0 then 1 else 0
    ensures var r := Pass(reg0, ev, order, env);
      k in EventLocalKeys(ev) && k !in reg0 ==>
        k in r.reg && |About(r.log, k)| >= 2 && About(r.log, k)[..2] == [Register(k), Start(k)]
  {
    var r := Pass(reg0, ev, order, env);
    PassByKey(reg0, ev, order, env, k);
    AboutCount(r.log, Start(k));
    var f := KeyFate(reg0, ev, env, k);
    assert About(r.log, k) == f.effects;
    if k in EventLocalKeys(ev) && k !in reg0 {
      LaunchStartsOnce(k, env);
    } else if k in EventLocalKeys(ev) {
      RevisitAndRetireDoNotStart(k, reg0[k], env);
    } else if k in reg0 {
      RevisitAndRetireDoNotStart(k, reg0[k], env);
    }
  }

  /**
   * Still-desired keys: a registered key that is still assigned here stays in
   * the registry and is neither finished nor cancelled; it is left as it was
   * unless its notification failed, in which case exactly one resend is
   * attempted, carrying the recorded failure, and it is sent when
   * restartCompletionNotification() is granted.
   */
  lemma StillDesiredKeys(reg0: map<TaskKey, TaskInfo>, ev: Event, order: seq<TaskKey>, env: Env, k: TaskKey)
    requires CompletePass(reg0, ev, order, env)
    requires k in reg0 && k in EventLocalKeys(ev)
    ensures var r := Pass(reg0, ev, order, env);
      && k in r.reg && k !in r.removed
      && Finish(k) !in r.log && Cancel(k) !in r.log
      && (reg0[k].state != FailedNotification ==> r.reg[k] == reg0[k] && About(r.log, k) == [])
      && (reg0[k].state == FailedNotification ==>
            About(r.log, k) == if env.restartNotification(k).Grant? then [SendCompletion(k, reg0[k].failure)] else [])
  {
    var r := Pass(reg0, ev, order, env);
    PassByKey(reg0, ev, order, env, k);
    AboutMember(r.log, Finish(k));
    AboutMember(r.log, Cancel(k));
  }

  /**
   * Finish and cancel only ever apply to registered keys the snapshot no longer
   * assigns here; in particular never to a task started in the same pass.
   */
  lemma OnlyUnassignedRetired(reg0: map<TaskKey, TaskInfo>, ev: Event, order: seq<TaskKey>, env: Env, k: TaskKey)
    requires CompletePass(reg0, ev, order, env)
    ensures var r := Pass(reg0, ev, order, env);
      Finish(k) in r.log || Cancel(k) in r.log ==> k in reg0 && k !in EventLocalKeys(ev)
  {
    var r := Pass(reg0, ev, order, env);
    PassByKey(reg0, ev, order, env, k);
    AboutMember(r.log, Finish(k));
    AboutMember(r.log, Cancel(k));
    if k in EventLocalKeys(ev) {
      if k in reg0 {
        RevisitAndRetireDoNotStart(k, reg0[k], env);
      } else {
        LaunchDoesNotRetire(k, env);
      }
    }
  }

  /**
   * Orphan cleanup: a registered key the snapshot no longer assigns here leaves
   * the registry. NOTIFIED, FAILED and FAILED_NOTIFICATION tasks are finished
   * (unregistered); any other task is cancelled, with a cancellation request
   * exactly when markAsCancelled() is granted. No completion notification is
   * ever sent for it.
   */
  lemma OrphanCleanup(reg0: map<TaskKey, TaskInfo>, ev: Event, order: seq<TaskKey>, env: Env, k: TaskKey)
    requires CompletePass(reg0, ev, order, env)
    requires k in reg0 && k !in EventLocalKeys(ev)
    ensures var r := Pass(reg0, ev, order, env);
      && k !in r.reg && k in r.removed
      && (Finishable(reg0[k].state) ==>
            About(r.log, k) == [Finish(k), Unregister(k)] && r.removed[k] == reg0[k])
      && (!Finishable(reg0[k].state) ==>
            match env.markAsCancelled(k)
            case Grant(next) =>
              About(r.log, k) == [Cancel(k), SendCancellation(k)] && r.removed[k] == reg0[k].(state := next)
            case Refuse =>
              About(r.log, k) == [Cancel(k)] && r.removed[k] == reg0[k])
      && (forall err :: SendCompletion(k, err) !in r.log)
  {
    var r := Pass(reg0, ev, order, env);
    PassByKey(reg0, ev, order, env, k);
    forall err ensures SendCompletion(k, err) !in r.log {
      AboutMember(r.log, SendCompletion(k, err));
    }
  }

  /**
   * Keys that are neither registered nor assigned here see nothing.
   */
  lemma UnrelatedKeysUntouched(reg0: map<TaskKey, TaskInfo>, ev: Event, order: seq<TaskKey>, env: Env, k: TaskKey)
    requires CompletePass(reg0, ev, order, env)
    requires k !in reg0 && k !in EventLocalKeys(ev)
    ensures var r := Pass(reg0, ev, order, env);
      k !in r.reg && k !in r.removed && forall e :: e in r.log ==> e.key != k
  {
    var r := Pass(reg0, ev, order, env);
    PassByKey(reg0, ev, order, env, k);
    forall e | e in r.log ensures e.key != k {
      AboutMember(r.log, e);
    }
  }

  /** The first loop of the reassignment scenario starts the new allocation and does not throw. */
  lemma ReassignmentFirstLoop(reg0: map<TaskKey, TaskInfo>, d: Descriptor, ev: Event, env: Env)
    requires KeyOf(d) !in reg0 && d.executorNode == ev.localNodeId
    requires ev.tasks == Some([d])
    requires env.hasExecutor(d.taskName) && !env.initFails(KeyOf(d))
    ensures !FirstLoop(reg0, ev, env).aborted
    ensures EventLocalKeys(ev) == {KeyOf(d)}
    ensures Start(KeyOf(d)) in FirstLoop(reg0, ev, env).log && KeyOf(d) in FirstLoop(reg0, ev, env).reg
  {
    var s0 := Scan(reg0, reg0.Keys, [], false);
    assert [d][..0] == [];
    assert Visit(s0, [d], ev.localNodeId, env) == VisitStep(s0, d, ev.localNodeId, env);
  }

  /**
   * Reassignment: with allocation (id, a1) running and a snapshot assigning only
   * (id, a2) to this node, the old allocation is cancelled and the new one is
   * started, as two separate registry entries.
   */
  lemma Reassignment(id: int64, a1: int64, a2: int64, t: TaskInfo, name: string, ev: Event, env: Env)
    requires a1 != a2 && t.state == Running
    requires ev.tasks == Some([Descriptor(id, a2, name, ev.localNodeId)]) && !Skipped(ev)
    requires env.hasExecutor(name) && !env.initFails(TaskKey(id, a2))
    ensures var r := Pass(map[TaskKey(id, a1) := t], ev, [TaskKey(id, a1)], env);
      && !r.aborted
      && r.reg.Keys == {TaskKey(id, a2)}
      && r.removed.Keys == {TaskKey(id, a1)}
      && Start(TaskKey(id, a2)) in r.log
      && Cancel(TaskKey(id, a1)) in r.log
      && Start(TaskKey(id, a1)) !in r.log
      && Finish(TaskKey(id, a1)) !in r.log
  {
    var gone, added := TaskKey(id, a1), TaskKey(id, a2);
    var reg0 := map[gone := t];
    ReassignmentFirstLoop(reg0, Descriptor(id, a2, name, ev.localNodeId), ev, env);
    assert CompletePass(reg0, ev, [gone], env);
    var r := Pass(reg0, ev, [gone], env);
    RegistryMatchesAssignment(reg0, ev, [gone], env);
    assert reg0.Keys - {added} == {gone};
    StartedExactlyOnce(reg0, ev, [gone], env, added);
    assert multiset(r.log)[Start(added)] == 1;
    StartedExactlyOnce(reg0, ev, [gone], env, gone);
    assert multiset(r.log)[Start(gone)] == 0;
    OrphanCleanup(reg0, ev, [gone], env, gone);
    assert About(r.log, gone)[0] == Cancel(gone) && Finish(gone) !in About(r.log, gone);
    AboutMember(r.log, Cancel(gone));
    AboutMember(r.log, Finish(gone));
  }

  /** With every assigned key already registered, the first loop starts nothing, so it cannot throw. */
  lemma {:induction false} VisitWithoutStarts(reg0: map<TaskKey, TaskInfo>, tasks: seq<Descriptor>, localNodeId: string, env: Env)
    requires LocalKeys(tasks, localNodeId) <= reg0.Keys
    ensures var s := Visit(Scan(reg0, reg0.Keys, [], false), tasks, localNodeId, env);
      !s.aborted && s.reg.Keys == reg0.Keys
    decreases |tasks|
  {
    if tasks != [] {
      LocalKeysPrefix(tasks, localNodeId);
      VisitWithoutStarts(reg0, tasks[..|tasks| - 1], localNodeId, env);
    }
  }

  /** A complete pass over a registry that already holds exactly the assigned keys only resends notifications. */
  lemma ResendsOnly(reg1: map<TaskKey, TaskInfo>, ev: Event, order: seq<TaskKey>, env: Env, k: TaskKey)
    requires CompletePass(reg1, ev, order, env) && reg1.Keys == EventLocalKeys(ev)
    ensures forall e :: e in About(Pass(reg1, ev, order, env).log, k) ==> e.SendCompletion?
  {
    PassByKey(reg1, ev, order, env, k);
    if k in reg1 {
      var n := Revisit(k, reg1[k], env);
      assert forall e :: e in n.effects ==> e.SendCompletion?;
    }
  }

  /**
   * Idempotence: a second pass over the same assignment after a complete pass
   * starts, finishes and cancels nothing, whatever the node-membership flag
   * says; the only thing it can do is resend failed notifications.
   */
  lemma SecondPassQuiet(reg0: map<TaskKey, TaskInfo>, ev: Event, order: seq<TaskKey>, env: Env,
                        ev2: Event, order2: seq<TaskKey>, env2: Env)
    requires CompletePass(reg0, ev, order, env)
    requires ev2.tasks == ev.tasks && ev2.localNodeId == ev.localNodeId
    requires forall k :: k in Pass(reg0, ev, order, env).reg ==> k in order2
    ensures var r1 := Pass(reg0, ev, order, env);
      var r2 := Pass(r1.reg, ev2, order2, env2);
      && !r2.aborted
      && r2.reg.Keys == r1.reg.Keys
      && r2.removed == map[]
      && forall e :: e in r2.log ==> e.SendCompletion?
  {
    var r1 := Pass(reg0, ev, order, env);
    RegistryMatchesAssignment(reg0, ev, order, env);
    if !Skipped(ev2) {
      assert !FirstLoop(r1.reg, ev2, env2).aborted by {
        if ev2.tasks.Some? {
          VisitWithoutStarts(r1.reg, ev2.tasks.value, ev2.localNodeId, env2);
        }
      }
      assert CompletePass(r1.reg, ev2, order2, env2);
      RegistryMatchesAssignment(r1.reg, ev2, order2, env2);
      var r2 := Pass(r1.reg, ev2, order2, env2);
      forall e | e in r2.log ensures e.SendCompletion? {
        AboutMember(r2.log, e);
        ResendsOnly(r1.reg, ev2, order2, env2, e.key);
      }
    }
  }

  /** One step of the first loop keeps every registered key and logs no Finish or Cancel. */
  lemma VisitStepKeepsEntries(s: Scan, d: Descriptor, localNodeId: string, env: Env)
    requires forall e :: e in s.log ==> !e.Finish? && !e.Cancel?
    ensures var s' := VisitStep(s, d, localNodeId, env);
      s.reg.Keys <= s'.reg.Keys && forall e :: e in s'.log ==> !e.Finish? && !e.Cancel?
  {
    var k := KeyOf(d);
    if localNodeId == d.executorNode {
      if k !in s.reg {
        assert forall e :: e in AbortEffects(d, env) ==> !e.Finish? && !e.Cancel?;
        assert forall e :: e in Launch(k, env).effects ==> !e.Finish? && !e.Cancel?;
      } else if s.reg[k].state == FailedNotification {
        var n := RestartNotification(k, s.reg[k], env.restartNotification(k));
        assert forall e :: e in n.effects ==> !e.Finish? && !e.Cancel?;
      }
    }
  }

  /** The first loop never finishes, cancels or removes anything. */
  lemma {:induction false} VisitKeepsEntries(reg0: map<TaskKey, TaskInfo>, tasks: seq<Descriptor>, localNodeId: string, env: Env)
    ensures var s := Visit(Scan(reg0, reg0.Keys, [], false), tasks, localNodeId, env);
      reg0.Keys <= s.reg.Keys && forall e :: e in s.log ==> !e.Finish? && !e.Cancel?
    decreases |tasks|
  {
    if tasks != [] {
      VisitKeepsEntries(reg0, tasks[..|tasks| - 1], localNodeId, env);
      var sp := Visit(Scan(reg0, reg0.Keys, [], false), tasks[..|tasks| - 1], localNodeId, env);
      if !sp.aborted {
        VisitStepKeepsEntries(sp, tasks[|tasks| - 1], localNodeId, env);
      }
    }
  }

  /**
   * A pass ended by an exception from startTask (unknown executor, failing
   * init) leaves every registered task in the registry: the second loop never ran.
   */
  lemma AbortedPassKeepsRegistry(reg0: map<TaskKey, TaskInfo>, ev: Event, order: seq<TaskKey>, env: Env)
    requires Pass(reg0, ev, order, env).aborted
    ensures var r := Pass(reg0, ev, order, env);
      && reg0.Keys <= r.reg.Keys
      && r.removed == map[]
      && forall e :: e in r.log ==> !e.Finish? && !e.Cancel?
  {
    if ev.tasks.Some? {
      VisitKeepsEntries(reg0, ev.tasks.value, ev.localNodeId, env);
    }
  }

  /** Once an exception ends the first loop, the rest of the snapshot is never looked at. */
  lemma {:induction false} AbortIsFinal(s0: Scan, tasks: seq<Descriptor>, j: nat, localNodeId: string, env: Env)
    requires j <= |tasks|
    requires Visit(s0, tasks[..j], localNodeId, env).aborted
    ensures Visit(s0, tasks, localNodeId, env) == Visit(s0, tasks[..j], localNodeId, env)
    decreases |tasks| - j
  {
    if j < |tasks| {
      var p := tasks[..|tasks| - 1];
      assert p[..j] == tasks[..j];
      AbortIsFinal(s0, p, j, localNodeId, env);
    } else {
      assert tasks[..j] == tasks;
    }
  }

  /**
   * Notification outcome of a resend: a cancelled task is unregistered and
   * nothing is sent; otherwise exactly one notification goes out when
   * restartCompletionNotification() is granted, none when it is refused, and
   * the one sent carries the failure the task recorded, which the resend keeps.
   */
  lemma NotificationOutcome(k: TaskKey, t: TaskInfo, g: Guard)
    ensures var r := RestartNotification(k, t, g);
      && (Unregister(k) in r.effects <==> t.state == Cancelled)
      && (r.effects != [] && r.effects[0].SendCompletion? <==> t.state != Cancelled && g.Grant?)
      && (forall e :: e in r.effects && e.SendCompletion? ==> e.error == t.failure)
      && r.task.failure == t.failure
      && r.task.state == if t.state != Cancelled && g.Grant? then g.next else t.state
  {
  }

  /**
   * Reported error of a first notification: a cancelled task is unregistered
   * and nothing is sent; otherwise the error handed over is sent only when
   * startNotification(error) is granted, and the task then records it.
   */
  lemma FirstNotificationOutcome(k: TaskKey, t: TaskInfo, error: Option<Error>, g: Guard)
    ensures var r := NotifyCompletion(k, t, error, g);
      && (Unregister(k) in r.effects <==> t.state == Cancelled)
      && (r.effects != [] && r.effects[0].SendCompletion? <==> t.state != Cancelled && g.Grant?)
      && (forall e :: e in r.effects && e.SendCompletion? ==> e.error == error)
      && (t.state != Cancelled && g.Grant? ==> r.task == TaskInfo(g.next, error))
      && (t.state == Cancelled || g.Refuse? ==> r.task == t)
  {
  }

  /**
   * The metadata comparison ignores the order in which the tasks are listed:
   * a snapshot that lists the same tasks as the previous one in another order,
   * with the nodes unchanged, skips the pass.
   */
  lemma ReorderedSnapshotSkipped(ev: Event)
    requires ev.tasks.Some? && ev.previousTasks.Some? && !ev.nodesChanged
    requires multiset(ev.tasks.value) == multiset(ev.previousTasks.value)
    ensures Skipped(ev)
  {
    var a, b := ev.tasks.value, ev.previousTasks.value;
    forall d ensures d in a <==> d in b {
      assert d in a <==> d in multiset(a);
      assert d in b <==> d in multiset(b);
    }
    assert TaskSet(ev.tasks).value == TaskSet(ev.previousTasks).value;
  }

  /** No-op pass: equal task metadata and unchanged nodes leave everything as it was. */
  lemma NoOpPass(reg0: map<TaskKey, TaskInfo>, ev: Event, order: seq<TaskKey>, env: Env)
    requires TaskSet(ev.tasks) == TaskSet(ev.previousTasks) && !ev.nodesChanged
    ensures Pass(reg0, ev, order, env) == PassResult(reg0, map[], [], false)
  {
  }
}
