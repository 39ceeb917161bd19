/** The engine as an object: its methods work in place on the store and on the join table, and
    every execution is one transition of the engine model. */
module EngineObjects {
  import opened Definitions
  import opened Graphs
  import opened Trees
  import opened Store
  import opened Queue
  import opened JoinStores
  import Joins
  import opened MemoryStores
  import opened Rollback
  import opened RollbackEngine
  import opened Engine
  import opened EngineFrames
  import opened EngineTame
  import opened EngineSteps
  import opened EngineRuns
  import R = Reachability
  import V = BuilderObjects

  // ------------------------------------------------------------------ folding the specification

  /** Every active step is among the active records. */
  lemma ActiveAre(s: State, i: int, recs: seq<StepRec>)
    requires WellKeyed(s) && recs == ActiveOf(StepsOf(s, i))
    ensures forall id | id in ActiveIds(s, i) :: exists l | 0 <= l < |recs| :: recs[l].id == id
  {
    forall id | id in ActiveIds(s, i)
      ensures exists l | 0 <= l < |recs| :: recs[l].id == id
    {
      PresentHas(s.steps, IdsOf(s, i), id);
      assert s.steps[id] in recs;
    }
  }

  lemma QueueAllEnds(s: State, i: int, list: seq<StepRec>)
    ensures QueueAll(s, i, list[|list|..], |list|) == s
  {
  }

  lemma UndoStarts(recs: seq<StepRec>)
    ensures recs[0..] == recs
  {
  }

  lemma UndoEnds(s: State, recs: seq<StepRec>, steps: Steps, sp: Option<int>)
    ensures UndoPlain(s, recs[|recs|..], steps, sp) == s && ToCompensate(recs[|recs|..], steps, sp) == []
  {
  }

  lemma UndoAt(s: State, recs: seq<StepRec>, k: nat, steps: Steps, sp: Option<int>)
    requires k < |recs|
    ensures UndoPlain(s, recs[k..], steps, sp) ==
            UndoPlain(if AfterSavePoint(recs[k], sp) && !Compensable(recs[k], steps) then
                      UpdateStep(s, recs[k].id, RolledBack) else s,
                      recs[k + 1..], steps, sp)
    ensures ToCompensate(recs[k..], steps, sp) ==
            ToCompensate(recs[k + 1..], steps, sp)
            + (if AfterSavePoint(recs[k], sp) && Compensable(recs[k], steps) then [recs[k]] else [])
  {
    assert recs[k..][1..] == recs[k + 1..] && recs[k..][0] == recs[k];
    hide UpdateStep, Compensable, AfterSavePoint;
  }

  lemma QueueAllStep(s: State, i: int, list: seq<StepRec>, k: nat)
    requires k < |list|
    ensures QueueAll(s, i, list[k..], k) ==
            QueueAll(Enqueue(UpdateStepCompensationRetry(s, list[k].id, 0, Compensation), i, list[k].id, PRIORITY_HIGH,
                             0.01 * k as real),
                     i, list[k + 1..], k + 1)
  {
    assert list[k..][1..] == list[k + 1..];
  }

  lemma EnqueueNextStep(s: State, i: int, steps: Steps, names: seq<string>, skipJoins: bool, k: nat)
    requires k < |names|
    ensures EnqueueNext(s, i, steps, names[k..], skipJoins) ==
            if names[k] !in steps then s
            else if (skipJoins && steps[names[k]].kind == Join)
              || IsDlq(s, i) then EnqueueNext(s, i, steps, names[k + 1..], skipJoins)
            else EnqueueNext(Spawn(s, i, names[k], steps[names[k]]), i, steps, names[k + 1..], skipJoins)
  {
    hide Spawn;
    assert names[k..][1..] == names[k + 1..];
  }

  lemma SkipMore(s: State, ids: set<int>, id: int)
    requires id in s.steps
    ensures UpdateStep(SkipAll(s, ids), id, Skipped) == SkipAll(s, ids + {id})
  {
    assert UpdateStep(SkipAll(s, ids), id, Skipped).steps == SkipAll(s, ids + {id}).steps;
  }

  lemma SkipNone(s: State)
    ensures SkipAll(s, {}) == s
  {
    assert SkipAll(s, {}).steps == s.steps;
  }

  class WorkflowEngine {
    const store: MemoryStore
    var handlers: set<string>

    constructor (store: MemoryStore)
      ensures this.store == store && handlers == {}
    {
      this.store, handlers := store, {};
    }

    method RegisterHandler(name: string)
      modifies this`handlers
      ensures handlers == old(handlers) + {name}
    {
      handlers := handlers + {name};
    }

    // ---------------------------------------------------------------- readers

    method HasStep(i: int, statuses: set<StepStatus>) returns (found: bool)
      ensures found <==> SomeStep(store.View(), i, statuses)
    {
      var recs := store.GetStepsByInstance(i);
      for k := 0 to |recs|
        invariant forall l | 0 <= l < k :: recs[l].status !in statuses
      {
        if recs[k].status in statuses {
          assert recs[k] in recs;
          return true;
        }
      }
      return false;
    }

    /** The names of the steps in the order in which a loop visits the map: any order. */
    method IterationOrder(steps: Steps) returns (order: seq<string>)
      ensures Enumerates(order, steps)
    {
      order := [];
      var rest := steps.Keys;
      while rest != {}
        invariant rest <= steps.Keys && Distinct(order) && Elements(order) == steps.Keys - rest
        decreases rest
      {
        var n :| n in rest;
        assert n !in Elements(order);
        rest := rest - {n};
        assert Elements(order + [n]) == Elements(order) + {n};
        order := order + [n];
      }
    }

    /** The first fork visited that has the step among the first steps of its branches. */
    method FindForkStepForParallelStep(name: string, steps: Steps, order: seq<string>) returns (fork: string)
      ensures fork == ForkOf(steps, order, name)
      ensures fork != "" ==> fork in steps && steps[fork].kind == Fork && name in steps[fork].parallel
    {
      for k := 0 to |order|
        invariant ForkOf(steps, order, name) == ForkOf(steps, order[k..], name)
      {
        assert order[k..][1..] == order[k + 1..];
        if order[k] in steps && steps[order[k]].kind == Fork && name in steps[order[k]].parallel {
          return order[k];
        }
      }
      fork := "";
    }

    method IsStepInParallelBranch(name: string, fork: StepDef, steps: Steps) returns (found: bool)
      ensures found <==> InBranch(steps, fork, name)
    {
      if name in fork.parallel {
        return true;
      }
      for k := 0 to |fork.parallel|
        invariant forall l | 0 <= l < k ::
                    !(name != "" && fork.parallel[l] in steps && Reaches(R.PrevGraph(steps), name, fork.parallel[l]))
      {
        var below := R.IsStepDescendantOf(name, fork.parallel[k], steps);
        if below {
          assert fork.parallel[k] in fork.parallel;
          return true;
        }
      }
      return false;
    }

    method FindAwaitedFork(waitFor: seq<string>, recs: seq<StepRec>, steps: Steps, order: seq<string>)
      returns (fork: string)
      ensures fork == ForkAwaited(steps, order, waitFor, recs)
    {
      for k := 0 to |waitFor|
        invariant ForkAwaited(steps, order, waitFor, recs) == ForkAwaited(steps, order, waitFor[k..], recs)
      {
        assert waitFor[k..][1..] == waitFor[k + 1..];
        fork := "";
        if exists r | r in recs :: r.name == waitFor[k] {
          fork := FindForkStepForParallelStep(waitFor[k], steps, order);
        }
        if fork != "" {
          return;
        }
      }
      fork := "";
    }

    method HasPendingStepsInParallelBranches(join: StepDef, recs: seq<StepRec>, steps: Steps, order: seq<string>)
      returns (pending: bool)
      ensures pending <==> BranchPending(steps, order, join, recs)
    {
      var fork := FindAwaitedFork(join.waitFor, recs, steps, order);
      if fork == "" || fork !in steps || steps[fork].kind != Fork {
        return false;
      }
      hide InBranch;
      for k := 0 to |recs|
        invariant forall l | 0 <= l < k ::
                    !((recs[l].status == Pending || recs[l].status == Running)
                      && InBranch(steps, steps[fork], recs[l].name) && recs[l].name !in join.waitFor)
      {
        if recs[k].status == Pending || recs[k].status == Running {
          var inside := IsStepInParallelBranch(recs[k].name, steps[fork], steps);
          if inside && recs[k].name !in join.waitFor {
            assert recs[k] in recs;
            return true;
          }
        }
      }
      return false;
    }

    // ---------------------------------------------------------------- joins

    /** Reports an outcome to one join and creates its step when it became ready. */
    method NotifyJoinStepsForStep(i: int, steps: Steps, order: seq<string>, join: string, step: string, success: bool)
      returns (ok: bool)
      requires join in steps && i in store.instances
      modifies store`joins, store`steps, store`byInstance, store`nextStep, store`queue, store`nextQueue
      ensures (store.View(), ok) == NotifyJoin(old(store.View()), i, steps, order, join, step, success)
    {
      hide BranchPending, Joins.Notified;
      var found, isReady := store.UpdateJoinState(i, join, step, success);
      if !found {
        return false;
      }
      if !isReady {
        return true;
      }
      var recs := store.GetStepsByInstance(i);
      var pending := HasPendingStepsInParallelBranches(steps[join], recs, steps, order);
      if pending {
        var _, _ := store.UpdateJoinState(i, join, step, success);
        return true;
      }
      if !exists r | r in recs :: r.name == join {
        if store.instances[i].status == WfDLQ {
          var _ := store.CreateStep(i, join, Join, Paused, 0);
        } else {
          var id := store.CreateStep(i, join, Join, Pending, 0);
          store.EnqueueStep(i, id, PRIORITY_NORMAL, 0.0);
        }
      }
      ok := true;
    }

    /** Reports an outcome to every join that waits for the step, in the order visited. */
    method NotifyJoinSteps(i: int, steps: Steps, order: seq<string>, step: string, success: bool) returns (ok: bool)
      requires i in store.instances
      modifies store`joins, store`steps, store`byInstance, store`nextStep, store`queue, store`nextQueue
      ensures (store.View(), ok) == NotifyAll(old(store.View()), i, steps, order, order, step, success)
    {
      hide NotifyJoin;
      for k := 0 to |order|
        invariant NotifyAll(old(store.View()), i, steps, order, order, step, success)
               == NotifyAll(store.View(), i, steps, order, order[k..], step, success)
      {
        assert order[k..][1..] == order[k + 1..];
        var n := order[k];
        if n in steps && steps[n].kind == Join {
          var state := store.GetJoinState(i, n);
          if (state.Some? && step in state.value.waitingFor) || step in steps[n].waitFor {
            ok := NotifyJoinStepsForStep(i, steps, order, n, step, success);
            if !ok {
              return;
            }
          }
        }
      }
      ok := true;
    }

    /** The nearest condition above a step. */
    method FindConditionStepInBranch(d: StepDef, steps: Steps) returns (r: string)
      ensures r == ConditionAbove(steps, d.prev, {})
    {
      var visited: set<string> := {};
      var current := d.prev;
      while current != "" && current != ROOT_STEP
        invariant ConditionAbove(steps, d.prev, {}) == ConditionAbove(steps, current, visited)
        decreases steps.Keys - visited
      {
        if current in visited || current !in steps {
          return "";
        }
        if steps[current].kind == Condition {
          return current;
        }
        visited := visited + {current};
        current := steps[current].prev;
      }
      return "";
    }

    /** The fork whose branches contain the step, or the empty string. */
    method FindForkAround(name: string, steps: Steps, order: seq<string>) returns (fork: string)
      ensures fork == ForkAround(steps, order, name)
      ensures fork != "" ==> fork in steps
    {
      fork := FindForkStepForParallelStep(name, steps, order);
      if fork != "" || name !in steps {
        return;
      }
      var visited: set<string> := {};
      var current := steps[name].prev;
      while current != "" && current != ROOT_STEP
        invariant ForkAround(steps, order, name) == ForkAbove(steps, order, current, visited)
        decreases steps.Keys - visited
      {
        if current in visited || current !in steps {
          return "";
        }
        if steps[current].kind == Fork {
          return current;
        }
        fork := FindForkStepForParallelStep(current, steps, order);
        if fork != "" {
          return;
        }
        visited := visited + {current};
        current := steps[current].prev;
      }
      return "";
    }

    /** The step ends a branch of a fork. */
    method IsTerminalStepInForkBranch(name: string, steps: Steps, order: seq<string>) returns (terminal: bool)
      ensures terminal <==> EndsBranch(steps, order, name)
    {
      if name !in steps || steps[name].kind == Join || |steps[name].next| > 0 {
        return false;
      }
      var fork := FindForkAround(name, steps, order);
      return fork != "";
    }

    /** The join that follows the fork whose branches contain the step. */
    method FindJoinStepForForkBranch(name: string, steps: Steps, order: seq<string>) returns (join: string)
      ensures join == JoinAround(steps, order, name)
      ensures join != "" ==> join in steps
    {
      var fork := FindForkAround(name, steps, order);
      if fork == "" {
        return "";
      }
      var next := steps[fork].next;
      for k := 0 to |next|
        invariant FirstJoin(steps, next) == FirstJoin(steps, next[k..])
      {
        assert next[k..][1..] == next[k + 1..];
        if next[k] in steps && steps[next[k]].kind == Join {
          return next[k];
        }
      }
      return "";
    }

    /** Tells the join of the surrounding fork which step ended a branch. */
    method SettleBranch(i: int, steps: Steps, order: seq<string>, rec: StepRec, d: StepDef, success: bool)
      requires i in store.instances
      modifies store`joins, store`steps, store`byInstance, store`nextStep, store`queue, store`nextQueue
      ensures store.View() == Settle(old(store.View()), i, steps, order, rec, d, success)
    {
      hide JoinAround, ConditionAbove, EndsBranch, NotifyJoin, JoinStep, OldestStatus;
      var condition := FindConditionStepInBranch(d, steps);
      var join := FindJoinStepForForkBranch(rec.name, steps, order);
      if condition != "" {
        if join != "" {
          store.ReplaceInJoinWaitFor(i, join, VirtualName(condition), rec.name);
          var _ := NotifyJoinStepsForStep(i, steps, order, join, rec.name, success);
        }
        return;
      }
      if !success {
        return;
      }
      var terminal := IsTerminalStepInForkBranch(rec.name, steps, order);
      if terminal && join != "" {
        var state := store.GetJoinState(i, join);
        if state.None? {
          store.CreateJoinState(i, join, [rec.name], Some(steps[join].strategy));
        } else {
          var w := state.value.waitingFor;
          if !exists x | x in w :: x == rec.name || IsVirtual(x) {
            store.AddToJoinWaitFor(i, join, rec.name);
          }
        }
      }
    }

    // ---------------------------------------------------------------- successors

    method SpawnStep(i: int, name: string, d: StepDef)
      modifies store`steps, store`byInstance, store`nextStep, store`queue, store`nextQueue
      ensures store.View() == Spawn(old(store.View()), i, name, d)
    {
      var id := store.CreateStep(i, name, d.kind, Pending, d.maxRetries);
      store.EnqueueStep(i, id, PRIORITY_NORMAL, d.delay);
    }

    /** False stands for a missing step definition. */
    method EnqueueNextSteps(i: int, steps: Steps, names: seq<string>, skipJoins: bool) returns (ok: bool)
      requires i in store.instances
      modifies store`steps, store`byInstance, store`nextStep, store`queue, store`nextQueue
      ensures store.View() == EnqueueNext(old(store.View()), i, steps, names, skipJoins)
    {
      var k := 0;
      while k < |names|
        invariant 0 <= k <= |names|
        invariant EnqueueNext(old(store.View()), i, steps, names, skipJoins)
               == EnqueueNext(store.View(), i, steps, names[k..], skipJoins)
      {
        hide EnqueueNext, Spawn;
        EnqueueNextStep(store.View(), i, steps, names, skipJoins, k);
        if names[k] !in steps {
          return false;
        }
        var d := steps[names[k]];
        if !(skipJoins && d.kind == Join) && store.instances[i].status != WfDLQ {
          SpawnStep(i, names[k], d);
        }
        k := k + 1;
      }
      return true;
    }

    method StartAllBranches(i: int, steps: Steps, names: seq<string>) returns (ok: bool)
      modifies store`steps, store`byInstance, store`nextStep, store`queue, store`nextQueue
      ensures (store.View(), ok) == StartBranches(old(store.View()), i, steps, names)
    {
      hide Spawn;
      for k := 0 to |names|
        invariant StartBranches(old(store.View()), i, steps, names) == StartBranches(store.View(), i, steps, names[k..])
      {
        assert names[k..][1..] == names[k + 1..];
        if names[k] !in steps {
          return false;
        }
        SpawnStep(i, names[k], steps[names[k]]);
      }
      ok := true;
    }

    /** Starts the branches and opens the joins behind the fork. */
    method ExecuteFork(i: int, steps: Steps, d: StepDef) returns (ok: bool)
      modifies store`joins, store`steps, store`byInstance, store`nextStep, store`queue, store`nextQueue
      ensures (store.View(), ok) == RunFork(old(store.View()), i, steps, d)
    {
      hide StartBranches, JoinStep;
      ok := StartAllBranches(i, steps, d.parallel);
      if !ok {
        return;
      }
      ghost var s := store.View();
      for k := 0 to |d.next|
        invariant OpenJoins(s, i, steps, d, d.next) == OpenJoins(store.View(), i, steps, d, d.next[k..])
      {
        assert d.next[k..][1..] == d.next[k + 1..];
        var n := d.next[k];
        if n in steps && steps[n].kind == Join {
          var waitFor := if steps[n].waitFor == [] then d.parallel else steps[n].waitFor;
          store.CreateJoinState(i, n, waitFor, Some(steps[n].strategy));
        }
      }
    }

    method ExecuteJoin(i: int, name: string) returns (ok: bool)
      ensures ok <==> JoinSucceeds(store.View(), i, name)
    {
      var state := store.GetJoinState(i, name);
      if state.None? || !state.value.isReady {
        return false;
      }
      return !(|state.value.failed| > 0 && state.value.strategy == All);
    }

    // ---------------------------------------------------------------- completion

    method FindLastSavePoint(recs: seq<StepRec>) returns (sp: Option<int>)
      ensures sp == LastSavePoint(recs)
    {
      sp := None;
      for k := 0 to |recs|
        invariant sp == LastSavePoint(recs[..k])
      {
        assert recs[..k + 1][..k] == recs[..k];
        if recs[k].kind == SavePoint && (sp.None? || sp.value < recs[k].id) {
          sp := Some(recs[k].id);
        }
      }
      assert recs[..|recs|] == recs;
    }

    /** Rolls back what has no compensation; returns the other steps, youngest first. */
    method UndoCompleted(recs: seq<StepRec>, steps: Steps, sp: Option<int>) returns (list: seq<StepRec>)
      modifies store`steps
      ensures store.View() == UndoPlain(old(store.View()), recs, steps, sp) && list == ToCompensate(recs, steps, sp)
      ensures store.steps.Keys == old(store.steps.Keys) && forall r | r in list :: r in recs
    {
      hide UndoPlain, ToCompensate;
      list := [];
      UndoStarts(recs);
      for k := 0 to |recs|
        invariant UndoPlain(old(store.View()), recs, steps, sp) == UndoPlain(store.View(), recs[k..], steps, sp)
        invariant ToCompensate(recs, steps, sp) == ToCompensate(recs[k..], steps, sp) + list
        invariant store.steps.Keys == old(store.steps.Keys) && forall r | r in list :: r in recs
      {
        UndoAt(store.View(), recs, k, steps, sp);
        var rec := recs[k];
        if rec.status == Completed && (sp.None? || sp.value < rec.id) {
          if rec.name in steps && steps[rec.name].onFailure != "" {
            list := [rec] + list;
          } else {
            var _ := store.UpdateStep(rec.id, RolledBack);
          }
        }
      }
      UndoEnds(store.View(), recs, steps, sp);
    }

    method QueueOne(i: int, rec: StepRec, k: nat)
      requires rec.id in store.steps
      modifies store`steps, store`queue, store`nextQueue
      ensures store.View() ==
              Enqueue(UpdateStepCompensationRetry(old(store.View()), rec.id, 0, Compensation), i, rec.id,
                      PRIORITY_HIGH, 0.01 * k as real)
      ensures store.steps.Keys == old(store.steps.Keys)
    {
      var found := store.UpdateStepCompensationRetry(rec.id, 0, Compensation);
      if found {
        store.EnqueueStep(i, rec.id, PRIORITY_HIGH, 0.01 * k as real);
      }
    }

    method QueueForCompensation(i: int, list: seq<StepRec>)
      requires forall r | r in list :: r.id in store.steps
      modifies store`steps, store`queue, store`nextQueue
      ensures store.View() == QueueAll(old(store.View()), i, list, 0)
    {
      hide QueueAll, Enqueue, UpdateStepCompensationRetry;
      assert list[0..] == list;
      for k := 0 to |list|
        invariant QueueAll(old(store.View()), i, list, 0) == QueueAll(store.View(), i, list[k..], k)
        invariant store.steps.Keys == old(store.steps.Keys)
      {
        QueueAllStep(store.View(), i, list, k);
        assert list[k] in list;
        QueueOne(i, list[k], k);
      }
      QueueAllEnds(store.View(), i, list);
    }

    method EnqueueCompletedStepsForRollback(i: int, steps: Steps)
      requires WellKeyed(store.View())
      modifies store`steps, store`queue, store`nextQueue
      ensures store.View() == ReactiveRollback(old(store.View()), i, steps)
    {
      KeyedRecords(store.View(), i);
      var recs := store.GetStepsByInstance(i);
      var sp := FindLastSavePoint(recs);
      var list := UndoCompleted(recs, steps, sp);
      QueueForCompensation(i, list);
    }

    method CompleteWorkflow(i: int, steps: Steps)
      requires WellKeyed(store.View())
      modifies store`steps, store`queue, store`nextQueue, store`instances
      ensures store.View() == Engine.CompleteWorkflow(old(store.View()), i, steps)
    {
      var failed := HasStep(i, {Failed, RolledBack});
      if failed {
        EnqueueCompletedStepsForRollback(i, steps);
        var compensating := HasStep(i, {Compensation});
        if compensating {
          return;
        }
        var _ := store.UpdateInstanceStatus(i, WfFailed);
      } else {
        var _ := store.UpdateInstanceStatus(i, WfCompleted);
      }
    }

    // ---------------------------------------------------------------- results of a step

    /** The step's new status and its notifications; in a branch, the join learns first which
        step ended it. */
    method MarkStep(i: int, rec: StepRec, d: StepDef, steps: Steps, order: seq<string>, status: StepStatus,
                    settle: bool,
                    success: bool, ghost o: Choice) returns (ok: bool)
      requires rec.id in store.steps && i in store.instances && o.order == order
      modifies store`joins, store`steps, store`byInstance, store`nextStep, store`queue, store`nextQueue
      ensures (store.View(), ok) == Mark(old(store.View()), i, rec, d, steps, o, status, settle, success)
    {
      hide Settle, NotifyAll, Store.UpdateStep;
      var _ := store.UpdateStep(rec.id, status);
      if settle {
        SettleBranch(i, steps, order, rec, d, success);
      }
      ok := NotifyJoinSteps(i, steps, order, rec.name, success);
    }

    method HandleStepSuccess(i: int, rec: StepRec, d: StepDef, def: Definition, next: bool, order: seq<string>,
                             ghost o: Choice)
      requires WellFormed(store.View()) && Runs(store.View(), i, def) && InHand(store.View(), i, rec)
               && o.order == order
      modifies store`joins, store`steps, store`byInstance, store`nextStep, store`queue, store`nextQueue, store`instances
      ensures store.View() == HandleSuccess(old(store.View()), i, rec, d, def, next, o)
    {
      hide Engine.CompleteWorkflow, EnqueueNext, Mark, WellFormed, Tame;
      ghost var s := store.View();
      var ok := MarkStep(i, rec, d, def.steps, order, Completed, true, true, o);
      if !ok {
        return;
      }
      MarkTame(s, i, rec, d, def, o, Completed, true, true);
      TameKeyed(s, store.View(), i, def.steps);
      if (next && |d.next| == 0) || (!next && d.els == "") {
        var unfinished := HasStep(i, {Pending, Running, Paused});
        if !unfinished {
          CompleteWorkflow(i, def.steps);
        }
        return;
      }
      var names := if next then d.next else [d.els];
      var _ := EnqueueNextSteps(i, def.steps, names, next);
    }

    /** Skips exactly the pending and running steps in the branches of the fork around a failed
        step. */
    method StopParallelBranchesInFork(i: int, name: string, steps: Steps, order: seq<string>)
      requires WellKeyed(store.View())
      modifies store`steps
      ensures store.View() == SkipAll(old(store.View()), Siblings(old(store.View()), i, name, steps, order))
    {
      ghost var s := store.View();
      ghost var ids: set<int> := {};
      SkipNone(s);
      var fork := FindForkStepForParallelStep(name, steps, order);
      if fork == "" {
        return;
      }
      var recs := store.GetStepsByInstance(i);
      hide InBranch, SkipAll;
      for k := 0 to |recs|
        invariant store.View() == SkipAll(s, ids)
        invariant ids == SiblingIds(recs[..k], name, steps, fork)
      {
        var rec := recs[k];
        SiblingMore(recs, k, name, steps, fork);
        if rec.name != name {
          var inside := IsStepInParallelBranch(rec.name, steps[fork], steps);
          if inside && (rec.status == Pending || rec.status == Running) {
            assert rec in recs;
            SiblingRecord(s, i, rec);
            SkipMore(s, ids, rec.id);
            var _ := store.UpdateStep(rec.id, Skipped);
            ids := ids + {rec.id};
          }
        }
      }
      assert recs[..|recs|] == recs;
      SiblingsAre(s, i, name, steps, order);
    }

    method ToDeadLetters(i: int, rec: StepRec, d: StepDef, def: Definition, order: seq<string>, ghost o: Choice)
      requires rec.id in store.steps && i in store.instances && o.order == order
      modifies store`joins, store`steps, store`byInstance, store`nextStep, store`queue, store`nextQueue,
               store`instances,
               store`deadLetters, store`nextDeadLetter
      ensures store.View() == ToDlq(old(store.View()), i, rec, d, def, o)
    {
      hide Mark, Freeze;
      var ok := MarkStep(i, rec, d, def.steps, order, Paused, false, false, o);
      if !ok {
        return;
      }
      store.CreateDeadLetterRecord(rec, def.id);
      store.PauseActiveStepsAndClearQueue(i);
      var _ := store.UpdateInstanceStatus(i, WfDLQ);
    }

    /** The model's stopping step is the one the savepoint search found. */
    method FailStep(i: int, rec: StepRec, d: StepDef, def: Definition, order: seq<string>, ghost o: Choice)
      returns (ghost used: Choice)
      requires WellFormed(store.View()) && Runs(store.View(), i, def) && InHand(store.View(), i, rec)
               && o.order == order
      modifies store`joins, store`steps, store`byInstance, store`nextStep, store`queue, store`nextQueue,
               store`instances,
               store`deadLetters, store`nextDeadLetter
      ensures used == o.(stop := used.stop)
      ensures StopsRight(def, rec.name, o.stop) ==> StopsRight(def, rec.name, used.stop)
      ensures store.View() == FailFinally(old(store.View()), i, rec, d, def, used)
    {
      hide Mark, WellFormed, Tame, SkipAll, Siblings, SnapshotOf, SetInstance;
      ghost var s := store.View();
      var ok := MarkStep(i, rec, d, def.steps, order, Failed, true, false, o);
      used := o;
      MarkIgnoresStop(s, i, rec, d, def.steps, o);
      if !ok {
        return;
      }
      MarkTame(s, i, rec, d, def, o, Failed, true, false);
      TameKeyed(s, store.View(), i, def.steps);
      assert rec.id in store.steps by {
        TameHas(s, store.View(), i, def.steps, rec.id);
      }
      ghost var m := store.View();
      StopParallelBranchesInFork(i, rec.name, def.steps, order);
      SkipKeyed(m, Siblings(m, i, rec.name, def.steps, order));
      ghost var u := store.View();
      var _, e, log := RollbackToSavePointOrRoot(store, i, rec, def);
      used := o.(stop := e.stop);
      assert e == Env(def.steps, e.stop, e.recs);
      RollBackIs(u, i, rec, def, e, log);
      var _ := store.UpdateInstanceStatus(i, WfFailed);
    }

    method HandleStepFailure(i: int, rec: StepRec, d: StepDef, def: Definition, order: seq<string>, ghost o: Choice)
      returns (ghost used: Choice)
      requires WellFormed(store.View()) && Runs(store.View(), i, def) && InHand(store.View(), i, rec)
               && o.order == order
      modifies store`joins, store`steps, store`byInstance, store`nextStep, store`queue, store`nextQueue,
               store`instances,
               store`deadLetters, store`nextDeadLetter
      ensures used == o.(stop := used.stop)
      ensures StopsRight(def, rec.name, o.stop) ==> StopsRight(def, rec.name, used.stop)
      ensures store.View() == HandleFailure(old(store.View()), i, rec, d, def, used)
    {
      hide ToDlq, FailFinally, WellFormed, StopsRight;
      if (rec.retryCount == 0 && d.maxRetries > 0)
         || (rec.retryCount > 0 && rec.retryCount < rec.maxRetries && !d.noIdempotent) {
        var _ := store.UpdateStep(rec.id, Failed);
        store.EnqueueStep(i, rec.id, PRIORITY_HIGH, d.delay);
        return o;
      }
      if def.dlqEnabled {
        ToDeadLetters(i, rec, d, def, order, o);
        return o;
      }
      used := FailStep(i, rec, d, def, order, o);
    }

    // ---------------------------------------------------------------- cancellation

    method StopActiveSteps(i: int)
      requires WellKeyed(store.View())
      modifies store`steps
      ensures store.View() == SkipAll(old(store.View()), ActiveIds(old(store.View()), i))
    {
      hide SkipAll, ActiveIds, ActiveOf, StepsOf;
      ghost var s := store.View();
      ghost var ids: set<int> := {};
      SkipNone(s);
      var recs := store.GetActiveStepsForUpdate(i);
      KeyedRecords(s, i);
      ActiveAre(s, i, recs);
      for k := 0 to |recs|
        invariant store.View() == SkipAll(s, ids) && ids <= ActiveIds(s, i)
        invariant forall l | 0 <= l < k :: recs[l].id in ids
      {
        assert recs[k] in recs;
        ActiveRecord(s, i, recs[k]);
        SkipMore(s, ids, recs[k].id);
        var _ := store.UpdateStep(recs[k].id, Skipped);
        ids := ids + {recs[k].id};
      }
      forall id | id in ActiveIds(s, i)
        ensures id in ids
      {
        var l :| 0 <= l < |recs| && recs[l].id == id;
      }
      assert ids == ActiveIds(s, i);
    }

    method FindLastCompleted(recs: seq<StepRec>) returns (last: Option<string>)
      ensures last == LastCompleted(recs)
    {
      var k := |recs|;
      assert recs[..k] == recs;
      while k > 0
        invariant 0 <= k <= |recs| && LastCompleted(recs) == LastCompleted(recs[..k])
      {
        assert recs[..k][..k - 1] == recs[..k - 1];
        k := k - 1;
        if recs[k].status == Completed {
          return Some(recs[k].name);
        }
      }
      return None;
    }

    /** The rollback of the last completed step to the root. */
    method RollbackLastCompleted(i: int, def: Definition) returns (ok: bool)
      requires WellKeyed(store.View())
      modifies store`steps, store`queue, store`nextQueue, store`deadLetters, store`nextDeadLetter
      ensures var s := old(store.View());
              var last := LastCompleted(StepsOf(s, i));
              (store.View(), ok) == if last.None? then (s, true)
                else RollBack(s, ByName(StepsOf(s, i)), def, last.value, ROOT_STEP)
    {
      ghost var s := store.View();
      KeyedRecords(s, i);
      var recs := store.GetStepsByInstance(i);
      var byName := CollectByName(recs);
      var last := FindLastCompleted(recs);
      hide StepsOf, ByName, LastCompleted, WalkChain, RollbackAll;
      if last.None? {
        return true;
      }
      var e := Env(def.steps, ROOT_STEP, byName);
      assert RollbackAll(s, e, [], def.id) == s by {
        NothingLogged(s, e, def.id);
      }
      var v := new Trail();
      ok := RollbackChain(store, e, def.id, last.value, false, v, s);
    }

    method HandleCancellation(i: int, def: Definition, kind: CancelType)
      requires WellFormed(store.View()) && Runs(store.View(), i, def)
      modifies store`steps, store`queue, store`nextQueue, store`deadLetters, store`nextDeadLetter, store`instances,
               store`cancels
      ensures store.View() == Engine.HandleCancellation(old(store.View()), i, def, kind)
    {
      hide RollBack, LastCompleted, SkipAll, ActiveIds;
      assert WellKeyed(store.View()) by {
        hide Store.IdsOf;
      }
      ghost var s := store.View();
      StopActiveSteps(i);
      SkipKeyed(s, ActiveIds(s, i));
      if kind == CancelRun {
        var _ := store.UpdateInstanceStatus(i, WfCancelling);
        var ok := RollbackLastCompleted(i, def);
        var _ := store.UpdateInstanceStatus(i, if ok then WfCancelled else WfFailed);
      } else {
        var _ := store.UpdateInstanceStatus(i, WfAborted);
      }
      store.DeleteCancelRequest(i);
    }

    // ---------------------------------------------------------------- execution

    /** success and taken are the results of a handler and of a condition. */
    method ExecuteStep(i: int, rec: StepRec, d: StepDef, def: Definition, success: bool, taken: bool,
                       order: seq<string>,
                       ghost o: Choice) returns (ghost used: Choice)
      requires WellFormed(store.View()) && Runs(store.View(), i, def) && d.kind != Human
      requires rec.id in store.steps && store.steps[rec.id] == rec && rec.instance == i && rec.status != Compensation
      requires o.handlers == handlers && o.success == success && o.taken == taken && o.order == order
      modifies store`joins, store`steps, store`byInstance, store`nextStep, store`queue, store`nextQueue,
               store`instances,
               store`deadLetters, store`nextDeadLetter, store`cancels
      ensures used == o.(stop := used.stop)
      ensures StopsRight(def, rec.name, o.stop) ==> StopsRight(def, rec.name, used.stop)
      ensures store.View() == Engine.ExecuteStep(old(store.View()), i, rec, d, def, used)
    {
      hide WellFormed, HandleSuccess, HandleFailure, RunFork, Engine.HandleCancellation, StopsRight, Local,
           JoinSucceeds, Tame, Runs,
           UpdateStep;
      used := o;
      if i in store.cancels {
        HandleCancellation(i, def, store.cancels[i]);
        return;
      }
      ghost var s := store.View();
      RunningWell(s, i, rec, def);
      var _ := store.UpdateStep(rec.id, Running);
      var ok, next := success, true;
      match d.kind {
        case Task => ok := d.handler in handlers && success;
        case SavePoint => ok := true;
        case Condition => next := taken;
        case Join => ok := ExecuteJoin(i, rec.name);
        case Fork | Parallel =>
          ghost var a := store.View();
          ok := ExecuteFork(i, def.steps, d);
          ForkTame(a, i, def, d, rec);
      }
      if ok {
        HandleStepSuccess(i, rec, d, def, next, order, o);
      } else {
        used := HandleStepFailure(i, rec, d, def, order, o);
      }
    }

    method ExecuteCompensationStep(i: int, rec: StepRec, d: StepDef, steps: Steps, success: bool, ghost o: Choice)
      requires rec.id in store.steps && o.handlers == handlers && o.success == success
      modifies store`steps, store`queue, store`nextQueue, store`instances
      ensures store.View() == ExecuteCompensation(old(store.View()), i, rec, d, steps, o)
    {
      if d.onFailure !in steps || steps[d.onFailure].handler !in handlers {
        var _ := store.UpdateStep(rec.id, RolledBack);
        return;
      }
      var c := steps[d.onFailure];
      if !success {
        if rec.compRetries < c.maxRetries {
          var count := rec.compRetries + 1;
          var _ := store.UpdateStepCompensationRetry(rec.id, count, Compensation);
          var delay := CalculateRetryDelay(c.retryStrategy, c.retryDelay, count);
          if delay == 0.0 {
            delay := c.delay;
          }
          store.EnqueueStep(rec.instance, rec.id, PRIORITY_HIGH, delay);
        } else {
          var _ := store.UpdateStep(rec.id, Failed);
        }
        return;
      }
      var _ := store.UpdateStep(rec.id, RolledBack);
      var unfinished := HasStep(i, {Pending, Running, Paused});
      var compensating := HasStep(i, {Compensation});
      if !unfinished && !compensating {
        var failed := HasStep(i, {Failed, RolledBack});
        if failed {
          var _ := store.UpdateInstanceStatus(i, WfFailed);
        }
      }
    }

    /** The record with the given id among the instance's steps. */
    method FindStep(i: int, id: int) returns (rec: StepRec)
      requires WellKeyed(store.View()) && id in store.steps && id in IdsOf(store.View(), i)
      ensures rec == store.steps[id]
    {
      var recs := store.GetStepsByInstance(i);
      KeyedRecords(store.View(), i);
      PresentHas(store.steps, IdsOf(store.View(), i), id);
      var k := 0;
      while recs[k].id != id
        invariant 0 <= k < |recs| && forall l | 0 <= l < k :: recs[l].id != id
        decreases |recs| - k
      {
        assert store.steps[id] in recs;
        k := k + 1;
      }
      assert recs[k] in recs;
      rec := recs[k];
    }

    /** A claimed item whose handler this engine lacks goes back to the queue. */
    method ReturnItem(q: int, cooldown: real)
      modifies store`queue
      ensures store.View() == HandBack(old(store.View()), q, cooldown)
    {
      if cooldown > 0.0 {
        var _ := store.RescheduleAndReleaseQueueItem(q, cooldown);
      } else {
        var _ := store.ReleaseQueueItem(q);
      }
    }

    method DispatchStep(q: int, i: int, rec: StepRec, success: bool, taken: bool, cooldown: real, order: seq<string>,
                        ghost o: Choice)
      returns (ghost used: Choice)
      requires WellFormed(store.View()) && Defined(store.View(), i, rec.name)
               && Made(rec, DefinitionOf(store.View(), i).steps)
      requires rec.id in store.steps && store.steps[rec.id] == rec && rec.instance == i
      requires o.handlers == handlers && o.success == success && o.taken == taken && o.cooldown == cooldown
               && o.order == order
      modifies store`joins, store`steps, store`byInstance, store`nextStep, store`queue, store`nextQueue,
               store`instances,
               store`deadLetters, store`nextDeadLetter, store`cancels
      ensures used == o.(stop := used.stop)
      ensures var def := old(DefinitionOf(store.View(), i));
              StopsRight(def, rec.name, o.stop) ==> StopsRight(def, rec.name, used.stop)
      ensures old(NoHumans(store.View())) && store.View() == Dispatch(old(store.View()), q, i, rec, used)
    {
      ghost var s := store.View();
      DefinedStep(s, i, rec);
      assert NoHumans(s) by {
        hide StepsFiled, AllMade, ItemFiled;
      }
      hide WellFormed, NoHumans, ExecuteCompensation, Engine.ExecuteStep, HandBack, StopsRight, Made;
      used := o;
      if rec.status == Skipped || rec.status == Paused || rec.status == RolledBack {
        store.RemoveFromQueue(rec.id);
        store.RemoveFromQueue(q);
        return;
      }
      var def := store.definitions[store.instances[i].workflow];
      var d := def.steps[rec.name];
      if rec.status == Compensation {
        if d.onFailure != "" && d.onFailure in def.steps && def.steps[d.onFailure].handler !in handlers {
          ReturnItem(q, cooldown);
          return;
        }
        ExecuteCompensationStep(i, rec, d, def.steps, success, o);
      } else {
        if rec.kind == Task && d.handler !in handlers {
          ReturnItem(q, cooldown);
          return;
        }
        used := ExecuteStep(i, rec, d, def, success, taken, order, o);
      }
      store.RemoveFromQueue(q);
    }

    /** One execution: nothing when no item can be served, otherwise one transition of the
        engine model. */
    method ExecuteNext(success: bool, taken: bool, cooldown: real)
      returns (empty: bool, ghost q: int, ghost used: Choice)
      requires WellFormed(store.View())
      modifies store`joins, store`steps, store`byInstance, store`nextStep, store`queue, store`nextQueue,
               store`instances,
               store`deadLetters, store`nextDeadLetter, store`cancels
      ensures empty ==> store.View() == old(store.View())
      ensures empty ==> forall id | id in store.queue && Due(store.queue[id], store.clock) ::
                          Effective(store.queue[id], Aging(store.agingEnabled, store.agingRate), store.clock) < 0
      ensures !empty ==> Next(old(store.View()), NextOp(q, used), Aging(store.agingEnabled, store.agingRate),
                              store.View())
      ensures WellFormed(store.View())
    {
      ghost var s := store.View();
      used := Choice(handlers, cooldown, success, taken, [], ROOT_STEP);
      var item := store.DequeueStep();
      if item.None? {
        return true, 0, used;
      }
      empty, q := false, item.value;
      hide WellFormed, Execute, Permitted, NoHumans, Effective;
      used := ExecuteItem(item.value, success, taken, cooldown, s);
      assert Next(s, NextOp(q, used), Aging(store.agingEnabled, store.agingRate), store.View());
      NextWell(s, NextOp(q, used), Aging(store.agingEnabled, store.agingRate), store.View());
    }

    /** The execution of an item claimed in s. */
    method ExecuteItem(q: int, success: bool, taken: bool, cooldown: real, ghost s: State) returns (ghost used: Choice)
      requires WellFormed(s) && q in s.queue && store.View() == s.(queue := Claim(s.queue, q))
      modifies store`joins, store`steps, store`byInstance, store`nextStep, store`queue, store`nextQueue,
               store`instances,
               store`deadLetters, store`nextDeadLetter, store`cancels
      ensures NoHumans(s) && Permitted(s, q, used) && store.View() == Execute(s, q, used)
    {
      hide WellFormed, StopsRight, Execute, Dispatch, NoHumans, Made;
      Found(s, q);
      ClaimedWell(s, q);
      var i := store.queue[q].instance;
      var id := store.queue[q].step.value;
      DefinedStep(s, i, s.steps[id]);
      var order := IterationOrder(store.definitions[store.instances[i].workflow].steps);
      ghost var stop := SomeRightStop(DefinitionOf(s, i), s.steps[id].name);
      used := Choice(handlers, cooldown, success, taken, order, stop);
      if store.instances[i].status == WfDLQ {
        store.RemoveFromQueue(q);
      } else {
        var rec := FindStep(i, id);
        used := DispatchStep(q, i, rec, success, taken, cooldown, order, used);
      }
      ExecuteIs(s, q, used);
    }

    method ValidateForStart(def: Definition) returns (ok: bool)
      ensures ok <==> Acceptable(def)
    {
      if def.name == "" || def.start == "" || def.start !in def.steps {
        return false;
      }
      ok := V.ValidateDefinition(def.steps, def.start);
    }

    method CreateRunning(workflow: string) returns (i: int)
      requires store.nextInstance !in store.instances
      modifies store`instances, store`nextInstance
      ensures store.View() == WithInstance(old(store.View()), workflow) && i == old(store.nextInstance)
              && i in store.instances
    {
      ghost var was := store.instances;
      i := store.CreateInstance(workflow);
      var _ := store.UpdateInstanceStatus(i, WfRunning);
      assert store.instances == was[i := Instance(workflow, WfRunning)];
    }

    /** A new instance with its first step, if the definition exists and is valid. */
    method Start(workflow: string) returns (r: Option<int>)
      requires WellFormed(store.View())
      modifies store`instances, store`nextInstance, store`steps, store`byInstance, store`nextStep, store`queue,
               store`nextQueue
      ensures Next(old(store.View()), StartOp(workflow, r.Some?), Aging(store.agingEnabled, store.agingRate),
                   store.View())
      ensures r.Some? <==> workflow in store.definitions && Acceptable(store.definitions[workflow])
      ensures r.Some? ==> r.value in store.instances && r.value !in old(store.instances)
      ensures WellFormed(store.View())
    {
      hide WellFormed, EnqueueNext, Acceptable, Engine.Start, WithInstance;
      ghost var s := store.View();
      var accepted := false;
      if workflow in store.definitions {
        accepted := ValidateForStart(store.definitions[workflow]);
      }
      if !accepted {
        NotStarted(s, workflow, false);
        NextWell(s, StartOp(workflow, false), Aging(store.agingEnabled, store.agingRate), store.View());
        return None;
      }
      WithInstanceWell(s, workflow);
      var def := store.definitions[workflow];
      var i := CreateRunning(workflow);
      AcceptedStart(def);
      StartUnfold(s, workflow, true);
      var _ := EnqueueNextSteps(i, def.steps, [def.start], false);
      NextWell(s, StartOp(workflow, true), Aging(store.agingEnabled, store.agingRate), store.View());
      r := Some(i);
    }

    /** False stands for an unknown instance or one that has ended. */
    method RequestCancel(i: int, kind: CancelType) returns (ok: bool)
      requires WellFormed(store.View())
      modifies store`cancels
      ensures Next(old(store.View()), CancelOp(i, kind), Aging(store.agingEnabled, store.agingRate), store.View())
      ensures ok ==> i in store.cancels
      ensures WellFormed(store.View())
    {
      ghost var s := store.View();
      hide WellFormed;
      ok := i in store.instances && store.instances[i].status !in {WfCompleted, WfFailed, WfCancelled, WfAborted};
      if ok {
        store.CreateCancelRequest(i, kind);
      }
      NextWell(s, CancelOp(i, kind), Aging(store.agingEnabled, store.agingRate), store.View());
    }
  }

  lemma AcceptedStart(def: Definition)
    requires Acceptable(def)
    ensures Link(def.start) == [def.start]
  {
  }

  /** Marking a step does not depend on where a rollback would stop. */
  lemma MarkIgnoresStop(s: State, i: int, rec: StepRec, d: StepDef, steps: Steps, o: Choice)
    ensures forall stop ::
              Mark(s, i, rec, d, steps, o.(stop := stop), Failed, true, false) ==
              Mark(s, i, rec, d, steps, o, Failed, true, false)
  {
    hide Settle, NotifyAll;
  }

  lemma SomeRightStop(def: Definition, name: string) returns (stop: string)
    ensures StopsRight(def, name, stop)
  {
    stop := SomeStop(def.steps, name);
  }

  lemma ClaimedWell(s: State, q: int)
    requires WellFormed(s) && q in s.queue
    ensures WellFormed(s.(queue := Claim(s.queue, q))) && WellKeyed(s.(queue := Claim(s.queue, q)))
  {
    hide WellFormed, Tame;
    var c := s.(queue := Claim(s.queue, q));
    RequeueTame(s, c, s.queue[q].instance, map[]);
    TameWell(s, c, s.queue[q].instance, map[]);
    hide Local;
    TameKeyed(s, c, s.queue[q].instance, map[]);
  }

  /** The dispatcher after the claim is the execution of the item. */
  lemma ExecuteIs(s: State, q: int, o: Choice)
    requires WellFormed(s) && q in s.queue
    ensures var c := s.(queue := Claim(s.queue, q));
            var i := s.queue[q].instance;
            && NoHumans(s) && NoHumans(c) && s.queue[q].step.Some? && s.queue[q].step.value in s.steps
            && Execute(s, q, o) == if IsDlq(s, i) then Remove(c, q)
              else Dispatch(c, q, i, s.steps[s.queue[q].step.value], o)
  {
    Found(s, q);
    hide WellFormed, Dispatch;
  }

  lemma TameKeyed(s: State, r: State, i: int, steps: Steps)
    requires Tame(s, r, i, steps)
    ensures WellKeyed(r)
  {
    assert WellFormed(r);
    hide AllMade, ItemFiled, Local, IdsOf;
  }

  lemma TameHas(s: State, r: State, i: int, steps: Steps, id: int)
    requires Tame(s, r, i, steps) && id in s.steps
    ensures id in r.steps
  {
  }

  lemma SkipKeyed(s: State, ids: set<int>)
    requires WellKeyed(s)
    ensures WellKeyed(SkipAll(s, ids)) && SkipAll(s, ids).steps.Keys == s.steps.Keys
  {
  }

  /** The pending or running records in the branches of the fork, other than the failed step. */
  ghost predicate IsSibling(r: StepRec, name: string, steps: Steps, fork: string)
    requires fork in steps
  {
    r.name != name && (r.status == Pending || r.status == Running) && InBranch(steps, steps[fork], r.name)
  }

  ghost function SiblingIds(recs: seq<StepRec>, name: string, steps: Steps, fork: string): set<int>
    requires fork in steps
  {
    set r | r in recs && IsSibling(r, name, steps, fork) :: r.id
  }

  lemma SiblingMore(recs: seq<StepRec>, k: nat, name: string, steps: Steps, fork: string)
    requires fork in steps && k < |recs|
    ensures SiblingIds(recs[..k + 1], name, steps, fork) ==
            SiblingIds(recs[..k], name, steps, fork) + if IsSibling(recs[k], name, steps, fork) then {recs[k].id}
              else {}
  {
    hide IsSibling;
    assert forall r :: r in recs[..k + 1] <==> r in recs[..k] || r == recs[k];
    assert recs[k] in recs[..k + 1];
  }

  lemma SiblingRecord(s: State, i: int, rec: StepRec)
    requires WellKeyed(s) && rec in StepsOf(s, i)
    ensures rec.id in s.steps && s.steps[rec.id] == rec && rec.id in IdsOf(s, i)
  {
    var id :| id in IdsOf(s, i) && id in s.steps && s.steps[id] == rec;
    assert rec.id == id;
  }

  /** The loop's ids are the model's siblings. */
  lemma SiblingsAre(s: State, i: int, name: string, steps: Steps, order: seq<string>)
    requires WellKeyed(s)
    ensures var fork := ForkOf(steps, order, name);
            fork != "" && fork in steps ==>
              SiblingIds(StepsOf(s, i), name, steps, fork) == Siblings(s, i, name, steps, order)
  {
    var fork := ForkOf(steps, order, name);
    hide InBranch, ForkOf;
    if fork != "" && fork in steps {
      var recs := StepsOf(s, i);
      forall id | id in SiblingIds(recs, name, steps, fork)
        ensures id in Siblings(s, i, name, steps, order)
      {
        var r :| r in recs && IsSibling(r, name, steps, fork) && r.id == id;
        SiblingRecord(s, i, r);
      }
      forall id | id in Siblings(s, i, name, steps, order)
        ensures id in SiblingIds(recs, name, steps, fork)
      {
        PresentHas(s.steps, IdsOf(s, i), id);
        assert s.steps[id] in recs && IsSibling(s.steps[id], name, steps, fork);
      }
    }
  }

  /** The rollback method does what the model calls the rollback. */
  lemma RollBackIs(u: State, i: int, rec: StepRec, def: Definition, e: Env, log: seq<string>)
    requires e.recs == SnapshotOf(u, i, rec) && e == Env(def.steps, e.stop, e.recs) && Loggable(e, log)
    requires WalkChain(e, rec.name, false, Walk({}, [], true)).log == log
    ensures (forall x | x in e.recs :: e.recs[x].name == x)
            && RollBack(u, SnapshotOf(u, i, rec), def, rec.name, e.stop).0 == RollbackAll(u, e, log, def.id)
  {
    hide WalkChain;
  }

  lemma KeyedRecords(s: State, i: int)
    requires WellKeyed(s)
    ensures forall r | r in StepsOf(s, i) :: r.id in s.steps && s.steps[r.id] == r
  {
    forall r | r in StepsOf(s, i)
      ensures r.id in s.steps && s.steps[r.id] == r
    {
      var id :| id in IdsOf(s, i) && id in s.steps && s.steps[id] == r;
    }
  }

  lemma ActiveRecord(s: State, i: int, rec: StepRec)
    requires WellKeyed(s) && rec in StepsOf(s, i) && IsActive(rec.status)
    ensures rec.id in ActiveIds(s, i) && rec.id in s.steps
  {
    SiblingRecord(s, i, rec);
  }
}
