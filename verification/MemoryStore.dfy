/** The in-memory store: a class of maps and counters changed in place. */
module MemoryStores {
  import opened Definitions
  import opened Store
  import opened Queue
  import opened Joins
  import opened JoinStores

  /** The two halves of a freeze. */
  lemma StepsFrozen(s: State, i: int, steps: map<int, StepRec>)
    requires steps.Keys == s.steps.Keys
    requires forall id | id in s.steps ::
               steps[id] == if id in IdsOf(s, i) && s.steps[id].status == Running then s.steps[id].(status := Paused)
                 else s.steps[id]
    ensures steps == Freeze(s, i).steps
  {
    var f := Freeze(s, i).steps;
    assert f.Keys == steps.Keys;
    assert forall id | id in steps :: f[id] == steps[id];
  }

  lemma QueueFrozen(s: State, i: int, queue: map<int, QueueItem>)
    requires forall q | q in queue :: q in s.queue && queue[q] == s.queue[q]
    requires forall q | q in s.queue :: q in queue <==> s.queue[q].instance != i
    ensures queue == Freeze(s, i).queue
  {
    var f := Freeze(s, i).queue;
    assert forall q :: q in f <==> q in queue;
    assert forall q | q in f :: f[q] == queue[q];
  }

  class MemoryStore {
    var definitions: map<string, Definition>
    var instances: map<int, Instance>
    var steps: map<int, StepRec>
    var byInstance: map<int, seq<int>>
    var queue: map<int, QueueItem>
    var deadLetters: map<int, DeadLetter>
    var cancels: map<int, CancelType>
    var joins: map<(int, string), JoinState>
    var nextInstance: int
    var nextStep: int
    var nextQueue: int
    var nextDeadLetter: int
    var clock: real
    var agingEnabled: bool
    var agingRate: real

    ghost function View(): State
      reads this
    {
      State(definitions, instances, steps, byInstance, queue, deadLetters, cancels, joins,
            nextInstance, nextStep, nextQueue, nextDeadLetter, clock)
    }

    constructor ()
      ensures View() == State(map[], map[], map[], map[], map[], map[], map[], map[], 1, 1, 1, 1, 0.0)
      ensures agingEnabled && agingRate == 0.5
    {
      definitions, instances, steps, byInstance := map[], map[], map[], map[];
      queue, deadLetters, cancels, joins := map[], map[], map[], map[];
      nextInstance, nextStep, nextQueue, nextDeadLetter := 1, 1, 1, 1;
      clock := 0.0;
      agingEnabled, agingRate := true, 0.5;
    }

    /** False stands for the entity-not-found error. */
    method UpdateStep(id: int, status: StepStatus) returns (found: bool)
      modifies this`steps
      ensures found == (id in old(steps))
      ensures View() == Store.UpdateStep(old(View()), id, status)
    {
      found := id in steps;
      if found {
        var r := steps[id];
        r := r.(status := status);
        if status == Failed {
          r := r.(retryCount := r.retryCount + 1);
        }
        steps := steps[id := r];
      }
    }

    method UpdateStepCompensationRetry(id: int, count: int, status: StepStatus) returns (found: bool)
      modifies this`steps
      ensures found == (id in old(steps))
      ensures View() == Store.UpdateStepCompensationRetry(old(View()), id, count, status)
    {
      found := id in steps;
      if found {
        steps := steps[id := steps[id].(compRetries := count, status := status)];
      }
    }

    method EnqueueStep(instance: int, step: int, priority: int, delay: real)
      modifies this`queue, this`nextQueue
      ensures View() == Enqueue(old(View()), instance, step, priority, delay)
    {
      queue := queue[nextQueue := QueueItem(instance, Some(step), clock + delay, priority, false)];
      nextQueue := nextQueue + 1;
    }

    method CreateDeadLetterRecord(rec: StepRec, workflow: string)
      modifies this`deadLetters, this`nextDeadLetter
      ensures View() == CreateDeadLetter(old(View()), rec, workflow)
    {
      deadLetters := deadLetters[nextDeadLetter := DeadLetter(rec.instance, workflow, rec.id, rec.name)];
      nextDeadLetter := nextDeadLetter + 1;
    }

    method GetStepsByInstance(instance: int) returns (recs: seq<StepRec>)
      ensures recs == StepsOf(View(), instance)
    {
      recs := [];
      if instance !in byInstance {
        return;
      }
      var ids := byInstance[instance];
      for i := 0 to |ids|
        invariant recs == Present(steps, ids[..i])
      {
        assert ids[..i + 1][..i] == ids[..i];
        if ids[i] in steps {
          recs := recs + [steps[ids[i]]];
        }
      }
      assert ids[..|ids|] == ids;
    }

    // ---------------------------------------------------------------- instances

    method CreateInstance(workflow: string) returns (i: int)
      modifies this`instances, this`nextInstance
      ensures i == old(nextInstance) && nextInstance == i + 1
      ensures instances == old(instances)[i := Instance(workflow, WfPending)]
    {
      i := nextInstance;
      instances := instances[i := Instance(workflow, WfPending)];
      nextInstance := nextInstance + 1;
    }

    /** False stands for the entity-not-found error. */
    method UpdateInstanceStatus(i: int, status: WorkflowStatus) returns (found: bool)
      modifies this`instances
      ensures found == (i in old(instances)) && View() == SetInstance(old(View()), i, status)
    {
      found := i in instances;
      if found {
        instances := instances[i := instances[i].(status := status)];
      }
    }

    method CreateCancelRequest(i: int, kind: CancelType)
      modifies this`cancels
      ensures cancels == if i in old(cancels) then old(cancels) else old(cancels)[i := kind]
    {
      if i in cancels {
        return;
      }
      cancels := cancels[i := kind];
    }

    method DeleteCancelRequest(i: int)
      modifies this`cancels
      ensures View() == ForgetCancel(old(View()), i)
    {
      cancels := cancels - {i};
    }

    // ---------------------------------------------------------------- steps

    method CreateStep(i: int, name: string, kind: StepType, status: StepStatus, maxRetries: int) returns (id: int)
      modifies this`steps, this`byInstance, this`nextStep
      ensures id == old(nextStep) && View() == Store.CreateStep(old(View()), i, name, kind, status, maxRetries)
    {
      id := nextStep;
      nextStep := nextStep + 1;
      steps := steps[id := StepRec(id, i, name, kind, status, 0, maxRetries, 0)];
      var ids := if i in byInstance then byInstance[i] else [];
      byInstance := byInstance[i := ids + [id]];
    }

    /** The instance's steps that are pending, running or waiting for a decision, newest first. */
    method GetActiveStepsForUpdate(i: int) returns (recs: seq<StepRec>)
      ensures recs == ActiveOf(StepsOf(View(), i))
    {
      recs := [];
      if i !in byInstance {
        return;
      }
      var ids := byInstance[i];
      for k := 0 to |ids|
        invariant recs == ActiveOf(Present(steps, ids[..k]))
      {
        assert ids[..k + 1][..k] == ids[..k];
        if ids[k] in steps && IsActive(steps[ids[k]].status) {
          recs := [steps[ids[k]]] + recs;
        }
      }
      assert ids[..|ids|] == ids;
    }

    method PauseActiveStepsAndClearQueue(i: int)
      modifies this`steps, this`queue
      ensures View() == Freeze(old(View()), i)
    {
      PauseSteps(i);
      ClearItems(i);
      QueueFrozen(old(View()), i, queue);
    }

    method ClearItems(i: int)
      modifies this`queue
      ensures forall q | q in queue :: q in old(queue) && queue[q] == old(queue)[q]
      ensures forall q | q in old(queue) :: q in queue <==> old(queue)[q].instance != i
    {
      var rest := queue.Keys;
      while rest != {}
        invariant rest <= old(queue).Keys
        invariant forall q | q in queue :: q in old(queue) && queue[q] == old(queue)[q]
        invariant forall q | q in old(queue) :: q in queue <==> q in rest || old(queue)[q].instance != i
        decreases rest
      {
        ghost var some := AnyOf(rest);
        var q :| q in rest;
        rest := rest - {q};
        if queue[q].instance == i {
          queue := queue - {q};
        }
      }
    }

    method PauseSteps(i: int)
      modifies this`steps
      ensures steps == Freeze(old(View()), i).steps
    {
      ghost var s := View();
      if i in byInstance {
        var ids := byInstance[i];
        for k := 0 to |ids|
          invariant steps.Keys == s.steps.Keys
          invariant forall id | id in s.steps ::
                      steps[id] == if id in ids[..k] && s.steps[id].status == Running then
                        s.steps[id].(status := Paused)
                                   else s.steps[id]
        {
          if ids[k] in steps && steps[ids[k]].status == Running {
            steps := steps[ids[k] := steps[ids[k]].(status := Paused)];
          }
        }
        assert ids[..|ids|] == ids;
      }
      StepsFrozen(s, i, steps);
    }

    // ---------------------------------------------------------------- queue

    /** Claims a due item of the highest effective priority; for every order in which the map
        is visited. */
    method DequeueStep() returns (r: Option<int>)
      modifies this`queue
      ensures r.Some? ==> Picked(old(queue), Aging(agingEnabled, agingRate), clock, r.value)
                          && queue == Claim(old(queue), r.value)
      ensures r.None? ==> queue == old(queue)
                          && forall id | id in queue && Due(queue[id], clock) ::
                              Effective(queue[id], Aging(agingEnabled, agingRate), clock) < 0
    {
      r := SelectItem(queue, Aging(agingEnabled, agingRate), clock);
      if r.Some? {
        queue := queue[r.value := queue[r.value].(attempted := true)];
      }
    }

    method RemoveFromQueue(q: int)
      modifies this`queue
      ensures View() == Remove(old(View()), q)
    {
      queue := queue - {q};
    }

    /** False stands for the entity-not-found error. */
    method ReleaseQueueItem(q: int) returns (found: bool)
      modifies this`queue
      ensures found == (q in old(queue)) && queue == Release(old(queue), q)
    {
      found := q in queue;
      if found {
        queue := queue[q := queue[q].(attempted := false)];
      }
    }

    method RescheduleAndReleaseQueueItem(q: int, delay: real) returns (found: bool)
      modifies this`queue
      ensures found == (q in old(queue)) && queue == Reschedule(old(queue), q, clock + delay)
    {
      found := q in queue;
      if found {
        var at := clock + delay;
        if at < queue[q].scheduledAt {
          at := queue[q].scheduledAt;
        }
        queue := queue[q := queue[q].(scheduledAt := at, attempted := false)];
      }
    }

    // ---------------------------------------------------------------- joins

    /** Every method below is one operation of the join protocol on one join. */
    method CreateJoinState(i: int, join: string, waitingFor: seq<string>, strategy: Option<JoinStrategy>)
      modifies this`joins
      ensures View() == JoinStep(old(View()), i, join, CreateOp(waitingFor, strategy))
    {
      if (i, join) in joins {
        assert joins[(i, join) := joins[(i, join)]] == joins;
        return;
      }
      var st := if strategy.None? then All else strategy.value;
      joins := joins[(i, join) := JoinState(waitingFor, [], [], st, false)];
    }

    /** False in found stands for the entity-not-found error. */
    method UpdateJoinState(i: int, join: string, step: string, success: bool) returns (found: bool, ready: bool)
      modifies this`joins
      ensures found == ((i, join) in old(joins))
      ensures View() == JoinStep(old(View()), i, join, NotifyOp(step, success))
      ensures ready <==> found && joins[(i, join)].isReady
    {
      if (i, join) !in joins {
        return false, false;
      }
      var j := joins[(i, join)];
      if success {
        var already := Contains(j.completed, step);
        if !already {
          j := j.(completed := j.completed + [step]);
        }
        var rest := RemoveFirst(j.failed, step);
        j := j.(failed := rest);
      } else {
        var already := Contains(j.failed, step);
        if !already {
          j := j.(failed := j.failed + [step]);
        }
        var rest := RemoveFirst(j.completed, step);
        j := j.(completed := rest);
      }
      j := j.(isReady := CheckReady(j.waitingFor, j.completed, j.failed, j.strategy));
      joins := joins[(i, join) := j];
      return true, j.isReady;
    }

    method AddToJoinWaitFor(i: int, join: string, step: string)
      modifies this`joins
      ensures View() == JoinStep(old(View()), i, join, AddOp(step))
    {
      if (i, join) !in joins {
        CreateJoinState(i, join, [step], Some(All));
        return;
      }
      var j := joins[(i, join)];
      var already := Contains(j.waitingFor, step);
      if already {
        assert joins[(i, join) := j] == joins;
        return;
      }
      j := j.(waitingFor := j.waitingFor + [step]);
      j := j.(isReady := CheckReady(j.waitingFor, j.completed, j.failed, j.strategy));
      joins := joins[(i, join) := j];
    }

    /** The status of the real step is that of the oldest step of its name. */
    method ReplaceInJoinWaitFor(i: int, join: string, virtual: string, real_: string)
      modifies this`joins
      ensures View() ==
              JoinStep(old(View()), i, join, ReplaceOp(virtual, real_, OldestStatus(StepsOf(old(View()), i), real_)))
    {
      if (i, join) !in joins {
        CreateJoinState(i, join, [real_], Some(All));
        return;
      }
      var j := joins[(i, join)];
      var waitingFor := ReplaceFirst(j.waitingFor, virtual, real_);
      j := j.(waitingFor := waitingFor);
      var status := StatusOf(i, real_);
      if status.Some? {
        var inCompleted := Contains(j.completed, real_);
        var inFailed := Contains(j.failed, real_);
        if !inCompleted && !inFailed {
          if status.value == Completed {
            j := j.(completed := j.completed + [real_]);
          } else if status.value == Failed || status.value == RolledBack {
            j := j.(failed := j.failed + [real_]);
          }
        }
      }
      j := j.(isReady := CheckReady(j.waitingFor, j.completed, j.failed, j.strategy));
      joins := joins[(i, join) := j];
    }

    method StatusOf(i: int, name: string) returns (status: Option<StepStatus>)
      ensures status == OldestStatus(StepsOf(View(), i), name)
    {
      var recs := GetStepsByInstance(i);
      for k := 0 to |recs|
        invariant OldestStatus(recs, name) == OldestStatus(recs[k..], name)
      {
        assert recs[k..][1..] == recs[k + 1..];
        if recs[k].name == name {
          return Some(recs[k].status);
        }
      }
      return None;
    }

    /** None stands for the entity-not-found error. */
    method GetJoinState(i: int, join: string) returns (state: Option<JoinState>)
      ensures state == JoinAt(View(), i, join)
    {
      state := if (i, join) in joins then Some(joins[(i, join)]) else None;
    }
  }
}
