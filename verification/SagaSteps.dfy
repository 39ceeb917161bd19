/** Every execution of an item of a linear instance keeps its saga invariant. */
module SagaSteps {
  import opened Definitions
  import opened Trees
  import opened Store
  import opened Queue
  import opened Rollback
  import opened RollbackTrees
  import opened RollbackExact
  import opened RollbackTheorems
  import opened RollbackEffects
  import opened RollbackEngine
  import opened Engine
  import opened EngineFrames
  import opened EngineTame
  import opened EngineSteps
  import opened EngineRuns
  import opened SagaChains
  import opened Sagas

  // ------------------------------------------------------------------ items

  lemma ItemsRemove(s: State, q: int, id: int)
    ensures ItemsFor(Remove(s, q), id) == ItemsFor(s, id) - {q}
  {
  }

  lemma ItemsEnqueue(s: State, i: int, x: int, priority: int, delay: real, id: int)
    requires s.nextQueue !in s.queue
    ensures ItemsFor(Enqueue(s, i, x, priority, delay), id) == ItemsFor(s, id) + if x == id then {s.nextQueue} else {}
  {
  }

  lemma Fresh(s: State)
    requires WellFormed(s)
    ensures s.nextQueue !in s.queue && s.nextStep !in s.steps && ItemsFor(s, s.nextStep) == {}
    ensures forall i :: s.nextStep !in IdsOf(s, i)
  {
    assert s.nextQueue !in s.queue && s.nextStep !in s.steps by {
      hide AllMade, ItemFiled;
    }
    forall q | q in ItemsFor(s, s.nextStep)
      ensures false
    {
      ItemOwner(s, q, s.nextStep);
    }
    forall i
      ensures s.nextStep !in IdsOf(s, i)
    {
      FrozenAreOwn(s, i);
    }
  }

  lemma IdsDistinct(s: State, i: int)
    requires WellFormed(s)
    ensures forall k, l | 0 <= k < |IdsOf(s, i)| && 0 <= l < |IdsOf(s, i)| && k != l :: IdsOf(s, i)[k] != IdsOf(s, i)[l]
    ensures forall k | 0 <= k < |IdsOf(s, i)| :: IdsOf(s, i)[k] in s.steps && s.steps[IdsOf(s, i)[k]].id == IdsOf(s,
                                                                                                                  i)[k]
  {
    hide AllMade, ItemFiled;
    assert Increasing(IdsOf(s, i));
    FrozenAreOwn(s, i);
    var ids := IdsOf(s, i);
    forall k | 0 <= k < |ids|
      ensures ids[k] in s.steps && s.steps[ids[k]].id == ids[k]
    {
      assert ids[k] in ids;
    }
  }

  // ------------------------------------------------------------------ which item it is

  /** The claimed item q belongs to step k of the chain. */
  ghost predicate AtStep(s: State, i: int, q: int, k: nat) {
    && WellFormed(s) && q in s.queue && s.queue[q].instance == i && k < |IdsOf(s, i)|
    && s.queue[q].step == Some(IdsOf(s, i)[k])
  }

  lemma WhichStep(s: State, i: int, q: int) returns (k: nat)
    requires WellFormed(s) && q in s.queue && s.queue[q].instance == i
    ensures AtStep(s, i, q, k)
  {
    Found(s, q);
    k :| 0 <= k < |IdsOf(s, i)| && IdsOf(s, i)[k] == s.queue[q].step.value;
  }

  lemma NotIdle(s: State, q: int, id: int)
    requires q in s.queue && s.queue[q].step == Some(id)
    ensures q in ItemsFor(s, id) && !Done(s, id) && (Waiting1(s, id) ==> ItemsFor(s, id) == {q})
  {
    assert q in ItemsFor(s, id);
  }

  /** A queued step is the last one of a running saga, or one in compensation of a failed one. */
  lemma QueuedStep(s: State, i: int, def: Definition, chain: seq<string>, q: int, k: nat)
    requires Saga(s, i, def, chain) && AtStep(s, i, q, k)
    ensures var id := IdsOf(s, i)[k];
            && id in s.steps && ItemsFor(s, id) == {q}
            && (s.instances[i].status == WfRunning || s.instances[i].status == WfFailed)
            && (s.instances[i].status == WfRunning ==> k == |IdsOf(s, i)| - 1 && Active(s, id))
            && (s.instances[i].status == WfFailed ==>
                && Protected(def.steps, chain, |IdsOf(s, i)|) <= k
                && s.steps[id].status == Compensation && Undoing(s.steps[id], def.steps))
  {
    NotIdle(s, q, IdsOf(s, i)[k]);
    hide LinearFlow, Protected, WellFormed, IdsOf, ItemsFor;
  }

  // ------------------------------------------------------------------ the running saga moves on

  /** One step becomes id, the others keep record and items. */
  ghost predicate OthersKept(s: State, r: State, ids: seq<int>, k: nat) {
    forall l | 0 <= l < |ids| && l != k :: SameAt(s, r, ids[l])
  }

  lemma DoneElsewhere(s: State, r: State, ids: seq<int>, k: nat)
    requires OthersKept(s, r, ids, k)
    ensures forall l | 0 <= l < |ids| && l != k :: Done(s, ids[l]) ==> Done(r, ids[l])
    ensures forall l, steps | 0 <= l < |ids| && l != k :: Reverted(s, ids[l], steps) ==> Reverted(r, ids[l], steps)
  {
    forall l | 0 <= l < |ids| && l != k
      ensures Done(s, ids[l]) ==> Done(r, ids[l])
      ensures forall steps :: Reverted(s, ids[l], steps) ==> Reverted(r, ids[l], steps)
    {
      SameAtAll(s, r, ids[l]);
    }
  }

  /** The record of step id after it ran and got a status. */
  function Ran(s: State, id: int, status: StepStatus): State {
    UpdateStep(UpdateStep(s, id, Running), id, status)
  }

  lemma RanShape(s: State, id: int, status: StepStatus)
    requires id in s.steps
    ensures var u := Ran(s, id, status);
            && u == s.(steps := s.steps[id := u.steps[id]]) && u.steps[id].status == status
            && SameStep(s.steps[id], u.steps[id]) && u.steps[id].compRetries == s.steps[id].compRetries
  {
    var u := Ran(s, id, status);
    assert u.steps == s.steps[id := u.steps[id]];
  }

  lemma RetriedSaga(s: State, i: int, def: Definition, chain: seq<string>, q: int, k: nat, delay: real)
    requires Saga(s, i, def, chain) && AtStep(s, i, q, k) && s.instances[i].status == WfRunning && i !in s.cancels
    ensures Saga(Remove(Enqueue(Ran(s, IdsOf(s, i)[k], Failed), i, IdsOf(s, i)[k], PRIORITY_HIGH, delay), q), i, def,
                 chain)
  {
    hide WellFormed, LinearFlow, Ran, Protected, Saga, AtStep, ItemsFor, Enqueue;
    var ids := IdsOf(s, i);
    QueuedStep(s, i, def, chain, q, k);
    SagaFacts(s, i, def, chain);
    AtStepWell(s, i, q, k);
    var id := ids[k];
    Fresh(s);
    IdsDistinct(s, i);
    RanShape(s, id, Failed);
    var u := Ran(s, id, Failed);
    var r := Remove(Enqueue(u, i, id, PRIORITY_HIGH, delay), q);
    RetriedItems(s, u, i, id, q, delay);
    OthersNotQ(s, r, ids, q, k);
    LastActive(s, r, i, def, chain, k);
  }

  lemma AtStepWell(s: State, i: int, q: int, k: nat)
    requires AtStep(s, i, q, k)
    ensures WellFormed(s) && q in s.queue && k < |IdsOf(s, i)|
  {
  }

  /** The step gives up its item for a new one; nothing else changes. */
  lemma RetriedItems(s: State, u: State, i: int, id: int, q: int, delay: real)
    requires u == s.(steps := u.steps) && s.nextQueue !in s.queue && ItemsFor(s, id) == {q}
    ensures var r := Remove(Enqueue(u, i, id, PRIORITY_HIGH, delay), q);
            && r == u.(queue := r.queue, nextQueue := r.nextQueue) && IdsOf(r, i) == IdsOf(s, i) && Waiting1(r, id)
            && forall y :: ItemsFor(r, y) == if y == id then {s.nextQueue} else ItemsFor(s, y) - {q}
  {
    var v := Enqueue(u, i, id, PRIORITY_HIGH, delay);
    var r := Remove(v, q);
    assert q in ItemsFor(s, id);
    forall y
      ensures ItemsFor(r, y) == if y == id then {s.nextQueue} else ItemsFor(s, y) - {q}
    {
      ItemsEnqueue(u, i, id, PRIORITY_HIGH, delay, y);
      ItemsRemove(v, q, y);
      assert ItemsFor(u, y) == ItemsFor(s, y);
    }
    assert ItemsFor(r, id) == {s.nextQueue};
  }

  /** Only the items of step k change, so the other steps keep theirs. */
  lemma OthersNotQ(s: State, r: State, ids: seq<int>, q: int, k: nat)
    requires k < |ids| && ItemsFor(s, ids[k]) == {q} && forall l | 0 <= l < |ids| && l != k :: ids[l] != ids[k]
    requires forall l | 0 <= l < |ids| && l != k ::
               && (ids[l] in s.steps ==> ids[l] in r.steps && r.steps[ids[l]] == s.steps[ids[l]])
               && ItemsFor(r, ids[l]) == ItemsFor(s, ids[l]) - {q}
    ensures OthersKept(s, r, ids, k)
  {
    forall l | 0 <= l < |ids| && l != k
      ensures SameAt(s, r, ids[l])
    {
      assert q in ItemsFor(s, ids[k]);
      assert q !in ItemsFor(s, ids[l]);
    }
  }

  lemma LastActive(s: State, r: State, i: int, def: Definition, chain: seq<string>, k: nat)
    requires Saga(s, i, def, chain) && s.instances[i].status == WfRunning && k == |IdsOf(s, i)| - 1
    requires IdsOf(r, i) == IdsOf(s, i) && OthersKept(s, r, IdsOf(s, i), k) && Active(r, IdsOf(s, i)[k])
    requires r.steps[IdsOf(s, i)[k]].name == s.steps[IdsOf(s, i)[k]].name
    requires Runs(r, i, def) && r.instances[i] == s.instances[i] && i !in r.cancels
    ensures Saga(r, i, def, chain)
  {
    var ids := IdsOf(s, i);
    DoneElsewhere(s, r, ids, k);
    assert Prefix(r, ids, chain) by {
      hide LinearFlow, Done, Active, Reverted;
    }
    hide LinearFlow, IdsOf, Done, Active, Reverted, OthersKept, Protected;
  }

  /** What the invariant says without its phase. */
  lemma SagaFacts(s: State, i: int, def: Definition, chain: seq<string>)
    requires Saga(s, i, def, chain)
    ensures LinearFlow(def, chain) && Runs(s, i, def) && i in s.instances
    ensures i in s.cancels ==> s.instances[i].status == WfRunning
    ensures Prefix(s, IdsOf(s, i), chain)
  {
  }

  /** The next step is created and queued. */
  lemma AdvancedSaga(s: State, i: int, def: Definition, chain: seq<string>, q: int, k: nat, d: StepDef)
    requires Saga(s, i, def, chain) && AtStep(s, i, q, k) && s.instances[i].status == WfRunning && i !in s.cancels
             && k + 1 < |chain|
    ensures Saga(Remove(Spawn(Ran(s, IdsOf(s, i)[k], Completed), i, chain[k + 1], d), q), i, def, chain)
  {
    hide WellFormed, LinearFlow, Ran, Protected, Saga, Spawn, ItemsFor, IdsOf, Remove, Shaped, Prefix, Runs, Waiting1;
    QueuedStep(s, i, def, chain, q, k);
    AdvanceItems(s, i, chain[k + 1], d, q, k);
    AdvanceShape(s, i, chain[k + 1], d, q, IdsOf(s, i)[k]);
    AdvancedFrom(s, Remove(Spawn(Ran(s, IdsOf(s, i)[k], Completed), i, chain[k + 1], d), q), i, def, chain, q, k);
  }

  lemma AdvancedFrom(s: State, r: State, i: int, def: Definition, chain: seq<string>, q: int, k: nat)
    requires WellFormed(s) && Saga(s, i, def, chain) && s.instances[i].status == WfRunning && i !in s.cancels
    requires k == |IdsOf(s, i)| - 1 && k + 1 < |chain|
    requires ItemsFor(s, IdsOf(s, i)[k]) == {q} && IdsOf(s, i)[k] in s.steps
    requires s.steps[IdsOf(s, i)[k]].compRetries == 0
    requires Shaped(s, r, i, IdsOf(s, i)[k], chain[k + 1])
    requires ItemsFor(r, s.nextStep) == {s.nextQueue} && ItemsFor(r, IdsOf(s, i)[k]) == {}
    requires forall l | 0 <= l < |IdsOf(s, i)| :: ItemsFor(r, IdsOf(s, i)[l]) == ItemsFor(s, IdsOf(s, i)[l]) - {q}
    ensures Saga(r, i, def, chain)
  {
    var ids := IdsOf(s, i);
    hide WellFormed, LinearFlow, Protected, Saga, ItemsFor, IdsOf;
    SagaFacts(s, i, def, chain);
    IdsDistinct(s, i);
    OthersNotQ(s, r, ids, q, k);
    DoneElsewhere(s, r, ids, k);
    OneMore(s, r, i, def, chain, s.nextStep);
  }

  /** r has one more step, pending, and step id completed. */
  ghost predicate Shaped(s: State, r: State, i: int, id: int, name: string)
    requires id in s.steps
  {
    && IdsOf(r, i) == IdsOf(s, i) + [s.nextStep] && s.nextStep in r.steps
    && r.instances == s.instances && r.definitions == s.definitions && r.cancels == s.cancels
    && r.steps[s.nextStep].name == name && r.steps[s.nextStep].status == Pending
    && r.steps[s.nextStep].compRetries == 0
    && id in r.steps && r.steps[id].status == Completed && r.steps[id].name == s.steps[id].name
    && r.steps[id].compRetries == s.steps[id].compRetries
    && forall x | x in s.steps && x != id :: x in r.steps && r.steps[x] == s.steps[x]
  }

  lemma AdvanceShape(s: State, i: int, name: string, d: StepDef, q: int, id: int)
    requires WellFormed(s) && id in s.steps
    ensures Shaped(s, Remove(Spawn(Ran(s, id, Completed), i, name, d), q), i, id, name)
  {
    Fresh(s);
    RanShape(s, id, Completed);
    hide WellFormed, Ran, ItemsFor;
  }

  lemma AdvanceItems(s: State, i: int, name: string, d: StepDef, q: int, k: nat)
    requires WellFormed(s) && k < |IdsOf(s, i)| && IdsOf(s, i)[k] in s.steps && ItemsFor(s, IdsOf(s, i)[k]) == {q}
    ensures var r := Remove(Spawn(Ran(s, IdsOf(s, i)[k], Completed), i, name, d), q);
            && ItemsFor(r, s.nextStep) == {s.nextQueue} && ItemsFor(r, IdsOf(s, i)[k]) == {}
            && forall l | 0 <= l < |IdsOf(s, i)| :: ItemsFor(r, IdsOf(s, i)[l]) == ItemsFor(s, IdsOf(s, i)[l]) - {q}
  {
    var ids := IdsOf(s, i);
    var id, young := ids[k], s.nextStep;
    Fresh(s);
    RanShape(s, id, Completed);
    hide WellFormed, Ran;
    var u := Ran(s, id, Completed);
    var w := CreateStep(u, i, name, d.kind, Pending, d.maxRetries);
    var v := Spawn(u, i, name, d);
    assert q in ItemsFor(s, id);
    forall y
      ensures ItemsFor(Remove(v, q), y) == (ItemsFor(s, y) + if y == young then {s.nextQueue} else {}) - {q}
    {
      ItemsEnqueue(w, i, young, PRIORITY_NORMAL, d.delay, y);
      ItemsRemove(v, q, y);
      assert ItemsFor(w, y) == ItemsFor(s, y);
    }
    forall l | 0 <= l < |ids|
      ensures ids[l] != young
    {
      assert ids[l] in IdsOf(s, i);
    }
  }

  lemma OneMore(s: State, r: State, i: int, def: Definition, chain: seq<string>, young: int)
    requires Saga(s, i, def, chain) && s.instances[i].status == WfRunning && |IdsOf(s, i)| < |chain|
    requires IdsOf(r, i) == IdsOf(s, i) + [young] && Active(r, young) && r.steps[young].name == chain[|IdsOf(s, i)|]
    requires forall l | 0 <= l < |IdsOf(s, i)| - 1 :: Done(s, IdsOf(s, i)[l]) ==> Done(r, IdsOf(s, i)[l])
    requires Done(r, IdsOf(s, i)[|IdsOf(s, i)| - 1])
    requires forall l | 0 <= l < |IdsOf(s, i)| ::
               IdsOf(s, i)[l] in r.steps && r.steps[IdsOf(s, i)[l]].name == s.steps[IdsOf(s, i)[l]].name
    requires Runs(r, i, def) && r.instances[i] == s.instances[i] && i !in r.cancels
    ensures Saga(r, i, def, chain)
  {
    var ids, more := IdsOf(s, i), IdsOf(r, i);
    assert young in r.steps && forall l | 0 <= l < |ids| - 1 :: Done(s, ids[l]);
    SagaFacts(s, i, def, chain);
    hide Saga, LinearFlow, IdsOf, Done, Active, Protected;
    MorePrefix(s, r, ids, chain, young);
    MoreRunning(r, ids, def.steps, chain, young);
    SagaIs(r, i, def, chain);
  }

  lemma MorePrefix(s: State, r: State, ids: seq<int>, chain: seq<string>, young: int)
    requires Prefix(s, ids, chain) && |ids| < |chain| && young in r.steps && r.steps[young].name == chain[|ids|]
    requires forall l | 0 <= l < |ids| :: ids[l] in r.steps && r.steps[ids[l]].name == s.steps[ids[l]].name
    ensures Prefix(r, ids + [young], chain)
  {
  }

  lemma MoreRunning(r: State, ids: seq<int>, steps: Steps, chain: seq<string>, young: int)
    requires 0 < |ids| < |chain| && (forall k | 0 <= k < |chain| :: chain[k] in steps)
    requires (forall l | 0 <= l < |ids| :: Done(r, ids[l])) && Active(r, young)
    ensures Phase(r, ids + [young], WfRunning, steps, chain)
  {
    hide Done, Active;
    forall l | 0 <= l < |ids|
      ensures Done(r, (ids + [young])[l])
    {
      assert (ids + [young])[l] == ids[l];
    }
  }

  lemma SagaIs(r: State, i: int, def: Definition, chain: seq<string>)
    requires LinearFlow(def, chain) && Runs(r, i, def) && (i in r.cancels ==> r.instances[i].status == WfRunning)
             && Prefix(r, IdsOf(r, i), chain)
    requires Phase(r, IdsOf(r, i), r.instances[i].status, def.steps, chain)
    ensures Saga(r, i, def, chain)
  {
  }

  /** The last step ends the workflow. */
  lemma CompletedSaga(s: State, i: int, def: Definition, chain: seq<string>, q: int, k: nat)
    requires Saga(s, i, def, chain) && AtStep(s, i, q, k) && s.instances[i].status == WfRunning && i !in s.cancels
    requires |IdsOf(s, i)| == |chain|
    ensures Saga(Remove(SetInstance(Ran(s, IdsOf(s, i)[k], Completed), i, WfCompleted), q), i, def, chain)
  {
    var ids := IdsOf(s, i);
    var id := ids[k];
    assert WellFormed(s);
    hide WellFormed, LinearFlow, Ran, Protected, Saga, AtStep, SetInstance, ItemsFor, Prefix;
    QueuedStep(s, i, def, chain, q, k);
    SagaFacts(s, i, def, chain);
    IdsDistinct(s, i);
    CompletedShape(s, i, q, id);
    var r := Remove(SetInstance(Ran(s, id, Completed), i, WfCompleted), q);
    OthersNotQ(s, r, ids, q, k);
    DoneElsewhere(s, r, ids, k);
    AllDone(s, r, i, def, chain);
  }

  lemma CompletedShape(s: State, i: int, q: int, id: int)
    requires i in s.instances && id in s.steps
    ensures var r := Remove(SetInstance(Ran(s, id, Completed), i, WfCompleted), q);
            && IdsOf(r, i) == IdsOf(s, i) && r.definitions == s.definitions && r.cancels == s.cancels
            && i in r.instances && r.instances[i] == s.instances[i].(status := WfCompleted)
            && id in r.steps && r.steps[id].status == Completed && r.steps[id].name == s.steps[id].name
            && r.steps[id].compRetries == s.steps[id].compRetries
            && (forall x | x in s.steps && x != id :: x in r.steps && r.steps[x] == s.steps[x])
            && forall y :: ItemsFor(r, y) == ItemsFor(s, y) - {q}
  {
    RanShape(s, id, Completed);
    hide Ran;
    var v := SetInstance(Ran(s, id, Completed), i, WfCompleted);
    forall y
      ensures ItemsFor(Remove(v, q), y) == ItemsFor(s, y) - {q}
    {
      ItemsRemove(v, q, y);
      assert ItemsFor(v, y) == ItemsFor(s, y);
    }
  }

  lemma AllDone(s: State, r: State, i: int, def: Definition, chain: seq<string>)
    requires Saga(s, i, def, chain) && s.instances[i].status == WfRunning && |IdsOf(s, i)| == |chain|
    requires IdsOf(r, i) == IdsOf(s, i)
    requires forall l | 0 <= l < |IdsOf(s, i)| - 1 :: Done(s, IdsOf(s, i)[l]) ==> Done(r, IdsOf(s, i)[l])
    requires Done(r, IdsOf(s, i)[|IdsOf(s, i)| - 1])
    requires forall l | 0 <= l < |IdsOf(s, i)| ::
               IdsOf(s, i)[l] in r.steps && r.steps[IdsOf(s, i)[l]].name == s.steps[IdsOf(s, i)[l]].name
    requires Runs(r, i, def) && r.instances[i].status == WfCompleted && i !in r.cancels
    ensures Saga(r, i, def, chain)
  {
    hide LinearFlow, IdsOf, Done, Active, Protected;
    assert Prefix(r, IdsOf(r, i), chain);
  }

  /** Completing the last step of a running saga completes the workflow. */
  lemma EndsCompleted(s: State, i: int, def: Definition, chain: seq<string>, q: int, k: nat)
    requires Saga(s, i, def, chain) && AtStep(s, i, q, k) && s.instances[i].status == WfRunning
    ensures var u := Ran(s, IdsOf(s, i)[k], Completed);
            && !HasUnfinished(u, i)
            && CompleteWorkflow(u, i, def.steps) == SetInstance(u, i, WfCompleted)
  {
    hide WellFormed, Ran, Saga, AtStep, SomeStep, IdsOf, CompleteWorkflow, HasUnfinished;
    AtStepWell(s, i, q, k);
    AllCompleted(s, i, def, chain, q, k);
    var u := Ran(s, IdsOf(s, i)[k], Completed);
    NoneUnfinished(u, i, def.steps);
  }

  lemma NoneUnfinished(u: State, i: int, steps: Steps)
    requires WellFormed(u) && forall x | x in IdsOf(u, i) :: x in u.steps && u.steps[x].status == Completed
    ensures !HasUnfinished(u, i) && CompleteWorkflow(u, i, steps) == SetInstance(u, i, WfCompleted)
  {
    hide WellFormed, SomeStep, IdsOf, ReactiveRollback, SetInstance;
    NoneOf(u, i, {Pending, Running, Paused});
    NoneOf(u, i, {Failed, RolledBack});
  }

  lemma NoneOf(u: State, i: int, statuses: set<StepStatus>)
    requires WellFormed(u) && Completed !in statuses
    requires forall x | x in IdsOf(u, i) :: x in u.steps && u.steps[x].status == Completed
    ensures !SomeStep(u, i, statuses)
  {
    hide WellFormed, SomeStep;
    SomeStepAt(u, i, statuses);
  }

  lemma RunningDone(s: State, i: int, def: Definition, chain: seq<string>)
    requires Saga(s, i, def, chain) && s.instances[i].status == WfRunning
    ensures forall l | 0 <= l < |IdsOf(s, i)| - 1 :: Done(s, IdsOf(s, i)[l])
  {
    hide LinearFlow, Protected, Done, Active, IdsOf;
  }

  lemma RanIds(s: State, i: int, id: int, status: StepStatus)
    ensures IdsOf(Ran(s, id, status), i) == IdsOf(s, i)
  {
  }

  lemma AllCompleted(s: State, i: int, def: Definition, chain: seq<string>, q: int, k: nat)
    requires Saga(s, i, def, chain) && AtStep(s, i, q, k) && s.instances[i].status == WfRunning
    ensures var u := Ran(s, IdsOf(s, i)[k], Completed);
            WellFormed(u) && forall x | x in IdsOf(u, i) :: x in u.steps && u.steps[x].status == Completed
  {
    hide Saga, WellFormed, Ran, LinearFlow, Protected, ItemsFor, IdsOf, Waiting1, NoHumans;
    var ids := IdsOf(s, i);
    RunningDone(s, i, def, chain);
    QueuedStep(s, i, def, chain, q, k);
    Found(s, q);
    RanWell(s, i, ids[k], Completed);
    RanIds(s, i, ids[k], Completed);
    RanCompletes(s, ids, k);
  }

  lemma RanCompletes(s: State, ids: seq<int>, k: nat)
    requires k == |ids| - 1 && ids[k] in s.steps && forall l | 0 <= l < |ids| - 1 :: Done(s, ids[l])
    ensures var u := Ran(s, ids[k], Completed);
            forall x | x in ids :: x in u.steps && u.steps[x].status == Completed
  {
    RanShape(s, ids[k], Completed);
    hide Ran, ItemsFor;
    var u := Ran(s, ids[k], Completed);
    forall x | x in ids
      ensures x in u.steps && u.steps[x].status == Completed
    {
      var l :| 0 <= l < |ids| && ids[l] == x;
      assert l < k ==> Done(s, ids[l]);
    }
  }

  lemma RanWell(s: State, i: int, id: int, status: StepStatus)
    requires WellFormed(s) && id in s.steps && s.steps[id].instance == i
    ensures WellFormed(Ran(s, id, status))
  {
    hide WellFormed;
    CountsNotNegative(s, id);
    RanShape(s, id, status);
    var rec := Ran(s, id, status).steps[id];
    assert rec.retryCount >= 0;
    PutLocal(s, rec, i);
    assert Put(s, rec) == Ran(s, id, status);
  }
}
