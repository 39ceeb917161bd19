/** Linear sagas: what holds of an instance of a linear workflow throughout every run. */
module Sagas {
  import opened Definitions
  import opened Trees
  import opened Store
  import opened Queue
  import opened Rollback
  import opened RollbackExact
  import opened RollbackTheorems
  import opened RollbackEffects
  import opened RollbackEngine
  import opened Engine
  import opened EngineFrames
  import opened EngineTame
  import opened EngineSteps
  import opened EngineRuns
  import opened SagaChains

  // ------------------------------------------------------------------ the invariant

  function ItemsFor(s: State, id: int): set<int> {
    set q | q in s.queue && s.queue[q].step == Some(id)
  }

  /** Nothing is queued for the step. */
  predicate Idle(s: State, id: int) {
    ItemsFor(s, id) == {}
  }

  /** Exactly one item is queued for the step. */
  ghost predicate Waiting1(s: State, id: int) {
    exists q :: ItemsFor(s, id) == {q}
  }

  predicate Done(s: State, id: int) {
    id in s.steps && s.steps[id].status == Completed && s.steps[id].compRetries == 0 && Idle(s, id)
  }

  /** The step is next, or is to be tried again. */
  ghost predicate Active(s: State, id: int) {
    && id in s.steps && (s.steps[id].status == Pending || s.steps[id].status == Failed)
    && s.steps[id].compRetries == 0 && Waiting1(s, id)
  }

  /** What the record of a reverted step says.  Without a compensation step it is rolled back; a
      compensation step without retries makes it fail at once; otherwise at least one attempt was
      ordered, and it is rolled back, failed after the last attempt, or still to be compensated. */
  predicate Undoing(rec: StepRec, steps: Steps) {
    rec.name in steps &&
    var f := steps[rec.name].onFailure;
    if f !in steps then rec.status == RolledBack && rec.compRetries == 0
    else if steps[f].maxRetries <= 0 then rec.status == Failed && rec.compRetries == 0
    else
      && 1 <= rec.compRetries <= steps[f].maxRetries
      && (rec.status == Compensation || rec.status == RolledBack
          || (rec.status == Failed && rec.compRetries == steps[f].maxRetries))
  }

  /** The step was undone, could not be undone, or is being undone. */
  ghost predicate Reverted(s: State, id: int, steps: Steps) {
    && id in s.steps && Undoing(s.steps[id], steps)
    && if s.steps[id].status == Compensation then Waiting1(s, id) else Idle(s, id)
  }

  /** The created steps are a prefix of the chain. */
  predicate Prefix(s: State, ids: seq<int>, chain: seq<string>) {
    && 0 < |ids| <= |chain|
    && forall k | 0 <= k < |ids| :: ids[k] in s.steps && s.steps[ids[k]].name == chain[k]
  }

  ghost predicate Phase(s: State, ids: seq<int>, status: WorkflowStatus, steps: Steps, chain: seq<string>)
    requires 0 < |ids| <= |chain| && forall k | 0 <= k < |chain| :: chain[k] in steps
  {
    var n := |ids|;
    match status
    case WfRunning => (forall k | 0 <= k < n - 1 :: Done(s, ids[k])) && Active(s, ids[n - 1])
    case WfCompleted => n == |chain| && forall k | 0 <= k < n :: Done(s, ids[k])
    case WfFailed =>
      var b := Protected(steps, chain, n);
      (forall k | 0 <= k < b :: Done(s, ids[k])) && (forall k | b <= k < n :: Reverted(s, ids[k], steps))
    case _ => false
  }

  /** The saga invariant of instance i.  While it runs, all steps but the last are completed
      and exactly the last is queued; when completed, the whole chain is; when failed, the
      steps up to the nearest savepoint are completed and the later ones reverted. */
  ghost predicate Saga(s: State, i: int, def: Definition, chain: seq<string>) {
    && LinearFlow(def, chain) && Runs(s, i, def) && (i in s.cancels ==> s.instances[i].status == WfRunning)
    && Prefix(s, IdsOf(s, i), chain)
    && Phase(s, IdsOf(s, i), s.instances[i].status, def.steps, chain)
  }

  // ------------------------------------------------------------------ nothing happens to i

  /** Instance i looks the same. */
  ghost predicate SameView(s: State, r: State, i: int) {
    && r.definitions == s.definitions && i in s.instances && i in r.instances && r.instances[i] == s.instances[i]
    && (i in r.cancels <==> i in s.cancels) && IdsOf(r, i) == IdsOf(s, i)
    && forall id | id in IdsOf(s, i) :: SameAt(s, r, id)
  }

  predicate SameAt(s: State, r: State, id: int) {
    id in s.steps ==> id in r.steps && r.steps[id] == s.steps[id] && ItemsFor(r, id) == ItemsFor(s, id)
  }

  lemma SameAtAll(s: State, r: State, id: int)
    requires SameAt(s, r, id)
    ensures Done(s, id) ==> Done(r, id)
    ensures Active(s, id) ==> Active(r, id)
    ensures forall steps :: Reverted(s, id, steps) ==> Reverted(r, id, steps)
  {
  }

  lemma SagaSame(s: State, r: State, i: int, def: Definition, chain: seq<string>)
    requires Saga(s, i, def, chain) && SameView(s, r, i)
    ensures Saga(r, i, def, chain)
  {
    var ids := IdsOf(s, i);
    forall k | 0 <= k < |ids|
      ensures (Done(s, ids[k]) ==> Done(r, ids[k])) && (Active(s, ids[k]) ==> Active(r, ids[k]))
              && (Reverted(s, ids[k], def.steps) ==> Reverted(r, ids[k], def.steps))
      ensures ids[k] in s.steps ==> ids[k] in r.steps && r.steps[ids[k]] == s.steps[ids[k]]
    {
      assert ids[k] in ids;
      SameAtAll(s, r, ids[k]);
    }
    hide LinearFlow, SameAt, Done, Active, Reverted, ItemsFor, IdsOf, SameView;
    assert Prefix(r, ids, chain);
    PhaseSame(s, r, ids, s.instances[i].status, def.steps, chain);
  }

  lemma PhaseSame(s: State, r: State, ids: seq<int>, status: WorkflowStatus, steps: Steps, chain: seq<string>)
    requires 0 < |ids| <= |chain| && (forall k | 0 <= k < |chain| :: chain[k] in steps)
             && Phase(s, ids, status, steps, chain)
    requires forall k | 0 <= k < |ids| ::
               (Done(s, ids[k]) ==> Done(r, ids[k])) && (Active(s, ids[k]) ==> Active(r, ids[k]))
                 && (Reverted(s, ids[k], steps) ==> Reverted(r, ids[k], steps))
    ensures Phase(r, ids, status, steps, chain)
  {
    hide Done, Active, Reverted;
  }

  /** The item for a step belongs to the step's instance. */
  lemma ItemOwner(s: State, q: int, id: int)
    requires WellFormed(s) && q in s.queue && s.queue[q].step == Some(id)
    ensures id in s.steps && s.queue[q].instance == s.steps[id].instance && q < s.nextQueue
  {
    hide StepsFiled, AllMade;
    assert ItemFiled(s, s.queue[q]);
  }

  lemma OtherMoves(s: State, r: State, i: int, j: int)
    requires WellFormed(s) && WellFormed(r) && Local(s, r, j) && i != j && i in s.instances
    ensures SameView(s, r, i)
  {
    FrozenAreOwn(s, i);
    assert LocalItems(s, r, j) && LocalSteps(s, r, j);
    forall id | id in IdsOf(s, i)
      ensures SameAt(s, r, id)
    {
      forall q | q in ItemsFor(s, id) || q in ItemsFor(r, id)
        ensures q in ItemsFor(r, id) && q in ItemsFor(s, id)
      {
        if q in ItemsFor(s, id) {
          ItemOwner(s, q, id);
        } else {
          ItemOwner(r, q, id);
        }
      }
    }
  }

  // ------------------------------------------------------------------ handlers on linear workflows

  predicate Plain(steps: Steps) {
    forall n | n in steps :: steps[n].kind == Task || steps[n].kind == SavePoint
  }

  lemma LinearPlain(def: Definition, chain: seq<string>)
    requires LinearFlow(def, chain)
    ensures Plain(def.steps)
  {
    forall n | n in def.steps
      ensures def.steps[n].kind == Task || def.steps[n].kind == SavePoint
    {
      if n in chain {
        LinkAt(def, chain, Index(chain, n));
      }
    }
  }

  predicate WithoutJoins(steps: Steps) {
    forall n | n in steps :: steps[n].kind != Join
  }

  lemma {:induction false} NobodyNotified(s: State, i: int, steps: Steps, order: seq<string>, rest: seq<string>,
                                          step: string, success: bool)
    requires WithoutJoins(steps)
    ensures NotifyAll(s, i, steps, order, rest, step, success) == (s, true)
    decreases |rest|
  {
    if rest != [] {
      NobodyNotified(s, i, steps, order, rest[1..], step, success);
    }
  }

  lemma {:induction false} NoFirstJoin(steps: Steps, names: seq<string>)
    requires WithoutJoins(steps)
    ensures FirstJoin(steps, names) == ""
  {
    if names != [] {
      NoFirstJoin(steps, names[1..]);
    }
  }

  /** Where there are no joins a step only gets its status. */
  lemma MarkAlone(s: State, i: int, rec: StepRec, d: StepDef, steps: Steps, o: Choice, status: StepStatus,
                  settle: bool, success: bool)
    requires WithoutJoins(steps)
    ensures Mark(s, i, rec, d, steps, o, status, settle, success) == (UpdateStep(s, rec.id, status), true)
  {
    var u := UpdateStep(s, rec.id, status);
    var fork := ForkAround(steps, o.order, rec.name);
    if fork in steps {
      NoFirstJoin(steps, steps[fork].next);
    }
    assert Settle(u, i, steps, o.order, rec, d, success) == u by {
      hide NotifyJoin, ForkAround, ConditionAbove, EndsBranch;
    }
    NobodyNotified(u, i, steps, o.order, o.order, rec.name, success);
  }

  lemma {:induction false} NoFork(steps: Steps, order: seq<string>, name: string)
    requires Plain(steps)
    ensures ForkOf(steps, order, name) == ""
  {
    if order != [] {
      NoFork(steps, order[1..], name);
    }
  }

  lemma NoSiblings(s: State, i: int, name: string, steps: Steps, order: seq<string>)
    requires Plain(steps)
    ensures SkipAll(s, Siblings(s, i, name, steps, order)) == s
  {
    NoFork(steps, order, name);
    assert SkipAll(s, {}).steps == s.steps;
  }

  /** The handlers of a linear workflow, without what concerns forks and joins. */
  lemma LinearFailure(s: State, i: int, rec: StepRec, d: StepDef, def: Definition, o: Choice)
    requires Plain(def.steps) && !def.dlqEnabled && !Retries(rec, d)
    ensures var u := UpdateStep(s, rec.id, Failed);
            HandleFailure(s, i, rec, d, def, o) ==
            SetInstance(RollBack(u, SnapshotOf(u, i, rec), def, rec.name, o.stop).0, i, WfFailed)
  {
    var u := UpdateStep(s, rec.id, Failed);
    MarkAlone(s, i, rec, d, def.steps, o, Failed, true, false);
    NoSiblings(u, i, rec.name, def.steps, o.order);
    hide RollBack, SetInstance, SnapshotOf, SkipAll, Siblings, Mark;
  }

  lemma LinearSuccess(s: State, i: int, rec: StepRec, d: StepDef, def: Definition, o: Choice)
    requires Plain(def.steps) && !IsDlq(s, i) && |d.next| <= 1 && forall n | n in d.next :: n in def.steps
    ensures var u := UpdateStep(s, rec.id, Completed);
            HandleSuccess(s, i, rec, d, def, true, o) ==
            if d.next != [] then Spawn(u, i, d.next[0], def.steps[d.next[0]])
            else if HasUnfinished(u, i) then u else CompleteWorkflow(u, i, def.steps)
  {
    var u := UpdateStep(s, rec.id, Completed);
    MarkAlone(s, i, rec, d, def.steps, o, Completed, true, true);
    hide CompleteWorkflow, HasUnfinished, Spawn, Mark;
    if d.next != [] {
      var v := Spawn(u, i, d.next[0], def.steps[d.next[0]]);
      assert d.next[0] in d.next;
      assert EnqueueNext(v, i, def.steps, d.next[1..], true) == v;
    }
  }
}
