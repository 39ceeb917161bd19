/** A linear saga that was cancelled or aborted, and what follows. */
module SagaCancel {
  import opened Definitions
  import opened Trees
  import opened Store
  import opened Queue
  import opened Rollback
  import opened RollbackEffects
  import opened RollbackEngine
  import opened Engine
  import opened EngineFrames
  import opened EngineTame
  import opened EngineSteps
  import opened EngineRuns
  import opened EngineFailures
  import opened SagaChains
  import opened Sagas
  import opened SagaSteps
  import opened SagaRollback

  // ------------------------------------------------------------------ the invariant

  /** The step a cancellation found: skipped, or left failed between two attempts. */
  predicate Stopped(s: State, id: int) {
    id in s.steps && (s.steps[id].status == Skipped || s.steps[id].status == Failed) && Idle(s, id)
  }

  /** Cancelled: every completed step is reverted, savepoint or not.  Aborted: they stay. */
  ghost predicate HaltedPhase(s: State, ids: seq<int>, status: WorkflowStatus, steps: Steps)
    requires |ids| > 0
  {
    var n := |ids|;
    && Stopped(s, ids[n - 1])
    && match status
       case WfCancelled => forall k | 0 <= k < n - 1 :: Reverted(s, ids[k], steps)
       case WfFailed => forall k | 0 <= k < n - 1 :: Reverted(s, ids[k], steps)
       case WfAborted => forall k | 0 <= k < n - 1 :: Done(s, ids[k])
       case _ => false
  }

  ghost predicate Halted(s: State, i: int, def: Definition, chain: seq<string>) {
    && LinearFlow(def, chain) && Runs(s, i, def) && i !in s.cancels
    && Prefix(s, IdsOf(s, i), chain)
    && HaltedPhase(s, IdsOf(s, i), s.instances[i].status, def.steps)
  }

  lemma HaltedFacts(s: State, i: int, def: Definition, chain: seq<string>)
    requires Halted(s, i, def, chain)
    ensures LinearFlow(def, chain) && Runs(s, i, def) && i in s.instances && i !in s.cancels
            && Prefix(s, IdsOf(s, i), chain)
    ensures HaltedPhase(s, IdsOf(s, i), s.instances[i].status, def.steps)
    ensures s.instances[i].status == WfCancelled || s.instances[i].status == WfFailed
            || s.instances[i].status == WfAborted
  {
    hide LinearFlow, Stopped, Reverted, Done;
  }

  lemma HaltedIs(r: State, i: int, def: Definition, chain: seq<string>)
    requires LinearFlow(def, chain) && Runs(r, i, def) && i !in r.cancels && Prefix(r, IdsOf(r, i), chain)
    requires HaltedPhase(r, IdsOf(r, i), r.instances[i].status, def.steps)
    ensures Halted(r, i, def, chain)
  {
  }

  lemma HaltedSame(s: State, r: State, i: int, def: Definition, chain: seq<string>)
    requires Halted(s, i, def, chain) && SameView(s, r, i)
    ensures Halted(r, i, def, chain)
  {
    var ids := IdsOf(s, i);
    HaltedFacts(s, i, def, chain);
    hide LinearFlow, Halted;
    forall k | 0 <= k < |ids|
      ensures Done(s, ids[k]) ==> Done(r, ids[k])
      ensures Reverted(s, ids[k], def.steps) ==> Reverted(r, ids[k], def.steps)
      ensures Stopped(s, ids[k]) ==> Stopped(r, ids[k])
      ensures ids[k] in r.steps && r.steps[ids[k]] == s.steps[ids[k]]
    {
      assert ids[k] in ids;
      SameAtAll(s, r, ids[k]);
    }
    hide Done, Reverted, Stopped, SameAt;
    HaltedIs(r, i, def, chain);
  }

  // ------------------------------------------------------------------ compensation after the halt

  /** What is queued for a halted saga is a step in compensation. */
  lemma HaltedQueued(s: State, i: int, def: Definition, chain: seq<string>, q: int, k: nat)
    requires Halted(s, i, def, chain) && AtStep(s, i, q, k)
    ensures var id := IdsOf(s, i)[k];
            && id in s.steps && ItemsFor(s, id) == {q} && s.steps[id].status == Compensation && k < |IdsOf(s, i)| - 1
            && Undoing(s.steps[id], def.steps)
            && (s.instances[i].status == WfCancelled || s.instances[i].status == WfFailed)
  {
    HaltedFacts(s, i, def, chain);
    NotIdle(s, q, IdsOf(s, i)[k]);
    hide Halted, LinearFlow, WellFormed, IdsOf, ItemsFor;
  }

  lemma StillHalted(s: State, r: State, i: int, def: Definition, chain: seq<string>, k: nat)
    requires Halted(s, i, def, chain) && k < |IdsOf(s, i)| - 1 && s.instances[i].status != WfAborted
    requires IdsOf(r, i) == IdsOf(s, i) && OthersKept(s, r, IdsOf(s, i), k) && Reverted(r, IdsOf(s, i)[k], def.steps)
    requires IdsOf(s, i)[k] in r.steps && IdsOf(s, i)[k] in s.steps
             && r.steps[IdsOf(s, i)[k]].name == s.steps[IdsOf(s, i)[k]].name
    requires Runs(r, i, def) && i !in r.cancels
    requires r.instances[i] == s.instances[i] || r.instances[i] == s.instances[i].(status := WfFailed)
    ensures Halted(r, i, def, chain)
  {
    hide Halted, LinearFlow, Done, Reverted, IdsOf, Prefix, Stopped, OthersKept;
    var ids := IdsOf(s, i);
    HaltedFacts(s, i, def, chain);
    DoneElsewhere(s, r, ids, k);
    PrefixKept(s, r, ids, chain, k);
    StoppedKept(s, r, ids, k);
    HaltedIs(r, i, def, chain);
  }

  lemma PrefixKept(s: State, r: State, ids: seq<int>, chain: seq<string>, k: nat)
    requires Prefix(s, ids, chain) && k < |ids| && OthersKept(s, r, ids, k)
    requires ids[k] in r.steps && ids[k] in s.steps && r.steps[ids[k]].name == s.steps[ids[k]].name
    ensures Prefix(r, ids, chain)
  {
    KeptNames(s, r, ids, chain, k);
  }

  lemma StoppedKept(s: State, r: State, ids: seq<int>, k: nat)
    requires k < |ids| - 1 && OthersKept(s, r, ids, k) && Stopped(s, ids[|ids| - 1])
    ensures Stopped(r, ids[|ids| - 1])
  {
    assert SameAt(s, r, ids[|ids| - 1]);
  }

  lemma HaltedAttempt(s: State, i: int, def: Definition, chain: seq<string>, q: int, k: nat, o: Choice)
    requires Halted(s, i, def, chain) && AtStep(s, i, q, k)
    requires IdsOf(s, i)[k] in s.steps && s.steps[IdsOf(s, i)[k]].name in def.steps
    ensures var rec := s.steps[IdsOf(s, i)[k]];
            Halted(Remove(ExecuteCompensation(s, i, rec, def.steps[rec.name], def.steps, o), q), i, def, chain)
  {
    var ids := IdsOf(s, i);
    var rec := s.steps[ids[k]];
    hide WellFormed, LinearFlow, Halted, Reverted, ItemsFor, ExecuteCompensation, IdsOf, HaltedPhase;
    HaltedQueued(s, i, def, chain, q, k);
    HaltedFacts(s, i, def, chain);
    IdsDistinct(s, i);
    Found(s, q);
    Fresh(s);
    AttemptTouched(s, i, q, rec, def.steps[rec.name], def.steps, o);
    var r := Remove(ExecuteCompensation(s, i, rec, def.steps[rec.name], def.steps, o), q);
    OthersNotQ(s, r, ids, q, k);
    StillHalted(s, r, i, def, chain, k);
  }

  // ------------------------------------------------------------------ the halt itself

  /** The running saga with its last step stopped. */
  lemma StopShapeOf(s: State, i: int, def: Definition, chain: seq<string>, q: int, k: nat)
    requires Saga(s, i, def, chain) && AtStep(s, i, q, k) && s.instances[i].status == WfRunning
    ensures var ids := IdsOf(s, i);
            var u := SkipAll(s, ActiveIds(s, i));
            && WellFormed(u) && u == s.(steps := u.steps) && IdsOf(u, i) == ids && k == |ids| - 1 && k < |chain|
            && Prefix(u, ids, chain)
            && (forall l | 0 <= l < k :: Done(u, ids[l]))
            && (u.steps[ids[k]].status == Skipped || u.steps[ids[k]].status == Failed) && ItemsFor(u, ids[k]) == {q}
  {
    var ids := IdsOf(s, i);
    var u := SkipAll(s, ActiveIds(s, i));
    hide Saga, WellFormed, LinearFlow, Protected, NoHumans;
    SagaFacts(s, i, def, chain);
    RunningDone(s, i, def, chain);
    QueuedStep(s, i, def, chain, q, k);
    ActiveOwn(s, i);
    SkipTame(s, ActiveIds(s, i), i, map[]);
    TameWell(s, u, i, map[]);
    hide Tame, Local;
    forall l | 0 <= l < |ids|
      ensures ids[l] in u.steps && u.steps[ids[l]].name == s.steps[ids[l]].name
      ensures l < k ==> Done(u, ids[l])
    {
      SameItems(s, u, ids[l]);
      assert l < k ==> Done(s, ids[l]);
    }
    SameItems(s, u, ids[k]);
    assert ids[k] in ids;
  }

  lemma {:induction false} PresentAll(steps: map<int, StepRec>, ids: seq<int>)
    requires forall l | 0 <= l < |ids| :: ids[l] in steps
    ensures |Present(steps, ids)| == |ids| && forall l | 0 <= l < |ids| :: Present(steps, ids)[l] == steps[ids[l]]
  {
    if ids != [] {
      PresentAll(steps, ids[..|ids| - 1]);
    }
  }

  /** The last completed step is the one before the stopped one. */
  lemma LastIsBefore(u: State, i: int, k: nat)
    requires k == |IdsOf(u, i)| - 1 && (forall l | 0 <= l <= k :: IdsOf(u, i)[l] in u.steps)
    requires u.steps[IdsOf(u, i)[k]].status != Completed && (k > 0 ==> u.steps[IdsOf(u, i)[k - 1]].status == Completed)
    ensures LastCompleted(StepsOf(u, i)) == if k == 0 then None else Some(u.steps[IdsOf(u, i)[k - 1]].name)
  {
    PresentAll(u.steps, IdsOf(u, i));
    var recs := StepsOf(u, i);
    hide Present, IdsOf;
    assert LastCompleted(recs) == LastCompleted(recs[..k]);
    if k > 0 {
      assert recs[..k][k - 1] == recs[k - 1];
    }
  }

  /** The last moves of a cancellation. */
  function Finish(v: State, i: int, status: WorkflowStatus, q: int): State {
    Remove(ForgetCancel(SetInstance(v, i, status), i), q)
  }

  lemma HaltAssembled(v: State, i: int, def: Definition, chain: seq<string>, ids: seq<int>, status: WorkflowStatus,
                      q: int)
    requires LinearFlow(def, chain) && Runs(v, i, def) && IdsOf(v, i) == ids && Prefix(v, ids, chain)
    requires HaltedPhase(Remove(v, q), ids, status, def.steps)
    ensures Halted(Finish(v, i, status, q), i, def, chain)
  {
    var m, r := Remove(v, q), Finish(v, i, status, q);
    assert IdsOf(r, i) == ids && Prefix(r, ids, chain);
    hide LinearFlow, IdsOf, Prefix;
    forall l | 0 <= l < |ids|
      ensures Done(m, ids[l]) ==> Done(r, ids[l])
      ensures Reverted(m, ids[l], def.steps) ==> Reverted(r, ids[l], def.steps)
      ensures Stopped(m, ids[l]) ==> Stopped(r, ids[l])
    {
      SameItems(m, r, ids[l]);
      SameAtAll(m, r, ids[l]);
    }
    hide Done, Reverted, Stopped;
    HaltedIs(r, i, def, chain);
  }

  lemma AbortedHalts(s: State, i: int, def: Definition, chain: seq<string>, q: int, k: nat)
    requires Saga(s, i, def, chain) && AtStep(s, i, q, k) && s.instances[i].status == WfRunning
    ensures Halted(Finish(SkipAll(s, ActiveIds(s, i)), i, WfAborted, q), i, def, chain)
  {
    var ids := IdsOf(s, i);
    var u := SkipAll(s, ActiveIds(s, i));
    hide Saga, WellFormed, LinearFlow, SkipAll, ActiveIds;
    SagaFacts(s, i, def, chain);
    StopShapeOf(s, i, def, chain, q, k);
    forall l | 0 <= l <= k
      ensures if l < k then Done(Remove(u, q), ids[l]) else Stopped(Remove(u, q), ids[l])
    {
      assert l < k ==> Done(u, ids[l]);
      ItemsRemove(u, q, ids[l]);
    }
    hide Done, Stopped, Reverted;
    HaltAssembled(u, i, def, chain, ids, WfAborted, q);
  }

  /** The state in which the rollback of a cancellation begins. */
  ghost predicate Stopping(u: State, i: int, chain: seq<string>, ids: seq<int>, q: int, k: nat) {
    && WellFormed(u) && IdsOf(u, i) == ids && k == |ids| - 1 && k < |chain| && Prefix(u, ids, chain) && q in u.queue
    && (forall l | 0 <= l < k :: Done(u, ids[l]))
    && ids[k] in u.steps && (u.steps[ids[k]].status == Skipped || u.steps[ids[k]].status == Failed)
    && ItemsFor(u, ids[k]) == {q}
  }

  lemma StoppingNow(s: State, i: int, def: Definition, chain: seq<string>, q: int, k: nat)
    requires Saga(s, i, def, chain) && AtStep(s, i, q, k) && s.instances[i].status == WfRunning
    ensures var u := SetInstance(SkipAll(s, ActiveIds(s, i)), i, WfCancelling);
            Stopping(u, i, chain, IdsOf(s, i), q, k) && Runs(u, i, def)
  {
    hide Saga, WellFormed, LinearFlow, SkipAll, ActiveIds, AtStep, SetInstance, Done, ItemsFor, IdsOf;
    SagaFacts(s, i, def, chain);
    AtStepWell(s, i, q, k);
    StopShapeOf(s, i, def, chain, q, k);
    var m := SkipAll(s, ActiveIds(s, i));
    SetInstanceWell(m, i, WfCancelling);
    SetKeepsView(m, i, WfCancelling, chain);
  }

  /** A new instance status changes nothing the saga looks at. */
  lemma SetKeepsView(m: State, i: int, status: WorkflowStatus, chain: seq<string>)
    ensures var u := SetInstance(m, i, status);
            && u == m.(instances := u.instances) && IdsOf(u, i) == IdsOf(m, i)
            && (Prefix(m, IdsOf(m, i), chain) ==> Prefix(u, IdsOf(m, i), chain))
            && (i in m.instances ==> i in u.instances && u.instances[i].workflow == m.instances[i].workflow)
            && forall id :: ItemsFor(u, id) == ItemsFor(m, id) && (Done(m, id) ==> Done(u, id))
  {
    var u := SetInstance(m, i, status);
    assert u == m.(instances := u.instances)
           && (i in m.instances ==> i in u.instances && u.instances[i].workflow == m.instances[i].workflow);
    hide SetInstance;
    forall id
      ensures ItemsFor(u, id) == ItemsFor(m, id) && (Done(m, id) ==> Done(u, id))
    {
      SameItems(m, u, id);
    }
  }

  lemma StoppingFacts(u: State, i: int, chain: seq<string>, ids: seq<int>, q: int, k: nat)
    requires Stopping(u, i, chain, ids, q, k)
    ensures WellFormed(u) && IdsOf(u, i) == ids && k == |ids| - 1 && k < |chain| && Prefix(u, ids, chain)
    ensures k > 0 ==> Ended(u, ids, k - 1)
  {
    hide WellFormed, IdsOf;
    assert forall l | 0 <= l <= k - 1 :: Done(u, ids[l]);
  }

  lemma CancelLog(u: State, i: int, def: Definition, chain: seq<string>, ids: seq<int>, e: Env, k: nat)
    returns (log: seq<string>)
    requires LinearFlow(def, chain) && 0 < k < |chain| && WellFormed(u) && IdsOf(u, i) == ids && Prefix(u, ids, chain)
             && Ended(u, ids, k - 1)
    requires e.steps == def.steps && e.recs == ByName(StepsOf(u, i)) && StopsAt(def, chain, e.stop, 0, k - 1)
    ensures SnapshotOfChain(u, ids, chain, e.recs)
            && AllUndone(u, RollBack(u, e.recs, def, chain[k - 1], e.stop).0, e, log, def.id)
    ensures RollBack(u, e.recs, def, chain[k - 1], e.stop).1
    ensures forall x :: x in log <==> InSuffix(chain, 0, k - 1, x)
  {
    hide WellFormed, LinearFlow, ByName, StepsOf, RollBack, StopsAt, IdsOf, Prefix, Ended, SnapshotOfChain, AllUndone,
         InSuffix, Distinct, Snapshot;
    FlowDistinct(def, chain);
    SnapshotIsPrefix(u, i, chain);
    ByNameIsSnapshot(u, i, e);
    log := FailureEffect(u, def, chain, ids, e, 0, k - 1);
  }

  lemma FlowDistinct(def: Definition, chain: seq<string>)
    requires LinearFlow(def, chain)
    ensures Distinct(chain)
  {
  }

  /** Everything before the stopped step is rolled back to the root. */
  lemma CancelRollback(u: State, i: int, def: Definition, chain: seq<string>, ids: seq<int>, q: int, k: nat)
    requires LinearFlow(def, chain) && Stopping(u, i, chain, ids, q, k) && k > 0
    ensures var (v, ok) := RollBack(u, ByName(StepsOf(u, i)), def, chain[k - 1], ROOT_STEP);
            && ok && HaltedPhase(Remove(v, q), ids, WfCancelled, def.steps) && Prefix(v, ids, chain)
            && v.instances == u.instances && v.definitions == u.definitions && IdsOf(v, i) == ids
  {
    hide WellFormed, LinearFlow, ByName, StepsOf, RollBack, Stopping, IdsOf, Prefix, SnapshotOfChain, AllUndone,
         InSuffix, HaltedPhase, StopsAt, Ended;
    FlowDistinct(def, chain);
    StoppingFacts(u, i, chain, ids, q, k);
    IdsDistinct(u, i);
    var e := Env(def.steps, ROOT_STEP, ByName(StepsOf(u, i)));
    RootShape(def, chain, k - 1);
    var log := CancelLog(u, i, def, chain, ids, e, k);
    var v := RollBack(u, e.recs, def, chain[k - 1], ROOT_STEP).0;
    UndoneFrame(u, v, e, log, def.id, i);
    CancelPhase(u, v, i, def, chain, e, ids, log, q, k);
  }

  lemma CancelPhase(u: State, v: State, i: int, def: Definition, chain: seq<string>, e: Env, ids: seq<int>,
                    log: seq<string>, q: int, k: nat)
    requires Distinct(chain) && Stopping(u, i, chain, ids, q, k) && k > 0
    requires SnapshotOfChain(u, ids, chain, e.recs) && AllUndone(u, v, e, log, def.id)
    requires (forall m | 0 <= m < |ids| :: ids[m] in u.steps && u.steps[ids[m]].id == ids[m]) && Distinct(ids)
    requires e.steps == def.steps && forall x :: x in log <==> InSuffix(chain, 0, k - 1, x)
    ensures HaltedPhase(Remove(v, q), ids, WfCancelled, def.steps) && Prefix(v, ids, chain)
  {
    hide InSuffix, AllUndone, SnapshotOfChain, Reverted, ItemsFor, WellFormed;
    forall l: nat | l < |ids|
      ensures if l < k then Reverted(Remove(v, q), ids[l], def.steps) else Stopped(Remove(v, q), ids[l])
      ensures ids[l] in v.steps && v.steps[ids[l]].name == chain[l]
    {
      assert l < k ==> Done(u, ids[l]);
      AfterRollback(u, v, def, chain, e, ids, log, q, 0, k - 1, l);
      ItemsRemove(v, q, ids[l]);
    }
    hide Stopped;
  }

  /** A cancel request turns a running saga into a halted one. */
  lemma CancelledHalts(s: State, i: int, def: Definition, chain: seq<string>, q: int, k: nat, kind: CancelType)
    requires Saga(s, i, def, chain) && AtStep(s, i, q, k) && s.instances[i].status == WfRunning
    ensures Halted(Remove(HandleCancellation(s, i, def, kind), q), i, def, chain)
  {
    hide Saga, WellFormed, LinearFlow, SkipAll, ActiveIds, Halted, RollBack, Remove;
    match kind
    case AbortRun => AbortedHalts(s, i, def, chain, q, k);
    case CancelRun =>
      SagaFacts(s, i, def, chain);
      StoppingNow(s, i, def, chain, q, k);
      var u := SetInstance(SkipAll(s, ActiveIds(s, i)), i, WfCancelling);
      hide SetInstance, AtStep;
      CancelFrom(u, i, def, chain, IdsOf(s, i), q, k);
  }

  lemma CancelFrom(u: State, i: int, def: Definition, chain: seq<string>, ids: seq<int>, q: int, k: nat)
    requires LinearFlow(def, chain) && Runs(u, i, def) && Stopping(u, i, chain, ids, q, k)
    ensures var recs := StepsOf(u, i);
            var (v, ok) := if LastCompleted(recs).None? then (u, true)
                           else RollBack(u, ByName(recs), def, LastCompleted(recs).value, ROOT_STEP);
            Halted(Finish(v, i, if ok then WfCancelled else WfFailed, q), i, def, chain)
  {
    assert k > 0 ==> Done(u, ids[k - 1]);
    assert forall l | 0 <= l <= k :: ids[l] in u.steps;
    LastIsBefore(u, i, k);
    if k == 0 {
      ItemsRemove(u, q, ids[0]);
      assert Stopped(Remove(u, q), ids[0]);
      hide LinearFlow, WellFormed, Halted, RollBack, LastCompleted, StepsOf, ByName;
      HaltAssembled(u, i, def, chain, ids, WfCancelled, q);
    } else {
      hide LinearFlow, WellFormed, Halted, RollBack, LastCompleted, StepsOf, HaltedPhase;
      CancelRollback(u, i, def, chain, ids, q, k);
      var v := RollBack(u, ByName(StepsOf(u, i)), def, chain[k - 1], ROOT_STEP).0;
      HaltAssembled(v, i, def, chain, ids, WfCancelled, q);
    }
  }
}
