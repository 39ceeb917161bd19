/** The final failure of a linear saga, and the compensation that follows it. */
module SagaRollback {
  import opened Definitions
  import opened Trees
  import opened Store
  import opened Queue
  import opened Rollback
  import opened RollbackTrees
  import opened RollbackExact
  import opened RollbackTheorems
  import opened RollbackEffects
  import opened RollbackEngine
  import opened Engine
  import opened EngineFrames
  import opened EngineTame
  import opened EngineSteps
  import opened EngineRuns
  import opened EngineFailures
  import opened SagaChains
  import opened Sagas
  import opened SagaSteps

  // ------------------------------------------------------------------ compensation attempts

  lemma StillReverted(s: State, r: State, i: int, def: Definition, chain: seq<string>, k: nat)
    requires Saga(s, i, def, chain) && s.instances[i].status == WfFailed && k < |IdsOf(s, i)|
    requires Protected(def.steps, chain, |IdsOf(s, i)|) <= k
    requires IdsOf(r, i) == IdsOf(s, i) && OthersKept(s, r, IdsOf(s, i), k)
    requires IdsOf(s, i)[k] in r.steps && Reverted(r, IdsOf(s, i)[k], def.steps)
    requires r.steps[IdsOf(s, i)[k]].name == s.steps[IdsOf(s, i)[k]].name
    requires Runs(r, i, def) && r.instances[i] == s.instances[i] && i !in r.cancels
    ensures Saga(r, i, def, chain)
  {
    var ids := IdsOf(s, i);
    hide LinearFlow, Done, Active, Reverted, Protected, IdsOf;
    DoneElsewhere(s, r, ids, k);
    KeptNames(s, r, ids, chain, k);
    assert Prefix(r, ids, chain);
    hide OthersKept, Prefix;
  }

  lemma KeptNames(s: State, r: State, ids: seq<int>, chain: seq<string>, k: nat)
    requires Prefix(s, ids, chain) && OthersKept(s, r, ids, k)
    ensures forall l | 0 <= l < |ids| && l != k :: ids[l] in r.steps && r.steps[ids[l]].name == chain[l]
  {
    forall l | 0 <= l < |ids| && l != k
      ensures ids[l] in r.steps && r.steps[ids[l]].name == chain[l]
    {
      assert SameAt(s, r, ids[l]);
    }
  }

  /** What one compensation attempt leaves of instance i, apart from step id itself. */
  ghost predicate Touched(s: State, r: State, i: int, q: int, id: int) {
    && IdsOf(r, i) == IdsOf(s, i) && r.definitions == s.definitions && r.cancels == s.cancels
    && i in s.instances && i in r.instances
    && (r.instances[i] == s.instances[i] || r.instances[i] == s.instances[i].(status := WfFailed))
    && id in s.steps && id in r.steps && r.steps[id].name == s.steps[id].name
    && (forall x | x in s.steps && x != id :: x in r.steps && r.steps[x] == s.steps[x])
    && forall y | y != id :: ItemsFor(r, y) == ItemsFor(s, y) - {q}
  }

  lemma EndedTouched(s: State, i: int, q: int, id: int, status: StepStatus)
    requires i in s.instances && id in s.steps && s.steps[id].id == id && ItemsFor(s, id) == {q}
    requires status == RolledBack || status == Failed
    ensures var r := Remove(UpdateStep(s, id, status), q);
            Touched(s, r, i, q, id) && Idle(r, id) && r.steps[id] == WithStatus(s.steps[id], status)
  {
    var u := UpdateStep(s, id, status);
    var r := Remove(u, q);
    forall y
      ensures ItemsFor(r, y) == ItemsFor(s, y) - {q}
    {
      ItemsRemove(u, q, y);
      assert ItemsFor(u, y) == ItemsFor(s, y);
    }
    assert Idle(r, id);
  }

  lemma AgainTouched(s: State, i: int, q: int, id: int, count: int, delay: real)
    requires i in s.instances && id in s.steps && s.steps[id].id == id && ItemsFor(s, id) == {q}
    requires s.nextQueue !in s.queue
    ensures var r := Remove(Enqueue(UpdateStepCompensationRetry(s, id, count, Compensation), i, id, PRIORITY_HIGH,
                                    delay), q);
            && Touched(s, r, i, q, id) && Waiting1(r, id)
            && r.steps[id] == s.steps[id].(compRetries := count, status := Compensation)
  {
    var u := UpdateStepCompensationRetry(s, id, count, Compensation);
    var v := Enqueue(u, i, id, PRIORITY_HIGH, delay);
    var r := Remove(v, q);
    assert q in ItemsFor(s, id);
    forall y
      ensures ItemsFor(r, y) == (ItemsFor(s, y) + if y == id then {s.nextQueue} else {}) - {q}
    {
      ItemsEnqueue(u, i, id, PRIORITY_HIGH, delay, y);
      ItemsRemove(v, q, y);
      assert ItemsFor(u, y) == ItemsFor(s, y);
    }
    assert ItemsFor(r, id) == {s.nextQueue};
  }

  lemma FailedTouched(s: State, u: State, i: int, q: int, id: int)
    requires i in u.instances && Touched(s, Remove(u, q), i, q, id) && Idle(Remove(u, q), id)
    requires u.instances == s.instances
    ensures Touched(s, Remove(SetInstance(u, i, WfFailed), q), i, q, id)
            && Idle(Remove(SetInstance(u, i, WfFailed), q), id)
    ensures Remove(SetInstance(u, i, WfFailed), q).steps == u.steps
  {
    var r, v := Remove(u, q), Remove(SetInstance(u, i, WfFailed), q);
    forall y
      ensures ItemsFor(v, y) == ItemsFor(r, y)
    {
    }
  }

  lemma SameInstances(s: State, id: int, status: StepStatus)
    ensures UpdateStep(s, id, status).instances == s.instances
  {
  }

  lemma AttemptTouched(s: State, i: int, q: int, rec: StepRec, d: StepDef, steps: Steps, o: Choice)
    requires i in s.instances && rec.instance == i
    requires rec.id in s.steps && s.steps[rec.id] == rec && ItemsFor(s, rec.id) == {q} && s.nextQueue !in s.queue
    requires rec.status == Compensation && Undoing(rec, steps) && d == steps[rec.name]
    ensures var r := Remove(ExecuteCompensation(s, i, rec, d, steps, o), q);
            Touched(s, r, i, q, rec.id) && Reverted(r, rec.id, steps)
  {
    var id := rec.id;
    SameInstances(s, id, RolledBack);
    hide Touched, ItemsFor, SomeStep, HasUnfinished, SetInstance, UpdateStep, Enqueue,
         UpdateStepCompensationRetry, CompensationDelay, Idle, Waiting1;
    EndedTouched(s, i, q, id, RolledBack);
    EndedTouched(s, i, q, id, Failed);
    FailedTouched(s, UpdateStep(s, id, RolledBack), i, q, id);
    if d.onFailure in steps {
      AgainTouched(s, i, q, id, rec.compRetries + 1, CompensationDelay(steps[d.onFailure], rec.compRetries + 1));
    }
  }

  /** A compensation attempt keeps the invariant of a failed saga. */
  lemma AttemptSaga(s: State, i: int, def: Definition, chain: seq<string>, q: int, k: nat, o: Choice)
    requires Saga(s, i, def, chain) && AtStep(s, i, q, k) && s.instances[i].status == WfFailed
    requires IdsOf(s, i)[k] in s.steps && s.steps[IdsOf(s, i)[k]].name in def.steps
    ensures var rec := s.steps[IdsOf(s, i)[k]];
            Saga(Remove(ExecuteCompensation(s, i, rec, def.steps[rec.name], def.steps, o), q), i, def, chain)
  {
    var ids := IdsOf(s, i);
    var rec := s.steps[ids[k]];
    assert WellFormed(s);
    hide WellFormed, LinearFlow, Protected, Saga, Reverted, ItemsFor, ExecuteCompensation;
    QueuedStep(s, i, def, chain, q, k);
    SagaFacts(s, i, def, chain);
    IdsDistinct(s, i);
    Found(s, q);
    Fresh(s);
    AttemptTouched(s, i, q, rec, def.steps[rec.name], def.steps, o);
    var r := Remove(ExecuteCompensation(s, i, rec, def.steps[rec.name], def.steps, o), q);
    hide AtStep;
    OthersNotQ(s, r, ids, q, k);
    StillReverted(s, r, i, def, chain, k);
  }

  // ------------------------------------------------------------------ the final failure

  /** The snapshot of the instance by name is the prefix of the chain. */
  ghost predicate SnapshotOfChain(u: State, ids: seq<int>, chain: seq<string>, recs: map<string, StepRec>) {
    && |ids| <= |chain|
    && (forall l | 0 <= l < |ids| :: chain[l] in recs && ids[l] in u.steps && recs[chain[l]] == u.steps[ids[l]])
    && (forall x | x in recs :: x in chain[..|ids|])
  }

  lemma FromPrefix(u: State, i: int, chain: seq<string>, x: string) returns (l: nat)
    requires Prefix(u, IdsOf(u, i), chain) && x in ByName(StepsOf(u, i))
    ensures l < |IdsOf(u, i)| && x == chain[l] && ByName(StepsOf(u, i))[x] == u.steps[IdsOf(u, i)[l]]
  {
    var recs, ids := ByName(StepsOf(u, i)), IdsOf(u, i);
    hide ByName, IdsOf;
    var id :| id in ids && id in u.steps && u.steps[id] == recs[x];
    l :| 0 <= l < |ids| && ids[l] == id;
  }

  lemma SnapshotIsPrefix(u: State, i: int, chain: seq<string>)
    requires Prefix(u, IdsOf(u, i), chain) && Distinct(chain)
    ensures |IdsOf(u, i)| <= |chain| && SnapshotOfChain(u, IdsOf(u, i), chain, ByName(StepsOf(u, i)))
  {
    hide ByName, StepsOf, IdsOf;
    var recs, ids := ByName(StepsOf(u, i)), IdsOf(u, i);
    forall x | x in recs
      ensures x in chain[..|ids|]
    {
      var l := FromPrefix(u, i, chain, x);
      assert chain[..|ids|][l] == x;
    }
    forall l | 0 <= l < |ids|
      ensures chain[l] in recs && recs[chain[l]] == u.steps[ids[l]]
    {
      InSnapshot(u, i, chain, l);
      var m := FromPrefix(u, i, chain, chain[l]);
    }
  }

  lemma InSnapshot(u: State, i: int, chain: seq<string>, l: nat)
    requires Prefix(u, IdsOf(u, i), chain) && l < |IdsOf(u, i)|
    ensures chain[l] in ByName(StepsOf(u, i))
  {
    var ids := IdsOf(u, i);
    PresentHas(u.steps, ids, ids[l]);
    assert u.steps[ids[l]] in StepsOf(u, i);
  }

  /** The steps up to k ended, completed or failed. */
  predicate Ended(u: State, ids: seq<int>, k: nat) {
    k < |ids| && forall l | 0 <= l <= k ::
      ids[l] in u.steps && (u.steps[ids[l]].status == Completed || u.steps[ids[l]].status == Failed)
  }

  /** x is a step of the chain between b and k. */
  predicate InSuffix(chain: seq<string>, b: nat, k: nat, x: string) {
    x in chain && b <= Index(chain, x) <= k
  }

  /** The steps handed to compensation are those of the chain from b to k. */
  lemma LogIsSuffix(def: Definition, chain: seq<string>, e: Env, u: State, ids: seq<int>, b: nat, k: nat, x: string)
    requires LinearFlow(def, chain) && k < |chain| && e.steps == def.steps && StopsAt(def, chain, e.stop, b, k)
    requires Ended(u, ids, k) && SnapshotOfChain(u, ids, chain, e.recs)
    ensures Fits(ChainTree(def, chain), e) && chain[k] in ChainTree(def, chain).depth
            && StopAbove(ChainTree(def, chain), e, chain[k])
    ensures Eligible(e, x) && (OnPath(ChainTree(def, chain), e, chain[k], x)
                               || BesidePath(ChainTree(def, chain), e, chain[k], x))
            <==> InSuffix(chain, b, k, x)
  {
    hide LinearFlow, StopsAt, OnPath, BesidePath, Fits, StopAbove, ChainTree;
    ChainFits(def, chain, e, b, k);
    ChainPath(def, chain, e, b, k, x);
    NoBranches(def, chain, e, k);
    if x in chain && Index(chain, x) <= k {
      var l := Index(chain, x);
      assert l < |ids| && e.recs[chain[l]] == u.steps[ids[l]];
    }
  }

  /** The rollback of step k of the chain, on the store. */
  lemma FailureEffect(u: State, def: Definition, chain: seq<string>, ids: seq<int>, e: Env, b: nat, k: nat)
    returns (log: seq<string>)
    requires LinearFlow(def, chain) && k < |chain| && WellFormed(u)
    requires Ended(u, ids, k) && SnapshotOfChain(u, ids, chain, e.recs)
    requires Snapshot(u, e) && e.steps == def.steps && StopsAt(def, chain, e.stop, b, k)
    ensures AllUndone(u, RollBack(u, e.recs, def, chain[k], e.stop).0, e, log, def.id)
    ensures RollBack(u, e.recs, def, chain[k], e.stop).1
    ensures forall x :: x in log <==> InSuffix(chain, b, k, x)
  {
    var t := ChainTree(def, chain);
    hide WellFormed, LinearFlow, StopsAt, OnPath, BesidePath, StopAbove, ChainTree, Ended, SnapshotOfChain, Fits;
    hide RollbackLog, AllUndone, RollBack, Valid, Index, Eligible, InSuffix, CountersFresh;
    WellCounters(u);
    LogIsSuffix(def, chain, e, u, ids, b, k, "");
    TreeUndone(u, t, e, chain[k], def);
    log := RollbackLog(t, e, chain[k]);
    forall x
      ensures x in log <==> InSuffix(chain, b, k, x)
    {
      LogIsSuffix(def, chain, e, u, ids, b, k, x);
    }
  }

  lemma UnloggedKept(u: State, v: State, e: Env, log: seq<string>, workflow: string, id: int)
    requires AllUndone(u, v, e, log, workflow) && id in u.steps && !Logged(e, log, id)
    ensures SameAt(u, v, id)
  {
    assert Framed(u, v, e, log);
    hide AllUndone, Logged, CountersFresh;
    forall q | q in ItemsFor(v, id)
      ensures q in ItemsFor(u, id)
    {
      assert v.queue[q].step == Some(id);
    }
    forall q | q in ItemsFor(u, id)
      ensures q in ItemsFor(v, id)
    {
      assert q in u.queue;
    }
  }

  lemma LoggedReverted(u: State, v: State, e: Env, log: seq<string>, workflow: string, x: string, q: int)
    requires AllUndone(u, v, e, log, workflow) && x in log && q in u.queue && e.recs[x].compRetries == 0
    requires ItemsFor(u, e.recs[x].id) <= {q}
    ensures Reverted(Remove(v, q), e.recs[x].id, e.steps) && v.steps[e.recs[x].id].name == e.recs[x].name
  {
    var rec := e.recs[x];
    var r := Remove(v, q);
    assert Accounted(u, v, rec, e.steps, workflow) && v.steps[rec.id] == Outcome(rec, e.steps);
    assert ItemsFor(r, rec.id) == NewItems(u, v, rec.id) by {
      assert Framed(u, v, e, log);
      hide AllUndone, Logged, CountersFresh, Accounted, Outcome;
      forall y | y in ItemsFor(r, rec.id)
        ensures y in NewItems(u, v, rec.id)
      {
        assert y in u.queue ==> y in ItemsFor(u, rec.id);
      }
      forall y | y in NewItems(u, v, rec.id)
        ensures y in ItemsFor(r, rec.id)
      {
      }
    }
    hide AllUndone, NewItems, NewLetters, Framed, CompensationDelay;
  }

  /** The record ids of the snapshot are those of the instance. */
  lemma LoggedAt(chain: seq<string>, e: Env, u: State, ids: seq<int>, log: seq<string>, b: nat, k: nat, l: nat)
    requires Distinct(chain) && k < |ids| && l < |ids| && SnapshotOfChain(u, ids, chain, e.recs)
    requires (forall m | 0 <= m < |ids| :: ids[m] in u.steps && u.steps[ids[m]].id == ids[m]) && Distinct(ids)
    requires Loggable(e, log) && forall x :: x in log <==> InSuffix(chain, b, k, x)
    ensures Logged(e, log, ids[l]) <==> b <= l <= k
    ensures b <= l <= k ==> chain[l] in log && e.recs[chain[l]].id == ids[l]
  {
    AtIndex(chain, l);
    assert InSuffix(chain, b, k, chain[l]) <==> b <= l <= k;
    assert e.recs[chain[l]] == u.steps[ids[l]];
    if Logged(e, log, ids[l]) {
      var x :| x in log && e.recs[x].id == ids[l];
      var m := Index(chain, x);
      assert InSuffix(chain, b, k, x);
      assert e.recs[chain[m]] == u.steps[ids[m]];
    }
  }

  /** After the rollback the steps from b to k are reverted and the others are as before. */
  lemma AfterRollback(u: State, v: State, def: Definition, chain: seq<string>, e: Env, ids: seq<int>, log: seq<string>,
                      q: int, b: nat, k: nat, l: nat)
    requires Distinct(chain) && k < |ids| && l < |ids| && SnapshotOfChain(u, ids, chain, e.recs)
             && AllUndone(u, v, e, log, def.id)
    requires (forall m | 0 <= m < |ids| :: ids[m] in u.steps && u.steps[ids[m]].id == ids[m]) && Distinct(ids)
    requires (forall x :: x in log <==> InSuffix(chain, b, k, x)) && q in u.queue
    requires b <= l <= k ==> ItemsFor(u, ids[l]) <= {q} && u.steps[ids[l]].compRetries == 0
    requires e.steps == def.steps
    ensures if b <= l <= k then Reverted(Remove(v, q), ids[l], def.steps) else SameAt(u, v, ids[l])
    ensures ids[l] in v.steps && v.steps[ids[l]].name == u.steps[ids[l]].name
  {
    assert Loggable(e, log) && e.recs[chain[l]] == u.steps[ids[l]];
    hide InSuffix, AllUndone, SnapshotOfChain, Logged, Reverted;
    LoggedAt(chain, e, u, ids, log, b, k, l);
    if b <= l <= k {
      LoggedReverted(u, v, e, log, def.id, chain[l], q);
      RevertedHere(Remove(v, q), ids[l], def.steps);
    } else {
      UnloggedKept(u, v, e, log, def.id, ids[l]);
    }
  }

  /** All steps before k are completed with nothing queued, step k failed and only q is queued
      for it. */
  ghost predicate Failing(u: State, ids: seq<int>, q: int, k: nat) {
    && |ids| == k + 1
    && (forall l | 0 <= l < k :: Done(u, ids[l]))
    && ids[k] in u.steps && u.steps[ids[k]].status == Failed && u.steps[ids[k]].compRetries == 0
    && ItemsFor(u, ids[k]) == {q}
  }

  lemma FailedPhase(u: State, v: State, def: Definition, chain: seq<string>, e: Env, ids: seq<int>, log: seq<string>,
                    q: int, k: nat)
    requires LinearFlow(def, chain) && k < |chain| && def.steps[chain[k]].kind != SavePoint && q in u.queue
    requires Failing(u, ids, q, k) && SnapshotOfChain(u, ids, chain, e.recs) && AllUndone(u, v, e, log, def.id)
    requires (forall m | 0 <= m < |ids| :: ids[m] in u.steps && u.steps[ids[m]].id == ids[m]) && Distinct(ids)
    requires e.steps == def.steps && forall x :: x in log <==> InSuffix(chain, Protected(def.steps, chain, k + 1), k, x)
    ensures Phase(Remove(v, q), ids, WfFailed, def.steps, chain)
    ensures forall l | 0 <= l < |ids| :: ids[l] in v.steps && v.steps[ids[l]].name == u.steps[ids[l]].name
  {
    hide InSuffix, AllUndone, SnapshotOfChain, Reverted, ItemsFor, Phase, IsLink;
    var r := Remove(v, q);
    var b := Protected(def.steps, chain, k + 1);
    forall l: nat | l < |ids|
      ensures if l < b then Done(r, ids[l]) else Reverted(r, ids[l], def.steps)
      ensures ids[l] in v.steps && v.steps[ids[l]].name == u.steps[ids[l]].name
    {
      assert l < k ==> Done(u, ids[l]);
      AfterRollback(u, v, def, chain, e, ids, log, q, b, k, l);
      ItemsRemove(v, q, ids[l]);
    }
    PhaseFailed(r, ids, def.steps, chain);
  }

  lemma FlowInside(def: Definition, chain: seq<string>)
    requires LinearFlow(def, chain)
    ensures forall k | 0 <= k < |chain| :: chain[k] in def.steps
  {
  }

  lemma PhaseFailed(r: State, ids: seq<int>, steps: Steps, chain: seq<string>)
    requires 0 < |ids| <= |chain| && forall k | 0 <= k < |chain| :: chain[k] in steps
    requires forall l: nat | l < |ids| :: if l < Protected(steps, chain, |ids|) then
             Done(r, ids[l]) else Reverted(r, ids[l], steps)
    ensures Phase(r, ids, WfFailed, steps, chain)
  {
    hide Done, Reverted;
  }

  lemma RevertedHere(r: State, id: int, steps: Steps)
    requires Reverted(r, id, steps)
    ensures id in r.steps
  {
  }

  /** The state in which the rollback of a running saga begins. */
  lemma FailingNow(s: State, i: int, def: Definition, chain: seq<string>, q: int, k: nat)
    requires Saga(s, i, def, chain) && AtStep(s, i, q, k) && s.instances[i].status == WfRunning
    ensures var ids := IdsOf(s, i);
            var u := Ran(s, ids[k], Failed);
            && WellFormed(u) && IdsOf(u, i) == ids && k < |chain| && Failing(u, ids, q, k) && Prefix(u, ids, chain)
            && u.queue == s.queue && u.instances == s.instances && u.definitions == s.definitions
            && u.cancels == s.cancels
            && SameStep(s.steps[ids[k]], u.steps[ids[k]]) && s.steps[ids[k]].instance == i
            && s.steps[ids[k]].id == ids[k]
  {
    var ids := IdsOf(s, i);
    var id := ids[k];
    var u := Ran(s, id, Failed);
    hide WellFormed, Ran, LinearFlow, Protected, Saga, IdsOf, NoHumans, Runs, Waiting1, ItemsFor, Prefix;
    SagaFacts(s, i, def, chain);
    RunningDone(s, i, def, chain);
    QueuedStep(s, i, def, chain, q, k);
    Found(s, q);
    RanWell(s, i, id, Failed);
    RanShape(s, id, Failed);
    RanIds(s, i, id, Failed);
    IdsDistinct(s, i);
    hide Done, Failing;
    LastFailing(s, u, ids, q, k);
    RanPrefix(s, ids, chain, k);
  }

  lemma LastFailing(s: State, u: State, ids: seq<int>, q: int, k: nat)
    requires |ids| == k + 1 && Distinct(ids) && ids[k] in s.steps && ids[k] in u.steps && ItemsFor(s, ids[k]) == {q}
    requires u == s.(steps := s.steps[ids[k] := u.steps[ids[k]]])
    requires u.steps[ids[k]].status == Failed && u.steps[ids[k]].compRetries == 0
    requires forall l | 0 <= l < k :: Done(s, ids[l])
    ensures Failing(u, ids, q, k)
  {
    hide ItemsFor;
    forall l | 0 <= l < k
      ensures Done(u, ids[l])
    {
      assert Done(s, ids[l]) && ids[l] != ids[k];
      SameItems(s, u, ids[l]);
    }
    SameItems(s, u, ids[k]);
  }

  lemma SameItems(s: State, u: State, id: int)
    requires u.queue == s.queue
    ensures ItemsFor(u, id) == ItemsFor(s, id)
  {
  }

  lemma RanPrefix(s: State, ids: seq<int>, chain: seq<string>, k: nat)
    requires Prefix(s, ids, chain) && k < |ids|
    ensures Prefix(Ran(s, ids[k], Failed), ids, chain)
  {
    RanShape(s, ids[k], Failed);
    hide Ran;
  }

  /** A final failure: the steps after the nearest savepoint are reverted, the others kept. */
  lemma FailedFrom(u: State, i: int, def: Definition, chain: seq<string>, rec: StepRec, q: int, k: nat, stop: string)
    requires LinearFlow(def, chain) && k < |chain| && chain[k] in def.steps && def.steps[chain[k]].kind != SavePoint
    requires WellFormed(u) && Failing(u, IdsOf(u, i), q, k) && Prefix(u, IdsOf(u, i), chain) && q in u.queue
    requires Runs(u, i, def) && i !in u.cancels && stop == StopOf(def, chain, k)
    requires rec.id == IdsOf(u, i)[k] && rec.id in u.steps && SameStep(u.steps[rec.id], rec) && rec.instance == i
             && rec.name == chain[k]
    ensures Saga(Remove(SetInstance(RollBack(u, SnapshotOf(u, i, rec), def, rec.name, stop).0, i, WfFailed), q), i,
                 def, chain)
  {
    var ids := IdsOf(u, i);
    assert Distinct(chain);
    FlowInside(def, chain);
    hide WellFormed, LinearFlow, Protected, Saga, Failing, StopOf, SnapshotOf, RollBack, ItemsFor;
    IdsDistinct(u, i);
    FailedIsNamed(u, i, rec);
    SnapshotIsPrefix(u, i, chain);
    var recs := SnapshotOf(u, i, rec);
    var e := Env(def.steps, stop, recs);
    ByNameIsSnapshot(u, i, e);
    hide ByName, StepsOf, Prefix;
    FailingEnded(u, ids, q, k);
    StopShape(def, chain, k);
    hide StopsAt;
    var log := FailureEffect(u, def, chain, ids, e, Protected(def.steps, chain, k + 1), k);
    var v := RollBack(u, recs, def, chain[k], stop).0;
    hide InSuffix, AllUndone, SnapshotOfChain;
    FailedPhase(u, v, def, chain, e, ids, log, q, k);
    UndoneFrame(u, v, e, log, def.id, i);
    FailedAssembled(u, v, i, def, chain, ids, q);
  }

  lemma FailingEnded(u: State, ids: seq<int>, q: int, k: nat)
    requires Failing(u, ids, q, k)
    ensures Ended(u, ids, k)
  {
    forall l | 0 <= l <= k
      ensures ids[l] in u.steps && (u.steps[ids[l]].status == Completed || u.steps[ids[l]].status == Failed)
    {
      assert l < k ==> Done(u, ids[l]);
    }
  }

  lemma UndoneFrame(u: State, v: State, e: Env, log: seq<string>, workflow: string, i: int)
    requires AllUndone(u, v, e, log, workflow)
    ensures v.instances == u.instances && v.definitions == u.definitions && v.cancels == u.cancels
            && IdsOf(v, i) == IdsOf(u, i)
  {
    assert Framed(u, v, e, log);
    hide AllUndone, Logged, CountersFresh;
  }

  lemma FailedAssembled(u: State, v: State, i: int, def: Definition, chain: seq<string>, ids: seq<int>, q: int)
    requires LinearFlow(def, chain) && Runs(u, i, def) && i !in u.cancels && Prefix(u, ids, chain) && IdsOf(u, i) == ids
    requires v.instances == u.instances && v.definitions == u.definitions && v.cancels == u.cancels
             && IdsOf(v, i) == ids
    requires forall l | 0 <= l < |ids| :: ids[l] in v.steps && v.steps[ids[l]].name == u.steps[ids[l]].name
    requires (forall k | 0 <= k < |chain| :: chain[k] in def.steps)
             && Phase(Remove(v, q), ids, WfFailed, def.steps, chain)
    ensures Saga(Remove(SetInstance(v, i, WfFailed), q), i, def, chain)
  {
    var r := Remove(SetInstance(v, i, WfFailed), q);
    assert IdsOf(r, i) == ids && Prefix(r, ids, chain);
    hide LinearFlow, IdsOf, Prefix;
    forall l | 0 <= l < |ids|
      ensures Done(Remove(v, q), ids[l]) ==> Done(r, ids[l])
      ensures Active(Remove(v, q), ids[l]) ==> Active(r, ids[l])
      ensures Reverted(Remove(v, q), ids[l], def.steps) ==> Reverted(r, ids[l], def.steps)
    {
      assert ItemsFor(r, ids[l]) == ItemsFor(Remove(v, q), ids[l]);
      SameAtAll(Remove(v, q), r, ids[l]);
    }
    assert 0 < |ids| <= |chain|;
    PhaseSame(Remove(v, q), r, ids, WfFailed, def.steps, chain);
    SagaIs(r, i, def, chain);
  }
}
