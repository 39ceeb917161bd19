/** Linear saga safety over every run. */
module SagaRuns {
  import opened Definitions
  import opened Trees
  import opened Store
  import opened Queue
  import opened Rollback
  import opened RollbackEngine
  import opened Engine
  import opened EngineFrames
  import opened EngineTame
  import opened EngineSteps
  import opened EngineRuns
  import opened SagaChains
  import opened Sagas
  import opened SagaSteps
  import opened SagaRollback
  import opened SagaCancel

  // ------------------------------------------------------------------ executing the saga's own item

  /** Executing the last step of a running saga. */
  lemma SuccessSaga(s: State, i: int, def: Definition, chain: seq<string>, q: int, k: nat, o: Choice)
    requires Saga(s, i, def, chain) && AtStep(s, i, q, k) && s.instances[i].status == WfRunning && i !in s.cancels
    requires IdsOf(s, i)[k] in s.steps && s.steps[IdsOf(s, i)[k]].name in def.steps
    ensures var rec := s.steps[IdsOf(s, i)[k]];
            var d := def.steps[rec.name];
            Saga(Remove(HandleSuccess(UpdateStep(s, rec.id, Running), i, rec, d, def, true, o), q), i, def, chain)
  {
    var ids := IdsOf(s, i);
    var rec := s.steps[ids[k]];
    assert WellFormed(s);
    hide WellFormed, LinearFlow, Protected, Saga, AtStep, HandleSuccess, Spawn, CompleteWorkflow, HasUnfinished,
         SetInstance, IdsOf, Ran, UpdateStep;
    QueuedStep(s, i, def, chain, q, k);
    SagaFacts(s, i, def, chain);
    IdsDistinct(s, i);
    SuccessIs(s, i, rec, def, chain, k, o);
    if k + 1 < |chain| {
      AdvancedSaga(s, i, def, chain, q, k, def.steps[chain[k + 1]]);
    } else {
      EndsCompleted(s, i, def, chain, q, k);
      CompletedSaga(s, i, def, chain, q, k);
    }
  }

  lemma SuccessIs(s: State, i: int, rec: StepRec, def: Definition, chain: seq<string>, k: nat, o: Choice)
    requires LinearFlow(def, chain) && k < |chain| && rec.name == chain[k] && rec.name in def.steps
    requires i in s.instances && s.instances[i].status == WfRunning
    ensures var u := Ran(s, rec.id, Completed);
            && (k + 1 < |chain| ==> chain[k + 1] in def.steps)
            && HandleSuccess(UpdateStep(s, rec.id, Running), i, rec, def.steps[rec.name], def, true, o) ==
               if k + 1 < |chain| then Spawn(u, i, chain[k + 1], def.steps[chain[k + 1]])
               else if HasUnfinished(u, i) then u else CompleteWorkflow(u, i, def.steps)
  {
    hide LinearFlow, HandleSuccess, Spawn, CompleteWorkflow, HasUnfinished, UpdateStep;
    LinkAt(def, chain, k);
    LinearPlain(def, chain);
    if k + 1 < |chain| {
      LinkAt(def, chain, k + 1);
    }
    UpdateKeepsQueue(s, rec.id, Running);
    LinearSuccess(UpdateStep(s, rec.id, Running), i, rec, def.steps[rec.name], def, o);
  }

  lemma StopIs(def: Definition, chain: seq<string>, k: nat, stop: string)
    requires LinearFlow(def, chain) && k < |chain| && StopsRight(def, chain[k], stop)
    ensures stop == StopOf(def, chain, k)
  {
    hide LinearFlow, NearestSavePoint;
    ChainTreeValid(def, chain);
    TreeAt(def, chain, k);
    NearestIsProtected(def, chain, k, stop);
  }

  lemma FailureSaga(s: State, i: int, def: Definition, chain: seq<string>, q: int, k: nat, o: Choice)
    requires Saga(s, i, def, chain) && AtStep(s, i, q, k) && s.instances[i].status == WfRunning && i !in s.cancels
    requires IdsOf(s, i)[k] in s.steps && s.steps[IdsOf(s, i)[k]].name in def.steps
    requires StopsRight(def, s.steps[IdsOf(s, i)[k]].name, o.stop)
    requires def.steps[s.steps[IdsOf(s, i)[k]].name].kind == Task
    ensures var rec := s.steps[IdsOf(s, i)[k]];
            var d := def.steps[rec.name];
            Saga(Remove(HandleFailure(UpdateStep(s, rec.id, Running), i, rec, d, def, o), q), i, def, chain)
  {
    var ids := IdsOf(s, i);
    var rec := s.steps[ids[k]];
    var d := def.steps[rec.name];
    SagaFacts(s, i, def, chain);
    assert WellFormed(s) && q in s.queue && !def.dlqEnabled && rec.name == chain[k] && k < |chain|;
    hide WellFormed, LinearFlow, Protected, Saga, AtStep, RollBack, SnapshotOf, SetInstance, IdsOf, Enqueue, StopsRight;
    IdsDistinct(s, i);
    var u := Ran(s, rec.id, Failed);
    if Retries(rec, d) {
      RetriedSaga(s, i, def, chain, q, k, d.delay);
    } else {
      LinearPlain(def, chain);
      StopIs(def, chain, k, o.stop);
      FailingNow(s, i, def, chain, q, k);
      FailedFrom(u, i, def, chain, rec, q, k, o.stop);
      hide HandleFailure;
      LinearFailure(UpdateStep(s, rec.id, Running), i, rec, d, def, o);
    }
  }

  /** Executing any item of the saga keeps the invariant, or halts it when a cancel request
      was waiting. */
  lemma OwnItemSaga(s: State, i: int, def: Definition, chain: seq<string>, q: int, o: Choice)
    requires WellFormed(s) && Saga(s, i, def, chain) && q in s.queue && s.queue[q].instance == i && Permitted(s, q, o)
    ensures NoHumans(s) && !Stale(s, q)
    ensures Saga(Execute(s, q, o), i, def, chain) || (i in s.cancels && Halted(Execute(s, q, o), i, def, chain))
  {
    hide WellFormed, LinearFlow, Saga, Halted, Dispatch, StopsRight, NoHumans, ItemsFor, Protected, IdsOf, Made;
    var k := WhichStep(s, i, q);
    QueuedStep(s, i, def, chain, q, k);
    Found(s, q);
    var c := s.(queue := Claim(s.queue, q));
    ClaimSaga(s, i, def, chain, q, k);
    ClaimedIds(s, i, q);
    var rec := s.steps[IdsOf(s, i)[k]];
    DefinedStep(s, i, rec);
    SagaFacts(s, i, def, chain);
    assert Execute(s, q, o) == Dispatch(c, q, i, rec, o);
    if i in s.cancels {
      CancelDispatch(c, i, def, chain, q, k, o);
    } else {
      DispatchSaga(c, i, def, chain, q, k, o);
    }
  }

  /** A waiting cancel request is served, unless the item goes back to the queue. */
  lemma CancelDispatch(s: State, i: int, def: Definition, chain: seq<string>, q: int, k: nat, o: Choice)
    requires Saga(s, i, def, chain) && AtStep(s, i, q, k) && NoHumans(s) && i in s.cancels && IdsOf(s, i)[k] in s.steps
    ensures var r := Dispatch(s, q, i, s.steps[IdsOf(s, i)[k]], o);
            Saga(r, i, def, chain) || Halted(r, i, def, chain)
  {
    var rec := s.steps[IdsOf(s, i)[k]];
    hide WellFormed, LinearFlow, Saga, Halted, AtStep, ItemsFor, NoHumans, IdsOf;
    hide HandBack, ExecuteCompensation, HandleSuccess, HandleFailure, UpdateStep, Remove, HandleCancellation;
    SagaFacts(s, i, def, chain);
    StepFacts(s, i, def, chain, q, k);
    HandBackSaga(s, i, def, chain, q, o.cooldown);
    CancelledHalts(s, i, def, chain, q, k, s.cancels[i]);
  }

  /** Executing any item of a halted saga keeps it halted. */
  lemma OwnItemHalted(s: State, i: int, def: Definition, chain: seq<string>, q: int, o: Choice)
    requires WellFormed(s) && Halted(s, i, def, chain) && q in s.queue && s.queue[q].instance == i
    ensures NoHumans(s) && !Stale(s, q) && Halted(Execute(s, q, o), i, def, chain)
  {
    hide WellFormed, LinearFlow, Halted, Dispatch, NoHumans, ItemsFor, IdsOf, Made, HaltedPhase, SameView;
    var k := WhichStep(s, i, q);
    HaltedQueued(s, i, def, chain, q, k);
    Found(s, q);
    HaltedFacts(s, i, def, chain);
    var c := s.(queue := Claim(s.queue, q));
    ClaimedIds(s, i, q);
    ClaimedAt(s, i, q, k);
    ClaimedView(s, i, q);
    HaltedSame(s, c, i, def, chain);
    var rec := s.steps[IdsOf(s, i)[k]];
    DefinedStep(s, i, rec);
    assert Execute(s, q, o) == Dispatch(c, q, i, rec, o);
    HaltedDispatch(c, i, def, chain, q, k, o);
  }

  lemma HaltedDispatch(s: State, i: int, def: Definition, chain: seq<string>, q: int, k: nat, o: Choice)
    requires Halted(s, i, def, chain) && AtStep(s, i, q, k) && NoHumans(s) && IdsOf(s, i)[k] in s.steps
    requires Defined(s, i, s.steps[IdsOf(s, i)[k]].name) && Runs(s, i, def)
    ensures Halted(Dispatch(s, q, i, s.steps[IdsOf(s, i)[k]], o), i, def, chain)
  {
    hide WellFormed, LinearFlow, Halted, AtStep, ItemsFor, NoHumans, IdsOf, ExecuteCompensation, Remove, HandBack,
         SameView;
    HaltedQueued(s, i, def, chain, q, k);
    HaltedFacts(s, i, def, chain);
    HandBackView(s, i, q, o.cooldown);
    HaltedSame(s, HandBack(s, q, o.cooldown), i, def, chain);
    HaltedAttempt(s, i, def, chain, q, k, o);
  }

  lemma ClaimedIds(s: State, i: int, q: int)
    requires q in s.queue
    ensures IdsOf(s.(queue := Claim(s.queue, q)), i) == IdsOf(s, i)
  {
  }

  lemma ClaimSaga(s: State, i: int, def: Definition, chain: seq<string>, q: int, k: nat)
    requires Saga(s, i, def, chain) && AtStep(s, i, q, k)
    ensures var c := s.(queue := Claim(s.queue, q));
            Saga(c, i, def, chain) && AtStep(c, i, q, k) && NoHumans(c)
  {
    hide Saga, WellFormed, NoHumans, SameView, LinearFlow, Prefix, Runs, IdsOf;
    SagaFacts(s, i, def, chain);
    ClaimedAt(s, i, q, k);
    ClaimedView(s, i, q);
    SagaSame(s, s.(queue := Claim(s.queue, q)), i, def, chain);
  }

  lemma ClaimedAt(s: State, i: int, q: int, k: nat)
    requires AtStep(s, i, q, k)
    ensures var c := s.(queue := Claim(s.queue, q));
            AtStep(c, i, q, k) && NoHumans(c)
  {
    hide WellFormed, Tame, NoHumans;
    var c := s.(queue := Claim(s.queue, q));
    RequeueTame(s, c, i, map[]);
    TameWell(s, c, i, map[]);
    Found(c, q);
  }

  lemma ClaimedView(s: State, i: int, q: int)
    requires q in s.queue && i in s.instances
    ensures SameView(s, s.(queue := Claim(s.queue, q)), i)
  {
    var c := s.(queue := Claim(s.queue, q));
    forall id | id in IdsOf(s, i)
      ensures SameAt(s, c, id)
    {
      assert ItemsFor(c, id) == ItemsFor(s, id);
    }
  }

  lemma HandBackView(s: State, i: int, q: int, cooldown: real)
    requires i in s.instances
    ensures SameView(s, HandBack(s, q, cooldown), i)
  {
    var c := HandBack(s, q, cooldown);
    forall id | id in IdsOf(s, i)
      ensures SameAt(s, c, id)
    {
      assert ItemsFor(c, id) == ItemsFor(s, id);
    }
  }

  lemma HandBackSaga(s: State, i: int, def: Definition, chain: seq<string>, q: int, cooldown: real)
    requires Saga(s, i, def, chain)
    ensures Saga(HandBack(s, q, cooldown), i, def, chain)
  {
    hide Saga, SameView, HandBack;
    SagaFacts(s, i, def, chain);
    HandBackView(s, i, q, cooldown);
    SagaSame(s, HandBack(s, q, cooldown), i, def, chain);
  }

  lemma DispatchSaga(s: State, i: int, def: Definition, chain: seq<string>, q: int, k: nat, o: Choice)
    requires Saga(s, i, def, chain) && AtStep(s, i, q, k) && NoHumans(s) && i !in s.cancels
    requires IdsOf(s, i)[k] in s.steps && StopsRight(def, s.steps[IdsOf(s, i)[k]].name, o.stop)
    ensures Saga(Dispatch(s, q, i, s.steps[IdsOf(s, i)[k]], o), i, def, chain)
  {
    var rec := s.steps[IdsOf(s, i)[k]];
    hide WellFormed, LinearFlow, Saga, AtStep, ItemsFor, NoHumans, IdsOf, StopsRight, Dispatch;
    hide HandBack, ExecuteCompensation, HandleSuccess, HandleFailure, UpdateStep, Remove;
    StepFacts(s, i, def, chain, q, k);
    DispatchIs(s, i, rec, def, q, o);
    HandBackSaga(s, i, def, chain, q, o.cooldown);
    if rec.status == Compensation {
      AttemptSaga(s, i, def, chain, q, k, o);
    } else {
      SuccessSaga(s, i, def, chain, q, k, o);
      if def.steps[rec.name].kind == Task {
        FailureSaga(s, i, def, chain, q, k, o);
      }
    }
  }

  /** What is known of the step an item of the saga leads to. */
  lemma StepFacts(s: State, i: int, def: Definition, chain: seq<string>, q: int, k: nat)
    requires Saga(s, i, def, chain) && AtStep(s, i, q, k) && IdsOf(s, i)[k] in s.steps
    ensures var rec := s.steps[IdsOf(s, i)[k]];
            && Runs(s, i, def) && Defined(s, i, rec.name) && !Finished(rec.status)
            && (def.steps[rec.name].kind == Task || def.steps[rec.name].kind == SavePoint)
            && s.instances[i].status == if rec.status == Compensation then WfFailed else WfRunning
  {
    hide WellFormed, LinearFlow, Saga, ItemsFor, IdsOf, Protected;
    QueuedStep(s, i, def, chain, q, k);
    SagaFacts(s, i, def, chain);
    LinkAt(def, chain, k);
  }

  /** The dispatcher on tasks and savepoints. */
  lemma DispatchIs(s: State, i: int, rec: StepRec, def: Definition, q: int, o: Choice)
    requires NoHumans(s) && Runs(s, i, def) && Defined(s, i, rec.name) && !Finished(rec.status) && i !in s.cancels
    requires def.steps[rec.name].kind == Task || def.steps[rec.name].kind == SavePoint
    ensures var d := def.steps[rec.name];
            var u := UpdateStep(s, rec.id, Running);
            var r := Dispatch(s, q, i, rec, o);
            || r == HandBack(s, q, o.cooldown)
            || (rec.status == Compensation && r == Remove(ExecuteCompensation(s, i, rec, d, def.steps, o), q))
            || (rec.status != Compensation && r == Remove(HandleSuccess(u, i, rec, d, def, true, o), q))
            || (rec.status != Compensation && d.kind == Task && r == Remove(HandleFailure(u, i, rec, d, def, o), q))
  {
    hide NoHumans, HandBack, ExecuteCompensation, HandleSuccess, HandleFailure, UpdateStep, Remove;
  }

  // ------------------------------------------------------------------ every transition

  /** The transition drops an item of instance i although it works on another instance. */
  ghost predicate Robs(s: State, op: Op, i: int) {
    && op.NextOp? && op.item in s.queue && Stale(s, op.item)
    && s.queue[op.item].step.value in s.queue && s.queue[s.queue[op.item].step.value].instance == i
  }

  lemma StaleIff(s: State, q: int)
    requires WellFormed(s) && q in s.queue
    ensures && s.queue[q].instance in s.instances && s.queue[q].step.Some? && s.queue[q].step.value in s.steps
            && (Stale(s, q) <==> s.instances[s.queue[q].instance].status != WfDLQ
                                 && s.steps[s.queue[q].step.value].status in {Skipped, Paused, RolledBack})
  {
    hide WellFormed, IdsOf;
    Found(s, q);
  }

  /** Executing an item of one instance loses an item of another one exactly when the step is
      finished and the lost item bears the number of that step. */
  lemma ForeignItemLostIff(s: State, q: int, o: Choice, p: int)
    requires WellFormed(s) && q in s.queue && p in s.queue && s.queue[p].instance != s.queue[q].instance
    ensures NoHumans(s) && s.queue[q].step.Some? && s.queue[q].step.value in s.steps
            && s.queue[q].instance in s.instances
    ensures p !in Execute(s, q, o).queue <==> Stale(s, q) && p == s.queue[q].step.value
    ensures Stale(s, q) <==> s.instances[s.queue[q].instance].status != WfDLQ
                             && s.steps[s.queue[q].step.value].status in {Skipped, Paused, RolledBack}
  {
    hide WellFormed, Execute, NoHumans, Stale, IdsOf, Effect;
    StaleIff(s, q);
    ExecuteEffect(s, q, o);
    if !Stale(s, q) {
      var i := s.queue[q].instance;
      EffectWell(s, Execute(s, q, o), i, s.queue[q].step.value, DefinitionOf(s, i).steps);
      assert LocalItems(s, Execute(s, q, o), i);
    }
  }

  /** The execution of another instance's item leaves the instance as it is. */
  lemma OtherItemView(s: State, i: int, q: int, o: Choice)
    requires WellFormed(s) && i in s.instances && q in s.queue && s.queue[q].instance != i
    requires !Robs(s, NextOp(q, o), i)
    ensures NoHumans(s) && SameView(s, Execute(s, q, o), i)
  {
    ExecuteEffect(s, q, o);
    var r := Execute(s, q, o);
    if Stale(s, q) {
      StaleSame(s, r, i, q);
    } else {
      var j := s.queue[q].instance;
      EffectWell(s, r, j, s.queue[q].step.value, DefinitionOf(s, j).steps);
      hide WellFormed, Effect, Local;
      OtherMoves(s, r, i, j);
    }
  }

  lemma StaleSame(s: State, r: State, i: int, q: int)
    requires WellFormed(s) && q in s.queue && s.queue[q].instance != i && s.queue[q].step.Some? && i in s.instances
    requires r == s.(queue := s.queue - {s.queue[q].step.value} - {q})
    requires s.queue[q].step.value in s.queue ==> s.queue[s.queue[q].step.value].instance != i
    ensures SameView(s, r, i)
  {
    hide WellFormed;
    FrozenAreOwn(s, i);
    assert IdsOf(r, i) == IdsOf(s, i);
    hide IdsOf;
    forall id | id in IdsOf(s, i)
      ensures SameAt(s, r, id)
    {
      forall p | p in ItemsFor(s, id)
        ensures p in ItemsFor(r, id)
      {
        ItemOwner(s, p, id);
      }
      assert ItemsFor(r, id) == ItemsFor(s, id);
    }
  }

  lemma QuietSame(s: State, r: State, i: int)
    requires i in s.instances && r == s.(cancels := r.cancels, clock := r.clock) && (i in r.cancels <==> i in s.cancels)
    ensures SameView(s, r, i)
  {
    forall id | id in IdsOf(s, i)
      ensures SameAt(s, r, id)
    {
      assert ItemsFor(r, id) == ItemsFor(s, id);
    }
  }

  lemma StartSame(s: State, w: string, accepted: bool, i: int)
    requires WellFormed(s) && i in s.instances && w in s.definitions && accepted
    ensures SameView(s, Start(s, w, accepted), i)
  {
    StartTame(s, w, accepted);
    var m, r := WithInstance(s, w), Start(s, w, accepted);
    TameWell(m, r, s.nextInstance, s.definitions[w].steps);
    hide WellFormed, Local, Tame, Start;
    OtherMoves(m, r, i, s.nextInstance);
    assert IdsOf(m, i) == IdsOf(s, i);
    forall id | id in IdsOf(s, i)
      ensures SameAt(s, r, id)
    {
      assert SameAt(m, r, id);
      assert ItemsFor(m, id) == ItemsFor(s, id);
    }
  }

  /** What other instances, starts, clocks and foreign requests do not change. */
  lemma ForeignStep(s: State, op: Op, aging: Aging, r: State, i: int)
    requires WellFormed(s) && Next(s, op, aging, r) && i in s.instances && !Robs(s, op, i)
    requires !(op.NextOp? && s.queue[op.item].instance == i) && !(op.CancelOp? && op.instance == i)
    ensures SameView(s, r, i)
  {
    hide WellFormed, Start, Execute, NoHumans, Robs, SameView, Permitted;
    match op
    case StartOp(w, accepted) =>
      if w in s.definitions && accepted {
        StartSame(s, w, accepted, i);
      } else {
        NotStarted(s, w, accepted);
        QuietSame(s, r, i);
      }
    case NextOp(q, o) => OtherItemView(s, i, q, o);
    case CancelOp(j, kind) => CancelQuiet(s, r, j, kind, i);
    case TickOp(_) => QuietSame(s, r, i);
  }

  lemma CancelQuiet(s: State, r: State, j: int, kind: CancelType, i: int)
    requires i in s.instances && i != j && r == Cancel(s, j, kind)
    ensures SameView(s, r, i)
  {
    assert r == s.(cancels := r.cancels) && (i in r.cancels <==> i in s.cancels);
    hide SameView, Cancel;
    QuietSame(s, r, i);
  }

  /** Every transition that does not drop one of its items by mistake keeps a saga a saga, or
      halts it when it was to be cancelled. */
  lemma SagaStep(s: State, op: Op, aging: Aging, r: State, i: int, def: Definition, chain: seq<string>)
    requires WellFormed(s) && Next(s, op, aging, r) && Saga(s, i, def, chain) && !Robs(s, op, i)
    ensures Saga(r, i, def, chain) || (i in s.cancels && op.NextOp? && Halted(r, i, def, chain))
  {
    SagaFacts(s, i, def, chain);
    if op.CancelOp? && op.instance == i {
      CancelSame(s, i, op.kind, def, chain);
    } else {
      hide WellFormed, Saga, Start, Execute, NoHumans, Robs, SameView, Permitted, Halted;
      if op.NextOp? && s.queue[op.item].instance == i {
        OwnItemSaga(s, i, def, chain, op.item, op.choice);
      } else {
        ForeignStep(s, op, aging, r, i);
        SagaSame(s, r, i, def, chain);
      }
    }
  }

  /** A halted saga stays halted, whatever is requested of it. */
  lemma HaltedStep(s: State, op: Op, aging: Aging, r: State, i: int, def: Definition, chain: seq<string>)
    requires WellFormed(s) && Next(s, op, aging, r) && Halted(s, i, def, chain) && !Robs(s, op, i)
    ensures Halted(r, i, def, chain)
  {
    HaltedFacts(s, i, def, chain);
    hide WellFormed, Halted, Start, Execute, NoHumans, Robs, SameView, Permitted;
    if op.CancelOp? && op.instance == i {
      assert r == s;
    } else if op.NextOp? && s.queue[op.item].instance == i {
      OwnItemHalted(s, i, def, chain, op.item, op.choice);
    } else {
      ForeignStep(s, op, aging, r, i);
      HaltedSame(s, r, i, def, chain);
    }
  }

  /** A request is accepted only while the saga runs. */
  lemma CancelSame(s: State, i: int, kind: CancelType, def: Definition, chain: seq<string>)
    requires Saga(s, i, def, chain)
    ensures Saga(Cancel(s, i, kind), i, def, chain)
  {
    var r := Cancel(s, i, kind);
    var ids := IdsOf(s, i);
    assert IdsOf(r, i) == ids && Prefix(r, ids, chain);
    hide LinearFlow, IdsOf, Prefix;
    forall l | 0 <= l < |ids|
      ensures (Done(s, ids[l]) ==> Done(r, ids[l])) && (Active(s, ids[l]) ==> Active(r, ids[l]))
              && (Reverted(s, ids[l], def.steps) ==> Reverted(r, ids[l], def.steps))
    {
      SameItems(s, r, ids[l]);
      SameAtAll(s, r, ids[l]);
    }
    SagaFacts(s, i, def, chain);
    PhaseSame(s, r, ids, s.instances[i].status, def.steps, chain);
    SagaIs(r, i, def, chain);
  }

  // ------------------------------------------------------------------ runs

  /** Only a request for an instance puts one there. */
  lemma NoNewRequest(s: State, op: Op, aging: Aging, r: State, i: int)
    requires WellFormed(s) && Next(s, op, aging, r) && i in s.instances && i !in s.cancels
             && !(op.CancelOp? && op.instance == i)
    ensures i !in r.cancels
  {
    hide WellFormed, Start, Execute, NoHumans, Effect, Stale, Permitted, Tame, LocalSteps, LocalItems;
    match op
    case StartOp(w, accepted) =>
      if w in s.definitions && accepted {
        StartTame(s, w, accepted);
        TameWell(WithInstance(s, w), r, s.nextInstance, s.definitions[w].steps);
        assert Local(WithInstance(s, w), r, s.nextInstance);
      } else {
        NotStarted(s, w, accepted);
      }
    case NextOp(q, o) =>
      ExecuteEffect(s, q, o);
      if !Stale(s, q) {
        var j := s.queue[q].instance;
        EffectWell(s, r, j, s.queue[q].step.value, DefinitionOf(s, j).steps);
        assert Local(s, r, j);
      }
    case _ =>
  }

  /** A saga keeps its invariant throughout every run in which it is not cancelled and no
      other instance drops one of its items by mistake. */
  lemma {:induction false} SagaRun(states: seq<State>, ops: seq<Op>, aging: Aging, i: int, def: Definition,
                                   chain: seq<string>, n: nat)
    requires Run(states, ops, aging) && WellFormed(states[0]) && Saga(states[0], i, def, chain)
             && i !in states[0].cancels && n < |states|
    requires forall j | 0 <= j < |ops| :: !Robs(states[j], ops[j], i) && !(ops[j].CancelOp? && ops[j].instance == i)
    ensures WellFormed(states[n]) && Saga(states[n], i, def, chain) && i !in states[n].cancels
  {
    hide WellFormed, Saga, Next, Robs, Halted;
    if n > 0 {
      SagaRun(states, ops, aging, i, def, chain, n - 1);
      assert Next(states[n - 1], ops[n - 1], aging, states[n]);
      NextWell(states[n - 1], ops[n - 1], aging, states[n]);
      SagaFacts(states[n - 1], i, def, chain);
      NoNewRequest(states[n - 1], ops[n - 1], aging, states[n], i);
      SagaStep(states[n - 1], ops[n - 1], aging, states[n], i, def, chain);
    }
  }

  /** A started instance is a saga of one pending step. */
  lemma SagaBegins(s: State, w: string, chain: seq<string>)
    requires WellFormed(s) && w in s.definitions && LinearFlow(s.definitions[w], chain) && s.nextInstance !in s.cancels
    ensures Saga(Start(s, w, true), s.nextInstance, s.definitions[w], chain)
  {
    var def := s.definitions[w];
    var i, id := s.nextInstance, s.nextStep;
    var m := WithInstance(s, w);
    LinkAt(def, chain, 0);
    StartTame(s, w, true);
    NoStepsYet(s, i);
    Fresh(s);
    var r := Start(s, w, true);
    var d := def.steps[def.start];
    assert "" !in def.steps;
    StartIs(s, w);
    hide WellFormed, Tame, LinearFlow, Start;
    BeginShape(m, i, def.start, d);
    assert IdsOf(r, i) == [id];
    BeginPhase(r, id, def, chain);
    SagaIs(r, i, def, chain);
  }

  lemma NoStepsYet(s: State, i: int)
    requires WellFormed(s) && i !in s.instances
    ensures IdsOf(s, i) == []
  {
    FrozenAreOwn(s, i);
    var ids := IdsOf(s, i);
    assert |ids| == 0 || (ids[0] in ids && ids[0] in s.steps && s.steps[ids[0]].instance == i);
  }

  lemma StartIs(s: State, w: string)
    requires w in s.definitions && s.definitions[w].start in s.definitions[w].steps && s.definitions[w].start != ""
    ensures var def := s.definitions[w];
            Start(s, w, true) == Spawn(WithInstance(s, w), s.nextInstance, def.start, def.steps[def.start])
  {
    var def := s.definitions[w];
    var m := WithInstance(s, w);
    var v := Spawn(m, s.nextInstance, def.start, def.steps[def.start]);
    hide Spawn;
    assert [def.start][1..] == [];
    assert EnqueueNext(v, s.nextInstance, def.steps, [], false) == v;
    assert EnqueueNext(m, s.nextInstance, def.steps, [def.start], false) == v;
  }

  lemma BeginShape(m: State, i: int, name: string, d: StepDef)
    requires IdsOf(m, i) == [] && m.nextQueue !in m.queue && ItemsFor(m, m.nextStep) == {}
    ensures var r := Spawn(m, i, name, d);
            && IdsOf(r, i) == [m.nextStep] && r.instances == m.instances && r.definitions == m.definitions
            && r.cancels == m.cancels
            && m.nextStep in r.steps && r.steps[m.nextStep].name == name && r.steps[m.nextStep].status == Pending
            && r.steps[m.nextStep].compRetries == 0
            && ItemsFor(r, m.nextStep) == {m.nextQueue}
  {
    var w := CreateStep(m, i, name, d.kind, Pending, d.maxRetries);
    assert ItemsFor(w, m.nextStep) == ItemsFor(m, m.nextStep);
    ItemsEnqueue(w, i, m.nextStep, PRIORITY_NORMAL, d.delay, m.nextStep);
  }

  lemma BeginPhase(r: State, id: int, def: Definition, chain: seq<string>)
    requires LinearFlow(def, chain) && id in r.steps && r.steps[id].name == def.start && r.steps[id].status == Pending
             && r.steps[id].compRetries == 0
             && Waiting1(r, id)
    ensures Prefix(r, [id], chain) && (forall k | 0 <= k < |chain| :: chain[k] in def.steps)
    ensures Phase(r, [id], WfRunning, def.steps, chain)
  {
    hide Waiting1;
    assert Active(r, [id][0]);
  }

  /** Every definition is linear, and every instance is a saga, running or halted. */
  ghost predicate AllSagas(s: State, chains: map<string, seq<string>>) {
    && (forall j | j in s.cancels :: j in s.instances)
    && (forall w | w in s.definitions :: w in chains && LinearFlow(s.definitions[w], chains[w]))
    && forall i | i in s.instances :: IsSaga(s, i, chains)
  }

  ghost predicate IsSaga(s: State, i: int, chains: map<string, seq<string>>)
    requires i in s.instances
  {
    var w := s.instances[i].workflow;
    && w in s.definitions && w in chains
    && (Saga(s, i, s.definitions[w], chains[w]) || Halted(s, i, s.definitions[w], chains[w]))
  }

  /** Among linear workflows nothing is ever dropped by mistake. */
  lemma NobodyRobs(s: State, op: Op, aging: Aging, r: State, chains: map<string, seq<string>>, i: int)
    requires WellFormed(s) && Next(s, op, aging, r) && AllSagas(s, chains)
    ensures !Robs(s, op, i)
  {
    if op.NextOp? {
      var q := op.item;
      Found(s, q);
      var j := s.queue[q].instance;
      assert IsSaga(s, j, chains);
      var w := s.instances[j].workflow;
      hide WellFormed, Saga, Halted, NoHumans, Execute, Stale;
      if Saga(s, j, s.definitions[w], chains[w]) {
        OwnItemSaga(s, j, s.definitions[w], chains[w], q, op.choice);
      } else {
        OwnItemHalted(s, j, s.definitions[w], chains[w], q, op.choice);
      }
    }
  }

  /** Transitions keep definitions and workflows; only a start adds an instance. */
  lemma Directory(s: State, op: Op, aging: Aging, r: State)
    requires WellFormed(s) && Next(s, op, aging, r)
    ensures r.definitions == s.definitions
    ensures forall j | j in s.instances :: j in r.instances && r.instances[j].workflow == s.instances[j].workflow
    ensures forall j | j in r.instances && j !in s.instances ::
              op.StartOp? && op.accepted && op.workflow in s.definitions && j == s.nextInstance
                && r.instances[j].workflow == op.workflow
    ensures forall j | j in r.cancels :: j in s.cancels || j in r.instances
  {
    hide WellFormed, Start, Execute, NoHumans, Stale, Permitted;
    match op
    case StartOp(w, accepted) =>
      if w in s.definitions && accepted {
        StartDirectory(s, w, accepted);
      } else {
        NotStarted(s, w, accepted);
      }
    case NextOp(q, o) => ExecuteDirectory(s, q, o);
    case CancelOp(_, _) =>
    case TickOp(_) =>
  }

  /** What a move of instance i leaves alone. */
  lemma LocalDirectory(s: State, r: State, i: int)
    requires Local(s, r, i)
    ensures r.definitions == s.definitions && r.instances.Keys == s.instances.Keys
    ensures forall j | j in s.instances :: r.instances[j].workflow == s.instances[j].workflow
    ensures forall j | j in r.cancels :: j in s.cancels
  {
    hide LocalSteps, LocalItems, LocalJoins, IdsOf;
  }

  lemma StartDirectory(s: State, w: string, accepted: bool)
    requires WellFormed(s) && w in s.definitions && accepted
    ensures var r := Start(s, w, accepted);
            && r.definitions == s.definitions && r.instances.Keys == s.instances.Keys + {s.nextInstance}
            && (forall j | j in s.instances :: r.instances[j].workflow == s.instances[j].workflow)
            && r.instances[s.nextInstance].workflow == w && (forall j | j in r.cancels :: j in s.cancels)
            && s.nextInstance !in s.instances
  {
    hide WellFormed, Start, Tame, Local;
    StartTame(s, w, accepted);
    var m, r := WithInstance(s, w), Start(s, w, accepted);
    TameWell(m, r, s.nextInstance, s.definitions[w].steps);
    LocalDirectory(m, r, s.nextInstance);
  }

  lemma ExecuteDirectory(s: State, q: int, o: Choice)
    requires WellFormed(s) && q in s.queue
    ensures NoHumans(s)
    ensures var r := Execute(s, q, o);
            && r.definitions == s.definitions && r.instances.Keys == s.instances.Keys
            && (forall j | j in s.instances :: r.instances[j].workflow == s.instances[j].workflow)
            && (forall j | j in r.cancels :: j in s.cancels)
  {
    hide WellFormed, Execute, NoHumans, Effect, Stale, Local;
    ExecuteEffect(s, q, o);
    if !Stale(s, q) {
      var i := s.queue[q].instance;
      var r := Execute(s, q, o);
      EffectWell(s, r, i, s.queue[q].step.value, DefinitionOf(s, i).steps);
      LocalDirectory(s, r, i);
    }
  }

  lemma AllSagasStep(s: State, op: Op, aging: Aging, r: State, chains: map<string, seq<string>>)
    requires WellFormed(s) && Next(s, op, aging, r) && AllSagas(s, chains)
    ensures AllSagas(r, chains)
  {
    hide WellFormed, Next, Robs, Saga, Halted, LinearFlow, IsSaga;
    Directory(s, op, aging, r);
    forall i | i in r.instances
      ensures IsSaga(r, i, chains)
    {
      if i in s.instances {
        NobodyRobs(s, op, aging, r, chains, i);
        StillSaga(s, op, aging, r, i, chains);
      } else {
        BornSaga(s, op, aging, r, chains);
      }
    }
  }

  lemma BornSaga(s: State, op: Op, aging: Aging, r: State, chains: map<string, seq<string>>)
    requires WellFormed(s) && Next(s, op, aging, r) && op.StartOp? && op.accepted && op.workflow in s.definitions
    requires op.workflow in chains && LinearFlow(s.definitions[op.workflow], chains[op.workflow])
    requires s.nextInstance in r.instances && r.definitions == s.definitions
             && r.instances[s.nextInstance].workflow == op.workflow
    requires forall j | j in s.cancels :: j in s.instances
    ensures IsSaga(r, s.nextInstance, chains)
  {
    hide WellFormed, Saga, Halted, LinearFlow, Start, Tame;
    StartTame(s, op.workflow, true);
    SagaBegins(s, op.workflow, chains[op.workflow]);
  }

  lemma StillSaga(s: State, op: Op, aging: Aging, r: State, i: int, chains: map<string, seq<string>>)
    requires WellFormed(s) && Next(s, op, aging, r) && !Robs(s, op, i) && i in s.instances && IsSaga(s, i, chains)
    requires i in r.instances && r.instances[i].workflow == s.instances[i].workflow && r.definitions == s.definitions
    ensures IsSaga(r, i, chains)
  {
    hide WellFormed, Next, Robs, Saga, Halted;
    var w := s.instances[i].workflow;
    if Saga(s, i, s.definitions[w], chains[w]) {
      SagaStep(s, op, aging, r, i, s.definitions[w], chains[w]);
    } else {
      HaltedStep(s, op, aging, r, i, s.definitions[w], chains[w]);
    }
  }

  /** Linear saga safety: in a store of linear workflows, after any run, every instance
      satisfies the saga invariant or was halted by a cancel request. */
  lemma {:induction false} LinearSagaSafety(states: seq<State>, ops: seq<Op>, aging: Aging, chains: map<string,
                                            seq<string>>, n: nat)
    requires Run(states, ops, aging) && WellFormed(states[0]) && AllSagas(states[0], chains) && n < |states|
    ensures WellFormed(states[n]) && AllSagas(states[n], chains)
  {
    hide WellFormed, AllSagas, Next;
    if n > 0 {
      LinearSagaSafety(states, ops, aging, chains, n - 1);
      assert Next(states[n - 1], ops[n - 1], aging, states[n]);
      NextWell(states[n - 1], ops[n - 1], aging, states[n]);
      AllSagasStep(states[n - 1], ops[n - 1], aging, states[n], chains);
    }
  }

  /** Halting differs from failing: a cancelled saga does not keep its first step completed,
      even behind a savepoint. */
  lemma CancelIgnoresSavePoints(s: State, i: int, def: Definition, chain: seq<string>)
    requires Halted(s, i, def, chain) && s.instances[i].status != WfAborted && |IdsOf(s, i)| > 1
    ensures IdsOf(s, i)[0] in s.steps && s.steps[IdsOf(s, i)[0]].status != Completed
    ensures Protected(def.steps, chain, |IdsOf(s, i)|) > 0 ==> !Saga(s, i, def, chain)
  {
    HaltedFacts(s, i, def, chain);
    var ids := IdsOf(s, i);
    hide LinearFlow, IdsOf, Halted, Protected;
    assert Reverted(s, ids[0], def.steps);
    hide Active;
  }

  function ItemsOf(s: State, i: int): set<int> {
    set q | q in s.queue && s.queue[q].instance == i
  }

  /** What the invariant says of the queue: one item while running, none when completed, and
      exactly one for each step in compensation when failed. */
  lemma SagaQueue(s: State, i: int, def: Definition, chain: seq<string>)
    requires WellFormed(s) && Saga(s, i, def, chain)
    ensures s.instances[i].status == WfRunning ==> exists q :: ItemsOf(s, i) == {q}
    ensures s.instances[i].status == WfCompleted ==> ItemsOf(s, i) == {}
    ensures forall q | q in ItemsOf(s, i) && s.instances[i].status == WfFailed ::
              s.queue[q].step.Some? && s.queue[q].step.value in s.steps
              && s.steps[s.queue[q].step.value].status == Compensation && ItemsFor(s, s.queue[q].step.value) == {q}
  {
    var ids := IdsOf(s, i);
    forall q | q in ItemsOf(s, i)
      ensures s.instances[i].status == WfRunning ==> ItemsFor(s, ids[|ids| - 1]) == {q}
      ensures s.instances[i].status == WfRunning || s.instances[i].status == WfFailed
      ensures s.instances[i].status == WfFailed ==>
                s.queue[q].step.Some? && s.queue[q].step.value in s.steps
                && s.steps[s.queue[q].step.value].status == Compensation && ItemsFor(s, s.queue[q].step.value) == {q}
    {
      hide Saga, WellFormed, LinearFlow, Protected, IdsOf, ItemsFor;
      var k := WhichStep(s, i, q);
      QueuedStep(s, i, def, chain, q, k);
    }
    if s.instances[i].status == WfRunning {
      RunningItem(s, i, def, chain);
    }
  }

  /** What is queued for a halted saga: exactly one item for each step in compensation. */
  lemma HaltedQueue(s: State, i: int, def: Definition, chain: seq<string>, q: int)
    requires WellFormed(s) && Halted(s, i, def, chain) && q in ItemsOf(s, i)
    ensures s.queue[q].step.Some? && s.queue[q].step.value in s.steps
    ensures s.steps[s.queue[q].step.value].status == Compensation && ItemsFor(s, s.queue[q].step.value) == {q}
    ensures s.instances[i].status != WfAborted
  {
    hide WellFormed, Halted, ItemsFor, IdsOf;
    var k := WhichStep(s, i, q);
    HaltedQueued(s, i, def, chain, q, k);
  }

  lemma RunningItem(s: State, i: int, def: Definition, chain: seq<string>)
    requires WellFormed(s) && Saga(s, i, def, chain) && s.instances[i].status == WfRunning
    requires forall q | q in ItemsOf(s, i) :: ItemsFor(s, IdsOf(s, i)[|IdsOf(s, i)| - 1]) == {q}
    ensures exists q :: ItemsOf(s, i) == {q}
  {
    var ids := IdsOf(s, i);
    var last := ids[|ids| - 1];
    assert Active(s, last);
    FrozenAreOwn(s, i);
    hide Saga, LinearFlow, WellFormed;
    var q :| ItemsFor(s, last) == {q};
    assert q in ItemsFor(s, last);
    ItemOwner(s, q, last);
    forall p | p in ItemsOf(s, i)
      ensures p == q
    {
      assert p in ItemsFor(s, last);
    }
    assert ItemsOf(s, i) == {q};
  }
}
