/** The handlers of the engine are tame, and so is everything an execution does. */
module EngineSteps {
  import opened Definitions
  import opened Store
  import opened Queue
  import opened Rollback
  import opened RollbackEffects
  import opened RollbackEngine
  import opened Engine
  import opened EngineFrames
  import opened EngineTame

  lemma CompleteTame(s: State, i: int, def: Definition)
    requires WellFormed(s) && Runs(s, i, def)
    ensures Tame(s, CompleteWorkflow(s, i, def.steps), i, def.steps)
  {
    hide WellFormed, Local, CalmAll, SomeStep, ReactiveRollback, SetInstance;
    var r := ReactiveRollback(s, i, def.steps);
    ReactiveTame(s, i, def.steps);
    SetInstanceTame(r, i, WfFailed, def.steps);
    TameTrans(s, r, SetInstance(r, i, WfFailed), i, def.steps);
    SetInstanceTame(s, i, WfCompleted, def.steps);
  }

  /** rec is an earlier copy of a step of instance i that is running now. */
  predicate InHand(s: State, i: int, rec: StepRec) {
    && rec.id in s.steps && SameStep(s.steps[rec.id], rec) && rec.instance == i
    && s.steps[rec.id].status == Running
  }

  /** The first moves of a handler: the step's new status and its notifications. */
  lemma MarkTame(s: State, i: int, rec: StepRec, d: StepDef, def: Definition, o: Choice, status: StepStatus,
                 settle: bool, success: bool)
    requires WellFormed(s) && Runs(s, i, def) && InHand(s, i, rec) && status != Compensation
    ensures var r := Mark(s, i, rec, d, def.steps, o, status, settle, success).0;
            Tame(s, r, i, def.steps) && Runs(r, i, def)
  {
    var a := UpdateStep(s, rec.id, status);
    UpdateTame(s, rec.id, status, i, def.steps);
    hide WellFormed, Local, CalmAll, NoReruns, Settle, NotifyAll, UpdateStep, InHand;
    RunsOn(s, a, i, def);
    var b := if settle then Settle(a, i, def.steps, o.order, rec, d, success) else a;
    TameRefl(a, i, def.steps);
    SettleTame(a, i, def, o.order, rec, d, success);
    TameTrans(s, a, b, i, def.steps);
    RunsOn(s, b, i, def);
    NotifyAllTame(b, i, def, o.order, o.order, rec.name, success);
    var r := NotifyAll(b, i, def.steps, o.order, o.order, rec.name, success).0;
    TameTrans(s, b, r, i, def.steps);
    RunsOn(s, r, i, def);
  }

  lemma SuccessTame(s: State, i: int, rec: StepRec, d: StepDef, def: Definition, next: bool, o: Choice)
    requires WellFormed(s) && Runs(s, i, def) && InHand(s, i, rec)
    ensures Tame(s, HandleSuccess(s, i, rec, d, def, next, o), i, def.steps)
  {
    hide WellFormed, Tame, Runs, InHand, Mark, CompleteWorkflow, EnqueueNext, HasUnfinished;
    MarkTame(s, i, rec, d, def, o, Completed, true, true);
    var r := Mark(s, i, rec, d, def.steps, o, Completed, true, true).0;
    var names := if next then d.next else [d.els];
    AfterMark(s, r, i, def, names, next);
  }

  lemma AfterMark(s: State, r: State, i: int, def: Definition, names: seq<string>, next: bool)
    requires WellFormed(s) && Tame(s, r, i, def.steps) && Runs(r, i, def)
    ensures Tame(s, CompleteWorkflow(r, i, def.steps), i, def.steps)
    ensures Tame(s, EnqueueNext(r, i, def.steps, names, next), i, def.steps)
  {
    hide WellFormed, Local, CalmAll, Runs, CompleteWorkflow, EnqueueNext;
    CompleteTame(r, i, def);
    TameTrans(s, r, CompleteWorkflow(r, i, def.steps), i, def.steps);
    EnqueueNextTame(r, i, def, names, next);
    TameTrans(s, r, EnqueueNext(r, i, def.steps, names, next), i, def.steps);
  }

  ghost predicate NoItems(s: State, i: int) {
    forall q | q in s.queue :: s.queue[q].instance != i
  }

  /** r is x in the dead-letter state, with nothing queued. */
  ghost predicate Frozen(s: State, r: State, i: int, steps: Steps) {
    exists x :: Tame(s, x, i, steps) && NoItems(x, i) && r == SetInstance(x, i, WfDLQ)
  }

  lemma DlqTame(s: State, i: int, rec: StepRec, d: StepDef, def: Definition, o: Choice)
    requires WellFormed(s) && Runs(s, i, def) && InHand(s, i, rec)
    ensures var r := ToDlq(s, i, rec, d, def, o);
            Tame(s, r, i, def.steps) || Frozen(s, r, i, def.steps)
  {
    hide WellFormed, Tame, Runs, InHand, Mark, Freeze, CreateDeadLetter, SetInstance;
    MarkTame(s, i, rec, d, def, o, Paused, false, false);
    var r := Mark(s, i, rec, d, def.steps, o, Paused, false, false).0;
    var a := CreateDeadLetter(r, rec, def.id);
    TameWell(s, r, i, def.steps);
    DeadLetterTame(r, rec, def.id, i, def.steps);
    TameTrans(s, r, a, i, def.steps);
    TameWell(s, a, i, def.steps);
    FreezeTame(a, i, def.steps);
    TameTrans(s, a, Freeze(a, i), i, def.steps);
    assert NoItems(Freeze(a, i), i);
  }

  lemma SiblingsOwn(s: State, i: int, name: string, steps: Steps, order: seq<string>)
    requires WellFormed(s)
    ensures forall id | id in Siblings(s, i, name, steps, order) && id in s.steps ::
              s.steps[id].instance == i && s.steps[id].status != Compensation
  {
    FrozenAreOwn(s, i);
  }

  lemma RollBackOwnTame(s: State, i: int, rec: StepRec, def: Definition, stop: string)
    requires WellFormed(s) && rec.id in s.steps && SameStep(s.steps[rec.id], rec) && rec.instance == i
    ensures Tame(s, RollBack(s, SnapshotOf(s, i, rec), def, rec.name, stop).0, i, def.steps)
  {
    FailedIsNamed(s, i, rec);
    ByNameIsSnapshot(s, i, Env(def.steps, stop, SnapshotOf(s, i, rec)));
    RollBackTame(s, SnapshotOf(s, i, rec), i, def, rec.name, stop);
  }

  lemma FailTame(s: State, i: int, rec: StepRec, d: StepDef, def: Definition, o: Choice)
    requires WellFormed(s) && Runs(s, i, def) && InHand(s, i, rec)
    ensures Tame(s, FailFinally(s, i, rec, d, def, o), i, def.steps)
  {
    hide WellFormed, Tame, Runs, Mark, Siblings, SkipAll, RollBack, SetInstance;
    MarkTame(s, i, rec, d, def, o, Failed, true, false);
    var r := Mark(s, i, rec, d, def.steps, o, Failed, true, false).0;
    TameWell(s, r, i, def.steps);
    SiblingsOwn(r, i, rec.name, def.steps, o.order);
    var ids := Siblings(r, i, rec.name, def.steps, o.order);
    SkipTame(r, ids, i, def.steps);
    var a := SkipAll(r, ids);
    TameTrans(s, r, a, i, def.steps);
    TameSame(s, a, i, def.steps, rec.id);
    TameWell(s, a, i, def.steps);
    RollBackOwnTame(a, i, rec, def, o.stop);
    var b := RollBack(a, SnapshotOf(a, i, rec), def, rec.name, o.stop).0;
    TameTrans(s, a, b, i, def.steps);
    TameWell(s, b, i, def.steps);
    SetInstanceTame(b, i, WfFailed, def.steps);
    TameTrans(s, b, SetInstance(b, i, WfFailed), i, def.steps);
  }

  lemma TameSame(s: State, r: State, i: int, steps: Steps, id: int)
    requires Tame(s, r, i, steps) && id in s.steps
    ensures id in r.steps && SameStep(s.steps[id], r.steps[id])
  {
    assert LocalSteps(s, r, i);
  }

  /** A failed step goes back to the queue. */
  function TryAgain(s: State, i: int, rec: StepRec, d: StepDef): State {
    Enqueue(UpdateStep(s, rec.id, Failed), i, rec.id, PRIORITY_HIGH, d.delay)
  }

  /** What handling a result can amount to: a tame move, a retry, or the dead-letter state. */
  ghost predicate Handled(s: State, r: State, i: int, rec: StepRec, d: StepDef, steps: Steps) {
    Tame(s, r, i, steps) || Frozen(s, r, i, steps) || (Retries(rec, d) && r == TryAgain(s, i, rec, d))
  }

  lemma FailureHandled(s: State, i: int, rec: StepRec, d: StepDef, def: Definition, o: Choice)
    requires WellFormed(s) && Runs(s, i, def) && InHand(s, i, rec)
    ensures Handled(s, HandleFailure(s, i, rec, d, def, o), i, rec, d, def.steps)
  {
    hide WellFormed, Tame, Runs, InHand, UpdateStep, ToDlq, FailFinally, Enqueue, Frozen, Retries;
    DlqTame(s, i, rec, d, def, o);
    FailTame(s, i, rec, d, def, o);
  }

  lemma ActiveOwn(s: State, i: int)
    requires WellFormed(s)
    ensures forall id | id in ActiveIds(s, i) && id in s.steps ::
              s.steps[id].instance == i && s.steps[id].status != Compensation
  {
    FrozenAreOwn(s, i);
  }

  lemma CancellationTame(s: State, i: int, def: Definition, kind: CancelType)
    requires WellFormed(s) && Runs(s, i, def)
    ensures Tame(s, HandleCancellation(s, i, def, kind), i, def.steps)
  {
    hide WellFormed, Local, CalmAll, SkipAll, ActiveIds, SetInstance, RollBack, ForgetCancel, LastCompleted, StepsOf,
         ByName;
    var a := SkipAll(s, ActiveIds(s, i));
    ActiveOwn(s, i);
    SkipTame(s, ActiveIds(s, i), i, def.steps);
    match kind
    case AbortRun => EndTame(s, a, i, WfAborted, def.steps);
    case CancelRun =>
      var b := SetInstance(a, i, WfCancelling);
      SetInstanceTame(a, i, WfCancelling, def.steps);
      TameTrans(s, a, b, i, def.steps);
      var recs := StepsOf(b, i);
      var (c, ok) := if LastCompleted(recs).None? then (b, true)
                     else RollBack(b, ByName(recs), def, LastCompleted(recs).value, ROOT_STEP);
      if LastCompleted(recs).Some? {
        ByNameIsSnapshot(b, i, Env(def.steps, ROOT_STEP, ByName(recs)));
        RollBackTame(b, ByName(recs), i, def, LastCompleted(recs).value, ROOT_STEP);
        TameTrans(s, b, c, i, def.steps);
      }
      EndTame(s, c, i, if ok then WfCancelled else WfFailed, def.steps);
  }

  lemma EndTame(s: State, r: State, i: int, status: WorkflowStatus, steps: Steps)
    requires WellFormed(s) && Tame(s, r, i, steps) && status != WfDLQ
    ensures Tame(s, ForgetCancel(SetInstance(r, i, status), i), i, steps)
  {
    hide WellFormed, Local, CalmAll, SetInstance, ForgetCancel;
    SetInstanceTame(r, i, status, steps);
    var m := SetInstance(r, i, status);
    TameTrans(s, r, m, i, steps);
    ForgetTame(m, i, steps);
    TameTrans(s, m, ForgetCancel(m, i), i, steps);
  }

  /** A step that is executed is cancelled tamely, or is run and its result handled. */
  ghost predicate Stepped(s: State, r: State, i: int, rec: StepRec, d: StepDef, steps: Steps) {
    || Tame(s, r, i, steps)
    || exists a :: Tame(UpdateStep(s, rec.id, Running), a, i, steps) && InHand(a, i, rec)
                   && a.steps[rec.id].retryCount == rec.retryCount && Handled(a, r, i, rec, d, steps)
  }

  lemma StepStepped(s: State, i: int, rec: StepRec, d: StepDef, def: Definition, o: Choice)
    requires WellFormed(s) && Runs(s, i, def) && d.kind != Human
    requires rec.id in s.steps && s.steps[rec.id] == rec && rec.instance == i && rec.status != Compensation
    ensures Stepped(s, ExecuteStep(s, i, rec, d, def, o), i, rec, d, def.steps)
  {
    hide WellFormed, Tame, Handled, Runs, InHand, UpdateStep, HandleSuccess, HandleFailure, RunFork, HandleCancellation;
    if i in s.cancels {
      CancellationTame(s, i, def, s.cancels[i]);
    } else {
      var a := UpdateStep(s, rec.id, Running);
      RunningWell(s, i, rec, def);
      if IsFork(d) {
        var b := RunFork(a, i, def.steps, d).0;
        ForkTame(a, i, def, d, rec);
        ResultHandled(b, i, rec, d, def, true, o);
        assert Tame(a, b, i, def.steps) && InHand(b, i, rec) && b.steps[rec.id].retryCount == rec.retryCount;
      } else {
        TameRefl(a, i, def.steps);
        ResultHandled(a, i, rec, d, def, true, o);
        ResultHandled(a, i, rec, d, def, o.taken, o);
        assert Tame(a, a, i, def.steps) && InHand(a, i, rec) && a.steps[rec.id].retryCount == rec.retryCount;
      }
    }
  }

  lemma RunningWell(s: State, i: int, rec: StepRec, def: Definition)
    requires WellFormed(s) && Runs(s, i, def) && rec.id in s.steps && s.steps[rec.id] == rec && rec.instance == i
    ensures var a := UpdateStep(s, rec.id, Running);
            && WellFormed(a) && Local(s, a, i) && Runs(a, i, def) && InHand(a, i, rec)
            && a.steps[rec.id].retryCount == rec.retryCount
  {
    CountsNotNegative(s, rec.id);
    hide WellFormed, Local;
    PutLocal(s, WithStatus(rec, Running), i);
    RunsOn(s, UpdateStep(s, rec.id, Running), i, def);
  }

  lemma ResultHandled(a: State, i: int, rec: StepRec, d: StepDef, def: Definition, next: bool, o: Choice)
    requires WellFormed(a) && Runs(a, i, def) && InHand(a, i, rec)
    ensures Handled(a, HandleSuccess(a, i, rec, d, def, next, o), i, rec, d, def.steps)
    ensures Handled(a, HandleFailure(a, i, rec, d, def, o), i, rec, d, def.steps)
  {
    hide WellFormed, Tame, Runs, InHand, HandleSuccess, HandleFailure, Frozen, Retries, TryAgain;
    SuccessTame(a, i, rec, d, def, next, o);
    FailureHandled(a, i, rec, d, def, o);
  }

  lemma ForkTame(a: State, i: int, def: Definition, d: StepDef, rec: StepRec)
    requires WellFormed(a) && Runs(a, i, def) && InHand(a, i, rec)
    ensures var b := RunFork(a, i, def.steps, d).0;
            && WellFormed(b) && Tame(a, b, i, def.steps) && Runs(b, i, def) && InHand(b, i, rec)
            && rec.id in b.steps && b.steps[rec.id].retryCount == a.steps[rec.id].retryCount
  {
    hide WellFormed, Tame, Local, StartBranches, OpenJoins;
    var m := StartBranches(a, i, def.steps, d.parallel).0;
    StartBranchesTame(a, i, def, d.parallel);
    BranchesKeep(a, i, def, d.parallel, rec);
    TameWell(a, m, i, def.steps);
    RunsOn(a, m, i, def);
    var b := OpenJoins(m, i, def.steps, d, d.next);
    OpenJoinsTame(m, i, def, d, d.next);
    TameWell(m, b, i, def.steps);
    RunsOn(m, b, i, def);
    TameTrans(a, m, b, i, def.steps);
  }

  /** Starting branches leaves existing steps as they are. */
  lemma {:induction false} BranchesKeep(s: State, i: int, def: Definition, names: seq<string>, rec: StepRec)
    requires WellFormed(s) && Runs(s, i, def) && InHand(s, i, rec)
    ensures InHand(StartBranches(s, i, def.steps, names).0, i, rec)
    ensures StartBranches(s, i, def.steps, names).0.steps[rec.id] == s.steps[rec.id]
    decreases |names|
  {
    if names != [] && names[0] in def.steps {
      var r := Spawn(s, i, names[0], def.steps[names[0]]);
      SpawnTame(s, i, names[0], def);
      assert rec.id < s.nextStep;
      hide WellFormed;
      RunsOn(s, r, i, def);
      BranchesKeep(r, i, def, names[1..], rec);
    }
  }

  // ------------------------------------------------------------------ compensation

  /** What one attempt does to the step itself, and that it does nothing to the others. */
  predicate Attempted(s: State, r: State, rec: StepRec, steps: Steps) {
    && r.steps.Keys == s.steps.Keys && rec.id in r.steps
    && (forall id | id in s.steps && id != rec.id :: r.steps[id] == s.steps[id])
    && r.steps[rec.id].retryCount >= rec.retryCount
    && (r.steps[rec.id].status == Compensation ==>
          rec.compRetries < CompMax(rec.name, steps) && r.steps[rec.id] == rec.(compRetries := rec.compRetries + 1))
  }

  lemma AttemptEnds(s: State, i: int, rec: StepRec, steps: Steps)
    requires rec.id in s.steps && s.steps[rec.id] == rec
    ensures var a := UpdateStep(s, rec.id, RolledBack);
            Attempted(s, a, rec, steps) && Attempted(s, SetInstance(a, i, WfFailed), rec, steps)
    ensures Attempted(s, UpdateStep(s, rec.id, Failed), rec, steps)
  {
  }

  lemma AttemptedAgain(s: State, i: int, rec: StepRec, delay: real, steps: Steps)
    requires rec.id in s.steps && s.steps[rec.id] == rec && rec.status == Compensation
    requires rec.compRetries < CompMax(rec.name, steps)
    ensures var b := UpdateStepCompensationRetry(s, rec.id, rec.compRetries + 1, Compensation);
            Attempted(s, Enqueue(b, i, rec.id, PRIORITY_HIGH, delay), rec, steps)
  {
  }

  /** One attempt touches nothing but its own instance and step; an attempt that keeps the step
      in compensation was within the limit and is counted. */
  lemma CompensationLocal(s: State, i: int, rec: StepRec, d: StepDef, steps: Steps, o: Choice)
    requires WellFormed(s) && rec.id in s.steps && s.steps[rec.id] == rec && rec.instance == i
             && rec.status == Compensation
    requires rec.name in steps && d == steps[rec.name]
    ensures var r := ExecuteCompensation(s, i, rec, d, steps, o);
            WellFormed(r) && Local(s, r, i) && Attempted(s, r, rec, steps)
  {
    hide Attempted, WellFormed, Local, SomeStep, HasUnfinished, SetInstance, UpdateStep, Enqueue;
    hide UpdateStepCompensationRetry, CompensationDelay;
    EndingLocal(s, i, rec, steps);
    AttemptEnds(s, i, rec, steps);
    if d.onFailure in steps && rec.compRetries < steps[d.onFailure].maxRetries {
      var delay := CompensationDelay(steps[d.onFailure], rec.compRetries + 1);
      AgainLocal(s, i, rec, delay, steps);
      AttemptedAgain(s, i, rec, delay, steps);
    }
  }

  lemma EndingLocal(s: State, i: int, rec: StepRec, steps: Steps)
    requires WellFormed(s) && rec.id in s.steps && s.steps[rec.id] == rec && rec.instance == i
    ensures var a := UpdateStep(s, rec.id, RolledBack);
            && WellFormed(a) && Local(s, a, i)
            && WellFormed(SetInstance(a, i, WfFailed)) && Local(s, SetInstance(a, i, WfFailed), i)
    ensures WellFormed(UpdateStep(s, rec.id, Failed)) && Local(s, UpdateStep(s, rec.id, Failed), i)
  {
    CountsNotNegative(s, rec.id);
    hide WellFormed, Local;
    var a := UpdateStep(s, rec.id, RolledBack);
    PutLocal(s, WithStatus(rec, RolledBack), i);
    PutLocal(s, WithStatus(rec, Failed), i);
    SetInstanceTame(a, i, WfFailed, steps);
    Chain(s, a, SetInstance(a, i, WfFailed), i);
  }

  lemma AgainLocal(s: State, i: int, rec: StepRec, delay: real, steps: Steps)
    requires WellFormed(s) && rec.id in s.steps && s.steps[rec.id] == rec && rec.instance == i
             && rec.status == Compensation
    ensures var b := UpdateStepCompensationRetry(s, rec.id, rec.compRetries + 1, Compensation);
            var r := Enqueue(b, rec.instance, rec.id, PRIORITY_HIGH, delay);
            WellFormed(r) && Local(s, r, i)
  {
    CountsNotNegative(s, rec.id);
    hide WellFormed, Local;
    var again := rec.(compRetries := rec.compRetries + 1);
    PutLocal(s, again, i);
    var b := Put(s, again);
    EnqueueTame(b, i, rec.id, PRIORITY_HIGH, delay, steps);
    Chain(s, b, Enqueue(b, i, rec.id, PRIORITY_HIGH, delay), i);
  }

  lemma Chain(s: State, r: State, u: State, i: int)
    requires WellFormed(s) && Local(s, r, i) && Local(r, u, i)
    ensures Local(s, u, i)
  {
    hide AllMade, NoHumans, Local;
    LocalTrans(s, r, u, i);
  }
}
