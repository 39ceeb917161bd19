/** Over every run, exactly how often a failing task is executed again. */
module EngineRetries {
  import opened Definitions
  import opened Store
  import opened Queue
  import opened Rollback
  import opened RollbackEngine
  import opened JoinStores
  import opened Engine
  import opened EngineFrames
  import opened EngineTame
  import opened EngineSteps
  import opened EngineRuns
  import opened EngineBounds
  import opened EngineJoins
  import opened EngineJoinRuns
  import opened EngineBirths
  import opened EngineReactions
  import opened EngineOutcomes
  import opened EngineFailures

  // ------------------------------------------------------------------ who counts a failure

  /** No step but id has failed once more. */
  predicate Steady(s: State, r: State, id: int) {
    forall y | y in s.steps && y != id :: y in r.steps && r.steps[y].retryCount == s.steps[y].retryCount
  }

  /** ... and neither has id. */
  predicate AllSteady(s: State, r: State) {
    forall y | y in s.steps :: y in r.steps && r.steps[y].retryCount == s.steps[y].retryCount
  }

  predicate StillRunning(s: State, i: int) {
    i in s.instances && s.instances[i].status == WfRunning
  }

  lemma MarkSteady(s: State, i: int, rec: StepRec, d: StepDef, steps: Steps, o: Choice, status: StepStatus,
                   settle: bool, success: bool)
    requires Unused(s)
    ensures var m := Mark(s, i, rec, d, steps, o, status, settle, success).0;
            && Steady(s, m, rec.id) && (status != Failed ==> AllSteady(s, m)) && Unused(m) && m.instances == s.instances
  {
    MarkBorn(s, i, rec, d, steps, o, status, settle, success);
    var u, m := UpdateStep(s, rec.id, status), Mark(s, i, rec, d, steps, o, status, settle, success).0;
    hide Mark, JoinBorn;
    BornFrame(u, m, i);
    UpdateFrame(s, rec.id, status);
    hide UpdateStep;
  }

  lemma EndSteady(m: State, i: int, steps: Steps)
    requires WellFormed(m) && i in m.instances
    ensures AllSteady(m, CompleteWorkflow(m, i, steps))
  {
    hide WellFormed, CompleteWorkflow, ReactiveRollback, WentWrong, StillUndoing, From, QueuedAt;
    CompletionIsExact(m, i, steps);
    var order := ReactionIsExact(m, i, steps);
  }

  lemma NextSteady(m: State, i: int, steps: Steps, names: seq<string>, skipJoins: bool)
    requires Unused(m) && !IsDlq(m, i)
    ensures AllSteady(m, EnqueueNext(m, i, steps, names, skipJoins))
  {
    EnqueueNextBorn(m, i, steps, names, skipJoins);
    hide EnqueueNext, BornItems, From, Successors;
  }

  /** A success raises no count. */
  lemma SuccessSteady(s: State, i: int, rec: StepRec, d: StepDef, def: Definition, next: bool, o: Choice)
    requires WellFormed(s) && Runs(s, i, def) && InHand(s, i, rec) && !IsDlq(s, i)
    ensures AllSteady(s, HandleSuccess(s, i, rec, d, def, next, o))
  {
    hide WellFormed, Mark, Unused, CompleteWorkflow, EnqueueNext, HasUnfinished, Tame, InHand, Runs;
    WellUnused(s);
    MarkSteady(s, i, rec, d, def.steps, o, Completed, true, true);
    MarkTame(s, i, rec, d, def, o, Completed, true, true);
    var m := Mark(s, i, rec, d, def.steps, o, Completed, true, true).0;
    TameWell(s, m, i, def.steps);
    RunsIn(m, i, def);
    EndSteady(m, i, def.steps);
    NextSteady(m, i, def.steps, if next then d.next else [d.els], next);
    hide Local, Steady, IsDlq;
  }

  lemma RunsIn(s: State, i: int, def: Definition)
    requires Runs(s, i, def)
    ensures i in s.instances
  {
  }

  /** A failure raises the count of its own step only, unless it ends the instance. */
  lemma FailureSteady(s: State, i: int, rec: StepRec, d: StepDef, def: Definition, o: Choice)
    requires Unused(s) && rec.id in s.steps && i in s.instances
    ensures Steady(s, HandleFailure(s, i, rec, d, def, o), rec.id)
            || !StillRunning(HandleFailure(s, i, rec, d, def, o), i)
  {
    hide Mark, Unused, Siblings, RollBack, SnapshotOf, SkipAll;
    MarkSteady(s, i, rec, d, def.steps, o, Paused, false, false);
    MarkSteady(s, i, rec, d, def.steps, o, Failed, true, false);
    hide AllSteady;
    if Retries(rec, d) {
      UpdateFrame(s, rec.id, Failed);
    } else if def.dlqEnabled {
      var (m, ok) := Mark(s, i, rec, d, def.steps, o, Paused, false, false);
      hide Freeze, CreateDeadLetter;
    } else {
      hide Freeze;
    }
  }

  lemma SteadyTrans(s: State, m: State, r: State, id: int)
    requires AllSteady(s, m)
    ensures AllSteady(m, r) ==> AllSteady(s, r)
    ensures Steady(m, r, id) ==> Steady(s, r, id)
  {
  }

  lemma {:induction false} BranchesSteady(s: State, i: int, steps: Steps, names: seq<string>)
    requires Unused(s)
    ensures AllSteady(s, StartBranches(s, i, steps, names).0) && Unused(StartBranches(s, i, steps, names).0)
    decreases |names|
  {
    hide Unused, Spawn;
    if names != [] && names[0] in steps {
      var m := Spawn(s, i, names[0], steps[names[0]]);
      SpawnIs(s, i, names[0], steps[names[0]]);
      SpawnUnused(s, i, names[0], steps[names[0]]);
      NotUsed(s);
      BranchesSteady(m, i, steps, names[1..]);
    }
  }

  lemma NotUsed(s: State)
    requires Unused(s)
    ensures s.nextStep !in s.steps && s.nextQueue !in s.queue
  {
  }

  lemma ForkSteady(s: State, i: int, steps: Steps, d: StepDef)
    requires Unused(s)
    ensures AllSteady(s, RunFork(s, i, steps, d).0) && Unused(RunFork(s, i, steps, d).0)
  {
    hide StartBranches, OpenJoins;
    BranchesSteady(s, i, steps, d.parallel);
    var m := StartBranches(s, i, steps, d.parallel).0;
    OpenJoinsKeep(m, i, steps, d, d.next);
  }

  lemma {:induction false} OpenJoinsKeep(s: State, i: int, steps: Steps, d: StepDef, names: seq<string>)
    ensures OpenJoins(s, i, steps, d, names) == s.(joins := OpenJoins(s, i, steps, d, names).joins)
    decreases |names|
  {
    hide JoinStep;
    if names != [] {
      var n := names[0];
      if n in steps && steps[n].kind == Join {
        var op := CreateOp(if steps[n].waitFor == [] then d.parallel else steps[n].waitFor, Some(steps[n].strategy));
        JoinStepLocal(s, i, n, op);
        OpenJoinsKeep(JoinStep(s, i, n, op), i, steps, d, names[1..]);
      } else {
        OpenJoinsKeep(s, i, steps, d, names[1..]);
      }
    }
  }

  lemma RunningSteady(s: State, id: int)
    requires Unused(s)
    ensures AllSteady(s, UpdateStep(s, id, Running)) && Unused(UpdateStep(s, id, Running))
    ensures UpdateStep(s, id, Running).instances == s.instances
  {
  }

  /** The outcome of an execution, as far as counts are concerned. */
  lemma HandleSteady(s: State, b: State, i: int, rec: StepRec, d: StepDef, def: Definition, ok: bool, next: bool,
                     o: Choice)
    requires WellFormed(b) && Runs(b, i, def) && InHand(b, i, rec) && !IsDlq(b, i) && AllSteady(s, b)
    ensures var r := Handle(b, i, rec, d, def, ok, next, o);
            (Steady(s, r, rec.id) && (ok ==> AllSteady(s, r))) || !StillRunning(r, i)
  {
    hide WellFormed, HandleSuccess, HandleFailure, Unused;
    WellUnused(b);
    if ok {
      SuccessSteady(b, i, rec, d, def, next, o);
      SteadyTrans(s, b, HandleSuccess(b, i, rec, d, def, next, o), rec.id);
    } else {
      FailureSteady(b, i, rec, d, def, o);
      SteadyTrans(s, b, HandleFailure(b, i, rec, d, def, o), rec.id);
    }
  }

  lemma StepSteady(s: State, i: int, rec: StepRec, def: Definition, o: Choice)
    requires WellFormed(s) && Runs(s, i, def) && rec.id in s.steps && s.steps[rec.id] == rec && rec.instance == i
    requires rec.name in def.steps && def.steps[rec.name].kind != Human && !IsDlq(s, i)
    ensures var d := def.steps[rec.name];
            var r := ExecuteStep(s, i, rec, d, def, o);
            || (Steady(s, r, rec.id) && (d.kind == Task && d.handler in o.handlers && o.success ==> AllSteady(s, r)))
            || !StillRunning(r, i)
  {
    hide WellFormed, Tame, Runs, InHand, Handle, UpdateStep, RunFork, HandleCancellation, ExecuteStep, Unused, Local,
         AllSteady, Steady;
    var d := def.steps[rec.name];
    WellUnused(s);
    if i in s.cancels {
      CancelledLeaves(s, i, rec, d, def, o);
    } else {
      var a := UpdateStep(s, rec.id, Running);
      RunningWell(s, i, rec, def);
      RunningSteady(s, rec.id);
      if IsFork(d) {
        var b := RunFork(a, i, def.steps, d).0;
        ForkTame(a, i, def, d, rec);
        TameWell(a, b, i, def.steps);
        ForkSteady(a, i, def.steps, d);
        SteadyTrans(s, a, b, rec.id);
        TameAlive(a, b, i, def.steps);
        ForkIs(s, i, rec, d, def, o);
        HandleSteady(s, b, i, rec, d, def, RunFork(a, i, def.steps, d).1, true, o);
      } else {
        var ok, next := PlainIs(s, i, rec, d, def, o);
        HandleSteady(s, a, i, rec, d, def, ok, next, o);
      }
    }
  }

  lemma TameAlive(a: State, b: State, i: int, steps: Steps)
    requires Tame(a, b, i, steps) && !IsDlq(a, i)
    ensures !IsDlq(b, i)
  {
    hide WellFormed, Local, CalmAll, NoReruns;
  }

  lemma CancelledLeaves(s: State, i: int, rec: StepRec, d: StepDef, def: Definition, o: Choice)
    requires i in s.cancels && d.kind != Human
    ensures !StillRunning(ExecuteStep(s, i, rec, d, def, o), i)
  {
    hide SkipAll, ActiveIds, RollBack, LastCompleted, StepsOf, ByName, Handle;
  }

  lemma ForkIs(s: State, i: int, rec: StepRec, d: StepDef, def: Definition, o: Choice)
    requires i !in s.cancels && IsFork(d)
    ensures var (b, ok) := RunFork(UpdateStep(s, rec.id, Running), i, def.steps, d);
            ExecuteStep(s, i, rec, d, def, o) == Handle(b, i, rec, d, def, ok, true, o)
  {
    hide Handle, UpdateStep, RunFork;
  }

  lemma PlainIs(s: State, i: int, rec: StepRec, d: StepDef, def: Definition, o: Choice) returns (ok: bool, next: bool)
    requires i !in s.cancels && !IsFork(d) && d.kind != Human
    ensures ExecuteStep(s, i, rec, d, def, o) == Handle(UpdateStep(s, rec.id, Running), i, rec, d, def, ok, next, o)
    ensures d.kind == Task ==> ok == (d.handler in o.handlers && o.success)
  {
    hide RunFork;
    ok, next := StepIs(s, i, rec, d, def, o);
    hide Handle, UpdateStep, JoinSucceeds;
    if d.kind == Task {
      ok, next := d.handler in o.handlers && o.success, true;
    }
  }

  // ------------------------------------------------------------------ one transition

  /** The transition runs the handler of step x, and it fails. */
  predicate FailsAt(s: State, op: Op, x: int) {
    && Called(s, op).Some? && Called(s, op).value.step == x && !Called(s, op).value.compensation
    && !op.choice.success
  }

  /** x is a task of instance i that is neither undone nor paused, and the instance is running. */
  predicate TaskOf(s: State, i: int, x: int) {
    && x in s.steps && s.steps[x].kind == Task && s.steps[x].instance == i && StillRunning(s, i)
    && s.steps[x].status != Compensation && s.steps[x].status != RolledBack && s.steps[x].status != Paused
  }

  lemma DispatchCases(s: State, q: int, i: int, rec: StepRec, def: Definition, o: Choice)
    requires NoHumans(s) && Defined(s, i, rec.name) && DefinitionOf(s, i) == def && def.steps[rec.name].kind != Human
    ensures var d, r := def.steps[rec.name], Dispatch(s, q, i, rec, o);
            if Finished(rec.status) then r == Remove(Remove(s, rec.id), q)
            else if Elsewhere(rec, d, def.steps, o) then r == HandBack(s, q, o.cooldown)
            else if rec.status == Compensation then r == Remove(ExecuteCompensation(s, i, rec, d, def.steps, o), q)
            else r == Remove(ExecuteStep(s, i, rec, d, def, o), q)
  {
    hide NoHumans, ExecuteCompensation, ExecuteStep, Remove, HandBack, Elsewhere;
  }

  lemma AttemptSteady(s: State, i: int, rec: StepRec, steps: Steps, o: Choice, x: int)
    requires WellFormed(s) && rec.id in s.steps && s.steps[rec.id] == rec && rec.instance == i
             && rec.status == Compensation
    requires rec.name in steps && x in s.steps && x != rec.id
    ensures var r := ExecuteCompensation(s, i, rec, steps[rec.name], steps, o);
            x in r.steps && r.steps[x] == s.steps[x]
  {
    hide WellFormed, ExecuteCompensation, Local;
    CompensationLocal(s, i, rec, steps[rec.name], steps, o);
  }

  lemma DispatchSteady(s: State, q: int, i: int, rec: StepRec, def: Definition, o: Choice, x: int)
    requires WellFormed(s) && NoHumans(s) && Runs(s, i, def) && TaskOf(s, i, x) && !IsDlq(s, i)
    requires rec.id in s.steps && s.steps[rec.id] == rec && rec.instance == i
    requires rec.id == x ==> !(CallOf(s, i, rec, o) == Some(Call(i, x, false)) && !o.success)
    requires StillRunning(Dispatch(s, q, i, rec, o), i)
    ensures var r := Dispatch(s, q, i, rec, o);
            x in r.steps && r.steps[x].retryCount == s.steps[x].retryCount
  {
    DefinedStep(s, i, rec);
    hide WellFormed, NoHumans, Dispatch, ExecuteStep, ExecuteCompensation, Local;
    var d := def.steps[rec.name];
    DispatchCases(s, q, i, rec, def, o);
    if Finished(rec.status) || Elsewhere(rec, d, def.steps, o) {
    } else if rec.status == Compensation {
      AttemptSteady(s, i, rec, def.steps, o, x);
    } else {
      StepSteady(s, i, rec, def, o);
      if i in s.cancels {
        CancelledLeaves(s, i, rec, d, def, o);
      }
    }
  }

  lemma ExecuteSteady(s: State, q: int, o: Choice, i: int, x: int)
    requires WellFormed(s) && q in s.queue && TaskOf(s, i, x) && !FailsAt(s, NextOp(q, o), x)
    requires NoHumans(s) && StillRunning(Execute(s, q, o), i)
    ensures x in Execute(s, q, o).steps && Execute(s, q, o).steps[x].retryCount == s.steps[x].retryCount
  {
    hide WellFormed, NoHumans, Execute, Dispatch, Effect, Tame, IdsOf;
    Found(s, q);
    var j, id := s.queue[q].instance, s.queue[q].step.value;
    if j != i {
      OtherSteady(s, q, o, i, x);
    } else {
      var def := DefinitionOf(s, i);
      var c := s.(queue := Claim(s.queue, q));
      RequeueTame(s, c, i, def.steps);
      TameWell(s, c, i, def.steps);
      hide Local;
      ExecuteIsDispatch(s, q, o);
      CalledHere(s, q, o, id);
      DispatchSteady(c, q, i, s.steps[id], def, o, x);
    }
  }

  lemma CalledHere(s: State, q: int, o: Choice, id: int)
    requires WellFormed(s) && q in s.queue && s.queue[q].step == Some(id)
    ensures id in s.steps && s.queue[q].instance in s.instances
    ensures !IsDlq(s, s.queue[q].instance) ==>
              var c := s.(queue := Claim(s.queue, q));
              Called(s, NextOp(q, o)) == CallOf(c, s.queue[q].instance, s.steps[id], o)
  {
    Found(s, q);
    hide WellFormed, NoHumans, IdsOf;
  }

  lemma OtherSteady(s: State, q: int, o: Choice, i: int, x: int)
    requires WellFormed(s) && q in s.queue && s.queue[q].instance != i && x in s.steps && s.steps[x].instance == i
    ensures NoHumans(s) && x in Execute(s, q, o).steps && Execute(s, q, o).steps[x] == s.steps[x]
  {
    hide WellFormed, NoHumans, Execute, Effect, Stale;
    ExecuteEffect(s, q, o);
    if !Stale(s, q) {
      var j := s.queue[q].instance;
      EffectWell(s, Execute(s, q, o), j, s.queue[q].step.value, DefinitionOf(s, j).steps);
      assert LocalSteps(s, Execute(s, q, o), j);
    }
  }

  /** A transition in which x does not fail leaves its count alone, as long as the instance runs. */
  lemma NotFailing(s: State, op: Op, aging: Aging, r: State, i: int, x: int)
    requires WellFormed(s) && Next(s, op, aging, r) && TaskOf(s, i, x) && !FailsAt(s, op, x) && StillRunning(r, i)
    ensures x in r.steps && r.steps[x].retryCount == s.steps[x].retryCount && !RetryOf(s, r, x)
  {
    NextKept(s, op, aging, r, x);
    hide WellFormed, Execute, Start, NoHumans, Permitted, Tame, FailsAt, Kept, Called;
    match op
    case StartOp(w, accepted) =>
      if w in s.definitions && accepted {
        StartTame(s, w, accepted);
        TameWell(WithInstance(s, w), r, s.nextInstance, s.definitions[w].steps);
        StartedOther(s, w, r, i, x);
      } else {
        NotStarted(s, w, accepted);
      }
    case NextOp(q, o) => ExecuteSteady(s, q, o, i, x);
    case _ =>
    NotRetried(s, r, x);
  }

  lemma StartedOther(s: State, w: string, r: State, i: int, x: int)
    requires Local(WithInstance(s, w), r, s.nextInstance) && x in s.steps && s.steps[x].instance == i
             && i in s.instances
    requires s.nextInstance !in s.instances
    ensures x in r.steps && r.steps[x] == s.steps[x]
  {
    assert LocalSteps(WithInstance(s, w), r, s.nextInstance);
  }

  lemma NotRetried(s: State, r: State, x: int)
    requires x in s.steps && x in r.steps && Kept(s, r, x) && r.steps[x].retryCount == s.steps[x].retryCount
    ensures !RetryOf(s, r, x)
  {
    hide RetryOf;
  }

  // ------------------------------------------------------------------ a failing transition

  /** The handler that fails: what the execution is. */
  lemma FailingIs(s: State, q: int, o: Choice, i: int, x: int)
    requires WellFormed(s) && q in s.queue && NoHumans(s) && TaskOf(s, i, x) && FailsAt(s, NextOp(q, o), x)
    ensures s.steps[x].id == x && Made(s.steps[x], StepsFor(s, x)) && i in s.instances
            && s.instances[i].workflow in s.definitions
    ensures StepsFor(s, x) == DefinitionOf(s, i).steps
    ensures var c, def := s.(queue := Claim(s.queue, q)), DefinitionOf(s, i);
            var d := def.steps[s.steps[x].name];
            && x in UpdateStep(c, x, Running).steps
            && Execute(s, q, o) == Remove(HandleFailure(UpdateStep(c, x, Running), i, s.steps[x], d, def, o), q)
  {
    hide WellFormed, NoHumans, Execute, Dispatch, HandleFailure, HandleSuccess, Remove, IdsOf, HandleCancellation,
         HandBack;
    Found(s, q);
    CountsNotNegative(s, x);
    var id := s.queue[q].step.value;
    CalledHere(s, q, o, id);
    StepsForOwn(s, x, i);
    var def := DefinitionOf(s, i);
    var c := s.(queue := Claim(s.queue, q));
    ExecuteIsDispatch(s, q, o);
    DefinedStep(s, i, s.steps[x]);
    hide Called, FailsAt;
    FailingDispatch(c, q, i, s.steps[x], def, o);
  }

  lemma FailingDispatch(s: State, q: int, i: int, rec: StepRec, def: Definition, o: Choice)
    requires NoHumans(s) && Defined(s, i, rec.name) && DefinitionOf(s, i) == def && def.steps[rec.name].kind != Human
    requires rec.status != Compensation && CallOf(s, i, rec, o) == Some(Call(i, rec.id, false)) && !o.success
    ensures Dispatch(s, q, i, rec, o) ==
            Remove(HandleFailure(UpdateStep(s, rec.id, Running), i, rec, def.steps[rec.name], def, o), q)
  {
    hide NoHumans, HandleFailure, HandleSuccess, Remove, HandleCancellation, HandBack, UpdateStep, ExecuteCompensation;
  }

  /** A failed handler: the task is put back, once more failed and with one urgent item, if and only
      if it has failed less often than its limit; otherwise, unless a join is missing, the instance
      leaves the running state. */
  lemma FailureIsExact(s: State, op: Op, aging: Aging, r: State, i: int, x: int)
    requires WellFormed(s) && Next(s, op, aging, r) && TaskOf(s, i, x) && FailsAt(s, op, x)
    ensures s.steps[x].name in StepsFor(s, x) && x in r.steps
    ensures var limit := RetryLimit(StepsFor(s, x)[s.steps[x].name]);
            && (RetryOf(s, r, x) <==> s.steps[x].retryCount < limit)
            && (s.steps[x].retryCount < limit ==> StillRunning(r, i) && r.steps[x].status == Failed)
            && (StillRunning(r, i) && r.steps[x].status != Paused ==>
                r.steps[x].retryCount == s.steps[x].retryCount + 1)
  {
    NextKept(s, op, aging, r, x);
    hide WellFormed, Execute, NoHumans, Permitted, Kept, Called, HandleFailure, Made, StepsFor;
    var q, o := op.item, op.choice;
    FailingIs(s, q, o, i, x);
    MadeRight(s, x);
    WellUnused(s);
    FailingEffect(s, r, q, o, i, x, DefinitionOf(s, i), StepsFor(s, x)[s.steps[x].name]);
    KeptPermits(s, r, x);
  }

  lemma MadeRight(s: State, x: int)
    requires x in s.steps && Made(s.steps[x], StepsFor(s, x)) && s.steps[x].kind == Task
    ensures s.steps[x].name in StepsFor(s, x) && s.steps[x].retryCount >= 0
    ensures s.steps[x].maxRetries == StepsFor(s, x)[s.steps[x].name].maxRetries
  {
  }

  lemma KeptPermits(s: State, r: State, x: int)
    requires x in s.steps && Kept(s, r, x) && s.steps[x].name in StepsFor(s, x)
    ensures RetryOf(s, r, x) ==> s.steps[x].retryCount < RetryLimit(StepsFor(s, x)[s.steps[x].name])
    ensures x in r.steps
  {
    hide RetryOf;
  }

  lemma FailingEffect(s: State, r: State, q: int, o: Choice, i: int, x: int, def: Definition, d: StepDef)
    requires x in s.steps && q in s.queue && Unused(s) && StillRunning(s, i)
    requires s.steps[x].retryCount >= 0 && s.steps[x].id == x && s.steps[x].maxRetries == d.maxRetries
    requires r == Remove(HandleFailure(UpdateStep(s.(queue := Claim(s.queue, q)), x, Running), i, s.steps[x], d, def,
                                       o), q)
    ensures s.steps[x].retryCount < RetryLimit(d) ==>
              x in r.steps && RetryOf(s, r, x) && StillRunning(r, i) && r.steps[x].status == Failed
    ensures StillRunning(r, i) && x in r.steps && r.steps[x].status != Paused ==>
              r.steps[x].retryCount == s.steps[x].retryCount + 1
  {
    var c := s.(queue := Claim(s.queue, q));
    var a := UpdateStep(c, x, Running);
    var rec := s.steps[x];
    assert Unused(a) && a.queue == c.queue && a.steps[x] == rec.(status := Running) && a.instances == s.instances;
    NotUsed(s);
    MayRetryIff(rec, d);
    hide UpdateStep, HandleFailure, Unused;
    if MayRetry(rec, d) {
      RetryIsExact(a, i, rec, d, def, o);
      assert s.nextQueue in r.queue && r.queue[s.nextQueue].step == Some(x);
    } else {
      FinalCount(a, i, rec, d, def, o);
    }
  }

  /** A final failure is counted, or ends the instance, or leaves the step paused. */
  lemma FinalCount(a: State, i: int, rec: StepRec, d: StepDef, def: Definition, o: Choice)
    requires Unused(a) && rec.id in a.steps && !MayRetry(rec, d) && rec.retryCount >= 0
    ensures var r := HandleFailure(a, i, rec, d, def, o);
            StillRunning(r, i) && rec.id in r.steps && r.steps[rec.id].status != Paused ==>
              r.steps[rec.id].retryCount == a.steps[rec.id].retryCount + 1
  {
    FinalMark(a, i, rec, d, def.steps, o);
    hide Mark, Unused, Siblings, RollBack, SnapshotOf, SkipAll, Freeze, CreateDeadLetter;
  }

  lemma FinalMark(a: State, i: int, rec: StepRec, d: StepDef, steps: Steps, o: Choice)
    requires Unused(a) && rec.id in a.steps
    ensures var m := Mark(a, i, rec, d, steps, o, Paused, false, false).0;
            rec.id in m.steps && m.steps[rec.id].status == Paused
    ensures var m := Mark(a, i, rec, d, steps, o, Failed, true, false).0;
            rec.id in m.steps && m.steps[rec.id].retryCount == a.steps[rec.id].retryCount + 1
  {
    hide Mark, JoinsBorn, Unused;
    MarkBorn(a, i, rec, d, steps, o, Paused, false, false);
    MarkBorn(a, i, rec, d, steps, o, Failed, true, false);
    BornFrame(UpdateStep(a, rec.id, Paused), Mark(a, i, rec, d, steps, o, Paused, false, false).0, i);
    BornFrame(UpdateStep(a, rec.id, Failed), Mark(a, i, rec, d, steps, o, Failed, true, false).0, i);
  }

  /** A failure that may not be retried ends the running of the instance, provided that every join
      that is told of it has a state. */
  lemma LastFailureLeaves(a: State, i: int, rec: StepRec, d: StepDef, def: Definition, o: Choice)
    requires i in a.instances && !MayRetry(rec, d) && rec.retryCount >= 0
    requires if def.dlqEnabled then Mark(a, i, rec, d, def.steps, o, Paused, false, false).1
             else Mark(a, i, rec, d, def.steps, o, Failed, true, false).1
    ensures !StillRunning(HandleFailure(a, i, rec, d, def, o), i)
  {
    hide Mark, Siblings, RollBack, SnapshotOf, SkipAll, Freeze, CreateDeadLetter;
  }

  // ------------------------------------------------------------------ runs

  /** How often the handler of x failed. */
  ghost function Failures(states: seq<State>, ops: seq<Op>, x: int): nat
    requires |states| == |ops| + 1
  {
    if ops == [] then 0
    else
      var n := |ops| - 1;
      Failures(states[..n + 1], ops[..n], x) + (if FailsAt(states[n], ops[n], x) then 1 else 0)
  }

  function Min(a: int, b: int): int {
    if a < b then a else b
  }

  /** The limit of a step's retries. */
  function LimitOf(s: State, x: int): int
    requires x in s.steps
  {
    if s.steps[x].name in StepsFor(s, x) then RetryLimit(StepsFor(s, x)[s.steps[x].name]) else 0
  }

  lemma LimitKept(s: State, r: State, x: int)
    requires x in s.steps && x in r.steps && Kept(s, r, x)
    ensures LimitOf(r, x) == LimitOf(s, x)
  {
    hide StepsFor, RetryOf;
  }

  /** The tally so far: the count of failures is the record's, and the retries are as many, up to
      the limit. */
  ghost predicate Tally(s: State, x: int, failures: nat, retries: nat) {
    && x in s.steps && s.steps[x].retryCount == failures && retries == Min(failures, LimitOf(s, x))
    && LimitOf(s, x) >= 0
  }

  lemma TallyStep(s: State, op: Op, aging: Aging, r: State, i: int, x: int, failures: nat, retries: nat)
    requires WellFormed(s) && Next(s, op, aging, r) && TaskOf(s, i, x) && TaskOf(r, i, x)
             && Tally(s, x, failures, retries)
    ensures Tally(r, x, failures + (if FailsAt(s, op, x) then 1 else 0), retries + (if RetryOf(s, r, x) then 1 else 0))
  {
    hide WellFormed, Next, FailsAt, RetryOf, StepsFor, Kept;
    NextKept(s, op, aging, r, x);
    LimitKept(s, r, x);
    if FailsAt(s, op, x) {
      FailureIsExact(s, op, aging, r, i, x);
    } else {
      NotFailing(s, op, aging, r, i, x);
    }
  }

  /** The exact number of retries: over every run in which the instance keeps running and a task is
      neither undone nor paused, the task is put back as often as its handler failed, up to
      MaxRetries, or up to once if it is not idempotent. */
  lemma {:induction false} RetriesAreExact(states: seq<State>, ops: seq<Op>, aging: Aging, i: int, x: int)
    requires Run(states, ops, aging) && WellFormed(states[0])
    requires forall j | 0 <= j < |states| :: TaskOf(states[j], i, x)
    requires x in states[0].steps && states[0].steps[x].retryCount == 0
    ensures Tally(states[|ops|], x, Failures(states, ops, x), RetryCount(states, x))
    decreases |ops|
  {
    hide WellFormed, Next, FailsAt, RetryOf, StepsFor, TaskOf, Tally;
    if ops == [] {
      LimitNotNegative(states[0], i, x);
    } else {
      var n := |ops| - 1;
      RunPrefix(states, ops, aging, n);
      assert states[..n + 1][0] == states[0];
      RetriesAreExact(states[..n + 1], ops[..n], aging, i, x);
      RunWell(states, ops, aging, n);
      assert Next(states[n], ops[n], aging, states[n + 1]);
      TallyStep(states[n], ops[n], aging, states[n + 1], i, x, Failures(states[..n + 1], ops[..n], x),
                RetryCount(states[..n + 1], x));
    }
  }

  lemma LimitNotNegative(s: State, i: int, x: int)
    requires TaskOf(s, i, x) && s.steps[x].retryCount == 0
    ensures Tally(s, x, 0, 0)
  {
  }

  /** Hence an instance that leaves the running state because the handler of a task failed has put
      the task back exactly as often as its definition allows. */
  lemma LeavesAfterAllRetries(states: seq<State>, ops: seq<Op>, aging: Aging, i: int, x: int, s: State, op: Op,
                              r: State)
    requires Run(states, ops, aging) && WellFormed(states[0])
    requires forall j | 0 <= j < |states| :: TaskOf(states[j], i, x)
    requires x in states[0].steps && states[0].steps[x].retryCount == 0
    requires s == states[|ops|] && x in s.steps && Next(s, op, aging, r) && FailsAt(s, op, x) && !StillRunning(r, i)
    ensures RetryCount(states, x) == LimitOf(s, x)
  {
    hide WellFormed, Next, FailsAt, RetryOf, StepsFor, TaskOf;
    RetriesAreExact(states, ops, aging, i, x);
    RunWell(states, ops, aging, |ops|);
    FailureIsExact(s, op, aging, r, i, x);
  }
}
