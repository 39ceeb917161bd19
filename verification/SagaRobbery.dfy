/** A run in which one instance deletes the only queue item of another, and what follows. */
module SagaRobbery {
  import opened Definitions
  import opened Trees
  import opened Store
  import opened Queue
  import opened CycleDetection
  import Builder
  import H = BuilderHealth
  import opened Rollback
  import opened RollbackEngine
  import opened Engine
  import F = EngineFrames
  import opened EngineTame
  import opened EngineSteps
  import opened EngineRuns
  import opened SagaChains
  import opened Sagas
  import opened SagaSteps
  import opened SagaRuns
  import opened SagaBuilds
  import opened SagaWitness

  // ------------------------------------------------------------------ two workflows

  /** The names of a late one-task workflow and of a fork with two branches. */
  datatype Cast = Cast(late: string, l: string, forked: string, f: string, x: string, y: string)

  predicate Fine(n: Cast) {
    && n.late != "" && n.forked != "" && n.late != n.forked && n.f != n.x && n.f != n.y && n.x != n.y
    && ValidName(n.l) && ValidName(n.f) && ValidName(n.x) && ValidName(n.y)
  }

  function TaskOf(prev: string, maxRetries: int, delay: real): StepDef {
    StepDef(Task, "h", maxRetries, [], prev, "", "", [], [], All, false, delay, 0.0, Fixed)
  }

  function ForkOfTwo(n: Cast): StepDef {
    StepDef(Fork, "", 0, [], ROOT_STEP, "", "", [n.x, n.y], [], All, false, 0.0, 0.0, Fixed)
  }

  /** One task, executed a second after it is queued, at most twice. */
  function LateFlow(n: Cast): Definition {
    Definition(n.late, n.late, map[n.l := TaskOf(ROOT_STEP, 1, 1.0)], n.l, false)
  }

  /** Two branches, the first one delayed. */
  function ForkFlow(n: Cast): Definition {
    Definition(n.forked, n.forked,
               map[n.f := ForkOfTwo(n), n.x := TaskOf(n.f, 0, 0.5), n.y := TaskOf(n.f, 0, 0.0)], n.f, false)
  }

  lemma LateAcceptable(n: Cast)
    requires Fine(n)
    ensures Acceptable(LateFlow(n)) && LinearFlow(LateFlow(n), [n.l])
  {
    var steps := LateFlow(n).steps;
    assert H.HealthyAt(steps, map[n.l := 1], 0, 2, n.l) by {
      assert Outs(steps[n.l]) == [];
    }
    H.HealthyIsValid(steps, map[n.l := 1], 0, 2, n.l);
    assert IsLink(steps, [n.l], 0);
  }

  lemma ForkAcceptable(n: Cast)
    requires Fine(n)
    ensures Acceptable(ForkFlow(n))
  {
    var steps := ForkFlow(n).steps;
    var rank := map[n.f := 2, n.x := 1, n.y := 1];
    assert Outs(steps[n.f]) == [n.x, n.y] && Outs(steps[n.x]) == [] && Outs(steps[n.y]) == [];
    hide ValidName, Outs;
    assert H.HealthyAt(steps, rank, 0, 3, n.f) && H.HealthyAt(steps, rank, 0, 3, n.x)
           && H.HealthyAt(steps, rank, 0, 3, n.y);
    H.HealthyIsValid(steps, rank, 0, 3, n.f);
  }

  // ------------------------------------------------------------------ the stores of the run

  function World(n: Cast, instances: map<int, Instance>, steps: map<int, StepRec>, byInstance: map<int, seq<int>>,
                 queue: Items, nextInstance: int, nextStep: int, nextQueue: int, clock: real): State {
    State(map[n.late := LateFlow(n), n.forked := ForkFlow(n)], instances, steps, byInstance, queue,
          map[], map[], map[], nextInstance, nextStep, nextQueue, 1, clock)
  }

  function LateRec(n: Cast, status: StepStatus, retries: int): StepRec {
    StepRec(1, 1, n.l, Task, status, retries, 1, 0)
  }

  function Item(instance: int, step: int, at: real, priority: int): QueueItem {
    QueueItem(instance, Some(step), at, priority, false)
  }

  function S0(n: Cast): State {
    World(n, map[], map[], map[], map[], 1, 1, 1, 0.0)
  }

  function S1(n: Cast, clock: real): State {
    World(n, map[1 := Instance(n.late, WfRunning)], map[1 := LateRec(n, Pending, 0)], map[1 := [1]],
          map[1 := Item(1, 1, 1.0, 50)], 2, 2, 2, clock)
  }

  function S2(n: Cast): State {
    World(n, map[1 := Instance(n.late, WfRunning), 2 := Instance(n.forked, WfRunning)],
          map[1 := LateRec(n, Pending, 0), 2 := StepRec(2, 2, n.f, Fork, Pending, 0, 0, 0)], map[1 := [1], 2 := [2]],
          map[1 := Item(1, 1, 1.0, 50), 2 := Item(2, 2, 1.0, 50)], 3, 3, 3, 1.0)
  }

  function S3(n: Cast): State {
    World(n, map[1 := Instance(n.late, WfRunning), 2 := Instance(n.forked, WfRunning)],
          map[1 := LateRec(n, Failed, 1), 2 := StepRec(2, 2, n.f, Fork, Pending, 0, 0, 0)], map[1 := [1], 2 := [2]],
          map[3 := Item(1, 1, 2.0, 100), 2 := Item(2, 2, 1.0, 50)], 3, 3, 4, 1.0)
  }

  function S4(n: Cast): State {
    World(n, map[1 := Instance(n.late, WfRunning), 2 := Instance(n.forked, WfRunning)],
          map[1 := LateRec(n, Failed, 1), 2 := StepRec(2, 2, n.f, Fork, Completed, 0, 0, 0),
              3 := StepRec(3, 2, n.x, Task, Pending, 0, 0, 0), 4 := StepRec(4, 2, n.y, Task, Pending, 0, 0, 0)],
          map[1 := [1], 2 := [2, 3, 4]],
          map[3 := Item(1, 1, 2.0, 100), 4 := Item(2, 3, 1.5, 50), 5 := Item(2, 4, 1.0, 50)], 3, 5, 6, 1.0)
  }

  lemma FirstStart(n: Cast)
    requires Fine(n)
    ensures Start(S0(n), n.late, true) == S1(n, 0.0)
  {
    StartIs(S0(n), n.late);
    var r := Start(S0(n), n.late, true);
    hide Start;
    assert r.instances == S1(n, 0.0).instances && r.steps == S1(n, 0.0).steps;
    assert [] + [1] == [1];
    assert r.byInstance == S1(n, 0.0).byInstance && r.queue == S1(n, 0.0).queue;
  }

  lemma SecondStart(n: Cast)
    requires Fine(n)
    ensures Start(S1(n, 1.0), n.forked, true) == S2(n)
  {
    StartIs(S1(n, 1.0), n.forked);
    var r := Start(S1(n, 1.0), n.forked, true);
    hide Start;
    assert r.instances == S2(n).instances && r.steps == S2(n).steps;
    assert [] + [2] == [2];
    assert r.byInstance == S2(n).byInstance && r.queue == S2(n).queue;
  }

  // ------------------------------------------------------------------ what the engine does

  /** The outside choices of a worker that knows the handler. */
  lemma ChoiceFor(def: Definition, name: string, success: bool) returns (o: Choice)
    ensures o.success == success && o.handlers == {"h"}
    ensures Enumerates(o.order, def.steps) && StopsRight(def, name, o.stop)
  {
    var order := Listing(def.steps.Keys);
    var stop := SomeStop(def.steps, name);
    o := Choice({"h"}, 0.0, success, true, order, stop);
  }

  /** A task whose handler fails. */
  lemma TaskFails(s: State, q: int, i: int, rec: StepRec, o: Choice)
    requires NoHumans(s) && !Finished(rec.status) && rec.status != Compensation && Defined(s, i, rec.name)
             && i !in s.cancels
    requires DefinitionOf(s, i).steps[rec.name].kind == Task && DefinitionOf(s, i).steps[rec.name].handler == "h"
    requires o.handlers == {"h"} && !o.success
    ensures var def := DefinitionOf(s, i);
            Dispatch(s, q, i, rec, o) == Remove(HandleFailure(UpdateStep(s, rec.id, Running), i, rec,
                                                              def.steps[rec.name], def, o), q)
  {
    hide NoHumans, HandBack, ExecuteCompensation, HandleSuccess, HandleFailure, UpdateStep, Remove, HandleCancellation;
  }

  lemma RetryIs(s: State, i: int, rec: StepRec, d: StepDef, def: Definition, o: Choice)
    requires rec.retryCount == 0 && d.maxRetries > 0
    ensures HandleFailure(s, i, rec, d, def, o) == Enqueue(UpdateStep(s, rec.id, Failed), i, rec.id, PRIORITY_HIGH,
                                                           d.delay)
  {
    hide ToDlq, FailFinally;
  }

  lemma LateRetried(n: Cast)
    ensures var s := S2(n);
            var u := UpdateStep(UpdateStep(s.(queue := Claim(s.queue, 1)), 1, Running), 1, Failed);
            Remove(Enqueue(u, 1, 1, PRIORITY_HIGH, 1.0), 1) == S3(n)
  {
    hide LateFlow, ForkFlow, UpdateStep, S2, S3;
    LateFailed(n);
    LateQueue(n);
  }

  lemma LateFailed(n: Cast)
    ensures 1 in S2(n).queue && S3(n) == S2(n).(steps := S3(n).steps, queue := S3(n).queue, nextQueue := 4)
    ensures var c := S2(n).(queue := Claim(S2(n).queue, 1));
            UpdateStep(UpdateStep(c, 1, Running), 1, Failed) == c.(steps := S3(n).steps)
  {
    hide LateFlow, ForkFlow;
    var c := S2(n).(queue := Claim(S2(n).queue, 1));
    assert UpdateStep(UpdateStep(c, 1, Running), 1, Failed).steps == S3(n).steps;
  }

  lemma LateQueue(n: Cast)
    ensures 1 in S2(n).queue && S2(n).nextQueue == 3 && S2(n).clock == 1.0
    ensures Claim(S2(n).queue, 1)[3 := Item(1, 1, 2.0, 100)] - {1} == S3(n).queue
  {
    hide LateFlow, ForkFlow, LateRec;
  }

  lemma LateDefined(n: Cast)
    requires n.late != n.forked
    ensures var s := S2(n);
            && Defined(s, 1, n.l) && DefinitionOf(s, 1) == LateFlow(n)
            && LateFlow(n).steps[n.l] == TaskOf(ROOT_STEP, 1, 1.0)
            && 1 in s.steps && 1 in s.queue && s.steps[1] == LateRec(n, Pending, 0)
            && s.queue[1] == Item(1, 1, 1.0, 50) && IdsOf(s, 1) == [1] && !IsDlq(s, 1)
            && s.cancels == map[]
  {
  }

  lemma LateFails(n: Cast, o: Choice)
    requires Fine(n) && NoHumans(S2(n)) && o.handlers == {"h"} && !o.success
    ensures 1 in S2(n).queue && Execute(S2(n), 1, o) == S3(n)
  {
    hide S2, S3, LateFlow, IsDlq, NoHumans, Execute, Dispatch, HandleFailure, UpdateStep, Enqueue, Remove, ValidName;
    LateDefined(n);
    LateRetried(n);
    var s := S2(n);
    var c := s.(queue := Claim(s.queue, 1));
    ExecuteIsDispatch(s, 1, o);
    TaskFails(c, 1, 1, s.steps[1], o);
    RetryIs(UpdateStep(c, 1, Running), 1, s.steps[1], LateFlow(n).steps[n.l], LateFlow(n), o);
  }

  // ------------------------------------------------------------------ the fork runs

  /** A fork starts its branches. */
  lemma ForkRuns(s: State, q: int, i: int, rec: StepRec, o: Choice)
    requires NoHumans(s) && !Finished(rec.status) && rec.status != Compensation && Defined(s, i, rec.name)
             && i !in s.cancels
    requires DefinitionOf(s, i).steps[rec.name].kind == Fork && rec.kind == Fork
    requires RunFork(UpdateStep(s, rec.id, Running), i, DefinitionOf(s, i).steps, DefinitionOf(s, i).steps[rec.name]).1
    ensures var def := DefinitionOf(s, i);
            var d := def.steps[rec.name];
            Dispatch(s, q, i, rec, o) ==
            Remove(HandleSuccess(RunFork(UpdateStep(s, rec.id, Running), i, def.steps, d).0, i, rec, d, def, true, o),
                   q)
  {
    hide NoHumans, HandBack, ExecuteCompensation, HandleSuccess, HandleFailure, UpdateStep, Remove, HandleCancellation,
         RunFork;
  }

  lemma TwoBranches(s: State, i: int, n: Cast)
    requires Fine(n)
    ensures var steps := ForkFlow(n).steps;
            RunFork(s, i, steps, ForkOfTwo(n)) == (Spawn(Spawn(s, i, n.x, TaskOf(n.f, 0, 0.5)), i, n.y,
                                                         TaskOf(n.f, 0, 0.0)), true)
  {
    hide Spawn, ValidName;
    var steps := ForkFlow(n).steps;
    var s1 := Spawn(s, i, n.x, TaskOf(n.f, 0, 0.5));
    var s2 := Spawn(s1, i, n.y, TaskOf(n.f, 0, 0.0));
    assert [n.x, n.y][1..] == [n.y] && [n.y][1..] == [];
    assert StartBranches(s2, i, steps, []) == (s2, true);
    assert StartBranches(s1, i, steps, [n.y]) == (s2, true);
    assert StartBranches(s, i, steps, [n.x, n.y]) == (s2, true);
    assert OpenJoins(s2, i, steps, ForkOfTwo(n), []) == s2;
  }

  function Forking(n: Cast, claimed: QueueItem): State {
    S3(n).(steps := map[1 := LateRec(n, Failed, 1), 2 := StepRec(2, 2, n.f, Fork, Running, 0, 0, 0)],
           queue := map[3 := Item(1, 1, 2.0, 100), 2 := claimed])
  }

  function HalfForked(n: Cast, claimed: QueueItem): State {
    Forking(n, claimed).(
      steps := map[1 := LateRec(n, Failed, 1), 2 := StepRec(2, 2, n.f, Fork, Running, 0, 0, 0),
                   3 := StepRec(3, 2, n.x, Task, Pending, 0, 0, 0)],
      byInstance := map[1 := [1], 2 := [2, 3]],
      queue := map[3 := Item(1, 1, 2.0, 100), 2 := claimed, 4 := Item(2, 3, 1.5, 50)], nextStep := 4, nextQueue := 5)
  }

  function Forked(n: Cast, claimed: QueueItem): State {
    HalfForked(n, claimed).(
      steps := map[1 := LateRec(n, Failed, 1), 2 := StepRec(2, 2, n.f, Fork, Running, 0, 0, 0),
                   3 := StepRec(3, 2, n.x, Task, Pending, 0, 0, 0), 4 := StepRec(4, 2, n.y, Task, Pending, 0, 0, 0)],
      byInstance := map[1 := [1], 2 := [2, 3, 4]],
      queue := map[3 := Item(1, 1, 2.0, 100), 2 := claimed, 4 := Item(2, 3, 1.5, 50), 5 := Item(2, 4, 1.0, 50)],
      nextStep := 5, nextQueue := 6)
  }

  lemma FirstBranch(n: Cast, claimed: QueueItem)
    ensures Spawn(Forking(n, claimed), 2, n.x, TaskOf(n.f, 0, 0.5)) == HalfForked(n, claimed)
  {
    var r := Spawn(Forking(n, claimed), 2, n.x, TaskOf(n.f, 0, 0.5));
    assert [2] + [3] == [2, 3];
    assert r.steps == HalfForked(n, claimed).steps;
    assert r.byInstance == HalfForked(n, claimed).byInstance;
    assert r.queue == HalfForked(n, claimed).queue;
  }

  lemma SecondBranch(n: Cast, claimed: QueueItem)
    ensures Spawn(HalfForked(n, claimed), 2, n.y, TaskOf(n.f, 0, 0.0)) == Forked(n, claimed)
  {
    var r := Spawn(HalfForked(n, claimed), 2, n.y, TaskOf(n.f, 0, 0.0));
    assert [2, 3] + [4] == [2, 3, 4];
    assert r.steps == Forked(n, claimed).steps;
    assert r.byInstance == Forked(n, claimed).byInstance;
    assert r.queue == Forked(n, claimed).queue;
  }

  lemma BeginsForking(n: Cast)
    ensures var claimed := Item(2, 2, 1.0, 50).(attempted := true);
            UpdateStep(S3(n).(queue := Claim(S3(n).queue, 2)), 2, Running) == Forking(n, claimed)
  {
    var claimed := Item(2, 2, 1.0, 50).(attempted := true);
    var u := UpdateStep(S3(n).(queue := Claim(S3(n).queue, 2)), 2, Running);
    assert u.steps == Forking(n, claimed).steps;
    assert u.queue == Forking(n, claimed).queue;
  }

  lemma EndsForking(n: Cast, claimed: QueueItem)
    ensures Remove(UpdateStep(Forked(n, claimed), 2, Completed), 2) == S4(n)
  {
    hide LateFlow, ForkFlow, LateRec, UpdateStep;
    ForkCompleted(n, claimed);
    ForkQueue(n, claimed);
  }

  lemma ForkQueue(n: Cast, claimed: QueueItem)
    ensures Forked(n, claimed).queue - {2} == S4(n).queue
  {
    hide LateFlow, ForkFlow, LateRec;
  }

  lemma ForkCompleted(n: Cast, claimed: QueueItem)
    ensures UpdateStep(Forked(n, claimed), 2, Completed) == Forked(n, claimed).(steps := S4(n).steps)
  {
    hide LateFlow, ForkFlow, LateRec;
    var v := Forked(n, claimed);
    assert v.steps[2 := WithStatus(v.steps[2], Completed)] == S4(n).steps;
  }

  /** The store after the branches were started. */
  lemma BranchesStarted(n: Cast)
    ensures 2 in S3(n).queue
    ensures var s := S3(n);
            var u := UpdateStep(s.(queue := Claim(s.queue, 2)), 2, Running);
            var v := Spawn(Spawn(u, 2, n.x, TaskOf(n.f, 0, 0.5)), 2, n.y, TaskOf(n.f, 0, 0.0));
            Remove(UpdateStep(v, 2, Completed), 2) == S4(n)
  {
    assert 2 in S3(n).queue;
    hide S3, S4, Forking, HalfForked, Forked, Spawn, UpdateStep, Remove;
    var claimed := Item(2, 2, 1.0, 50).(attempted := true);
    BeginsForking(n);
    FirstBranch(n, claimed);
    SecondBranch(n, claimed);
    EndsForking(n, claimed);
  }

  lemma ForkSucceeds(n: Cast, s: State, i: int, rec: StepRec, o: Choice)
    requires Fine(n) && HasUnfinished(UpdateStep(s, rec.id, Completed), i)
    ensures HandleSuccess(s, i, rec, ForkOfTwo(n), ForkFlow(n), true, o) == UpdateStep(s, rec.id, Completed)
  {
    hide HasUnfinished, CompleteWorkflow, Mark, ValidName, UpdateStep;
    assert WithoutJoins(ForkFlow(n).steps);
    MarkAlone(s, i, rec, ForkOfTwo(n), ForkFlow(n).steps, o, Completed, true, true);
  }

  lemma ForkDefined(n: Cast)
    requires Fine(n)
    ensures var s := S3(n);
            && Defined(s, 2, n.f) && DefinitionOf(s, 2) == ForkFlow(n) && ForkFlow(n).steps[n.f] == ForkOfTwo(n)
            && 2 in s.steps && 2 in s.queue && s.steps[2] == StepRec(2, 2, n.f, Fork, Pending, 0, 0, 0)
            && s.queue[2] == Item(2, 2, 1.0, 50) && IdsOf(s, 2) == [2] && !IsDlq(s, 2) && s.cancels == map[]
  {
    hide ValidName;
  }

  lemma StillToDo(n: Cast, v: State)
    requires Remove(v, 2) == S4(n)
    ensures HasUnfinished(v, 2)
  {
    PresentHas(v.steps, [2, 3, 4], 3);
    assert IdsOf(v, 2) == [2, 3, 4] && v.steps[3] in StepsOf(v, 2);
  }

  lemma ForkDone(n: Cast, o: Choice)
    requires Fine(n) && NoHumans(S3(n))
    ensures 2 in S3(n).queue && Execute(S3(n), 2, o) == S4(n)
  {
    hide S3, S4, ForkFlow, ForkOfTwo, IsDlq, NoHumans, Execute, Dispatch, HandleSuccess, RunFork, UpdateStep, Spawn,
         Remove, HasUnfinished, Fine;
    ForkDefined(n);
    BranchesStarted(n);
    var s := S3(n);
    var c := s.(queue := Claim(s.queue, 2));
    ExecuteIsDispatch(s, 2, o);
    var u := UpdateStep(c, 2, Running);
    TwoBranches(u, 2, n);
    ForkRunsHere(n, c, o);
    var v := RunFork(u, 2, ForkFlow(n).steps, ForkOfTwo(n)).0;
    StillToDo(n, UpdateStep(v, 2, Completed));
    ForkSucceeds(n, v, 2, s.steps[2], o);
  }

  lemma ForkRunsHere(n: Cast, c: State, o: Choice)
    requires NoHumans(c) && Defined(c, 2, n.f) && DefinitionOf(c, 2) == ForkFlow(n)
             && ForkFlow(n).steps[n.f] == ForkOfTwo(n)
    requires c.cancels == map[] && RunFork(UpdateStep(c, 2, Running), 2, ForkFlow(n).steps, ForkOfTwo(n)).1
    ensures var rec := StepRec(2, 2, n.f, Fork, Pending, 0, 0, 0);
            Dispatch(c, 2, 2, rec, o) ==
            Remove(HandleSuccess(RunFork(UpdateStep(c, 2, Running), 2, ForkFlow(n).steps, ForkOfTwo(n)).0, 2, rec,
                                 ForkOfTwo(n), ForkFlow(n), true, o), 2)
  {
    assert ForkOfTwo(n).kind == Fork;
    hide NoHumans, Dispatch, HandleSuccess, RunFork, UpdateStep, Remove, ForkFlow, ForkOfTwo;
    ForkRuns(c, 2, 2, StepRec(2, 2, n.f, Fork, Pending, 0, 0, 0), o);
  }

  // ------------------------------------------------------------------ a branch fails

  /** Compensations are not defined. */
  predicate WithoutCompensation(steps: Steps) {
    forall x | x in steps :: steps[x].onFailure !in steps
  }

  /** Without compensations a rollback only marks completed and failed steps. */
  lemma {:induction false} PlainRollback(s: State, e: Env, log: seq<string>, workflow: string)
    requires Loggable(e, log) && WithoutCompensation(e.steps)
    ensures var r := RollbackAll(s, e, log, workflow);
            && r == s.(steps := r.steps) && r.steps.Keys == s.steps.Keys
            && forall id | id in s.steps && (forall x | x in log :: e.recs[x].id != id) :: r.steps[id] == s.steps[id]
  {
    if log != [] {
      var last := |log| - 1;
      var init, x := log[..last], log[last];
      assert log == init + [x];
      PlainRollback(s, e, init, workflow);
      PlainStep(RollbackAll(s, e, init, workflow), e.recs[x], e.steps, workflow);
      hide RollbackStep, WithoutCompensation;
    }
  }

  lemma PlainStep(r: State, rec: StepRec, steps: Steps, workflow: string)
    requires rec.name in steps && WithoutCompensation(steps)
    ensures var u := RollbackStep(r, rec, steps, workflow);
            && u == r.(steps := u.steps) && u.steps.Keys == r.steps.Keys
            && forall id | id in r.steps && id != rec.id :: u.steps[id] == r.steps[id]
  {
    assert Judge(rec, steps).Undone?;
    hide Judge, WithoutCompensation;
    assert RollbackStep(r, rec, steps, workflow) == UpdateStep(r, rec.id, RolledBack);
    hide RollbackStep;
  }

  /** The rollback spares skipped steps and those of other instances. */
  lemma Spares(s: State, i: int, rec: StepRec, def: Definition, stop: string, id: int)
    requires WithoutCompensation(def.steps) && (forall x | x in s.steps :: s.steps[x].id == x) && rec.id in s.steps
    requires id in s.steps && id != rec.id && (s.steps[id].status == Skipped || id !in IdsOf(s, i))
    ensures var r := RollBack(s, SnapshotOf(s, i, rec), def, rec.name, stop).0;
            r == s.(steps := r.steps) && r.steps.Keys == s.steps.Keys && r.steps[id] == s.steps[id]
  {
    var recs := SnapshotOf(s, i, rec);
    var e := Env(def.steps, stop, recs);
    var w := WalkChain(e, rec.name, false, Walk({}, [], true));
    WalkChainSound(e, rec.name, false, Walk({}, [], true));
    hide WalkChain, RollbackAll;
    PlainRollback(s, e, w.log, def.id);
    forall x | x in w.log
      ensures recs[x].id != id
    {
      assert Eligible(e, x);
      SnapshotMember(s, i, rec, x);
    }
  }

  lemma SnapshotMember(s: State, i: int, rec: StepRec, x: string)
    requires x in SnapshotOf(s, i, rec)
    ensures SnapshotOf(s, i, rec)[x] == rec || exists id ::
              id in IdsOf(s, i) && id in s.steps && s.steps[id] == SnapshotOf(s, i, rec)[x]
  {
  }

  lemma {:induction false} ForkOfBranch(n: Cast, order: seq<string>)
    requires Fine(n) && n.f in order
    ensures ForkOf(ForkFlow(n).steps, order, n.y) == n.f
  {
    hide ValidName;
    if order[0] != n.f {
      ForkOfBranch(n, order[1..]);
    }
  }

  /** The store in which branch y has just failed. */
  predicate BranchFailed(n: Cast, m: State) {
    && IdsOf(m, 2) == [2, 3, 4] && m.steps.Keys == {1, 2, 3, 4} && m.instances == S4(n).instances && m.cancels == map[]
    && m.steps[1] == LateRec(n, Failed, 1) && m.steps[2] == StepRec(2, 2, n.f, Fork, Completed, 0, 0, 0)
    && m.steps[3] == StepRec(3, 2, n.x, Task, Pending, 0, 0, 0) && m.steps[4].name == n.y && m.steps[4].id == 4
  }

  lemma SkippedBranch(n: Cast, m: State, order: seq<string>)
    requires Fine(n) && BranchFailed(n, m) && Enumerates(order, ForkFlow(n).steps)
    ensures Siblings(m, 2, n.y, ForkFlow(n).steps, order) == {3}
  {
    var steps := ForkFlow(n).steps;
    assert n.f in Elements(order);
    ForkOfBranch(n, order);
    assert n.f != "";
    assert InBranch(steps, steps[n.f], n.x);
    hide ForkOf, InBranch, ValidName;
  }

  lemma FailFinallyIs(n: Cast, s: State, rec: StepRec, o: Choice)
    requires Fine(n) && rec.retryCount == 0
    ensures var def := ForkFlow(n);
            var m := UpdateStep(s, rec.id, Failed);
            var u := SkipAll(m, Siblings(m, 2, rec.name, def.steps, o.order));
            HandleFailure(s, 2, rec, TaskOf(n.f, 0, 0.0), def, o) ==
            SetInstance(RollBack(u, SnapshotOf(u, 2, rec), def, rec.name, o.stop).0, 2, WfFailed)
  {
    assert WithoutJoins(ForkFlow(n).steps);
    MarkAlone(s, 2, rec, TaskOf(n.f, 0, 0.0), ForkFlow(n).steps, o, Failed, true, false);
    hide RollBack, SetInstance, SnapshotOf, SkipAll, Siblings, Mark, UpdateStep, ValidName;
  }

  /** The store in which the delayed branch is skipped while its item is still queued. */
  predicate Leftover(n: Cast, r: State, clock: real) {
    && IdsOf(r, 1) == [1] && IdsOf(r, 2) == [2, 3, 4] && 1 in r.steps && 3 in r.steps
    && r.definitions == S4(n).definitions && r.cancels == map[] && r.clock == clock
    && r.instances == S4(n).instances[2 := Instance(n.forked, WfFailed)]
    && r.steps[1] == LateRec(n, Failed, 1) && r.steps[3].status == Skipped
    && r.queue == map[3 := Item(1, 1, 2.0, 100), 4 := Item(2, 3, 1.5, 50)]
  }

  lemma BranchSkipped(n: Cast, m: State, order: seq<string>)
    requires Fine(n) && BranchFailed(n, m) && Enumerates(order, ForkFlow(n).steps)
    ensures var u := SkipAll(m, Siblings(m, 2, n.y, ForkFlow(n).steps, order));
            && u == m.(steps := u.steps) && u.steps.Keys == {1, 2, 3, 4}
            && (forall x | x in u.steps :: u.steps[x].id == x)
            && u.steps[1] == LateRec(n, Failed, 1) && u.steps[3].status == Skipped && IdsOf(u, 2) == [2, 3, 4]
  {
    hide ForkFlow, ValidName, Siblings, Enumerates;
    SkippedBranch(n, m, order);
  }

  lemma NoCompensations(n: Cast)
    requires Fine(n)
    ensures WithoutCompensation(ForkFlow(n).steps)
  {
  }

  lemma RollsBack(n: Cast, m: State, order: seq<string>, rec: StepRec, stop: string)
    requires Fine(n) && BranchFailed(n, m) && Enumerates(order, ForkFlow(n).steps) && rec.name == n.y && rec.id == 4
    ensures var def := ForkFlow(n);
            var u := SkipAll(m, Siblings(m, 2, n.y, def.steps, order));
            var r := SetInstance(RollBack(u, SnapshotOf(u, 2, rec), def, n.y, stop).0, 2, WfFailed);
            && r == m.(steps := r.steps, instances := m.instances[2 := Instance(n.forked, WfFailed)]) && 1 in r.steps
            && 3 in r.steps
            && r.steps[1] == LateRec(n, Failed, 1) && r.steps[3].status == Skipped
  {
    hide RollBack, SnapshotOf, ForkFlow, ValidName, Siblings, SkipAll, WithoutCompensation, Enumerates, IdsOf;
    BranchSkipped(n, m, order);
    NoCompensations(n);
    var u := SkipAll(m, Siblings(m, 2, n.y, ForkFlow(n).steps, order));
    Spares(u, 2, rec, ForkFlow(n), stop, 3);
    Spares(u, 2, rec, ForkFlow(n), stop, 1);
  }

  lemma Failing(n: Cast)
    requires Fine(n)
    ensures var s := S4(n);
            && 5 in s.queue && 4 in s.steps && s.queue[5] == Item(2, 4, 1.0, 50) && IdsOf(s, 2) == [2, 3, 4]
            && IdsOf(s, 1) == [1]
            && !IsDlq(s, 2) && s.steps[4] == StepRec(4, 2, n.y, Task, Pending, 0, 0, 0) && s.cancels == map[]
            && s.clock == 1.0
            && Defined(s, 2, n.y) && DefinitionOf(s, 2) == ForkFlow(n) && ForkFlow(n).steps[n.y] == TaskOf(n.f, 0, 0.0)
            && 2 in s.instances
  {
    hide ValidName;
  }

  /** What the failing branch leaves of the queue. */
  lemma FailingItems(n: Cast)
    ensures 5 in S4(n).queue && Claim(S4(n).queue, 5) - {5} == map[3 := Item(1, 1, 2.0, 100), 4 := Item(2, 3, 1.5, 50)]
  {
  }

  lemma NowFailed(n: Cast)
    ensures 5 in S4(n).queue
    ensures BranchFailed(n, UpdateStep(UpdateStep(S4(n).(queue := Claim(S4(n).queue, 5)), 4, Running), 4, Failed))
  {
  }

  lemma UpdateIs(s: State, id: int, status: StepStatus)
    ensures UpdateStep(s, id, status) == s.(steps := UpdateStep(s, id, status).steps)
  {
  }

  lemma BranchFails(n: Cast, o: Choice)
    requires Fine(n) && NoHumans(S4(n)) && o.handlers == {"h"} && !o.success && Enumerates(o.order, ForkFlow(n).steps)
    ensures 5 in S4(n).queue && Leftover(n, Execute(S4(n), 5, o), 1.0)
  {
    hide S4, ForkFlow, IsDlq, NoHumans, Execute, Dispatch, HandleFailure, UpdateStep, ValidName, Enumerates,
         BranchFailed, RollBack, SnapshotOf, Siblings, SkipAll, SetInstance;
    Failing(n);
    FailingItems(n);
    NowFailed(n);
    var s := S4(n);
    var c := s.(queue := Claim(s.queue, 5));
    var rec := s.steps[4];
    ExecuteIsDispatch(s, 5, o);
    TaskFails(c, 5, 2, rec, o);
    var u := UpdateStep(c, 4, Running);
    var m := UpdateStep(u, 4, Failed);
    UpdateIs(c, 4, Running);
    UpdateIs(u, 4, Failed);
    FailFinallyIs(n, u, rec, o);
    RollsBack(n, m, o.order, rec, o.stop);
  }

  // ------------------------------------------------------------------ the run

  lemma Overdue(s: State, q: int, aging: Aging)
    requires q in s.queue && Due(s.queue[q], s.clock) && s.queue[q].priority >= 0
    requires forall p | p in s.queue && Due(s.queue[p], s.clock) ::
               s.queue[p].priority == s.queue[q].priority && s.queue[p].scheduledAt == s.queue[q].scheduledAt
    ensures Picked(s.queue, aging, s.clock, q)
  {
    EffectiveNotNegative(s.queue[q], aging, s.clock);
    hide Effective;
    forall p | p in s.queue && Due(s.queue[p], s.clock)
      ensures Effective(s.queue[p], aging, s.clock) == Effective(s.queue[q], aging, s.clock)
    {
      SameEffective(s.queue[p], s.queue[q], aging, s.clock);
    }
  }

  lemma SameEffective(x: QueueItem, y: QueueItem, aging: Aging, now: real)
    requires x.priority == y.priority && x.scheduledAt == y.scheduledAt
    ensures Effective(x, aging, now) == Effective(y, aging, now)
  {
    assert Bonus(x, aging, now) == Times(now - x.scheduledAt, aging.rate);
    assert Bonus(y, aging, now) == Times(now - y.scheduledAt, aging.rate);
    hide Bonus, Times;
  }

  function Times(x: real, y: real): real {
    x * y
  }

  /** Every store of the run is well formed, being reached from the first one. */
  lemma Moves(s: State, op: Op, r: State, aging: Aging, from: State)
    requires F.WellFormed(s) && Leads(from, s, aging) && Next(s, op, aging, r)
    ensures F.WellFormed(r) && Leads(from, r, aging) && NoHumans(r)
  {
    NextWell(s, op, aging, r);
    LeadsOn(from, s, op, r, aging);
    hide Next, Leads;
  }

  /** An execution permitted by the choice made for it. */
  lemma MoveOf(s: State, q: int, o: Choice, aging: Aging)
    requires NoHumans(s) && Picked(s.queue, aging, s.clock, q)
    requires var i, step := s.queue[q].instance, s.queue[q].step;
             i in s.instances && s.instances[i].workflow in s.definitions && step.Some? && step.value in s.steps ==>
               Enumerates(o.order, DefinitionOf(s, i).steps)
                 && StopsRight(DefinitionOf(s, i), s.steps[step.value].name, o.stop)
    ensures Next(s, NextOp(q, o), aging, Execute(s, q, o))
  {
    hide Picked, NoHumans, Enumerates, StopsRight, Execute;
  }

  lemma Catalogue(n: Cast, clock: real)
    requires Fine(n)
    ensures n.late in S0(n).definitions && S0(n).definitions[n.late] == LateFlow(n)
    ensures n.forked in S1(n, clock).definitions && S1(n, clock).definitions[n.forked] == ForkFlow(n)
    ensures S1(n, clock) == S1(n, 0.0).(clock := clock) && S1(n, 0.0).clock == 0.0
  {
    hide LateFlow, ForkFlow, ValidName;
  }

  lemma FirstWell(n: Cast)
    requires Fine(n)
    ensures F.WellFormed(S0(n))
  {
    assert NoHumans(S0(n)) by {
      hide ValidName;
    }
    hide NoHumans, LateFlow, ForkFlow;
    NewStoreWell(S0(n).definitions, 0.0);
  }

  lemma ToS2(n: Cast, aging: Aging)
    requires Fine(n)
    ensures F.WellFormed(S2(n)) && NoHumans(S2(n)) && Leads(S0(n), S2(n), aging)
  {
    hide Acceptable, LinearFlow, Start, ValidName, F.WellFormed, NoHumans, Leads, LateFlow, ForkFlow, S0, S1, S2;
    Catalogue(n, 1.0);
    LateAcceptable(n);
    ForkAcceptable(n);
    FirstStart(n);
    SecondStart(n);
    FirstWell(n);
    LeadsNowhere(S0(n), aging);
    Starts(S0(n), n.late, aging);
    Starts(S1(n, 1.0), n.forked, aging);
    assert Next(S1(n, 0.0), Op.TickOp(1.0), aging, S1(n, 1.0));
    hide Next, Fine;
    Moves(S0(n), StartOp(n.late, true), S1(n, 0.0), aging, S0(n));
    Moves(S1(n, 0.0), Op.TickOp(1.0), S1(n, 1.0), aging, S0(n));
    Moves(S1(n, 1.0), StartOp(n.forked, true), S2(n), aging, S0(n));
  }

  lemma ToS3(n: Cast, aging: Aging)
    requires Fine(n)
    ensures F.WellFormed(S3(n)) && NoHumans(S3(n)) && Leads(S0(n), S3(n), aging)
  {
    hide ValidName, F.WellFormed, NoHumans, Leads, LateFlow, ForkFlow, S0, S2, S3, Execute, Enumerates, StopsRight,
         Picked;
    ToS2(n, aging);
    LateDefined(n);
    var o := ChoiceFor(LateFlow(n), n.l, false);
    LateFails(n, o);
    PickedS2(n, aging);
    MoveOf(S2(n), 1, o, aging);
    hide Next;
    Moves(S2(n), NextOp(1, o), S3(n), aging, S0(n));
  }

  lemma PickedS2(n: Cast, aging: Aging)
    ensures Picked(S2(n).queue, aging, S2(n).clock, 1)
  {
    hide Picked, LateFlow, ForkFlow;
    Overdue(S2(n), 1, aging);
  }

  lemma ToS4(n: Cast, aging: Aging)
    requires Fine(n)
    ensures F.WellFormed(S4(n)) && NoHumans(S4(n)) && Leads(S0(n), S4(n), aging)
  {
    hide ValidName, F.WellFormed, NoHumans, Leads, LateFlow, ForkFlow, S0, S3, S4, Execute, Enumerates, StopsRight,
         Picked;
    ToS3(n, aging);
    ForkDefined(n);
    var o := ChoiceFor(ForkFlow(n), n.f, true);
    ForkDone(n, o);
    PickedS3(n, aging);
    MoveOf(S3(n), 2, o, aging);
    hide Next;
    Moves(S3(n), NextOp(2, o), S4(n), aging, S0(n));
  }

  lemma PickedS3(n: Cast, aging: Aging)
    ensures Picked(S3(n).queue, aging, S3(n).clock, 2)
  {
    hide Picked, LateFlow, ForkFlow;
    Overdue(S3(n), 2, aging);
  }

  lemma PickedS4(n: Cast, aging: Aging)
    ensures Picked(S4(n).queue, aging, S4(n).clock, 5)
  {
    hide Picked, LateFlow, ForkFlow;
    Overdue(S4(n), 5, aging);
  }

  /** The store with the leftover item, and the time at which it is due. */
  lemma ToLeftover(n: Cast, aging: Aging) returns (b: State)
    requires Fine(n)
    ensures F.WellFormed(b) && NoHumans(b) && Leads(S0(n), b, aging) && Leftover(n, b, 1.5)
  {
    hide ValidName, F.WellFormed, NoHumans, Leads, LateFlow, ForkFlow, S0, S4, Execute, Enumerates, StopsRight, Picked;
    ToS4(n, aging);
    Failing(n);
    var o := ChoiceFor(ForkFlow(n), n.y, false);
    BranchFails(n, o);
    PickedS4(n, aging);
    MoveOf(S4(n), 5, o, aging);
    var r := Execute(S4(n), 5, o);
    b := r.(clock := 1.5);
    assert Next(r, Op.TickOp(0.5), aging, b);
    hide Next;
    Moves(S4(n), NextOp(5, o), r, aging, S0(n));
    Moves(r, Op.TickOp(0.5), b, aging, S0(n));
  }

  lemma PickedLeftover(n: Cast, b: State, aging: Aging)
    requires Leftover(n, b, 1.5)
    ensures Picked(b.queue, aging, b.clock, 4)
  {
    hide Picked;
    Overdue(b, 4, aging);
  }

  lemma LeftoverSaga(n: Cast, b: State)
    requires Fine(n) && Leftover(n, b, 1.5)
    ensures Saga(b, 1, LateFlow(n), [n.l]) && ItemsOf(b, 1) == {3} && b.instances[1].status == WfRunning
  {
    hide LinearFlow, LateFlow, ForkFlow, ValidName, Acceptable, Saga;
    LateAcceptable(n);
    LateLink(n);
    LeftoverItems(n, b);
    SagaIs(b, 1, LateFlow(n), [n.l]);
  }

  lemma LateLink(n: Cast)
    ensures n.l in LateFlow(n).steps
  {
  }

  lemma LeftoverItems(n: Cast, b: State)
    requires Fine(n) && Leftover(n, b, 1.5) && LinearFlow(LateFlow(n), [n.l]) && n.l in LateFlow(n).steps
    ensures ItemsOf(b, 1) == {3} && b.instances[1].status == WfRunning && Runs(b, 1, LateFlow(n)) && 1 !in b.cancels
    ensures Prefix(b, IdsOf(b, 1), [n.l]) && (forall k | 0 <= k < |[n.l]| :: [n.l][k] in LateFlow(n).steps)
    ensures Phase(b, IdsOf(b, 1), WfRunning, LateFlow(n).steps, [n.l])
  {
    hide LinearFlow, LateFlow, ForkFlow, ValidName;
    assert ItemsFor(b, 1) == {3};
    assert Active(b, [1][0]);
  }

  lemma EmptyQueueNoSaga(r: State, i: int, def: Definition, chain: seq<string>)
    requires r.queue == map[] && i in r.instances && r.instances[i].status == WfRunning
    ensures !Saga(r, i, def, chain) && ItemsOf(r, i) == {}
  {
    forall id
      ensures !Active(r, id)
    {
      assert ItemsFor(r, id) == {};
    }
    hide LinearFlow, Active, Protected;
  }

  lemma RobberyIs(n: Cast, b: State, o: Choice)
    requires F.WellFormed(b) && NoHumans(b) && Leftover(n, b, 1.5)
    ensures Robs(b, NextOp(4, o), 1) && Execute(b, 4, o) == b.(queue := map[])
  {
    hide F.WellFormed, NoHumans, Execute, LateFlow, ForkFlow;
    ExecuteEffect(b, 4, o);
    assert b.queue - {3} - {4} == map[];
  }

  /** A run from a store without instances in which executing an item of one instance deletes
      the only item of another: that one was a running saga with one item and is now running
      with nothing queued. */
  lemma ForeignItemLost(n: Cast, aging: Aging) returns (b: State, o: Choice)
    requires Fine(n)
    ensures F.WellFormed(b) && NoHumans(b) && Leads(NewStore(map[n.late := LateFlow(n), n.forked := ForkFlow(n)], 0.0),
                                                    b, aging)
    ensures 4 in b.queue && b.queue[4].instance == 2 && Next(b, NextOp(4, o), aging, Execute(b, 4, o))
            && Robs(b, NextOp(4, o), 1)
    ensures Saga(b, 1, LateFlow(n), [n.l]) && b.instances[1].status == WfRunning && ItemsOf(b, 1) == {3}
    ensures var r := Execute(b, 4, o);
            1 in r.instances && r.instances[1].status == WfRunning && ItemsOf(r, 1) == {}
              && !Saga(r, 1, LateFlow(n), [n.l])
  {
    b := ToLeftover(n, aging);
    var def := ForkFlow(n);
    assert DefinitionOf(b, 2) == def by {
      hide ForkFlow, LateFlow;
    }
    hide F.WellFormed, NoHumans, Leads, Execute, Enumerates, StopsRight, Picked, Saga, Robs, ValidName, LateFlow,
         ForkFlow;
    o := ChoiceFor(def, b.steps[3].name, true);
    PickedLeftover(n, b, aging);
    MoveOf(b, 4, o, aging);
    LeftoverSaga(n, b);
    RobberyIs(n, b, o);
    EmptyQueueNoSaga(b.(queue := map[]), 1, LateFlow(n), [n.l]);
  }

  // ------------------------------------------------------------------ for ever

  /** Whatever happens, an instance with nothing queued stays as it is. */
  lemma StuckStep(s: State, op: Op, aging: Aging, r: State, i: int)
    requires F.WellFormed(s) && Next(s, op, aging, r) && i in s.instances && NoItems(s, i)
    ensures i in r.instances && r.instances[i] == s.instances[i] && NoItems(r, i)
  {
    hide F.WellFormed, F.Local, Effect, F.Tame, Start, Execute, Stale, Permitted, NoHumans;
    match op
    case StartOp(w, accepted) =>
      if w in s.definitions && accepted {
        StartTame(s, w, accepted);
        F.TameWell(WithInstance(s, w), r, s.nextInstance, s.definitions[w].steps);
        LocalIce(WithInstance(s, w), r, s.nextInstance, i);
      } else {
        NotStarted(s, w, accepted);
      }
    case NextOp(q, o) =>
      ExecuteEffect(s, q, o);
      if !Stale(s, q) {
        EffectWell(s, r, s.queue[q].instance, s.queue[q].step.value, DefinitionOf(s, s.queue[q].instance).steps);
        LocalIce(s, r, s.queue[q].instance, i);
      }
    case _ =>
  }

  /** The robbed instance is never executed again. */
  lemma {:induction false} StuckForever(states: seq<State>, ops: seq<Op>, aging: Aging, i: int, k: nat)
    requires Run(states, ops, aging) && F.WellFormed(states[0]) && i in states[0].instances && NoItems(states[0], i)
             && k < |states|
    ensures F.WellFormed(states[k]) && i in states[k].instances && states[k].instances[i] == states[0].instances[i]
    ensures NoItems(states[k], i)
  {
    hide F.WellFormed, Next, NoItems;
    if k > 0 {
      StuckForever(states, ops, aging, i, k - 1);
      assert Next(states[k - 1], ops[k - 1], aging, states[k]);
      NextWell(states[k - 1], ops[k - 1], aging, states[k]);
      StuckStep(states[k - 1], ops[k - 1], aging, states[k], i);
    }
  }

  /** Such names exist. */
  lemma SomeCast()
    ensures Fine(Cast("late", "l", "forked", "f", "x", "y"))
  {
  }
}
