/** Over every run: a join step exists only because its join was ready, and once per name. */
module EngineJoinRuns {
  import opened Definitions
  import opened Store
  import opened Queue
  import opened Builder
  import opened BuilderNames
  import opened JoinStores
  import opened Rollback
  import opened RollbackEngine
  import opened Engine
  import opened EngineFrames
  import opened EngineTame
  import opened EngineSteps
  import opened EngineRuns
  import opened EngineJoins

  // ------------------------------------------------------------------ what creates no join step

  /** The same steps, apart from their records, and the same joins. */
  predicate SameRoster(s: State, r: State) {
    r.steps.Keys == s.steps.Keys && r.joins == s.joins
  }

  lemma SmallRoster(s: State, i: int, id: int, status: StepStatus, ended: WorkflowStatus)
    ensures SameRoster(s, UpdateStep(s, id, status)) && SameRoster(s, SetInstance(s, i, ended))
  {
  }

  lemma AgainRoster(s: State, i: int, id: int, count: int, delay: real)
    ensures SameRoster(s, Enqueue(UpdateStepCompensationRetry(s, id, count, Compensation), i, id, PRIORITY_HIGH, delay))
  {
  }

  lemma LetterRoster(s: State, rec: StepRec, workflow: string)
    ensures SameRoster(s, CreateDeadLetter(s, rec, workflow))
  {
  }

  lemma StepRoster(s: State, rec: StepRec, steps: Steps, workflow: string)
    requires rec.name in steps
    ensures SameRoster(s, RollbackStep(s, rec, steps, workflow))
  {
    hide Judge, UpdateStep, UpdateStepCompensationRetry, Enqueue, CreateDeadLetter, SetInstance;
    SmallRoster(s, rec.instance, rec.id, RolledBack, WfFailed);
    SmallRoster(s, rec.instance, rec.id, Failed, WfFailed);
    LetterRoster(UpdateStep(s, rec.id, Failed), rec, workflow);
    if Judge(rec, steps).Queued? {
      AgainRoster(s, rec.instance, rec.id, rec.compRetries + 1, Judge(rec, steps).delay);
    }
  }

  lemma {:induction false} RollbackAllRoster(s: State, e: Env, log: seq<string>, workflow: string)
    requires Loggable(e, log)
    ensures SameRoster(s, RollbackAll(s, e, log, workflow))
  {
    hide RollbackStep;
    if log != [] {
      var last := |log| - 1;
      RollbackAllRoster(s, e, log[..last], workflow);
      StepRoster(RollbackAll(s, e, log[..last], workflow), e.recs[log[last]], e.steps, workflow);
    }
  }

  lemma RollBackRoster(s: State, recs: map<string, StepRec>, def: Definition, from: string, stop: string)
    requires forall x | x in recs :: recs[x].name == x
    ensures SameRoster(s, RollBack(s, recs, def, from, stop).0)
  {
    var e := Env(def.steps, stop, recs);
    WalkChainSound(e, from, false, Walk({}, [], true));
    var w := WalkChain(e, from, false, Walk({}, [], true));
    hide WalkChain, RollbackAll;
    RollbackAllRoster(s, e, w.log, def.id);
  }

  lemma {:induction false} UndoRoster(s: State, recs: seq<StepRec>, steps: Steps, sp: Option<int>)
    ensures SameRoster(s, UndoPlain(s, recs, steps, sp))
    decreases |recs|
  {
    if recs != [] {
      var rec := recs[0];
      var r := if AfterSavePoint(rec, sp) && !Compensable(rec, steps) then UpdateStep(s, rec.id, RolledBack) else s;
      UndoRoster(r, recs[1..], steps, sp);
    }
  }

  lemma {:induction false} QueueRoster(s: State, i: int, recs: seq<StepRec>, index: nat)
    ensures SameRoster(s, QueueAll(s, i, recs, index))
    decreases |recs|
  {
    if recs != [] {
      var m := UpdateStepCompensationRetry(s, recs[0].id, 0, Compensation);
      QueueRoster(Enqueue(m, i, recs[0].id, PRIORITY_HIGH, 0.01 * index as real), i, recs[1..], index + 1);
    }
  }

  lemma CompleteRoster(s: State, i: int, steps: Steps)
    ensures SameRoster(s, CompleteWorkflow(s, i, steps))
  {
    var recs := StepsOf(s, i);
    var sp := LastSavePoint(recs);
    hide UndoPlain, QueueAll, LastSavePoint, ToCompensate, SomeStep, StepsOf;
    UndoRoster(s, recs, steps, sp);
    QueueRoster(UndoPlain(s, recs, steps, sp), i, ToCompensate(recs, steps, sp), 0);
  }

  lemma CancellationRoster(s: State, i: int, def: Definition, kind: CancelType)
    ensures SameRoster(s, HandleCancellation(s, i, def, kind))
  {
    var u := SkipAll(s, ActiveIds(s, i));
    assert SameRoster(s, u);
    hide SkipAll, ActiveIds, RollBack, LastCompleted, StepsOf;
    if kind == CancelRun {
      var m := SetInstance(u, i, WfCancelling);
      var recs := StepsOf(m, i);
      if LastCompleted(recs).Some? {
        RollBackRoster(m, ByName(recs), def, LastCompleted(recs).value, ROOT_STEP);
      }
    }
  }

  lemma CompensationRoster(s: State, i: int, rec: StepRec, d: StepDef, steps: Steps, o: Choice)
    ensures SameRoster(s, ExecuteCompensation(s, i, rec, d, steps, o))
  {
    hide SomeStep, HasUnfinished, CompensationDelay, UpdateStep, SetInstance, Enqueue, UpdateStepCompensationRetry;
    SmallRoster(s, i, rec.id, RolledBack, WfFailed);
    SmallRoster(s, i, rec.id, Failed, WfFailed);
    SmallRoster(UpdateStep(s, rec.id, RolledBack), i, rec.id, RolledBack, WfFailed);
    if d.onFailure in steps {
      AgainRoster(s, rec.instance, rec.id, rec.compRetries + 1,
                  CompensationDelay(steps[d.onFailure], rec.compRetries + 1));
    }
  }

  /** No new step is a join step. */
  predicate NoNewJoins(s: State, r: State) {
    forall x | x in r.steps && x !in s.steps :: r.steps[x].kind != Join
  }

  lemma SpawnShape(s: State, i: int, name: string, d: StepDef)
    requires d.kind != Join
    ensures NoNewJoins(s, Spawn(s, i, name, d)) && Spawn(s, i, name, d).joins == s.joins
    ensures s.steps.Keys <= Spawn(s, i, name, d).steps.Keys
    ensures forall x | x in s.steps && x != s.nextStep :: Spawn(s, i, name, d).steps[x] == s.steps[x]
  {
  }

  /** Successors that are joins are skipped, or are none. */
  lemma {:induction false} EnqueueNextKinds(s: State, i: int, def: Definition, names: seq<string>, skipJoins: bool)
    requires WellFormed(s) && Runs(s, i, def)
    requires skipJoins || forall n | n in names && n in def.steps :: def.steps[n].kind != Join
    ensures var r := EnqueueNext(s, i, def.steps, names, skipJoins);
            NoNewJoins(s, r) && r.joins == s.joins
    decreases |names|
  {
    hide WellFormed, Spawn, Tame, Runs, NoNewJoins, IsDlq;
    if names == [] || names[0] !in def.steps {
      NothingNew(s);
    } else {
      var d := def.steps[names[0]];
      assert names[0] in names && forall n | n in names[1..] :: n in names;
      if (skipJoins && d.kind == Join) || IsDlq(s, i) {
        EnqueueNextKinds(s, i, def, names[1..], skipJoins);
      } else {
        var m := Spawn(s, i, names[0], d);
        SpawnTame(s, i, names[0], def);
        TameWell(s, m, i, def.steps);
        hide Local;
        SpawnShape(s, i, names[0], d);
        RunsOn(s, m, i, def);
        EnqueueNextKinds(m, i, def, names[1..], skipJoins);
        EnqueueNextTame(m, i, def, names[1..], skipJoins);
        NewThenTame(s, m, EnqueueNext(m, i, def.steps, names[1..], skipJoins), i, def.steps);
      }
    }
  }

  lemma NothingNew(s: State)
    ensures NoNewJoins(s, s)
  {
  }

  lemma NewThenTame(s: State, m: State, r: State, i: int, steps: Steps)
    requires NoNewJoins(s, m) && NoNewJoins(m, r) && Tame(m, r, i, steps)
    ensures NoNewJoins(s, r)
  {
    hide Tame;
    SameKinds(m, r, i, steps);
  }

  lemma SameKinds(s: State, r: State, i: int, steps: Steps)
    requires Tame(s, r, i, steps)
    ensures forall x | x in s.steps :: x in r.steps && SameStep(s.steps[x], r.steps[x])
  {
    assert LocalSteps(s, r, i);
  }

  lemma {:induction false} StartBranchesKinds(s: State, i: int, def: Definition, names: seq<string>)
    requires WellFormed(s) && Runs(s, i, def)
    requires forall n | n in names && n in def.steps :: def.steps[n].kind != Join
    ensures NoNewJoins(s, StartBranches(s, i, def.steps, names).0)
    decreases |names|
  {
    hide WellFormed, Spawn, Tame, Runs, NoNewJoins;
    if names == [] || names[0] !in def.steps {
      NothingNew(s);
    } else {
      var d := def.steps[names[0]];
      var m := Spawn(s, i, names[0], d);
      assert names[0] in names && forall n | n in names[1..] :: n in names;
      SpawnTame(s, i, names[0], def);
      TameWell(s, m, i, def.steps);
      hide Local;
      SpawnShape(s, i, names[0], d);
      RunsOn(s, m, i, def);
      StartBranchesKinds(m, i, def, names[1..]);
      StartBranchesTame(m, i, def, names[1..]);
      NewThenTame(s, m, StartBranches(m, i, def.steps, names[1..]).0, i, def.steps);
    }
  }

  // ------------------------------------------------------------------ one transition

  predicate NoJoinElse(d: StepDef, steps: Steps) {
    d.els != "" && d.els in steps ==> steps[d.els].kind != Join
  }

  /** No join begins a workflow, a branch or an else side. */
  predicate NoJoinHeads(def: Definition) {
    && (def.start in def.steps ==> def.steps[def.start].kind != Join)
    && forall x | x in def.steps ::
         && NoJoinElse(def.steps[x], def.steps)
         && forall p | p in def.steps[x].parallel && p in def.steps :: def.steps[p].kind != Join
  }

  /** Every new join step is the first of its name, and its join is ready. */
  ghost predicate JoinsAsked(s: State, r: State, i: int) {
    forall x | x in r.steps && x !in s.steps && r.steps[x].kind == Join :: FreshJoin(s, r, i, x)
  }

  lemma RosterAsked(s: State, r: State, i: int)
    requires SameRoster(s, r)
    ensures JoinsAsked(s, r, i)
  {
  }

  /** Preparation without join steps, then fresh join steps, then successors without them. */
  lemma AskedChain(s: State, a: State, b: State, r: State, i: int, def: Definition, names: seq<string>)
    requires WellFormed(s) && WellFormed(a) && WellFormed(r) && Runs(r, i, def)
    requires Local(s, a, i) && Local(b, r, i)
    requires NoNewJoins(s, a) && OnlyFreshJoins(a, b, i, names) && NoNewJoins(b, r) && r.joins == b.joins
    ensures JoinsAsked(s, r, i)
  {
    assert LocalSteps(s, a, i) && LocalSteps(b, r, i);
    hide Local, WellFormed, Named, Runs, FreshJoin, LocalSteps;
    forall x | x in r.steps && x !in s.steps && r.steps[x].kind == Join
      ensures FreshJoin(s, r, i, x)
    {
      AskedOne(s, a, b, r, i, def, names, x);
    }
  }

  lemma AskedOne(s: State, a: State, b: State, r: State, i: int, def: Definition, names: seq<string>, x: int)
    requires WellFormed(s) && WellFormed(a) && WellFormed(r) && Runs(r, i, def)
    requires LocalSteps(s, a, i) && LocalSteps(b, r, i)
    requires NoNewJoins(s, a) && OnlyFreshJoins(a, b, i, names) && NoNewJoins(b, r) && r.joins == b.joins
    requires x in r.steps && x !in s.steps && r.steps[x].kind == Join
    ensures FreshJoin(s, r, i, x)
  {
    hide WellFormed, Named, Runs;
    assert x in b.steps && x !in a.steps;
    assert FreshJoin(a, b, i, x);
    OldUnnamed(s, a, i, r.steps[x].name);
    forall y | y in r.steps && y != x && r.steps[y].instance == i
      ensures r.steps[y].name != r.steps[x].name
    {
      MadeAlike(r, i, def, x, y);
    }
  }

  lemma OldUnnamed(s: State, a: State, i: int, n: string)
    requires WellFormed(s) && WellFormed(a) && LocalSteps(s, a, i) && !Named(a, i, n)
    ensures !Named(s, i, n)
  {
    hide WellFormed, Named;
    NamedIff(s, i, n);
    NamedIff(a, i, n);
  }

  /** Steps of one name have one kind. */
  lemma MadeAlike(r: State, i: int, def: Definition, x: int, y: int)
    requires WellFormed(r) && Runs(r, i, def) && x in r.steps && y in r.steps
    requires r.steps[x].instance == i && r.steps[y].instance == i
    ensures r.steps[x].name == r.steps[y].name ==> r.steps[x].kind == r.steps[y].kind
  {
    assert AllMade(r);
    assert Made(r.steps[x], def.steps) && Made(r.steps[y], def.steps);
    hide WellFormed;
  }

  /** From s, by moves without join steps to u, and by notifications to b. */
  ghost predicate Marked(s: State, u: State, b: State, i: int, def: Definition, names: seq<string>) {
    && WellFormed(u) && WellFormed(b) && Runs(b, i, def)
    && Local(s, u, i) && NoNewJoins(s, u) && OnlyFreshJoins(u, b, i, names)
  }

  lemma MarkMarked(s: State, a: State, i: int, rec: StepRec, d: StepDef, def: Definition, o: Choice,
                   status: StepStatus, settle: bool, success: bool)
    requires WellFormed(s) && WellFormed(a) && Runs(a, i, def) && InHand(a, i, rec) && status != Compensation
    requires Local(s, a, i) && NoNewJoins(s, a) && Distinct(o.order)
    ensures Marked(s, UpdateStep(a, rec.id, status), Mark(a, i, rec, d, def.steps, o, status, settle, success).0, i,
                   def,
                   [JoinAround(def.steps, o.order, rec.name)] + o.order)
  {
    var u := UpdateStep(a, rec.id, status);
    assert NoNewJoins(s, u);
    UpdateTame(a, rec.id, status, i, def.steps);
    hide WellFormed, Tame, Local, Mark, UpdateStep, NoNewJoins, InHand, Runs, OnlyFreshJoins, JoinAround;
    MarkCreates(a, i, rec, d, def, o, status, settle, success);
    MarkTame(a, i, rec, d, def, o, status, settle, success);
    TameWell(a, u, i, def.steps);
    TameWell(a, Mark(a, i, rec, d, def.steps, o, status, settle, success).0, i, def.steps);
    Chain(s, a, u, i);
  }

  lemma TailAsked(s: State, u: State, b: State, r: State, i: int, def: Definition, names: seq<string>)
    requires WellFormed(s) && Marked(s, u, b, i, def, names) && WellFormed(r) && Local(b, r, i) && NoNewJoins(b, r)
             && r.joins == b.joins
    ensures JoinsAsked(s, r, i)
  {
    hide WellFormed, Tame, Local, NoNewJoins, Runs, OnlyFreshJoins, JoinsAsked;
    RunsOn(b, r, i, def);
    AskedChain(s, u, b, r, i, def, names);
  }

  lemma RosterNoNew(s: State, r: State)
    ensures SameRoster(s, r) ==> NoNewJoins(s, r)
  {
  }

  /** The moves after a successful mark neither create join steps nor touch joins. */
  lemma SuccessTail(b: State, i: int, d: StepDef, def: Definition, next: bool)
    requires WellFormed(b) && Runs(b, i, def)
    requires NoJoinElse(d, def.steps)
    ensures var names := if next then d.next else [d.els];
            next || d.els != "" ==>
            && Tame(b, EnqueueNext(b, i, def.steps, names, next), i, def.steps)
            && NoNewJoins(b, EnqueueNext(b, i, def.steps, names, next))
            && EnqueueNext(b, i, def.steps, names, next).joins == b.joins
    ensures var c := CompleteWorkflow(b, i, def.steps);
            Tame(b, c, i, def.steps) && NoNewJoins(b, c) && c.joins == b.joins
    ensures Tame(b, b, i, def.steps) && NoNewJoins(b, b)
  {
    hide WellFormed, Tame, CompleteWorkflow, EnqueueNext, Runs;
    var names := if next then d.next else [d.els];
    CompleteRoster(b, i, def.steps);
    CompleteTame(b, i, def);
    if next || d.els != "" {
      EnqueueNextKinds(b, i, def, names, next);
    }
    EnqueueNextTame(b, i, def, names, next);
    TameRefl(b, i, def.steps);
    RosterNoNew(b, CompleteWorkflow(b, i, def.steps));
    RosterNoNew(b, b);
  }

  lemma SuccessAsked(s: State, a: State, i: int, rec: StepRec, d: StepDef, def: Definition, next: bool, o: Choice)
    requires WellFormed(s) && WellFormed(a) && Runs(a, i, def) && InHand(a, i, rec)
    requires NoJoinElse(d, def.steps)
    requires Local(s, a, i) && NoNewJoins(s, a) && Distinct(o.order)
    ensures JoinsAsked(s, HandleSuccess(a, i, rec, d, def, next, o), i)
  {
    hide WellFormed, Tame, Local, Mark, UpdateStep, CompleteWorkflow, EnqueueNext, HasUnfinished, NoNewJoins, InHand,
         Runs, JoinsAsked, JoinAround;
    MarkMarked(s, a, i, rec, d, def, o, Completed, true, true);
    var u, b := UpdateStep(a, rec.id, Completed), Mark(a, i, rec, d, def.steps, o, Completed, true, true).0;
    MarkedWell(s, u, b, i, def, [JoinAround(def.steps, o.order, rec.name)] + o.order);
    SuccessTail(b, i, d, def, next);
    hide Marked;
    TameWell(b, HandleSuccess(a, i, rec, d, def, next, o), i, def.steps);
    TailAsked(s, u, b, HandleSuccess(a, i, rec, d, def, next, o), i, def, [JoinAround(def.steps, o.order, rec.name)]
              + o.order);
  }

  lemma MarkedWell(s: State, u: State, b: State, i: int, def: Definition, names: seq<string>)
    requires Marked(s, u, b, i, def, names)
    ensures WellFormed(b) && Runs(b, i, def)
  {
    hide WellFormed;
  }

  lemma RosterTrans(s: State, m: State, r: State)
    requires SameRoster(s, m) && SameRoster(m, r)
    ensures SameRoster(s, r)
  {
  }

  lemma DlqTail(b: State, i: int, rec: StepRec, def: Definition)
    requires WellFormed(b)
    ensures var r := SetInstance(Freeze(CreateDeadLetter(b, rec, def.id), i), i, WfDLQ);
            WellFormed(r) && Local(b, r, i) && SameRoster(b, r)
  {
    var c := CreateDeadLetter(b, rec, def.id);
    var f := Freeze(c, i);
    assert SameRoster(b, f) && SameRoster(f, SetInstance(f, i, WfDLQ));
    hide WellFormed, Tame, Local, Freeze, CreateDeadLetter, SetInstance, SameRoster;
    DeadLetterTame(b, rec, def.id, i, def.steps);
    TameWell(b, c, i, def.steps);
    FreezeTame(c, i, def.steps);
    TameWell(c, f, i, def.steps);
    SetInstanceLocal(f, i, WfDLQ);
    Chain(b, c, f, i);
    Chain(b, f, SetInstance(f, i, WfDLQ), i);
    RosterTrans(b, f, SetInstance(f, i, WfDLQ));
  }

  lemma SkipTail(b: State, i: int, rec: StepRec, ids: set<int>)
    requires WellFormed(b) && rec.id in b.steps && SameStep(b.steps[rec.id], rec)
    requires forall id | id in ids && id in b.steps :: b.steps[id].instance == i && b.steps[id].status != Compensation
    ensures var c := SkipAll(b, ids);
            WellFormed(c) && Local(b, c, i) && SameRoster(b, c) && SameStep(c.steps[rec.id], rec)
  {
    hide WellFormed, Tame, Local;
    SkipTame(b, ids, i, map[]);
    TameWell(b, SkipAll(b, ids), i, map[]);
  }

  lemma RollTail(c: State, i: int, rec: StepRec, def: Definition, stop: string)
    requires WellFormed(c) && rec.id in c.steps && SameStep(c.steps[rec.id], rec) && rec.instance == i
    ensures var r := SetInstance(RollBack(c, SnapshotOf(c, i, rec), def, rec.name, stop).0, i, WfFailed);
            WellFormed(r) && Local(c, r, i) && SameRoster(c, r)
  {
    hide WellFormed, Tame, Local, RollBack, SetInstance, SameRoster;
    var v := RollBack(c, SnapshotOf(c, i, rec), def, rec.name, stop).0;
    RollBackRoster(c, SnapshotOf(c, i, rec), def, rec.name, stop);
    RollBackOwnTame(c, i, rec, def, stop);
    TameWell(c, v, i, def.steps);
    SetInstanceLocal(v, i, WfFailed);
    SmallRoster(v, i, rec.id, Failed, WfFailed);
    Chain(c, v, SetInstance(v, i, WfFailed), i);
    RosterTrans(c, v, SetInstance(v, i, WfFailed));
  }

  lemma FailTail(b: State, i: int, rec: StepRec, def: Definition, o: Choice)
    requires WellFormed(b) && rec.id in b.steps && SameStep(b.steps[rec.id], rec) && rec.instance == i
    ensures var c := SkipAll(b, Siblings(b, i, rec.name, def.steps, o.order));
            var r := SetInstance(RollBack(c, SnapshotOf(c, i, rec), def, rec.name, o.stop).0, i, WfFailed);
            WellFormed(r) && Local(b, r, i) && SameRoster(b, r)
  {
    hide WellFormed, Local, SkipAll, Siblings, RollBack, SetInstance, SameStep;
    var ids := Siblings(b, i, rec.name, def.steps, o.order);
    SiblingsOwn(b, i, rec.name, def.steps, o.order);
    SkipTail(b, i, rec, ids);
    var c := SkipAll(b, ids);
    RollTail(c, i, rec, def, o.stop);
    Chain(b, c, SetInstance(RollBack(c, SnapshotOf(c, i, rec), def, rec.name, o.stop).0, i, WfFailed), i);
  }

  lemma QuietAsked(s: State, a: State, r: State, i: int)
    requires NoNewJoins(s, a) && SameRoster(a, r) && forall x | x in a.steps :: r.steps[x].kind == a.steps[x].kind
    ensures JoinsAsked(s, r, i)
  {
  }

  lemma FailedShape(a: State, id: int)
    ensures SameRoster(a, UpdateStep(a, id, Failed))
    ensures forall x | x in a.steps :: UpdateStep(a, id, Failed).steps[x].kind == a.steps[x].kind
  {
  }

  lemma RetryAsked(s: State, a: State, i: int, rec: StepRec, d: StepDef)
    requires NoNewJoins(s, a)
    ensures JoinsAsked(s, Enqueue(UpdateStep(a, rec.id, Failed), i, rec.id, PRIORITY_HIGH, d.delay), i)
  {
    var u := UpdateStep(a, rec.id, Failed);
    FailedShape(a, rec.id);
    hide UpdateStep;
    QuietAsked(s, a, Enqueue(u, i, rec.id, PRIORITY_HIGH, d.delay), i);
  }

  lemma DlqAsked(s: State, a: State, i: int, rec: StepRec, d: StepDef, def: Definition, o: Choice)
    requires WellFormed(s) && WellFormed(a) && Runs(a, i, def) && InHand(a, i, rec)
    requires Local(s, a, i) && NoNewJoins(s, a) && Distinct(o.order)
    ensures JoinsAsked(s, ToDlq(a, i, rec, d, def, o), i)
  {
    hide WellFormed, Tame, Local, Mark, UpdateStep, NoNewJoins, InHand, Runs, JoinsAsked, JoinAround, Marked,
         SetInstance, Freeze;
    var names := [JoinAround(def.steps, o.order, rec.name)] + o.order;
    MarkMarked(s, a, i, rec, d, def, o, Paused, false, false);
    var u, b := UpdateStep(a, rec.id, Paused), Mark(a, i, rec, d, def.steps, o, Paused, false, false).0;
    MarkedWell(s, u, b, i, def, names);
    DlqTail(b, i, rec, def);
    RosterNoNew(b, SetInstance(Freeze(CreateDeadLetter(b, rec, def.id), i), i, WfDLQ));
    StaysPut(b, i);
    TailAsked(s, u, b, ToDlq(a, i, rec, d, def, o), i, def, names);
  }

  lemma StaysPut(b: State, i: int)
    requires WellFormed(b)
    ensures Local(b, b, i) && NoNewJoins(b, b)
  {
    TameRefl(b, i, map[]);
    TameWell(b, b, i, map[]);
  }

  lemma FailAsked(s: State, a: State, i: int, rec: StepRec, d: StepDef, def: Definition, o: Choice)
    requires WellFormed(s) && WellFormed(a) && Runs(a, i, def) && InHand(a, i, rec)
    requires Local(s, a, i) && NoNewJoins(s, a) && Distinct(o.order)
    ensures JoinsAsked(s, FailFinally(a, i, rec, d, def, o), i)
  {
    hide WellFormed, Tame, Local, Mark, UpdateStep, NoNewJoins, Runs, JoinsAsked, JoinAround, Marked, SetInstance,
         SkipAll, Siblings, RollBack;
    var names := [JoinAround(def.steps, o.order, rec.name)] + o.order;
    MarkMarked(s, a, i, rec, d, def, o, Failed, true, false);
    MarkTame(a, i, rec, d, def, o, Failed, true, false);
    var u, b := UpdateStep(a, rec.id, Failed), Mark(a, i, rec, d, def.steps, o, Failed, true, false).0;
    MarkedWell(s, u, b, i, def, names);
    TameSame(a, b, i, def.steps, rec.id);
    FailTail(b, i, rec, def, o);
    StaysPut(b, i);
    var r := FailFinally(a, i, rec, d, def, o);
    RosterNoNew(b, r);
    TailAsked(s, u, b, r, i, def, names);
  }

  lemma FailureAsked(s: State, a: State, i: int, rec: StepRec, d: StepDef, def: Definition, o: Choice)
    requires WellFormed(s) && WellFormed(a) && Runs(a, i, def) && InHand(a, i, rec)
    requires Local(s, a, i) && NoNewJoins(s, a) && Distinct(o.order)
    ensures JoinsAsked(s, HandleFailure(a, i, rec, d, def, o), i)
  {
    hide WellFormed, Local, ToDlq, FailFinally, Runs, InHand, JoinsAsked, Retries, UpdateStep, Enqueue;
    RetryAsked(s, a, i, rec, d);
    DlqAsked(s, a, i, rec, d, def, o);
    FailAsked(s, a, i, rec, d, def, o);
  }

  lemma ForkKinds(a: State, i: int, def: Definition, d: StepDef)
    requires WellFormed(a) && Runs(a, i, def)
    requires forall p | p in d.parallel && p in def.steps :: def.steps[p].kind != Join
    ensures NoNewJoins(a, RunFork(a, i, def.steps, d).0)
  {
    hide WellFormed, Tame, StartBranches, OpenJoins;
    var m := StartBranches(a, i, def.steps, d.parallel).0;
    StartBranchesKinds(a, i, def, d.parallel);
    StartBranchesTame(a, i, def, d.parallel);
    TameWell(a, m, i, def.steps);
    RunsOn(a, m, i, def);
    OpenJoinsTame(m, i, def, d, d.next);
  }

  lemma NoNewTrans(s: State, a: State, b: State, i: int)
    requires NoNewJoins(s, a) && NoNewJoins(a, b) && Local(a, b, i)
    ensures NoNewJoins(s, b)
  {
    assert LocalSteps(a, b, i);
  }

  lemma RunningNoNew(s: State, id: int)
    ensures NoNewJoins(s, UpdateStep(s, id, Running))
  {
  }

  lemma HandleAsked(s: State, a: State, i: int, rec: StepRec, d: StepDef, def: Definition, ok: bool, next: bool,
                    o: Choice)
    requires WellFormed(s) && WellFormed(a) && Runs(a, i, def) && InHand(a, i, rec)
    requires NoJoinElse(d, def.steps)
    requires Local(s, a, i) && NoNewJoins(s, a) && Distinct(o.order)
    ensures JoinsAsked(s, Handle(a, i, rec, d, def, ok, next, o), i)
  {
    hide WellFormed, Local, Runs, InHand, JoinsAsked, HandleSuccess, HandleFailure;
    SuccessAsked(s, a, i, rec, d, def, next, o);
    FailureAsked(s, a, i, rec, d, def, o);
  }

  lemma StepAsked(s: State, i: int, rec: StepRec, def: Definition, o: Choice)
    requires WellFormed(s) && Runs(s, i, def) && rec.id in s.steps && s.steps[rec.id] == rec && rec.instance == i
    requires rec.name in def.steps && def.steps[rec.name].kind != Human && NoJoinHeads(def) && Distinct(o.order)
    ensures JoinsAsked(s, ExecuteStep(s, i, rec, def.steps[rec.name], def, o), i)
  {
    hide WellFormed, Tame, Local, Runs, InHand, JoinsAsked, Handle, UpdateStep, RunFork, HandleCancellation,
         NoJoinHeads, NoNewJoins, ExecuteStep;
    var d := def.steps[rec.name];
    HeadsAt(def, rec.name);
    var ok, next := StepIs(s, i, rec, d, def, o);
    if i in s.cancels {
      CancellationRoster(s, i, def, s.cancels[i]);
      RosterAsked(s, HandleCancellation(s, i, def, s.cancels[i]), i);
    } else {
      var a := UpdateStep(s, rec.id, Running);
      RunningWell(s, i, rec, def);
      RunningNoNew(s, rec.id);
      var b := if IsFork(d) then RunFork(a, i, def.steps, d).0 else a;
      if IsFork(d) {
        ForkTame(a, i, def, d, rec);
        TameWell(a, b, i, def.steps);
        ForkKinds(a, i, def, d);
        NoNewTrans(s, a, b, i);
        Chain(s, a, b, i);
      }
      HandleAsked(s, b, i, rec, d, def, ok, next, o);
    }
  }

  lemma HeadsAt(def: Definition, x: string)
    requires NoJoinHeads(def) && x in def.steps
    ensures NoJoinElse(def.steps[x], def.steps)
    ensures forall p | p in def.steps[x].parallel && p in def.steps :: def.steps[p].kind != Join
  {
  }

  /** Executing a step means handling its outcome, after the branches of a fork were started. */
  lemma StepIs(s: State, i: int, rec: StepRec, d: StepDef, def: Definition, o: Choice) returns (ok: bool, next: bool)
    requires d.kind != Human
    ensures i in s.cancels ==> ExecuteStep(s, i, rec, d, def, o) == HandleCancellation(s, i, def, s.cancels[i])
    ensures i !in s.cancels ==>
              var a := UpdateStep(s, rec.id, Running);
              ExecuteStep(s, i, rec, d, def, o) ==
              Handle(if IsFork(d) then RunFork(a, i, def.steps, d).0 else a, i, rec, d, def, ok, next, o)
  {
    hide Handle, UpdateStep, RunFork, HandleCancellation, JoinSucceeds;
    var a := UpdateStep(s, rec.id, Running);
    next := d.kind != Condition || o.taken;
    ok := match d.kind
      case Task => d.handler in o.handlers && o.success
      case Fork | Parallel => RunFork(a, i, def.steps, d).1
      case Join => JoinSucceeds(a, i, rec.name)
      case SavePoint => true
      case _ => o.success;
  }

  lemma AskedRemove(s: State, r: State, i: int, q: int)
    requires JoinsAsked(s, r, i)
    ensures JoinsAsked(s, Remove(r, q), i)
  {
    forall x | x in r.steps && x !in s.steps && r.steps[x].kind == Join
      ensures FreshJoin(s, Remove(r, q), i, x)
    {
      assert FreshJoin(s, r, i, x);
      hide Named;
    }
  }

  lemma AskedClaim(s: State, c: State, r: State, i: int)
    requires c == s.(queue := c.queue) && JoinsAsked(c, r, i)
    ensures JoinsAsked(s, r, i)
  {
    assert StepsOf(c, i) == StepsOf(s, i);
    forall x | x in r.steps && x !in s.steps && r.steps[x].kind == Join
      ensures FreshJoin(s, r, i, x)
    {
      assert FreshJoin(c, r, i, x);
      hide StepsOf;
    }
  }

  lemma DispatchAsked(s: State, q: int, i: int, rec: StepRec, def: Definition, o: Choice)
    requires WellFormed(s) && rec.id in s.steps && s.steps[rec.id] == rec && rec.instance == i && NoHumans(s)
    requires Runs(s, i, def) && NoJoinHeads(def) && Distinct(o.order)
    ensures JoinsAsked(s, Dispatch(s, q, i, rec, o), i)
  {
    hide WellFormed, Made, NoHumans, ExecuteCompensation, ExecuteStep, JoinsAsked, Remove, HandBack, NoJoinHeads,
         Dispatch;
    DefinedStep(s, i, rec);
    var d := def.steps[rec.name];
    DispatchForms(s, q, i, rec, def, o);
    ItemRoster(s, q, rec.id, o.cooldown);
    if Dispatch(s, q, i, rec, o) == Remove(ExecuteCompensation(s, i, rec, d, def.steps, o), q) {
      CompensationRoster(s, i, rec, d, def.steps, o);
      RosterAsked(s, ExecuteCompensation(s, i, rec, d, def.steps, o), i);
      AskedRemove(s, ExecuteCompensation(s, i, rec, d, def.steps, o), i, q);
    } else if Dispatch(s, q, i, rec, o) == Remove(ExecuteStep(s, i, rec, d, def, o), q) {
      StepAsked(s, i, rec, def, o);
      AskedRemove(s, ExecuteStep(s, i, rec, d, def, o), i, q);
    } else {
      RosterAsked(s, Dispatch(s, q, i, rec, o), i);
    }
  }

  lemma DispatchForms(s: State, q: int, i: int, rec: StepRec, def: Definition, o: Choice)
    requires NoHumans(s) && Defined(s, i, rec.name) && DefinitionOf(s, i) == def && def.steps[rec.name].kind != Human
    ensures var d, r := def.steps[rec.name], Dispatch(s, q, i, rec, o);
            || r == Remove(Remove(s, rec.id), q) || r == HandBack(s, q, o.cooldown)
            || r == Remove(ExecuteCompensation(s, i, rec, d, def.steps, o), q)
            || r == Remove(ExecuteStep(s, i, rec, d, def, o), q)
  {
    hide NoHumans, ExecuteCompensation, ExecuteStep, Remove, HandBack, Elsewhere;
  }

  lemma ItemRoster(s: State, q: int, id: int, cooldown: real)
    ensures SameRoster(s, Remove(Remove(s, id), q)) && SameRoster(s, HandBack(s, q, cooldown))
            && SameRoster(s, Remove(s, q))
  {
  }

  lemma ExecuteAsked(s: State, q: int, o: Choice)
    requires WellFormed(s) && q in s.queue && Permitted(s, q, o)
    requires forall w | w in s.definitions :: NoJoinHeads(s.definitions[w])
    ensures NoHumans(s) && JoinsAsked(s, Execute(s, q, o), s.queue[q].instance)
  {
    hide WellFormed, NoHumans, Tame, Local, JoinsAsked, Dispatch, NoJoinHeads, IdsOf, Execute, IsDlq;
    Found(s, q);
    var i, id := s.queue[q].instance, s.queue[q].step.value;
    var c := s.(queue := Claim(s.queue, q));
    var def := DefinitionOf(s, i);
    assert Distinct(o.order) && NoJoinHeads(def);
    RequeueTame(s, c, i, def.steps);
    TameWell(s, c, i, def.steps);
    if IsDlq(s, i) {
      DlqIs(s, q, o);
      ItemRoster(c, q, id, 0.0);
      RosterAsked(s, Remove(c, q), i);
    } else {
      ExecuteIsDispatch(s, q, o);
      DispatchAsked(c, q, i, s.steps[id], def, o);
      AskedClaim(s, c, Dispatch(c, q, i, s.steps[id], o), i);
    }
  }

  // ------------------------------------------------------------------ runs

  /** What the builder makes has no such heads. */
  lemma BuiltHasNoJoinHeads(b: BState, p: Prog, b': BState, def: Definition)
    requires IsEmpty(b) && Fresh(p, {}) && Exec(b, p) == Some(b') && BuildOk(b')
    requires def.steps == b'.steps && def.start == b'.start
    ensures NoJoinHeads(def)
  {
    hide Exec;
    EmptyHeaded(b);
    AcceptedNamesValid(b, p, b');
    ExecHeaded(b, p, {}, b');
    assert forall x | x in def.steps :: HeadsOf(def.steps, def.steps[x]);
    hide BuildOk;
  }

  predicate NoJoinHeadsAnywhere(s: State) {
    forall w | w in s.definitions :: NoJoinHeads(s.definitions[w])
  }

  /** Every join step that a transition adds is the first of its name in its instance, and its
      join is ready. */
  ghost predicate AllAsked(s: State, r: State) {
    forall x | x in r.steps && x !in s.steps && r.steps[x].kind == Join :: FreshJoin(s, r, r.steps[x].instance, x)
  }

  lemma AskedAll(s: State, r: State, i: int)
    requires JoinsAsked(s, r, i)
    ensures AllAsked(s, r)
  {
  }

  lemma NextAsked(s: State, op: Op, aging: Aging, r: State)
    requires WellFormed(s) && Next(s, op, aging, r) && NoJoinHeadsAnywhere(s)
    ensures AllAsked(s, r) && r.definitions == s.definitions
  {
    hide WellFormed, NoJoinHeads, Execute, Start, JoinsAsked, NoHumans, Effect, Stale, Tame, Local, AllAsked, Permitted;
    match op
    case StartOp(w, accepted) =>
      if w in s.definitions && accepted {
        StartAsked(s, w, accepted);
      } else {
        NotStarted(s, w, accepted);
        RosterAsked(s, r, 0);
        AskedAll(s, r, 0);
      }
    case NextOp(q, o) =>
      ExecuteAsked(s, q, o);
      AskedAll(s, r, s.queue[q].instance);
      ExecuteEffect(s, q, o);
      if !Stale(s, q) {
        EffectWell(s, r, s.queue[q].instance, s.queue[q].step.value, DefinitionOf(s, s.queue[q].instance).steps);
        LocalDefinitions(s, r, s.queue[q].instance);
      }
    case _ =>
      RosterAsked(s, r, 0);
      AskedAll(s, r, 0);
  }

  lemma LocalDefinitions(s: State, r: State, i: int)
    requires Local(s, r, i)
    ensures r.definitions == s.definitions
  {
  }

  lemma StartAsked(s: State, w: string, accepted: bool)
    requires WellFormed(s) && w in s.definitions && accepted && NoJoinHeads(s.definitions[w])
    ensures AllAsked(s, Start(s, w, accepted)) && Start(s, w, accepted).definitions == s.definitions
  {
    var m, i, def := WithInstance(s, w), s.nextInstance, s.definitions[w];
    StartTame(s, w, accepted);
    WithInstanceWell(s, w);
    assert forall n | n in Link(def.start) && n in def.steps :: def.steps[n].kind != Join;
    hide WellFormed, Tame, Local, EnqueueNext;
    TameWell(m, Start(s, w, accepted), i, def.steps);
    LocalDefinitions(m, Start(s, w, accepted), i);
    EnqueueNextKinds(m, i, def, Link(def.start), false);
  }

  /** Over every run: when a join step appears, its join is ready and it is the first of its
      name. */
  lemma {:induction false} JoinStepsWereReady(states: seq<State>, ops: seq<Op>, aging: Aging, m: nat)
    requires Run(states, ops, aging) && WellFormed(states[0]) && NoJoinHeadsAnywhere(states[0]) && m < |ops|
    ensures WellFormed(states[m + 1]) && NoJoinHeadsAnywhere(states[m + 1]) && AllAsked(states[m], states[m + 1])
  {
    hide WellFormed, NoJoinHeads, Next, AllAsked;
    if m > 0 {
      JoinStepsWereReady(states, ops, aging, m - 1);
    }
    assert Next(states[m], ops[m], aging, states[m + 1]);
    NextAsked(states[m], ops[m], aging, states[m + 1]);
    NextWell(states[m], ops[m], aging, states[m + 1]);
  }

  /** Every join step has a cause: it appeared in some transition of the run, as the first of its
      name, and its join was ready then. */
  lemma {:induction false} JoinStepHasCause(states: seq<State>, ops: seq<Op>, aging: Aging, x: int, n: nat)
    returns (m: nat)
    requires Run(states, ops, aging) && WellFormed(states[0]) && NoJoinHeadsAnywhere(states[0])
    requires n < |states| && x in states[n].steps && states[n].steps[x].kind == Join && x !in states[0].steps
    ensures m < n && x !in states[m].steps && x in states[m + 1].steps
    ensures var i, name := states[n].steps[x].instance, states[n].steps[x].name;
            && FreshJoin(states[m], states[m + 1], i, x) && states[m + 1].steps[x].name == name
            && !Named(states[m], i, name) && ReadyAt(states[m + 1], i, name)
    decreases n
  {
    hide WellFormed, NoJoinHeads, Next, ReadyAt, Named;
    JoinStepsWereReady(states, ops, aging, n - 1);
    if x !in states[n - 1].steps {
      m := n - 1;
    } else {
      if n > 1 {
        JoinStepsWereReady(states, ops, aging, n - 2);
      }
      assert Next(states[n - 1], ops[n - 1], aging, states[n]);
      NextKeepsSteps(states[n - 1], ops[n - 1], aging, states[n]);
      m := JoinStepHasCause(states, ops, aging, x, n - 1);
    }
  }

  /** An instance has at most one step for each join. */
  ghost predicate OneStepPerJoin(s: State) {
    forall x, y | x in s.steps && y in s.steps && s.steps[x].kind == Join && s.steps[y].kind == Join
                  && s.steps[x].instance == s.steps[y].instance && s.steps[x].name == s.steps[y].name :: x == y
  }

  lemma {:induction false} JoinStepsAreUnique(states: seq<State>, ops: seq<Op>, aging: Aging, n: nat)
    requires Run(states, ops, aging) && WellFormed(states[0]) && NoJoinHeadsAnywhere(states[0])
             && OneStepPerJoin(states[0])
    requires n < |states|
    ensures OneStepPerJoin(states[n])
  {
    hide WellFormed, NoJoinHeads, Next;
    if n > 0 {
      JoinStepsAreUnique(states, ops, aging, n - 1);
      JoinStepsWereReady(states, ops, aging, n - 1);
      if n > 1 {
        JoinStepsWereReady(states, ops, aging, n - 2);
      }
      assert Next(states[n - 1], ops[n - 1], aging, states[n]);
      NextKeepsSteps(states[n - 1], ops[n - 1], aging, states[n]);
      UniqueStep(states[n - 1], states[n]);
    }
  }

  lemma UniqueStep(s: State, r: State)
    requires OneStepPerJoin(s) && AllAsked(s, r) && forall x | x in s.steps ::
               x in r.steps && SameStep(s.steps[x], r.steps[x])
    ensures OneStepPerJoin(r)
  {
    forall x, y | x in r.steps && y in r.steps && r.steps[x].kind == Join && r.steps[y].kind == Join
                  && r.steps[x].instance == r.steps[y].instance && r.steps[x].name == r.steps[y].name
      ensures x == y
    {
      if x !in s.steps {
        assert FreshJoin(s, r, r.steps[x].instance, x);
      } else if y !in s.steps {
        assert FreshJoin(s, r, r.steps[y].instance, y);
      }
    }
  }

  lemma NextKeepsSteps(s: State, op: Op, aging: Aging, r: State)
    requires WellFormed(s) && Next(s, op, aging, r)
    ensures forall x | x in s.steps :: x in r.steps && SameStep(s.steps[x], r.steps[x])
  {
    hide WellFormed, Execute, Start, NoHumans, Effect, Stale, Tame, Local, Permitted;
    match op
    case StartOp(w, accepted) =>
      if w in s.definitions && accepted {
        StartTame(s, w, accepted);
        SameKinds(WithInstance(s, w), r, s.nextInstance, s.definitions[w].steps);
      } else {
        NotStarted(s, w, accepted);
      }
    case NextOp(q, o) =>
      ExecuteEffect(s, q, o);
      if !Stale(s, q) {
        EffectWell(s, r, s.queue[q].instance, s.queue[q].step.value, DefinitionOf(s, s.queue[q].instance).steps);
        LocalKeepsSteps(s, r, s.queue[q].instance);
      }
    case _ =>
  }

  lemma LocalKeepsSteps(s: State, r: State, i: int)
    requires Local(s, r, i)
    ensures forall x | x in s.steps :: x in r.steps && SameStep(s.steps[x], r.steps[x])
  {
    assert LocalSteps(s, r, i);
  }
}
