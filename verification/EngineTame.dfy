/** Every operation of the engine on one instance is tame. */
module EngineTame {
  import opened Definitions
  import opened Store
  import opened Queue
  import opened JoinStores
  import opened Rollback
  import opened RollbackEffects
  import opened RollbackEngine
  import opened Engine
  import opened EngineFrames

  /** Instance i runs the definition. */
  predicate Runs(s: State, i: int, def: Definition) {
    i in s.instances && s.instances[i].workflow in s.definitions && DefinitionOf(s, i) == def
  }

  lemma RunsOn(s: State, r: State, i: int, def: Definition)
    requires Runs(s, i, def) && Local(s, r, i)
    ensures Runs(r, i, def)
  {
  }

  lemma SpawnTame(s: State, i: int, name: string, def: Definition)
    requires WellFormed(s) && Runs(s, i, def) && name in def.steps
    ensures Tame(s, Spawn(s, i, name, def.steps[name]), i, def.steps)
  {
    var d := def.steps[name];
    var r := CreateStep(s, i, name, d.kind, Pending, d.maxRetries);
    CreateTame(s, i, name, d.kind, Pending, d.maxRetries, def.steps);
    hide WellFormed, Local;
    EnqueueTame(r, i, s.nextStep, PRIORITY_NORMAL, d.delay, def.steps);
    TameTrans(s, r, Spawn(s, i, name, d), i, def.steps);
  }

  lemma CreateJoinTame(s: State, i: int, name: string, def: Definition)
    requires WellFormed(s) && Runs(s, i, def) && name in def.steps && def.steps[name].kind == Join
    ensures Tame(s, CreateJoin(s, i, name), i, def.steps)
  {
    hide WellFormed, Local, CalmAll;
    TameRefl(s, i, def.steps);
    var r := CreateStep(s, i, name, Join, Pending, 0);
    CreateTame(s, i, name, Join, Paused, 0, def.steps);
    CreateTame(s, i, name, Join, Pending, 0, def.steps);
    EnqueueTame(r, i, s.nextStep, PRIORITY_NORMAL, 0.0, def.steps);
    hide Enqueue, CreateStep, NoReruns;
    TameTrans(s, r, Enqueue(r, i, s.nextStep, PRIORITY_NORMAL, 0.0), i, def.steps);
  }

  lemma NotifyJoinTame(s: State, i: int, def: Definition, order: seq<string>, n: string, step: string, success: bool)
    requires WellFormed(s) && Runs(s, i, def) && n in def.steps && def.steps[n].kind == Join
    ensures Tame(s, NotifyJoin(s, i, def.steps, order, n, step, success).0, i, def.steps)
  {
    hide WellFormed, Local, CalmAll, NoReruns, JoinStep, BranchPending, CreateJoin, JoinAt;
    TameRefl(s, i, def.steps);
    var op := NotifyOp(step, success);
    var a := JoinStep(s, i, n, op);
    JoinStepTame(s, i, n, op, def.steps);
    RunsOn(s, a, i, def);
    JoinStepTame(a, i, n, op, def.steps);
    TameTrans(s, a, JoinStep(a, i, n, op), i, def.steps);
    CreateJoinTame(a, i, n, def);
    TameTrans(s, a, CreateJoin(a, i, n), i, def.steps);
  }

  lemma {:induction false} NotifyAllTame(s: State, i: int, def: Definition, order: seq<string>, rest: seq<string>,
                                         step: string, success: bool)
    requires WellFormed(s) && Runs(s, i, def)
    ensures Tame(s, NotifyAll(s, i, def.steps, order, rest, step, success).0, i, def.steps)
    decreases |rest|
  {
    hide WellFormed, Local, CalmAll, NoReruns, NotifyJoin, JoinAt;
    TameRefl(s, i, def.steps);
    if rest != [] {
      if AwaitedBy(s, i, def.steps, rest[0], step) {
        var r := NotifyJoin(s, i, def.steps, order, rest[0], step, success).0;
        NotifyJoinTame(s, i, def, order, rest[0], step, success);
        RunsOn(s, r, i, def);
        NotifyAllTame(r, i, def, order, rest[1..], step, success);
        TameTrans(s, r, NotifyAll(r, i, def.steps, order, rest[1..], step, success).0, i, def.steps);
      } else {
        NotifyAllTame(s, i, def, order, rest[1..], step, success);
      }
    }
  }

  lemma {:induction false} FirstJoinIsJoin(steps: Steps, names: seq<string>)
    ensures FirstJoin(steps, names) != "" ==>
              FirstJoin(steps, names) in steps && steps[FirstJoin(steps, names)].kind == Join
  {
    if names != [] {
      FirstJoinIsJoin(steps, names[1..]);
    }
  }

  lemma SettleTame(s: State, i: int, def: Definition, order: seq<string>, rec: StepRec, d: StepDef, success: bool)
    requires WellFormed(s) && Runs(s, i, def)
    ensures Tame(s, Settle(s, i, def.steps, order, rec, d, success), i, def.steps)
  {
    var steps := def.steps;
    var join := JoinAround(steps, order, rec.name);
    if ForkAround(steps, order, rec.name) in steps {
      FirstJoinIsJoin(steps, steps[ForkAround(steps, order, rec.name)].next);
    }
    assert join != "" ==> join in steps && steps[join].kind == Join;
    hide WellFormed, Local, CalmAll, NoReruns, NotifyJoin, JoinStep, JoinAt, JoinAround, EndsBranch;
    TameRefl(s, i, steps);
    if join != "" {
      var op := ReplaceOp(VirtualName(ConditionAbove(steps, d.prev, {})), rec.name,
                          OldestStatus(StepsOf(s, i), rec.name));
      var a := JoinStep(s, i, join, op);
      JoinStepTame(s, i, join, op, steps);
      RunsOn(s, a, i, def);
      NotifyJoinTame(a, i, def, order, join, rec.name, success);
      TameTrans(s, a, NotifyJoin(a, i, steps, order, join, rec.name, success).0, i, steps);
      JoinStepTame(s, i, join, CreateOp([rec.name], Some(steps[join].strategy)), steps);
      JoinStepTame(s, i, join, AddOp(rec.name), steps);
    }
  }

  lemma {:induction false} OpenJoinsTame(s: State, i: int, def: Definition, d: StepDef, names: seq<string>)
    requires WellFormed(s) && Runs(s, i, def)
    ensures Tame(s, OpenJoins(s, i, def.steps, d, names), i, def.steps)
    ensures OpenJoins(s, i, def.steps, d, names).steps == s.steps
    decreases |names|
  {
    hide WellFormed, Local, CalmAll, NoReruns, JoinStep;
    TameRefl(s, i, def.steps);
    if names != [] {
      var n := names[0];
      var op := if n in def.steps then CreateOp(if def.steps[n].waitFor == [] then d.parallel else def.steps[n].waitFor,
                                                Some(def.steps[n].strategy)) else CreateOp([], None);
      var r := if n !in def.steps || def.steps[n].kind != Join then s else JoinStep(s, i, n, op);
      JoinStepTame(s, i, n, op, def.steps);
      JoinStepLocal(s, i, n, op);
      RunsOn(s, r, i, def);
      OpenJoinsTame(r, i, def, d, names[1..]);
      TameTrans(s, r, OpenJoins(r, i, def.steps, d, names[1..]), i, def.steps);
    }
  }

  lemma {:induction false} EnqueueNextTame(s: State, i: int, def: Definition, names: seq<string>, skipJoins: bool)
    requires WellFormed(s) && Runs(s, i, def)
    ensures Tame(s, EnqueueNext(s, i, def.steps, names, skipJoins), i, def.steps)
    decreases |names|
  {
    hide WellFormed, Local, CalmAll, Spawn;
    TameRefl(s, i, def.steps);
    if names != [] && names[0] in def.steps {
      var d := def.steps[names[0]];
      var r := if (skipJoins && d.kind == Join) || IsDlq(s, i) then s else Spawn(s, i, names[0], d);
      SpawnTame(s, i, names[0], def);
      RunsOn(s, r, i, def);
      EnqueueNextTame(r, i, def, names[1..], skipJoins);
      TameTrans(s, r, EnqueueNext(r, i, def.steps, names[1..], skipJoins), i, def.steps);
    }
  }

  lemma {:induction false} StartBranchesTame(s: State, i: int, def: Definition, names: seq<string>)
    requires WellFormed(s) && Runs(s, i, def)
    ensures Tame(s, StartBranches(s, i, def.steps, names).0, i, def.steps)
    decreases |names|
  {
    hide WellFormed, Local, CalmAll, Spawn;
    TameRefl(s, i, def.steps);
    if names != [] && names[0] in def.steps {
      var r := Spawn(s, i, names[0], def.steps[names[0]]);
      SpawnTame(s, i, names[0], def);
      RunsOn(s, r, i, def);
      StartBranchesTame(r, i, def, names[1..]);
      TameTrans(s, r, StartBranches(r, i, def.steps, names[1..]).0, i, def.steps);
    }
  }

  // ------------------------------------------------------------------ rollback

  /** Compensation of a step whose record is up to date. */
  lemma RollbackStepTame(s: State, rec: StepRec, i: int, steps: Steps, workflow: string)
    requires WellFormed(s) && rec.id in s.steps && s.steps[rec.id] == rec && rec.instance == i
    requires rec.name in steps && (rec.status == Completed || rec.status == Failed)
    ensures Tame(s, RollbackStep(s, rec, steps, workflow), i, steps)
  {
    hide WellFormed, Tame, Enqueue, UpdateStep, UpdateStepCompensationRetry, CreateDeadLetter, CompensationDelay;
    match Judge(rec, steps)
    case Undone => UpdateTame(s, rec.id, RolledBack, i, steps);
    case Exhausted => ExhaustedTame(s, rec, i, steps, workflow);
    case Queued(delay) => QueuedTame(s, rec, i, steps, delay);
  }

  lemma ExhaustedTame(s: State, rec: StepRec, i: int, steps: Steps, workflow: string)
    requires WellFormed(s) && rec.id in s.steps && s.steps[rec.id] == rec && rec.instance == i
    requires rec.status == Completed || rec.status == Failed
    ensures Tame(s, CreateDeadLetter(UpdateStep(s, rec.id, Failed), rec, workflow), i, steps)
  {
    hide WellFormed, Local, CalmAll, NoReruns, UpdateStep, CreateDeadLetter;
    var r := UpdateStep(s, rec.id, Failed);
    UpdateTame(s, rec.id, Failed, i, steps);
    DeadLetterTame(r, rec, workflow, i, steps);
    TameTrans(s, r, CreateDeadLetter(r, rec, workflow), i, steps);
  }

  lemma QueuedTame(s: State, rec: StepRec, i: int, steps: Steps, delay: real)
    requires WellFormed(s) && rec.id in s.steps && s.steps[rec.id] == rec && rec.instance == i
    requires (rec.status == Completed || rec.status == Failed) && rec.compRetries < CompMax(rec.name, steps)
    ensures Tame(s, Enqueue(UpdateStepCompensationRetry(s, rec.id, rec.compRetries + 1, Compensation), rec.instance,
                            rec.id, PRIORITY_HIGH, delay), i, steps)
  {
    hide WellFormed, Tame, Enqueue;
    CountsNotNegative(s, rec.id);
    var b := rec.(compRetries := rec.compRetries + 1, status := Compensation);
    var r := UpdateStepCompensationRetry(s, rec.id, rec.compRetries + 1, Compensation);
    PutTame(s, b, i, steps);
    assert r == Put(s, b);
    TameWell(s, r, i, steps);
    EnqueueTame(r, i, rec.id, PRIORITY_HIGH, delay, steps);
    hide UpdateStepCompensationRetry;
    TameTrans(s, r, Enqueue(r, i, rec.id, PRIORITY_HIGH, delay), i, steps);
  }

  /** The snapshot holds current records of instance i. */
  predicate SnapshotFor(s: State, e: Env, i: int) {
    Snapshot(s, e) && forall x | x in e.recs :: e.recs[x].instance == i
  }

  lemma {:induction false} RollbackAllTame(s: State, e: Env, i: int, log: seq<string>, workflow: string)
    requires WellFormed(s) && SnapshotFor(s, e, i) && Loggable(e, log) && Distinct(log)
    requires forall x | x in log :: Eligible(e, x)
    ensures Tame(s, RollbackAll(s, e, log, workflow), i, e.steps)
  {
    hide WellFormed, Tame, RollbackStep;
    TameRefl(s, i, e.steps);
    if log != [] {
      var last := |log| - 1;
      var init, x := log[..last], log[last];
      assert x !in init && Distinct(init);
      RollbackAllTame(s, e, i, init, workflow);
      var r := RollbackAll(s, e, init, workflow);
      Untouched(s, e, init, x, workflow);
      TameWell(s, r, i, e.steps);
      hide RollbackAll;
      RollbackStepTame(r, e.recs[x], i, e.steps, workflow);
      TameTrans(s, r, RollbackStep(r, e.recs[x], e.steps, workflow), i, e.steps);
    }
  }

  lemma Untouched(s: State, e: Env, log: seq<string>, x: string, workflow: string)
    requires WellFormed(s) && Snapshot(s, e) && Loggable(e, log) && Distinct(log) && x in e.recs && x !in log
    ensures e.recs[x].id in RollbackAll(s, e, log, workflow).steps
    ensures RollbackAll(s, e, log, workflow).steps[e.recs[x].id] == e.recs[x]
  {
    assert CountersFresh(s) by {
      hide StepsFiled, AllMade, NoHumans;
    }
    hide WellFormed;
    RollbackAllEffect(s, e, log, workflow);
    NothingNewYet(s, RollbackAll(s, e, log, workflow), e, log, x);
  }

  lemma RollBackTame(s: State, recs: map<string, StepRec>, i: int, def: Definition, from: string, stop: string)
    requires WellFormed(s) && SnapshotFor(s, Env(def.steps, stop, recs), i)
    ensures Tame(s, RollBack(s, recs, def, from, stop).0, i, def.steps)
  {
    var e := Env(def.steps, stop, recs);
    WalkChainSound(e, from, false, Walk({}, [], true));
    var w := WalkChain(e, from, false, Walk({}, [], true));
    hide WellFormed, Local, CalmAll, WalkChain;
    RollbackAllTame(s, e, i, w.log, def.id);
  }

  lemma OwnRecords(s: State, i: int, rec: StepRec)
    requires WellFormed(s) && rec in StepsOf(s, i)
    ensures rec.id in s.steps && s.steps[rec.id] == rec && rec.instance == i
  {
    var id :| id in IdsOf(s, i) && id in s.steps && s.steps[id] == rec;
  }

  lemma ByNameIsSnapshot(s: State, i: int, e: Env)
    requires WellFormed(s) && e.recs == ByName(StepsOf(s, i))
    ensures SnapshotFor(s, e, i)
  {
    forall x | x in e.recs
      ensures e.recs[x].name == x && e.recs[x].id in s.steps && s.steps[e.recs[x].id] == e.recs[x]
              && e.recs[x].instance == i
    {
      OwnRecords(s, i, e.recs[x]);
    }
  }

  lemma {:induction false} PresentHas(steps: map<int, StepRec>, ids: seq<int>, id: int)
    requires id in ids && id in steps
    ensures steps[id] in Present(steps, ids)
  {
    var last := |ids| - 1;
    if ids[last] != id {
      assert id in ids[..last];
      PresentHas(steps, ids[..last], id);
    }
  }

  lemma FailedIsNamed(s: State, i: int, failed: StepRec)
    requires WellFormed(s) && failed.id in s.steps && SameStep(s.steps[failed.id], failed) && failed.instance == i
    ensures SnapshotOf(s, i, failed) == ByName(StepsOf(s, i))
  {
    assert s.steps[failed.id].id == failed.id && failed.id in IdsOf(s, i);
    PresentHas(s.steps, IdsOf(s, i), failed.id);
  }

  // ------------------------------------------------------------------ the reactive rollback

  /** The records are current, of instance i, and distinct. */
  predicate Current(s: State, i: int, recs: seq<StepRec>) {
    && (forall k | 0 <= k < |recs| :: recs[k].id in s.steps && s.steps[recs[k].id] == recs[k] && recs[k].instance == i)
    && (forall k, l | 0 <= k < l < |recs| :: recs[k].id != recs[l].id)
  }

  /** The records are those of the ids, in order. */
  predicate Mirrors(p: seq<StepRec>, steps: map<int, StepRec>, ids: seq<int>) {
    && (forall k, l | 0 <= k < l < |p| :: p[k].id < p[l].id)
    && (forall k | 0 <= k < |p| :: p[k].id in ids && p[k].id in steps && steps[p[k].id] == p[k])
  }

  lemma {:induction false} PresentIncreasing(steps: map<int, StepRec>, ids: seq<int>)
    requires Increasing(ids) && forall id | id in steps :: steps[id].id == id
    ensures Mirrors(Present(steps, ids), steps, ids)
  {
    if ids != [] {
      var last := |ids| - 1;
      var init := ids[..last];
      PresentIncreasing(steps, init);
      var p := Present(steps, init);
      forall k | 0 <= k < |p|
        ensures p[k].id in ids && p[k].id < ids[last]
      {
        assert p[k].id in init;
      }
    }
  }

  lemma StepsOfCurrent(s: State, i: int)
    requires WellFormed(s)
    ensures Current(s, i, StepsOf(s, i)) && Mirrors(StepsOf(s, i), s.steps, IdsOf(s, i))
  {
    assert Increasing(IdsOf(s, i)) && forall id | id in s.steps :: s.steps[id].id == id by {
      hide AllMade;
    }
    PresentIncreasing(s.steps, IdsOf(s, i));
    var p := StepsOf(s, i);
    forall k | 0 <= k < |p|
      ensures p[k].instance == i
    {
      assert p[k] in p;
      OwnRecords(s, i, p[k]);
    }
  }

  lemma {:induction false} UndoPlainTame(s: State, i: int, recs: seq<StepRec>, steps: Steps, sp: Option<int>)
    requires WellFormed(s) && Current(s, i, recs)
    ensures Tame(s, UndoPlain(s, recs, steps, sp), i, steps)
    decreases |recs|
  {
    hide WellFormed, Tame, Compensable, Current;
    if recs == [] {
      TameRefl(s, i, steps);
    } else {
      var rec := recs[0];
      CurrentRest(s, i, recs);
      if AfterSavePoint(rec, sp) && !Compensable(rec, steps) {
        var r := UpdateStep(s, rec.id, RolledBack);
        UpdateTame(s, rec.id, RolledBack, i, steps);
        TameWell(s, r, i, steps);
        hide UpdateStep;
        UndoPlainTame(r, i, recs[1..], steps, sp);
        TameTrans(s, r, UndoPlain(r, recs[1..], steps, sp), i, steps);
      } else {
        UndoPlainTame(s, i, recs[1..], steps, sp);
      }
    }
  }

  lemma CurrentRest(s: State, i: int, recs: seq<StepRec>)
    requires Current(s, i, recs) && recs != []
    ensures Current(s, i, recs[1..]) && Current(UpdateStep(s, recs[0].id, RolledBack), i, recs[1..])
    ensures recs[0].id in s.steps && s.steps[recs[0].id] == recs[0] && recs[0].instance == i
  {
  }

  /** None of the records without compensation is the step id. */
  predicate NotPlain(recs: seq<StepRec>, steps: Steps, id: int) {
    forall k | 0 <= k < |recs| && !Compensable(recs[k], steps) :: recs[k].id != id
  }

  lemma NotPlainRest(recs: seq<StepRec>, steps: Steps, id: int)
    requires NotPlain(recs, steps, id) && recs != []
    ensures NotPlain(recs[1..], steps, id) && (!Compensable(recs[0], steps) ==> recs[0].id != id)
  {
    hide Compensable;
    forall k | 0 <= k < |recs[1..]|
      ensures recs[1..][k] == recs[k + 1]
    {
    }
  }

  lemma {:induction false} UndoPlainKeeps(s: State, recs: seq<StepRec>, steps: Steps, sp: Option<int>, id: int)
    requires id in s.steps && NotPlain(recs, steps, id)
    ensures id in UndoPlain(s, recs, steps, sp).steps && UndoPlain(s, recs, steps, sp).steps[id] == s.steps[id]
    decreases |recs|
  {
    hide Compensable, NotPlain, UpdateStep;
    if recs != [] {
      NotPlainRest(recs, steps, id);
      if AfterSavePoint(recs[0], sp) && !Compensable(recs[0], steps) {
        OthersNotUpdated(s, recs[0].id, RolledBack, id);
        UndoPlainKeeps(UpdateStep(s, recs[0].id, RolledBack), recs[1..], steps, sp, id);
      } else {
        UndoPlainKeeps(s, recs[1..], steps, sp, id);
      }
    }
  }

  lemma OthersNotUpdated(s: State, id: int, status: StepStatus, other: int)
    requires other in s.steps && other != id
    ensures other in UpdateStep(s, id, status).steps && UpdateStep(s, id, status).steps[other] == s.steps[other]
  {
  }

  lemma {:induction false} ToCompensateCurrent(s: State, i: int, recs: seq<StepRec>, steps: Steps, sp: Option<int>)
    requires Current(s, i, recs)
    ensures Current(s, i, ToCompensate(recs, steps, sp))
    ensures forall rec | rec in ToCompensate(recs, steps, sp) ::
              rec in recs && AfterSavePoint(rec, sp) && Compensable(rec, steps)
    decreases |recs|
  {
    hide AfterSavePoint, Compensable;
    if recs != [] {
      var rest := ToCompensate(recs[1..], steps, sp);
      ToCompensateCurrent(s, i, recs[1..], steps, sp);
      forall k | 0 <= k < |rest|
        ensures rest[k].id != recs[0].id
      {
        assert rest[k] in rest && rest[k] in recs[1..];
        var l :| 0 <= l < |recs[1..]| && recs[1..][l] == rest[k];
        assert recs[l + 1] == rest[k];
      }
    }
  }

  lemma {:induction false} QueueAllTame(s: State, i: int, recs: seq<StepRec>, index: nat, steps: Steps)
    requires WellFormed(s) && Current(s, i, recs) && forall rec | rec in recs :: rec.status == Completed
    ensures Tame(s, QueueAll(s, i, recs, index), i, steps)
    decreases |recs|
  {
    hide WellFormed, Local, CalmAll;
    TameRefl(s, i, steps);
    if recs != [] {
      var rec := recs[0];
      var m := UpdateStepCompensationRetry(s, rec.id, 0, Compensation);
      CountsNotNegative(s, rec.id);
      PutTame(s, rec.(compRetries := 0, status := Compensation), i, steps);
      var r := Enqueue(m, i, rec.id, PRIORITY_HIGH, 0.01 * index as real);
      EnqueueTame(m, i, rec.id, PRIORITY_HIGH, 0.01 * index as real, steps);
      TameTrans(s, m, r, i, steps);
      assert Current(r, i, recs[1..]);
      QueueAllTame(r, i, recs[1..], index + 1, steps);
      TameTrans(s, r, QueueAll(r, i, recs[1..], index + 1), i, steps);
    }
  }

  lemma ReactiveTame(s: State, i: int, steps: Steps)
    requires WellFormed(s)
    ensures Tame(s, ReactiveRollback(s, i, steps), i, steps)
  {
    hide WellFormed, Tame, LastSavePoint, StepsOf, Mirrors, Current, UndoPlain, ToCompensate, QueueAll, Compensable,
         AfterSavePoint;
    var recs := StepsOf(s, i);
    var sp := LastSavePoint(recs);
    StepsOfCurrent(s, i);
    UndoPlainTame(s, i, recs, steps, sp);
    ToCompensateCurrent(s, i, recs, steps, sp);
    var r, list := UndoPlain(s, recs, steps, sp), ToCompensate(recs, steps, sp);
    TameWell(s, r, i, steps);
    StillCurrent(s, i, recs, list, steps, sp);
    ListCompleted(list, sp);
    QueueAllTame(r, i, list, 0, steps);
    TameTrans(s, r, QueueAll(r, i, list, 0), i, steps);
  }

  lemma ListCompleted(list: seq<StepRec>, sp: Option<int>)
    requires forall rec | rec in list :: AfterSavePoint(rec, sp)
    ensures forall rec | rec in list :: rec.status == Completed
  {
  }

  lemma StillCurrent(s: State, i: int, recs: seq<StepRec>, list: seq<StepRec>, steps: Steps, sp: Option<int>)
    requires Current(s, i, recs) && Current(s, i, list)
    requires forall rec | rec in list :: rec in recs && Compensable(rec, steps)
    ensures Current(UndoPlain(s, recs, steps, sp), i, list)
  {
    hide Compensable, UndoPlain, NotPlain;
    forall k | 0 <= k < |list|
      ensures var r := UndoPlain(s, recs, steps, sp);
              list[k].id in r.steps && r.steps[list[k].id] == list[k]
    {
      assert list[k] in list;
      CompensableNotPlain(s, i, recs, list[k], steps);
      UndoPlainKeeps(s, recs, steps, sp, list[k].id);
    }
  }

  lemma CompensableNotPlain(s: State, i: int, recs: seq<StepRec>, rec: StepRec, steps: Steps)
    requires Current(s, i, recs) && rec in recs && Compensable(rec, steps)
    ensures NotPlain(recs, steps, rec.id)
  {
    hide Compensable;
    forall l | 0 <= l < |recs| && !Compensable(recs[l], steps)
      ensures recs[l].id != rec.id
    {
      assert s.steps[recs[l].id] == recs[l];
    }
  }

  lemma SomeStepAt(s: State, i: int, statuses: set<StepStatus>)
    requires WellFormed(s)
    ensures SomeStep(s, i, statuses) <==> exists id | id in IdsOf(s, i) ::
              id in s.steps && s.steps[id].status in statuses
  {
    if SomeStep(s, i, statuses) {
      var rec :| rec in StepsOf(s, i) && rec.status in statuses;
      var id :| id in IdsOf(s, i) && id in s.steps && s.steps[id] == rec;
    }
    if id :| id in IdsOf(s, i) && id in s.steps && s.steps[id].status in statuses {
      PresentHas(s.steps, IdsOf(s, i), id);
    }
  }
}
