/** What a failed step, a compensation attempt and a cancellation do to the store. */
module EngineFailures {
  import opened Definitions
  import opened Trees
  import opened Store
  import opened JoinStores
  import opened Queue
  import opened Rollback
  import opened RollbackTrees
  import opened RollbackExact
  import opened RollbackTheorems
  import opened RollbackEffects
  import opened RollbackEngine
  import opened Engine
  import opened EngineFrames
  import opened EngineTame
  import opened EngineSteps
  import opened EngineRuns
  import opened EngineBirths
  import opened EngineReactions

  // ------------------------------------------------------------------ retries

  /** The step may be executed once more: after its first failure if its definition has retries,
      later while failures are fewer than its own limit, unless it is not idempotent. */
  predicate MayRetry(rec: StepRec, d: StepDef) {
    rec.retryCount >= 0 &&
    if rec.retryCount == 0 then d.maxRetries > 0
    else rec.retryCount < rec.maxRetries && !d.noIdempotent
  }

  /** For a step that was made from its definition this is a bound on its failures. */
  lemma MayRetryIff(rec: StepRec, d: StepDef)
    requires rec.retryCount >= 0 && rec.maxRetries == d.maxRetries
    ensures MayRetry(rec, d) <==> rec.retryCount < RetryLimit(d)
  {
  }

  /** A failure that may be retried: the step has failed once more and gets one new urgent item;
      nothing else changes. */
  lemma RetryIsExact(s: State, i: int, rec: StepRec, d: StepDef, def: Definition, o: Choice)
    requires rec.id in s.steps && MayRetry(rec, d)
    ensures var was := s.steps[rec.id];
            HandleFailure(s, i, rec, d, def, o) ==
            s.(steps := s.steps[rec.id := was.(status := Failed, retryCount := was.retryCount + 1)],
               queue := s.queue[s.nextQueue := QueueItem(i, Some(rec.id), s.clock + d.delay, PRIORITY_HIGH, false)],
               nextQueue := s.nextQueue + 1)
  {
    hide ToDlq, FailFinally;
  }

  // ------------------------------------------------------------------ the records by name

  lemma {:induction false} ByNameYoungest(recs: seq<StepRec>)
    requires Growing(recs)
    ensures forall y | y in recs :: y.name in ByName(recs) && y.id <= ByName(recs)[y.name].id
  {
    if recs != [] {
      var init, last := recs[..|recs| - 1], recs[|recs| - 1];
      ByNameYoungest(init);
      assert recs == init + [last];
      forall y | y in init
        ensures y.id < last.id
      {
      }
    }
  }

  lemma {:induction false} OldestFirst(recs: seq<StepRec>, name: string)
    requires Growing(recs)
    ensures OldestStatus(recs, name).None? <==> forall y | y in recs :: y.name != name
    ensures OldestStatus(recs, name).Some? ==>
              exists x | x in recs :: && x.name == name && OldestStatus(recs, name) == Some(x.status)
                                      && forall y | y in recs && y.name == name :: x.id <= y.id
  {
    if recs != [] {
      var first, rest := recs[0], recs[1..];
      assert recs == [first] + rest;
      if first.name != name {
        OldestFirst(rest, name);
      }
    }
  }

  /** A rollback judges a name by the youngest step that bears it; a join that learns of a step late
      by the oldest. */
  lemma SnapshotIsYoungest(s: State, i: int, rec: StepRec)
    requires WellFormed(s) && rec.id in IdsOf(s, i) && rec.id in s.steps && rec.name == s.steps[rec.id].name
    ensures var m := SnapshotOf(s, i, rec);
            && (forall n | n in m :: m[n].id in IdsOf(s, i) && m[n].id in s.steps && s.steps[m[n].id] == m[n])
            && (forall y | y in IdsOf(s, i) && y in s.steps ::
                  s.steps[y].name in m && y <= m[s.steps[y].name].id)
    ensures exists x | x in IdsOf(s, i) ::
              && x in s.steps && s.steps[x].name == rec.name
              && OldestStatus(StepsOf(s, i), rec.name) == Some(s.steps[x].status)
              && forall y | y in IdsOf(s, i) && y in s.steps && s.steps[y].name == rec.name :: x <= y
  {
    hide WellFormed, StepsOf, OldestStatus, ByName, IdsOf;
    var recs := StepsOf(s, i);
    RecordsAre(s, i);
    ByNameYoungest(recs);
    OldestFirst(recs, rec.name);
    assert s.steps[rec.id] in recs;
  }

  // ------------------------------------------------------------------ dead letters

  /** A failure that may not be retried, in the dead-letter mode: the step is paused, so is every
      running step of the instance, its items are gone, one dead letter names the step, and the
      instance is in the dead-letter state.  Before, only join steps were added. */
  lemma DlqIsExact(s: State, i: int, rec: StepRec, d: StepDef, def: Definition, o: Choice)
    requires Unused(s) && i in s.instances && rec.id in s.steps && !MayRetry(rec, d) && rec.retryCount >= 0
    requires def.dlqEnabled && Mark(s, i, rec, d, def.steps, o, Paused, false, false).1
    ensures var m := Mark(s, i, rec, d, def.steps, o, Paused, false, false).0;
            var r := HandleFailure(s, i, rec, d, def, o);
            && JoinsBorn(s.(steps := s.steps[rec.id := s.steps[rec.id].(status := Paused)]), m, i)
            && r == m.(steps := r.steps, queue := r.queue,
                       instances := m.instances[i := m.instances[i].(status := WfDLQ)],
                       deadLetters := m.deadLetters[m.nextDeadLetter := DeadLetter(rec.instance, def.id, rec.id,
                                                                                   rec.name)],
                       nextDeadLetter := m.nextDeadLetter + 1)
            && r.steps.Keys == m.steps.Keys
            && (forall x | x in m.steps ::
                  r.steps[x] == if x in IdsOf(m, i) && m.steps[x].status == Running then m.steps[x].(status := Paused)
                    else m.steps[x])
            && (forall q :: q in r.queue <==> q in m.queue && m.queue[q].instance != i)
            && (forall q | q in r.queue :: r.queue[q] == m.queue[q])
  {
    MarkBorn(s, i, rec, d, def.steps, o, Paused, false, false);
    assert UpdateStep(s, rec.id, Paused) == s.(steps := s.steps[rec.id := s.steps[rec.id].(status := Paused)]);
    var m := Mark(s, i, rec, d, def.steps, o, Paused, false, false).0;
    assert i in m.instances by {
      hide JoinBorn;
    }
    hide Mark, JoinsBorn, UpdateStep, FailFinally, IdsOf;
    var r := HandleFailure(s, i, rec, d, def, o);
    assert r == SetInstance(Freeze(CreateDeadLetter(m, rec, def.id), i), i, WfDLQ);
    hide HandleFailure;
    FrozenIs(m, i, rec, def.id);
  }

  lemma FrozenIs(m: State, i: int, rec: StepRec, workflow: string)
    requires i in m.instances
    ensures var r := SetInstance(Freeze(CreateDeadLetter(m, rec, workflow), i), i, WfDLQ);
            && r == m.(steps := r.steps, queue := r.queue,
                       instances := m.instances[i := m.instances[i].(status := WfDLQ)],
                       deadLetters := m.deadLetters[m.nextDeadLetter := DeadLetter(rec.instance, workflow, rec.id,
                                                                                   rec.name)],
                       nextDeadLetter := m.nextDeadLetter + 1)
            && r.steps.Keys == m.steps.Keys
            && (forall x | x in m.steps ::
                  r.steps[x] == if x in IdsOf(m, i) && m.steps[x].status == Running then m.steps[x].(status := Paused)
                    else m.steps[x])
            && (forall q :: q in r.queue <==> q in m.queue && m.queue[q].instance != i)
            && (forall q | q in r.queue :: r.queue[q] == m.queue[q])
  {
    SameIds(m, CreateDeadLetter(m, rec, workflow), i);
    hide IdsOf;
  }

  // ------------------------------------------------------------------ compensation attempts

  /** Another step of the instance is still to be executed or compensated. */
  predicate MoreToDo(s: State, i: int, id: int) {
    exists x | x in IdsOf(s, i) ::
      x in s.steps && x != id && s.steps[x].status in {Pending, Running, Paused, Compensation}
  }

  /** One attempt: without a compensation handler, or when it succeeds, the step is rolled back, and
      success of the last one fails the instance; a failed attempt is repeated while attempts are
      left, and otherwise leaves the step failed. */
  lemma AttemptIsExact(s: State, i: int, rec: StepRec, d: StepDef, steps: Steps, o: Choice)
    requires WellFormed(s) && i in s.instances && rec.id in IdsOf(s, i) && rec.id in s.steps
    ensures var r, was := ExecuteCompensation(s, i, rec, d, steps, o), s.steps[rec.id];
            if d.onFailure !in steps || steps[d.onFailure].handler !in o.handlers then
              r == s.(steps := s.steps[rec.id := was.(status := RolledBack)])
            else if o.success then
              r == s.(steps := s.steps[rec.id := was.(status := RolledBack)],
                      instances := if MoreToDo(s, i, rec.id) then s.instances
                                   else s.instances[i := s.instances[i].(status := WfFailed)])
            else if rec.compRetries < steps[d.onFailure].maxRetries then
              r == s.(steps := s.steps[rec.id := was.(compRetries := rec.compRetries + 1, status := Compensation)],
                      queue := s.queue[s.nextQueue := QueueItem(rec.instance, Some(rec.id),
                                                                s.clock + CompensationDelay(steps[d.onFailure],
                                                                                            rec.compRetries + 1),
                                                                PRIORITY_HIGH, false)],
                      nextQueue := s.nextQueue + 1)
            else
              r == s.(steps := s.steps[rec.id := was.(status := Failed, retryCount := was.retryCount + 1)])
  {
    hide CompensationDelay, SomeStep, MoreToDo, IdsOf;
    UndoneEnds(s, i, rec.id);
    hide WellFormed, HasUnfinished;
  }

  lemma UndoneEnds(s: State, i: int, id: int)
    requires WellFormed(s) && id in IdsOf(s, i) && id in s.steps
    ensures var u := UpdateStep(s, id, RolledBack);
            !MoreToDo(s, i, id) <==>
            !HasUnfinished(u, i) && !SomeStep(u, i, {Compensation}) && SomeStep(u, i, {Failed, RolledBack})
  {
    hide WellFormed, IdsOf, SomeStep, UpdateStep;
    var u := UpdateStep(s, id, RolledBack);
    RolledBackWell(s, i, id);
    UpdateFrame(s, id, RolledBack);
    SameIds(s, u, i);
    SomeStepAt(u, i, {Pending, Running, Paused});
    SomeStepAt(u, i, {Compensation});
    SomeStepAt(u, i, {Failed, RolledBack});
    EndsIff(s, u, i, id);
  }

  /** The three questions about the steps of the instance, as one. */
  lemma EndsIff(s: State, u: State, i: int, id: int)
    requires u.steps.Keys == s.steps.Keys && id in IdsOf(s, i) && id in s.steps && IdsOf(u, i) == IdsOf(s, i)
    requires forall x | x in s.steps ::
               u.steps[x] == if x == id then s.steps[x].(status := RolledBack) else s.steps[x]
    ensures (!(exists x | x in IdsOf(u, i) :: x in u.steps && u.steps[x].status in {Pending, Running, Paused})
             && !(exists x | x in IdsOf(u, i) :: x in u.steps && u.steps[x].status in {Compensation})
             && (exists x | x in IdsOf(u, i) :: x in u.steps && u.steps[x].status in {Failed, RolledBack}))
            <==> !MoreToDo(s, i, id)
  {
    hide IdsOf;
    assert u.steps[id].status == RolledBack;
    if MoreToDo(s, i, id) {
      var x :| x in IdsOf(s, i) && x in s.steps && x != id
        && s.steps[x].status in {Pending, Running, Paused, Compensation};
      assert x in IdsOf(u, i) && x in u.steps && u.steps[x] == s.steps[x];
    }
    if x :| x in IdsOf(u, i) && x in u.steps && u.steps[x].status in {Pending, Running, Paused} {
      assert x in IdsOf(s, i) && x != id;
    }
    if x :| x in IdsOf(u, i) && x in u.steps && u.steps[x].status in {Compensation} {
      assert x in IdsOf(s, i) && x != id;
    }
  }

  lemma RolledBackWell(s: State, i: int, id: int)
    requires WellFormed(s) && id in IdsOf(s, i) && id in s.steps
    ensures WellFormed(UpdateStep(s, id, RolledBack))
  {
    FrozenAreOwn(s, i);
    CountsNotNegative(s, id);
    hide WellFormed, Local;
    PutLocal(s, WithStatus(s.steps[id], RolledBack), i);
  }

  // ------------------------------------------------------------------ cancellation

  predicate IsOpen(status: StepStatus) {
    status == Pending || status == Running || status == WaitingDecision
  }

  /** The open steps of the instance are skipped, everything else stays. */
  ghost predicate OpenSkipped(s: State, u: State, i: int) {
    && u == s.(steps := u.steps) && u.steps.Keys == s.steps.Keys
    && forall x | x in s.steps ::
         u.steps[x] == if x in IdsOf(s, i) && IsOpen(s.steps[x].status) then s.steps[x].(status := Skipped)
           else s.steps[x]
  }

  lemma SkippedIs(s: State, i: int)
    ensures OpenSkipped(s, SkipAll(s, ActiveIds(s, i)), i)
  {
    hide IdsOf;
  }

  /** An abort skips the open steps, ends the instance and forgets the request. */
  lemma AbortIsExact(s: State, i: int, def: Definition)
    requires i in s.instances
    ensures var r := HandleCancellation(s, i, def, AbortRun);
            && OpenSkipped(s, s.(steps := r.steps), i)
            && r == s.(steps := r.steps, instances := s.instances[i := s.instances[i].(status := WfAborted)],
                       cancels := s.cancels - {i})
  {
    SkippedIs(s, i);
    hide SkipAll, ActiveIds, RollBack;
  }

  /** The youngest completed record. */
  lemma {:induction false} LastCompletedIs(recs: seq<StepRec>)
    requires Growing(recs)
    ensures LastCompleted(recs).None? <==> forall y | y in recs :: y.status != Completed
    ensures LastCompleted(recs).Some? ==>
              exists y | y in recs :: y.status == Completed && y.name == LastCompleted(recs).value
                                      && forall z | z in recs && z.status == Completed :: z.id <= y.id
  {
    if recs != [] {
      var last, init := recs[|recs| - 1], recs[..|recs| - 1];
      assert recs == init + [last];
      GrowingInit(recs);
      hide Growing;
      LastCompletedIs(init);
      if last.status != Completed && LastCompleted(init).Some? {
        var y :| y in init && y.status == Completed && y.name == LastCompleted(init).value
                 && forall z | z in init && z.status == Completed :: z.id <= y.id;
        assert y in recs;
      }
    }
  }

  lemma GrowingInit(recs: seq<StepRec>)
    requires recs != [] && Growing(recs)
    ensures Growing(recs[..|recs| - 1]) && forall z | z in recs[..|recs| - 1] :: z.id < recs[|recs| - 1].id
  {
    var init := recs[..|recs| - 1];
    forall z | z in init
      ensures z.id < recs[|recs| - 1].id
    {
      var k :| 0 <= k < |init| && init[k] == z;
      assert recs[k] == z;
    }
  }

  // ------------------------------------------------------------------ rollback

  /** Exactly the logged steps were handed to compensation, each with its outcome. */
  ghost predicate AllUndone(u: State, v: State, e: Env, log: seq<string>, workflow: string) {
    && Loggable(e, log) && Framed(u, v, e, log)
    && forall x | x in log ::
         && Accounted(u, v, e.recs[x], e.steps, workflow)
         && e.recs[x].id in v.steps && v.steps[e.recs[x].id] == Outcome(e.recs[x], e.steps)
  }

  lemma TreeUndone(u: State, t: Tree, e: Env, failed: string, def: Definition)
    requires Fits(t, e) && failed in t.depth && StopAbove(t, e, failed) && Snapshot(u, e) && CountersFresh(u)
             && e.steps == def.steps
    ensures AllUndone(u, RollBack(u, e.recs, def, failed, e.stop).0, e, RollbackLog(t, e, failed), def.id)
    ensures RollBack(u, e.recs, def, failed, e.stop).1
    ensures forall x :: x in RollbackLog(t, e, failed) <==> Eligible(e, x) && (OnPath(t, e, failed, x)
                                                                               || BesidePath(t, e, failed, x))
  {
    assert e == Env(def.steps, e.stop, e.recs);
    hide OnPath, BesidePath, StopAbove, WalkChain, RollbackLog, Framed, Accounted, Outcome, RollbackAll, Valid,
         Eligible, CountersFresh;
    RollbackOnTree(u, t, e, failed, def.id);
    WalkIsRollbackLog(t, e, failed);
  }

  lemma WellCounters(u: State)
    requires WellFormed(u)
    ensures CountersFresh(u)
  {
    hide StepsFiled, AllMade, NoHumans, ItemFiled;
  }

  /** The failed step, its joins told, and its pending siblings skipped. */
  ghost predicate Prepared(s: State, m: State, u: State, i: int, rec: StepRec, skipped: set<int>) {
    && rec.id in s.steps
    && (var failed := s.steps[rec.id].(status := Failed, retryCount := s.steps[rec.id].retryCount + 1);
        JoinsBorn(s.(steps := s.steps[rec.id := failed]), m, i))
    && u == m.(steps := u.steps) && u.steps.Keys == m.steps.Keys
    && forall x | x in m.steps :: u.steps[x] == if x in skipped then m.steps[x].(status := Skipped) else m.steps[x]
  }

  /** A failure that may not be retried, on a tree: the step has failed, its siblings in the fork are
      skipped, exactly the completed and failed steps on the path to the nearest savepoint and beside
      it are undone, each as its definition says, and the instance has failed. */
  lemma FinalFailureIsExact(s: State, i: int, rec: StepRec, d: StepDef, def: Definition, o: Choice, t: Tree)
    returns (u: State, v: State, log: seq<string>)
    requires WellFormed(s) && Runs(s, i, def) && InHand(s, i, rec) && rec.retryCount >= 0 && !MayRetry(rec, d)
             && !def.dlqEnabled
    requires Mark(s, i, rec, d, def.steps, o, Failed, true, false).1
    requires Valid(t) && t.steps == def.steps && rec.name in t.depth && NearestSavePoint(t, rec.name, o.stop)
    ensures var m := Mark(s, i, rec, d, def.steps, o, Failed, true, false).0;
            Prepared(s, m, u, i, rec, Siblings(m, i, rec.name, def.steps, o.order))
    ensures var e := Env(def.steps, o.stop, SnapshotOf(u, i, rec));
            && Fits(t, e) && AllUndone(u, v, e, log, def.id)
            && forall x :: x in log <==> Eligible(e, x) && (OnPath(t, e, rec.name, x) || BesidePath(t, e, rec.name, x))
    ensures i in v.instances
    ensures HandleFailure(s, i, rec, d, def, o)
            == v.(instances := v.instances[i := v.instances[i].(status := WfFailed)])
  {
    hide WellFormed, Mark, Siblings, SkipAll, JoinsBorn, Valid, NearestSavePoint, AllUndone, OnPath, BesidePath,
         RollBack, SnapshotOf;
    hide Unused, Tame, Eligible, Prepared, HandleFailure, RollbackLog, StopAbove, Snapshot, CountersFresh, MayRetry;
    var m := Mark(s, i, rec, d, def.steps, o, Failed, true, false).0;
    var skipped := Siblings(m, i, rec.name, def.steps, o.order);
    u := SkipAll(m, skipped);
    FailedMark(s, i, rec, d, def, o);
    PreparedNow(s, m, i, rec, skipped);
    var e := Env(def.steps, o.stop, SnapshotOf(u, i, rec));
    SnapshotReady(u, i, rec, e);
    NearestStops(t, e, rec.name);
    WellCounters(u);
    TreeUndone(u, t, e, rec.name, def);
    v := RollBack(u, e.recs, def, rec.name, o.stop).0;
    log := RollbackLog(t, e, rec.name);
    UndoneInstances(u, v, e, log, def.id);
    FailureIs(s, i, rec, d, def, o);
  }

  /** The state in which the siblings are skipped, and the one after. */
  lemma FailedMark(s: State, i: int, rec: StepRec, d: StepDef, def: Definition, o: Choice)
    requires WellFormed(s) && Runs(s, i, def) && InHand(s, i, rec)
    ensures var m := Mark(s, i, rec, d, def.steps, o, Failed, true, false).0;
            var u := SkipAll(m, Siblings(m, i, rec.name, def.steps, o.order));
            && JoinsBorn(UpdateStep(s, rec.id, Failed), m, i) && WellFormed(u) && i in u.instances
            && rec.id in s.steps && rec.id in u.steps && SameStep(u.steps[rec.id], rec) && rec.instance == i
  {
    hide WellFormed, Tame, Mark, Siblings, SkipAll, JoinsBorn, UpdateStep, Unused;
    WellUnused(s);
    MarkBorn(s, i, rec, d, def.steps, o, Failed, true, false);
    MarkTame(s, i, rec, d, def, o, Failed, true, false);
    var m := Mark(s, i, rec, d, def.steps, o, Failed, true, false).0;
    TameWell(s, m, i, def.steps);
    var ids := Siblings(m, i, rec.name, def.steps, o.order);
    SiblingsOwn(m, i, rec.name, def.steps, o.order);
    SkipTame(m, ids, i, def.steps);
    var u := SkipAll(m, ids);
    TameTrans(s, m, u, i, def.steps);
    TameSame(s, u, i, def.steps, rec.id);
    TameWell(s, u, i, def.steps);
    RunsOn(s, u, i, def);
  }

  lemma PreparedNow(s: State, m: State, i: int, rec: StepRec, skipped: set<int>)
    requires rec.id in s.steps && JoinsBorn(UpdateStep(s, rec.id, Failed), m, i)
    ensures Prepared(s, m, SkipAll(m, skipped), i, rec, skipped)
  {
    hide JoinsBorn, UpdateStep;
    FailedRecord(s, rec);
    SkipAllIs(m, skipped);
    hide SkipAll;
  }

  lemma FailedRecord(s: State, rec: StepRec)
    requires rec.id in s.steps
    ensures var was := s.steps[rec.id];
            UpdateStep(s, rec.id, Failed) ==
            s.(steps := s.steps[rec.id := was.(status := Failed, retryCount := was.retryCount + 1)])
  {
  }

  lemma SkipAllIs(m: State, skipped: set<int>)
    ensures var u := SkipAll(m, skipped);
            && u == m.(steps := u.steps) && u.steps.Keys == m.steps.Keys
            && forall x | x in m.steps ::
                 u.steps[x] == if x in skipped then m.steps[x].(status := Skipped) else m.steps[x]
  {
  }

  lemma SnapshotReady(u: State, i: int, rec: StepRec, e: Env)
    requires WellFormed(u) && rec.id in u.steps && SameStep(u.steps[rec.id], rec) && rec.instance == i
    requires e.recs == SnapshotOf(u, i, rec)
    ensures Snapshot(u, e)
  {
    FailedIsNamed(u, i, rec);
    hide WellFormed, SnapshotOf, ByName, StepsOf;
    ByNameIsSnapshot(u, i, e);
  }

  lemma NearestStops(t: Tree, e: Env, name: string)
    requires Valid(t) && e.steps == t.steps && name in t.depth && NearestSavePoint(t, name, e.stop)
    ensures Fits(t, e) && StopAbove(t, e, name)
  {
    hide Valid, Under;
  }

  lemma UndoneInstances(u: State, v: State, e: Env, log: seq<string>, workflow: string)
    requires AllUndone(u, v, e, log, workflow)
    ensures v.instances == u.instances
  {
    assert Framed(u, v, e, log);
    hide AllUndone, Logged, CountersFresh;
  }

  lemma FailureIs(s: State, i: int, rec: StepRec, d: StepDef, def: Definition, o: Choice)
    requires rec.retryCount >= 0 && !MayRetry(rec, d) && !def.dlqEnabled
             && Mark(s, i, rec, d, def.steps, o, Failed, true, false).1
    ensures var m := Mark(s, i, rec, d, def.steps, o, Failed, true, false).0;
            var u := SkipAll(m, Siblings(m, i, rec.name, def.steps, o.order));
            HandleFailure(s, i, rec, d, def, o) ==
            SetInstance(RollBack(u, SnapshotOf(u, i, rec), def, rec.name, o.stop).0, i, WfFailed)
  {
    hide Mark, Siblings, SkipAll, RollBack, SnapshotOf, SetInstance, ToDlq;
  }

  /** A cancel request, on a tree: the open steps are skipped; if a step is completed, exactly the
      completed and failed steps on the path from the youngest completed one to the root, and beside
      it, are undone; the instance is cancelled and the request forgotten. */
  lemma CancelIsExact(s: State, i: int, def: Definition, t: Tree) returns (u: State, v: State, log: seq<string>)
    requires WellFormed(s) && Runs(s, i, def) && Valid(t) && t.steps == def.steps
    requires forall x | x in IdsOf(s, i) && x in s.steps :: s.steps[x].name in t.depth
    ensures OpenSkipped(s, u.(instances := s.instances), i) && i in v.instances
    ensures var e := Env(def.steps, ROOT_STEP, ByName(StepsOf(u, i)));
            if exists x | x in IdsOf(u, i) :: x in u.steps && u.steps[x].status == Completed
            then exists x | x in IdsOf(u, i) ::
              && x in u.steps && u.steps[x].status == Completed
              && (forall y | y in IdsOf(u, i) && y in u.steps && u.steps[y].status == Completed :: y <= x)
              && Fits(t, e) && u.steps[x].name in t.depth && AllUndone(u, v, e, log, def.id)
              && (forall z :: z in log <==> Eligible(e, z) && (OnPath(t, e, u.steps[x].name, z)
                                                               || BesidePath(t, e, u.steps[x].name, z)))
            else v == u && log == []
    ensures HandleCancellation(s, i, def, CancelRun) ==
            v.(instances := v.instances[i := v.instances[i].(status := WfCancelled)], cancels := v.cancels - {i})
  {
    hide WellFormed, Valid, AllUndone, OnPath, BesidePath, RollBack, Eligible, SkipAll, ActiveIds, StepsOf, ByName,
         Tame;
    hide RollbackLog, StopAbove, Snapshot, CountersFresh, LastCompleted, Records, IdsOf, HandleCancellation;
    u := SetInstance(SkipAll(s, ActiveIds(s, i)), i, WfCancelling);
    CancellingNow(s, i, def);
    RecordsAre(u, i);
    var recs := StepsOf(u, i);
    YoungestCompleted(u, i, recs);
    var e := Env(def.steps, ROOT_STEP, ByName(recs));
    CancelForms(s, i, def);
    if LastCompleted(recs).None? {
      v, log := u, [];
    } else {
      var from := LastCompleted(recs).value;
      var x :| x in IdsOf(u, i) && x in u.steps && u.steps[x].status == Completed && u.steps[x].name == from
               && forall y | y in IdsOf(u, i) && y in u.steps && u.steps[y].status == Completed :: y <= x;
      ByNameIsSnapshot(u, i, e);
      RootStops(t, e, from);
      WellCounters(u);
      TreeUndone(u, t, e, from, def);
      v := RollBack(u, e.recs, def, from, ROOT_STEP).0;
      log := RollbackLog(t, e, from);
      UndoneInstances(u, v, e, log, def.id);
    }
  }

  lemma CancellingNow(s: State, i: int, def: Definition)
    requires WellFormed(s) && Runs(s, i, def)
    ensures var u := SetInstance(SkipAll(s, ActiveIds(s, i)), i, WfCancelling);
            && WellFormed(u) && i in u.instances && OpenSkipped(s, u.(instances := s.instances), i)
            && IdsOf(u, i) == IdsOf(s, i)
            && forall x | x in IdsOf(u, i) && x in u.steps :: x in s.steps && u.steps[x].name == s.steps[x].name
  {
    var m := SkipAll(s, ActiveIds(s, i));
    var u := SetInstance(m, i, WfCancelling);
    SkippedIs(s, i);
    ActiveOwn(s, i);
    hide WellFormed, SkipAll, ActiveIds, Tame;
    SkipTame(s, ActiveIds(s, i), i, def.steps);
    TameWell(s, m, i, def.steps);
    SetInstanceWell(m, i, WfCancelling);
    SetInstanceShape(m, i, WfCancelling);
    hide SetInstance, Local;
    SameIds(s, u, i);
    hide IdsOf;
    assert u.(instances := s.instances) == m;
  }

  lemma YoungestCompleted(u: State, i: int, recs: seq<StepRec>)
    requires Records(u, i, recs)
    ensures LastCompleted(recs).None? <==>
            !exists x | x in IdsOf(u, i) :: x in u.steps && u.steps[x].status == Completed
    ensures LastCompleted(recs).Some? ==>
              exists x | x in IdsOf(u, i) ::
                && x in u.steps && u.steps[x].status == Completed && u.steps[x].name == LastCompleted(recs).value
                && forall y | y in IdsOf(u, i) && y in u.steps && u.steps[y].status == Completed :: y <= x
  {
    hide LastCompleted, IdsOf;
    RecordsGrow(u, i, recs);
    LastCompletedIs(recs);
    if LastCompleted(recs).Some? {
      var y :| y in recs && y.status == Completed && y.name == LastCompleted(recs).value
               && forall z | z in recs && z.status == Completed :: z.id <= y.id;
      var x: int := y.id;
      assert x in IdsOf(u, i) && x in u.steps && u.steps[x] == y;
      forall z | z in IdsOf(u, i) && z in u.steps && u.steps[z].status == Completed
        ensures z <= x
      {
        assert u.steps[z] in recs && u.steps[z].id == z;
      }
    }
  }

  lemma CancelForms(s: State, i: int, def: Definition)
    requires i in s.instances
    ensures var u := SetInstance(SkipAll(s, ActiveIds(s, i)), i, WfCancelling);
            var recs := StepsOf(u, i);
            var (v, ok) := if LastCompleted(recs).None? then (u, true)
                           else RollBack(u, ByName(recs), def, LastCompleted(recs).value, ROOT_STEP);
            HandleCancellation(s, i, def, CancelRun) ==
            ForgetCancel(SetInstance(v, i, if ok then WfCancelled else WfFailed), i)
  {
    hide SkipAll, ActiveIds, StepsOf, ByName, LastCompleted, RollBack, SetInstance;
  }

  lemma RootStops(t: Tree, e: Env, name: string)
    requires Valid(t) && e.steps == t.steps && name in t.depth && e.stop == ROOT_STEP
    ensures Fits(t, e) && StopAbove(t, e, name)
  {
  }
}
