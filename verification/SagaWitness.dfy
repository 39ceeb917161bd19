/** Runs of one linear workflow from a new store, as far as wanted and then cancelled. */
module SagaWitness {
  import opened Definitions
  import opened Trees
  import opened Store
  import opened Queue
  import opened Rollback
  import opened RollbackEngine
  import opened Engine
  import F = EngineFrames
  import opened EngineTame
  import opened EngineRuns
  import opened SagaChains
  import opened Sagas
  import opened SagaSteps
  import opened SagaCancel
  import opened SagaRuns
  import opened SagaBuilds

  // ------------------------------------------------------------------ runs

  /** Some run leads from one store to another. */
  ghost predicate Leads(s: State, r: State, aging: Aging) {
    exists states, ops :: Run(states, ops, aging) && states[0] == s && states[|ops|] == r
  }

  lemma LeadsNowhere(s: State, aging: Aging)
    ensures Leads(s, s, aging)
  {
    assert Run([s], [], aging);
  }

  lemma LeadsOn(s: State, m: State, op: Op, r: State, aging: Aging)
    requires Leads(s, m, aging) && Next(m, op, aging, r)
    ensures Leads(s, r, aging)
  {
    hide Next;
    var states, ops :| Run(states, ops, aging) && states[0] == s && states[|ops|] == m;
    var states', ops' := states + [r], ops + [op];
    forall j | 0 <= j < |ops'|
      ensures Next(states'[j], ops'[j], aging, states'[j + 1])
    {
      assert j < |ops| ==> Next(states[j], ops[j], aging, states[j + 1]);
    }
    assert Run(states', ops', aging);
  }

  lemma {:induction false} Listing(names: set<string>) returns (order: seq<string>)
    ensures Distinct(order) && Elements(order) == names
  {
    if names == {} {
      order := [];
    } else {
      var n := AnyOf(names);
      var rest := Listing(names - {n});
      order := rest + [n];
      assert n !in Elements(rest);
      assert Elements(order) == Elements(rest) + {n};
    }
  }

  // ------------------------------------------------------------------ one step at a time

  /** Instance i is a running saga of n steps, and its item is the only one. */
  ghost predicate Alone(s: State, i: int, def: Definition, chain: seq<string>, n: nat, q: int) {
    && F.WellFormed(s) && Saga(s, i, def, chain) && s.instances[i].status == WfRunning && i !in s.cancels
    && |IdsOf(s, i)| == n && s.queue.Keys == {q} && !s.queue[q].attempted && s.queue[q].priority == PRIORITY_NORMAL
  }

  lemma EffectiveNotNegative(item: QueueItem, aging: Aging, now: real)
    requires item.priority >= 0 && Due(item, now)
    ensures Effective(item, aging, now) >= 0
  {
    if Ages(aging) {
      BonusNotNegative(item, aging, now);
    }
  }

  lemma OnlyOnePicked(items: Items, aging: Aging, now: real, q: int)
    requires items.Keys == {q} && items[q].priority >= 0 && Due(items[q], now)
    ensures Picked(items, aging, now, q)
  {
    EffectiveNotNegative(items[q], aging, now);
    hide Effective;
  }

  /** The clock moves on until the item is due. */
  function Later(s: State, q: int): real
    requires q in s.queue
  {
    if s.queue[q].scheduledAt <= s.clock then 0.0 else s.queue[q].scheduledAt - s.clock
  }

  function Wait(s: State, q: int): State
    requires q in s.queue
  {
    s.(clock := s.clock + Later(s, q))
  }

  lemma Waited(s: State, i: int, def: Definition, chain: seq<string>, n: nat, q: int, aging: Aging)
    requires F.WellFormed(s) && Saga(s, i, def, chain) && |IdsOf(s, i)| == n
    requires s.queue.Keys == {q} && !s.queue[q].attempted && s.queue[q].priority == PRIORITY_NORMAL
    ensures var t := Wait(s, q);
            Next(s, Op.TickOp(Later(s, q)), aging, t) && F.WellFormed(t) && Saga(t, i, def, chain)
              && Picked(t.queue, aging, t.clock, q)
  {
    hide F.WellFormed, Saga, Picked, SameView;
    var t := Wait(s, q);
    OnlyOnePicked(t.queue, aging, t.clock, q);
    SagaFacts(s, i, def, chain);
    TickSame(s, t, i);
    SagaSame(s, t, i, def, chain);
    QuietWell(s, t);
  }

  lemma TickSame(s: State, t: State, i: int)
    requires i in s.instances && t == s.(clock := t.clock)
    ensures SameView(s, t, i)
  {
    hide SameView;
    QuietSame(s, t, i);
  }

  /** The item of a running saga is for its last step, which is a task or a savepoint. */
  lemma OwnItem(s: State, i: int, def: Definition, chain: seq<string>, q: int)
    requires F.WellFormed(s) && Saga(s, i, def, chain) && s.instances[i].status == WfRunning && s.queue.Keys == {q}
    ensures s.queue[q].instance == i && AtStep(s, i, q, |IdsOf(s, i)| - 1) && IdsOf(s, i) != []
    ensures IdsOf(s, i)[|IdsOf(s, i)| - 1] in s.steps
  {
    var ids := IdsOf(s, i);
    RunningItems(s, i, def, chain);
    hide Saga, F.WellFormed;
    var last := ids[|ids| - 1];
    var p :| ItemsFor(s, last) == {p};
    assert p in ItemsFor(s, last);
    ItemOwner(s, p, last);
    assert p in s.queue.Keys;
    FrozenOwn(s, i, last);
  }

  lemma RunningItems(s: State, i: int, def: Definition, chain: seq<string>)
    requires Saga(s, i, def, chain) && s.instances[i].status == WfRunning
    ensures IdsOf(s, i) != [] && Waiting1(s, IdsOf(s, i)[|IdsOf(s, i)| - 1])
  {
    hide LinearFlow, IdsOf, Protected;
  }

  lemma FrozenOwn(s: State, i: int, id: int)
    requires F.WellFormed(s) && id in IdsOf(s, i)
    ensures id in s.steps && s.steps[id].instance == i
  {
    F.FrozenAreOwn(s, i);
  }

  /** The outside choices of a worker that knows every handler and never fails. */
  lemma GoodChoice(def: Definition, name: string) returns (o: Choice)
    requires name in def.steps
    ensures o.success && def.steps[name].handler in o.handlers
    ensures Enumerates(o.order, def.steps) && StopsRight(def, name, o.stop)
  {
    var order := Listing(def.steps.Keys);
    var stop := SomeStop(def.steps, name);
    o := Choice({def.steps[name].handler}, 0.0, true, true, order, stop);
  }

  /** What a good choice makes of the item of a running saga. */
  lemma GoodDispatch(s: State, i: int, rec: StepRec, def: Definition, q: int, o: Choice)
    requires NoHumans(s) && Runs(s, i, def) && Defined(s, i, rec.name) && !Finished(rec.status)
             && rec.status != Compensation
    requires def.steps[rec.name].kind == Task || def.steps[rec.name].kind == SavePoint
    requires o.success && def.steps[rec.name].handler in o.handlers
    ensures var d := def.steps[rec.name];
            Dispatch(s, q, i, rec, o) ==
            Remove(if i in s.cancels then HandleCancellation(s, i, def, s.cancels[i])
                   else HandleSuccess(UpdateStep(s, rec.id, Running), i, rec, d, def, true, o), q)
  {
    hide NoHumans, HandBack, ExecuteCompensation, HandleSuccess, HandleFailure, UpdateStep, Remove, HandleCancellation;
  }

  /** Executing the only item, due now. */
  lemma GoodMove(t: State, i: int, def: Definition, chain: seq<string>, q: int, aging: Aging) returns (o: Choice)
    requires F.WellFormed(t) && Saga(t, i, def, chain) && t.instances[i].status == WfRunning
    requires t.queue.Keys == {q} && Picked(t.queue, aging, t.clock, q)
    ensures NoHumans(t) && Next(t, NextOp(q, o), aging, Execute(t, q, o)) && t.queue[q].instance == i
    ensures var ids, c := IdsOf(t, i), t.(queue := Claim(t.queue, q));
            && ids != [] && ids[|ids| - 1] in t.steps && t.steps[ids[|ids| - 1]].name in def.steps
            && Saga(c, i, def, chain) && AtStep(c, i, q, |ids| - 1) && IdsOf(c, i) == ids
            && var rec := t.steps[ids[|ids| - 1]];
               Execute(t, q, o) ==
               Remove(if i in t.cancels then HandleCancellation(c, i, def, t.cancels[i])
                      else HandleSuccess(UpdateStep(c, rec.id, Running), i, rec, def.steps[rec.name], def, true, o), q)
  {
    hide F.WellFormed, Saga, Picked, NoHumans, Dispatch, HandleSuccess, HandleCancellation, UpdateStep, Remove,
         StopsRight, Enumerates, LinearFlow;
    OwnItem(t, i, def, chain, q);
    Found(t, q);
    var ids := IdsOf(t, i);
    var k := |ids| - 1;
    var rec := t.steps[ids[k]];
    StepFacts(t, i, def, chain, q, k);
    var c := t.(queue := Claim(t.queue, q));
    ClaimSaga(t, i, def, chain, q, k);
    ClaimedIds(t, i, q);
    o := GoodChoice(def, rec.name);
    AtStepItem(t, i, q, k);
    GoodDispatch(c, i, rec, def, q, o);
  }

  lemma AtStepItem(t: State, i: int, q: int, k: nat)
    requires AtStep(t, i, q, k)
    ensures t.queue[q].step == Some(IdsOf(t, i)[k]) && IdsOf(t, i)[k] in IdsOf(t, i)
  {
  }

  /** The success of one step leads to the next. */
  lemma Proceeds(s: State, t: State, i: int, def: Definition, chain: seq<string>, n: nat, q: int, aging: Aging)
    returns (r: State, p: int)
    requires Alone(t, i, def, chain, n, q) && Picked(t.queue, aging, t.clock, q) && n < |chain| && Leads(s, t, aging)
    ensures Alone(r, i, def, chain, n + 1, p) && Leads(s, r, aging)
  {
    hide Saga, F.WellFormed, LinearFlow, Picked, Next, Leads, NoHumans, HandleSuccess, HandleCancellation, UpdateStep,
         Spawn, Ran, Execute,
         AtStep;
    SagaFacts(t, i, def, chain);
    var o := GoodMove(t, i, def, chain, q, aging);
    r, p := Execute(t, q, o), t.nextQueue;
    LeadsOn(s, t, NextOp(q, o), r, aging);
    NextWell(t, NextOp(q, o), aging, r);
    var c := t.(queue := Claim(t.queue, q));
    SuccessSaga(c, i, def, chain, q, n - 1, o);
    var rec := t.steps[IdsOf(t, i)[n - 1]];
    QueuedStep(c, i, def, chain, q, n - 1);
    SuccessIs(c, i, rec, def, chain, n - 1, o);
    QueueFresh(t, q);
    SpawnShape(c, i, rec.id, q, chain[n], def.steps[chain[n]]);
  }

  lemma QueueFresh(t: State, q: int)
    requires F.WellFormed(t) && q in t.queue
    ensures q < t.nextQueue
  {
  }

  lemma SpawnShape(c: State, i: int, id: int, q: int, name: string, d: StepDef)
    requires c.queue.Keys == {q} && q < c.nextQueue && i in c.instances
    ensures var r := Remove(Spawn(Ran(c, id, Completed), i, name, d), q);
            && r.queue.Keys == {c.nextQueue} && !r.queue[c.nextQueue].attempted
            && r.queue[c.nextQueue].priority == PRIORITY_NORMAL
            && r.instances == c.instances && r.cancels == c.cancels && |IdsOf(r, i)| == |IdsOf(c, i)| + 1
  {
  }

  /** Every linear workflow can be run as far as wanted. */
  lemma {:induction false} RunsThrough(def: Definition, chain: seq<string>, n: nat, aging: Aging)
    returns (r: State, q: int)
    requires LinearFlow(def, chain) && Acceptable(def) && 0 < n <= |chain|
    ensures Leads(NewStore(map[def.id := def], 0.0), r, aging)
    ensures Alone(r, 1, def, chain, n, q) && Picked(r.queue, aging, r.clock, q)
  {
    hide LinearFlow, Acceptable, Leads, Alone, Picked, NewStore;
    var s := NewStore(map[def.id := def], 0.0);
    if n == 1 {
      r, q := Begins(def, chain, aging);
    } else {
      var t, p := RunsThrough(def, chain, n - 1, aging);
      r, q := Proceeds(s, t, 1, def, chain, n - 1, p, aging);
    }
    r := DueNow(s, r, 1, def, chain, n, q, aging);
  }

  lemma DueNow(s: State, m: State, i: int, def: Definition, chain: seq<string>, n: nat, q: int, aging: Aging)
    returns (r: State)
    requires Alone(m, i, def, chain, n, q) && Leads(s, m, aging)
    ensures Alone(r, i, def, chain, n, q) && Leads(s, r, aging) && Picked(r.queue, aging, r.clock, q)
  {
    hide Saga, F.WellFormed, Picked, Next, Leads;
    r := Wait(m, q);
    Waited(m, i, def, chain, n, q, aging);
    LeadsOn(s, m, Op.TickOp(Later(m, q)), r, aging);
  }

  lemma Begins(def: Definition, chain: seq<string>, aging: Aging) returns (r: State, q: int)
    requires LinearFlow(def, chain) && Acceptable(def)
    ensures Leads(NewStore(map[def.id := def], 0.0), r, aging) && Alone(r, 1, def, chain, 1, q)
  {
    hide LinearFlow, Acceptable, Leads, F.WellFormed, Saga, Start, NewStore, AllSagas;
    var s := NewStore(map[def.id := def], 0.0);
    NewStoreIs(def, chain);
    NewStoreSagas(map[def.id := def], 0.0, map[def.id := chain]);
    r, q := Start(s, def.id, true), 1;
    LeadsNowhere(s, aging);
    Starts(s, def.id, aging);
    hide Next;
    LeadsOn(s, s, StartOp(def.id, true), r, aging);
    NextWell(s, StartOp(def.id, true), aging, r);
    SagaBegins(s, def.id, chain);
    StartThere(def);
    StartIs(s, def.id);
    FirstItem(s, def.id, def.start, def.steps[def.start]);
  }

  lemma NewStoreIs(def: Definition, chain: seq<string>)
    ensures var s := NewStore(map[def.id := def], 0.0);
            && s.definitions == map[def.id := def] && s.nextInstance == 1 && s.nextQueue == 1 && s.queue == map[]
            && s.cancels == map[]
            && IdsOf(s, 1) == [] && def.id in s.definitions && s.definitions[def.id] == def
    ensures LinearFlow(def, chain) ==> forall w | w in map[def.id := def] :: w == def.id
  {
    hide LinearFlow;
  }

  lemma Starts(s: State, w: string, aging: Aging)
    requires w in s.definitions && Acceptable(s.definitions[w])
    ensures Next(s, StartOp(w, true), aging, Start(s, w, true))
  {
    hide Acceptable, Start;
  }

  lemma FirstItem(s: State, w: string, name: string, d: StepDef)
    requires s.nextInstance == 1 && s.nextQueue == 1 && s.queue == map[] && IdsOf(s, 1) == []
    ensures var r := Spawn(WithInstance(s, w), s.nextInstance, name, d);
            && r.queue.Keys == {1} && !r.queue[1].attempted && r.queue[1].priority == PRIORITY_NORMAL
            && |IdsOf(r, 1)| == 1 && 1 in r.instances && r.instances[1].status == WfRunning && r.cancels == s.cancels
  {
  }

  lemma StartThere(def: Definition)
    requires Acceptable(def)
    ensures def.start in def.steps && def.start != ""
  {
  }

  // ------------------------------------------------------------------ cancelled behind a savepoint

  lemma {:induction false} RollbackKeepsIds(s: State, e: Env, log: seq<string>, workflow: string)
    requires Loggable(e, log)
    ensures RollbackAll(s, e, log, workflow).byInstance == s.byInstance
            && RollbackAll(s, e, log, workflow).instances == s.instances
  {
    if log != [] {
      var init := log[..|log| - 1];
      RollbackKeepsIds(s, e, init, workflow);
      StepKeepsIds(RollbackAll(s, e, init, workflow), e.recs[log[|log| - 1]], e.steps, workflow);
      hide RollbackStep;
    }
  }

  lemma StepKeepsIds(s: State, rec: StepRec, steps: Steps, workflow: string)
    requires rec.name in steps
    ensures RollbackStep(s, rec, steps, workflow).byInstance == s.byInstance
    ensures RollbackStep(s, rec, steps, workflow).instances == s.instances
  {
    hide Judge, CompensationDelay, UpdateStep, UpdateStepCompensationRetry;
    match Judge(rec, steps)
    case Undone => UpdateKeepsIds(s, rec.id, RolledBack);
    case Exhausted => UpdateKeepsIds(s, rec.id, Failed);
    case Queued(_) => RetryKeepsIds(s, rec.id, rec.compRetries + 1);
  }

  lemma UpdateKeepsIds(s: State, id: int, status: StepStatus)
    ensures UpdateStep(s, id, status).byInstance == s.byInstance && UpdateStep(s, id, status).instances == s.instances
  {
  }

  lemma RetryKeepsIds(s: State, id: int, count: int)
    ensures UpdateStepCompensationRetry(s, id, count, Compensation).byInstance == s.byInstance
    ensures UpdateStepCompensationRetry(s, id, count, Compensation).instances == s.instances
  {
  }

  /** A cancellation creates no step, and the instance does not end aborted. */
  lemma CancelShape(s: State, i: int, def: Definition)
    requires i in s.instances
    ensures var r := HandleCancellation(s, i, def, CancelRun);
            IdsOf(r, i) == IdsOf(s, i) && i in r.instances && r.instances[i].status != WfAborted
  {
    var s2 := SetInstance(SkipAll(s, ActiveIds(s, i)), i, WfCancelling);
    var recs := StepsOf(s2, i);
    hide ActiveIds, StepsOf, ByName, RollbackAll, WalkChain;
    assert s2.byInstance == s.byInstance && i in s2.instances;
    if LastCompleted(recs).Some? {
      var e := Env(def.steps, ROOT_STEP, ByName(recs));
      var from := LastCompleted(recs).value;
      var w := WalkChain(e, from, false, Walk({}, [], true));
      WalkChainSound(e, from, false, Walk({}, [], true));
      RollbackKeepsIds(s2, e, w.log, def.id);
    }
  }

  /** A savepoint does not protect against a cancel request: in every accepted linear workflow
      some run completes a savepoint and all steps before it, then a cancel request leaves none
      of them completed. */
  lemma CancelUndoesProtected(def: Definition, chain: seq<string>, b: nat, aging: Aging) returns (r: State)
    requires LinearFlow(def, chain) && Acceptable(def) && b + 1 < |chain|
    requires chain[b] in def.steps && def.steps[chain[b]].kind == SavePoint
    ensures Leads(NewStore(map[def.id := def], 0.0), r, aging)
    ensures 1 in r.instances && Halted(r, 1, def, chain) && r.instances[1].status != WfAborted
    ensures |IdsOf(r, 1)| == b + 2 && (forall k | 0 <= k < |chain| :: chain[k] in def.steps)
            && Protected(def.steps, chain, b + 2) > b
    ensures forall k | 0 <= k <= b :: IdsOf(r, 1)[k] in r.steps && r.steps[IdsOf(r, 1)[k]].status != Completed
  {
    InsideFlow(def, chain, b);
    hide LinearFlow, Acceptable, Leads, Picked, NewStore, F.WellFormed, Saga, Next, Protected, NoHumans, Halted;
    var s := NewStore(map[def.id := def], 0.0);
    var m, q := RunsThrough(def, chain, b + 2, aging);
    hide RollBack, Cancel;
    Requested(m, def, chain, aging);
    var t := Cancel(m, 1, CancelRun);
    LeadsOn(s, m, CancelOp(1, CancelRun), t, aging);
    NextWell(m, CancelOp(1, CancelRun), aging, t);
    r := Halts(s, t, def, chain, b + 2, q, aging);
    NoneCompleted(r, 1, def, chain);
  }

  lemma InsideFlow(def: Definition, chain: seq<string>, b: nat)
    requires LinearFlow(def, chain) && b + 1 < |chain| && chain[b] in def.steps && def.steps[chain[b]].kind == SavePoint
    ensures (forall k | 0 <= k < |chain| :: chain[k] in def.steps) && Protected(def.steps, chain, b + 2) > b
  {
  }

  /** The cancel request is served. */
  lemma Halts(s: State, t: State, def: Definition, chain: seq<string>, n: nat, q: int, aging: Aging) returns (r: State)
    requires Leads(s, t, aging) && F.WellFormed(t) && Saga(t, 1, def, chain) && t.instances[1].status == WfRunning
    requires |IdsOf(t, 1)| == n && t.queue.Keys == {q} && Picked(t.queue, aging, t.clock, q)
    requires 1 in t.cancels && t.cancels[1] == CancelRun
    ensures Leads(s, r, aging) && Halted(r, 1, def, chain) && 1 in r.instances && r.instances[1].status != WfAborted
    ensures |IdsOf(r, 1)| == n
  {
    hide LinearFlow, Leads, Picked, F.WellFormed, Saga, Next, NoHumans, Halted;
    hide HandleCancellation, HandleSuccess, UpdateStep, Dispatch;
    SagaFacts(t, 1, def, chain);
    var o := GoodMove(t, 1, def, chain, q, aging);
    r := Execute(t, q, o);
    LeadsOn(s, t, NextOp(q, o), r, aging);
    hide Execute;
    var c := t.(queue := Claim(t.queue, q));
    CancelledHalts(c, 1, def, chain, q, n - 1, CancelRun);
    CancelShape(c, 1, def);
  }

  lemma Requested(m: State, def: Definition, chain: seq<string>, aging: Aging)
    requires Saga(m, 1, def, chain) && m.instances[1].status == WfRunning && 1 !in m.cancels
    ensures var t := Cancel(m, 1, CancelRun);
            && Next(m, CancelOp(1, CancelRun), aging, t) && Saga(t, 1, def, chain) && IdsOf(t, 1) == IdsOf(m, 1)
            && t == m.(cancels := t.cancels) && 1 in t.cancels && t.cancels[1] == CancelRun
  {
    SagaFacts(m, 1, def, chain);
    hide Saga;
    CancelSame(m, 1, CancelRun, def, chain);
  }

  lemma NoneCompleted(r: State, i: int, def: Definition, chain: seq<string>)
    requires Halted(r, i, def, chain) && r.instances[i].status != WfAborted
    ensures forall k | 0 <= k < |IdsOf(r, i)| ::
              IdsOf(r, i)[k] in r.steps && r.steps[IdsOf(r, i)[k]].status != Completed
  {
    hide LinearFlow, Halted, IdsOf;
    HaltedFacts(r, i, def, chain);
    var ids := IdsOf(r, i);
    forall k | 0 <= k < |ids|
      ensures ids[k] in r.steps && r.steps[ids[k]].status != Completed
    {
      assert k < |ids| - 1 ==> Reverted(r, ids[k], def.steps);
    }
  }

  /** In particular for a task, a savepoint and a task, built by the builder. */
  lemma CancelExample(a: string, p: string, b: string, aging: Aging) returns (def: Definition, r: State)
    requires a != p && a != b && p != b && ValidName(a) && ValidName(p) && ValidName(b)
    ensures LinearFlow(def, [a, p, b]) && p in def.steps && def.steps[p].kind == SavePoint
    ensures Leads(NewStore(map[def.id := def], 0.0), r, aging)
    ensures 1 in r.instances && r.instances[1].status != WfAborted && |IdsOf(r, 1)| == 3
    ensures forall k | 0 <= k < 2 :: IdsOf(r, 1)[k] in r.steps && r.steps[IdsOf(r, 1)[k]].status != Completed
  {
    hide LinearFlow, Acceptable, Leads, NewStore, Halted, Protected, ValidName;
    def := GuardedFlow(a, p, b);
    LinkAt(def, [a, p, b], 1);
    r := CancelUndoesProtected(def, [a, p, b], 1, aging);
  }
}
