/** Whole runs of the engine: the dead-letter freeze, the retry bound, the compensation bound. */
module EngineRuns {
  import opened Definitions
  import opened Trees
  import opened Store
  import opened Queue
  import opened Rollback
  import opened RollbackEngine
  import opened Engine
  import opened EngineFrames
  import opened EngineTame
  import opened EngineSteps

  // ------------------------------------------------------------------ transitions

  /** The rollback of a step of a tree stops at its nearest savepoint. */
  ghost predicate StopsRight(def: Definition, name: string, stop: string) {
    forall t: Tree | Valid(t) && t.steps == def.steps && name in t.depth :: NearestSavePoint(t, name, stop)
  }

  /** The order visits every step of the definition once. */
  predicate Enumerates(order: seq<string>, steps: Steps) {
    Distinct(order) && Elements(order) == steps.Keys
  }

  /** The choices fit the definition: a complete iteration order and the right savepoint. */
  ghost predicate Permitted(s: State, q: int, o: Choice)
    requires q in s.queue
  {
    var i, step := s.queue[q].instance, s.queue[q].step;
    i in s.instances && s.instances[i].workflow in s.definitions && step.Some? && step.value in s.steps ==>
      && Enumerates(o.order, DefinitionOf(s, i).steps)
      && StopsRight(DefinitionOf(s, i), s.steps[step.value].name, o.stop)
  }

  ghost predicate Next(s: State, op: Op, aging: Aging, r: State) {
    match op
    case StartOp(w, accepted) =>
      (w in s.definitions ==> (accepted <==> Acceptable(s.definitions[w]))) && r == Start(s, w, accepted)
    case NextOp(q, o) =>
      NoHumans(s) && Picked(s.queue, aging, s.clock, q) && Permitted(s, q, o) && r == Execute(s, q, o)
    case CancelOp(i, kind) => r == Cancel(s, i, kind)
    case TickOp(elapsed) => elapsed >= 0.0 && r == s.(clock := s.clock + elapsed)
  }

  ghost predicate Run(states: seq<State>, ops: seq<Op>, aging: Aging) {
    |states| == |ops| + 1 && forall j | 0 <= j < |ops| :: Next(states[j], ops[j], aging, states[j + 1])
  }

  /** The handler invocation of a transition, if it makes one. */
  datatype Call = Call(instance: int, step: int, compensation: bool)

  function CallOf(s: State, i: int, rec: StepRec, o: Choice): Option<Call> {
    if Finished(rec.status) || !Defined(s, i, rec.name) then None
    else
      var steps := DefinitionOf(s, i).steps;
      var d := steps[rec.name];
      if Elsewhere(rec, d, steps, o) then None
      else if rec.status == Compensation then
        if d.onFailure in steps && steps[d.onFailure].handler in o.handlers then Some(Call(i, rec.id, true)) else None
      else if i !in s.cancels && d.kind == Task && d.handler in o.handlers then Some(Call(i, rec.id, false))
      else None
  }

  function Called(s: State, op: Op): Option<Call> {
    if !op.NextOp? || op.item !in s.queue then None
    else
      var i := s.queue[op.item].instance;
      if i !in s.instances || IsDlq(s, i) then None
      else
        match s.queue[op.item].step
        case Some(id) => if id in IdsOf(s, i) && id in s.steps then CallOf(s, i, s.steps[id], op.choice) else None
        case None => None
  }

  // ------------------------------------------------------------------ one execution

  /** Evolution of a step during a transition that is not a compensation attempt on it. */
  predicate Gentle(a: StepRec, b: StepRec, steps: Steps) {
    && SameStep(a, b) && a.retryCount <= b.retryCount
    && (a.status == Compensation ==> a == b)
    && (b.status != Compensation ==> b.compRetries == a.compRetries)
    && (a.status != Compensation && b.status == Compensation ==>
          b.compRetries == 0 || (b.compRetries == a.compRetries + 1 && a.compRetries < CompMax(a.name, steps)))
  }

  /** Step x is put into the queue to be executed once more. */
  ghost predicate RetryOf(s: State, r: State, x: int) {
    && x in s.steps && x in r.steps && r.steps[x].status == Failed
    && exists q :: q in r.queue && q !in s.queue && r.queue[q].step == Some(x)
  }

  /** How often a step may be executed again. */
  function RetryLimit(d: StepDef): int {
    if d.maxRetries <= 0 then 0 else if d.noIdempotent then 1 else d.maxRetries
  }

  /** The step has not been executed again as often as it may. */
  predicate Permits(rec: StepRec, steps: Steps) {
    rec.name in steps && rec.retryCount < RetryLimit(steps[rec.name])
  }

  /** What a transition that works on instance i and step id may do. */
  ghost predicate Effect(s: State, r: State, i: int, id: int, steps: Steps) {
    && WellFormed(r) && Local(s, r, i)
    && (IsDlq(r, i) ==> IsDlq(s, i) || NoItems(r, i))
    && (forall x | x in s.steps && x != id :: x in r.steps && Gentle(s.steps[x], r.steps[x], steps))
    && id in s.steps && id in r.steps && s.steps[id].retryCount <= r.steps[id].retryCount
    && (s.steps[id].status != Compensation ==> Gentle(s.steps[id], r.steps[id], steps))
    && (s.steps[id].status == Compensation && r.steps[id].status == Compensation ==>
          r.steps[id].compRetries >= s.steps[id].compRetries)
    && (forall x | RetryOf(s, r, x) :: x == id && Permits(s.steps[id],
                                                          steps) && s.steps[id].retryCount < r.steps[id].retryCount)
  }

  lemma TameEffect(s: State, r: State, i: int, id: int, steps: Steps)
    requires WellFormed(s) && id in s.steps && Tame(s, r, i, steps)
    ensures Effect(s, r, i, id, steps)
  {
    hide WellFormed;
    assert LocalSteps(s, r, i) && CalmAll(s, r, steps) && NoReruns(s, r);
    hide Local;
  }

  /** Removing the executed item from the queue does not change what was done. */
  lemma RemoveEffect(s: State, r: State, i: int, id: int, q: int, steps: Steps)
    requires WellFormed(s) && Effect(s, r, i, id, steps) && (q in r.queue ==> r.queue[q].instance == i)
    ensures Effect(s, Remove(r, q), i, id, steps)
  {
    hide WellFormed, Local, Gentle;
    var u := Remove(r, q);
    RemoveTame(r, q, i, steps);
    Chain(s, r, u, i);
    forall x | RetryOf(s, u, x)
      ensures RetryOf(s, r, x)
    {
      var k :| k in u.queue && k !in s.queue && u.queue[k].step == Some(x);
      assert k in r.queue && r.queue[k].step == Some(x);
    }
  }

  /** The effect of a tame move made after the step was marked as running. */
  lemma RunningEffect(s: State, r: State, i: int, id: int, def: Definition)
    requires WellFormed(s) && Runs(s, i, def) && id in s.steps && s.steps[id].instance == i
             && s.steps[id].status != Compensation
    requires Tame(UpdateStep(s, id, Running), r, i, def.steps)
    ensures Effect(s, r, i, id, def.steps)
  {
    hide WellFormed, Local, Gentle, Tame;
    var a := UpdateStep(s, id, Running);
    CountsNotNegative(s, id);
    RunningWell(s, i, s.steps[id], def);
    TameWell(a, r, i, def.steps);
    Chain(s, a, r, i);
    RunningParts(s, a, r, i, def.steps);
    GentleAll(s, a, r, i, id, def.steps);
    RunningRetries(s, a, r, id);
  }

  lemma RunningParts(s: State, a: State, r: State, i: int, steps: Steps)
    requires Local(s, r, i) && Tame(a, r, i, steps)
    ensures LocalSteps(s, r, i) && CalmAll(a, r, steps) && NoReruns(a, r) && (IsDlq(r, i) ==> IsDlq(a, i))
  {
    hide WellFormed, LocalSteps, CalmAll, NoReruns, LocalItems, LocalJoins;
  }

  lemma RunningRetries(s: State, a: State, r: State, id: int)
    requires a == UpdateStep(s, id, Running) && NoReruns(a, r)
    ensures forall x :: !RetryOf(s, r, x)
  {
  }

  lemma GentleAll(s: State, a: State, r: State, i: int, id: int, steps: Steps)
    requires id in s.steps && s.steps[id].status != Compensation && a == UpdateStep(s, id, Running)
    requires LocalSteps(s, r, i) && CalmAll(a, r, steps)
    ensures forall x | x in s.steps :: x in r.steps && Gentle(s.steps[x], r.steps[x], steps)
  {
    forall x | x in s.steps
      ensures x in r.steps && Gentle(s.steps[x], r.steps[x], steps)
    {
      assert x in a.steps && Calm(a.steps[x], r.steps[x], steps);
    }
  }

  lemma FrozenEffect(s: State, x: State, i: int, id: int, steps: Steps)
    requires WellFormed(s) && Effect(s, x, i, id, steps) && NoItems(x, i)
    ensures Effect(s, SetInstance(x, i, WfDLQ), i, id, steps)
  {
    hide WellFormed, Local, Gentle;
    var r := SetInstance(x, i, WfDLQ);
    SetInstanceLocal(x, i, WfDLQ);
    Chain(s, x, r, i);
    forall y | RetryOf(s, r, y)
      ensures RetryOf(s, x, y)
    {
      var k :| k in r.queue && k !in s.queue && r.queue[k].step == Some(y);
      assert k in x.queue && x.queue[k].step == Some(y);
    }
  }

  lemma RetriesPermitted(rec: StepRec, d: StepDef, steps: Steps)
    requires Retries(rec, d) && Made(rec, steps) && d == steps[rec.name]
    ensures Permits(rec, steps)
  {
  }

  lemma AgainEffect(s: State, a: State, i: int, rec: StepRec, d: StepDef, steps: Steps)
    requires WellFormed(s) && Effect(s, a, i, rec.id, steps) && rec.id in s.steps && s.steps[rec.id] == rec
    requires InHand(a, i, rec) && rec.status != Compensation && a.steps[rec.id].retryCount == rec.retryCount
    requires NoReruns(s, a) && Permits(rec, steps) && (IsDlq(a, i) ==> IsDlq(s, i))
    ensures Effect(s, TryAgain(a, i, rec, d), i, rec.id, steps)
  {
    hide WellFormed, Local;
    var b := UpdateStep(a, rec.id, Failed);
    var r := TryAgain(a, i, rec, d);
    CountsNotNegative(a, rec.id);
    PutLocal(a, WithStatus(a.steps[rec.id], Failed), i);
    EnqueueLocal(b, i, rec.id, PRIORITY_HIGH, d.delay);
    Chain(a, b, r, i);
    Chain(s, a, r, i);
    hide Gentle;
    assert Gentle(rec, r.steps[rec.id], steps);
    forall x | RetryOf(s, r, x)
      ensures x == rec.id
    {
      var k :| k in r.queue && k !in s.queue && r.queue[k].step == Some(x);
      assert x != rec.id ==> k in a.queue;
    }
  }

  lemma StepEffect(s: State, i: int, rec: StepRec, def: Definition, o: Choice)
    requires WellFormed(s) && Runs(s, i, def) && rec.id in s.steps && s.steps[rec.id] == rec && rec.instance == i
    requires rec.status != Compensation && Made(rec, def.steps) && def.steps[rec.name].kind != Human
    ensures Effect(s, ExecuteStep(s, i, rec, def.steps[rec.name], def, o), i, rec.id, def.steps)
  {
    hide WellFormed, Tame, Runs, UpdateStep, Effect, Retries, ExecuteStep, TryAgain;
    var d := def.steps[rec.name];
    var r := ExecuteStep(s, i, rec, d, def, o);
    StepStepped(s, i, rec, d, def, o);
    if Tame(s, r, i, def.steps) {
      TameEffect(s, r, i, rec.id, def.steps);
    } else {
      var a0 := UpdateStep(s, rec.id, Running);
      RunningWell(s, i, rec, def);
      var a :| Tame(a0, a, i, def.steps) && InHand(a, i, rec)
               && a.steps[rec.id].retryCount == rec.retryCount && Handled(a, r, i, rec, d, def.steps);
      HandledEffect(s, a, r, i, rec, def);
    }
  }

  lemma HandledEffect(s: State, a: State, r: State, i: int, rec: StepRec, def: Definition)
    requires WellFormed(s) && Runs(s, i, def) && rec.id in s.steps && s.steps[rec.id] == rec && rec.instance == i
    requires rec.status != Compensation && Made(rec, def.steps)
    requires WellFormed(UpdateStep(s, rec.id, Running)) && Tame(UpdateStep(s, rec.id, Running), a, i, def.steps)
    requires InHand(a, i, rec) && a.steps[rec.id].retryCount == rec.retryCount
    requires Handled(a, r, i, rec, def.steps[rec.name], def.steps)
    ensures Effect(s, r, i, rec.id, def.steps)
  {
    var d := def.steps[rec.name];
    var a0 := UpdateStep(s, rec.id, Running);
    assert Tame(a0, a, i, def.steps) && NoReruns(s, a) && (IsDlq(a, i) ==> IsDlq(s, i)) by {
      hide WellFormed, Local, CalmAll;
    }
    hide WellFormed, Tame, Runs, InHand, UpdateStep, Effect, Retries, TryAgain, Made, NoReruns, IsDlq, NoItems;
    if Tame(a, r, i, def.steps) {
      TameTrans(a0, a, r, i, def.steps);
      RunningEffect(s, r, i, rec.id, def);
    } else if Frozen(a, r, i, def.steps) {
      var x :| Tame(a, x, i, def.steps) && NoItems(x, i) && r == SetInstance(x, i, WfDLQ);
      TameTrans(a0, a, x, i, def.steps);
      RunningEffect(s, x, i, rec.id, def);
      FrozenEffect(s, x, i, rec.id, def.steps);
    } else {
      RetriesPermitted(rec, d, def.steps);
      RunningEffect(s, a, i, rec.id, def);
      AgainEffect(s, a, i, rec, d, def.steps);
    }
  }

  lemma AttemptEffect(s: State, i: int, rec: StepRec, steps: Steps, o: Choice)
    requires WellFormed(s) && rec.id in s.steps && s.steps[rec.id] == rec && rec.instance == i
             && rec.status == Compensation
    requires rec.name in steps
    ensures var r := ExecuteCompensation(s, i, rec, steps[rec.name], steps, o);
            Effect(s, r, i, rec.id, steps) && Attempted(s, r, rec, steps)
  {
    hide WellFormed, Local, SomeStep, HasUnfinished, CompensationDelay;
    CompensationLocal(s, i, rec, steps[rec.name], steps, o);
    var r := ExecuteCompensation(s, i, rec, steps[rec.name], steps, o);
    OnlyOwnItem(s, i, rec, steps, o);
    hide ExecuteCompensation;
  }

  /** An attempt queues nothing, or the step itself for compensation. */
  lemma OnlyOwnItem(s: State, i: int, rec: StepRec, steps: Steps, o: Choice)
    requires rec.name in steps && rec.id in s.steps && s.steps[rec.id] == rec
    ensures var r := ExecuteCompensation(s, i, rec, steps[rec.name], steps, o);
            && (IsDlq(r, i) ==> IsDlq(s, i))
            && (r.queue == s.queue || (rec.id in r.steps && r.steps[rec.id].status == Compensation
                                       && forall q | q in r.queue && q !in s.queue :: r.queue[q].step == Some(rec.id)))
  {
    hide SomeStep, HasUnfinished, CompensationDelay, UpdateStep, SetInstance;
    UpdateKeepsQueue(s, rec.id, RolledBack);
    UpdateKeepsQueue(s, rec.id, Failed);
    FailedKeepsQueue(UpdateStep(s, rec.id, RolledBack), i);
  }

  lemma UpdateKeepsQueue(s: State, id: int, status: StepStatus)
    ensures UpdateStep(s, id, status).queue == s.queue && UpdateStep(s, id, status).instances == s.instances
  {
  }

  lemma FailedKeepsQueue(s: State, i: int)
    ensures SetInstance(s, i, WfFailed).queue == s.queue && !IsDlq(SetInstance(s, i, WfFailed), i)
  {
  }

  lemma DefinedStep(s: State, i: int, rec: StepRec)
    requires WellFormed(s) && rec.id in s.steps && s.steps[rec.id] == rec && rec.instance == i
    ensures Defined(s, i, rec.name) && Runs(s, i, DefinitionOf(s, i)) && Made(rec, DefinitionOf(s, i).steps)
    ensures DefinitionOf(s, i).steps[rec.name].kind != Human
  {
    assert AllMade(s) && NoHumans(s);
    hide WellFormed, StepsFiled;
  }

  lemma DispatchEffect(s: State, q: int, i: int, rec: StepRec, o: Choice)
    requires WellFormed(s) && rec.id in s.steps && s.steps[rec.id] == rec && rec.instance == i && !Finished(rec.status)
    requires q in s.queue && s.queue[q].instance == i
    ensures NoHumans(s) && i in s.instances && s.instances[i].workflow in s.definitions
    ensures Effect(s, Dispatch(s, q, i, rec, o), i, rec.id, DefinitionOf(s, i).steps)
  {
    DefinedStep(s, i, rec);
    var def := DefinitionOf(s, i);
    var d := def.steps[rec.name];
    assert NoHumans(s) && q < s.nextQueue by {
      hide StepsFiled, AllMade, ItemFiled;
    }
    hide WellFormed, Runs, Made, NoHumans, HandBack, ExecuteCompensation, ExecuteStep;
    if Elsewhere(rec, d, def.steps, o) {
      HandBackTame(s, q, o.cooldown, i, def.steps);
      TameEffect(s, HandBack(s, q, o.cooldown), i, rec.id, def.steps);
    } else {
      var r := if rec.status == Compensation then ExecuteCompensation(s, i, rec, d, def.steps, o)
               else ExecuteStep(s, i, rec, d, def, o);
      if rec.status == Compensation {
        AttemptEffect(s, i, rec, def.steps, o);
      } else {
        StepEffect(s, i, rec, def, o);
      }
      ItemStaysOwn(s, r, i, q);
      hide Effect;
      RemoveEffect(s, r, i, rec.id, q, def.steps);
    }
  }

  lemma ItemStaysOwn(s: State, r: State, i: int, q: int)
    requires Local(s, r, i) && q in s.queue && s.queue[q].instance == i
    ensures q in r.queue ==> r.queue[q].instance == i
  {
  }

  /** The item leads to a step that is skipped, paused or rolled back. */
  predicate Stale(s: State, q: int)
    requires q in s.queue
  {
    && !IsDlq(s, s.queue[q].instance) && s.queue[q].step.Some? && s.queue[q].step.value in s.steps
    && Finished(s.steps[s.queue[q].step.value].status)
  }

  lemma Found(s: State, q: int)
    requires WellFormed(s) && q in s.queue
    ensures var i := s.queue[q].instance;
            && i in s.instances && s.queue[q].step.Some? && s.queue[q].step.value in s.steps
            && s.queue[q].step.value in IdsOf(s, i) && s.steps[s.queue[q].step.value].instance == i
            && s.steps[s.queue[q].step.value].id == s.queue[q].step.value
            && s.instances[i].workflow in s.definitions && NoHumans(s)
  {
    assert ItemFiled(s, s.queue[q]);
    var id: int := s.queue[q].step.value;
    hide Made;
    assert s.steps[id].id == id && id in IdsOf(s, s.steps[id].instance);
  }

  /** The claim changes nothing but the mark on the item. */
  lemma ClaimEffect(s: State, r: State, q: int, i: int, id: int, steps: Steps)
    requires WellFormed(s) && q in s.queue && s.queue[q].instance == i
    requires Effect(s.(queue := Claim(s.queue, q)), r, i, id, steps)
    ensures Effect(s, r, i, id, steps)
  {
    hide WellFormed, Gentle, Local;
    var c := s.(queue := Claim(s.queue, q));
    RequeueTame(s, c, i, steps);
    Chain(s, c, r, i);
    forall x | RetryOf(s, r, x)
      ensures RetryOf(c, r, x)
    {
      var k :| k in r.queue && k !in s.queue && r.queue[k].step == Some(x);
      assert k !in c.queue;
    }
  }

  lemma ExecuteIsDispatch(s: State, q: int, o: Choice)
    requires NoHumans(s) && q in s.queue && s.queue[q].instance in s.instances && !IsDlq(s, s.queue[q].instance)
    requires s.queue[q].step.Some? && s.queue[q].step.value in IdsOf(s, s.queue[q].instance)
             && s.queue[q].step.value in s.steps
    ensures NoHumans(s.(queue := Claim(s.queue, q)))
    ensures Execute(s, q, o) == Dispatch(s.(queue := Claim(s.queue, q)), q, s.queue[q].instance,
                                         s.steps[s.queue[q].step.value], o)
  {
    hide Dispatch;
  }

  lemma StaleIs(s: State, q: int, o: Choice)
    requires NoHumans(s) && q in s.queue && Stale(s, q) && s.queue[q].instance in s.instances
    requires s.queue[q].step.value in IdsOf(s, s.queue[q].instance)
             && s.steps[s.queue[q].step.value].id == s.queue[q].step.value
    ensures Execute(s, q, o) == s.(queue := s.queue - {s.queue[q].step.value} - {q})
  {
    hide NoHumans, IdsOf;
    var id := s.queue[q].step.value;
    ExecuteIsDispatch(s, q, o);
    assert Claim(s.queue, q) - {id} - {q} == s.queue - {id} - {q};
  }

  lemma DlqIs(s: State, q: int, o: Choice)
    requires NoHumans(s) && q in s.queue && IsDlq(s, s.queue[q].instance)
    ensures Execute(s, q, o) == Remove(s.(queue := Claim(s.queue, q)), q)
  {
  }

  /** One execution: a stale item is dropped, together with the item that happens to bear the
      number of the step; any other item leads to an effect on its own instance only. */
  lemma ExecuteEffect(s: State, q: int, o: Choice)
    requires WellFormed(s) && q in s.queue
    ensures NoHumans(s) && s.queue[q].step.Some? && s.queue[q].instance in s.instances
    ensures s.instances[s.queue[q].instance].workflow in s.definitions
    ensures var i, id := s.queue[q].instance, s.queue[q].step.value;
            if Stale(s, q) then Execute(s, q, o) == s.(queue := s.queue - {id} - {q})
            else Effect(s, Execute(s, q, o), i, id, DefinitionOf(s, i).steps)
  {
    hide WellFormed, NoHumans, Dispatch, IdsOf, Execute, Effect, Tame;
    Found(s, q);
    var i, id := s.queue[q].instance, s.queue[q].step.value;
    var c := s.(queue := Claim(s.queue, q));
    var steps := DefinitionOf(s, i).steps;
    if Stale(s, q) {
      StaleIs(s, q, o);
    } else {
      RequeueTame(s, c, i, steps);
      TameWell(s, c, i, steps);
      if IsDlq(s, i) {
        DlqIs(s, q, o);
        RemoveTame(c, q, i, steps);
        TameTrans(s, c, Remove(c, q), i, steps);
        TameEffect(s, Remove(c, q), i, id, steps);
      } else {
        ExecuteIsDispatch(s, q, o);
        DispatchEffect(c, q, i, s.steps[id], o);
        ClaimEffect(s, Dispatch(c, q, i, s.steps[id], o), q, i, id, steps);
      }
    }
  }

  // ------------------------------------------------------------------ every transition

  /** A store with one more instance. */
  function WithInstance(s: State, workflow: string): State {
    s.(instances := s.instances[s.nextInstance := Instance(workflow, WfRunning)], nextInstance := s.nextInstance + 1)
  }

  lemma WithInstanceWell(s: State, workflow: string)
    requires WellFormed(s) && workflow in s.definitions
    ensures WellFormed(WithInstance(s, workflow)) && s.nextInstance !in s.instances
    ensures forall q | q in s.queue :: s.queue[q].instance != s.nextInstance
  {
    var r := WithInstance(s, workflow);
    assert s.nextInstance !in s.instances;
    assert StepsFiled(r) by {
      hide AllMade, ItemFiled;
      assert forall j :: IdsOf(r, j) == IdsOf(s, j);
    }
    assert AllMade(r) by {
      assert AllMade(s);
      hide WellFormed, StepsFiled, Made;
    }
    hide StepsFiled, AllMade;
    forall q | q in s.queue
      ensures ItemFiled(r, s.queue[q]) && s.queue[q].instance != s.nextInstance
    {
      assert ItemFiled(s, s.queue[q]);
    }
  }

  /** Starting an instance is a tame move of the new instance. */
  lemma StartTame(s: State, w: string, accepted: bool)
    requires WellFormed(s) && w in s.definitions && accepted
    ensures var m := WithInstance(s, w);
            WellFormed(m) && Tame(m, Start(s, w, accepted), s.nextInstance, s.definitions[w].steps)
    ensures s.nextInstance !in s.instances && NoItems(s, s.nextInstance)
  {
    hide WellFormed, Tame, Start;
    var m := WithInstance(s, w);
    WithInstanceWell(s, w);
    EnqueueNextTame(m, s.nextInstance, s.definitions[w], Link(s.definitions[w].start), false);
    StartUnfold(s, w, accepted);
  }

  lemma StartUnfold(s: State, w: string, accepted: bool)
    requires w in s.definitions && accepted
    ensures var def := s.definitions[w];
            Start(s, w, accepted) == EnqueueNext(WithInstance(s, w), s.nextInstance, def.steps, Link(def.start), false)
  {
    hide EnqueueNext;
  }

  lemma StaleWell(s: State, id: int, q: int)
    requires WellFormed(s)
    ensures WellFormed(s.(queue := s.queue - {id} - {q}))
  {
    hide WellFormed;
    ShrinkWell(s, s.(queue := s.queue - {id} - {q}));
  }

  lemma QuietWell(s: State, r: State)
    requires WellFormed(s) && r == s.(cancels := r.cancels, clock := r.clock)
    ensures WellFormed(r)
  {
    hide StepsFiled, AllMade, NoHumans, ItemFiled;
    SameFiling(s, r);
  }

  /** Every transition keeps the store well formed. */
  lemma NextWell(s: State, op: Op, aging: Aging, r: State)
    requires WellFormed(s) && Next(s, op, aging, r)
    ensures WellFormed(r)
  {
    hide WellFormed, Effect, Tame, Start, Execute, Stale, Permitted, NoHumans;
    match op
    case StartOp(w, accepted) =>
      if w in s.definitions && accepted {
        StartTame(s, w, accepted);
        TameWell(WithInstance(s, w), r, s.nextInstance, s.definitions[w].steps);
      } else {
        NotStarted(s, w, accepted);
      }
    case NextOp(q, o) =>
      ExecuteEffect(s, q, o);
      if Stale(s, q) {
        StaleWell(s, s.queue[q].step.value, q);
      } else {
        EffectWell(s, r, s.queue[q].instance, s.queue[q].step.value, DefinitionOf(s, s.queue[q].instance).steps);
      }
    case _ => QuietWell(s, r);
  }

  lemma NotStarted(s: State, w: string, accepted: bool)
    requires w !in s.definitions || !accepted
    ensures Start(s, w, accepted) == s
  {
  }

  lemma EffectWell(s: State, r: State, i: int, id: int, steps: Steps)
    requires Effect(s, r, i, id, steps)
    ensures WellFormed(r) && Local(s, r, i)
  {
  }

  // ------------------------------------------------------------------ the dead-letter freeze

  /** The instance is in the dead-letter state with nothing queued. */
  ghost predicate OnIce(s: State, k: int) {
    IsDlq(s, k) && NoItems(s, k)
  }

  /** A move of another instance leaves k as it is. */
  lemma LocalIce(s: State, r: State, i: int, k: int)
    requires Local(s, r, i) && i != k && k in s.instances
    ensures r.instances[k] == s.instances[k]
    ensures NoItems(s, k) ==> NoItems(r, k)
  {
    assert LocalItems(s, r, i);
  }

  lemma IceStep(s: State, op: Op, aging: Aging, r: State, k: int)
    requires WellFormed(s) && Next(s, op, aging, r) && OnIce(s, k)
    ensures OnIce(r, k)
    ensures Called(s, op).Some? ==> Called(s, op).value.instance != k
  {
    hide WellFormed, Local, Effect, Tame, Start, Execute, Stale, Permitted, NoHumans, CallOf;
    match op
    case StartOp(w, accepted) =>
      if w in s.definitions && accepted {
        StartTame(s, w, accepted);
        TameWell(WithInstance(s, w), r, s.nextInstance, s.definitions[w].steps);
        LocalIce(WithInstance(s, w), r, s.nextInstance, k);
      } else {
        NotStarted(s, w, accepted);
      }
    case NextOp(q, o) =>
      ExecuteEffect(s, q, o);
      CallIsOwn(s, op);
      if !Stale(s, q) {
        EffectWell(s, r, s.queue[q].instance, s.queue[q].step.value, DefinitionOf(s, s.queue[q].instance).steps);
        LocalIce(s, r, s.queue[q].instance, k);
      }
    case _ =>
  }

  lemma CallIsOwn(s: State, op: Op)
    requires op.NextOp? && op.item in s.queue
    ensures Called(s, op).Some? ==> Called(s, op).value.instance == s.queue[op.item].instance
  {
  }

  /** In every reachable store, whoever is in the dead-letter state has nothing queued. */
  ghost predicate DlqEmpty(s: State) {
    forall k :: IsDlq(s, k) ==> NoItems(s, k)
  }

  lemma DlqEmptyStep(s: State, op: Op, aging: Aging, r: State)
    requires WellFormed(s) && Next(s, op, aging, r) && DlqEmpty(s)
    ensures DlqEmpty(r)
  {
    forall k | IsDlq(r, k)
      ensures NoItems(r, k)
    {
      if IsDlq(s, k) {
        IceStep(s, op, aging, r, k);
      } else {
        EntersIce(s, op, aging, r, k);
      }
    }
  }

  /** An instance enters the dead-letter state with nothing queued. */
  lemma EntersIce(s: State, op: Op, aging: Aging, r: State, k: int)
    requires WellFormed(s) && Next(s, op, aging, r) && !IsDlq(s, k) && IsDlq(r, k)
    ensures NoItems(r, k)
  {
    hide WellFormed, Local, Start, Execute, Stale, Permitted, NoHumans, Gentle, NoItems, CalmAll, NoReruns;
    match op
    case StartOp(w, accepted) =>
      if w in s.definitions && accepted {
        StartTame(s, w, accepted);
        if k != s.nextInstance {
          OtherStatus(WithInstance(s, w), r, s.nextInstance, k);
        }
      } else {
        NotStarted(s, w, accepted);
      }
    case NextOp(q, o) =>
      ExecuteEffect(s, q, o);
      if !Stale(s, q) && k != s.queue[q].instance {
        OtherStatus(s, r, s.queue[q].instance, k);
      }
    case _ =>
  }

  lemma OtherStatus(s: State, r: State, i: int, k: int)
    requires Local(s, r, i) && i != k && IsDlq(r, k)
    ensures IsDlq(s, k)
  {
    assert k in s.instances;
  }

  lemma {:induction false} ReachableStates(states: seq<State>, ops: seq<Op>, aging: Aging, m: nat)
    requires Run(states, ops, aging) && WellFormed(states[0]) && DlqEmpty(states[0]) && m < |states|
    ensures WellFormed(states[m]) && DlqEmpty(states[m])
  {
    hide WellFormed, DlqEmpty, Next;
    if m > 0 {
      ReachableStates(states, ops, aging, m - 1);
      assert Next(states[m - 1], ops[m - 1], aging, states[m]);
      NextWell(states[m - 1], ops[m - 1], aging, states[m]);
      DlqEmptyStep(states[m - 1], ops[m - 1], aging, states[m]);
    }
  }

  /** The freeze: from the moment an instance is in the dead-letter state, whatever is done to
      any instance, it stays there, nothing of it is queued, and no handler runs for it. */
  lemma {:induction false} DlqFreeze(states: seq<State>, ops: seq<Op>, aging: Aging, k: int, m: nat, n: nat)
    requires Run(states, ops, aging) && WellFormed(states[0]) && DlqEmpty(states[0])
    requires m <= n < |states| && IsDlq(states[m], k)
    ensures IsDlq(states[n], k) && NoItems(states[n], k)
    ensures n < |ops| && Called(states[n], ops[n]).Some? ==> Called(states[n], ops[n]).value.instance != k
    decreases n
  {
    hide WellFormed, Next, IsDlq, NoItems, Called;
    ReachableStates(states, ops, aging, n);
    if m < n {
      DlqFreeze(states, ops, aging, k, m, n - 1);
      ReachableStates(states, ops, aging, n - 1);
      assert Next(states[n - 1], ops[n - 1], aging, states[n]);
      IceStep(states[n - 1], ops[n - 1], aging, states[n], k);
    }
    if n < |ops| {
      assert Next(states[n], ops[n], aging, states[n + 1]);
      IceStep(states[n], ops[n], aging, states[n + 1], k);
    }
  }
}
