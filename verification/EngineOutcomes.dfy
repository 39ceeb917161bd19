/** What the handlers do to the store, said of the store alone: a success, a failure, the end of a
    workflow, a compensation attempt and a cancellation. */
module EngineOutcomes {
  import opened Definitions
  import opened Store
  import opened Queue
  import opened Rollback
  import opened RollbackEffects
  import opened RollbackEngine
  import opened Joins
  import B = Builder
  import opened JoinStores
  import opened Engine
  import opened EngineFrames
  import opened EngineTame
  import opened EngineSteps
  import opened EngineRuns
  import opened EngineJoins
  import opened EngineBirths

  // ------------------------------------------------------------------ success

  /** The names of the steps a success leads to. */
  function Following(d: StepDef, next: bool, steps: Steps): seq<string> {
    Successors(if next then d.next else Link(d.els), steps, next)
  }

  /** The step x was created for the name n: pending, never tried, with exactly one new item. */
  ghost predicate CreatedFor(s: State, r: State, i: int, x: int, n: string, steps: Steps) {
    && n in steps && x in r.steps && x !in s.steps
    && r.steps[x] == StepRec(x, i, n, steps[n].kind, Pending, 0, steps[n].maxRetries, 0)
    && exists q ::
         && NewItems(s, r, x) == {q} && q in r.queue
         && r.queue[q] == QueueItem(i, Some(x), s.clock + steps[n].delay, PRIORITY_NORMAL, false)
  }

  /** Every other new step is a pending join step with one item; old steps and items are as before,
      apart from the step that got its status; nothing but steps, items and joins changes. */
  ghost predicate MovedOn(s: State, r: State, i: int, id: int, status: StepStatus, ids: seq<int>) {
    && r == s.(steps := r.steps, byInstance := r.byInstance, queue := r.queue,
               nextStep := r.nextStep, nextQueue := r.nextQueue, joins := r.joins)
    && (forall x | x in s.steps ::
          x in r.steps && r.steps[x] == if x == id then WithStatus(s.steps[x], status) else s.steps[x])
    && (forall q | q in s.queue :: q in r.queue && r.queue[q] == s.queue[q])
    && (forall x | x in r.steps && x !in s.steps && x !in ids :: JoinBorn(s, r, i, x))
    && (forall q | q in r.queue && q !in s.queue ::
          r.queue[q].step.Some? && r.queue[q].step.value in r.steps && r.queue[q].step.value !in s.steps)
  }

  lemma SuccessMoves(s: State, i: int, rec: StepRec, d: StepDef, def: Definition, next: bool, o: Choice)
    requires Unused(s) && !IsDlq(s, i) && Mark(s, i, rec, d, def.steps, o, Completed, true, true).1
    requires if next then d.next != [] else d.els != ""
    ensures var u, m := UpdateStep(s, rec.id, Completed), Mark(s, i, rec, d, def.steps, o, Completed, true, true).0;
            && JoinsBorn(u, m, i)
            && Born(m, HandleSuccess(s, i, rec, d, def, next, o), i, Following(d, next, def.steps), def.steps)
  {
    hide JoinsBorn, Born, Mark, Unused, UpdateStep;
    MarkBorn(s, i, rec, d, def.steps, o, Completed, true, true);
    var u, m := UpdateStep(s, rec.id, Completed), Mark(s, i, rec, d, def.steps, o, Completed, true, true).0;
    JoinsBornUnused(u, m, i);
    StillAlive(s, u, m, i, rec.id);
    EnqueueNextBorn(m, i, def.steps, if next then d.next else [d.els], next);
    hide EnqueueNext, Successors;
  }

  lemma StillAlive(s: State, u: State, m: State, i: int, id: int)
    requires u == UpdateStep(s, id, Completed) && JoinsBorn(u, m, i)
    ensures IsDlq(m, i) == IsDlq(s, i)
  {
    hide JoinBorn;
  }

  lemma BornCreates(s: State, m: State, r: State, i: int, names: seq<string>, steps: Steps, k: nat)
    requires JoinsBorn(s, m, i) && Born(m, r, i, names, steps) && k < |names|
    ensures CreatedFor(s, r, i, m.nextStep + k, names[k], steps)
  {
    var x, q := m.nextStep + k, m.nextQueue + k;
    assert BornStep(r, x, i, names[k], steps) && BornItem(r, q, x, i, names[k], steps);
    assert Unused(m) && s.nextQueue <= m.nextQueue && s.clock == m.clock by {
      hide JoinBorn, Born;
    }
    assert NewItems(s, r, x) == {q} by {
      hide JoinBorn, IdsOf;
      OneItem(s, m, r, i, names, steps, k);
    }
    hide Born, JoinsBorn, NewItems;
    assert x !in s.steps by {
      NotYet(s, m, i, x);
    }
  }

  lemma NotYet(s: State, m: State, i: int, x: int)
    requires JoinsBorn(s, m, i) && m.nextStep <= x
    ensures x !in s.steps && x !in m.steps
  {
    hide JoinBorn;
  }

  /** The only item for the k-th successor is the k-th new one. */
  lemma ItemOfBorn(m: State, r: State, i: int, names: seq<string>, steps: Steps, k: nat)
    requires Born(m, r, i, names, steps) && k < |names|
    ensures m.nextQueue + k in r.queue && r.queue[m.nextQueue + k].step == Some(m.nextStep + k)
    ensures forall q | q in r.queue && q !in m.queue && r.queue[q].step == Some(m.nextStep + k) :: q == m.nextQueue + k
    ensures forall q | q in m.queue :: q in r.queue && r.queue[q] == m.queue[q]
  {
    hide BornSteps;
    assert BornItem(r, m.nextQueue + k, m.nextStep + k, i, names[k], steps);
    forall q | q in r.queue && q !in m.queue && r.queue[q].step == Some(m.nextStep + k)
      ensures q == m.nextQueue + k
    {
      assert q in From(m.nextQueue, |names|);
      var l := q - m.nextQueue;
      assert BornItem(r, m.nextQueue + l, m.nextStep + l, i, names[l], steps);
    }
  }

  /** No item is for a step that is still to come. */
  lemma NoneForComing(s: State, m: State, i: int, x: int)
    requires JoinsBorn(s, m, i) && m.nextStep <= x
    ensures forall q | q in m.queue && q !in s.queue :: m.queue[q].step != Some(x)
    ensures forall q | q in s.queue :: q in m.queue
    ensures forall q | q in m.queue :: q < m.nextQueue
  {
    hide JoinBorn;
  }

  lemma OneItem(s: State, m: State, r: State, i: int, names: seq<string>, steps: Steps, k: nat)
    requires JoinsBorn(s, m, i) && Born(m, r, i, names, steps) && k < |names|
    ensures NewItems(s, r, m.nextStep + k) == {m.nextQueue + k}
  {
    hide JoinsBorn, Born;
    var x, n := m.nextStep + k, m.nextQueue + k;
    ItemOfBorn(m, r, i, names, steps, k);
    NoneForComing(s, m, i, x);
    forall q
      ensures q in NewItems(s, r, x) <==> q == n
    {
      if q in m.queue {
        assert r.queue[q] == m.queue[q];
      }
    }
  }

  lemma BornRest(s: State, m: State, r: State, i: int, names: seq<string>, steps: Steps, id: int, status: StepStatus)
    requires JoinsBorn(UpdateStep(s, id, status), m, i) && Born(m, r, i, names, steps)
    ensures MovedOn(s, r, i, id, status, From(m.nextStep, |names|))
  {
    var u := UpdateStep(s, id, status);
    assert u == s.(steps := u.steps) && u.steps.Keys == s.steps.Keys;
    hide UpdateStep;
    BornFrame(u, m, i);
    forall x | x in r.steps && x !in s.steps && x !in From(m.nextStep, |names|)
      ensures JoinBorn(s, r, i, x)
    {
      hide From;
      assert x in m.steps && x !in u.steps;
      JoinSurvives(s, u, m, r, i, names, steps, x);
    }
    RestItems(u, m, r, i, names, steps);
    hide JoinBorn, BornItem, BornStep, From;
  }

  lemma RestItems(u: State, m: State, r: State, i: int, names: seq<string>, steps: Steps)
    requires JoinsBorn(u, m, i) && Born(m, r, i, names, steps)
    ensures forall q | q in r.queue && q !in u.queue ::
              r.queue[q].step.Some? && r.queue[q].step.value in r.steps && r.queue[q].step.value !in u.steps
  {
    hide JoinBorn;
    forall q | q in r.queue && q !in u.queue
      ensures r.queue[q].step.Some? && r.queue[q].step.value in r.steps && r.queue[q].step.value !in u.steps
    {
      if q in m.queue {
        var x: int := m.queue[q].step.value;
        assert x in m.steps && x !in u.steps;
      } else {
        assert q in From(m.nextQueue, |names|);
        var l := q - m.nextQueue;
        assert BornItem(r, m.nextQueue + l, m.nextStep + l, i, names[l], steps);
        assert BornStep(r, m.nextStep + l, i, names[l], steps);
        NotYet(u, m, i, m.nextStep + l);
      }
    }
  }

  /** The items of successors are for new steps. */
  lemma BornItemsNew(m: State, r: State, i: int, names: seq<string>, steps: Steps, x: int)
    requires Born(m, r, i, names, steps) && x < m.nextStep
    ensures forall q | q in r.queue && r.queue[q].step == Some(x) :: q in m.queue
    ensures forall q | q in m.queue :: q in r.queue && r.queue[q] == m.queue[q]
    ensures forall y | y in m.steps :: y in r.steps && r.steps[y] == m.steps[y]
  {
    forall q | q in r.queue && q !in m.queue
      ensures r.queue[q].step != Some(x)
    {
      assert q in From(m.nextQueue, |names|);
      var l := q - m.nextQueue;
      assert BornItem(r, m.nextQueue + l, m.nextStep + l, i, names[l], steps);
    }
  }

  lemma SameNewItems(s: State, u: State, m: State, r: State, x: int)
    requires u.queue == s.queue && (forall q | q in r.queue && r.queue[q].step == Some(x) :: q in m.queue)
    requires forall q | q in m.queue :: q in r.queue && r.queue[q] == m.queue[q]
    ensures NewItems(s, r, x) == NewItems(u, m, x)
  {
    forall q
      ensures q in NewItems(s, r, x) <==> q in NewItems(u, m, x)
    {
    }
  }

  /** A join step stays as it was created. */
  lemma JoinSurvives(s: State, u: State, m: State, r: State, i: int, names: seq<string>, steps: Steps, x: int)
    requires u == s.(steps := u.steps) && u.steps.Keys == s.steps.Keys && JoinsBorn(u, m, i)
    requires Born(m, r, i, names, steps) && x in m.steps && x !in u.steps
    ensures x in r.steps && JoinBorn(s, r, i, x)
  {
    assert JoinBorn(u, m, i, x);
    JoinsBornUnused(u, m, i);
    hide JoinsBorn;
    BornItemsNew(m, r, i, names, steps, x);
    hide Born;
    SameNewItems(s, u, m, r, x);
    hide NewItems;
  }

  lemma FromDistinct(a: int, k: nat)
    ensures Distinct(From(a, k)) && |From(a, k)| == k && forall j | 0 <= j < k :: From(a, k)[j] == a + j
  {
  }

  /** What a success that has successors does: exactly one pending step with one queue item for each
      of them, in order, and nothing else apart from the step itself and its joins. */
  lemma SuccessCreates(s: State, i: int, rec: StepRec, d: StepDef, def: Definition, next: bool, o: Choice)
    returns (ids: seq<int>)
    requires Unused(s) && !IsDlq(s, i) && Mark(s, i, rec, d, def.steps, o, Completed, true, true).1
    requires if next then d.next != [] else d.els != ""
    ensures var r, names := HandleSuccess(s, i, rec, d, def, next, o), Following(d, next, def.steps);
            && |ids| == |names| && Distinct(ids) && MovedOn(s, r, i, rec.id, Completed, ids)
            && forall k | 0 <= k < |ids| :: CreatedFor(s, r, i, ids[k], names[k], def.steps)
  {
    hide JoinsBorn, Born, Mark, Unused, UpdateStep, From, CreatedFor, MovedOn, HandleSuccess, Following;
    SuccessMoves(s, i, rec, d, def, next, o);
    var m := Mark(s, i, rec, d, def.steps, o, Completed, true, true).0;
    var r, names := HandleSuccess(s, i, rec, d, def, next, o), Following(d, next, def.steps);
    ids := From(m.nextStep, |names|);
    FromDistinct(m.nextStep, |names|);
    BornRest(s, m, r, i, names, def.steps, rec.id, Completed);
    forall k | 0 <= k < |ids|
      ensures CreatedFor(s, r, i, ids[k], names[k], def.steps)
    {
      UpdatedCreates(s, m, r, i, names, def.steps, rec.id, k);
    }
  }

  lemma UpdatedCreates(s: State, m: State, r: State, i: int, names: seq<string>, steps: Steps, id: int, k: nat)
    requires JoinsBorn(UpdateStep(s, id, Completed), m, i) && Born(m, r, i, names, steps) && k < |names|
    ensures CreatedFor(s, r, i, m.nextStep + k, names[k], steps)
  {
    var u := UpdateStep(s, id, Completed);
    hide JoinsBorn, Born;
    BornCreates(u, m, r, i, names, steps, k);
    assert NewItems(u, r, m.nextStep + k) == NewItems(s, r, m.nextStep + k);
  }

  /** A condition: a true outcome leads to the successors in Next that are no joins, a false one to
      Else alone. */
  lemma ConditionChooses(s: State, i: int, rec: StepRec, d: StepDef, def: Definition, o: Choice) returns (ids: seq<int>)
    requires Unused(s) && !IsDlq(s, i) && i !in s.cancels && d.kind == Condition && o.success
    requires Mark(UpdateStep(s, rec.id, Running), i, rec, d, def.steps, o, Completed, true, true).1
    requires (forall n | n in d.next :: n in def.steps) && (d.els != "" ==> d.els in def.steps)
    requires if o.taken then d.next != [] else d.els != ""
    ensures var r := ExecuteStep(s, i, rec, d, def, o);
            && (forall k | 0 <= k < |ids| ::
                  ids[k] in r.steps && ids[k] !in s.steps && r.steps[ids[k]].status == Pending)
            && (o.taken ==>
                  forall n :: n in d.next && def.steps[n].kind != Join <==>
                              exists k | 0 <= k < |ids| :: r.steps[ids[k]].name == n)
            && (!o.taken ==> |ids| == 1 && r.steps[ids[0]].name == d.els)
            && (forall x | x in r.steps && x !in s.steps && x !in ids :: r.steps[x].kind == Join)
  {
    var a := UpdateStep(s, rec.id, Running);
    assert Unused(a) && !IsDlq(a, i) && a.steps.Keys == s.steps.Keys;
    hide Mark, Unused, UpdateStep, HandleSuccess, HandleFailure, Following, IsDlq;
    assert ExecuteStep(s, i, rec, d, def, o) == HandleSuccess(a, i, rec, d, def, o.taken, o);
    hide ExecuteStep;
    ids := SuccessCreates(a, i, rec, d, def, o.taken, o);
    SuccessorsAre(if o.taken then d.next else Link(d.els), def.steps, o.taken);
    ChosenNames(a, HandleSuccess(a, i, rec, d, def, o.taken, o), i, rec.id, ids, d, o.taken, def.steps);
  }

  lemma ChosenNames(s: State, r: State, i: int, id: int, ids: seq<int>, d: StepDef, taken: bool, steps: Steps)
    requires MovedOn(s, r, i, id, Completed, ids) && |ids| == |Following(d, taken, steps)|
    requires forall k | 0 <= k < |ids| :: CreatedFor(s, r, i, ids[k], Following(d, taken, steps)[k], steps)
    requires (forall n | n in d.next :: n in steps) && (!taken ==> d.els != "" && d.els in steps)
    ensures forall k | 0 <= k < |ids| :: ids[k] in r.steps && ids[k] !in s.steps && r.steps[ids[k]].status == Pending
    ensures taken ==>
              forall n :: n in d.next && steps[n].kind != Join <==>
                          exists k | 0 <= k < |ids| :: r.steps[ids[k]].name == n
    ensures !taken ==> |ids| == 1 && r.steps[ids[0]].name == d.els
    ensures forall x | x in r.steps && x !in s.steps && x !in ids :: r.steps[x].kind == Join
  {
    SuccessorsAre(if taken then d.next else Link(d.els), steps, taken);
    var names := Following(d, taken, steps);
    assert forall x | x in r.steps && x !in s.steps && x !in ids :: JoinBorn(s, r, i, x);
    forall k | 0 <= k < |ids|
      ensures ids[k] in r.steps && ids[k] !in s.steps && r.steps[ids[k]].status == Pending
              && r.steps[ids[k]].name == names[k]
    {
      assert CreatedFor(s, r, i, ids[k], names[k], steps);
    }
    hide MovedOn, CreatedFor, Successors;
    if taken {
      forall n
        ensures n in d.next && steps[n].kind != Join <==> exists k | 0 <= k < |ids| :: r.steps[ids[k]].name == n
      {
        if n in names {
          var k :| 0 <= k < |names| && names[k] == n;
          assert r.steps[ids[k]].name == n;
        }
      }
    }
  }

  // ------------------------------------------------------------------ joins

  /** A join step of a join that heard only of awaited steps: with strategy all it succeeds if and
      only if the latest outcome of every awaited step is success, with strategy any if and only if
      it heard of a step. */
  lemma JoinSucceedsIff(s: State, i: int, n: string, w: seq<string>, st: JoinStrategy, trace: seq<Note>)
    requires JoinAt(s, i, n) == Some(Play(Created(w, st), trace)) && Distinct(w) && w != []
    requires forall note | note in trace :: note.step in w
    ensures st == All ==> (JoinSucceeds(s, i, n) <==> forall x | x in w :: Latest(trace, x) == Some(true))
    ensures st == Any ==> (JoinSucceeds(s, i, n) <==> trace != [])
  {
    var j := Play(Created(w, st), trace);
    TraceSemantics(w, st, trace);
    HeardAwaited(w, trace);
    hide Play, JoinAt;
    if trace == [] {
      SilentJoin(w, st);
      assert w[0] in w;
    } else if st == All {
      assert forall x | x in Processed(j) :: x in j.waitingFor by {
        hide CheckReady;
      }
      CountTestDecidesCoverage(j);
      hide CheckReady, Consistent, Latest;
      FailedIsEmpty(j, w, trace);
    } else {
      AnyHeard(j, trace);
    }
  }

  lemma SilentJoin(w: seq<string>, st: JoinStrategy)
    ensures !Play(Created(w, st), []).isReady
  {
  }

  lemma {:induction false} HeardAwaited(w: seq<string>, trace: seq<Note>)
    requires forall note | note in trace :: note.step in w
    ensures forall x | Latest(trace, x).Some? :: x in w
  {
    if trace != [] {
      HeardAwaited(w, trace[..|trace| - 1]);
      assert trace[|trace| - 1] in trace;
    }
  }

  lemma FailedIsEmpty(j: JoinState, w: seq<string>, trace: seq<Note>)
    requires j.waitingFor == w && (forall x :: x in j.failed <==> Latest(trace, x) == Some(false))
    requires forall x :: x in j.completed <==> Latest(trace, x) == Some(true)
    requires forall x | Latest(trace, x).Some? :: x in w
    ensures (forall x | x in w :: x in Processed(j)) && |j.failed| == 0 <==>
            forall x | x in w :: Latest(trace, x) == Some(true)
  {
    hide Latest;
    if |j.failed| > 0 {
      assert j.failed[0] in j.failed;
    }
    if forall x | x in w :: Latest(trace, x) == Some(true) {
      forall x | x in j.failed
        ensures false
      {
      }
    }
  }

  lemma AnyHeard(j: JoinState, trace: seq<Note>)
    requires trace != [] && j.strategy == Any && j.isReady == CheckReady(j.waitingFor, j.completed, j.failed, Any)
    requires forall x :: x in j.completed <==> Latest(trace, x) == Some(true)
    requires forall x :: x in j.failed <==> Latest(trace, x) == Some(false)
    ensures j.isReady
  {
    var last := trace[|trace| - 1];
    assert Latest(trace, last.step) == Some(last.success);
    assert last.step in j.completed || last.step in j.failed;
  }

  // ------------------------------------------------------------------ queue items

  /** An item that is handed back is free again, no earlier than the cooldown after now and no
      earlier than before; nothing else changes. */
  lemma HandBackIsExact(s: State, q: int, cooldown: real)
    requires q in s.queue
    ensures var was := s.queue[q];
            var at := if cooldown > 0.0 && s.clock + cooldown > was.scheduledAt then s.clock + cooldown
              else was.scheduledAt;
            HandBack(s, q, cooldown) == s.(queue := s.queue[q := was.(attempted := false, scheduledAt := at)])
  {
  }

  /** This worker lacks the handler that the step needs next. */
  predicate LacksHandler(rec: StepRec, steps: Steps, handlers: set<string>)
    requires rec.name in steps
  {
    var d := steps[rec.name];
    || (rec.status == Compensation && d.onFailure != "" && d.onFailure in steps
        && steps[d.onFailure].handler !in handlers)
    || (rec.status != Compensation && rec.kind == Task && d.handler !in handlers)
  }

  /** An item survives its execution if and only if its step is still to be executed and this
      worker lacks the handler; then nothing but the item changes. */
  lemma ItemSurvivesIff(s: State, q: int, o: Choice)
    requires WellFormed(s) && q in s.queue
    ensures NoHumans(s) && s.queue[q].instance in s.instances && s.queue[q].step.Some?
    ensures var i, id := s.queue[q].instance, s.queue[q].step.value;
            && s.instances[i].workflow in s.definitions && id in s.steps && s.steps[id].name in DefinitionOf(s, i).steps
            && var waits := && s.instances[i].status != WfDLQ
                            && s.steps[id].status !in {Skipped, Paused, RolledBack}
                            && LacksHandler(s.steps[id], DefinitionOf(s, i).steps, o.handlers);
               && (q in Execute(s, q, o).queue <==> waits)
               && (waits ==> Execute(s, q, o) == HandBack(s.(queue := Claim(s.queue, q)), q, o.cooldown))
  {
    hide WellFormed, NoHumans, Execute, Dispatch, IdsOf, HandBack;
    Found(s, q);
    var i, id := s.queue[q].instance, s.queue[q].step.value;
    var rec := s.steps[id];
    DefinedStep(s, i, rec);
    if IsDlq(s, i) {
      DlqIs(s, q, o);
    } else {
      ExecuteIsDispatch(s, q, o);
      DispatchKeeps(s.(queue := Claim(s.queue, q)), q, i, rec, o);
    }
  }

  lemma DispatchKeeps(s: State, q: int, i: int, rec: StepRec, o: Choice)
    requires NoHumans(s) && Defined(s, i, rec.name) && q in s.queue
    ensures var waits := rec.status !in {Skipped, Paused, RolledBack}
                         && LacksHandler(rec, DefinitionOf(s, i).steps, o.handlers);
            && (q in Dispatch(s, q, i, rec, o).queue <==> waits)
            && (waits ==> Dispatch(s, q, i, rec, o) == HandBack(s, q, o.cooldown))
  {
    hide NoHumans, ExecuteCompensation, ExecuteStep;
  }

  // ------------------------------------------------------------------ starts and results

  /** An accepted start adds one running instance with its start step, pending and queued. */
  lemma StartIsExact(s: State, workflow: string)
    requires WellFormed(s) && workflow in s.definitions && Acceptable(s.definitions[workflow])
    ensures var i, def := s.nextInstance, s.definitions[workflow];
            && i !in s.instances
            && Born(WithInstance(s, workflow), Start(s, workflow, true), i, [def.start], def.steps)
            && WithInstance(s, workflow) ==
               s.(instances := s.instances[i := Instance(workflow, WfRunning)], nextInstance := i + 1)
  {
    hide WellFormed, Born, EnqueueNext, Start, Unused, Successors, Acceptable;
    var i, def, m := s.nextInstance, s.definitions[workflow], WithInstance(s, workflow);
    StartKnown(def);
    NewInstance(s, workflow);
    StartUnfold(s, workflow, true);
    EnqueueNextBorn(m, i, def.steps, Link(def.start), false);
    SuccessorsAre(Link(def.start), def.steps, false);
  }

  lemma StartKnown(def: Definition)
    requires Acceptable(def)
    ensures def.start != "" && def.start in def.steps
  {
    hide B.ValidDefinition;
  }

  lemma NewInstance(s: State, w: string)
    requires WellFormed(s) && w in s.definitions
    ensures s.nextInstance !in s.instances && Unused(WithInstance(s, w)) && !IsDlq(WithInstance(s, w), s.nextInstance)
  {
    WellUnused(s);
    hide AllMade, ItemFiled, NoHumans, JoinsFiled, IdsOf;
  }

  /** When an execution succeeds: a task whose handler is here and reports no error, a condition that
      reports none, a fork whose branches are all known, a join that is ready and, with strategy all,
      heard of no failure, a savepoint always. */
  predicate Succeeds(s: State, i: int, rec: StepRec, d: StepDef, steps: Steps, o: Choice)
    requires d.kind != Human
  {
    match d.kind
    case Task => o.success && d.handler in o.handlers
    case Fork | Parallel => forall n | n in d.parallel :: n in steps
    case Join =>
      JoinAt(s, i, rec.name).Some? &&
      var j := JoinAt(s, i, rec.name).value;
      j.isReady && (j.strategy == Any || j.failed == [])
    case SavePoint => true
    case Condition => o.success
  }

  lemma JoinOutcome(s: State, i: int, name: string)
    ensures JoinSucceeds(s, i, name) <==>
            (JoinAt(s, i, name).Some? && var j := JoinAt(s, i, name).value;
             j.isReady && (j.strategy == Any || j.failed == []))
  {
    hide JoinAt;
  }

  /** An execution without a cancel request ends as its kind says, and only a condition can leave
      Next for Else. */
  lemma ResultIsExact(s: State, i: int, rec: StepRec, d: StepDef, def: Definition, o: Choice)
    requires Unused(s) && i !in s.cancels && d.kind != Human
    ensures var a := UpdateStep(s, rec.id, Running);
            var b := if d.kind == Fork || d.kind == Parallel then RunFork(a, i, def.steps, d).0 else a;
            ExecuteStep(s, i, rec, d, def, o) ==
            if Succeeds(s, i, rec, d, def.steps, o)
            then HandleSuccess(b, i, rec, d, def, d.kind == Condition ==> o.taken, o)
            else HandleFailure(b, i, rec, d, def, o)
  {
    var a := UpdateStep(s, rec.id, Running);
    assert Unused(a) && JoinAt(a, i, rec.name) == JoinAt(s, i, rec.name);
    hide UpdateStep, Unused, HandleSuccess, HandleFailure, JoinAt, RunFork, JoinSucceeds;
    JoinOutcome(a, i, rec.name);
    ForkOutcome(a, i, def.steps, d);
  }

  lemma ForkOutcome(s: State, i: int, steps: Steps, d: StepDef)
    requires Unused(s)
    ensures RunFork(s, i, steps, d).1 <==> forall n | n in d.parallel :: n in steps
  {
    hide StartBranches, OpenJoins, Unused, Born;
    StartBranchesBorn(s, i, steps, d.parallel);
  }

  // ------------------------------------------------------------------ cancel requests

  predicate HasEnded(status: WorkflowStatus) {
    status == WfCompleted || status == WfFailed || status == WfCancelled || status == WfAborted
  }

  /** A request is refused after the end; the first one stands, whatever is requested later. */
  lemma RequestIsExact(s: State, i: int, kind: CancelType, later: CancelType)
    ensures Cancel(s, i, kind) ==
            if i in s.instances && !HasEnded(s.instances[i].status) && i !in s.cancels
            then s.(cancels := s.cancels[i := kind]) else s
    ensures Cancel(Cancel(s, i, kind), i, later) == Cancel(s, i, kind)
  {
    assert i in s.instances ==>
        (s.instances[i].status in {WfCompleted, WfFailed, WfCancelled, WfAborted} <==> HasEnded(s.instances[i].status));
  }
}
