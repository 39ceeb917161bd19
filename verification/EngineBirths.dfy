/** Which steps and queue items the engine creates: those of successors, branches and joins. */
module EngineBirths {
  import opened Definitions
  import opened Store
  import opened Queue
  import opened Rollback
  import opened RollbackEffects
  import opened JoinStores
  import opened Engine
  import opened EngineFrames
  import opened EngineTame
  import opened EngineSteps
  import opened EngineRuns
  import opened EngineJoins

  // ------------------------------------------------------------------ successors and branches

  /** The numbers given out next are not in use. */
  predicate Unused(s: State) {
    (forall x | x in s.steps :: x < s.nextStep) && forall q | q in s.queue :: q < s.nextQueue
  }

  lemma WellUnused(s: State)
    requires WellFormed(s)
    ensures Unused(s)
  {
    hide AllMade, ItemFiled, NoHumans, JoinsFiled, IdsOf;
  }

  /** The numbers from a on. */
  function From(a: int, k: nat): seq<int> {
    seq(k, j => a + j)
  }

  /** r is s with one new step of instance i for each of the names, in order: pending, never tried,
      with the retries of its definition, and with one queue item that is due after its delay. */
  ghost predicate Born(s: State, r: State, i: int, names: seq<string>, steps: Steps) {
    && r == s.(steps := r.steps, byInstance := r.byInstance, queue := r.queue,
               nextStep := s.nextStep + |names|, nextQueue := s.nextQueue + |names|)
    && BornSteps(s, r, i, names, steps) && BornItems(s, r, i, names, steps)
    && IdsOf(r, i) == IdsOf(s, i) + From(s.nextStep, |names|)
    && forall j | j != i :: IdsOf(r, j) == IdsOf(s, j)
  }

  ghost predicate BornSteps(s: State, r: State, i: int, names: seq<string>, steps: Steps) {
    && r.steps.Keys == s.steps.Keys + Elements(From(s.nextStep, |names|))
    && (forall x | x in s.steps :: r.steps[x] == s.steps[x])
    && forall k: nat | k < |names| :: BornStep(r, s.nextStep + k, i, names[k], steps)
  }

  predicate BornStep(r: State, x: int, i: int, n: string, steps: Steps) {
    n in steps && x in r.steps && r.steps[x] == StepRec(x, i, n, steps[n].kind, Pending, 0, steps[n].maxRetries, 0)
  }

  ghost predicate BornItems(s: State, r: State, i: int, names: seq<string>, steps: Steps) {
    && r.queue.Keys == s.queue.Keys + Elements(From(s.nextQueue, |names|))
    && (forall q | q in s.queue :: r.queue[q] == s.queue[q])
    && forall k: nat | k < |names| :: BornItem(r, s.nextQueue + k, s.nextStep + k, i, names[k], steps)
  }

  predicate BornItem(r: State, q: int, x: int, i: int, n: string, steps: Steps) {
    && n in steps && q in r.queue
    && r.queue[q] == QueueItem(i, Some(x), r.clock + steps[n].delay, PRIORITY_NORMAL, false)
  }

  lemma NoneBorn(s: State, i: int, steps: Steps)
    ensures Born(s, s, i, [], steps)
  {
    assert Elements(From(s.nextStep, 0)) == {} && Elements(From(s.nextQueue, 0)) == {};
    assert IdsOf(s, i) + From(s.nextStep, 0) == IdsOf(s, i);
  }

  lemma FromMore(a: int, k: nat)
    ensures From(a, k + 1) == [a] + From(a + 1, k)
    ensures Elements(From(a, k + 1)) == {a} + Elements(From(a + 1, k))
  {
    var rest := From(a + 1, k);
    assert From(a, k + 1) == [a] + rest;
    assert Elements([a] + rest) == {a} + Elements(rest);
  }

  lemma StepsMore(s: State, m: State, r: State, i: int, n: string, rest: seq<string>, steps: Steps)
    requires Unused(s) && BornSteps(m, r, i, rest, steps) && m.nextStep == s.nextStep + 1 && n in steps
    requires m.steps ==
             s.steps[s.nextStep := StepRec(s.nextStep, i, n, steps[n].kind, Pending, 0, steps[n].maxRetries, 0)]
    ensures BornSteps(s, r, i, [n] + rest, steps)
  {
    FromMore(s.nextStep, |rest|);
    hide From;
    forall k: nat | k < |[n] + rest|
      ensures BornStep(r, s.nextStep + k, i, ([n] + rest)[k], steps)
    {
      if k == 0 {
        assert r.steps[s.nextStep] == m.steps[s.nextStep];
      } else {
        assert BornStep(r, m.nextStep + (k - 1), i, rest[k - 1], steps);
      }
    }
  }

  lemma ItemsMore(s: State, m: State, r: State, i: int, n: string, rest: seq<string>, steps: Steps)
    requires Unused(s) && BornItems(m, r, i, rest, steps) && n in steps && r.clock == s.clock
    requires m.nextStep == s.nextStep + 1 && m.nextQueue == s.nextQueue + 1
    requires m.queue ==
             s.queue[s.nextQueue := QueueItem(i, Some(s.nextStep), s.clock + steps[n].delay, PRIORITY_NORMAL, false)]
    ensures BornItems(s, r, i, [n] + rest, steps)
  {
    FromMore(s.nextQueue, |rest|);
    hide From;
    forall k: nat | k < |[n] + rest|
      ensures BornItem(r, s.nextQueue + k, s.nextStep + k, i, ([n] + rest)[k], steps)
    {
      if k == 0 {
        assert r.queue[s.nextQueue] == m.queue[s.nextQueue];
      } else {
        assert BornItem(r, m.nextQueue + (k - 1), m.nextStep + (k - 1), i, rest[k - 1], steps);
      }
    }
  }

  /** One more step, before the others. */
  lemma BornMore(s: State, i: int, n: string, rest: seq<string>, steps: Steps, r: State)
    requires Unused(s) && n in steps && Born(Spawn(s, i, n, steps[n]), r, i, rest, steps)
    ensures Born(s, r, i, [n] + rest, steps)
  {
    hide BornSteps, BornItems, Spawn, From, IdsOf;
    var m := Spawn(s, i, n, steps[n]);
    SpawnIs(s, i, n, steps[n]);
    FromMore(s.nextStep, |rest|);
    StepsMore(s, m, r, i, n, rest, steps);
    ItemsMore(s, m, r, i, n, rest, steps);
    assert IdsOf(s, i) + [s.nextStep] + From(s.nextStep + 1, |rest|) == IdsOf(s, i) + From(s.nextStep, |rest| + 1);
  }

  lemma SpawnIs(s: State, i: int, n: string, d: StepDef)
    ensures var m := Spawn(s, i, n, d);
            && m == s.(steps := s.steps[s.nextStep := StepRec(s.nextStep, i, n, d.kind, Pending, 0, d.maxRetries, 0)],
                       byInstance := m.byInstance,
                       queue := s.queue[s.nextQueue := QueueItem(i, Some(s.nextStep), s.clock + d.delay,
                                                                 PRIORITY_NORMAL, false)],
                       nextStep := s.nextStep + 1, nextQueue := s.nextQueue + 1)
            && IdsOf(m, i) == IdsOf(s, i) + [s.nextStep] && forall j | j != i :: IdsOf(m, j) == IdsOf(s, j)
  {
  }

  lemma SpawnUnused(s: State, i: int, n: string, d: StepDef)
    requires Unused(s)
    ensures Unused(Spawn(s, i, n, d))
  {
    SpawnIs(s, i, n, d);
    hide Spawn;
  }

  /** The successors that get a step: joins are left out when they are left to their protocol; an
      unknown name ends the list. */
  function Successors(names: seq<string>, steps: Steps, skipJoins: bool): seq<string> {
    if names == [] || names[0] !in steps then []
    else
      (if skipJoins && steps[names[0]].kind == Join then [] else [names[0]])
      + Successors(names[1..], steps, skipJoins)
  }

  lemma {:induction false} EnqueueNextBorn(s: State, i: int, steps: Steps, names: seq<string>, skipJoins: bool)
    requires Unused(s) && !IsDlq(s, i)
    ensures Born(s, EnqueueNext(s, i, steps, names, skipJoins), i, Successors(names, steps, skipJoins), steps)
    decreases |names|
  {
    hide Born, Unused, Spawn;
    if names == [] || names[0] !in steps {
      NoneBorn(s, i, steps);
    } else if skipJoins && steps[names[0]].kind == Join {
      EnqueueNextBorn(s, i, steps, names[1..], skipJoins);
      assert [] + Successors(names[1..], steps, skipJoins) == Successors(names[1..], steps, skipJoins);
    } else {
      var n := names[0];
      var m := Spawn(s, i, n, steps[n]);
      SpawnUnused(s, i, n, steps[n]);
      SpawnAlive(s, i, n, steps[n]);
      EnqueueNextBorn(m, i, steps, names[1..], skipJoins);
      BornMore(s, i, n, Successors(names[1..], steps, skipJoins), steps,
               EnqueueNext(m, i, steps, names[1..], skipJoins));
    }
  }

  lemma SpawnAlive(s: State, i: int, n: string, d: StepDef)
    ensures IsDlq(Spawn(s, i, n, d), i) == IsDlq(s, i)
  {
    SpawnIs(s, i, n, d);
    hide Spawn;
  }

  /** When every name is known, the successors are the names that are no joins, in order, or all of
      them. */
  lemma {:induction false} SuccessorsAre(names: seq<string>, steps: Steps, skipJoins: bool)
    requires forall n | n in names :: n in steps
    ensures !skipJoins ==> Successors(names, steps, skipJoins) == names
    ensures forall n :: n in Successors(names, steps, skipJoins) <==>
              n in names && !(skipJoins && steps[n].kind == Join)
    ensures Distinct(names) ==> Distinct(Successors(names, steps, skipJoins))
  {
    if names != [] {
      SuccessorsAre(names[1..], steps, skipJoins);
      assert names == [names[0]] + names[1..];
    }
  }

  lemma {:induction false} StartBranchesBorn(s: State, i: int, steps: Steps, names: seq<string>)
    requires Unused(s)
    ensures StartBranches(s, i, steps, names).1 <==> forall n | n in names :: n in steps
    ensures StartBranches(s, i, steps, names).1 ==> Born(s, StartBranches(s, i, steps, names).0, i, names, steps)
    decreases |names|
  {
    hide Born, Unused, Spawn;
    if names == [] {
      NoneBorn(s, i, steps);
    } else if names[0] in steps {
      var n, rest := names[0], names[1..];
      var m := Spawn(s, i, n, steps[n]);
      assert names == [n] + rest;
      SpawnUnused(s, i, n, steps[n]);
      StartBranchesBorn(m, i, steps, rest);
      if StartBranches(m, i, steps, rest).1 {
        BornMore(s, i, n, rest, steps, StartBranches(m, i, steps, rest).0);
      }
    }
  }

  // ------------------------------------------------------------------ join steps

  /** The new step x is a join step: pending with one queue item that is due at once, or, in the
      dead-letter state, paused with none. */
  ghost predicate JoinBorn(s: State, r: State, i: int, x: int)
    requires x in r.steps
  {
    && s.nextStep <= x
    && r.steps[x] == StepRec(x, i, r.steps[x].name, Join, if IsDlq(s, i) then Paused else Pending, 0, 0, 0)
    && if IsDlq(s, i) then NewItems(s, r, x) == {}
       else exists q ::
              && NewItems(s, r, x) == {q} && q in r.queue
              && r.queue[q] == QueueItem(i, Some(x), s.clock, PRIORITY_NORMAL, false)
  }

  /** Only join steps of instance i and their items are added, and only joins change. */
  ghost predicate JoinsBorn(s: State, r: State, i: int) {
    && r == s.(steps := r.steps, byInstance := r.byInstance, queue := r.queue,
               nextStep := r.nextStep, nextQueue := r.nextQueue, joins := r.joins)
    && s.nextStep <= r.nextStep && s.nextQueue <= r.nextQueue && Unused(r)
    && (forall x | x in s.steps :: x in r.steps && r.steps[x] == s.steps[x])
    && (forall q | q in s.queue :: q in r.queue && r.queue[q] == s.queue[q])
    && (forall x | x in r.steps && x !in s.steps :: JoinBorn(s, r, i, x))
    && (forall q | q in r.queue && q !in s.queue ::
          r.queue[q].step.Some? && r.queue[q].step.value in r.steps && r.queue[q].step.value !in s.steps)
    && IdsOf(s, i) <= IdsOf(r, i) && forall j | j != i :: IdsOf(r, j) == IdsOf(s, j)
  }

  lemma JoinsBornRefl(s: State, i: int)
    requires Unused(s)
    ensures JoinsBorn(s, s, i)
  {
    hide JoinBorn;
  }

  lemma JoinTableOnly(s: State, r: State, i: int)
    requires Unused(s) && r == s.(joins := r.joins)
    ensures JoinsBorn(s, r, i)
  {
    hide JoinBorn;
  }

  lemma BornEarlier(s: State, m: State, r: State, i: int, x: int)
    requires JoinsBorn(s, m, i) && JoinsBorn(m, r, i) && x in m.steps && x !in s.steps
    ensures x in r.steps && JoinBorn(s, r, i, x)
  {
    assert JoinBorn(s, m, i, x);
    assert NewItems(s, r, x) == NewItems(s, m, x) by {
      hide JoinBorn, IsDlq;
      forall q | q in NewItems(s, r, x)
        ensures q in NewItems(s, m, x)
      {
        assert q in m.queue;
      }
    }
    hide JoinsBorn, NewItems;
    BornFrame(m, r, i);
  }

  lemma BornLater(s: State, m: State, r: State, i: int, x: int)
    requires JoinsBorn(s, m, i) && JoinsBorn(m, r, i) && x in r.steps && x !in m.steps
    ensures JoinBorn(s, r, i, x)
  {
    assert JoinBorn(m, r, i, x);
    assert NewItems(s, r, x) == NewItems(m, r, x) by {
      hide JoinBorn, IsDlq;
      forall q | q in NewItems(s, r, x)
        ensures q in NewItems(m, r, x)
      {
        assert q in m.queue ==> m.queue[q].step.value in m.steps;
      }
    }
    assert s.nextStep <= m.nextStep && m.instances == s.instances && m.clock == s.clock;
    hide JoinsBorn, NewItems;
  }

  lemma BornFrame(s: State, r: State, i: int)
    requires JoinsBorn(s, r, i)
    ensures forall x | x in s.steps :: x in r.steps && r.steps[x] == s.steps[x]
    ensures forall q | q in s.queue :: q in r.queue && r.queue[q] == s.queue[q]
  {
    hide JoinBorn;
  }

  lemma JoinsBornTrans(s: State, m: State, r: State, i: int)
    requires JoinsBorn(s, m, i) && JoinsBorn(m, r, i)
    ensures JoinsBorn(s, r, i)
  {
    forall x | x in r.steps && x !in s.steps
      ensures JoinBorn(s, r, i, x)
    {
      hide JoinBorn, JoinsBorn;
      if x in m.steps {
        BornEarlier(s, m, r, i, x);
      } else {
        BornLater(s, m, r, i, x);
      }
    }
    hide JoinBorn;
    assert IdsOf(s, i) <= IdsOf(r, i);
    forall q | q in r.queue && q !in s.queue
      ensures r.queue[q].step.Some? && r.queue[q].step.value in r.steps && r.queue[q].step.value !in s.steps
    {
      var x: int := r.queue[q].step.value;
      if q in m.queue {
        assert x in m.steps && x !in s.steps;
      } else {
        assert x in r.steps && x !in m.steps;
      }
    }
  }

  lemma CreateJoinBorn(s: State, i: int, n: string)
    requires Unused(s)
    ensures JoinsBorn(s, CreateJoin(s, i, n), i)
  {
    hide JoinsBorn, Named;
    if Named(s, i, n) {
      JoinsBornRefl(s, i);
    } else if IsDlq(s, i) {
      PausedBorn(s, i, n);
    } else {
      PendingBorn(s, i, n);
    }
  }

  lemma PausedBorn(s: State, i: int, n: string)
    requires Unused(s) && IsDlq(s, i)
    ensures JoinsBorn(s, CreateStep(s, i, n, Join, Paused, 0), i)
  {
    var r := CreateStep(s, i, n, Join, Paused, 0);
    assert NewItems(s, r, s.nextStep) == {};
  }

  lemma PendingBorn(s: State, i: int, n: string)
    requires Unused(s) && !IsDlq(s, i)
    ensures JoinsBorn(s, Enqueue(CreateStep(s, i, n, Join, Pending, 0), i, s.nextStep, PRIORITY_NORMAL, 0.0), i)
  {
    var r := Enqueue(CreateStep(s, i, n, Join, Pending, 0), i, s.nextStep, PRIORITY_NORMAL, 0.0);
    assert NewItems(s, r, s.nextStep) == {s.nextQueue};
    assert JoinBorn(s, r, i, s.nextStep);
    hide JoinBorn, IsDlq;
  }

  lemma JoinsBornUnused(s: State, r: State, i: int)
    requires JoinsBorn(s, r, i)
    ensures Unused(r)
  {
    hide JoinBorn;
  }

  lemma JoinStepBorn(s: State, i: int, n: string, op: JoinOp)
    requires Unused(s)
    ensures JoinsBorn(s, JoinStep(s, i, n, op), i) && Unused(JoinStep(s, i, n, op))
  {
    hide JoinsBorn, JoinStep, Unused;
    JoinStepLocal(s, i, n, op);
    JoinTableOnly(s, JoinStep(s, i, n, op), i);
    JoinsBornUnused(s, JoinStep(s, i, n, op), i);
  }

  lemma NotifyJoinBorn(s: State, i: int, steps: Steps, order: seq<string>, n: string, step: string, success: bool)
    requires Unused(s) && n in steps
    ensures JoinsBorn(s, NotifyJoin(s, i, steps, order, n, step, success).0, i)
  {
    hide JoinsBorn, JoinStep, Unused, BranchPending, CreateJoin, JoinAt, StepsOf;
    var op := NotifyOp(step, success);
    var s1 := JoinStep(s, i, n, op);
    JoinsBornRefl(s, i);
    JoinStepBorn(s, i, n, op);
    JoinStepBorn(s1, i, n, op);
    JoinsBornTrans(s, s1, JoinStep(s1, i, n, op), i);
    CreateJoinBorn(s1, i, n);
    JoinsBornTrans(s, s1, CreateJoin(s1, i, n), i);
  }

  lemma {:induction false} NotifyAllBorn(s: State, i: int, steps: Steps, order: seq<string>, rest: seq<string>,
                                         step: string, success: bool)
    requires Unused(s)
    ensures JoinsBorn(s, NotifyAll(s, i, steps, order, rest, step, success).0, i)
    decreases |rest|
  {
    hide JoinsBorn, Unused, NotifyJoin, AwaitedBy;
    JoinsBornRefl(s, i);
    if rest != [] {
      if AwaitedBy(s, i, steps, rest[0], step) {
        AwaitedInside(s, i, steps, rest[0], step);
        NotifyJoinBorn(s, i, steps, order, rest[0], step, success);
        var (s1, ok) := NotifyJoin(s, i, steps, order, rest[0], step, success);
        JoinsBornUnused(s, s1, i);
        if ok {
          NotifyAllBorn(s1, i, steps, order, rest[1..], step, success);
          JoinsBornTrans(s, s1, NotifyAll(s1, i, steps, order, rest[1..], step, success).0, i);
        }
      } else {
        NotifyAllBorn(s, i, steps, order, rest[1..], step, success);
      }
    }
  }

  lemma SettleBorn(s: State, i: int, steps: Steps, order: seq<string>, rec: StepRec, d: StepDef, success: bool)
    requires Unused(s)
    ensures JoinsBorn(s, Settle(s, i, steps, order, rec, d, success), i)
  {
    hide JoinsBorn, Unused, NotifyJoin, JoinStep, JoinAt, JoinAround, EndsBranch, ConditionAbove, StepsOf, OldestStatus;
    var join := JoinAround(steps, order, rec.name);
    JoinsBornRefl(s, i);
    if join in steps {
      var op := ReplaceOp(VirtualName(ConditionAbove(steps, d.prev, {})), rec.name,
                          OldestStatus(StepsOf(s, i), rec.name));
      var s1 := JoinStep(s, i, join, op);
      JoinStepBorn(s, i, join, op);
      NotifyJoinBorn(s1, i, steps, order, join, rec.name, success);
      JoinsBornTrans(s, s1, NotifyJoin(s1, i, steps, order, join, rec.name, success).0, i);
      JoinStepBorn(s, i, join, CreateOp([rec.name], Some(steps[join].strategy)));
      JoinStepBorn(s, i, join, AddOp(rec.name));
    }
  }

  /** Marking a step changes its record and the joins, and adds join steps with their items. */
  lemma MarkBorn(s: State, i: int, rec: StepRec, d: StepDef, steps: Steps, o: Choice, status: StepStatus,
                 settle: bool, success: bool)
    requires Unused(s)
    ensures JoinsBorn(UpdateStep(s, rec.id, status), Mark(s, i, rec, d, steps, o, status, settle, success).0, i)
  {
    var u := UpdateStep(s, rec.id, status);
    assert Unused(u);
    hide JoinsBorn, Unused, Settle, NotifyAll, UpdateStep;
    JoinsBornRefl(u, i);
    SettleBorn(u, i, steps, o.order, rec, d, success);
    var v := if settle then Settle(u, i, steps, o.order, rec, d, success) else u;
    JoinsBornUnused(u, v, i);
    NotifyAllBorn(v, i, steps, o.order, o.order, rec.name, success);
    JoinsBornTrans(u, v, NotifyAll(v, i, steps, o.order, o.order, rec.name, success).0, i);
  }
}
