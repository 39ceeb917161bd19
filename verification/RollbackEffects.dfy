/** What handing a list of steps to the compensation routine does to the store. */
module RollbackEffects {
  import opened Definitions
  import opened Store
  import opened Rollback

  /** The snapshot agrees with the store and files every step under its own name. */
  predicate Snapshot(s: State, e: Env) {
    forall x | x in e.recs :: e.recs[x].name == x && e.recs[x].id in s.steps && s.steps[e.recs[x].id] == e.recs[x]
  }

  predicate CountersFresh(s: State) {
    && (forall q | q in s.queue :: q < s.nextQueue)
    && (forall d | d in s.deadLetters :: d < s.nextDeadLetter)
  }

  /** The step has a compensation step. */
  predicate HasCompensation(rec: StepRec, steps: Steps)
    requires rec.name in steps
  {
    steps[rec.name].onFailure in steps
  }

  /** ... and attempts left. */
  predicate MayAttempt(rec: StepRec, steps: Steps)
    requires rec.name in steps
  {
    HasCompensation(rec, steps) && rec.compRetries < steps[steps[rec.name].onFailure].maxRetries
  }

  /** The record a compensated step ends with: rolled back without a compensation step, in
      compensation with one more attempt counted while attempts are left, failed otherwise. */
  function Outcome(rec: StepRec, steps: Steps): StepRec
    requires rec.name in steps
  {
    if !HasCompensation(rec, steps) then rec.(status := RolledBack)
    else if MayAttempt(rec, steps) then rec.(status := Compensation, compRetries := rec.compRetries + 1)
    else rec.(status := Failed, retryCount := rec.retryCount + 1)
  }

  lemma JudgeIs(rec: StepRec, steps: Steps)
    requires rec.name in steps
    ensures Judge(rec, steps).Undone? <==> !HasCompensation(rec, steps)
    ensures Judge(rec, steps).Queued? <==> MayAttempt(rec, steps)
    ensures MayAttempt(rec, steps) ==>
              Judge(rec, steps).delay == CompensationDelay(steps[steps[rec.name].onFailure], rec.compRetries + 1)
  {
    hide CompensationDelay;
  }

  /** The pause before attempt k + 2 compared with that before attempt k + 1: the same, one base
      delay longer, or twice as long; a pause of zero is replaced by the step's own delay. */
  lemma BackOff(c: StepDef, k: nat)
    ensures var first, next := CompensationDelay(c, k + 1), CompensationDelay(c, k + 2);
            if c.retryDelay == 0.0 then first == c.delay && next == c.delay
            else match c.retryStrategy
              case Fixed => first == c.retryDelay && next == first
              case Linear => next == first + c.retryDelay && CompensationDelay(c, 1) == c.retryDelay
              case Exponential => next == 2.0 * first && CompensationDelay(c, 1) == 2.0 * c.retryDelay
  {
    hide CalculateRetryDelay;
    var b, n := c.retryDelay, k + 1;
    assert n + 1 == k + 2;
    match c.retryStrategy
    case Fixed =>
      StaysFixed(b, n);
      StaysFixed(b, n + 1);
    case Linear =>
      GrowsLinearly(b, n);
    case Exponential =>
      Doubles(b, n);
  }

  lemma StaysFixed(b: real, n: int)
    ensures CalculateRetryDelay(Fixed, b, n) == b
  {
  }

  lemma GrowsLinearly(b: real, n: int)
    requires n > 0
    ensures CalculateRetryDelay(Linear, b, n + 1) == CalculateRetryDelay(Linear, b, n) + b
    ensures CalculateRetryDelay(Linear, b, 1) == b
    ensures CalculateRetryDelay(Linear, b, n) == 0.0 <==> b == 0.0
    ensures CalculateRetryDelay(Linear, b, n + 1) == 0.0 <==> b == 0.0
  {
    Longer(b, n);
  }

  lemma Doubles(b: real, n: int)
    requires n > 0
    ensures CalculateRetryDelay(Exponential, b, n + 1) == 2.0 * CalculateRetryDelay(Exponential, b, n)
    ensures CalculateRetryDelay(Exponential, b, 1) == 2.0 * b
    ensures CalculateRetryDelay(Exponential, b, n) == 0.0 <==> b == 0.0
  {
    PowPositive(n);
    assert Pow2(n + 1) == 2 * Pow2(n) && Pow2(1) == 2 * Pow2(0) && Pow2(0) == 1;
    hide Pow2;
    Doubled(b, Pow2(n));
    Doubled(b, 1);
  }

  lemma Doubled(b: real, p: int)
    requires p > 0
    ensures b * (2 * p) as real == 2.0 * (b * p as real) && (b != 0.0 ==> b * p as real != 0.0)
  {
    var q: real := p as real;
    assert (2 * p) as real == 2.0 * q;
  }

  lemma Longer(b: real, n: int)
    requires n > 0
    ensures b * (n + 1) as real == b * n as real + b
    ensures b != 0.0 ==> b * n as real != 0.0 && b * (n + 1) as real != 0.0
  {
    var q: real := n as real;
    assert (n + 1) as real == q + 1.0;
    if b != 0.0 {
      assert b * q != 0.0 && b * (q + 1.0) != 0.0;
    }
  }

  lemma {:induction false} PowPositive(n: nat)
    ensures Pow2(n) > 0
  {
    if n > 0 {
      PowPositive(n - 1);
    }
  }

  function NewItems(s: State, r: State, id: int): set<int> {
    set q | q in r.queue && q !in s.queue && r.queue[q].step == Some(id)
  }

  function NewLetters(s: State, r: State, id: int): set<int> {
    set d | d in r.deadLetters && d !in s.deadLetters && r.deadLetters[d].step == id
  }

  /** Exactly one new queue item for a step in compensation, exactly one new dead letter for
      an exhausted one, none otherwise. */
  ghost predicate Accounted(s: State, r: State, rec: StepRec, steps: Steps, workflow: string)
    requires rec.name in steps
  {
    && (if MayAttempt(rec, steps) then
          var delay := CompensationDelay(steps[steps[rec.name].onFailure], rec.compRetries + 1);
          exists q ::
            && NewItems(s, r, rec.id) == {q} && q in r.queue
            && r.queue[q] == QueueItem(rec.instance, Some(rec.id), s.clock + delay, PRIORITY_HIGH, false)
        else NewItems(s, r, rec.id) == {})
    && (if HasCompensation(rec, steps) && !MayAttempt(rec, steps) then
          exists d ::
            && NewLetters(s, r, rec.id) == {d} && d in r.deadLetters
            && r.deadLetters[d] == DeadLetter(rec.instance, workflow, rec.id, rec.name)
        else NewLetters(s, r, rec.id) == {})
  }

  predicate Logged(e: Env, log: seq<string>, id: int)
    requires Loggable(e, log)
  {
    exists x | x in log :: e.recs[x].id == id
  }

  /** Old queue items and dead letters survive; new ones belong to logged steps; nothing
      outside the steps, the queue and the dead letters changes. */
  predicate Framed(s: State, r: State, e: Env, log: seq<string>)
    requires Loggable(e, log)
  {
    && r == s.(steps := r.steps, queue := r.queue, nextQueue := r.nextQueue,
               deadLetters := r.deadLetters, nextDeadLetter := r.nextDeadLetter)
    && r.steps.Keys == s.steps.Keys
    && (forall id | id in s.steps && !Logged(e, log, id) :: r.steps[id] == s.steps[id])
    && (forall q | q in s.queue :: q in r.queue && r.queue[q] == s.queue[q])
    && (forall d | d in s.deadLetters :: d in r.deadLetters && r.deadLetters[d] == s.deadLetters[d])
    && (forall q | q in r.queue && q !in s.queue ::
          r.queue[q].step.Some? && Logged(e, log, r.queue[q].step.value))
    && (forall d | d in r.deadLetters && d !in s.deadLetters :: Logged(e, log, r.deadLetters[d].step))
    && CountersFresh(r) && s.nextQueue <= r.nextQueue && s.nextDeadLetter <= r.nextDeadLetter
  }

  lemma LoggedMore(e: Env, log: seq<string>, x: string)
    requires Loggable(e, log) && x in e.steps && x in e.recs && e.recs[x].name == x
    ensures Loggable(e, log + [x])
    ensures forall id :: Logged(e, log + [x], id) <==> Logged(e, log, id) || id == e.recs[x].id
  {
    assert x in log + [x];
    assert forall y :: y in log + [x] <==> y in log || y == x;
  }

  /** One change of the step record plus at most one new queue item or dead letter. */
  predicate StepShape(r: State, r': State, rec: StepRec, steps: Steps, workflow: string)
    requires rec.name in steps
  {
    && r'.steps.Keys == r.steps.Keys && (forall id | id in r.steps && id != rec.id :: r'.steps[id] == r.steps[id])
    && r' == r.(steps := r'.steps, queue := r'.queue, nextQueue := r'.nextQueue,
                deadLetters := r'.deadLetters, nextDeadLetter := r'.nextDeadLetter)
    && (match Judge(rec, steps)
        case Queued(delay) =>
          && r'.queue == r.queue[r.nextQueue := QueueItem(rec.instance, Some(rec.id), r.clock + delay, PRIORITY_HIGH,
                                                          false)]
          && r'.nextQueue == r.nextQueue + 1
        case _ => r'.queue == r.queue && r'.nextQueue == r.nextQueue)
    && (match Judge(rec, steps)
        case Exhausted =>
          && r'.deadLetters == r.deadLetters[r.nextDeadLetter := DeadLetter(rec.instance, workflow, rec.id, rec.name)]
          && r'.nextDeadLetter == r.nextDeadLetter + 1
        case _ => r'.deadLetters == r.deadLetters && r'.nextDeadLetter == r.nextDeadLetter)
  }

  lemma UpdateShape(r: State, id: int, status: StepStatus)
    requires id in r.steps
    ensures var u := UpdateStep(r, id, status);
            && u == r.(steps := u.steps) && u.steps.Keys == r.steps.Keys
            && u.steps[id] == WithStatus(r.steps[id], status)
            && forall x | x in r.steps && x != id :: u.steps[x] == r.steps[x]
  {
  }

  lemma RetryShape(r: State, id: int, count: int)
    requires id in r.steps
    ensures var u := UpdateStepCompensationRetry(r, id, count, Compensation);
            && u == r.(steps := u.steps) && u.steps.Keys == r.steps.Keys
            && u.steps[id] == r.steps[id].(compRetries := count, status := Compensation)
            && forall x | x in r.steps && x != id :: u.steps[x] == r.steps[x]
  {
  }

  lemma WhenUndone(r: State, rec: StepRec, steps: Steps, workflow: string)
    requires rec.name in steps && rec.id in r.steps && Judge(rec, steps).Undone?
    ensures StepShape(r, RollbackStep(r, rec, steps, workflow), rec, steps, workflow)
  {
    hide Judge, UpdateStep;
    assert RollbackStep(r, rec, steps, workflow) == UpdateStep(r, rec.id, RolledBack);
    hide RollbackStep;
    UpdateShape(r, rec.id, RolledBack);
  }

  lemma WhenExhausted(r: State, rec: StepRec, steps: Steps, workflow: string)
    requires rec.name in steps && rec.id in r.steps && Judge(rec, steps).Exhausted?
    ensures StepShape(r, RollbackStep(r, rec, steps, workflow), rec, steps, workflow)
  {
    hide Judge, UpdateStep;
    assert RollbackStep(r, rec, steps, workflow) == CreateDeadLetter(UpdateStep(r, rec.id, Failed), rec, workflow);
    hide RollbackStep;
    UpdateShape(r, rec.id, Failed);
  }

  lemma WhenQueued(r: State, rec: StepRec, steps: Steps, workflow: string)
    requires rec.name in steps && rec.id in r.steps && Judge(rec, steps).Queued?
    ensures StepShape(r, RollbackStep(r, rec, steps, workflow), rec, steps, workflow)
  {
    hide Judge, UpdateStepCompensationRetry;
    assert RollbackStep(r, rec, steps, workflow) ==
           Enqueue(UpdateStepCompensationRetry(r, rec.id, rec.compRetries + 1, Compensation),
                   rec.instance, rec.id, PRIORITY_HIGH, Judge(rec, steps).delay);
    hide RollbackStep;
    RetryShape(r, rec.id, rec.compRetries + 1);
  }

  /** The three shapes of a compensation step. */
  lemma RollbackStepShape(r: State, rec: StepRec, steps: Steps, workflow: string)
    requires rec.name in steps && rec.id in r.steps
    ensures StepShape(r, RollbackStep(r, rec, steps, workflow), rec, steps, workflow)
  {
    hide Judge, RollbackStep, StepShape;
    match Judge(rec, steps)
    case Undone => WhenUndone(r, rec, steps, workflow);
    case Exhausted => WhenExhausted(r, rec, steps, workflow);
    case Queued(_) => WhenQueued(r, rec, steps, workflow);
  }

  lemma StepFrame(s: State, r: State, e: Env, log: seq<string>, x: string, workflow: string)
    requires Loggable(e, log) && x in e.steps && x in e.recs && e.recs[x].name == x && Framed(s, r, e, log)
    requires e.recs[x].id in s.steps
    ensures Loggable(e, log + [x])
    ensures Framed(s, RollbackStep(r, e.recs[x], e.steps, workflow), e, log + [x])
  {
    hide RollbackStep, Logged, Judge;
    RollbackStepShape(r, e.recs[x], e.steps, workflow);
    LoggedMore(e, log, x);
    hide Loggable;
  }

  lemma NothingNewYet(s: State, r: State, e: Env, log: seq<string>, x: string)
    requires Loggable(e, log) && Framed(s, r, e, log) && Snapshot(s, e) && x in e.recs && x !in log
    ensures NewItems(s, r, e.recs[x].id) == {} && NewLetters(s, r, e.recs[x].id) == {}
    ensures e.recs[x].id in r.steps && r.steps[e.recs[x].id] == e.recs[x]
  {
    NotLogged(s, e, log, x);
    hide Logged;
    forall q | q in NewItems(s, r, e.recs[x].id)
      ensures false
    {
    }
    forall d | d in NewLetters(s, r, e.recs[x].id)
      ensures false
    {
    }
  }

  lemma NotLogged(s: State, e: Env, log: seq<string>, x: string)
    requires Loggable(e, log) && Snapshot(s, e) && x in e.recs && x !in log
    ensures !Logged(e, log, e.recs[x].id)
  {
    forall y | y in log
      ensures e.recs[y].id != e.recs[x].id
    {
      assert e.recs[y].name == y;
    }
  }

  lemma NewItemsAfter(s: State, r: State, rec: StepRec, steps: Steps, workflow: string, id: int)
    requires rec.name in steps && rec.id in r.steps && CountersFresh(s) && CountersFresh(r)
    requires s.nextQueue <= r.nextQueue && s.nextDeadLetter <= r.nextDeadLetter
    ensures var r' := RollbackStep(r, rec, steps, workflow);
            NewItems(s, r', id) == NewItems(s, r, id) + (if Judge(rec, steps).Queued?
                                                         && id == rec.id then {r.nextQueue} else {})
    ensures var r' := RollbackStep(r, rec, steps, workflow);
            NewLetters(s, r', id) ==
            NewLetters(s, r, id) + (if Judge(rec, steps).Exhausted? && id == rec.id then {r.nextDeadLetter} else {})
  {
    hide RollbackStep, Judge;
    RollbackStepShape(r, rec, steps, workflow);
  }

  lemma OutcomeOf(r: State, rec: StepRec, steps: Steps, workflow: string)
    requires rec.name in steps && rec.id in r.steps && r.steps[rec.id] == rec
    ensures rec.id in RollbackStep(r, rec, steps, workflow).steps
    ensures RollbackStep(r, rec, steps, workflow).steps[rec.id] == Outcome(rec, steps)
  {
    JudgeIs(rec, steps);
    hide CompensationDelay, Judge, Enqueue, CreateDeadLetter, UpdateStep, UpdateStepCompensationRetry, HasCompensation;
    match Judge(rec, steps)
    case Undone => UpdateShape(r, rec.id, RolledBack);
    case Exhausted =>
      UpdateShape(r, rec.id, Failed);
      DeadLetterKeeps(UpdateStep(r, rec.id, Failed), rec, workflow);
    case Queued(delay) =>
      RetryShape(r, rec.id, rec.compRetries + 1);
      EnqueueKeeps(UpdateStepCompensationRetry(r, rec.id, rec.compRetries + 1, Compensation), rec, delay);
  }

  lemma DeadLetterKeeps(s: State, rec: StepRec, workflow: string)
    ensures CreateDeadLetter(s, rec, workflow).steps == s.steps
  {
  }

  lemma EnqueueKeeps(s: State, rec: StepRec, delay: real)
    ensures Enqueue(s, rec.instance, rec.id, PRIORITY_HIGH, delay).steps == s.steps
  {
  }

  lemma StepAccounts(s: State, r: State, e: Env, log: seq<string>, x: string, workflow: string)
    requires Loggable(e, log) && Framed(s, r, e, log) && Snapshot(s, e)
    requires x in e.steps && x in e.recs && x !in log && CountersFresh(s)
    ensures e.recs[x].id in RollbackStep(r, e.recs[x], e.steps, workflow).steps
    ensures Accounted(s, RollbackStep(r, e.recs[x], e.steps, workflow), e.recs[x], e.steps, workflow)
    ensures RollbackStep(r, e.recs[x], e.steps, workflow).steps[e.recs[x].id] == Outcome(e.recs[x], e.steps)
  {
    var rec := e.recs[x];
    hide RollbackStep, Judge, Outcome, Logged;
    NothingNewYet(s, r, e, log, x);
    OutcomeOf(r, rec, e.steps, workflow);
    hide Framed;
    FramedKeys(s, r, e, log);
    NewItemsAfter(s, r, rec, e.steps, workflow, rec.id);
    RollbackStepShape(r, rec, e.steps, workflow);
    hide NewItems, NewLetters;
    var r' := RollbackStep(r, rec, e.steps, workflow);
    match Judge(rec, e.steps)
    case Queued(_) => assert NewItems(s, r', rec.id) == {r.nextQueue};
    case Exhausted => assert NewLetters(s, r', rec.id) == {r.nextDeadLetter};
    case Undone =>
  }

  lemma AccountKept(s: State, r: State, e: Env, y: string, x: string, workflow: string)
    requires Snapshot(s, e) && x != y && CountersFresh(s) && CountersFresh(r)
    requires s.nextQueue <= r.nextQueue && s.nextDeadLetter <= r.nextDeadLetter
    requires x in e.steps && x in e.recs && e.recs[x].id in r.steps
    requires y in e.steps && y in e.recs && e.recs[y].id in r.steps
    requires Accounted(s, r, e.recs[y], e.steps, workflow) && r.steps[e.recs[y].id] == Outcome(e.recs[y], e.steps)
    ensures Accounted(s, RollbackStep(r, e.recs[x], e.steps, workflow), e.recs[y], e.steps, workflow)
    ensures e.recs[y].id in RollbackStep(r, e.recs[x], e.steps, workflow).steps
    ensures RollbackStep(r, e.recs[x], e.steps, workflow).steps[e.recs[y].id] == Outcome(e.recs[y], e.steps)
  {
    var r' := RollbackStep(r, e.recs[x], e.steps, workflow);
    assert e.recs[x].id != e.recs[y].id by {
      assert e.recs[x].name == x && e.recs[y].name == y;
    }
    NewItemsAfter(s, r, e.recs[x], e.steps, workflow, e.recs[y].id);
    RollbackStepShape(r, e.recs[x], e.steps, workflow);
    hide RollbackStep, Outcome, NewItems, NewLetters;
    assert NewItems(s, r', e.recs[y].id) == NewItems(s, r, e.recs[y].id);
    assert NewLetters(s, r', e.recs[y].id) == NewLetters(s, r, e.recs[y].id);
  }

  /** Handing over distinct steps changes exactly those: each ends rolled back, in compensation
      with one new queue item, or failed with one new dead letter.  All other steps, all old
      queue items and all old dead letters are untouched. */
  lemma {:induction false} RollbackAllEffect(s: State, e: Env, log: seq<string>, workflow: string)
    requires Loggable(e, log) && Distinct(log) && Snapshot(s, e) && CountersFresh(s)
    ensures Framed(s, RollbackAll(s, e, log, workflow), e, log)
    ensures forall x | x in log ::
              && Accounted(s, RollbackAll(s, e, log, workflow), e.recs[x], e.steps, workflow)
              && e.recs[x].id in RollbackAll(s, e, log, workflow).steps
              && RollbackAll(s, e, log, workflow).steps[e.recs[x].id] == Outcome(e.recs[x], e.steps)
  {
    if log != [] {
      var last := |log| - 1;
      var init, x := log[..last], log[last];
      assert log == init + [x];
      RollbackAllEffect(s, e, init, workflow);
      var r := RollbackAll(s, e, init, workflow);
      hide RollbackStep, Framed, Accounted, Outcome;
      StepFrame(s, r, e, init, x, workflow);
      FramedKeys(s, r, e, init);
      StepAccounts(s, r, e, init, x, workflow);
      FramedKeys(s, RollbackStep(r, e.recs[x], e.steps, workflow), e, log);
      forall y | y in init
        ensures Accounted(s, RollbackStep(r, e.recs[x], e.steps, workflow), e.recs[y], e.steps, workflow)
        ensures e.recs[y].id in RollbackStep(r, e.recs[x], e.steps, workflow).steps
        ensures RollbackStep(r, e.recs[x], e.steps, workflow).steps[e.recs[y].id] == Outcome(e.recs[y], e.steps)
      {
        AccountKept(s, r, e, y, x, workflow);
      }
    }
  }

  lemma FramedKeys(s: State, r: State, e: Env, log: seq<string>)
    requires Loggable(e, log) && Framed(s, r, e, log)
    ensures CountersFresh(r) && s.nextQueue <= r.nextQueue && s.nextDeadLetter <= r.nextDeadLetter
    ensures r.steps.Keys == s.steps.Keys
  {
  }
}
