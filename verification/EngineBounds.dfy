/** Over every run, how often a step is executed again and how often it is compensated. */
module EngineBounds {
  import opened Definitions
  import opened Store
  import opened Queue
  import opened Engine
  import opened EngineFrames
  import opened EngineTame
  import opened EngineSteps
  import opened EngineRuns

  /** The definition steps of the instance a stored step belongs to. */
  function StepsFor(s: State, x: int): Steps
    requires x in s.steps
  {
    var i := s.steps[x].instance;
    if i in s.instances && s.instances[i].workflow in s.definitions then DefinitionOf(s, i).steps else map[]
  }

  lemma StepsForOwn(s: State, x: int, i: int)
    requires WellFormed(s) && x in s.steps && s.steps[x].instance == i
    ensures i in s.instances && s.instances[i].workflow in s.definitions && StepsFor(s, x) == DefinitionOf(s, i).steps
    ensures Made(s.steps[x], StepsFor(s, x))
  {
    assert AllMade(s);
    hide WellFormed;
  }

  lemma StepsForKept(s: State, r: State, i: int, x: int)
    requires Local(s, r, i) && x in s.steps && s.steps[x].instance in s.instances
    ensures x in r.steps && SameStep(s.steps[x], r.steps[x]) && StepsFor(r, x) == StepsFor(s, x)
  {
  }

  // ------------------------------------------------------------------ one transition, one step

  /** What a transition may do to a stored step. */
  ghost predicate Kept(s: State, r: State, x: int)
    requires x in s.steps
  {
    && x in r.steps && SameStep(s.steps[x], r.steps[x]) && StepsFor(r, x) == StepsFor(s, x)
    && s.steps[x].retryCount <= r.steps[x].retryCount
    && (RetryOf(s, r, x) ==> Permits(s.steps[x], StepsFor(s, x)) && s.steps[x].retryCount < r.steps[x].retryCount)
    && (s.steps[x].status == Compensation && r.steps[x].status == Compensation ==>
          s.steps[x].compRetries <= r.steps[x].compRetries)
    && (s.steps[x].status != Compensation && r.steps[x].status == Compensation ==>
        Entered(s.steps[x], r.steps[x], StepsFor(s, x)))
  }

  /** Compensation begins with one more attempt than before, within the limit, or with none. */
  predicate Entered(a: StepRec, b: StepRec, steps: Steps) {
    b.compRetries == 0 || (b.compRetries == a.compRetries + 1 && b.compRetries <= CompMax(a.name, steps))
  }

  lemma EffectKept(s: State, r: State, i: int, id: int, x: int)
    requires WellFormed(s) && x in s.steps && id in s.steps && s.steps[id].instance == i
    requires Effect(s, r, i, id, StepsFor(s, id))
    ensures Kept(s, r, x)
  {
    StepsForOwn(s, id, i);
    StepsForOwn(s, x, s.steps[x].instance);
    EffectWell(s, r, i, id, StepsFor(s, id));
    StepsForKept(s, r, i, x);
    assert LocalSteps(s, r, i);
    hide WellFormed, Local, StepsFor, Permits, NoItems;
    if s.steps[x].instance == i {
      assert StepsFor(s, x) == StepsFor(s, id) by {
        StepsForOwn(s, id, i);
        StepsForOwn(s, x, i);
      }
    }
  }

  lemma SameKept(s: State, r: State, x: int)
    requires WellFormed(s) && x in s.steps && r.steps == s.steps && r.definitions == s.definitions
    requires forall j | j in s.instances :: j in r.instances && r.instances[j].workflow == s.instances[j].workflow
    requires forall q | q in r.queue :: q in s.queue
    ensures Kept(s, r, x)
  {
    StepsForOwn(s, x, s.steps[x].instance);
    hide WellFormed;
  }

  lemma StartKept(s: State, w: string, accepted: bool, x: int)
    requires WellFormed(s) && x in s.steps && w in s.definitions && accepted
    ensures Kept(s, Start(s, w, accepted), x)
  {
    var m, r, i := WithInstance(s, w), Start(s, w, accepted), s.nextInstance;
    StartTame(s, w, accepted);
    StepsForOwn(s, x, s.steps[x].instance);
    assert Tame(m, r, i, s.definitions[w].steps);
    hide WellFormed, Start;
    assert LocalSteps(m, r, i) && NoReruns(m, r);
    StepsForKept(m, r, i, x);
    hide Local, CalmAll;
    assert r.steps[x] == s.steps[x];
    assert !RetryOf(s, r, x);
  }

  lemma NextKept(s: State, op: Op, aging: Aging, r: State, x: int)
    requires WellFormed(s) && Next(s, op, aging, r) && x in s.steps
    ensures Kept(s, r, x)
  {
    hide WellFormed, Effect, Start, Execute, Stale, Permitted, NoHumans, Kept;
    match op
    case StartOp(w, accepted) =>
      if w in s.definitions && accepted {
        StartKept(s, w, accepted, x);
      } else {
        NotStarted(s, w, accepted);
        SameKept(s, r, x);
      }
    case NextOp(q, o) =>
      ExecuteEffect(s, q, o);
      Found(s, q);
      var i, id := s.queue[q].instance, s.queue[q].step.value;
      if Stale(s, q) {
        SameKept(s, r, x);
      } else {
        StepsForOwn(s, id, i);
        EffectKept(s, r, i, id, x);
      }
    case _ => SameKept(s, r, x);
  }

  // ------------------------------------------------------------------ retries

  /** How often step x was put back into the queue for execution. */
  ghost function RetryCount(states: seq<State>, x: int): nat {
    if |states| < 2 then 0
    else
      var n := |states| - 1;
      RetryCount(states[..n], x) + (if RetryOf(states[n - 1], states[n], x) then 1 else 0)
  }

  lemma RunPrefix(states: seq<State>, ops: seq<Op>, aging: Aging, n: nat)
    requires Run(states, ops, aging) && n <= |ops|
    ensures Run(states[..n + 1], ops[..n], aging)
  {
    forall j | 0 <= j < n
      ensures Next(states[..n + 1][j], ops[..n][j], aging, states[..n + 1][j + 1])
    {
      assert Next(states[j], ops[j], aging, states[j + 1]);
    }
  }

  lemma {:induction false} RunWell(states: seq<State>, ops: seq<Op>, aging: Aging, m: nat)
    requires Run(states, ops, aging) && WellFormed(states[0]) && m < |states|
    ensures WellFormed(states[m])
  {
    if m > 0 {
      RunWell(states, ops, aging, m - 1);
      hide WellFormed, Next;
      assert Next(states[m - 1], ops[m - 1], aging, states[m]);
      NextWell(states[m - 1], ops[m - 1], aging, states[m]);
    }
  }

  /** The number of retries is within the limit and within the recorded count. */
  ghost predicate WithinLimit(s: State, x: int, count: nat) {
    if x in s.steps then
      s.steps[x].name in StepsFor(s, x) && count <= s.steps[x].retryCount
        && count <= RetryLimit(StepsFor(s, x)[s.steps[x].name])
    else count == 0
  }

  lemma LimitStart(s: State, x: int)
    requires WellFormed(s)
    ensures WithinLimit(s, x, 0)
  {
    if x in s.steps {
      StepsForOwn(s, x, s.steps[x].instance);
    }
  }

  lemma LimitStep(s: State, op: Op, aging: Aging, r: State, x: int, count: nat)
    requires WellFormed(s) && WellFormed(r) && Next(s, op, aging, r) && WithinLimit(s, x, count)
    ensures WithinLimit(r, x, count + if RetryOf(s, r, x) then 1 else 0)
  {
    hide WellFormed, Next;
    if x in s.steps {
      NextKept(s, op, aging, r, x);
      hide StepsFor;
    } else {
      LimitStart(r, x);
    }
  }

  /** Retry bound: over every run a step is executed again at most MaxRetries times, and at
      most once when it is not idempotent. */
  lemma {:induction false} RetryBound(states: seq<State>, ops: seq<Op>, aging: Aging, x: int)
    requires Run(states, ops, aging) && WellFormed(states[0])
    ensures WithinLimit(states[|ops|], x, RetryCount(states, x))
    decreases |ops|
  {
    if ops == [] {
      LimitStart(states[0], x);
    } else {
      var n := |ops| - 1;
      RunPrefix(states, ops, aging, n);
      assert states[..n + 1][0] == states[0];
      RetryBound(states[..n + 1], ops[..n], aging, x);
      RunWell(states, ops, aging, n);
      RunWell(states, ops, aging, n + 1);
      hide WellFormed, Next, WithinLimit, RetryOf;
      assert Next(states[n], ops[n], aging, states[n + 1]);
      LimitStep(states[n], ops[n], aging, states[n + 1], x, RetryCount(states[..n + 1], x));
    }
  }

  // ------------------------------------------------------------------ compensation

  predicate AttemptOn(s: State, op: Op, x: int) {
    Called(s, op).Some? && Called(s, op).value.step == x && Called(s, op).value.compensation
  }

  /** An attempt that leaves the step in compensation is counted, and was within the limit. */
  lemma AttemptCounts(s: State, op: Op, aging: Aging, r: State, x: int)
    requires WellFormed(s) && Next(s, op, aging, r) && AttemptOn(s, op, x) && x in s.steps
    requires x in r.steps && r.steps[x].status == Compensation
    ensures s.steps[x].compRetries < CompMax(s.steps[x].name, StepsFor(s, x))
    ensures r.steps[x].compRetries == s.steps[x].compRetries + 1
  {
    hide WellFormed, Local, NoHumans, ExecuteCompensation, Execute, IdsOf, Permitted, CallOf, StepsFor, Tame, Effect;
    AttemptFacts(s, op, x);
    var q, o := op.item, op.choice;
    Found(s, q);
    var i := s.queue[q].instance;
    var rec := s.steps[x];
    var c := s.(queue := Claim(s.queue, q));
    StepsForOwn(s, x, i);
    var steps := DefinitionOf(s, i).steps;
    RequeueTame(s, c, i, steps);
    TameWell(s, c, i, steps);
    AttemptEffect(c, i, rec, steps, o);
    AttemptExecutes(s, q, x, o);
  }

  /** What an attempt finds. */
  lemma AttemptFacts(s: State, op: Op, x: int)
    requires WellFormed(s) && AttemptOn(s, op, x)
    ensures op.NextOp? && op.item in s.queue && s.queue[op.item].step == Some(x) && x in s.steps
    ensures s.steps[x].status == Compensation && !IsDlq(s, s.queue[op.item].instance)
    ensures Defined(s, s.queue[op.item].instance, s.steps[x].name)
    ensures var steps := DefinitionOf(s, s.queue[op.item].instance).steps;
            !Elsewhere(s.steps[x], steps[s.steps[x].name], steps, op.choice)
  {
    Found(s, op.item);
    hide WellFormed, IdsOf, IsDlq, NoHumans;
  }

  lemma AttemptExecutes(s: State, q: int, x: int, o: Choice)
    requires WellFormed(s) && NoHumans(s) && q in s.queue && s.queue[q].step == Some(x) && x in s.steps
    requires s.steps[x].status == Compensation && !IsDlq(s, s.queue[q].instance)
             && Defined(s, s.queue[q].instance, s.steps[x].name)
    requires var steps := DefinitionOf(s, s.queue[q].instance).steps;
             !Elsewhere(s.steps[x], steps[s.steps[x].name], steps, o)
    ensures var i, rec := s.queue[q].instance, s.steps[x];
            var steps := DefinitionOf(s, i).steps;
            Execute(s, q, o) ==
            Remove(ExecuteCompensation(s.(queue := Claim(s.queue, q)), i, rec, steps[rec.name], steps, o), q)
  {
    Found(s, q);
    hide WellFormed, IdsOf, Execute, ExecuteCompensation, IsDlq, Elsewhere, NoHumans;
    ExecuteIsDispatch(s, q, o);
  }

  ghost function Attempts(states: seq<State>, ops: seq<Op>, x: int): nat
    requires |states| == |ops| + 1
  {
    if ops == [] then 0
    else (if AttemptOn(states[0], ops[0], x) then 1 else 0) + Attempts(states[1..], ops[1..], x)
  }

  /** What is left of the attempts the definition allows, and the attempt that ends it. */
  function Budget(rec: StepRec, steps: Steps): nat {
    1 + if rec.compRetries < CompMax(rec.name, steps) then CompMax(rec.name, steps) - rec.compRetries else 0
  }

  /** Compensation bound: while a step stays in compensation its handler runs at most as often
      as its budget allows, whatever else happens. */
  lemma {:induction false} CompensationBound(states: seq<State>, ops: seq<Op>, aging: Aging, x: int)
    requires Run(states, ops, aging) && WellFormed(states[0])
    requires forall j | 0 <= j < |states| :: x in states[j].steps
    requires forall j | 0 <= j < |ops| :: states[j].steps[x].status == Compensation
    ensures ops != [] ==> Attempts(states, ops, x) <= Budget(states[0].steps[x], StepsFor(states[0], x))
    decreases |ops|
  {
    if ops != [] {
      hide WellFormed, Next, StepsFor, AttemptOn;
      var s, r := states[0], states[1];
      assert Next(s, ops[0], aging, r);
      var rest, more := states[1..], ops[1..];
      TailRun(states, ops, aging);
      assert forall j | 0 <= j < |rest| :: x in rest[j].steps;
      forall j | 0 <= j < |more|
        ensures rest[j].steps[x].status == Compensation
      {
        assert states[j + 1].steps[x].status == Compensation;
      }
      NextWell(s, ops[0], aging, r);
      CompensationBound(rest, more, aging, x);
      NextKept(s, ops[0], aging, r, x);
      if more != [] {
        assert rest[0].steps[x].status == Compensation;
        if AttemptOn(s, ops[0], x) {
          AttemptCounts(s, ops[0], aging, r, x);
        }
      }
    }
  }

  lemma TailRun(states: seq<State>, ops: seq<Op>, aging: Aging)
    requires Run(states, ops, aging) && ops != []
    ensures Run(states[1..], ops[1..], aging)
  {
    hide Next;
    forall j | 0 <= j < |ops| - 1
      ensures Next(states[1..][j], ops[1..][j], aging, states[1..][j + 1])
    {
      assert Next(states[j + 1], ops[j + 1], aging, states[j + 2]);
    }
  }

  /** From the transition that puts a step in compensation until it leaves: at most as many
      handler runs as the compensation step has retries, one more when compensation began
      with the counter at zero. */
  lemma CompensationFromEntry(states: seq<State>, ops: seq<Op>, aging: Aging, x: int)
    requires Run(states, ops, aging) && WellFormed(states[0]) && |ops| > 1
    requires forall j | 0 <= j < |states| :: x in states[j].steps
    requires states[0].steps[x].status != Compensation
    requires forall j | 0 < j < |ops| :: states[j].steps[x].status == Compensation
    ensures var max := CompMax(states[0].steps[x].name, StepsFor(states[0], x));
            var runs := Attempts(states[1..], ops[1..], x);
            && (states[1].steps[x].compRetries == 0 ==> runs <= 1 + (if max > 0 then max else 0))
            && (states[1].steps[x].compRetries != 0 ==> runs <= max)
  {
    hide WellFormed, Next, StepsFor, AttemptOn, Attempts;
    var s, r := states[0], states[1];
    assert Next(s, ops[0], aging, r);
    var rest, more := states[1..], ops[1..];
    TailRun(states, ops, aging);
    assert forall j | 0 <= j < |rest| :: x in rest[j].steps;
    forall j | 0 <= j < |more|
      ensures rest[j].steps[x].status == Compensation
    {
      assert states[j + 1].steps[x].status == Compensation;
    }
    StepsForOwn(s, x, s.steps[x].instance);
    NextWell(s, ops[0], aging, r);
    NextKept(s, ops[0], aging, r, x);
    CompensationBound(rest, more, aging, x);
  }
}
