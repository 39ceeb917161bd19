/** What every transition of one instance keeps: the store stays well formed, other instances
    are not touched, and steps only evolve in certain ways. */
module EngineFrames {
  import opened Definitions
  import opened Store
  import opened Queue
  import opened Joins
  import opened JoinStores
  import opened Rollback
  import opened RollbackEffects
  import opened RollbackEngine
  import opened Engine

  // ------------------------------------------------------------------ well-formed stores

  predicate Increasing(ids: seq<int>) {
    forall a, b | 0 <= a < b < |ids| :: ids[a] < ids[b]
  }

  /** Every step is filed under its id and, once, under its instance, in order of creation. */
  predicate StepsFiled(s: State) {
    && (forall id | id in s.steps ::
          s.steps[id].id == id && id < s.nextStep && s.steps[id].instance in s.instances
            && id in IdsOf(s, s.steps[id].instance))
    && (forall i | i in s.byInstance ::
          Increasing(s.byInstance[i]) && forall id | id in s.byInstance[i] ::
              id in s.steps && s.steps[id].instance == i)
  }

  /** Every queue item names an instance and one of its steps. */
  predicate ItemFiled(s: State, item: QueueItem) {
    && item.instance in s.instances && item.step.Some?
    && item.step.value in s.steps && s.steps[item.step.value].instance == item.instance
  }

  predicate Numbered(s: State) {
    && (forall q | q in s.queue :: q < s.nextQueue)
    && (forall d | d in s.deadLetters :: d < s.nextDeadLetter)
    && (forall i | i in s.instances :: i < s.nextInstance)
  }

  /** A step was made from its definition; a join step has no retries of its own. */
  predicate Made(rec: StepRec, steps: Steps) {
    && rec.name in steps && rec.retryCount >= 0 && rec.compRetries >= 0
    && (rec.maxRetries == steps[rec.name].maxRetries || (rec.maxRetries == 0 && rec.kind == Join))
    && rec.kind == steps[rec.name].kind
  }

  predicate AllMade(s: State) {
    forall id | id in s.steps ::
      var i := s.steps[id].instance;
      i in s.instances && s.instances[i].workflow in s.definitions && Made(s.steps[id], DefinitionOf(s, i).steps)
  }

  /** Every join belongs to an instance and lists no step twice or on both sides. */
  predicate JoinsFiled(s: State) {
    forall k | k in s.joins :: k.0 in s.instances && Consistent(s.joins[k])
  }

  predicate WellFormed(s: State) {
    && StepsFiled(s) && (forall q | q in s.queue :: ItemFiled(s, s.queue[q])) && Numbered(s)
    && AllMade(s) && NoHumans(s) && JoinsFiled(s)
  }

  // ------------------------------------------------------------------ how a step may evolve

  predicate SameStep(a: StepRec, b: StepRec) {
    a.id == b.id && a.instance == b.instance && a.name == b.name && a.kind == b.kind && a.maxRetries == b.maxRetries
  }

  /** The number of compensation attempts the definition allows. */
  function CompMax(name: string, steps: Steps): int {
    if name in steps && steps[name].onFailure in steps then steps[steps[name].onFailure].maxRetries else 0
  }

  /** The step is being executed or was executed to an end. */
  predicate Executing(status: StepStatus) {
    status == Running || status == Completed || status == Failed
  }

  /** A step enters compensation with one more attempt than before, within the limit, or with
      none; it never leaves compensation silently; attempts to run it only grow; no step is
      executed on the side. */
  predicate Calm(a: StepRec, b: StepRec, steps: Steps) {
    && a.retryCount <= b.retryCount
    && (Executing(b.status) ==> Executing(a.status))
    && (a.status == Compensation ==> a == b)
    && (b.status != Compensation ==> b.compRetries == a.compRetries)
    && (a.status != Compensation && b.status == Compensation ==>
          b.compRetries == 0 || (b.compRetries == a.compRetries + 1 && a.compRetries < CompMax(a.name, steps)))
  }

  // ------------------------------------------------------------------ the frame

  /** Only instance i changes: its status, its steps and its queue items. */
  ghost predicate Local(s: State, r: State, i: int) {
    && r.definitions == s.definitions && r.clock == s.clock && r.nextInstance == s.nextInstance
    && s.nextStep <= r.nextStep && s.nextQueue <= r.nextQueue
    && r.instances.Keys == s.instances.Keys
    && (forall j | j in s.instances :: r.instances[j].workflow == s.instances[j].workflow)
    && (forall j | j in s.instances && j != i :: r.instances[j] == s.instances[j])
    && (forall j | j != i :: (j in r.cancels <==> j in s.cancels) && IdsOf(r, j) == IdsOf(s, j))
    && (i in r.cancels ==> i in s.cancels)
    && LocalSteps(s, r, i) && LocalItems(s, r, i) && LocalJoins(s, r, i)
  }

  ghost predicate LocalJoins(s: State, r: State, i: int) {
    forall j, n | j != i :: JoinAt(r, j, n) == JoinAt(s, j, n)
  }

  predicate LocalSteps(s: State, r: State, i: int) {
    && (forall id | id in s.steps :: id in r.steps && SameStep(s.steps[id], r.steps[id]))
    && (forall id | id in s.steps && s.steps[id].instance != i :: r.steps[id] == s.steps[id])
    && (forall id | id in r.steps && id !in s.steps :: r.steps[id].instance == i && id >= s.nextStep)
  }

  predicate LocalItems(s: State, r: State, i: int) {
    && (forall q | q in s.queue && s.queue[q].instance != i :: q in r.queue && r.queue[q] == s.queue[q])
    && (forall q | q in r.queue && q in s.queue ::
          r.queue[q].instance == s.queue[q].instance && r.queue[q].step == s.queue[q].step)
    && (forall q | q in r.queue && q !in s.queue :: r.queue[q].instance == i && q >= s.nextQueue)
  }

  predicate CalmAll(s: State, r: State, steps: Steps) {
    forall id | id in s.steps :: id in r.steps && Calm(s.steps[id], r.steps[id], steps)
  }

  /** New queue items are for new steps or for compensation, not for executing a step again. */
  predicate NoReruns(s: State, r: State) {
    forall q | q in r.queue && q !in s.queue ::
      r.queue[q].step.Some? && r.queue[q].step.value in r.steps && !Executing(r.steps[r.queue[q].step.value].status)
  }

  /** A well-formed continuation that touches one instance, keeps its steps calm, executes
      nothing again and does not enter the dead-letter state. */
  ghost predicate Tame(s: State, r: State, i: int, steps: Steps) {
    && WellFormed(r) && Local(s, r, i) && CalmAll(s, r, steps) && NoReruns(s, r)
    && (IsDlq(r, i) ==> IsDlq(s, i))
  }

  lemma TameRefl(s: State, i: int, steps: Steps)
    requires WellFormed(s)
    ensures Tame(s, s, i, steps)
  {
  }

  lemma TameWell(s: State, r: State, i: int, steps: Steps)
    requires Tame(s, r, i, steps)
    ensures WellFormed(r) && Local(s, r, i)
  {
  }

  lemma WellParts(s: State)
    requires WellFormed(s)
    ensures StepsFiled(s) && (forall q | q in s.queue :: ItemFiled(s, s.queue[q])) && Numbered(s)
    ensures AllMade(s) && NoHumans(s) && JoinsFiled(s)
  {
    hide StepsFiled, ItemFiled, Numbered, AllMade, NoHumans, JoinsFiled;
  }

  lemma WellIs(s: State)
    requires StepsFiled(s) && (forall q | q in s.queue :: ItemFiled(s, s.queue[q])) && Numbered(s)
    requires AllMade(s) && NoHumans(s) && JoinsFiled(s)
    ensures WellFormed(s)
  {
    hide StepsFiled, ItemFiled, Numbered, AllMade, NoHumans, JoinsFiled;
  }

  lemma LocalTrans(s: State, r: State, u: State, i: int)
    requires StepsFiled(s) && Numbered(s) && Local(s, r, i) && Local(r, u, i)
    ensures Local(s, u, i)
  {
    assert forall j | j != i :: IdsOf(u, j) == IdsOf(s, j) && (j in u.cancels <==> j in s.cancels) by {
      hide LocalSteps, LocalItems, LocalJoins, StepsFiled, Numbered, IdsOf;
    }
    assert LocalJoins(s, u, i) by {
      hide LocalSteps, LocalItems, StepsFiled, Numbered, IdsOf;
    }
    StepsTrans(s, r, u, i);
    hide StepsFiled, Numbered, LocalSteps, LocalItems, LocalJoins, IdsOf;
  }

  lemma StepsTrans(s: State, r: State, u: State, i: int)
    requires StepsFiled(s) && Numbered(s) && Local(s, r, i) && Local(r, u, i)
    ensures LocalSteps(s, u, i) && LocalItems(s, u, i)
  {
    assert LocalSteps(s, r, i) && LocalSteps(r, u, i) && LocalItems(s, r, i) && LocalItems(r, u, i);
    assert s.nextStep <= r.nextStep && s.nextQueue <= r.nextQueue;
    hide Local, LocalJoins, IdsOf;
  }

  lemma TameTrans(s: State, r: State, u: State, i: int, steps: Steps)
    requires WellFormed(s) && Tame(s, r, i, steps) && Tame(r, u, i, steps)
    ensures Tame(s, u, i, steps)
  {
    WellParts(s);
    assert LocalSteps(s, r, i) by {
      hide WellFormed, CalmAll, NoReruns;
    }
    hide WellFormed, Local, NoReruns, StepsFiled, Numbered, CalmAll, IsDlq, LocalSteps;
    LocalTrans(s, r, u, i);
    RerunsTrans(s, r, u, i, steps);
    CalmTrans(s, r, u, i, steps);
  }

  lemma CalmTrans(s: State, r: State, u: State, i: int, steps: Steps)
    requires CalmAll(s, r, steps) && CalmAll(r, u, steps) && LocalSteps(s, r, i)
    ensures CalmAll(s, u, steps)
  {
    forall id | id in s.steps
      ensures id in u.steps && Calm(s.steps[id], u.steps[id], steps)
    {
      assert Calm(s.steps[id], r.steps[id], steps) && Calm(r.steps[id], u.steps[id], steps);
    }
  }

  lemma RerunsTrans(s: State, r: State, u: State, i: int, steps: Steps)
    requires Tame(s, r, i, steps) && Tame(r, u, i, steps)
    ensures NoReruns(s, u)
  {
    assert LocalItems(r, u, i) && CalmAll(r, u, steps) && NoReruns(s, r) && NoReruns(r, u);
    hide WellFormed, Local, Tame;
    forall q | q in u.queue && q !in s.queue
      ensures u.queue[q].step.Some? && u.queue[q].step.value in u.steps
              && !Executing(u.steps[u.queue[q].step.value].status)
    {
      if q in r.queue {
        var id := r.queue[q].step.value;
        assert Calm(r.steps[id], u.steps[id], steps);
      }
    }
  }

  // ------------------------------------------------------------------ small store changes

  /** Only the records of steps of instance i change. */
  predicate Restepped(s: State, r: State, i: int) {
    && r == s.(steps := r.steps) && r.steps.Keys == s.steps.Keys
    && forall id | id in s.steps ::
         && SameStep(s.steps[id], r.steps[id]) && r.steps[id].retryCount >= 0 && r.steps[id].compRetries >= 0
         && (s.steps[id].instance != i ==> r.steps[id] == s.steps[id])
  }

  lemma RestepFiled(s: State, r: State, i: int)
    requires WellFormed(s) && Restepped(s, r, i)
    ensures StepsFiled(r) && Numbered(r) && NoHumans(r) && JoinsFiled(r)
    ensures forall q | q in s.queue :: ItemFiled(r, s.queue[q])
  {
    assert StepsFiled(r) by {
      hide AllMade, ItemFiled;
      assert forall j :: IdsOf(r, j) == IdsOf(s, j);
    }
    hide StepsFiled, AllMade;
    forall q | q in s.queue
      ensures ItemFiled(r, s.queue[q])
    {
      RestepItem(s, r, i, s.queue[q]);
    }
  }

  lemma RestepItem(s: State, r: State, i: int, item: QueueItem)
    requires Restepped(s, r, i) && ItemFiled(s, item)
    ensures ItemFiled(r, item)
  {
    var id: int := item.step.value;
    assert id in s.steps && SameStep(s.steps[id], r.steps[id]);
  }

  lemma RestepMade(s: State, r: State, i: int)
    requires WellFormed(s) && Restepped(s, r, i)
    ensures AllMade(r)
  {
    assert AllMade(s);
    hide WellFormed, StepsFiled;
    forall id | id in r.steps
      ensures var i := r.steps[id].instance;
              i in r.instances && r.instances[i].workflow in r.definitions
                && Made(r.steps[id], DefinitionOf(r, i).steps)
    {
      assert Made(s.steps[id], DefinitionOf(s, s.steps[id].instance).steps);
    }
  }

  lemma RestepLocal(s: State, r: State, i: int)
    requires WellFormed(s) && Restepped(s, r, i)
    ensures WellFormed(r) && Local(s, r, i)
  {
    hide WellFormed, StepsFiled, AllMade, NoHumans, Numbered, ItemFiled, JoinsFiled, Local;
    RestepFiled(s, r, i);
    RestepMade(s, r, i);
    WellIs(r);
    RestepFrame(s, r, i);
  }

  lemma RestepFrame(s: State, r: State, i: int)
    requires Restepped(s, r, i)
    ensures Local(s, r, i)
  {
    assert LocalSteps(s, r, i);
    hide LocalSteps;
    assert forall j :: IdsOf(r, j) == IdsOf(s, j);
  }

  lemma RestepTame(s: State, r: State, i: int, steps: Steps)
    requires WellFormed(s) && Restepped(s, r, i) && CalmAll(s, r, steps)
    ensures Tame(s, r, i, steps)
  {
    hide WellFormed, Local, CalmAll;
    RestepLocal(s, r, i);
  }

  lemma CountsNotNegative(s: State, id: int)
    requires WellFormed(s) && id in s.steps
    ensures s.steps[id].retryCount >= 0 && s.steps[id].compRetries >= 0 && s.steps[id].id == id
  {
    hide IdsOf;
  }

  lemma AllCounts(s: State)
    requires WellFormed(s)
    ensures forall id | id in s.steps :: s.steps[id].retryCount >= 0 && s.steps[id].compRetries >= 0
  {
    hide WellFormed;
    forall id | id in s.steps
      ensures s.steps[id].retryCount >= 0 && s.steps[id].compRetries >= 0
    {
      CountsNotNegative(s, id);
    }
  }

  /** The record of one step of instance i is replaced. */
  function Put(s: State, rec: StepRec): State {
    s.(steps := s.steps[rec.id := rec])
  }

  lemma PutRestepped(s: State, rec: StepRec, i: int)
    requires WellFormed(s) && rec.id in s.steps && s.steps[rec.id].instance == i
    requires SameStep(s.steps[rec.id], rec) && rec.compRetries >= 0 && rec.retryCount >= 0
    ensures Restepped(s, Put(s, rec), i)
  {
    hide WellFormed;
    AllCounts(s);
  }

  lemma PutLocal(s: State, rec: StepRec, i: int)
    requires WellFormed(s) && rec.id in s.steps && s.steps[rec.id].instance == i
    requires SameStep(s.steps[rec.id], rec) && rec.compRetries >= 0 && rec.retryCount >= 0
    ensures WellFormed(Put(s, rec)) && Local(s, Put(s, rec), i)
  {
    PutRestepped(s, rec, i);
    RestepLocal(s, Put(s, rec), i);
  }

  lemma PutTame(s: State, rec: StepRec, i: int, steps: Steps)
    requires WellFormed(s) && rec.id in s.steps && s.steps[rec.id].instance == i
    requires SameStep(s.steps[rec.id], rec) && Calm(s.steps[rec.id], rec, steps)
    requires rec.compRetries >= 0 && rec.retryCount >= 0
    ensures Tame(s, Put(s, rec), i, steps)
  {
    hide WellFormed, Local;
    PutLocal(s, rec, i);
    assert CalmAll(s, Put(s, rec), steps);
    hide CalmAll;
  }

  lemma UpdateTame(s: State, id: int, status: StepStatus, i: int, steps: Steps)
    requires WellFormed(s) && id in s.steps && s.steps[id].instance == i
    requires s.steps[id].status != Compensation && status != Compensation
    requires Executing(status) ==> Executing(s.steps[id].status)
    ensures Tame(s, UpdateStep(s, id, status), i, steps)
  {
    CountsNotNegative(s, id);
    hide WellFormed;
    PutTame(s, WithStatus(s.steps[id], status), i, steps);
  }

  lemma EnqueueLocal(s: State, i: int, id: int, priority: int, delay: real)
    requires WellFormed(s) && id in s.steps && s.steps[id].instance == i
    ensures WellFormed(Enqueue(s, i, id, priority, delay)) && Local(s, Enqueue(s, i, id, priority, delay), i)
  {
    hide WellFormed, StepsFiled, AllMade, NoHumans, ItemFiled, JoinsFiled, Local;
    WellParts(s);
    var r := Enqueue(s, i, id, priority, delay);
    EnqueueItems(s, i, id, priority, delay);
    SameFiling(s, r);
    EnqueueFrame(s, i, id, priority, delay);
  }

  lemma EnqueueItems(s: State, i: int, id: int, priority: int, delay: real)
    requires StepsFiled(s) && Numbered(s) && JoinsFiled(s) && (forall q | q in s.queue :: ItemFiled(s, s.queue[q]))
    requires id in s.steps && s.steps[id].instance == i
    ensures var r := Enqueue(s, i, id, priority, delay);
            && (forall q | q in r.queue :: q < r.nextQueue && ItemFiled(s, r.queue[q]))
            && (forall d | d in r.deadLetters :: d < r.nextDeadLetter)
            && (forall k | k in r.joins :: k.0 in s.instances && Consistent(r.joins[k]))
  {
    hide IdsOf, Consistent;
  }

  lemma EnqueueFrame(s: State, i: int, id: int, priority: int, delay: real)
    requires forall q | q in s.queue :: q < s.nextQueue
    ensures Local(s, Enqueue(s, i, id, priority, delay), i)
  {
    var r := Enqueue(s, i, id, priority, delay);
    assert LocalItems(s, r, i);
    hide LocalItems;
    assert forall j :: IdsOf(r, j) == IdsOf(s, j);
  }

  lemma EnqueueTame(s: State, i: int, id: int, priority: int, delay: real, steps: Steps)
    requires WellFormed(s) && id in s.steps && s.steps[id].instance == i && !Executing(s.steps[id].status)
    ensures Tame(s, Enqueue(s, i, id, priority, delay), i, steps)
  {
    hide WellFormed, Local;
    EnqueueLocal(s, i, id, priority, delay);
  }

  lemma SetInstanceLocal(s: State, i: int, status: WorkflowStatus)
    requires WellFormed(s)
    ensures WellFormed(SetInstance(s, i, status)) && Local(s, SetInstance(s, i, status), i)
  {
    hide WellFormed, Local;
    SetInstanceWell(s, i, status);
    SetInstanceFrame(s, i, status);
  }

  lemma SetInstanceFrame(s: State, i: int, status: WorkflowStatus)
    ensures Local(s, SetInstance(s, i, status), i)
  {
    var r := SetInstance(s, i, status);
    SetInstanceShape(s, i, status);
    hide SetInstance;
    assert forall j :: IdsOf(r, j) == IdsOf(s, j);
    assert LocalSteps(s, r, i) && LocalItems(s, r, i) && LocalJoins(s, r, i);
    hide LocalSteps, LocalItems, LocalJoins, IdsOf;
  }

  lemma SetInstanceTame(s: State, i: int, status: WorkflowStatus, steps: Steps)
    requires WellFormed(s) && status != WfDLQ
    ensures Tame(s, SetInstance(s, i, status), i, steps)
  {
    hide WellFormed, Local;
    SetInstanceLocal(s, i, status);
  }

  lemma SetInstanceWell(s: State, i: int, status: WorkflowStatus)
    requires WellFormed(s)
    ensures WellFormed(SetInstance(s, i, status))
  {
    hide WellFormed, StepsFiled, AllMade, ItemFiled, NoHumans, Consistent;
    WellParts(s);
    SetInstanceShape(s, i, status);
    hide SetInstance;
    SameFiling(s, SetInstance(s, i, status));
  }

  lemma SetInstanceShape(s: State, i: int, status: WorkflowStatus)
    ensures var r := SetInstance(s, i, status);
            && r == s.(instances := r.instances) && r.instances.Keys == s.instances.Keys
            && (forall j | j in s.instances :: r.instances[j].workflow == s.instances[j].workflow)
            && (forall j | j in s.instances && j != i :: r.instances[j] == s.instances[j])
  {
  }

  /** Well-formedness looks only at which instances there are and what they run. */
  lemma SameFiling(s: State, r: State)
    requires WellFormed(s) && r.definitions == s.definitions && r.steps == s.steps && r.byInstance == s.byInstance
    requires r.instances.Keys == s.instances.Keys && forall j | j in s.instances ::
               r.instances[j].workflow == s.instances[j].workflow
    requires r.nextStep == s.nextStep && r.nextInstance == s.nextInstance && s.nextQueue <= r.nextQueue
    requires forall q | q in r.queue :: q < r.nextQueue && ItemFiled(s, r.queue[q])
    requires forall d | d in r.deadLetters :: d < r.nextDeadLetter
    requires forall k | k in r.joins :: k.0 in s.instances && Consistent(r.joins[k])
    ensures WellFormed(r)
  {
    assert StepsFiled(r) by {
      hide AllMade;
      assert forall j :: IdsOf(r, j) == IdsOf(s, j);
    }
    assert AllMade(r) by {
      assert AllMade(s);
      hide WellFormed, StepsFiled, Made;
    }
  }

  lemma CreateTame(s: State, i: int, name: string, kind: StepType, status: StepStatus, max: int, steps: Steps)
    requires WellFormed(s) && i in s.instances && s.instances[i].workflow in s.definitions
    requires steps == DefinitionOf(s, i).steps && name in steps && kind == steps[name].kind
    requires max == steps[name].maxRetries || (max == 0 && kind == Join)
    ensures Tame(s, CreateStep(s, i, name, kind, status, max), i, steps)
  {
    hide WellFormed, Local, CalmAll;
    CreateWell(s, i, name, kind, status, max, steps);
    FreshStep(s);
    CreateLocal(s, i, name, kind, status, max, steps);
  }

  lemma FreshStep(s: State)
    requires WellFormed(s)
    ensures s.nextStep !in s.steps
  {
    hide AllMade, ItemFiled, IdsOf;
  }

  lemma CreateLocal(s: State, i: int, name: string, kind: StepType, status: StepStatus, max: int, steps: Steps)
    requires s.nextStep !in s.steps
    ensures var r := CreateStep(s, i, name, kind, status, max);
            Local(s, r, i) && CalmAll(s, r, steps)
  {
    var r := CreateStep(s, i, name, kind, status, max);
    assert forall j | j != i :: IdsOf(r, j) == IdsOf(s, j);
    assert LocalSteps(s, r, i) && CalmAll(s, r, steps);
    assert LocalItems(s, r, i);
    hide LocalSteps, LocalItems, CalmAll;
  }

  lemma CreateWell(s: State, i: int, name: string, kind: StepType, status: StepStatus, max: int, steps: Steps)
    requires WellFormed(s) && i in s.instances && s.instances[i].workflow in s.definitions
    requires steps == DefinitionOf(s, i).steps && name in steps && kind == steps[name].kind
    requires max == steps[name].maxRetries || (max == 0 && kind == Join)
    ensures WellFormed(CreateStep(s, i, name, kind, status, max))
  {
    hide WellFormed, StepsFiled, AllMade, NoHumans, Numbered, ItemFiled, JoinsFiled, IdsOf, Made;
    WellParts(s);
    var r := CreateStep(s, i, name, kind, status, max);
    CreateFiled(s, i, name, kind, status, max);
    CreateMade(s, i, name, kind, status, max, steps);
    CreateItems(s, i, name, kind, status, max);
    WellIs(r);
  }

  lemma CreateMade(s: State, i: int, name: string, kind: StepType, status: StepStatus, max: int, steps: Steps)
    requires AllMade(s) && i in s.instances && s.instances[i].workflow in s.definitions
    requires steps == DefinitionOf(s, i).steps && name in steps && kind == steps[name].kind
    requires max == steps[name].maxRetries || (max == 0 && kind == Join)
    ensures AllMade(CreateStep(s, i, name, kind, status, max))
  {
  }

  lemma CreateItems(s: State, i: int, name: string, kind: StepType, status: StepStatus, max: int)
    requires StepsFiled(s) && Numbered(s) && NoHumans(s) && JoinsFiled(s) && forall q | q in s.queue ::
               ItemFiled(s, s.queue[q])
    ensures var r := CreateStep(s, i, name, kind, status, max);
            Numbered(r) && NoHumans(r) && JoinsFiled(r) && forall q | q in r.queue :: ItemFiled(r, r.queue[q])
  {
    hide IdsOf;
    assert s.nextStep !in s.steps;
    hide StepsFiled, Consistent;
  }

  lemma CreateFiled(s: State, i: int, name: string, kind: StepType, status: StepStatus, max: int)
    requires StepsFiled(s) && i in s.instances
    ensures StepsFiled(CreateStep(s, i, name, kind, status, max))
  {
    var r := CreateStep(s, i, name, kind, status, max);
    var n := s.nextStep;
    assert n !in s.steps;
    forall id | id in r.steps
      ensures r.steps[id].id == id && id < r.nextStep && r.steps[id].instance in r.instances
              && id in IdsOf(r, r.steps[id].instance)
    {
      if id == n {
        assert IdsOf(r, i)[|IdsOf(s, i)|] == n;
      } else {
        assert s.steps[id].id == id;
      }
    }
    forall j | j in r.byInstance
      ensures Increasing(r.byInstance[j]) && forall id | id in r.byInstance[j] ::
                id in r.steps && r.steps[id].instance == j
    {
      var ids := IdsOf(s, j);
      assert Increasing(ids) && forall id | id in ids :: id in s.steps && s.steps[id].instance == j;
      if j == i {
        assert r.byInstance[j] == ids + [n];
        forall a | 0 <= a < |ids|
          ensures ids[a] < n
        {
          assert ids[a] in s.steps;
        }
      }
    }
  }

  lemma SkipTame(s: State, ids: set<int>, i: int, steps: Steps)
    requires WellFormed(s)
    requires forall id | id in ids && id in s.steps :: s.steps[id].instance == i && s.steps[id].status != Compensation
    ensures Tame(s, SkipAll(s, ids), i, steps)
  {
    hide WellFormed, Tame;
    AllCounts(s);
    RestepTame(s, SkipAll(s, ids), i, steps);
  }

  /** Items of instance i may leave the queue or be rescheduled. */
  predicate Requeued(s: State, r: State, i: int) {
    && r == s.(queue := r.queue)
    && (forall q | q in r.queue ::
          q in s.queue && r.queue[q].instance == s.queue[q].instance && r.queue[q].step == s.queue[q].step)
    && (forall q | q in s.queue && s.queue[q].instance != i :: q in r.queue && r.queue[q] == s.queue[q])
  }

  lemma RequeueTame(s: State, r: State, i: int, steps: Steps)
    requires WellFormed(s) && Requeued(s, r, i)
    ensures Tame(s, r, i, steps)
  {
    hide WellFormed, Local;
    RequeueWell(s, r, i);
    RequeueLocal(s, r, i);
  }

  lemma RequeueLocal(s: State, r: State, i: int)
    requires Requeued(s, r, i)
    ensures Local(s, r, i)
  {
    assert forall j :: IdsOf(r, j) == IdsOf(s, j);
    assert LocalItems(s, r, i);
    hide LocalItems;
  }

  lemma RequeueWell(s: State, r: State, i: int)
    requires WellFormed(s) && Requeued(s, r, i)
    ensures WellFormed(r)
  {
    hide WellFormed;
    ShrinkWell(s, r);
  }

  /** Losing queue items does no harm to the filing. */
  lemma ShrinkWell(s: State, r: State)
    requires WellFormed(s) && r == s.(queue := r.queue)
    requires forall q | q in r.queue ::
               q in s.queue && r.queue[q].instance == s.queue[q].instance && r.queue[q].step == s.queue[q].step
    ensures WellFormed(r)
  {
    hide StepsFiled, AllMade, NoHumans, Consistent;
    forall q | q in r.queue
      ensures q < r.nextQueue && ItemFiled(s, r.queue[q])
    {
      assert ItemFiled(s, s.queue[q]);
    }
    SameFiling(s, r);
  }

  lemma RemoveTame(s: State, q: int, i: int, steps: Steps)
    requires WellFormed(s) && (q in s.queue ==> s.queue[q].instance == i)
    ensures Tame(s, Remove(s, q), i, steps)
  {
    RequeueTame(s, Remove(s, q), i, steps);
  }

  lemma HandBackTame(s: State, q: int, cooldown: real, i: int, steps: Steps)
    requires WellFormed(s) && (q in s.queue ==> s.queue[q].instance == i)
    ensures Tame(s, HandBack(s, q, cooldown), i, steps)
  {
    assert Requeued(s, HandBack(s, q, cooldown), i) by {
      hide WellFormed, Tame;
    }
    hide WellFormed, Tame, HandBack, Requeued;
    RequeueTame(s, HandBack(s, q, cooldown), i, steps);
  }

  lemma FreezeTame(s: State, i: int, steps: Steps)
    requires WellFormed(s)
    ensures Tame(s, Freeze(s, i), i, steps)
    ensures forall q | q in Freeze(s, i).queue :: Freeze(s, i).queue[q].instance != i
  {
    hide WellFormed, Tame, IdsOf;
    var m := s.(steps := Freeze(s, i).steps);
    AllCounts(s);
    FrozenAreOwn(s, i);
    FreezeResteps(s, i);
    hide Restepped, Requeued, CalmAll;
    RestepTame(s, m, i, steps);
    TameWell(s, m, i, steps);
    hide Freeze;
    RequeueTame(m, Freeze(s, i), i, steps);
    TameTrans(s, m, Freeze(s, i), i, steps);
  }

  lemma FreezeResteps(s: State, i: int)
    requires forall id | id in s.steps :: s.steps[id].retryCount >= 0 && s.steps[id].compRetries >= 0
    requires forall id | id in IdsOf(s, i) :: id in s.steps && s.steps[id].instance == i
    ensures var m := s.(steps := Freeze(s, i).steps);
            && Restepped(s, m, i) && (forall steps :: CalmAll(s, m, steps)) && Requeued(m, Freeze(s, i), i)
            && forall q | q in Freeze(s, i).queue :: Freeze(s, i).queue[q].instance != i
  {
  }

  lemma FrozenAreOwn(s: State, i: int)
    requires WellFormed(s)
    ensures forall id | id in IdsOf(s, i) :: id in s.steps && s.steps[id].instance == i
  {
  }

  lemma DeadLetterTame(s: State, rec: StepRec, workflow: string, i: int, steps: Steps)
    requires WellFormed(s)
    ensures Tame(s, CreateDeadLetter(s, rec, workflow), i, steps)
  {
    var r := CreateDeadLetter(s, rec, workflow);
    assert WellFormed(r) by {
      hide StepsFiled, AllMade, NoHumans, ItemFiled, Consistent;
      SameFiling(s, r);
    }
    hide WellFormed;
    SideTame(s, r, i, steps);
  }

  lemma ForgetTame(s: State, i: int, steps: Steps)
    requires WellFormed(s)
    ensures Tame(s, ForgetCancel(s, i), i, steps)
  {
    var r := ForgetCancel(s, i);
    assert WellFormed(r) by {
      hide StepsFiled, AllMade, NoHumans, ItemFiled, Consistent;
      SameFiling(s, r);
    }
    hide WellFormed;
    SideTame(s, r, i, steps);
  }

  /** Dead letters and the instance's own cancel request do not matter to the frame. */
  lemma SideTame(s: State, r: State, i: int, steps: Steps)
    requires WellFormed(r) && r == s.(deadLetters := r.deadLetters, nextDeadLetter := r.nextDeadLetter,
                                      cancels := r.cancels)
    requires (forall j | j != i :: j in r.cancels <==> j in s.cancels) && (i in r.cancels ==> i in s.cancels)
    ensures Tame(s, r, i, steps)
  {
    hide WellFormed;
    assert forall j :: IdsOf(r, j) == IdsOf(s, j);
    assert Local(s, r, i);
    hide Local;
  }

  // ------------------------------------------------------------------ joins

  lemma StepConsistent(j: Option<JoinState>, op: JoinOp)
    requires j.Some? ==> Consistent(j.value)
    ensures After(j, op).Some? ==> Consistent(After(j, op).value)
  {
    match op
    case CreateOp(_, _) =>
    case NotifyOp(step, success) =>
      if j.Some? { NotifiedConsistent(j.value, step, success); }
    case AddOp(step) =>
      if j.Some? { WaitAddedConsistent(j.value, step); }
    case ReplaceOp(v, r, status) =>
      if j.Some? { WaitReplacedConsistent(j.value, v, r, status); }
  }

  lemma JoinStepWell(s: State, i: int, n: string, op: JoinOp)
    requires WellFormed(s) && i in s.instances
    ensures WellFormed(JoinStep(s, i, n, op))
  {
    hide WellFormed, Consistent, After, JoinStep;
    JoinStepLocal(s, i, n, op);
    JoinsAfter(s, i, n, op);
    JoinsOnlyWell(s, JoinStep(s, i, n, op));
  }

  lemma JoinsAfter(s: State, i: int, n: string, op: JoinOp)
    requires WellFormed(s) && i in s.instances
    ensures forall k | k in JoinStep(s, i, n, op).joins ::
              k.0 in s.instances && Consistent(JoinStep(s, i, n, op).joins[k])
  {
    assert JoinsFiled(s);
    hide WellFormed, Consistent, After, JoinStep;
    StepConsistent(JoinAt(s, i, n), op);
    forall k | k in JoinStep(s, i, n, op).joins
      ensures k.0 in s.instances && Consistent(JoinStep(s, i, n, op).joins[k])
    {
      JoinStepEntry(s, i, n, op, k);
    }
  }

  lemma JoinStepEntry(s: State, i: int, n: string, op: JoinOp, k: (int, string))
    requires k in JoinStep(s, i, n, op).joins
    ensures || (k in s.joins && JoinStep(s, i, n, op).joins[k] == s.joins[k])
            || (k == (i, n) && After(JoinAt(s, i, n), op) == Some(JoinStep(s, i, n, op).joins[k]))
  {
    hide After, JoinAt;
  }

  lemma JoinsOnlyWell(s: State, r: State)
    requires WellFormed(s) && r == s.(joins := r.joins) && forall k | k in r.joins ::
               k.0 in s.instances && Consistent(r.joins[k])
    ensures WellFormed(r)
  {
    hide WellFormed, StepsFiled, AllMade, NoHumans, ItemFiled, Consistent;
    WellParts(s);
    SameFiling(s, r);
  }

  lemma JoinStepTame(s: State, i: int, n: string, op: JoinOp, steps: Steps)
    requires WellFormed(s) && i in s.instances
    ensures Tame(s, JoinStep(s, i, n, op), i, steps)
  {
    hide WellFormed, Local, JoinStep;
    JoinStepWell(s, i, n, op);
    JoinStepLocal(s, i, n, op);
    JoinsOnlyTame(s, JoinStep(s, i, n, op), i, steps);
  }

  lemma JoinStepLocal(s: State, i: int, n: string, op: JoinOp)
    ensures LocalJoins(s, JoinStep(s, i, n, op), i)
    ensures JoinStep(s, i, n, op) == s.(joins := JoinStep(s, i, n, op).joins)
  {
    hide After;
  }

  lemma JoinsOnlyTame(s: State, r: State, i: int, steps: Steps)
    requires WellFormed(r) && r == s.(joins := r.joins) && LocalJoins(s, r, i)
    ensures Tame(s, r, i, steps)
  {
    hide WellFormed, LocalJoins;
    assert forall j :: IdsOf(r, j) == IdsOf(s, j);
    assert Local(s, r, i);
    hide Local;
  }
}
