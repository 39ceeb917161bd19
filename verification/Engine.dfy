/** One execution of a queue item as an atomic transition of the store.  What the engine cannot
    foresee (handler results, condition outcomes, registered handlers, the iteration order of the
    definition's map) is a choice made from outside. */
module Engine {
  import opened Definitions
  import opened Graphs
  import opened Store
  import opened Queue
  import opened JoinStores
  import opened Rollback
  import opened RollbackEngine
  import R = Reachability
  import B = Builder

  /** The outside choices of one transition. */
  datatype Choice = Choice(
    handlers: set<string>,   // names of the locally registered handlers
    cooldown: real,          // delay before a missing handler is looked for again
    success: bool,           // the handler or condition ended without an error
    taken: bool,             // the outcome of a condition
    order: seq<string>,      // the iteration order of the definition's map of steps
    stop: string)            // the step at which the rollback stops

  // ------------------------------------------------------------------ small store changes

  /** A new pending step with its queue item. */
  function Spawn(s: State, i: int, name: string, d: StepDef): State {
    Enqueue(CreateStep(s, i, name, d.kind, Pending, d.maxRetries), i, s.nextStep, PRIORITY_NORMAL, d.delay)
  }

  /** The item goes back to the queue for another worker. */
  function HandBack(s: State, q: int, cooldown: real): State {
    s.(queue := if cooldown > 0.0 then Reschedule(s.queue, q, s.clock + cooldown) else Release(s.queue, q))
  }

  function SkipAll(s: State, ids: set<int>): State {
    s.(steps := map id | id in s.steps :: if id in ids then WithStatus(s.steps[id], Skipped) else s.steps[id])
  }

  predicate SomeStep(s: State, i: int, statuses: set<StepStatus>) {
    exists r | r in StepsOf(s, i) :: r.status in statuses
  }

  predicate HasUnfinished(s: State, i: int) {
    SomeStep(s, i, {Pending, Running, Paused})
  }

  predicate Named(s: State, i: int, name: string) {
    exists r | r in StepsOf(s, i) :: r.name == name
  }

  predicate IsDlq(s: State, i: int) {
    i in s.instances && s.instances[i].status == WfDLQ
  }

  // ------------------------------------------------------------------ branches

  /** The first fork, in iteration order, that has the step among the first steps of its
      branches; the empty string when there is none. */
  function ForkOf(steps: Steps, order: seq<string>, name: string): string {
    if order == [] then ""
    else if order[0] in steps && steps[order[0]].kind == Fork && name in steps[order[0]].parallel then order[0]
    else ForkOf(steps, order[1..], name)
  }

  /** The step begins a branch of the fork or descends from a step that does. */
  ghost predicate InBranch(steps: Steps, fork: StepDef, name: string) {
    || name in fork.parallel
    || exists p | p in fork.parallel :: name != "" && p in steps && Reaches(R.PrevGraph(steps), name, p)
  }

  /** The nearest condition on the Prev chain from `current` on. */
  function ConditionAbove(steps: Steps, current: string, visited: set<string>): (r: string)
    ensures r != "" ==> r in steps && steps[r].kind == Condition
    decreases steps.Keys - visited
  {
    if current == "" || current == ROOT_STEP || current in visited || current !in steps then ""
    else if steps[current].kind == Condition then current
    else ConditionAbove(steps, steps[current].prev, visited + {current})
  }

  /** The nearest fork above: a fork on the Prev chain, or one that has a step of the chain
      among the first steps of its branches. */
  function ForkAbove(steps: Steps, order: seq<string>, current: string, visited: set<string>): string
    decreases steps.Keys - visited
  {
    if current == "" || current == ROOT_STEP || current in visited || current !in steps then ""
    else if steps[current].kind == Fork then current
    else if ForkOf(steps, order, current) != "" then ForkOf(steps, order, current)
    else ForkAbove(steps, order, steps[current].prev, visited + {current})
  }

  /** The fork whose branches contain the step. */
  function ForkAround(steps: Steps, order: seq<string>, name: string): string {
    if ForkOf(steps, order, name) != "" || name !in steps then ForkOf(steps, order, name)
    else ForkAbove(steps, order, steps[name].prev, {})
  }

  function FirstJoin(steps: Steps, names: seq<string>): string {
    if names == [] then ""
    else if names[0] in steps && steps[names[0]].kind == Join then names[0]
    else FirstJoin(steps, names[1..])
  }

  /** The join behind the fork whose branches contain the step. */
  function JoinAround(steps: Steps, order: seq<string>, name: string): string {
    var fork := ForkAround(steps, order, name);
    if fork == "" || fork !in steps then "" else FirstJoin(steps, steps[fork].next)
  }

  predicate EndsBranch(steps: Steps, order: seq<string>, name: string) {
    name in steps && steps[name].kind != Join && steps[name].next == [] && ForkAround(steps, order, name) != ""
  }

  // ------------------------------------------------------------------ joins

  /** The fork of the first awaited step that exists and begins a branch. */
  function ForkAwaited(steps: Steps, order: seq<string>, waitFor: seq<string>, recs: seq<StepRec>): string {
    if waitFor == [] then ""
    else
      var fork := if exists r | r in recs :: r.name == waitFor[0] then ForkOf(steps, order, waitFor[0]) else "";
      if fork != "" then fork else ForkAwaited(steps, order, waitFor[1..], recs)
  }

  /** A step of the branches that the join does not wait for is still to be executed. */
  ghost predicate BranchPending(steps: Steps, order: seq<string>, join: StepDef, recs: seq<StepRec>) {
    var fork := ForkAwaited(steps, order, join.waitFor, recs);
    && fork != "" && fork in steps && steps[fork].kind == Fork
    && exists r | r in recs :: (r.status == Pending || r.status == Running)
                               && InBranch(steps, steps[fork], r.name) && r.name !in join.waitFor
  }

  /** The step of a join, unless it exists; paused while the instance is in the dead-letter
      state. */
  function CreateJoin(s: State, i: int, n: string): State {
    if Named(s, i, n) then s
    else if IsDlq(s, i) then CreateStep(s, i, n, Join, Paused, 0)
    else Enqueue(CreateStep(s, i, n, Join, Pending, 0), i, s.nextStep, PRIORITY_NORMAL, 0.0)
  }

  /** Reports an outcome to one join and creates its step when it became ready; false when the
      join has no state. */
  ghost function NotifyJoin(s: State, i: int, steps: Steps, order: seq<string>, n: string, step: string, success: bool)
    : (State, bool)
    requires n in steps
  {
    var s1 := JoinStep(s, i, n, NotifyOp(step, success));
    if JoinAt(s, i, n).None? then (s, false)
    else if !JoinAt(s1, i, n).value.isReady then (s1, true)
    else if BranchPending(steps, order, steps[n], StepsOf(s1, i)) then
      (JoinStep(s1, i, n, NotifyOp(step, success)), true)
    else (CreateJoin(s1, i, n), true)
  }

  /** The join waits for the step, by its present wait list or by its definition. */
  predicate AwaitedBy(s: State, i: int, steps: Steps, n: string, step: string) {
    && n in steps && steps[n].kind == Join
    && (step in steps[n].waitFor || (JoinAt(s, i, n).Some? && step in JoinAt(s, i, n).value.waitingFor))
  }

  /** Reports an outcome to every join of the list that waits for the step; a join without
      state ends the loop with an error. */
  ghost function NotifyAll(s: State, i: int, steps: Steps, order: seq<string>, rest: seq<string>, step: string,
                           success: bool)
    : (State, bool)
    decreases |rest|
  {
    if rest == [] then (s, true)
    else if AwaitedBy(s, i, steps, rest[0], step) then
      var (s1, ok) := NotifyJoin(s, i, steps, order, rest[0], step, success);
      if ok then NotifyAll(s1, i, steps, order, rest[1..], step, success) else (s1, false)
    else NotifyAll(s, i, steps, order, rest[1..], step, success)
  }

  /** Tells the join of the surrounding fork which step ended a branch: below a condition the
      step takes the place of the virtual name; otherwise a step that ends a branch is added. */
  ghost function Settle(s: State, i: int, steps: Steps, order: seq<string>, rec: StepRec, d: StepDef,
                        success: bool): State {
    var condition := ConditionAbove(steps, d.prev, {});
    var join := JoinAround(steps, order, rec.name);
    if condition != "" then
      if join == "" || join !in steps then s
      else
        var status := OldestStatus(StepsOf(s, i), rec.name);
        var s1 := JoinStep(s, i, join, ReplaceOp(VirtualName(condition), rec.name, status));
        NotifyJoin(s1, i, steps, order, join, rec.name, success).0
    else if success && EndsBranch(steps, order, rec.name) && join in steps && join != "" then
      if JoinAt(s, i, join).None? then JoinStep(s, i, join, CreateOp([rec.name], Some(steps[join].strategy)))
      else if exists w | w in JoinAt(s, i, join).value.waitingFor :: w == rec.name || IsVirtual(w) then s
      else JoinStep(s, i, join, AddOp(rec.name))
    else s
  }

  /** The new status of a step and its notifications; false when a join update failed. */
  ghost function Mark(s: State, i: int, rec: StepRec, d: StepDef, steps: Steps, o: Choice, status: StepStatus,
                      settle: bool, success: bool)
    : (State, bool)
  {
    var s1 := UpdateStep(s, rec.id, status);
    var s2 := if settle then Settle(s1, i, steps, o.order, rec, d, success) else s1;
    NotifyAll(s2, i, steps, o.order, o.order, rec.name, success)
  }

  /** The joins behind a fork get their state when the branches start. */
  function OpenJoins(s: State, i: int, steps: Steps, d: StepDef, names: seq<string>): State
    decreases |names|
  {
    if names == [] then s
    else
      var n := names[0];
      var s1 := if n !in steps || steps[n].kind != Join then s
                else JoinStep(s, i, n, CreateOp(if steps[n].waitFor == [] then d.parallel else steps[n].waitFor,
                                                Some(steps[n].strategy)));
      OpenJoins(s1, i, steps, d, names[1..])
  }

  /** A join step succeeds when its join is ready and, for the strategy all, nothing failed. */
  predicate JoinSucceeds(s: State, i: int, name: string) {
    var j := JoinAt(s, i, name);
    j.Some? && j.value.isReady && !(|j.value.failed| > 0 && j.value.strategy == All)
  }

  // ------------------------------------------------------------------ successors

  /** The successors of a completed step; joins are left to their own protocol.  A missing
      definition ends the list. */
  function EnqueueNext(s: State, i: int, steps: Steps, names: seq<string>, skipJoins: bool): State
    decreases |names|
  {
    if names == [] || names[0] !in steps then s
    else
      var d := steps[names[0]];
      var s' := if (skipJoins && d.kind == Join) || IsDlq(s, i) then s else Spawn(s, i, names[0], d);
      EnqueueNext(s', i, steps, names[1..], skipJoins)
  }

  /** The first steps of all branches; false when a branch has no definition. */
  function StartBranches(s: State, i: int, steps: Steps, names: seq<string>): (State, bool)
    decreases |names|
  {
    if names == [] then (s, true)
    else if names[0] !in steps then (s, false)
    else StartBranches(Spawn(s, i, names[0], steps[names[0]]), i, steps, names[1..])
  }

  /** A fork starts its branches and opens the joins behind it. */
  function RunFork(s: State, i: int, steps: Steps, d: StepDef): (State, bool) {
    var (s1, ok) := StartBranches(s, i, steps, d.parallel);
    (if ok then OpenJoins(s1, i, steps, d, d.next) else s1, ok)
  }

  // ------------------------------------------------------------------ rollback

  /** The rollback walk from a step back to `stop`, and whether it met no unknown step. */
  function RollBack(s: State, recs: map<string, StepRec>, def: Definition, from: string, stop: string): (State, bool)
    requires forall x | x in recs :: recs[x].name == x
  {
    var e := Env(def.steps, stop, recs);
    var w := WalkChain(e, from, false, Walk({}, [], true));
    WalkChainSound(e, from, false, Walk({}, [], true));
    (RollbackAll(s, e, w.log, def.id), w.ok)
  }

  /** The youngest savepoint among the records. */
  function LastSavePoint(recs: seq<StepRec>): Option<int> {
    if recs == [] then None
    else
      var last := recs[|recs| - 1];
      var before := LastSavePoint(recs[..|recs| - 1]);
      if last.kind == SavePoint && (before.None? || before.value < last.id) then Some(last.id) else before
  }

  predicate AfterSavePoint(rec: StepRec, savePoint: Option<int>) {
    rec.status == Completed && (savePoint.None? || savePoint.value < rec.id)
  }

  predicate Compensable(rec: StepRec, steps: Steps) {
    rec.name in steps && steps[rec.name].onFailure != ""
  }

  /** Completed steps after the savepoint without compensation are rolled back at once. */
  function UndoPlain(s: State, recs: seq<StepRec>, steps: Steps, savePoint: Option<int>): State
    decreases |recs|
  {
    if recs == [] then s
    else
      var rec := recs[0];
      var s' := if AfterSavePoint(rec, savePoint) && !Compensable(rec, steps) then UpdateStep(s, rec.id, RolledBack)
        else s;
      UndoPlain(s', recs[1..], steps, savePoint)
  }

  /** Those with a compensation step, youngest first. */
  function ToCompensate(recs: seq<StepRec>, steps: Steps, savePoint: Option<int>): seq<StepRec> {
    if recs == [] then []
    else
      ToCompensate(recs[1..], steps, savePoint)
      + (if AfterSavePoint(recs[0], savePoint) && Compensable(recs[0], steps) then [recs[0]] else [])
  }

  function QueueAll(s: State, i: int, recs: seq<StepRec>, index: nat): State
    decreases |recs|
  {
    if recs == [] then s
    else
      var s' := Enqueue(UpdateStepCompensationRetry(s, recs[0].id, 0, Compensation), i, recs[0].id, PRIORITY_HIGH,
                        0.01 * index as real);
      QueueAll(s', i, recs[1..], index + 1)
  }

  /** Steps that completed although a sibling failed are sent to compensation. */
  function ReactiveRollback(s: State, i: int, steps: Steps): State {
    var recs := StepsOf(s, i);
    var sp := LastSavePoint(recs);
    QueueAll(UndoPlain(s, recs, steps, sp), i, ToCompensate(recs, steps, sp), 0)
  }

  // ------------------------------------------------------------------ handlers

  function CompleteWorkflow(s: State, i: int, steps: Steps): State {
    if SomeStep(s, i, {Failed, RolledBack}) then
      var s' := ReactiveRollback(s, i, steps);
      if SomeStep(s', i, {Compensation}) then s' else SetInstance(s', i, WfFailed)
    else SetInstance(s, i, WfCompleted)
  }

  ghost function HandleSuccess(s: State, i: int, rec: StepRec, d: StepDef, def: Definition, next: bool,
                               o: Choice): State {
    var (s1, ok) := Mark(s, i, rec, d, def.steps, o, Completed, true, true);
    if !ok then s1
    else if (next && d.next == []) || (!next && d.els == "") then
      if HasUnfinished(s1, i) then s1 else CompleteWorkflow(s1, i, def.steps)
    else EnqueueNext(s1, i, def.steps, if next then d.next else [d.els], next)
  }

  /** A failed step is tried again. */
  predicate Retries(rec: StepRec, d: StepDef) {
    || (rec.retryCount == 0 && d.maxRetries > 0)
    || (rec.retryCount > 0 && rec.retryCount < rec.maxRetries && !d.noIdempotent)
  }

  /** The pending and running steps in the branches of the fork around a failed step. */
  ghost function Siblings(s: State, i: int, name: string, steps: Steps, order: seq<string>): set<int> {
    var fork := ForkOf(steps, order, name);
    if fork == "" || fork !in steps then {}
    else
      set id | id in IdsOf(s, i) && id in s.steps && s.steps[id].name != name
               && (s.steps[id].status == Pending || s.steps[id].status == Running)
               && InBranch(steps, steps[fork], s.steps[id].name)
  }

  ghost function ToDlq(s: State, i: int, rec: StepRec, d: StepDef, def: Definition, o: Choice): State {
    var (s1, ok) := Mark(s, i, rec, d, def.steps, o, Paused, false, false);
    if !ok then s1
    else SetInstance(Freeze(CreateDeadLetter(s1, rec, def.id), i), i, WfDLQ)
  }

  ghost function FailFinally(s: State, i: int, rec: StepRec, d: StepDef, def: Definition, o: Choice): State {
    var (s1, ok) := Mark(s, i, rec, d, def.steps, o, Failed, true, false);
    if !ok then s1
    else
      var s2 := SkipAll(s1, Siblings(s1, i, rec.name, def.steps, o.order));
      SetInstance(RollBack(s2, SnapshotOf(s2, i, rec), def, rec.name, o.stop).0, i, WfFailed)
  }

  ghost function HandleFailure(s: State, i: int, rec: StepRec, d: StepDef, def: Definition, o: Choice): State {
    if Retries(rec, d) then Enqueue(UpdateStep(s, rec.id, Failed), i, rec.id, PRIORITY_HIGH, d.delay)
    else if def.dlqEnabled then ToDlq(s, i, rec, d, def, o)
    else FailFinally(s, i, rec, d, def, o)
  }

  /** The ids of the instance's active steps. */
  function ActiveIds(s: State, i: int): set<int> {
    set id | id in IdsOf(s, i) && id in s.steps && IsActive(s.steps[id].status)
  }

  function LastCompleted(recs: seq<StepRec>): Option<string> {
    if recs == [] then None
    else if recs[|recs| - 1].status == Completed then Some(recs[|recs| - 1].name)
    else LastCompleted(recs[..|recs| - 1])
  }

  function HandleCancellation(s: State, i: int, def: Definition, kind: CancelType): State {
    var s1 := SkipAll(s, ActiveIds(s, i));
    match kind
    case AbortRun => ForgetCancel(SetInstance(s1, i, WfAborted), i)
    case CancelRun =>
      var s2 := SetInstance(s1, i, WfCancelling);
      var recs := StepsOf(s2, i);
      var (s3, ok) := if LastCompleted(recs).None? then (s2, true)
                      else RollBack(s2, ByName(recs), def, LastCompleted(recs).value, ROOT_STEP);
      ForgetCancel(SetInstance(s3, i, if ok then WfCancelled else WfFailed), i)
  }

  /** Runs the step and handles its result. */
  ghost function ExecuteStep(s: State, i: int, rec: StepRec, d: StepDef, def: Definition, o: Choice): State
    requires d.kind != Human
  {
    if i in s.cancels then HandleCancellation(s, i, def, s.cancels[i])
    else
      var s1 := UpdateStep(s, rec.id, Running);
      match d.kind
      case Task => Handle(s1, i, rec, d, def, d.handler in o.handlers && o.success, true, o)
      case Fork | Parallel =>
        var (s2, ok) := RunFork(s1, i, def.steps, d);
        Handle(s2, i, rec, d, def, ok, true, o)
      case Join => Handle(s1, i, rec, d, def, JoinSucceeds(s1, i, rec.name), true, o)
      case SavePoint => Handle(s1, i, rec, d, def, true, true, o)
      case Condition => Handle(s1, i, rec, d, def, o.success, o.taken, o)
  }

  ghost function Handle(s: State, i: int, rec: StepRec, d: StepDef, def: Definition, ok: bool, next: bool,
                        o: Choice): State {
    if ok then HandleSuccess(s, i, rec, d, def, next, o) else HandleFailure(s, i, rec, d, def, o)
  }

  /** One attempt at compensating a step. */
  function ExecuteCompensation(s: State, i: int, rec: StepRec, d: StepDef, steps: Steps, o: Choice): State {
    if d.onFailure !in steps || steps[d.onFailure].handler !in o.handlers then UpdateStep(s, rec.id, RolledBack)
    else
      var c := steps[d.onFailure];
      if o.success then
        var s1 := UpdateStep(s, rec.id, RolledBack);
        if !HasUnfinished(s1, i) && !SomeStep(s1, i, {Compensation}) && SomeStep(s1, i, {Failed, RolledBack})
        then SetInstance(s1, i, WfFailed) else s1
      else if rec.compRetries < c.maxRetries then
        Enqueue(UpdateStepCompensationRetry(s, rec.id, rec.compRetries + 1, Compensation),
                rec.instance, rec.id, PRIORITY_HIGH, CompensationDelay(c, rec.compRetries + 1))
      else UpdateStep(s, rec.id, Failed)
  }

  // ------------------------------------------------------------------ the dispatcher

  /** A handler this engine does not have is left to another worker. */
  predicate Elsewhere(rec: StepRec, d: StepDef, steps: Steps, o: Choice) {
    if rec.status == Compensation
    then d.onFailure != "" && d.onFailure in steps && steps[d.onFailure].handler !in o.handlers
    else rec.kind == Task && d.handler !in o.handlers
  }

  predicate Finished(status: StepStatus) {
    status == Skipped || status == Paused || status == RolledBack
  }

  /** The definition of an instance and of one of its steps. */
  predicate Defined(s: State, i: int, name: string) {
    && i in s.instances && s.instances[i].workflow in s.definitions
    && name in s.definitions[s.instances[i].workflow].steps
  }

  function DefinitionOf(s: State, i: int): Definition
    requires i in s.instances && s.instances[i].workflow in s.definitions
  {
    s.definitions[s.instances[i].workflow]
  }

  predicate NoHumans(s: State) {
    forall w, n | w in s.definitions && n in s.definitions[w].steps :: s.definitions[w].steps[n].kind != Human
  }

  /** Executes a step of instance i that was found through the claimed item q.  A finished
      step also removes the queue item whose number is the number of the step. */
  ghost function Dispatch(s: State, q: int, i: int, rec: StepRec, o: Choice): State
    requires NoHumans(s)
  {
    if Finished(rec.status) then Remove(Remove(s, rec.id), q)
    else if !Defined(s, i, rec.name) then Remove(s, q)
    else
      var def := DefinitionOf(s, i);
      var d := def.steps[rec.name];
      if Elsewhere(rec, d, def.steps, o) then HandBack(s, q, o.cooldown)
      else if rec.status == Compensation then Remove(ExecuteCompensation(s, i, rec, d, def.steps, o), q)
      else Remove(ExecuteStep(s, i, rec, d, def, o), q)
  }

  /** The execution of queue item q. */
  ghost function Execute(s: State, q: int, o: Choice): State
    requires NoHumans(s) && q in s.queue
  {
    var s1 := s.(queue := Claim(s.queue, q));
    var i := s.queue[q].instance;
    if i !in s.instances || IsDlq(s, i) then Remove(s1, q)
    else
      match s.queue[q].step
      case Some(id) =>
        if id in IdsOf(s, i) && id in s.steps then Dispatch(s1, q, i, s.steps[id], o) else Remove(s1, q)
      case None =>
        if s.instances[i].workflow !in s.definitions then Remove(s1, q)
        else
          var def := DefinitionOf(s, i);
          if def.start !in def.steps then Remove(s1, q)
          else
            var d := def.steps[def.start];
            var s2 := CreateStep(s1, i, def.start, d.kind, Pending, d.maxRetries);
            Dispatch(s2, q, i, s2.steps[s.nextStep], o)
  }

  // ------------------------------------------------------------------ transitions

  datatype Op =
    | StartOp(workflow: string, accepted: bool)
    | NextOp(item: int, choice: Choice)
    | CancelOp(instance: int, kind: CancelType)
    | TickOp(elapsed: real)

  /** The definition passes the validation of a start. */
  ghost predicate Acceptable(def: Definition) {
    def.name != "" && def.start != "" && def.start in def.steps && B.ValidDefinition(def.steps, def.start)
  }

  /** A new running instance with its first step, if the definition is accepted. */
  function Start(s: State, workflow: string, accepted: bool): State {
    if workflow !in s.definitions || !accepted then s
    else
      var def := s.definitions[workflow];
      var i := s.nextInstance;
      var s1 := s.(instances := s.instances[i := Instance(workflow, WfRunning)], nextInstance := i + 1);
      EnqueueNext(s1, i, def.steps, Link(def.start), false)
  }
}
