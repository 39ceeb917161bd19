/** The persistent state shared by all engine operations, and the store operations on it. */
module Store {
  import opened Definitions

  datatype StepStatus =
    | Pending | Running | Completed | Failed | Skipped | Compensation | RolledBack
    | WaitingDecision | Confirmed | Rejected | Paused

  datatype WorkflowStatus =
    | WfPending | WfRunning | WfCompleted | WfFailed | WfRollingBack
    | WfCancelling | WfCancelled | WfAborted | WfDLQ

  datatype CancelType = CancelRun | AbortRun

  datatype StepRec = StepRec(
    id: int,
    instance: int,
    name: string,
    kind: StepType,
    status: StepStatus,
    retryCount: int,
    maxRetries: int,
    compRetries: int)

  datatype QueueItem = QueueItem(
    instance: int,
    step: Option<int>,
    scheduledAt: real,
    priority: int,
    attempted: bool)

  datatype Instance = Instance(workflow: string, status: WorkflowStatus)

  datatype DeadLetter = DeadLetter(instance: int, workflow: string, step: int, name: string)

  /** What a join waits for, what it has heard, and whether it is ready. */
  datatype JoinState = JoinState(
    waitingFor: seq<string>,
    completed: seq<string>,
    failed: seq<string>,
    strategy: JoinStrategy,
    isReady: bool)

  datatype State = State(
    definitions: map<string, Definition>,
    instances: map<int, Instance>,
    steps: map<int, StepRec>,
    byInstance: map<int, seq<int>>,
    queue: map<int, QueueItem>,
    deadLetters: map<int, DeadLetter>,
    cancels: map<int, CancelType>,
    joins: map<(int, string), JoinState>,
    nextInstance: int,
    nextStep: int,
    nextQueue: int,
    nextDeadLetter: int,
    clock: real)

  const PRIORITY_NORMAL := 50
  const PRIORITY_HIGH := 100

  /** A new status; a failure also counts one more attempt. */
  function WithStatus(r: StepRec, status: StepStatus): StepRec {
    r.(status := status, retryCount := if status == Failed then r.retryCount + 1 else r.retryCount)
  }

  function UpdateStep(s: State, id: int, status: StepStatus): State {
    if id in s.steps then s.(steps := s.steps[id := WithStatus(s.steps[id], status)]) else s
  }

  function UpdateStepCompensationRetry(s: State, id: int, count: int, status: StepStatus): State {
    if id in s.steps
    then s.(steps := s.steps[id := s.steps[id].(compRetries := count, status := status)])
    else s
  }

  function Enqueue(s: State, instance: int, step: int, priority: int, delay: real): State {
    s.(queue := s.queue[s.nextQueue := QueueItem(instance, Some(step), s.clock + delay, priority, false)],
       nextQueue := s.nextQueue + 1)
  }

  function CreateDeadLetter(s: State, rec: StepRec, workflow: string): State {
    s.(deadLetters := s.deadLetters[s.nextDeadLetter := DeadLetter(rec.instance, workflow, rec.id, rec.name)],
       nextDeadLetter := s.nextDeadLetter + 1)
  }

  function Pow2(n: nat): int {
    if n == 0 then 1 else 2 * Pow2(n - 1)
  }

  /** The delay before a retry; the attempt number is never negative in the engine. */
  function CalculateRetryDelay(strategy: RetryStrategy, base: real, attempt: int): real {
    match strategy
    case Exponential => base * (if attempt >= 0 then Pow2(attempt) else 1) as real
    case Linear => base * attempt as real
    case Fixed => base
  }

  function CompensationDelay(c: StepDef, attempt: int): real {
    var d := CalculateRetryDelay(c.retryStrategy, c.retryDelay, attempt);
    if d == 0.0 then c.delay else d
  }

  /** The records of the given ids that exist, in order. */
  function Present(steps: map<int, StepRec>, ids: seq<int>): (r: seq<StepRec>)
    ensures forall x | x in r :: exists id | id in ids :: id in steps && steps[id] == x
  {
    if ids == [] then []
    else
      var init := Present(steps, ids[..|ids| - 1]);
      var last := ids[|ids| - 1];
      if last in steps then init + [steps[last]] else init
  }

  function IdsOf(s: State, instance: int): seq<int> {
    if instance in s.byInstance then s.byInstance[instance] else []
  }

  /** The steps of an instance, oldest first. */
  function StepsOf(s: State, instance: int): seq<StepRec> {
    Present(s.steps, IdsOf(s, instance))
  }

  predicate IsActive(status: StepStatus) {
    status == Pending || status == Running || status == WaitingDecision
  }

  /** The active records, newest first. */
  function ActiveOf(recs: seq<StepRec>): (r: seq<StepRec>)
    ensures forall x :: x in r <==> x in recs && IsActive(x.status)
  {
    if recs == [] then []
    else
      var last := recs[|recs| - 1];
      (if IsActive(last.status) then [last] else []) + ActiveOf(recs[..|recs| - 1])
  }

  /** The steps by name; of several steps with one name the youngest is kept. */
  function ByName(recs: seq<StepRec>): (m: map<string, StepRec>)
    ensures forall x | x in m :: m[x].name == x && m[x] in recs
    ensures forall r | r in recs :: r.name in m
  {
    if recs == [] then map[]
    else
      var last := recs[|recs| - 1];
      ByName(recs[..|recs| - 1])[last.name := last]
  }

  // ------------------------------------------------------------------ instances, steps, queue items

  function CreateStep(s: State, i: int, name: string, kind: StepType, status: StepStatus, max: int): State {
    s.(steps := s.steps[s.nextStep := StepRec(s.nextStep, i, name, kind, status, 0, max, 0)],
       byInstance := s.byInstance[i := IdsOf(s, i) + [s.nextStep]],
       nextStep := s.nextStep + 1)
  }

  function SetInstance(s: State, i: int, status: WorkflowStatus): State {
    if i in s.instances then s.(instances := s.instances[i := s.instances[i].(status := status)]) else s
  }

  function Remove(s: State, q: int): State {
    s.(queue := s.queue - {q})
  }

  function ForgetCancel(s: State, i: int): State {
    s.(cancels := s.cancels - {i})
  }

  /** Running steps of the instance are paused and its queue items deleted. */
  function Freeze(s: State, i: int): State {
    s.(steps := map id | id in s.steps ::
                  if id in IdsOf(s, i) && s.steps[id].status == Running then s.steps[id].(status := Paused)
                  else s.steps[id],
       queue := map q | q in s.queue && s.queue[q].instance != i :: s.queue[q])
  }

  /** Requests are refused after the end, except in the dead-letter state, and only the first
      one is kept. */
  function Cancel(s: State, i: int, kind: CancelType): State {
    if i !in s.instances || s.instances[i].status in {WfCompleted, WfFailed, WfCancelled, WfAborted}
      || i in s.cancels then s
    else s.(cancels := s.cancels[i := kind])
  }

  /** Every stored step carries its own key as id. */
  predicate WellKeyed(s: State) {
    forall id | id in s.steps :: s.steps[id].id == id
  }
}
