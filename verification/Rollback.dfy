/** The rollback walk: which steps it compensates, in which order, and what it does to them. */
module Rollback {
  import opened Definitions
  import opened Store

  /** What one rollback works on: the definition's steps, the step at which the backward walk
      stops, and a snapshot of the instance's steps by name. */
  datatype Env = Env(steps: Steps, stop: string, recs: map<string, StepRec>)

  /** The shared state of the recursion: visited names and the names handed to the
      compensation routine so far, oldest first. */
  datatype Walk = Walk(visited: set<string>, log: seq<string>, ok: bool)

  predicate Eligible(e: Env, name: string) {
    name in e.recs && (e.recs[name].status == Completed || e.recs[name].status == Failed)
  }

  predicate Executed(e: Env, name: string) {
    name in e.recs
    && (e.recs[name].status == Completed || e.recs[name].status == Failed || e.recs[name].status == Compensation)
  }

  datatype Side = NextSide | ElseSide | Neither

  function ExecutedSide(e: Env, d: StepDef): Side {
    if exists n | n in d.next :: Executed(e, n) then NextSide
    else if d.els != "" && Executed(e, d.els) then ElseSide
    else Neither
  }

  /** The steps a forward walk continues with after `name`. */
  function Taken(e: Env, name: string): seq<string>
    requires name in e.steps
  {
    var d := e.steps[name];
    if d.kind == Condition then
      if name in e.recs && e.recs[name].status == Completed then
        match ExecutedSide(e, d)
        case NextSide => d.next
        case ElseSide => Link(d.els)
        case Neither => []
      else []
    else d.next
  }

  function Branches(e: Env, name: string): seq<string>
    requires name in e.steps
  {
    if IsFork(e.steps[name]) then e.steps[name].parallel else []
  }

  function WalkAll(e: Env, names: seq<string>, w: Walk): (r: Walk)
    ensures w.visited <= r.visited
    decreases e.steps.Keys - w.visited, 1, |names|
  {
    if names == [] || !w.ok then w
    else
      var w' := WalkChain(e, names[0], true, w);
      WalkAll(e, names[1..], w')
  }

  /** One call of the recursive walk from `name`, forward when `inBranch`, backward otherwise. */
  function WalkChain(e: Env, name: string, inBranch: bool, w: Walk): (r: Walk)
    ensures w.visited <= r.visited
    decreases e.steps.Keys - w.visited, 0, 0
  {
    if name in w.visited || !w.ok then w
    else
      var w0 := w.(visited := w.visited + {name});
      if name == e.stop then w0
      else if name !in e.steps then w0.(ok := false)
      else
        var w1 := WalkAll(e, Branches(e, name), w0);
        var w2 := if inBranch then WalkAll(e, Taken(e, name), w1) else w1;
        var w3 := if w2.ok && Eligible(e, name) then w2.(log := w2.log + [name]) else w2;
        var prev := e.steps[name].prev;
        if w3.ok && prev != "" && prev != ROOT_STEP && !inBranch then
          var w4 := if prev in e.steps then WalkAll(e, Branches(e, prev), w3) else w3;
          WalkChain(e, prev, false, w4)
        else w3
  }

  /** On any definition, cyclic or not, the walk hands each step to the compensation routine
      at most once, and only completed or failed steps. */
  predicate Sound(e: Env, w: Walk) {
    Distinct(w.log) && forall x | x in w.log :: x in w.visited && x in e.steps && Eligible(e, x)
  }

  lemma {:induction false} WalkAllSound(e: Env, names: seq<string>, w: Walk)
    requires Sound(e, w)
    ensures Sound(e, WalkAll(e, names, w))
    ensures forall x | x in w.visited && x !in w.log :: x !in WalkAll(e, names, w).log
    decreases e.steps.Keys - w.visited, 1, |names|
  {
    if names != [] && w.ok {
      WalkChainSound(e, names[0], true, w);
      WalkAllSound(e, names[1..], WalkChain(e, names[0], true, w));
    }
  }

  lemma {:induction false} WalkChainSound(e: Env, name: string, inBranch: bool, w: Walk)
    requires Sound(e, w)
    ensures Sound(e, WalkChain(e, name, inBranch, w))
    ensures forall x | x in w.visited && x !in w.log :: x !in WalkChain(e, name, inBranch, w).log
    decreases e.steps.Keys - w.visited, 0, 0
  {
    if name !in w.visited && w.ok && name != e.stop && name in e.steps {
      var w0 := w.(visited := w.visited + {name});
      WalkAllSound(e, Branches(e, name), w0);
      var w1 := WalkAll(e, Branches(e, name), w0);
      WalkAllSound(e, Taken(e, name), w1);
      var w2 := if inBranch then WalkAll(e, Taken(e, name), w1) else w1;
      var w3 := if w2.ok && Eligible(e, name) then w2.(log := w2.log + [name]) else w2;
      assert Sound(e, w3);
      var prev := e.steps[name].prev;
      if w3.ok && prev != "" && prev != ROOT_STEP && !inBranch {
        var w4 := if prev in e.steps then WalkAll(e, Branches(e, prev), w3) else w3;
        if prev in e.steps {
          WalkAllSound(e, Branches(e, prev), w3);
        }
        WalkChainSound(e, prev, false, w4);
      }
    }
  }

  /** Compensation of one step: without a compensation step it is rolled back at once; with
      retries left it is queued for compensation; otherwise it fails and is dead-lettered. */
  datatype Verdict = Undone | Queued(delay: real) | Exhausted

  function Judge(rec: StepRec, steps: Steps): Verdict
    requires rec.name in steps
  {
    var d := steps[rec.name];
    if d.onFailure !in steps then Undone
    else
      var c := steps[d.onFailure];
      if rec.compRetries >= c.maxRetries then Exhausted
      else Queued(CompensationDelay(c, rec.compRetries + 1))
  }

  function RollbackStep(s: State, rec: StepRec, steps: Steps, workflow: string): State
    requires rec.name in steps
  {
    match Judge(rec, steps)
    case Undone => UpdateStep(s, rec.id, RolledBack)
    case Exhausted => CreateDeadLetter(UpdateStep(s, rec.id, Failed), rec, workflow)
    case Queued(delay) =>
      Enqueue(UpdateStepCompensationRetry(s, rec.id, rec.compRetries + 1, Compensation),
              rec.instance, rec.id, PRIORITY_HIGH, delay)
  }

  /** Every logged name has a definition and a snapshot filed under its own name. */
  predicate Loggable(e: Env, log: seq<string>) {
    forall x | x in log :: x in e.steps && x in e.recs && e.recs[x].name == x
  }

  function RollbackAll(s: State, e: Env, log: seq<string>, workflow: string): State
    requires Loggable(e, log)
  {
    if log == [] then s
    else
      var last := |log| - 1;
      RollbackStep(RollbackAll(s, e, log[..last], workflow), e.recs[log[last]], e.steps, workflow)
  }
}
