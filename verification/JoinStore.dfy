/** The join table: in-place list edits that refine the join protocol, and its runs. */
module JoinStores {
  import opened Definitions
  import opened Store
  import opened Joins

  // ------------------------------------------------------------------ runs of one join

  datatype JoinOp =
    | CreateOp(waitingFor: seq<string>, strategy: Option<JoinStrategy>)
    | NotifyOp(step: string, success: bool)
    | AddOp(step: string)
    | ReplaceOp(virtual: string, real_: string, status: Option<StepStatus>)

  /** One operation on a join that may not exist yet. */
  function After(j: Option<JoinState>, op: JoinOp): Option<JoinState> {
    match op
    case CreateOp(w, st) => if j.Some? then j else Some(Created(w, if st.None? then All else st.value))
    case NotifyOp(step, success) => if j.None? then j else Some(Notified(j.value, step, success))
    case AddOp(step) => Some(if j.None? then Created([step], All) else WaitAdded(j.value, step))
    case ReplaceOp(v, r, status) => Some(if j.None? then Created([r], All) else WaitReplaced(j.value, v, r, status))
  }

  function AfterAll(ops: seq<JoinOp>): Option<JoinState> {
    if ops == [] then None else After(AfterAll(ops[..|ops| - 1]), ops[|ops| - 1])
  }

  /** Whatever is done to a join, no step is listed twice or on both sides, and the stored
      flag is the recomputed one unless the join waits for nothing. */
  lemma {:induction false} RunsStayConsistent(ops: seq<JoinOp>)
    ensures AfterAll(ops).Some? ==> Consistent(AfterAll(ops).value)
  {
    if ops != [] {
      var init, op := ops[..|ops| - 1], ops[|ops| - 1];
      RunsStayConsistent(init);
      var j := AfterAll(init);
      match op
      case CreateOp(w, st) =>
      case NotifyOp(step, success) =>
        if j.Some? { NotifiedConsistent(j.value, step, success); }
      case AddOp(step) =>
        if j.Some? { WaitAddedConsistent(j.value, step); }
      case ReplaceOp(v, r, status) =>
        if j.Some? { WaitReplacedConsistent(j.value, v, r, status); }
    }
  }

  /** The operation creates a duplicate-free join, reports an awaited step, or replaces an
      entry nobody has reported by a step that was not awaited. */
  predicate Polite(j: Option<JoinState>, op: JoinOp) {
    match op
    case CreateOp(w, st) => j.Some? || (Distinct(w) && w != [] && st != Some(Any))
    case NotifyOp(step, _) => j.Some? && step in j.value.waitingFor
    case AddOp(_) => true
    case ReplaceOp(v, r, _) => j.Some? ==> r !in j.value.waitingFor && v !in Processed(j.value)
  }

  ghost predicate AllPolite(ops: seq<JoinOp>) {
    forall i | 0 <= i < |ops| :: Polite(AfterAll(ops[..i]), ops[i])
  }

  /** Only awaited steps were counted, and none is awaited twice. */
  predicate Covering(j: JoinState) {
    && Distinct(j.waitingFor) && j.waitingFor != [] && j.strategy == All
    && forall x | x in Processed(j) :: x in j.waitingFor
  }

  lemma NotifyCovering(j: JoinState, step: string, success: bool)
    requires Consistent(j) && Covering(j) && step in j.waitingFor
    ensures Covering(Notified(j, step, success))
  {
    InsertFacts(j.completed, step);
    InsertFacts(j.failed, step);
    WithoutFacts(j.completed, step);
    WithoutFacts(j.failed, step);
  }

  lemma AddCovering(j: JoinState, step: string)
    requires Consistent(j) && Covering(j)
    ensures Covering(WaitAdded(j, step))
  {
    WaitAddedConsistent(j, step);
  }

  lemma ReplaceCovering(j: JoinState, v: string, r: string, status: Option<StepStatus>)
    requires Consistent(j) && Covering(j) && r !in j.waitingFor && v !in Processed(j)
    ensures Covering(WaitReplaced(j, v, r, status))
  {
    ReplacedFacts(j.waitingFor, v, r);
    var k := WaitReplaced(j, v, r, status);
    assert forall x | x in Processed(k) :: x in Processed(j) || x == r;
  }

  /** Over every polite run the stored flag means that every awaited step was processed. */
  lemma ReadyMeansCovered(ops: seq<JoinOp>)
    requires AllPolite(ops) && AfterAll(ops).Some?
    ensures var j := AfterAll(ops).value;
            j.isReady <==> forall x | x in j.waitingFor :: x in Processed(j)
  {
    var j := AfterAll(ops).value;
    RunsStayConsistent(ops);
    PoliteRunsCover(ops);
    hide AllPolite, AfterAll, Processed;
    CountTestDecidesCoverage(j);
  }

  lemma {:induction false} PoliteRunsCover(ops: seq<JoinOp>)
    requires AllPolite(ops)
    ensures AfterAll(ops).Some? ==> Covering(AfterAll(ops).value)
  {
    if ops != [] {
      var init, op := ops[..|ops| - 1], ops[|ops| - 1];
      assert AllPolite(init) by {
        forall i | 0 <= i < |init|
          ensures Polite(AfterAll(init[..i]), init[i])
        {
          assert init[..i] == ops[..i];
        }
      }
      PoliteRunsCover(init);
      RunsStayConsistent(init);
      var j := AfterAll(init);
      assert Polite(j, op);
      hide AllPolite;
      PoliteStepCovers(j, op);
    }
  }

  lemma PoliteStepCovers(j: Option<JoinState>, op: JoinOp)
    requires j.Some? ==> Consistent(j.value) && Covering(j.value)
    requires Polite(j, op)
    ensures After(j, op).Some? ==> Covering(After(j, op).value)
  {
    match op
    case CreateOp(w, st) =>
    case NotifyOp(step, success) =>
      NotifyCovering(j.value, step, success);
    case AddOp(step) =>
      if j.Some? { AddCovering(j.value, step); }
    case ReplaceOp(v, r, status) =>
      if j.Some? { ReplaceCovering(j.value, v, r, status); }
  }

  // ------------------------------------------------------------------ list edits

  method Contains(s: seq<string>, x: string) returns (found: bool)
    ensures found <==> x in s
  {
    found := false;
    for i := 0 to |s|
      invariant !found && x !in s[..i]
    {
      if s[i] == x {
        return true;
      }
    }
  }

  method RemoveFirst(s: seq<string>, x: string) returns (r: seq<string>)
    ensures r == Without(s, x)
  {
    r := s;
    for i := 0 to |s|
      invariant r == s && Without(s, x) == s[..i] + Without(s[i..], x)
    {
      assert s[i..] == [s[i]] + s[i + 1..];
      if s[i] == x {
        return s[..i] + s[i + 1..];
      }
    }
  }

  method ReplaceFirst(s: seq<string>, x: string, y: string) returns (r: seq<string>)
    ensures r == Replaced(s, x, y)
  {
    for i := 0 to |s|
      invariant Replaced(s, x, y) == s[..i] + Replaced(s[i..], x, y)
    {
      hide Replaced;
      ReplacedFrom(s, i, x, y);
      if s[i] == x {
        assert s[i := y] == s[..i] + ([y] + s[i + 1..]);
        return s[i := y];
      }
      assert s[..i] + ([s[i]] + Replaced(s[i + 1..], x, y)) == s[..i + 1] + Replaced(s[i + 1..], x, y);
    }
    r := s + [y];
  }

  lemma ReplacedFrom(s: seq<string>, i: nat, x: string, y: string)
    requires i < |s|
    ensures Replaced(s[i..], x, y) == if s[i] == x then [y] + s[i + 1..] else [s[i]] + Replaced(s[i + 1..], x, y)
  {
    assert s[i..][1..] == s[i + 1..];
  }

  // ------------------------------------------------------------------ the joins of a store

  function JoinAt(s: State, i: int, join: string): Option<JoinState> {
    if (i, join) in s.joins then Some(s.joins[(i, join)]) else None
  }

  /** One operation on one join of a store; the others are untouched. */
  function JoinStep(s: State, i: int, join: string, op: JoinOp): State {
    var j := After(JoinAt(s, i, join), op);
    if j.None? then s else s.(joins := s.joins[(i, join) := j.value])
  }

  /** The status of the instance's oldest step of that name. */
  function OldestStatus(recs: seq<StepRec>, name: string): Option<StepStatus> {
    if recs == [] then None
    else if recs[0].name == name then Some(recs[0].status)
    else OldestStatus(recs[1..], name)
  }
}
