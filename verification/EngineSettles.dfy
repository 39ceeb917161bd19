/** How the end of a branch reaches the join behind its fork. */
module EngineSettles {
  import opened Definitions
  import opened Store
  import opened Joins
  import opened JoinStores
  import opened Engine
  import opened EngineFrames
  import opened EngineJoins

  /** What a report leaves in the lists of a join. */
  lemma NotifiedIs(j: JoinState, step: string, success: bool)
    requires Consistent(j)
    ensures var r := Notified(j, step, success);
            && r == j.(completed := r.completed, failed := r.failed, isReady := r.isReady)
            && (forall z :: z in r.completed <==> if z == step then success else z in j.completed)
            && (forall z :: z in r.failed <==> if z == step then !success else z in j.failed)
  {
    InsertFacts(j.completed, step);
    InsertFacts(j.failed, step);
    WithoutFacts(j.completed, step);
    WithoutFacts(j.failed, step);
    hide Insert, Without, CheckReady;
  }

  /** The lists of a join after a virtual entry was replaced by the step that ended the branch, and
      its outcome was reported. */
  ghost predicate TookPlace(w: JoinState, v: JoinState, virtual: string, step: string, success: bool) {
    && v.strategy == w.strategy
    && (forall z :: z in v.waitingFor <==> (z in w.waitingFor && z != virtual) || z == step)
    && (forall z :: z in v.completed <==> if z == step then success else z in w.completed)
    && (forall z :: z in v.failed <==> if z == step then !success else z in w.failed)
  }

  lemma ReplacedReported(w: JoinState, virtual: string, step: string, status: Option<StepStatus>, success: bool)
    requires Consistent(w) && Distinct(w.waitingFor)
    ensures TookPlace(w, Notified(WaitReplaced(w, virtual, step, status), step, success), virtual, step, success)
  {
    WaitReplacedConsistent(w, virtual, step, status);
    hide Consistent, Distinct, WaitReplaced, Notified;
    NotifiedIs(WaitReplaced(w, virtual, step, status), step, success);
  }

  /** Below a condition the step that ends takes the place of the virtual entry of the join behind
      the fork, and its outcome is counted there; no other join changes. */
  lemma SettleReplaces(s: State, i: int, steps: Steps, order: seq<string>, rec: StepRec, d: StepDef, success: bool)
    requires WellFormed(s) && i in s.instances
    requires ConditionAbove(steps, d.prev, {}) != "" && JoinAround(steps, order, rec.name) in steps
    requires JoinAround(steps, order, rec.name) != ""
    requires JoinAt(s, i, JoinAround(steps, order, rec.name)).Some?
    requires Distinct(JoinAt(s, i, JoinAround(steps, order, rec.name)).value.waitingFor)
    ensures var r, n := Settle(s, i, steps, order, rec, d, success), JoinAround(steps, order, rec.name);
            && JoinAt(r, i, n).Some?
            && TookPlace(JoinAt(s, i, n).value, JoinAt(r, i, n).value, VirtualName(ConditionAbove(steps, d.prev, {})),
                         rec.name, success)
            && forall j, m | j != i || m != n :: JoinAt(r, j, m) == JoinAt(s, j, m)
  {
    hide WellFormed, NotifyJoin, JoinStep, JoinAt, JoinAround, ConditionAbove, EndsBranch, StepsOf, OldestStatus,
         VirtualName;
    hide TookPlace, Distinct, WaitReplaced, Notified, Consistent, JoinsFiled;
    var n := JoinAround(steps, order, rec.name);
    var virtual := VirtualName(ConditionAbove(steps, d.prev, {}));
    var op := ReplaceOp(virtual, rec.name, OldestStatus(StepsOf(s, i), rec.name));
    var s1 := JoinStep(s, i, n, op);
    WellJoins(s);
    JoinConsistent(s, i, n);
    JoinStepTable(s, i, n, op);
    JoinStepWell(s, i, n, op);
    WellJoins(s1);
    NotifyJoinTable(s1, i, steps, order, n, rec.name, success);
    ReplacedReported(JoinAt(s, i, n).value, virtual, rec.name, OldestStatus(StepsOf(s, i), rec.name), success);
  }

  /** Elsewhere a step that succeeds and ends its branch is awaited by the join behind the fork, once,
      unless the join waits for a condition; a join without a state gets one. */
  lemma SettleAdds(s: State, i: int, steps: Steps, order: seq<string>, rec: StepRec, d: StepDef)
    requires ConditionAbove(steps, d.prev, {}) == "" && EndsBranch(steps, order, rec.name)
    requires JoinAround(steps, order, rec.name) in steps && JoinAround(steps, order, rec.name) != ""
    ensures var r, n := Settle(s, i, steps, order, rec, d, true), JoinAround(steps, order, rec.name);
            && (forall j, m | j != i || m != n :: JoinAt(r, j, m) == JoinAt(s, j, m))
            && JoinAt(r, i, n).Some? &&
            var v := JoinAt(r, i, n).value;
            if JoinAt(s, i, n).None? then v == JoinState([rec.name], [], [], steps[n].strategy, false)
            else
              var w := JoinAt(s, i, n).value;
              && v.completed == w.completed && v.failed == w.failed && v.strategy == w.strategy
              && v.waitingFor ==
                 (if rec.name in w.waitingFor || (exists z | z in w.waitingFor :: IsVirtual(z)) then w.waitingFor
                  else w.waitingFor + [rec.name])
  {
    hide JoinStep, JoinAt, JoinAround, ConditionAbove, EndsBranch, IsVirtual, NotifyJoin;
    var n := JoinAround(steps, order, rec.name);
    JoinStepTable(s, i, n, CreateOp([rec.name], Some(steps[n].strategy)));
    JoinStepTable(s, i, n, AddOp(rec.name));
  }

  /** In all other cases nothing is settled. */
  lemma SettlesNothing(s: State, i: int, steps: Steps, order: seq<string>, rec: StepRec, d: StepDef, success: bool)
    requires || JoinAround(steps, order, rec.name) == ""
             || (ConditionAbove(steps, d.prev, {}) == "" && (!success || !EndsBranch(steps, order, rec.name)))
    ensures Settle(s, i, steps, order, rec, d, success) == s
  {
    hide JoinStep, JoinAt, JoinAround, ConditionAbove, EndsBranch, IsVirtual, NotifyJoin;
  }
}
