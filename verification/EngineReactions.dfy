/** What the end of a workflow does when a step had failed: the completed steps after the last
    savepoint are undone. */
module EngineReactions {
  import opened Definitions
  import opened Store
  import opened Queue
  import opened Engine
  import opened EngineFrames
  import opened EngineTame
  import opened EngineBirths

  /** The step is completed and younger than every savepoint of its instance. */
  predicate Reacts(s: State, i: int, x: int) {
    && x in IdsOf(s, i) && x in s.steps && s.steps[x].status == Completed
    && forall y | y in IdsOf(s, i) && y in s.steps && s.steps[y].kind == SavePoint :: y < x
  }

  /** The step's definition names a compensation step. */
  predicate HasLink(s: State, x: int, steps: Steps)
    requires x in s.steps
  {
    s.steps[x].name in steps && steps[s.steps[x].name].onFailure != ""
  }

  // ------------------------------------------------------------------ the last savepoint

  lemma {:induction false} LastSavePointIs(recs: seq<StepRec>)
    ensures LastSavePoint(recs).None? <==> forall y | y in recs :: y.kind != SavePoint
    ensures LastSavePoint(recs).Some? ==>
              exists y | y in recs :: y.kind == SavePoint && y.id == LastSavePoint(recs).value
    ensures LastSavePoint(recs).Some? ==>
              forall y | y in recs && y.kind == SavePoint :: y.id <= LastSavePoint(recs).value
  {
    if recs != [] {
      var last, init := recs[|recs| - 1], recs[..|recs| - 1];
      LastSavePointIs(init);
      assert recs == init + [last];
      if LastSavePoint(recs).Some? && LastSavePoint(recs) == LastSavePoint(init) {
        var y :| y in init && y.kind == SavePoint && y.id == LastSavePoint(init).value;
        assert y in recs;
      }
    }
  }

  /** A record after the last savepoint is completed and younger than every savepoint. */
  lemma AfterSavePointIs(recs: seq<StepRec>, rec: StepRec)
    ensures AfterSavePoint(rec, LastSavePoint(recs)) <==>
            rec.status == Completed && forall y | y in recs && y.kind == SavePoint :: y.id < rec.id
  {
    hide LastSavePoint;
    LastSavePointIs(recs);
  }

  // ------------------------------------------------------------------ undoing at once

  /** The step is one of the records, after the savepoint and without compensation. */
  predicate UndoneAtOnce(recs: seq<StepRec>, steps: Steps, sp: Option<int>, x: int) {
    exists rec | rec in recs :: rec.id == x && AfterSavePoint(rec, sp) && !Compensable(rec, steps)
  }

  lemma {:induction false} UndoPlainFrame(s: State, recs: seq<StepRec>, steps: Steps, sp: Option<int>)
    ensures var r := UndoPlain(s, recs, steps, sp);
            r == s.(steps := r.steps) && r.steps.Keys == s.steps.Keys
    decreases |recs|
  {
    hide Compensable, AfterSavePoint, UpdateStep;
    if recs != [] {
      UpdateFrame(s, recs[0].id, RolledBack);
      UndoPlainFrame(UpdateStep(s, recs[0].id, RolledBack), recs[1..], steps, sp);
      UndoPlainFrame(s, recs[1..], steps, sp);
    }
  }

  lemma UpdateFrame(s: State, id: int, status: StepStatus)
    ensures var r := UpdateStep(s, id, status);
            && r == s.(steps := r.steps) && r.steps.Keys == s.steps.Keys
            && forall x | x in s.steps :: r.steps[x] == if x == id then WithStatus(s.steps[x], status) else s.steps[x]
  {
  }

  lemma {:induction false} UndoPlainAt(s: State, i: int, recs: seq<StepRec>, steps: Steps, sp: Option<int>, x: int)
    requires Current(s, i, recs) && x in s.steps
    ensures x in UndoPlain(s, recs, steps, sp).steps
    ensures UndoPlain(s, recs, steps, sp).steps[x] ==
            if UndoneAtOnce(recs, steps, sp, x) then s.steps[x].(status := RolledBack) else s.steps[x]
    decreases |recs|
  {
    hide Compensable, AfterSavePoint, UpdateStep, Current;
    if recs != [] {
      var rec, rest := recs[0], recs[1..];
      assert recs == [rec] + rest;
      CurrentRest(s, i, recs);
      FirstIsOnce(s, i, recs);
      UpdateFrame(s, rec.id, RolledBack);
      if AfterSavePoint(rec, sp) && !Compensable(rec, steps) {
        UndoPlainAt(UpdateStep(s, rec.id, RolledBack), i, rest, steps, sp, x);
      } else {
        UndoPlainAt(s, i, rest, steps, sp, x);
      }
      OnceMore(rec, rest, steps, sp, x);
    }
  }

  lemma OnceMore(rec: StepRec, rest: seq<StepRec>, steps: Steps, sp: Option<int>, x: int)
    ensures UndoneAtOnce([rec] + rest, steps, sp, x) <==>
            UndoneAtOnce(rest, steps, sp, x) || (x == rec.id && AfterSavePoint(rec, sp) && !Compensable(rec, steps))
  {
    hide Compensable, AfterSavePoint;
    if UndoneAtOnce(rest, steps, sp, x) {
      var y :| y in rest && y.id == x && AfterSavePoint(y, sp) && !Compensable(y, steps);
      assert y in [rec] + rest;
    }
    assert rec in [rec] + rest;
  }

  lemma FirstIsOnce(s: State, i: int, recs: seq<StepRec>)
    requires Current(s, i, recs) && recs != []
    ensures forall rec | rec in recs[1..] :: rec.id != recs[0].id
  {
    forall rec | rec in recs[1..]
      ensures rec.id != recs[0].id
    {
      var k :| 0 <= k < |recs[1..]| && recs[1..][k] == rec;
      assert recs[k + 1] == rec;
    }
  }

  // ------------------------------------------------------------------ compensation, youngest first

  predicate Decreasing(recs: seq<StepRec>) {
    forall k, l | 0 <= k < l < |recs| :: recs[l].id < recs[k].id
  }

  predicate Growing(recs: seq<StepRec>) {
    forall k, l | 0 <= k < l < |recs| :: recs[k].id < recs[l].id
  }

  lemma {:induction false} ToCompensateIs(recs: seq<StepRec>, steps: Steps, sp: Option<int>)
    requires Growing(recs)
    ensures forall rec :: rec in ToCompensate(recs, steps, sp) <==>
              rec in recs && AfterSavePoint(rec, sp) && Compensable(rec, steps)
    ensures Decreasing(ToCompensate(recs, steps, sp))
  {
    hide Compensable, AfterSavePoint;
    if recs != [] {
      var rec, rest := recs[0], recs[1..];
      assert recs == [rec] + rest;
      ToCompensateIs(rest, steps, sp);
      var list := ToCompensate(rest, steps, sp);
      forall k | 0 <= k < |list|
        ensures rec.id < list[k].id
      {
        assert list[k] in list && list[k] in rest;
        var l :| 0 <= l < |rest| && rest[l] == list[k];
        assert recs[l + 1] == list[k];
      }
    }
  }

  predicate Listed(list: seq<StepRec>, x: int) {
    exists rec | rec in list :: rec.id == x
  }

  /** Every hundredth of a second one. */
  function Stagger(k: nat): real {
    0.01 * k as real
  }

  /** The records are put into compensation and queued one after the other. */
  ghost predicate QueuedUp(s: State, r: State, i: int, list: seq<StepRec>, index: nat) {
    && r == s.(steps := r.steps, queue := r.queue, nextQueue := s.nextQueue + |list|)
    && QueuedSteps(s, r, list) && QueuedItems(s, r, i, list, index)
  }

  ghost predicate QueuedSteps(s: State, r: State, list: seq<StepRec>) {
    && r.steps.Keys == s.steps.Keys
    && forall x | x in s.steps ::
         r.steps[x] == if Listed(list, x) then s.steps[x].(compRetries := 0, status := Compensation) else s.steps[x]
  }

  ghost predicate QueuedItems(s: State, r: State, i: int, list: seq<StepRec>, index: nat) {
    && r.queue.Keys == s.queue.Keys + Elements(From(s.nextQueue, |list|))
    && (forall q | q in s.queue :: r.queue[q] == s.queue[q])
    && forall k: nat | k < |list| :: QueuedAt(r, i, list[k].id, s.nextQueue + k, index + k)
  }

  predicate QueuedAt(r: State, i: int, x: int, q: int, k: nat) {
    q in r.queue && r.queue[q] == QueueItem(i, Some(x), r.clock + Stagger(k), PRIORITY_HIGH, false)
  }

  lemma QueuedNone(s: State, i: int, index: nat)
    ensures QueuedUp(s, s, i, [], index)
  {
    assert Elements(From(s.nextQueue, 0)) == {};
  }

  lemma QueuedOne(s: State, m: State, i: int, rec: StepRec, index: nat)
    requires Unused(s) && rec.id in s.steps
    requires m == Enqueue(UpdateStepCompensationRetry(s, rec.id, 0, Compensation), i, rec.id, PRIORITY_HIGH,
                          0.01 * index as real)
    ensures m == s.(steps := m.steps, queue := m.queue, nextQueue := s.nextQueue + 1) && Unused(m)
    ensures m.steps == s.steps[rec.id := s.steps[rec.id].(compRetries := 0, status := Compensation)]
    ensures m.queue == s.queue[s.nextQueue := QueueItem(i, Some(rec.id), s.clock + Stagger(index), PRIORITY_HIGH,
                                                        false)]
  {
  }

  lemma StepsQueuedMore(s: State, m: State, r: State, rec: StepRec, rest: seq<StepRec>)
    requires rec.id in s.steps && !Listed(rest, rec.id) && QueuedSteps(m, r, rest)
    requires m.steps == s.steps[rec.id := s.steps[rec.id].(compRetries := 0, status := Compensation)]
    ensures QueuedSteps(s, r, [rec] + rest)
  {
    forall x
      ensures Listed([rec] + rest, x) <==> x == rec.id || Listed(rest, x)
    {
      ListedMore(rec, rest, x);
    }
    hide Listed;
  }

  lemma ItemsQueuedMore(s: State, m: State, r: State, i: int, rec: StepRec, rest: seq<StepRec>, index: nat)
    requires Unused(s) && QueuedItems(m, r, i, rest, index + 1) && m.nextQueue == s.nextQueue + 1 && r.clock == s.clock
    requires m.queue == s.queue[s.nextQueue := QueueItem(i, Some(rec.id), s.clock + Stagger(index), PRIORITY_HIGH,
                                                         false)]
    ensures QueuedItems(s, r, i, [rec] + rest, index)
  {
    hide Stagger;
    FromMore(s.nextQueue, |rest|);
    hide From;
    forall k: nat | k < |[rec] + rest|
      ensures QueuedAt(r, i, ([rec] + rest)[k].id, s.nextQueue + k, index + k)
    {
      if k == 0 {
        assert r.queue[s.nextQueue] == m.queue[s.nextQueue];
      } else {
        assert QueuedAt(r, i, rest[k - 1].id, m.nextQueue + (k - 1), index + 1 + (k - 1));
      }
    }
  }

  lemma ListedAt(rest: seq<StepRec>, k: nat)
    requires k < |rest|
    ensures Listed(rest, rest[k].id)
  {
  }

  lemma ListedMore(rec: StepRec, rest: seq<StepRec>, x: int)
    ensures Listed([rec] + rest, x) <==> x == rec.id || Listed(rest, x)
  {
    assert rec in [rec] + rest;
    if y :| y in rest && y.id == x {
      assert y in [rec] + rest;
    }
  }

  lemma {:induction false} QueueAllEffect(s: State, i: int, list: seq<StepRec>, index: nat)
    requires Unused(s) && Decreasing(list) && forall rec | rec in list :: rec.id in s.steps
    ensures QueuedUp(s, QueueAll(s, i, list, index), i, list, index)
    decreases |list|
  {
    hide QueuedUp, Unused, Enqueue, UpdateStepCompensationRetry;
    if list == [] {
      QueuedNone(s, i, index);
    } else {
      var rec, rest := list[0], list[1..];
      assert list == [rec] + rest;
      var m := Enqueue(UpdateStepCompensationRetry(s, rec.id, 0, Compensation), i, rec.id, PRIORITY_HIGH,
                       0.01 * index as real);
      QueuedOne(s, m, i, rec, index);
      DecreasingRest(list);
      QueueAllEffect(m, i, rest, index + 1);
      var r := QueueAll(m, i, rest, index + 1);
      UpParts(m, r, i, rest, index + 1);
      StepsQueuedMore(s, m, r, rec, rest);
      ItemsQueuedMore(s, m, r, i, rec, rest, index);
      UpIs(s, r, i, list, index);
    }
  }

  lemma DecreasingRest(list: seq<StepRec>)
    requires list != [] && Decreasing(list)
    ensures Decreasing(list[1..]) && !Listed(list[1..], list[0].id)
  {
    forall k | 0 <= k < |list[1..]|
      ensures list[1..][k].id < list[0].id
    {
    }
  }

  lemma UpParts(s: State, r: State, i: int, list: seq<StepRec>, index: nat)
    requires QueuedUp(s, r, i, list, index)
    ensures r == s.(steps := r.steps, queue := r.queue, nextQueue := s.nextQueue + |list|)
    ensures QueuedSteps(s, r, list) && QueuedItems(s, r, i, list, index)
  {
  }

  lemma UpIs(s: State, r: State, i: int, list: seq<StepRec>, index: nat)
    requires r == s.(steps := r.steps, queue := r.queue, nextQueue := s.nextQueue + |list|)
    requires QueuedSteps(s, r, list) && QueuedItems(s, r, i, list, index)
    ensures QueuedUp(s, r, i, list, index)
  {
  }

  // ------------------------------------------------------------------ the whole reaction

  /** What the reaction makes of a step. */
  function Reacted(s: State, i: int, x: int, steps: Steps): StepRec
    requires x in s.steps
  {
    if !Reacts(s, i, x) then s.steps[x]
    else if HasLink(s, x, steps) then s.steps[x].(compRetries := 0, status := Compensation)
    else s.steps[x].(status := RolledBack)
  }

  /** The numbers of the records. */
  function IdsIn(recs: seq<StepRec>): seq<int> {
    seq(|recs|, k requires 0 <= k < |recs| => recs[k].id)
  }

  /** The records are those of the instance, oldest first. */
  ghost predicate Records(s: State, i: int, recs: seq<StepRec>) {
    && Growing(recs)
    && (forall rec | rec in recs :: rec.id in IdsOf(s, i) && rec.id in s.steps && s.steps[rec.id] == rec)
    && forall x | x in IdsOf(s, i) && x in s.steps :: s.steps[x] in recs && s.steps[x].id == x
  }

  lemma RecordsAre(s: State, i: int)
    requires WellFormed(s)
    ensures Records(s, i, StepsOf(s, i))
  {
    StepsOfCurrent(s, i);
    var recs := StepsOf(s, i);
    forall x | x in IdsOf(s, i) && x in s.steps
      ensures s.steps[x] in recs && s.steps[x].id == x
    {
      PresentHas(s.steps, IdsOf(s, i), x);
      CountsNotNegative(s, x);
    }
    hide WellFormed, Present;
  }

  lemma AfterIsReacting(s: State, i: int, recs: seq<StepRec>, rec: StepRec)
    requires Records(s, i, recs) && rec in recs
    ensures AfterSavePoint(rec, LastSavePoint(recs)) <==> Reacts(s, i, rec.id)
  {
    hide AfterSavePoint, LastSavePoint, IdsOf;
    AfterSavePointIs(recs, rec);
    if forall y | y in recs && y.kind == SavePoint :: y.id < rec.id {
      forall y | y in IdsOf(s, i) && y in s.steps && s.steps[y].kind == SavePoint
        ensures y < rec.id
      {
        assert s.steps[y] in recs;
      }
    }
    if Reacts(s, i, rec.id) {
      forall y | y in recs && y.kind == SavePoint
        ensures y.id < rec.id
      {
        assert s.steps[y.id].kind == SavePoint;
      }
    }
  }

  lemma WhoReacts(s: State, i: int, recs: seq<StepRec>, list: seq<StepRec>, steps: Steps, x: int)
    requires Records(s, i, recs) && x in s.steps
    requires forall rec :: rec in list <==>
               rec in recs && AfterSavePoint(rec, LastSavePoint(recs)) && Compensable(rec, steps)
    ensures UndoneAtOnce(recs, steps, LastSavePoint(recs), x) <==> Reacts(s, i, x) && !HasLink(s, x, steps)
    ensures Listed(list, x) <==> Reacts(s, i, x) && HasLink(s, x, steps)
  {
    hide AfterSavePoint, LastSavePoint, IdsOf;
    forall rec | rec in recs && rec.id == x
      ensures rec == s.steps[x] && (AfterSavePoint(rec, LastSavePoint(recs)) <==> Reacts(s, i, x))
    {
      AfterIsReacting(s, i, recs, rec);
    }
    if Reacts(s, i, x) {
      assert s.steps[x] in recs && s.steps[x].id == x;
    }
  }

  lemma SameUnused(s: State, m: State)
    requires Unused(s) && m == s.(steps := m.steps) && m.steps.Keys == s.steps.Keys
    ensures Unused(m)
  {
  }

  lemma ListKnown(s: State, i: int, recs: seq<StepRec>, list: seq<StepRec>)
    requires Records(s, i, recs) && forall rec | rec in list :: rec in recs
    ensures forall rec | rec in list :: rec.id in s.steps
  {
  }

  lemma OrderOf(s: State, i: int, recs: seq<StepRec>, list: seq<StepRec>, steps: Steps)
    requires Records(s, i, recs) && Decreasing(list)
    requires forall rec :: rec in list <==>
               rec in recs && AfterSavePoint(rec, LastSavePoint(recs)) && Compensable(rec, steps)
    ensures forall k, l | 0 <= k < l < |list| :: IdsIn(list)[l] < IdsIn(list)[k]
    ensures forall x :: x in IdsIn(list) <==> Reacts(s, i, x) && HasLink(s, x, steps)
  {
    forall x
      ensures x in IdsIn(list) <==> Reacts(s, i, x) && HasLink(s, x, steps)
    {
      if x in s.steps {
        WhoReacts(s, i, recs, list, steps, x);
      }
      hide Reacts, HasLink, AfterSavePoint, LastSavePoint, Compensable;
      if x in IdsIn(list) {
        var k :| 0 <= k < |list| && IdsIn(list)[k] == x;
        assert list[k] in list;
      }
      if Listed(list, x) {
        var rec :| rec in list && rec.id == x;
        var k :| 0 <= k < |list| && list[k] == rec;
        assert IdsIn(list)[k] == x;
      }
    }
  }

  lemma QueueOf(m: State, r: State, i: int, list: seq<StepRec>)
    requires QueuedItems(m, r, i, list, 0)
    ensures r.queue.Keys == m.queue.Keys + Elements(From(m.nextQueue, |list|))
    ensures forall q | q in m.queue :: r.queue[q] == m.queue[q]
    ensures forall k: nat | k < |list| :: QueuedAt(r, i, IdsIn(list)[k], m.nextQueue + k, k)
  {
    hide QueuedAt, From;
    forall k: nat | k < |list|
      ensures QueuedAt(r, i, IdsIn(list)[k], m.nextQueue + k, k)
    {
      assert QueuedAt(r, i, list[k].id, m.nextQueue + k, 0 + k);
    }
  }

  /** The exact effect: the completed steps younger than every savepoint of the instance are undone,
      those with a compensation link by a new queue item each, youngest first, the others at once;
      every other step, item and dead letter is as before. */
  lemma ReactionIsExact(s: State, i: int, steps: Steps) returns (order: seq<int>)
    requires WellFormed(s)
    ensures var r := ReactiveRollback(s, i, steps);
            && r == s.(steps := r.steps, queue := r.queue, nextQueue := s.nextQueue + |order|)
            && r.steps.Keys == s.steps.Keys && (forall x | x in s.steps :: r.steps[x] == Reacted(s, i, x, steps))
            && (forall k, l | 0 <= k < l < |order| :: order[l] < order[k])
            && (forall x :: x in order <==> Reacts(s, i, x) && HasLink(s, x, steps))
            && r.queue.Keys == s.queue.Keys + Elements(From(s.nextQueue, |order|))
            && (forall q | q in s.queue :: r.queue[q] == s.queue[q])
            && (forall k: nat | k < |order| :: QueuedAt(r, i, order[k], s.nextQueue + k, k))
  {
    hide WellFormed, Unused, UndoPlain, ToCompensate, QueueAll, LastSavePoint, StepsOf, QueuedAt, Current, From,
         Mirrors;
    hide Records, Reacts, HasLink, UndoneAtOnce, Listed, QueuedItems, Compensable, AfterSavePoint, Decreasing, Growing;
    var recs := StepsOf(s, i);
    var sp := LastSavePoint(recs);
    WellUnused(s);
    StepsOfCurrent(s, i);
    RecordsAre(s, i);
    RecordsGrow(s, i, recs);
    ToCompensateIs(recs, steps, sp);
    var list := ToCompensate(recs, steps, sp);
    var m := UndoPlain(s, recs, steps, sp);
    UndoPlainFrame(s, recs, steps, sp);
    SameUnused(s, m);
    ListKnown(s, i, recs, list);
    QueueAllEffect(m, i, list, 0);
    var r := QueueAll(m, i, list, 0);
    UpParts(m, r, i, list, 0);
    hide QueuedUp;
    order := IdsIn(list);
    forall x | x in s.steps
      ensures r.steps[x] == Reacted(s, i, x, steps)
    {
      UndoPlainAt(s, i, recs, steps, sp, x);
      WhoReacts(s, i, recs, list, steps, x);
    }
    OrderOf(s, i, recs, list, steps);
    QueueOf(m, r, i, list);
  }

  lemma RecordsGrow(s: State, i: int, recs: seq<StepRec>)
    requires Records(s, i, recs)
    ensures Growing(recs)
  {
  }

  // ------------------------------------------------------------------ the end of a workflow

  /** Some step of the instance failed or was rolled back. */
  predicate WentWrong(s: State, i: int) {
    exists x | x in IdsOf(s, i) :: x in s.steps && (s.steps[x].status == Failed || s.steps[x].status == RolledBack)
  }

  /** Some step is in compensation, or comes into it by the reaction. */
  predicate StillUndoing(s: State, i: int, steps: Steps) {
    exists x | x in IdsOf(s, i) :: x in s.steps && Reacted(s, i, x, steps).status == Compensation
  }

  /** The end of a workflow: completed when nothing went wrong; otherwise the reaction, after which
      the workflow has failed unless a compensation is still to come. */
  lemma CompletionIsExact(s: State, i: int, steps: Steps)
    requires WellFormed(s) && i in s.instances
    ensures var r := CompleteWorkflow(s, i, steps);
            && (!WentWrong(s, i) ==> r == s.(instances := s.instances[i := s.instances[i].(status := WfCompleted)]))
            && (WentWrong(s, i) ==>
                  r == ReactiveRollback(s, i, steps).(instances :=
                         if StillUndoing(s, i, steps) then s.instances
                         else s.instances[i := s.instances[i].(status := WfFailed)]))
  {
    hide WellFormed, ReactiveRollback, SomeStep, IdsOf, Reacted, Tame, From, QueuedAt;
    SomeStepAt(s, i, {Failed, RolledBack});
    var order := ReactionIsExact(s, i, steps);
    var m := ReactiveRollback(s, i, steps);
    ReactiveTame(s, i, steps);
    TameWell(s, m, i, steps);
    SomeStepAt(m, i, {Compensation});
    SameIds(s, m, i);
  }

  lemma SameIds(s: State, m: State, i: int)
    requires m.byInstance == s.byInstance
    ensures IdsOf(m, i) == IdsOf(s, i)
  {
  }
}
