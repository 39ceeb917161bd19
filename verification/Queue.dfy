/** The step queue: effective priority with aging, exclusive claims, bounded overtaking. */
module Queue {
  import opened Definitions
  import opened Store

  type Items = map<int, QueueItem>

  datatype Aging = Aging(enabled: bool, rate: real)

  /** Conversion to an integer drops the fraction. */
  function Truncate(x: real): int {
    if x >= 0.0 then x.Floor else -((-x).Floor)
  }

  function AtMost100(p: int): int {
    if p > 100 then 100 else p
  }

  predicate Ages(a: Aging) {
    a.enabled && a.rate > 0.0
  }

  /** What an item has gained by waiting. */
  function Bonus(item: QueueItem, a: Aging, now: real): real {
    (now - item.scheduledAt) * a.rate
  }

  /** The effective priority in the in-memory store. */
  function Effective(item: QueueItem, a: Aging, now: real): int {
    if Ages(a) then AtMost100(Truncate(item.priority as real + Bonus(item, a, now)))
    else item.priority
  }

  /** The effective priority in the SQL store. */
  function EffectiveSql(item: QueueItem, a: Aging, now: real): int {
    if Ages(a) then AtMost100(item.priority + Bonus(item, a, now).Floor)
    else item.priority
  }

  predicate Due(item: QueueItem, now: real) {
    !item.attempted && item.scheduledAt <= now
  }

  lemma TruncateShift(p: int, x: real)
    ensures Truncate(p as real + x) == p + x.Floor <==> p as real + x >= 0.0 || x == x.Floor as real
  {
    var y := p as real + x;
    assert y.Floor == p + x.Floor;
    if y < 0.0 {
      assert (-y).Floor == if x == x.Floor as real then -p - x.Floor else -p - x.Floor - 1;
    }
  }

  /** For a due item the truncated sum and the SQL formula agree exactly when the aged
      priority is not negative or the aging bonus is a whole number. */
  lemma FormulasAgreeIff(item: QueueItem, a: Aging, now: real)
    requires Ages(a) && Due(item, now)
    ensures var bonus := Bonus(item, a, now);
            Effective(item, a, now) == EffectiveSql(item, a, now) <==>
            item.priority as real + bonus >= 0.0 || bonus == bonus.Floor as real
  {
    hide Bonus;
    CappedAgreeIff(item.priority, Bonus(item, a, now));
  }

  lemma CappedAgreeIff(p: int, x: real)
    ensures AtMost100(Truncate(p as real + x)) == AtMost100(p + x.Floor) <==>
            p as real + x >= 0.0 || x == x.Floor as real
  {
    TruncateShift(p, x);
    var y := p as real + x;
    if y < 0.0 {
      assert Truncate(y) <= 0;
      assert y.Floor == p + x.Floor;
    }
  }

  lemma BonusNotNegative(item: QueueItem, a: Aging, now: real)
    requires Ages(a) && item.scheduledAt <= now
    ensures Bonus(item, a, now) >= 0.0
  {
  }

  /** In particular they agree for every non-negative priority. */
  lemma FormulasAgree(item: QueueItem, a: Aging, now: real)
    requires Due(item, now) && item.priority >= 0
    ensures Effective(item, a, now) == EffectiveSql(item, a, now)
  {
    if Ages(a) {
      BonusNotNegative(item, a, now);
      hide Bonus;
      FormulasAgreeIff(item, a, now);
    }
  }

  /** They disagree for a negative priority that has aged half a point. */
  lemma FormulasDiffer()
    ensures var item := QueueItem(1, None, 0.0, -1, false);
            Effective(item, Aging(true, 0.5), 1.0) == 0 && EffectiveSql(item, Aging(true, 0.5), 1.0) == -1
  {
    assert Truncate(-0.5) == 0;
  }

  // ------------------------------------------------------------------ selection

  /** An item a dequeue may take: due, unclaimed, of non-negative effective priority. */
  predicate Candidate(q: Items, a: Aging, now: real, id: int) {
    id in q && Due(q[id], now) && Effective(q[id], a, now) >= 0
  }

  /** x is served before y or at the same rank. */
  predicate ServedBefore(x: QueueItem, y: QueueItem, a: Aging, now: real) {
    || Effective(x, a, now) > Effective(y, a, now)
    || (Effective(x, a, now) == Effective(y, a, now) && x.scheduledAt <= y.scheduledAt)
  }

  /** id is a legitimate result of a dequeue. */
  ghost predicate Picked(q: Items, a: Aging, now: real, id: int) {
    && Candidate(q, a, now, id)
    && forall j | j in q && Due(q[j], now) :: ServedBefore(q[id], q[j], a, now)
  }

  function Claim(q: Items, id: int): Items
    requires id in q
  {
    q[id := q[id].(attempted := true)]
  }

  lemma AnyOf<T>(s: set<T>) returns (x: T)
    requires s != {}
    ensures x in s
  {
    x :| x in s;
  }

  /** The selection loop, for every iteration order of the map. */
  method SelectItem(q: Items, a: Aging, now: real) returns (r: Option<int>)
    ensures r.Some? ==> Picked(q, a, now, r.value)
    ensures r.None? ==> forall id | id in q && Due(q[id], now) :: Effective(q[id], a, now) < 0
  {
    hide Bonus, Truncate;
    r := None;
    var maxPriority := -1;
    var rest := q.Keys;
    while rest != {}
      invariant rest <= q.Keys
      invariant r.None? ==> maxPriority == -1
      invariant r.Some? ==> Candidate(q, a, now, r.value) && Effective(q[r.value], a, now) == maxPriority
      invariant forall j | j in q && j !in rest && Due(q[j], now) ::
                  if r.Some? then ServedBefore(q[r.value], q[j], a, now) else Effective(q[j], a, now) < 0
      decreases rest
    {
      ghost var some := AnyOf(rest);
      var id :| id in rest;
      rest := rest - {id};
      var item := q[id];
      if !item.attempted && item.scheduledAt <= now {
        var priority := item.priority;
        if a.enabled && a.rate > 0.0 {
          priority := Truncate(item.priority as real + Bonus(item, a, now));
          if priority > 100 {
            priority := 100;
          }
        }
        assert priority == Effective(item, a, now);
        if priority > maxPriority
           || (priority == maxPriority && r.Some? && item.scheduledAt < q[r.value].scheduledAt) {
          maxPriority := priority;
          r := Some(id);
        }
      }
    }
  }

  // ------------------------------------------------------------------ runs

  datatype QState = QState(items: Items, nextId: int, clock: real)

  datatype QOp =
    | EnqueueOp(instance: int, step: int, priority: int, delay: real)
    | DequeueOp
    | RemoveOp(id: int)
    | ReleaseOp(id: int)
    | RescheduleOp(id: int, delay: real)
    | TickOp(elapsed: real)

  function Max(x: real, y: real): real {
    if x < y then y else x
  }

  function Release(q: Items, id: int): Items {
    if id in q then q[id := q[id].(attempted := false)] else q
  }

  function Reschedule(q: Items, id: int, at: real): Items {
    if id in q then q[id := q[id].(attempted := false, scheduledAt := Max(at, q[id].scheduledAt))] else q
  }

  /** One operation; the result of a dequeue depends on the iteration order of the map. */
  ghost predicate QNext(s: QState, op: QOp, a: Aging, r: QState) {
    match op
    case EnqueueOp(i, st, p, delay) =>
      r == QState(s.items[s.nextId := QueueItem(i, Some(st), s.clock + delay, p, false)], s.nextId + 1, s.clock)
    case DequeueOp =>
      if exists id :: Picked(s.items, a, s.clock, id)
      then exists id :: Picked(s.items, a, s.clock, id) && r == s.(items := Claim(s.items, id))
      else r == s
    case RemoveOp(id) => r == s.(items := s.items - {id})
    case ReleaseOp(id) => r == s.(items := Release(s.items, id))
    case RescheduleOp(id, delay) => r == s.(items := Reschedule(s.items, id, s.clock + delay))
    case TickOp(elapsed) => elapsed >= 0.0 && r == s.(clock := s.clock + elapsed)
  }

  /** A run: one more state than operations, related step by step. */
  ghost predicate QRun(states: seq<QState>, ops: seq<QOp>, a: Aging) {
    |states| == |ops| + 1 && forall i | 0 <= i < |ops| :: QNext(states[i], ops[i], a, states[i + 1])
  }

  // ------------------------------------------------------------------ bounded overtaking

  /** x waits unclaimed, is overdue, and has aged to the top priority. */
  predicate Waiting(s: QState, a: Aging, x: int) {
    && Ages(a) && x in s.items && !s.items[x].attempted
    && s.items[x].scheduledAt < s.clock && Effective(s.items[x], a, s.clock) == 100
    && forall id | id in s.items :: id < s.nextId
  }

  /** The unclaimed items scheduled no later than x, other than x. */
  function Ahead(s: QState, x: int): set<int>
    requires x in s.items
  {
    set id | id in s.items && id != x && !s.items[id].attempted && s.items[id].scheduledAt <= s.items[x].scheduledAt
  }

  /** Operations that neither touch x itself nor release an item without rescheduling it. */
  predicate Admissible(op: QOp, x: int) {
    match op
    case EnqueueOp(_, _, _, delay) => delay >= 0.0
    case RescheduleOp(id, delay) => id != x && delay >= 0.0
    case RemoveOp(id) => id != x
    case ReleaseOp(_) => false
    case _ => true
  }

  lemma BonusMonotone(item: QueueItem, a: Aging, now: real, later: real)
    requires Ages(a) && now <= later
    ensures Bonus(item, a, now) <= Bonus(item, a, later)
  {
    var w, w' := now - item.scheduledAt, later - item.scheduledAt;
    assert w' * a.rate - w * a.rate == (w' - w) * a.rate;
  }

  lemma StaysOnTop(item: QueueItem, a: Aging, now: real, later: real)
    requires Ages(a) && Effective(item, a, now) == 100 && now <= later
    ensures Effective(item, a, later) == 100
  {
    BonusMonotone(item, a, now, later);
    hide Bonus;
    TruncateMonotone(item.priority as real + Bonus(item, a, now), item.priority as real + Bonus(item, a, later));
  }

  lemma TruncateMonotone(x: real, y: real)
    requires x <= y
    ensures Truncate(x) <= Truncate(y)
  {
  }

  lemma EffectiveAtMost100(item: QueueItem, a: Aging, now: real)
    requires Ages(a)
    ensures Effective(item, a, now) <= 100
  {
  }

  /** A dequeue takes x or one of the items ahead of it. */
  lemma PickIsAhead(s: QState, a: Aging, x: int, id: int)
    requires Waiting(s, a, x) && Picked(s.items, a, s.clock, id)
    ensures id == x || id in Ahead(s, x)
  {
    EffectiveAtMost100(s.items[id], a, s.clock);
    assert ServedBefore(s.items[id], s.items[x], a, s.clock);
  }

  lemma SubsetSmaller(a: set<int>, b: set<int>)
    requires a <= b
    ensures |a| <= |b| && (a != b ==> |a| < |b|)
  {
    var rest := b - a;
    assert b == a + rest;
  }

  /** No admissible operation puts an item ahead of x; a dequeue that leaves x unclaimed
      removes one from ahead of it. */
  lemma OneStep(s: QState, op: QOp, a: Aging, r: QState, x: int)
    requires Waiting(s, a, x) && Admissible(op, x) && QNext(s, op, a, r)
    requires x in r.items && !r.items[x].attempted
    ensures Waiting(r, a, x)
    ensures |Ahead(r, x)| <= |Ahead(s, x)|
    ensures op.DequeueOp? ==> |Ahead(r, x)| < |Ahead(s, x)|
  {
    match op
    case DequeueOp =>
      TopIsPickable(s, a, x);
      var id :| Picked(s.items, a, s.clock, id) && r == s.(items := Claim(s.items, id));
      PickIsAhead(s, a, x, id);
      assert Ahead(r, x) <= Ahead(s, x) && id !in Ahead(r, x);
      SubsetSmaller(Ahead(r, x), Ahead(s, x));
    case TickOp(elapsed) =>
      StaysOnTop(s.items[x], a, s.clock, r.clock);
      assert Ahead(r, x) == Ahead(s, x);
    case EnqueueOp(_, _, _, _) =>
      assert Ahead(r, x) <= Ahead(s, x);
      SubsetSmaller(Ahead(r, x), Ahead(s, x));
    case RemoveOp(_) =>
      assert Ahead(r, x) <= Ahead(s, x);
      SubsetSmaller(Ahead(r, x), Ahead(s, x));
    case RescheduleOp(_, _) =>
      assert Ahead(r, x) <= Ahead(s, x);
      SubsetSmaller(Ahead(r, x), Ahead(s, x));
  }

  /** Some item can be picked whenever a waiting item exists. */
  lemma TopIsPickable(s: QState, a: Aging, x: int)
    requires Waiting(s, a, x)
    ensures exists id :: Picked(s.items, a, s.clock, id)
  {
    var id := BestOf(s.items, a, s.clock, s.items.Keys, x);
    assert Picked(s.items, a, s.clock, id);
  }

  lemma {:induction false} BestOf(q: Items, a: Aging, now: real, ids: set<int>, x: int) returns (best: int)
    requires ids <= q.Keys && x in ids && Candidate(q, a, now, x)
    ensures best in ids && Candidate(q, a, now, best)
    ensures forall j | j in ids && Due(q[j], now) :: ServedBefore(q[best], q[j], a, now)
    decreases ids
  {
    if y :| y in ids && y != x {
      best := BestOf(q, a, now, ids - {y}, x);
      if Due(q[y], now) && !ServedBefore(q[best], q[y], a, now) {
        best := y;
      }
    } else {
      best := x;
    }
  }

  function Dequeues(ops: seq<QOp>): nat {
    if ops == [] then 0 else (if ops[0].DequeueOp? then 1 else 0) + Dequeues(ops[1..])
  }

  /** Admissible operations neither remove nor claim x, except for a dequeue that takes it. */
  lemma OnlyDequeueClaims(s: QState, op: QOp, a: Aging, r: QState, x: int)
    requires QNext(s, op, a, r) && Admissible(op, x) && x in s.items && !s.items[x].attempted && x < s.nextId
    requires !(x in r.items && !r.items[x].attempted)
    ensures op.DequeueOp? && Picked(s.items, a, s.clock, x) && r == s.(items := Claim(s.items, x))
  {
  }

  /** A dequeue that takes x. */
  ghost predicate Takes(s: QState, a: Aging, r: QState, x: int) {
    Picked(s.items, a, s.clock, x) && r == s.(items := Claim(s.items, x))
  }

  /** The main result: an overdue item of top effective priority has been dequeued once there
      were more dequeues than unclaimed items scheduled no later than it, whatever was
      enqueued, removed or rescheduled meanwhile. */
  lemma {:induction false} BoundedOvertaking(states: seq<QState>, ops: seq<QOp>, a: Aging, x: int) returns (i: nat)
    requires QRun(states, ops, a) && Waiting(states[0], a, x)
    requires forall j | 0 <= j < |ops| :: Admissible(ops[j], x)
    requires Dequeues(ops) > |Ahead(states[0], x)|
    ensures i < |ops| && ops[i].DequeueOp? && Takes(states[i], a, states[i + 1], x)
    decreases |ops|
  {
    assert QNext(states[0], ops[0], a, states[1]);
    if x in states[1].items && !states[1].items[x].attempted {
      OneStep(states[0], ops[0], a, states[1], x);
      var rest, more := states[1..], ops[1..];
      forall j | 0 <= j < |more|
        ensures QNext(rest[j], more[j], a, rest[j + 1])
      {
        assert QNext(states[j + 1], ops[j + 1], a, states[j + 2]);
      }
      i := BoundedOvertaking(rest, more, a, x);
      i := i + 1;
    } else {
      OnlyDequeueClaims(states[0], ops[0], a, states[1], x);
      i := 0;
    }
  }

  /** x is due, unclaimed and of top effective priority. */
  predicate TopDue(s: QState, a: Aging, x: int) {
    && Ages(a) && x in s.items && Due(s.items[x], s.clock) && Effective(s.items[x], a, s.clock) == 100
    && forall id | id in s.items :: id < s.nextId
  }

  /** Whatever is enqueued, removed or rescheduled, x is dequeued once there were more dequeues
      than items ahead of it. */
  ghost predicate AlwaysServed(s: QState, a: Aging, x: int)
    requires x in s.items
  {
    forall states: seq<QState>, ops: seq<QOp> |
      QRun(states, ops, a) && states[0] == s && (forall j | 0 <= j < |ops| :: Admissible(ops[j], x))
        && Dequeues(ops) > |Ahead(s, x)| ::
      ServedIn(states, ops, a, x)
  }

  ghost predicate ServedIn(states: seq<QState>, ops: seq<QOp>, a: Aging, x: int)
    requires |states| == |ops| + 1
  {
    exists i | 0 <= i < |ops| :: ops[i].DequeueOp? && Takes(states[i], a, states[i + 1], x)
  }

  /** An item scheduled at this very moment can be overtaken by one enqueued now. */
  lemma OvertakenOnce(s: QState, a: Aging, x: int) returns (m: QState, r: QState)
    requires TopDue(s, a, x) && s.items[x].scheduledAt == s.clock
    ensures QNext(s, EnqueueOp(0, 0, 100, 0.0), a, m) && QNext(m, DequeueOp, a, r)
    ensures TopDue(r, a, x) && r.items[x] == s.items[x] && m.items[x] == s.items[x] && r.clock == s.clock
  {
    var y := s.nextId;
    m := QState(s.items[y := QueueItem(0, Some(0), s.clock + 0.0, 100, false)], s.nextId + 1, s.clock);
    NewIsTop(m.items[y], a, s.clock);
    assert Candidate(m.items, a, m.clock, y);
    hide Effective;
    var best := BestOf(m.items, a, m.clock, m.items.Keys - {x}, y);
    assert ServedBefore(m.items[best], m.items[y], a, m.clock);
    NoHigher(m.items[best], a, m.clock);
    assert ServedBefore(m.items[best], m.items[x], a, m.clock);
    assert Picked(m.items, a, m.clock, best);
    r := m.(items := Claim(m.items, best));
  }

  lemma NewIsTop(item: QueueItem, a: Aging, now: real)
    requires Ages(a) && item.priority == 100 && item.scheduledAt == now
    ensures Effective(item, a, now) == 100
  {
    var w := now - item.scheduledAt;
    assert w == 0.0 && w * a.rate == 0.0;
    assert item.priority as real + Bonus(item, a, now) == 100.0;
    assert Truncate(100.0) == 100;
  }

  lemma NoHigher(item: QueueItem, a: Aging, now: real)
    requires Ages(a)
    ensures Effective(item, a, now) <= 100
  {
  }

  /** ... and again, any number of times. */
  lemma {:induction false} OvertakenForever(s: QState, a: Aging, x: int, n: nat)
    returns (states: seq<QState>, ops: seq<QOp>)
    requires TopDue(s, a, x) && s.items[x].scheduledAt == s.clock
    ensures QRun(states, ops, a) && states[0] == s && Dequeues(ops) == n
    ensures forall j | 0 <= j < |ops| :: Admissible(ops[j], x)
    ensures forall j | 0 <= j < |states| :: x in states[j].items && !states[j].items[x].attempted
    decreases n
  {
    if n == 0 {
      states, ops := [s], [];
    } else {
      var m, r := OvertakenOnce(s, a, x);
      hide Effective, Picked;
      var rest, more := OvertakenForever(r, a, x, n - 1);
      states, ops := [s, m] + rest, [EnqueueOp(0, 0, 100, 0.0), DequeueOp] + more;
      assert ops[1..] == [DequeueOp] + more && ops[1..][1..] == more;
      hide TopDue, QNext, Dequeues;
      assert Dequeues(ops) == n by {
        DequeuesTwo(more);
      }
      forall j | 0 <= j < |ops|
        ensures QNext(states[j], ops[j], a, states[j + 1])
      {
        if j >= 2 {
          assert QNext(rest[j - 2], more[j - 2], a, rest[j - 1]);
        }
      }
    }
  }

  lemma DequeuesTwo(more: seq<QOp>)
    ensures Dequeues([EnqueueOp(0, 0, 100, 0.0), DequeueOp] + more) == 1 + Dequeues(more)
  {
    var ops := [EnqueueOp(0, 0, 100, 0.0), DequeueOp] + more;
    assert ops[1..] == [DequeueOp] + more && ops[1..][1..] == more;
  }

  /** The exact condition of the bound: among the due items of top effective priority those that
      have waited, however shortly, and no others, cannot be overtaken any longer. */
  lemma OvertakingBoundIff(s: QState, a: Aging, x: int)
    requires TopDue(s, a, x)
    ensures AlwaysServed(s, a, x) <==> s.items[x].scheduledAt < s.clock
  {
    hide Effective, Picked, QNext;
    if s.items[x].scheduledAt < s.clock {
      forall states: seq<QState>, ops: seq<QOp> |
        QRun(states, ops, a) && states[0] == s && (forall j | 0 <= j < |ops| :: Admissible(ops[j], x))
          && Dequeues(ops) > |Ahead(s, x)|
        ensures ServedIn(states, ops, a, x)
      {
        var i := BoundedOvertaking(states, ops, a, x);
      }
    } else {
      var states, ops := OvertakenForever(s, a, x, |Ahead(s, x)| + 1);
      NeverTaken(states, ops, a, x);
    }
  }

  lemma NeverTaken(states: seq<QState>, ops: seq<QOp>, a: Aging, x: int)
    requires |states| == |ops| + 1 && forall j | 0 <= j < |states| ::
               x in states[j].items && !states[j].items[x].attempted
    ensures !ServedIn(states, ops, a, x)
  {
    forall i | 0 <= i < |ops|
      ensures !Takes(states[i], a, states[i + 1], x)
    {
      assert !states[i + 1].items[x].attempted;
      hide Picked;
    }
  }

  // ------------------------------------------------------------------ exclusive claims

  /** x is claimed, or gone for good. */
  predicate Held(s: QState, x: int) {
    x < s.nextId && (x in s.items ==> s.items[x].attempted)
  }

  predicate Frees(op: QOp, x: int) {
    (op.ReleaseOp? || op.RescheduleOp?) && op.id == x
  }

  lemma {:induction false} HeldUntilFreed(states: seq<QState>, ops: seq<QOp>, a: Aging, x: int)
    requires QRun(states, ops, a) && Held(states[0], x)
    requires forall i | 0 <= i < |ops| :: !Frees(ops[i], x)
    ensures forall i | 0 <= i < |states| :: Held(states[i], x)
    decreases |ops|
  {
    if ops != [] {
      assert QNext(states[0], ops[0], a, states[1]);
      HeldStep(states[0], ops[0], a, states[1], x);
      var rest, more := states[1..], ops[1..];
      forall j | 0 <= j < |more|
        ensures QNext(rest[j], more[j], a, rest[j + 1])
      {
        assert QNext(states[j + 1], ops[j + 1], a, states[j + 2]);
      }
      HeldUntilFreed(rest, more, a, x);
      forall i | 0 <= i < |states|
        ensures Held(states[i], x)
      {
        assert i > 0 ==> states[i] == rest[i - 1];
      }
    }
  }

  lemma HeldStep(s: QState, op: QOp, a: Aging, r: QState, x: int)
    requires QNext(s, op, a, r) && Held(s, x) && !Frees(op, x)
    ensures Held(r, x)
  {
  }

  /** An item taken by a dequeue is not taken again until it is released or rescheduled. */
  lemma ClaimsAreExclusive(states: seq<QState>, ops: seq<QOp>, a: Aging, x: int, i: nat)
    requires QRun(states, ops, a) && |ops| > 0 && x in states[0].items && x < states[0].nextId
    requires ops[0].DequeueOp? && states[1] == states[0].(items := Claim(states[0].items, x))
    requires forall j | 0 < j < |ops| :: !Frees(ops[j], x)
    requires 0 < i < |ops| && ops[i].DequeueOp?
    ensures !Picked(states[i].items, a, states[i].clock, x)
  {
    var rest, more := states[1..], ops[1..];
    forall j | 0 <= j < |more|
      ensures QNext(rest[j], more[j], a, rest[j + 1]) && !Frees(more[j], x)
    {
      assert QNext(states[j + 1], ops[j + 1], a, states[j + 2]);
    }
    HeldUntilFreed(rest, more, a, x);
    assert states[i] == rest[i - 1];
  }
}
