/** What the engine does with joins: which joins hear of a step, which join steps are created,
    and that over every run a join step exists only because its join was ready. */
module EngineJoins {
  import opened Definitions
  import opened Store
  import opened Queue
  import opened Joins
  import opened JoinStores
  import opened Rollback
  import opened RollbackEffects
  import opened RollbackEngine
  import opened Engine
  import opened EngineFrames
  import opened EngineTame
  import opened EngineSteps
  import opened EngineRuns

  // ------------------------------------------------------------------ one notification

  /** Reporting the same outcome twice changes nothing more. */
  lemma NotifyTwice(j: JoinState, step: string, success: bool)
    requires Consistent(j)
    ensures Notified(Notified(j, step, success), step, success) == Notified(j, step, success)
  {
    InsertFacts(j.completed, step);
    InsertFacts(j.failed, step);
    WithoutFacts(j.completed, step);
    WithoutFacts(j.failed, step);
    WithoutMissing(Without(j.failed, step), step);
    WithoutMissing(Without(j.completed, step), step);
  }

  lemma {:induction false} WithoutMissing(s: seq<string>, x: string)
    requires x !in s
    ensures Without(s, x) == s
  {
    if s != [] {
      WithoutMissing(s[1..], x);
    }
  }

  /** The effect of a report on one join. */
  function Reported(j: Option<JoinState>, step: string, success: bool): Option<JoinState> {
    After(j, NotifyOp(step, success))
  }

  lemma ReportedTwice(j: Option<JoinState>, step: string, success: bool)
    requires j.Some? ==> Consistent(j.value)
    ensures Reported(Reported(j, step, success), step, success) == Reported(j, step, success)
  {
    if j.Some? {
      NotifyTwice(j.value, step, success);
    }
  }

  lemma CreateJoinKeeps(s: State, i: int, n: string)
    ensures CreateJoin(s, i, n).joins == s.joins
  {
    hide Named, IsDlq, CreateStep, Enqueue;
    CreateKeepsJoins(s, i, n, Paused);
    CreateKeepsJoins(s, i, n, Pending);
    EnqueueKeepsJoins(CreateStep(s, i, n, Join, Pending, 0), i, s.nextStep);
  }

  lemma CreateKeepsJoins(s: State, i: int, n: string, status: StepStatus)
    ensures CreateStep(s, i, n, Join, status, 0).joins == s.joins
  {
  }

  lemma EnqueueKeepsJoins(s: State, i: int, step: int)
    ensures Enqueue(s, i, step, PRIORITY_NORMAL, 0.0).joins == s.joins
  {
  }

  /** The join is the only one that hears of it, and it hears once. */
  lemma NotifyJoinTable(s: State, i: int, steps: Steps, order: seq<string>, n: string, step: string, success: bool)
    requires n in steps && JoinsFiled(s)
    ensures var (r, ok) := NotifyJoin(s, i, steps, order, n, step, success);
            && (ok <==> JoinAt(s, i, n).Some?)
            && (forall j, m :: JoinAt(r, j, m) == if j == i && m == n then
                Reported(JoinAt(s, i, n), step, success) else JoinAt(s, j, m))
  {
    hide BranchPending, CreateJoin, After, JoinStep, JoinAt, StepsOf;
    var s1 := JoinStep(s, i, n, NotifyOp(step, success));
    JoinConsistent(s, i, n);
    hide Consistent, JoinsFiled;
    ReportedTwice(JoinAt(s, i, n), step, success);
    JoinStepTable(s, i, n, NotifyOp(step, success));
    JoinStepTable(s1, i, n, NotifyOp(step, success));
    CreateJoinKeeps(s1, i, n);
    SameJoins(s1, CreateJoin(s1, i, n));
    ReportedSome(JoinAt(s, i, n), step, success);
  }

  lemma ReportedSome(j: Option<JoinState>, step: string, success: bool)
    ensures Reported(j, step, success).Some? <==> j.Some?
  {
    hide Notified;
  }

  lemma SameJoins(s: State, r: State)
    requires r.joins == s.joins
    ensures forall j, m :: JoinAt(r, j, m) == JoinAt(s, j, m)
  {
  }

  lemma JoinStepTable(s: State, i: int, n: string, op: JoinOp)
    ensures forall j, m :: JoinAt(JoinStep(s, i, n, op), j, m) == if j == i && m == n then
            After(JoinAt(s, i, n), op) else JoinAt(s, j, m)
  {
    assert JoinAt(s, i, n).Some? ==> After(JoinAt(s, i, n), op).Some?;
    hide After;
  }

  // ------------------------------------------------------------------ all notifications

  lemma AwaitedKept(s: State, r: State, i: int, steps: Steps, n: string, step: string, success: bool)
    requires JoinAt(r, i, n) == JoinAt(s, i, n) || JoinAt(r, i, n) == Reported(JoinAt(s, i, n), step, success)
    ensures AwaitedBy(r, i, steps, n, step) <==> AwaitedBy(s, i, steps, n, step)
    ensures JoinAt(r, i, n).Some? <==> JoinAt(s, i, n).Some?
  {
  }

  /** Every join of the list that waits for the step has heard of it once, if none lacked a
      state; no other join has. */
  ghost predicate Told(s: State, r: State, ok: bool, i: int, steps: Steps, rest: seq<string>, step: string,
                       success: bool) {
    && (ok <==> forall n | HearsOf(s, i, steps, rest, n, step) :: JoinAt(s, i, n).Some?)
    && (forall j, m ::
          || JoinAt(r, j, m) == JoinAt(s, j, m)
          || (j == i && HearsOf(s, i, steps, rest, m, step)
              && JoinAt(r, i, m) == Reported(JoinAt(s, i, m), step, success)))
    && (ok ==> forall m | HearsOf(s, i, steps, rest, m, step) ::
        JoinAt(r, i, m) == Reported(JoinAt(s, i, m), step, success))
  }

  /** What a report does to the join table. */
  lemma {:induction false} NotifyAllTable(s: State, i: int, def: Definition, order: seq<string>, rest: seq<string>,
                                          step: string, success: bool)
    requires WellFormed(s) && Runs(s, i, def) && Distinct(rest)
    ensures var (r, ok) := NotifyAll(s, i, def.steps, order, rest, step, success);
            Told(s, r, ok, i, def.steps, rest, step, success)
    decreases |rest|
  {
    if rest != [] {
      var n, more := rest[0], rest[1..];
      assert n !in more && Distinct(more) && rest == [n] + more;
      hide WellFormed, NotifyJoin, AwaitedBy, JoinAt, Reported, JoinsFiled, Distinct, Tame, Runs, Told;
      var steps := def.steps;
      if AwaitedBy(s, i, steps, n, step) {
        AwaitedInside(s, i, steps, n, step);
        WellJoins(s);
        NotifyJoinTable(s, i, steps, order, n, step, success);
        var (s1, ok) := NotifyJoin(s, i, steps, order, n, step, success);
        if ok {
          NotifyJoinTame(s, i, def, order, n, step, success);
          TameWell(s, s1, i, steps);
          RunsOn(s, s1, i, def);
          AwaitedSame(s, s1, i, steps, step, success);
          NotifyAllTable(s1, i, def, order, more, step, success);
          var (r, all) := NotifyAll(s1, i, steps, order, more, step, success);
          ToldNext(s, s1, r, all, i, steps, n, more, step, success);
        } else {
          ToldNothing(s, s1, i, steps, n, more, step, success);
        }
      } else {
        NotifyAllTable(s, i, def, order, more, step, success);
        var (r, all) := NotifyAll(s, i, steps, order, more, step, success);
        ToldOthers(s, r, all, i, steps, n, more, step, success);
      }
    }
  }

  lemma ToldNext(s: State, s1: State, r: State, ok: bool, i: int, steps: Steps, n: string, more: seq<string>,
                 step: string, success: bool)
    requires n !in more && Told(s1, r, ok, i, steps, more, step, success) && AwaitedBy(s, i, steps, n, step)
             && JoinAt(s, i, n).Some?
    requires forall j, m :: JoinAt(s1, j, m) == if j == i && m == n then
             Reported(JoinAt(s, i, n), step, success) else JoinAt(s, j, m)
    requires forall m :: AwaitedBy(s1, i, steps, m, step) <==> AwaitedBy(s, i, steps, m, step)
    requires forall m :: JoinAt(s1, i, m).Some? <==> JoinAt(s, i, m).Some?
    ensures Told(s, r, ok, i, steps, [n] + more, step, success)
  {
    hide AwaitedBy, JoinAt, Reported, HearsOf;
    HearsCons(s, s1, i, steps, n, more, step);
  }

  lemma HearsCons(s: State, s1: State, i: int, steps: Steps, n: string, more: seq<string>, step: string)
    requires n !in more && forall m :: AwaitedBy(s1, i, steps, m, step) <==> AwaitedBy(s, i, steps, m, step)
    ensures forall m :: HearsOf(s, i, steps, [n] + more, m, step) <==>
              (m == n && AwaitedBy(s, i, steps, n, step)) || HearsOf(s1, i, steps, more, m, step)
    ensures !HearsOf(s1, i, steps, more, n, step)
  {
    HearsIff(s, i, steps, [n] + more, step);
    HearsIff(s1, i, steps, more, step);
    hide AwaitedBy, HearsOf;
  }

  lemma ToldOthers(s: State, r: State, ok: bool, i: int, steps: Steps, n: string, more: seq<string>, step: string,
                   success: bool)
    requires n !in more && Told(s, r, ok, i, steps, more, step, success) && !AwaitedBy(s, i, steps, n, step)
    ensures Told(s, r, ok, i, steps, [n] + more, step, success)
  {
    hide AwaitedBy, JoinAt, Reported, HearsOf;
    HearsCons(s, s, i, steps, n, more, step);
  }

  lemma ToldNothing(s: State, s1: State, i: int, steps: Steps, n: string, more: seq<string>, step: string,
                    success: bool)
    requires n !in more && AwaitedBy(s, i, steps, n, step) && JoinAt(s, i, n).None?
    requires forall j, m :: JoinAt(s1, j, m) == if j == i && m == n then
             Reported(JoinAt(s, i, n), step, success) else JoinAt(s, j, m)
    ensures Told(s, s1, false, i, steps, [n] + more, step, success)
  {
    hide AwaitedBy, JoinAt, HearsOf;
    HearsCons(s, s, i, steps, n, more, step);
  }

  lemma AwaitedSame(s: State, s1: State, i: int, steps: Steps, step: string, success: bool)
    requires forall m ::
               JoinAt(s1, i, m) == JoinAt(s, i, m) || JoinAt(s1, i, m) == Reported(JoinAt(s, i, m), step, success)
    ensures forall m :: AwaitedBy(s1, i, steps, m, step) <==> AwaitedBy(s, i, steps, m, step)
    ensures forall m :: JoinAt(s1, i, m).Some? <==> JoinAt(s, i, m).Some?
  {
    hide AwaitedBy, JoinAt, Reported;
    forall m
      ensures AwaitedBy(s1, i, steps, m, step) <==> AwaitedBy(s, i, steps, m, step)
      ensures JoinAt(s1, i, m).Some? <==> JoinAt(s, i, m).Some?
    {
      AwaitedKept(s, s1, i, steps, m, step, success);
    }
  }

  /** n is in the list, is a join, and has the step in the wait list of its definition or of its
      present state. */
  predicate HearsOf(s: State, i: int, steps: Steps, rest: seq<string>, n: string, step: string) {
    && n in rest && n in steps && steps[n].kind == Join
    && ((JoinAt(s, i, n).Some? && step in JoinAt(s, i, n).value.waitingFor) || step in steps[n].waitFor)
  }

  lemma HearsIff(s: State, i: int, steps: Steps, rest: seq<string>, step: string)
    ensures forall n :: HearsOf(s, i, steps, rest, n, step) <==> n in rest && AwaitedBy(s, i, steps, n, step)
  {
    hide JoinAt;
  }

  lemma AwaitedInside(s: State, i: int, steps: Steps, n: string, step: string)
    requires AwaitedBy(s, i, steps, n, step)
    ensures n in steps && steps[n].kind == Join
  {
  }

  // ------------------------------------------------------------------ the join steps

  lemma NamedIff(s: State, i: int, n: string)
    requires WellFormed(s)
    ensures Named(s, i, n) <==> exists x :: x in s.steps && s.steps[x].instance == i && s.steps[x].name == n
  {
    if Named(s, i, n) {
      var rec :| rec in StepsOf(s, i) && rec.name == n;
      OwnRecords(s, i, rec);
    }
    if x :| x in s.steps && s.steps[x].instance == i && s.steps[x].name == n {
      assert x in IdsOf(s, i) by {
        hide AllMade, ItemFiled, JoinsFiled;
        assert s.steps[x].id == x;
      }
      PresentHas(s.steps, IdsOf(s, i), x);
    }
  }

  /** x is the only step of its name, new, and its join is ready. */
  ghost predicate FreshJoin(s: State, r: State, i: int, x: int)
    requires x in r.steps
  {
    var n := r.steps[x].name;
    && r.steps[x].kind == Join && r.steps[x].instance == i && !Named(s, i, n) && ReadyAt(r, i, n)
    && forall y | y in r.steps && y != x && r.steps[y].instance == i :: r.steps[y].name != n
  }

  predicate ReadyAt(s: State, i: int, n: string) {
    JoinAt(s, i, n).Some? && JoinAt(s, i, n).value.isReady
  }

  /** Old steps are as before; new ones are fresh join steps with names from the list. */
  ghost predicate OnlyFreshJoins(s: State, r: State, i: int, names: seq<string>) {
    && (forall x | x in s.steps :: x in r.steps && r.steps[x] == s.steps[x])
    && (forall x | x in r.steps && x !in s.steps :: FreshJoin(s, r, i, x) && r.steps[x].name in names)
  }

  /** The report makes the join ready, and none of the records is still to be executed in its
      branches. */
  ghost predicate BecomesReady(j: Option<JoinState>, steps: Steps, order: seq<string>, n: string, step: string,
                               success: bool,
                               recs: seq<StepRec>)
    requires n in steps
  {
    && Reported(j, step, success).Some? && Reported(j, step, success).value.isReady
    && !BranchPending(steps, order, steps[n], recs)
  }

  function JoinRec(s: State, i: int, n: string): StepRec {
    StepRec(s.nextStep, i, n, Join, if IsDlq(s, i) then Paused else Pending, 0, 0, 0)
  }

  lemma JoinStepKeeps(s: State, i: int, n: string, op: JoinOp)
    ensures var r := JoinStep(s, i, n, op);
            && r.steps == s.steps && r.nextStep == s.nextStep && StepsOf(r, i) == StepsOf(s, i)
            && JoinRec(r, i, n) == JoinRec(s, i, n) && JoinAt(r, i, n) == After(JoinAt(s, i, n), op)
  {
    JoinStepLocal(s, i, n, op);
    JoinStepAt(s, i, n, op);
    hide JoinStep, After, Present, JoinAt;
  }

  lemma JoinStepAt(s: State, i: int, n: string, op: JoinOp)
    ensures JoinAt(JoinStep(s, i, n, op), i, n) == After(JoinAt(s, i, n), op)
  {
    assert JoinAt(s, i, n).Some? ==> After(JoinAt(s, i, n), op).Some?;
    hide After;
  }

  lemma CreateJoinSteps(s: State, i: int, n: string)
    ensures CreateJoin(s, i, n).steps == if Named(s, i, n) then s.steps else s.steps[s.nextStep := JoinRec(s, i, n)]
  {
    hide Named, IsDlq, IdsOf;
    var m := CreateStep(s, i, n, Join, Pending, 0);
    assert Enqueue(m, i, s.nextStep, PRIORITY_NORMAL, 0.0).steps == m.steps;
    hide Enqueue;
  }

  /** A report to one join adds its step or no step. */
  lemma NotifyJoinShape(s: State, i: int, steps: Steps, order: seq<string>, n: string, step: string, success: bool)
    requires n in steps
    ensures NotifyJoin(s, i, steps, order, n, step, success).0.steps ==
            if BecomesReady(JoinAt(s, i, n), steps, order, n, step, success, StepsOf(s, i)) && !Named(s, i, n)
            then s.steps[s.nextStep := JoinRec(s, i, n)] else s.steps
  {
    hide JoinStep, JoinAt, BranchPending, CreateJoin, StepsOf, JoinRec, Notified;
    var op := NotifyOp(step, success);
    var s1 := JoinStep(s, i, n, op);
    JoinStepKeeps(s, i, n, op);
    JoinStepKeeps(s1, i, n, op);
    CreateJoinSteps(s1, i, n);
  }

  lemma NotifyJoinCreates(s: State, i: int, def: Definition, order: seq<string>, n: string, step: string, success: bool)
    requires WellFormed(s) && Runs(s, i, def) && n in def.steps && def.steps[n].kind == Join
    ensures var r := NotifyJoin(s, i, def.steps, order, n, step, success).0;
            && OnlyFreshJoins(s, r, i, [n])
            && (Named(r, i, n) <==> (Named(s, i, n)
                                     || BecomesReady(JoinAt(s, i, n), def.steps, order, n, step, success,
                                                     StepsOf(s, i))))
  {
    var r := NotifyJoin(s, i, def.steps, order, n, step, success).0;
    assert JoinsFiled(s);
    hide WellFormed, BranchPending, JoinsFiled, NotifyJoin, Tame, Named, StepsOf, Reported, JoinAt, Local;
    NotifyJoinTable(s, i, def.steps, order, n, step, success);
    NotifyJoinShape(s, i, def.steps, order, n, step, success);
    NotifyJoinTame(s, i, def, order, n, step, success);
    TameWell(s, r, i, def.steps);
    FreshStep(s);
    OneFresh(s, r, i, n, BecomesReady(JoinAt(s, i, n), def.steps, order, n, step, success, StepsOf(s, i)));
  }

  lemma OneFresh(s: State, r: State, i: int, n: string, becomes: bool)
    requires WellFormed(s) && WellFormed(r) && s.nextStep !in s.steps && (becomes ==> ReadyAt(r, i, n))
    requires r.steps == if becomes && !Named(s, i, n) then s.steps[s.nextStep := JoinRec(s, i, n)] else s.steps
    ensures OnlyFreshJoins(s, r, i, [n]) && (Named(r, i, n) <==> Named(s, i, n) || becomes)
  {
    hide WellFormed, Named, ReadyAt;
    NamedIff(s, i, n);
    NamedIff(r, i, n);
  }

  lemma FreshChain(s: State, m: State, r: State, i: int, names: seq<string>, more: seq<string>)
    requires WellFormed(s) && WellFormed(m)
    requires OnlyFreshJoins(s, m, i, names) && OnlyFreshJoins(m, r, i, more)
    requires forall n | n in names && ReadyAt(m, i, n) :: ReadyAt(r, i, n)
    ensures OnlyFreshJoins(s, r, i, names + more)
  {
    hide WellFormed, ReadyAt;
    forall x | x in r.steps && x !in s.steps
      ensures FreshJoin(s, r, i, x) && r.steps[x].name in names + more
    {
      var name := r.steps[x].name;
      NamedIff(s, i, name);
      NamedIff(m, i, name);
      if x in m.steps {
        assert FreshJoin(s, m, i, x);
        forall y | y in r.steps && y != x && r.steps[y].instance == i
          ensures r.steps[y].name != name
        {
          if y !in m.steps {
            assert FreshJoin(m, r, i, y);
          }
        }
      } else {
        assert FreshJoin(m, r, i, x);
      }
    }
  }

  lemma FreshNone(s: State, i: int, names: seq<string>)
    ensures OnlyFreshJoins(s, s, i, names)
  {
  }

  lemma FreshMore(s: State, r: State, i: int, names: seq<string>, more: seq<string>)
    requires OnlyFreshJoins(s, r, i, names) && forall n | n in names :: n in more
    ensures OnlyFreshJoins(s, r, i, more)
  {
    hide FreshJoin;
  }

  /** A join outside the list is as ready as before. */
  lemma UnheardKept(s: State, i: int, def: Definition, order: seq<string>, rest: seq<string>, n: string, step: string,
                    success: bool)
    requires WellFormed(s) && Runs(s, i, def) && Distinct(rest) && n !in rest
    ensures ReadyAt(NotifyAll(s, i, def.steps, order, rest, step, success).0, i, n) == ReadyAt(s, i, n)
  {
    hide WellFormed, NotifyAll, AwaitedBy, JoinAt, Distinct;
    NotifyAllTable(s, i, def, order, rest, step, success);
  }

  /** A report creates only join steps, each the first of its name and with its join ready. */
  lemma {:induction false} NotifyAllCreates(s: State, i: int, def: Definition, order: seq<string>, rest: seq<string>,
                                            step: string, success: bool)
    requires WellFormed(s) && Runs(s, i, def) && Distinct(rest)
    ensures OnlyFreshJoins(s, NotifyAll(s, i, def.steps, order, rest, step, success).0, i, rest)
    decreases |rest|
  {
    FreshNone(s, i, rest);
    if rest != [] {
      var n, more := rest[0], rest[1..];
      assert n !in more && Distinct(more) && rest == [n] + more;
      hide WellFormed, NotifyJoin, AwaitedBy, JoinAt, OnlyFreshJoins, Distinct, Tame, ReadyAt;
      var steps := def.steps;
      if AwaitedBy(s, i, steps, n, step) {
        AwaitedInside(s, i, steps, n, step);
        var (s1, ok) := NotifyJoin(s, i, steps, order, n, step, success);
        NotifyJoinCreates(s, i, def, order, n, step, success);
        NotifyJoinTame(s, i, def, order, n, step, success);
        TameWell(s, s1, i, steps);
        RunsOn(s, s1, i, def);
        if ok {
          NotifyAllCreates(s1, i, def, order, more, step, success);
          UnheardKept(s1, i, def, order, more, n, step, success);
          FreshChain(s, s1, NotifyAll(s1, i, steps, order, more, step, success).0, i, [n], more);
        } else {
          FreshMore(s, s1, i, [n], rest);
        }
      } else {
        NotifyAllCreates(s, i, def, order, more, step, success);
        FreshMore(s, NotifyAll(s, i, steps, order, more, step, success).0, i, more, rest);
      }
    }
  }

  /** The exact creation: after a complete report, the join at place k has a step if it had one,
      or if it waited for the step, became ready by the report, and at its turn nothing was
      still to be executed in its branches. */
  lemma {:induction false} CreatedIff(s: State, i: int, def: Definition, order: seq<string>, rest: seq<string>, k: nat,
                                      step: string, success: bool)
    requires WellFormed(s) && Runs(s, i, def) && Distinct(rest) && k < |rest| && rest[k] in def.steps
    requires NotifyAll(s, i, def.steps, order, rest, step, success).1
    ensures var r := NotifyAll(s, i, def.steps, order, rest, step, success).0;
            var turn := NotifyAll(s, i, def.steps, order, rest[..k], step, success).0;
            Named(r, i, rest[k]) <==>
            (Named(s, i, rest[k]) || (AwaitedBy(s, i, def.steps, rest[k], step)
                                      && BecomesReady(JoinAt(s, i, rest[k]), def.steps, order, rest[k], step, success,
                                                      StepsOf(turn, i))))
    decreases |rest|
  {
    hide WellFormed, NotifyJoin, NotifyAll, AwaitedBy, JoinAt, BecomesReady, Distinct, Tame, Named, StepsOf,
         OnlyFreshJoins, Runs, Local;
    var n, more := rest[0], rest[1..];
    var steps := def.steps;
    PlaceInRest(rest, k);
    var awaited := AwaitedBy(s, i, steps, n, step);
    if awaited {
      AwaitedInside(s, i, steps, n, step);
    }
    var s1 := if awaited then NotifyJoin(s, i, steps, order, n, step, success).0 else s;
    var r := NotifyAll(s1, i, steps, order, more, step, success).0;
    NotifyUnfold(s, i, steps, order, n, more, step, success);
    if k > 0 {
      NotifyUnfold(s, i, steps, order, n, more[..k - 1], step, success);
    }
    if awaited {
      NotifyJoinCreates(s, i, def, order, n, step, success);
      NotifyJoinTame(s, i, def, order, n, step, success);
      TameWell(s, s1, i, steps);
      RunsOn(s, s1, i, def);
    } else {
      FreshNone(s, i, [n]);
    }
    if k > 0 {
      NamedOthers(s, s1, i, [n], rest[k]);
      OthersUnheard(s, i, def, order, n, rest[k], step, success);
      CreatedIff(s1, i, def, order, more, k - 1, step, success);
    } else {
      NotifyAllCreates(s1, i, def, order, more, step, success);
      NotifyAllTame(s1, i, def, order, more, step, success);
      TameWell(s1, r, i, steps);
      NamedOthers(s1, r, i, more, n);
      NothingBefore(s, i, steps, order, step, success);
    }
  }

  lemma NothingBefore(s: State, i: int, steps: Steps, order: seq<string>, step: string, success: bool)
    ensures NotifyAll(s, i, steps, order, [], step, success) == (s, true)
  {
  }

  lemma PlaceInRest(rest: seq<string>, k: nat)
    requires Distinct(rest) && k < |rest|
    ensures var n, more := rest[0], rest[1..];
            && rest == [n] + more && n !in more && Distinct(more)
            && (if k == 0 then rest[..k] == [] && rest[k] == n
                else rest[..k] == [n] + more[..k - 1] && more[k - 1] == rest[k] && rest[k] != n)
  {
  }

  lemma NotifyUnfold(s: State, i: int, steps: Steps, order: seq<string>, n: string, more: seq<string>, step: string,
                     success: bool)
    ensures var awaited := AwaitedBy(s, i, steps, n, step);
            var all := NotifyAll(s, i, steps, order, [n] + more, step, success);
            && (awaited ==> n in steps && (all.1 ==> NotifyJoin(s, i, steps, order, n, step, success).1))
            && (awaited && NotifyJoin(s, i, steps, order, n, step, success).1 ==>
                  all == NotifyAll(NotifyJoin(s, i, steps, order, n, step, success).0, i, steps, order, more, step,
                                   success))
            && (!awaited ==> all == NotifyAll(s, i, steps, order, more, step, success))
  {
    assert ([n] + more)[1..] == more;
    hide NotifyJoin;
  }

  lemma NamedOthers(s: State, r: State, i: int, names: seq<string>, n: string)
    requires WellFormed(s) && WellFormed(r) && OnlyFreshJoins(s, r, i, names) && n !in names
    ensures Named(r, i, n) <==> Named(s, i, n)
  {
    hide WellFormed, Named, FreshJoin;
    NamedIff(s, i, n);
    NamedIff(r, i, n);
  }

  /** A report to join n is not heard by join m. */
  lemma OthersUnheard(s: State, i: int, def: Definition, order: seq<string>, n: string, m: string, step: string,
                      success: bool)
    requires WellFormed(s) && n != m
    ensures AwaitedBy(s, i, def.steps, n, step) ==>
              n in def.steps
              && var s1 := NotifyJoin(s, i, def.steps, order, n, step, success).0;
                 JoinAt(s1, i, m) == JoinAt(s, i, m) && (AwaitedBy(s1, i, def.steps, m, step)
                                                         <==> AwaitedBy(s, i, def.steps, m, step))
  {
    if AwaitedBy(s, i, def.steps, n, step) {
      assert JoinsFiled(s);
      hide WellFormed, NotifyJoin;
      NotifyJoinTable(s, i, def.steps, order, n, step, success);
    }
  }

  // ------------------------------------------------------------------ a step's notifications

  /** The join has already heard this outcome of the step. */
  predicate Heard(s: State, i: int, n: string, step: string, success: bool) {
    Reported(JoinAt(s, i, n), step, success) == JoinAt(s, i, n)
  }

  lemma SettleCreates(s: State, i: int, def: Definition, order: seq<string>, rec: StepRec, d: StepDef, success: bool)
    requires WellFormed(s) && Runs(s, i, def)
    ensures var r := Settle(s, i, def.steps, order, rec, d, success);
            var join := JoinAround(def.steps, order, rec.name);
            && OnlyFreshJoins(s, r, i, [join])
            && (r.steps == s.steps || Heard(r, i, join, rec.name, success))
  {
    var steps := def.steps;
    var join := JoinAround(steps, order, rec.name);
    if ForkAround(steps, order, rec.name) in steps {
      FirstJoinIsJoin(steps, steps[ForkAround(steps, order, rec.name)].next);
    }
    assert join != "" ==> join in steps && steps[join].kind == Join;
    hide WellFormed, NotifyJoin, JoinStep, JoinAt, JoinAround, EndsBranch, After, OnlyFreshJoins, Tame;
    FreshNone(s, i, [join]);
    if join != "" {
      var op := ReplaceOp(VirtualName(ConditionAbove(steps, d.prev, {})), rec.name,
                          OldestStatus(StepsOf(s, i), rec.name));
      SettledJoin(s, i, def, order, join, op, rec.name, success);
      JoinStepFresh(s, i, join, CreateOp([rec.name], Some(steps[join].strategy)));
      JoinStepFresh(s, i, join, AddOp(rec.name));
    }
  }

  lemma JoinStepFresh(s: State, i: int, n: string, op: JoinOp)
    ensures OnlyFreshJoins(s, JoinStep(s, i, n, op), i, [n]) && JoinStep(s, i, n, op).steps == s.steps
  {
    JoinStepLocal(s, i, n, op);
    hide JoinStep, FreshJoin;
  }

  lemma SettledJoin(s: State, i: int, def: Definition, order: seq<string>, n: string, op: JoinOp, step: string,
                    success: bool)
    requires WellFormed(s) && Runs(s, i, def) && n in def.steps && def.steps[n].kind == Join
    ensures var r := NotifyJoin(JoinStep(s, i, n, op), i, def.steps, order, n, step, success).0;
            OnlyFreshJoins(s, r, i, [n]) && Heard(r, i, n, step, success)
  {
    hide WellFormed, NotifyJoin, JoinStep, JoinAt, After, Tame, JoinsFiled, Consistent;
    var a := JoinStep(s, i, n, op);
    JoinStepTame(s, i, n, op, def.steps);
    TameWell(s, a, i, def.steps);
    RunsOn(s, a, i, def);
    JoinStepKeeps(s, i, n, op);
    NotifyJoinCreates(a, i, def, order, n, step, success);
    WellJoins(a);
    NotifyJoinTable(a, i, def.steps, order, n, step, success);
    JoinConsistent(a, i, n);
    ReportedTwice(JoinAt(a, i, n), step, success);
    SameBase(s, a, NotifyJoin(a, i, def.steps, order, n, step, success).0, i, [n]);
  }

  lemma WellJoins(s: State)
    requires WellFormed(s)
    ensures JoinsFiled(s)
  {
  }

  lemma JoinConsistent(s: State, i: int, n: string)
    requires JoinsFiled(s)
    ensures JoinAt(s, i, n).Some? ==> Consistent(JoinAt(s, i, n).value)
  {
  }

  lemma SameBase(s: State, a: State, r: State, i: int, names: seq<string>)
    requires a.steps == s.steps && StepsOf(a, i) == StepsOf(s, i) && OnlyFreshJoins(a, r, i, names)
    ensures OnlyFreshJoins(s, r, i, names)
  {
    hide StepsOf, ReadyAt;
  }

  /** Marking a step creates only fresh join steps, and their joins are ready at the end. */
  lemma MarkCreates(s: State, i: int, rec: StepRec, d: StepDef, def: Definition, o: Choice, status: StepStatus,
                    settle: bool, success: bool)
    requires WellFormed(s) && Runs(s, i, def) && InHand(s, i, rec) && status != Compensation && Distinct(o.order)
    ensures var u := UpdateStep(s, rec.id, status);
            OnlyFreshJoins(u, Mark(s, i, rec, d, def.steps, o, status, settle, success).0, i,
                           [JoinAround(def.steps, o.order, rec.name)] + o.order)
  {
    hide WellFormed, Tame, Settle, NotifyAll, UpdateStep, InHand, JoinAround, Distinct, OnlyFreshJoins, HearsOf, Runs,
         Heard, ReadyAt;
    var u := UpdateStep(s, rec.id, status);
    InHandTame(s, i, rec, status, def.steps);
    TameWell(s, u, i, def.steps);
    RunsOn(s, u, i, def);
    var v := if settle then Settle(u, i, def.steps, o.order, rec, d, success) else u;
    var r := NotifyAll(v, i, def.steps, o.order, o.order, rec.name, success).0;
    MarkRest(u, v, r, i, rec, d, def, o, settle, success);
  }

  lemma InHandTame(s: State, i: int, rec: StepRec, status: StepStatus, steps: Steps)
    requires WellFormed(s) && InHand(s, i, rec) && status != Compensation
    ensures Tame(s, UpdateStep(s, rec.id, status), i, steps)
  {
    hide WellFormed, Tame;
    UpdateTame(s, rec.id, status, i, steps);
  }

  lemma MarkRest(u: State, v: State, r: State, i: int, rec: StepRec, d: StepDef, def: Definition, o: Choice,
                 settle: bool, success: bool)
    requires WellFormed(u) && Runs(u, i, def) && Distinct(o.order)
    requires v == if settle then Settle(u, i, def.steps, o.order, rec, d, success) else u
    requires r == NotifyAll(v, i, def.steps, o.order, o.order, rec.name, success).0
    ensures OnlyFreshJoins(u, r, i, [JoinAround(def.steps, o.order, rec.name)] + o.order)
  {
    hide WellFormed, Tame, Settle, NotifyAll, JoinAround, Distinct, OnlyFreshJoins, HearsOf, Runs, Heard, ReadyAt;
    var join := JoinAround(def.steps, o.order, rec.name);
    FreshNone(u, i, [join]);
    SettleCreates(u, i, def, o.order, rec, d, success);
    SettleTame(u, i, def, o.order, rec, d, success);
    TameRefl(u, i, def.steps);
    TameWell(u, v, i, def.steps);
    RunsOn(u, v, i, def);
    NotifyAllCreates(v, i, def, o.order, o.order, rec.name, success);
    if v.steps == u.steps {
      SettledNothing(u, v, r, i, def, join, o.order);
    } else {
      NotifyAllTable(v, i, def, o.order, o.order, rec.name, success);
      StillReady(v, r, i, join, rec.name, success);
      FreshChain(u, v, r, i, [join], o.order);
    }
  }

  lemma StillReady(v: State, r: State, i: int, n: string, step: string, success: bool)
    requires Heard(v, i, n, step, success)
    requires JoinAt(r, i, n) == JoinAt(v, i, n) || JoinAt(r, i, n) == Reported(JoinAt(v, i, n), step, success)
    ensures ReadyAt(v, i, n) ==> ReadyAt(r, i, n)
  {
  }

  lemma SettledNothing(u: State, v: State, r: State, i: int, def: Definition, join: string, order: seq<string>)
    requires WellFormed(u) && WellFormed(v) && v.steps == u.steps && OnlyFreshJoins(v, r, i, order)
    ensures OnlyFreshJoins(u, r, i, [join] + order)
  {
    hide WellFormed, ReadyAt;
    forall x | x in r.steps && x !in u.steps
      ensures FreshJoin(u, r, i, x) && r.steps[x].name in [join] + order
    {
      NamedIff(u, i, r.steps[x].name);
      NamedIff(v, i, r.steps[x].name);
      assert FreshJoin(v, r, i, x);
    }
  }
}
