/** The engine's rollback routines, in place on the store. */
module RollbackEngine {
  import opened Definitions
  import opened Trees
  import opened Store
  import opened MemoryStores
  import opened Rollback
  import opened RollbackTrees
  import opened RollbackExact
  import opened RollbackTheorems
  import opened RollbackEffects

  /** The visited map shared by the recursion, with the steps handed over so far. */
  class Trail {
    var names: set<string>
    ghost var log: seq<string>

    constructor ()
      ensures names == {} && log == []
    {
      names, log := {}, [];
    }
  }

  // ------------------------------------------------------------------ the savepoint

  /** r is the closest savepoint on the Prev chain of x, or the root when there is none. */
  ghost predicate NearestSavePoint(t: Tree, x: string, r: string)
    requires Valid(t) && x in t.depth
  {
    && (r == ROOT_STEP || (r in t.depth && Under(t, x, r) && t.steps[r].kind == SavePoint))
    && forall a | a in t.depth && Under(t, x, a) && t.steps[a].kind == SavePoint ::
         r in t.depth && Under(t, r, a)
  }

  /** The search is at current: it is still on the chain, or has left it at the root, and has
      met no savepoint so far. */
  ghost predicate Searching(t: Tree, x: string, current: string, visited: set<string>)
    requires Valid(t) && x in t.depth
  {
    && (current == ROOT_STEP || (current in t.depth && Under(t, x, current)))
    && (forall v | v in visited :: v in t.depth && (current == ROOT_STEP || (Under(t, v, current) && v != current)))
    && forall a | a in t.depth && Under(t, x, a) && t.steps[a].kind == SavePoint ::
         current != ROOT_STEP && Under(t, current, a)
  }

  lemma SearchOn(t: Tree, x: string, current: string, visited: set<string>)
    requires Valid(t) && x in t.depth && Searching(t, x, current, visited) && current in t.depth
    requires t.steps[current].kind != SavePoint
    ensures Searching(t, x, t.steps[current].prev, visited + {current})
  {
    if current != t.start {
      assert HasParent(t, current);
      var p := t.steps[current].prev;
      SelfUnder(t, p);
      UnderTrans(t, x, current, p);
      forall v | v in visited + {current}
        ensures Under(t, v, p) && v != p
      {
        UnderTrans(t, v, current, p);
        UnderDepth(t, v, current);
      }
    }
  }

  lemma FoundNearest(t: Tree, x: string, current: string, visited: set<string>)
    requires Valid(t) && x in t.depth && Searching(t, x, current, visited)
    requires current == ROOT_STEP || (current in t.depth && t.steps[current].kind == SavePoint)
    ensures NearestSavePoint(t, x, current)
  {
  }

  /** On every tree the loop returns the closest savepoint on the Prev chain of a main-flow
      step.  A step without Prev makes the original consult an arbitrary other step; on a tree
      only compensation steps lack Prev. */
  method FindNearestSavePoint(stepName: string, steps: Steps) returns (r: string)
    ensures forall t: Tree | Valid(t) && t.steps == steps && stepName in t.depth :: NearestSavePoint(t, stepName, r)
  {
    var current := stepName;
    var visited: set<string> := {};
    assert forall t: Tree | Valid(t) && stepName in t.depth :: Searching(t, stepName, current, visited);
    while current != ""
      invariant forall t: Tree | Valid(t) && t.steps == steps && stepName in t.depth ::
                  Searching(t, stepName, current, visited)
      decreases steps.Keys - visited, current !in visited
    {
      ghost var before := visited;
      if current in visited || current !in steps {
        break;
      }
      visited := visited + {current};
      var d := steps[current];
      if d.prev == "" && exists n | n in steps :: steps[n].prev != "" {
        var n :| n in steps && steps[n].prev != "";
        d := steps[n];
      }
      if d.kind == SavePoint {
        forall t: Tree | Valid(t) && t.steps == steps && stepName in t.depth
          ensures NearestSavePoint(t, stepName, current)
        {
          FlowHasPrev(t, stepName, current, before);
          FoundNearest(t, stepName, current, before);
        }
        return current;
      }
      forall t: Tree | Valid(t) && t.steps == steps && stepName in t.depth
        ensures Searching(t, stepName, d.prev, visited)
      {
        FlowHasPrev(t, stepName, current, before);
        SearchOn(t, stepName, current, before);
      }
      current := d.prev;
    }
    forall t: Tree | Valid(t) && t.steps == steps && stepName in t.depth
      ensures NearestSavePoint(t, stepName, ROOT_STEP)
    {
      assert Searching(t, stepName, current, visited);
      assert current == ROOT_STEP;
      FoundNearest(t, stepName, current, visited);
    }
    r := ROOT_STEP;
  }

  lemma FlowHasPrev(t: Tree, x: string, current: string, visited: set<string>)
    requires Valid(t) && x in t.depth && Searching(t, x, current, visited) && current in t.steps
    ensures current in t.depth && t.steps[current].prev != ""
  {
    assert current == t.start || HasParent(t, current);
  }

  /** Trees over the same definition agree on ancestors. */
  lemma {:induction false} SameAncestors(t: Tree, t': Tree, x: string, a: string)
    requires Valid(t) && Valid(t') && t.steps == t'.steps && x in t.depth && x in t'.depth
    ensures Under(t, x, a) <==> Under(t', x, a)
    decreases t.depth[x]
  {
    ValidAt(t, x);
    ValidAt(t', x);
    ValidParts(t);
    ValidParts(t');
    hide Valid, OwnsChildren;
    if x != t.start {
      SameAncestors(t, t', t.steps[x].prev, a);
    }
  }

  /** The closest savepoint, by recursion along Prev. */
  ghost function Nearest(t: Tree, x: string): (r: string)
    requires Valid(t) && x in t.depth
    ensures NearestSavePoint(t, x, r)
    decreases t.depth[x]
  {
    if t.steps[x].kind == SavePoint then x
    else if x == t.start then ROOT_STEP
    else
      assert HasParent(t, x);
      Nearest(t, t.steps[x].prev)
  }

  /** One answer is right for all trees over a definition. */
  lemma SomeStop(steps: Steps, name: string) returns (stop: string)
    ensures forall t: Tree | Valid(t) && t.steps == steps && name in t.depth :: NearestSavePoint(t, name, stop)
  {
    stop := ROOT_STEP;
    if t :| Valid(t) && t.steps == steps && name in t.depth {
      stop := Nearest(t, name);
      forall t': Tree | Valid(t') && t'.steps == steps && name in t'.depth
        ensures NearestSavePoint(t', name, stop)
      {
        SameNearest(t, t', name, stop);
      }
    }
  }

  lemma SameNearest(t: Tree, t': Tree, x: string, r: string)
    requires Valid(t) && Valid(t') && t.steps == t'.steps && x in t.depth && x in t'.depth && NearestSavePoint(t, x, r)
    ensures NearestSavePoint(t', x, r)
  {
    ValidParts(t);
    ValidParts(t');
    hide Valid;
    forall a
      ensures Under(t, x, a) <==> Under(t', x, a)
      ensures Under(t, x, a) ==> a in t.depth && a in t'.depth
    {
      SameAncestors(t, t', x, a);
      if Under(t, x, a) {
        UnderDepth(t, x, a);
        UnderDepth(t', x, a);
      }
    }
    forall a | a in t'.depth && Under(t', x, a) && t'.steps[a].kind == SavePoint
      ensures r in t'.depth && Under(t', r, a)
    {
      assert r in t.depth && Under(t, r, a);
      SameAncestors(t, t', r, a);
    }
  }

  // ------------------------------------------------------------------ the walk

  method RollbackOne(store: MemoryStore, rec: StepRec, steps: Steps, workflow: string) returns (ok: bool)
    requires rec.name in steps
    modifies store`steps, store`queue, store`nextQueue, store`deadLetters, store`nextDeadLetter
    ensures ok == (rec.id in old(store.steps))
    ensures ok ==> store.View() == RollbackStep(old(store.View()), rec, steps, workflow)
    ensures store.steps.Keys == old(store.steps.Keys)
  {
    var d := steps[rec.name];
    if d.onFailure !in steps {
      ok := store.UpdateStep(rec.id, RolledBack);
      return;
    }
    var c := steps[d.onFailure];
    if rec.compRetries >= c.maxRetries {
      ok := store.UpdateStep(rec.id, Failed);
      if ok {
        store.CreateDeadLetterRecord(rec, workflow);
      }
      return;
    }
    var count := rec.compRetries + 1;
    ok := store.UpdateStepCompensationRetry(rec.id, count, Compensation);
    if !ok {
      return;
    }
    var delay := CalculateRetryDelay(c.retryStrategy, c.retryDelay, count);
    if delay == 0.0 {
      delay := c.delay;
    }
    store.EnqueueStep(rec.instance, rec.id, PRIORITY_HIGH, delay);
  }

  /** The snapshot names its steps and all of them are in the store. */
  predicate Backed(ids: set<int>, e: Env) {
    forall x | x in e.recs :: e.recs[x].name == x && e.recs[x].id in ids
  }

  /** The recursive walk, in place: it follows the walk function and has handed the walk's log
      to the compensation routine. */
  method RollbackChain(store: MemoryStore, e: Env, workflow: string, name: string, inBranch: bool,
                       v: Trail, ghost s0: State) returns (ok: bool)
    requires Backed(store.steps.Keys, e) && Loggable(e, v.log)
    requires store.View() == RollbackAll(s0, e, v.log, workflow)
    modifies v, store`steps, store`queue, store`nextQueue, store`deadLetters, store`nextDeadLetter
    ensures Walk(v.names, v.log, ok) == WalkChain(e, name, inBranch, Walk(old(v.names), old(v.log), true))
    ensures Loggable(e, v.log) && store.View() == RollbackAll(s0, e, v.log, workflow)
    ensures store.steps.Keys == old(store.steps.Keys)
    decreases e.steps.Keys - v.names, 0, 0
  {
    hide RollbackAll, RollbackStep, WalkAll;
    if name in v.names {
      return true;
    }
    v.names := v.names + {name};
    if name == e.stop {
      return true;
    }
    if name !in e.steps {
      return false;
    }
    ok := RollbackHere(store, e, workflow, name, inBranch, v, s0);
    WalkChainIsHere(e, name, inBranch, Walk(old(v.names), old(v.log), true));
    if !ok {
      return;
    }
    var d := e.steps[name];
    if d.prev != "" && d.prev != ROOT_STEP && !inBranch {
      if d.prev in e.steps && IsFork(e.steps[d.prev]) {
        ok := RollbackEach(store, e, workflow, e.steps[d.prev].parallel, v, s0);
        if !ok {
          return;
        }
      } else {
        WalkAllStuck(e, [], Walk(v.names, v.log, true));
      }
      ok := RollbackChain(store, e, workflow, d.prev, false, v, s0);
    }
  }

  /** The part of a walk call that stays at `name` and below it. */
  ghost function Here(e: Env, name: string, inBranch: bool, w0: Walk): Walk
    requires name in e.steps
  {
    var w1 := WalkAll(e, Branches(e, name), w0);
    var w2 := if inBranch then WalkAll(e, Taken(e, name), w1) else w1;
    if w2.ok && Eligible(e, name) then w2.(log := w2.log + [name]) else w2
  }

  lemma WalkChainIsHere(e: Env, name: string, inBranch: bool, w: Walk)
    requires w.ok && name !in w.visited && name != e.stop && name in e.steps
    ensures var w3 := Here(e, name, inBranch, w.(visited := w.visited + {name}));
            var p := e.steps[name].prev;
            WalkChain(e, name, inBranch, w) ==
            if w3.ok && p != "" && p != ROOT_STEP && !inBranch
            then WalkChain(e, p, false, if p in e.steps then WalkAll(e, Branches(e, p), w3) else w3)
            else w3
    ensures w.visited <= Here(e, name, inBranch, w.(visited := w.visited + {name})).visited
  {
  }

  method RollbackHere(store: MemoryStore, e: Env, workflow: string, name: string, inBranch: bool,
                      v: Trail, ghost s0: State) returns (ok: bool)
    requires Backed(store.steps.Keys, e) && Loggable(e, v.log) && name in e.steps
    requires store.View() == RollbackAll(s0, e, v.log, workflow)
    modifies v, store`steps, store`queue, store`nextQueue, store`deadLetters, store`nextDeadLetter
    ensures Walk(v.names, v.log, ok) == Here(e, name, inBranch, Walk(old(v.names), old(v.log), true))
    ensures Loggable(e, v.log) && store.View() == RollbackAll(s0, e, v.log, workflow)
    ensures store.steps.Keys == old(store.steps.Keys)
    ensures old(v.names) <= v.names
    decreases e.steps.Keys - v.names, 3, 0
  {
    hide RollbackAll, RollbackStep, WalkAll, Taken, Eligible;
    var d := e.steps[name];
    if d.kind == Fork || d.kind == Parallel {
      ok := RollbackEach(store, e, workflow, d.parallel, v, s0);
      if !ok {
        WalkAllStuck(e, Taken(e, name), Walk(v.names, v.log, ok));
        return;
      }
    } else {
      WalkAllStuck(e, [], Walk(v.names, v.log, true));
    }
    if inBranch {
      ok := RollbackTaken(store, e, workflow, name, v, s0);
      if !ok {
        return;
      }
    }
    RollbackOwn(store, e, workflow, name, v, s0);
    ok := true;
  }

  method RollbackOwn(store: MemoryStore, e: Env, workflow: string, name: string, v: Trail, ghost s0: State)
    requires Backed(store.steps.Keys, e) && Loggable(e, v.log) && name in e.steps
    requires store.View() == RollbackAll(s0, e, v.log, workflow)
    modifies v`log, store`steps, store`queue, store`nextQueue, store`deadLetters, store`nextDeadLetter
    ensures v.log == if Eligible(e, name) then old(v.log) + [name] else old(v.log)
    ensures Loggable(e, v.log) && store.View() == RollbackAll(s0, e, v.log, workflow)
    ensures store.steps.Keys == old(store.steps.Keys)
  {
    hide RollbackAll, RollbackStep;
    if name in e.recs && (e.recs[name].status == Completed || e.recs[name].status == Failed) {
      var _ := RollbackOne(store, e.recs[name], e.steps, workflow);
      AppendLogged(s0, e, v.log, name, workflow);
      v.log := v.log + [name];
    }
  }

  lemma WalkAllStuck(e: Env, names: seq<string>, w: Walk)
    requires !w.ok || names == []
    ensures WalkAll(e, names, w) == w
  {
  }

  /** The continuation of a forward walk: the taken side of a condition, all next steps
      otherwise. */
  method RollbackTaken(store: MemoryStore, e: Env, workflow: string, name: string,
                       v: Trail, ghost s0: State) returns (ok: bool)
    requires Backed(store.steps.Keys, e) && Loggable(e, v.log) && name in e.steps
    requires store.View() == RollbackAll(s0, e, v.log, workflow)
    modifies v, store`steps, store`queue, store`nextQueue, store`deadLetters, store`nextDeadLetter
    ensures Walk(v.names, v.log, ok) == WalkAll(e, Taken(e, name), Walk(old(v.names), old(v.log), true))
    ensures Loggable(e, v.log) && store.View() == RollbackAll(s0, e, v.log, workflow)
    ensures store.steps.Keys == old(store.steps.Keys)
    ensures old(v.names) <= v.names
    decreases e.steps.Keys - v.names, 2, 0
  {
    hide RollbackAll, RollbackStep;
    var d := e.steps[name];
    if d.kind == Condition {
      if name in e.recs && e.recs[name].status == Completed {
        var side := ExecutedSide(e, d);
        if side == NextSide {
          ok := RollbackEach(store, e, workflow, d.next, v, s0);
          return;
        } else if side == ElseSide && d.els != "" {
          ok := RollbackEach(store, e, workflow, [d.els], v, s0);
          return;
        }
      }
      ok := true;
    } else {
      ok := RollbackEach(store, e, workflow, d.next, v, s0);
    }
  }

  method RollbackEach(store: MemoryStore, e: Env, workflow: string, names: seq<string>,
                      v: Trail, ghost s0: State) returns (ok: bool)
    requires Backed(store.steps.Keys, e) && Loggable(e, v.log)
    requires store.View() == RollbackAll(s0, e, v.log, workflow)
    modifies v, store`steps, store`queue, store`nextQueue, store`deadLetters, store`nextDeadLetter
    ensures Walk(v.names, v.log, ok) == WalkAll(e, names, Walk(old(v.names), old(v.log), true))
    ensures Loggable(e, v.log) && store.View() == RollbackAll(s0, e, v.log, workflow)
    ensures store.steps.Keys == old(store.steps.Keys)
    ensures old(v.names) <= v.names
    decreases e.steps.Keys - v.names, 1, |names|
  {
    hide RollbackAll, RollbackStep, WalkChain;
    var i := 0;
    while i < |names|
      invariant 0 <= i <= |names| && old(v.names) <= v.names
      invariant Loggable(e, v.log) && store.View() == RollbackAll(s0, e, v.log, workflow)
      invariant store.steps.Keys == old(store.steps.Keys)
      invariant WalkAll(e, names, Walk(old(v.names), old(v.log), true))
             == WalkAll(e, names[i..], Walk(v.names, v.log, true))
    {
      assert names[i..][1..] == names[i + 1..];
      ok := RollbackChain(store, e, workflow, names[i], true, v, s0);
      if !ok {
        return;
      }
      i := i + 1;
    }
    ok := true;
  }

  lemma AppendLogged(s: State, e: Env, log: seq<string>, x: string, workflow: string)
    requires Loggable(e, log) && x in e.steps && x in e.recs && e.recs[x].name == x
    ensures Loggable(e, log + [x])
    ensures RollbackAll(s, e, log + [x], workflow) ==
            RollbackStep(RollbackAll(s, e, log, workflow), e.recs[x], e.steps, workflow)
  {
    assert (log + [x])[..|log|] == log;
  }

  // ------------------------------------------------------------------ the whole rollback

  /** The snapshot of an instance's steps by name; the failed step is added when missing. */
  function SnapshotOf(s: State, instance: int, failed: StepRec): (recs: map<string, StepRec>)
    ensures forall x | x in recs :: recs[x].name == x
  {
    var m := ByName(StepsOf(s, instance));
    if failed.name in m then m else m[failed.name := failed]
  }

  lemma SnapshotIsBacked(s: State, instance: int, failed: StepRec, e: Env)
    requires WellKeyed(s) && failed.id in s.steps && e.recs == SnapshotOf(s, instance, failed)
    ensures Backed(s.steps.Keys, e)
    ensures failed.name in ByName(StepsOf(s, instance)) ==> Snapshot(s, e)
  {
    var m := ByName(StepsOf(s, instance));
    forall x | x in m
      ensures m[x].name == x && m[x].id in s.steps && s.steps[m[x].id] == m[x]
    {
      var id :| id in IdsOf(s, instance) && id in s.steps && s.steps[id] == m[x];
    }
  }

  method CollectByName(recs: seq<StepRec>) returns (byName: map<string, StepRec>)
    ensures byName == ByName(recs)
  {
    byName := map[];
    for k := 0 to |recs|
      invariant byName == ByName(recs[..k])
    {
      assert recs[..k + 1][..k] == recs[..k];
      byName := byName[recs[k].name := recs[k]];
    }
    assert recs[..|recs|] == recs;
  }

  /** The rollback after a final failure: up to the nearest savepoint, or to the root. */
  method RollbackToSavePointOrRoot(store: MemoryStore, instance: int, failed: StepRec, def: Definition)
    returns (ok: bool, ghost e: Env, ghost log: seq<string>)
    requires WellKeyed(store.View()) && failed.id in store.steps
    modifies store`steps, store`queue, store`nextQueue, store`deadLetters, store`nextDeadLetter
    ensures e.steps == def.steps && e.recs == SnapshotOf(old(store.View()), instance, failed)
    ensures Loggable(e, log) && Sound(e, Walk(Elements(log), log, ok))
    ensures WalkChain(e, failed.name, false, Walk({}, [], true)).log == log
    ensures store.View() == RollbackAll(old(store.View()), e, log, def.id)
    ensures forall t: Tree | Valid(t) && t.steps == def.steps && failed.name in t.depth ::
              ok && NearestSavePoint(t, failed.name, e.stop) && StopAbove(t, e, failed.name)
              && log == RollbackLog(t, e, failed.name)
  {
    hide WalkChain, RollbackAll, RollbackLog, Valid, NearestSavePoint, StopAbove;
    var stop := FindNearestSavePoint(failed.name, def.steps);
    var recs := store.GetStepsByInstance(instance);
    var byName := CollectByName(recs);
    if failed.name !in byName {
      byName := byName[failed.name := failed];
    }
    var env := Env(def.steps, stop, byName);
    e := env;
    SnapshotIsBacked(store.View(), instance, failed, e);
    var v := new Trail();
    NothingLogged(store.View(), e, def.id);
    ok := RollbackChain(store, env, def.id, failed.name, false, v, store.View());
    log := v.log;
    WalkChainSound(e, failed.name, false, Walk({}, [], true));
    forall t: Tree | Valid(t) && t.steps == def.steps && failed.name in t.depth
      ensures ok && NearestSavePoint(t, failed.name, e.stop) && StopAbove(t, e, failed.name)
              && log == RollbackLog(t, e, failed.name)
    {
      NearestIsAbove(t, e, failed.name);
      WalkIsRollbackLog(t, e, failed.name);
    }
  }

  lemma NothingLogged(s: State, e: Env, workflow: string)
    ensures RollbackAll(s, e, [], workflow) == s
  {
  }

  lemma NearestIsAbove(t: Tree, e: Env, x: string)
    requires Fits(t, e) && x in t.depth && NearestSavePoint(t, x, e.stop)
    ensures StopAbove(t, e, x)
  {
  }

  /** Rollback on a tree, stated on the store: a step of the snapshot changes exactly if it is
      completed or failed and lies on the failed step's path or beside it; it then ends rolled
      back, in compensation with one new queue item, or failed with one new dead letter, while
      every other step, queue item and dead letter is untouched. */
  lemma RollbackOnTree(s: State, t: Tree, e: Env, failed: string, workflow: string)
    requires Fits(t, e) && failed in t.depth && StopAbove(t, e, failed)
    requires Snapshot(s, e) && CountersFresh(s)
    ensures var log := RollbackLog(t, e, failed);
            && Loggable(e, log)
            && Framed(s, RollbackAll(s, e, log, workflow), e, log)
            && (forall x :: x in log <==> Eligible(e, x) && (OnPath(t, e, failed, x) || BesidePath(t, e, failed, x)))
            && (forall x | x in log ::
                  && Accounted(s, RollbackAll(s, e, log, workflow), e.recs[x], e.steps, workflow)
                  && e.recs[x].id in RollbackAll(s, e, log, workflow).steps
                  && RollbackAll(s, e, log, workflow).steps[e.recs[x].id] == Outcome(e.recs[x], e.steps))
  {
    hide Valid, WalkChain, RollbackLog, OnPath, BesidePath, Framed, Accounted, Outcome, RollbackAll, StopAbove;
    WalkIsRollbackLog(t, e, failed);
    WalkChainSound(e, failed, false, Walk({}, [], true));
    var log := RollbackLog(t, e, failed);
    forall x
      ensures x in log <==> Eligible(e, x) && (OnPath(t, e, failed, x) || BesidePath(t, e, failed, x))
    {
      RollbackIsExact(t, e, failed, x);
    }
    RollbackAllEffect(s, e, log, workflow);
  }
}
