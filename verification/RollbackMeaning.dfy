/** The rollback of a failed step, said of the definition and the records alone. */
module RollbackMeaning {
  import opened Definitions
  import opened Graphs
  import opened Trees
  import opened Store
  import opened Rollback
  import opened RollbackTrees
  import opened RollbackExact
  import opened RollbackTheorems

  /** The step was executed, as far as a condition is concerned. */
  predicate WasRun(e: Env, n: string) {
    && n in e.recs
    && (e.recs[n].status == Completed || e.recs[n].status == Failed || e.recs[n].status == Compensation)
  }

  /** From x the branches of a fork and the steps after x are undone with it; after a condition only
      the side that was taken, and only if the condition was decided. */
  predicate Follows(e: Env, x: string, y: string)
    requires x in e.steps
  {
    var d := e.steps[x];
    || ((d.kind == Fork || d.kind == Parallel) && y in d.parallel)
    || (d.kind != Condition && y in d.next)
    || (d.kind == Condition && x in e.recs && e.recs[x].status == Completed
        && if exists n | n in d.next :: WasRun(e, n) then y in d.next
           else d.els != "" && WasRun(e, d.els) && y == d.els)
  }

  function FollowGraph(e: Env): Graph {
    map x | x in e.steps ::
      set y | y in e.steps[x].parallel + e.steps[x].next + [e.steps[x].els] && Follows(e, x, y)
  }

  lemma FollowsIsLink(e: Env, x: string, y: string)
    requires x in e.steps
    ensures y in Links(e, x) <==> Follows(e, x, y)
  {
    var d := e.steps[x];
    assert forall n | n in d.next :: Executed(e, n) <==> WasRun(e, n);
    assert (exists n | n in d.next :: Executed(e, n)) <==> exists n | n in d.next :: WasRun(e, n);
  }

  lemma SameGraph(e: Env)
    ensures TakenGraph(e) == FollowGraph(e)
  {
    forall x | x in e.steps
      ensures TakenGraph(e)[x] == FollowGraph(e)[x]
    {
      forall y
        ensures y in TakenGraph(e)[x] <==> y in FollowGraph(e)[x]
      {
        FollowsIsLink(e, x, y);
        hide Links;
      }
    }
  }

  /** p is a fork on the path from c, and b begins a branch of it that does not contain c. */
  predicate OtherBranch(t: Tree, e: Env, c: string, p: string, b: string)
    requires Valid(t) && e.steps == t.steps && c in t.depth
  {
    && p in t.depth && Under(t, c, p) && (e.stop == ROOT_STEP || (p != e.stop && Under(t, p, e.stop)))
    && p in t.steps && (t.steps[p].kind == Fork || t.steps[p].kind == Parallel) && b in t.steps[p].parallel
    && !Under(t, c, b)
  }

  /** x is undone in another branch of a fork on the path from c. */
  ghost predicate UndoneBeside(t: Tree, e: Env, c: string, x: string)
    requires Valid(t) && e.steps == t.steps && c in t.depth
  {
    exists p, b :: OtherBranch(t, e, c, p, b) && Reaches(FollowGraph(e), b, x)
  }

  lemma OtherIsOff(t: Tree, e: Env, c: string, p: string, b: string)
    requires Fits(t, e) && c in t.depth
    ensures OtherBranch(t, e, c, p, b) <==> OffBranch(t, e, c, p, b)
  {
    ValidParts(t);
    hide Valid, Under;
  }

  lemma BesideIs(t: Tree, e: Env, c: string, x: string)
    requires Fits(t, e) && c in t.depth
    ensures BesidePath(t, e, c, x) <==> UndoneBeside(t, e, c, x)
  {
    hide Valid, Under, OffBranch, OtherBranch, Reaches, TakenGraph, FollowGraph;
    SameGraph(e);
    if BesidePath(t, e, c, x) {
      var p, b :| OffBranch(t, e, c, p, b) && Reaches(TakenGraph(e), b, x);
      OtherIsOff(t, e, c, p, b);
    }
    if UndoneBeside(t, e, c, x) {
      var p, b :| OtherBranch(t, e, c, p, b) && Reaches(FollowGraph(e), b, x);
      OtherIsOff(t, e, c, p, b);
    }
  }

  /** The exact extent of a rollback: the completed and failed steps that lie on the Prev path from
      the failed step up to the stop, or in another branch of a fork on that path. */
  lemma RollbackCovers(t: Tree, e: Env, failed: string, x: string)
    requires Fits(t, e) && failed in t.depth && StopAbove(t, e, failed)
    ensures x in RollbackLog(t, e, failed) <==>
            && x in e.recs && (e.recs[x].status == Completed || e.recs[x].status == Failed)
            && ((x in t.depth && Under(t, failed, x) && (e.stop == ROOT_STEP || (x != e.stop && Under(t, x, e.stop))))
                || UndoneBeside(t, e, failed, x))
  {
    hide RollbackLog, Valid, Under, BesidePath, UndoneBeside, StopAbove;
    RollbackIsExact(t, e, failed, x);
    BesideIs(t, e, failed, x);
  }
}
