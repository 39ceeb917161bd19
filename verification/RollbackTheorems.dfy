/** What a rollback covers: the exact set of compensated steps, their order, the savepoint
    barrier, and the steps it leaves alone. */
module RollbackTheorems {
  import opened Definitions
  import opened Graphs
  import opened Trees
  import opened Store
  import opened Rollback
  import opened RollbackTrees
  import opened RollbackExact

  /** x is on the Prev chain of c, strictly below the stopping step. */
  predicate OnPath(t: Tree, e: Env, c: string, x: string)
    requires Fits(t, e) && c in t.depth
  {
    && x in t.depth && Under(t, c, x)
    && (e.stop == ROOT_STEP || (x != e.stop && Under(t, x, e.stop)))
  }

  /** b is a branch, not containing c, of the fork p on the path of c. */
  predicate OffBranch(t: Tree, e: Env, c: string, p: string, b: string)
    requires Fits(t, e) && c in t.depth
  {
    OnPath(t, e, c, p) && b in Branches(e, p) && !Under(t, c, b)
  }

  /** x was reached, along the links taken, inside another branch of a fork on the path. */
  ghost predicate BesidePath(t: Tree, e: Env, c: string, x: string)
    requires Fits(t, e) && c in t.depth
  {
    exists p, b :: OffBranch(t, e, c, p, b) && Reaches(TakenGraph(e), b, x)
  }

  ghost predicate BesideAbove(t: Tree, e: Env, c: string, x: string)
    requires Fits(t, e) && c in t.depth
  {
    exists p, b :: p != c && OffBranch(t, e, c, p, b) && Reaches(TakenGraph(e), b, x)
  }

  lemma NoPathAtStop(t: Tree, e: Env, c: string, x: string)
    requires Fits(t, e) && c in t.depth && c == e.stop
    ensures !OnPath(t, e, c, x)
  {
    if OnPath(t, e, c, x) {
      UnderDepth(t, c, x);
      UnderDepth(t, x, c);
    }
  }

  lemma PathUnfold(t: Tree, e: Env, c: string, x: string)
    requires Fits(t, e) && c in t.depth && StopAbove(t, e, c) && c != e.stop
    ensures c == t.start ==> (OnPath(t, e, c, x) <==> x == c)
    ensures c != t.start ==> HasParent(t, c) && (OnPath(t, e, c, x) <==> x == c || OnPath(t, e, t.steps[c].prev, x))
  {
  }

  lemma BesideUp(t: Tree, e: Env, c: string, x: string)
    requires Fits(t, e) && c in t.depth && StopAbove(t, e, c) && c != e.stop && c != t.start
    requires HasParent(t, c) && BesideAbove(t, e, c, x)
    ensures (exists b | b in OtherBranches(t, e, c) :: Reaches(TakenGraph(e), b, x))
            || BesideAbove(t, e, t.steps[c].prev, x)
  {
    var q := t.steps[c].prev;
    hide Valid, Under, OnPath, Reaches, StopAbove, Branches, OtherBranches;
    var p, b :| p != c && OffBranch(t, e, c, p, b) && Reaches(TakenGraph(e), b, x);
    if p == q {
      SelfUnder(t, c);
      InOthers(t, e, c, b);
    } else {
      OffParent(t, e, c, p, b);
    }
  }

  lemma BesideDown(t: Tree, e: Env, c: string, x: string)
    requires Fits(t, e) && c in t.depth && StopAbove(t, e, c) && c != e.stop && c != t.start
    requires HasParent(t, c)
    requires (exists b | b in OtherBranches(t, e, c) :: Reaches(TakenGraph(e), b, x))
             || BesideAbove(t, e, t.steps[c].prev, x)
    ensures BesideAbove(t, e, c, x)
  {
    var q := t.steps[c].prev;
    hide Valid, Under, OnPath, OffBranch, Reaches, StopAbove, Branches, OtherBranches;
    if exists b :: b in OtherBranches(t, e, c) && Reaches(TakenGraph(e), b, x) {
      var b :| b in OtherBranches(t, e, c) && Reaches(TakenGraph(e), b, x);
      OthersAreOff(t, e, c, b);
    } else {
      var p, b :| p != q && OffBranch(t, e, q, p, b) && Reaches(TakenGraph(e), b, x);
      NotOwnChild(t, e, c, p, b);
      OffParent(t, e, c, p, b);
    }
  }

  lemma NotOwnChild(t: Tree, e: Env, c: string, p: string, b: string)
    requires Fits(t, e) && c in t.depth && c != t.start && HasParent(t, c)
    requires OffBranch(t, e, t.steps[c].prev, p, b)
    ensures p != c
  {
    UnderDepth(t, t.steps[c].prev, p);
  }

  /** Above c, the off branches are those beside c and those off its parent's path. */
  lemma BesideUnfold(t: Tree, e: Env, c: string, x: string)
    requires Fits(t, e) && c in t.depth && StopAbove(t, e, c) && c != e.stop && c != t.start
    ensures HasParent(t, c)
    ensures BesideAbove(t, e, c, x) <==>
            ((exists b | b in OtherBranches(t, e, c) :: Reaches(TakenGraph(e), b, x))
             || BesideAbove(t, e, t.steps[c].prev, x))
  {
    StopAboveParent(t, e, c);
    if BesideAbove(t, e, c, x) {
      BesideUp(t, e, c, x);
    }
    if (exists b | b in OtherBranches(t, e, c) :: Reaches(TakenGraph(e), b, x))
       || BesideAbove(t, e, t.steps[c].prev, x) {
      BesideDown(t, e, c, x);
    }
  }

  lemma {:induction false} UnvisitedIn(names: seq<string>, v: set<string>, n: string)
    requires n in names && n !in v
    ensures n in Unvisited(names, v)
  {
    if names[0] != n {
      UnvisitedIn(names[1..], v, n);
    }
  }

  lemma InOthers(t: Tree, e: Env, c: string, b: string)
    requires Fits(t, e) && c in t.depth && c != t.start && HasParent(t, c)
    requires b in Branches(e, t.steps[c].prev) && b != c
    ensures b in OtherBranches(t, e, c)
  {
    UnvisitedIn(Branches(e, t.steps[c].prev), {c}, b);
  }

  lemma OthersAreOff(t: Tree, e: Env, c: string, b: string)
    requires Fits(t, e) && c in t.depth && StopAbove(t, e, c) && c != e.stop && c != t.start
    requires b in OtherBranches(t, e, c)
    ensures HasParent(t, c) && OffBranch(t, e, c, t.steps[c].prev, b) && t.steps[c].prev != c
  {
    StopAboveParent(t, e, c);
    var q := t.steps[c].prev;
    LinksAreChildren(t, e, q);
    assert b in Links(e, q);
    if Under(t, c, b) {
      UnderDepth(t, c, b);
    }
    SelfUnder(t, q);
    if q == e.stop {
      // a savepoint has no branches
      assert KindAgrees(t.steps[q]);
    }
  }

  /** A branch of a fork strictly above c's parent contains c exactly if it contains the parent. */
  lemma OffParent(t: Tree, e: Env, c: string, p: string, b: string)
    requires Fits(t, e) && c in t.depth && StopAbove(t, e, c) && c != e.stop && c != t.start
    requires HasParent(t, c) && p != t.steps[c].prev && p != c
    ensures p != c && (OffBranch(t, e, c, p, b) <==> OffBranch(t, e, t.steps[c].prev, p, b))
  {
    PathUnfold(t, e, c, p);
    if OnPath(t, e, c, p) && b in Branches(e, p) {
      LinksAreChildren(t, e, p);
      assert b in Links(e, p);
      assert b != c;
    }
  }

  lemma {:induction false} BackwardExact(t: Tree, e: Env, c: string, x: string)
    requires Fits(t, e) && c in t.depth && StopAbove(t, e, c)
    ensures x in Backward(t, e, c)
       <==> Eligible(e, x) && c != e.stop && (OnPath(t, e, c, x) || BesideAbove(t, e, c, x))
    decreases t.depth[c]
  {
    hide Valid, Under, OnPath, Eligible, ForwardAll, Reaches, TakenGraph, OtherBranches, StopAbove, Children;
    if c != e.stop {
      PathUnfold(t, e, c, x);
      if c == t.start {
        forall p, b | p != c && OffBranch(t, e, c, p, b)
          ensures false
        {
          PathUnfold(t, e, c, p);
        }
      } else {
        StopAboveParent(t, e, c);
        OtherBranchesLevel(t, e, c);
        LinksAreChildren(t, e, c);
        var q := t.steps[c].prev;
        ForwardAllExact(t, e, t.depth[c], OtherBranches(t, e, c), x);
        BackwardExact(t, e, q, x);
        BesideUnfold(t, e, c, x);
        if q == e.stop {
          NoneBesideStop(t, e, q, x);
        }
      }
    }
  }

  lemma NoneBesideStop(t: Tree, e: Env, c: string, x: string)
    requires Fits(t, e) && c in t.depth && c == e.stop
    ensures !OnPath(t, e, c, x) && !BesideAbove(t, e, c, x) && !BesidePath(t, e, c, x)
  {
    NoPathAtStop(t, e, c, x);
    forall p, b | OffBranch(t, e, c, p, b)
      ensures false
    {
      NoPathAtStop(t, e, c, p);
    }
  }

  /** The rollback of a failed step compensates exactly the completed or failed steps that are
      on its Prev chain below the stopping step, or that were reached along branches, next
      steps and taken condition sides inside another branch of a fork on that chain. */
  lemma RollbackIsExact(t: Tree, e: Env, failed: string, x: string)
    requires Fits(t, e) && failed in t.depth && StopAbove(t, e, failed)
    ensures x in RollbackLog(t, e, failed)
       <==> Eligible(e, x) && (OnPath(t, e, failed, x) || BesidePath(t, e, failed, x))
  {
    hide Valid, Under, OnPath, OffBranch, Backward, ForwardAll, Reaches, StopAbove, RollbackLog;
    BackwardExact(t, e, failed, x);
    RollbackLogSplit(t, e, failed, x);
    if failed == e.stop {
      NoneBesideStop(t, e, failed, x);
    } else {
      OwnBranchesAreOff(t, e, failed);
      if BesidePath(t, e, failed, x) {
        var p, b :| OffBranch(t, e, failed, p, b) && Reaches(TakenGraph(e), b, x);
        OwnOffBranch(t, e, failed, b);
        assert p == failed || BesideAbove(t, e, failed, x);
      }
    }
  }

  lemma OwnOffBranch(t: Tree, e: Env, c: string, b: string)
    requires Fits(t, e) && c in t.depth
    ensures OffBranch(t, e, c, c, b) ==> b in Branches(e, c)
  {
  }

  lemma RollbackLogSplit(t: Tree, e: Env, c: string, x: string)
    requires Fits(t, e) && c in t.depth
    ensures c in e.steps
    ensures x in RollbackLog(t, e, c) <==>
            (x in Backward(t, e, c)
             || (c != e.stop && Eligible(e, x) && exists b | b in Branches(e, c) :: Reaches(TakenGraph(e), b, x)))
  {
    hide Valid, Backward, ForwardAll, Reaches, Taken, Branches, TakenGraph, Distinct;
    LinksAreChildren(t, e, c);
    ForwardAllExact(t, e, t.depth[c] + 1, Branches(e, c), x);
    var own := if c == e.stop then [] else ForwardAll(t, e, t.depth[c] + 1, Branches(e, c));
    assert RollbackLog(t, e, c) == own + Backward(t, e, c);
  }

  lemma OwnBranchesAreOff(t: Tree, e: Env, c: string)
    requires Fits(t, e) && c in t.depth && StopAbove(t, e, c) && c != e.stop
    ensures forall b | b in Branches(e, c) :: OffBranch(t, e, c, c, b)
  {
    SelfUnder(t, c);
    LinksAreChildren(t, e, c);
    forall b | b in Branches(e, c)
      ensures OffBranch(t, e, c, c, b)
    {
      assert b in Links(e, c);
      BranchBelow(t, c, b);
    }
  }

  // ------------------------------------------------------------------ barrier

  lemma OffBranchBelow(t: Tree, e: Env, c: string, p: string, b: string, x: string)
    requires Fits(t, e) && c in t.depth && OffBranch(t, e, c, p, b) && Reaches(TakenGraph(e), b, x)
    ensures b in t.depth && b in Children(t.steps[p]) && x in t.depth && Under(t, x, b)
    ensures Under(t, x, p) && x != p
  {
    LinksAreChildren(t, e, p);
    assert b in Links(e, p);
    TakenStaysUnder(t, e, b, x);
    BranchBelow(t, p, b);
  }

  /** Rollback never touches the savepoint it stops at, nor any of the savepoint's Prev
      ancestors, not even through forward walks into sibling branches. */
  lemma SavePointBarrier(t: Tree, e: Env, failed: string, x: string)
    requires Fits(t, e) && failed in t.depth && StopAbove(t, e, failed) && e.stop != ROOT_STEP
    requires x in RollbackLog(t, e, failed)
    ensures x in t.depth && Under(t, x, e.stop) && !Under(t, e.stop, x)
  {
    RollbackIsExact(t, e, failed, x);
    if !OnPath(t, e, failed, x) {
      var p, b :| OffBranch(t, e, failed, p, b) && Reaches(TakenGraph(e), b, x);
      OffBranchBelow(t, e, failed, p, b, x);
      UnderTrans(t, x, p, e.stop);
      UnderDepth(t, x, p);
      UnderDepth(t, p, e.stop);
    }
    UnderDepth(t, x, e.stop);
    if Under(t, e.stop, x) {
      UnderDepth(t, e.stop, x);
    }
  }

  /** Rollback does not follow continuations of the path: a step n that follows a step p of
      the path by a Next or Else link away from the failed step is kept, with everything under
      it.  In particular the join of a fork on the path and all that ran after it is kept. */
  lemma ContinuationKept(t: Tree, e: Env, failed: string, p: string, n: string, x: string)
    requires Fits(t, e) && failed in t.depth && StopAbove(t, e, failed)
    requires OnPath(t, e, failed, p) && n in Children(t.steps[p]) && n !in Branches(e, p) && !Under(t, failed, n)
    requires n in t.depth && x in t.depth && Under(t, x, n)
    ensures x !in RollbackLog(t, e, failed)
  {
    if x in RollbackLog(t, e, failed) {
      RollbackIsExact(t, e, failed, x);
      if OnPath(t, e, failed, x) {
        UnderTrans(t, failed, x, n);
      } else {
        var q, b :| OffBranch(t, e, failed, q, b) && Reaches(TakenGraph(e), b, x);
        OffBranchBelow(t, e, failed, q, b, x);
        SameLeavingPoint(t, failed, p, n, q, b, x);
      }
    }
  }

  /** A step below the chain of c leaves the chain at one place only. */
  lemma SameLeavingPoint(t: Tree, c: string, p: string, n: string, q: string, b: string, x: string)
    requires Valid(t) && c in t.depth && p in t.depth && q in t.depth && n in t.depth && b in t.depth && x in t.depth
    requires Under(t, c, p) && n in Children(t.steps[p]) && !Under(t, c, n)
    requires Under(t, c, q) && b in Children(t.steps[q]) && !Under(t, c, b)
    requires Under(t, x, n) && Under(t, x, b)
    ensures n == b && p == q
  {
    assert t.depth[n] == t.depth[p] + 1 && t.depth[b] == t.depth[q] + 1 by {
      ValidAt(t, p);
      ValidAt(t, q);
    }
    hide Valid, Children;
    SelfUnder(t, p);
    SelfUnder(t, q);
    UnderChild(t, p, n, p);
    UnderChild(t, q, b, q);
    hide Under;
    if t.depth[p] < t.depth[q] {
      UnderTrans(t, x, b, q);
      UnderComparable(t, x, n, q);
      UnderTrans(t, c, q, n);
    } else if t.depth[q] < t.depth[p] {
      UnderTrans(t, x, n, p);
      UnderComparable(t, x, b, p);
      UnderTrans(t, c, p, b);
    } else {
      LevelApart(t, x, n, b);
    }
  }

  // ------------------------------------------------------------------ order

  lemma BackwardOutside(t: Tree, e: Env, c: string, y: string)
    requires Fits(t, e) && c in t.depth && StopAbove(t, e, c) && y in Backward(t, e, c)
    ensures y in t.depth && (Under(t, y, c) ==> y == c)
  {
    BackwardExact(t, e, c, y);
    if OnPath(t, e, c, y) {
      UnderDepth(t, c, y);
      if Under(t, y, c) {
        UnderDepth(t, y, c);
      }
    } else {
      var p, b :| p != c && OffBranch(t, e, c, p, b) && Reaches(TakenGraph(e), b, y);
      OffBranchBelow(t, e, c, p, b, y);
      if Under(t, y, c) {
        UnderDepth(t, c, p);
        UnderChild(t, p, b, p);
        assert t.depth[b] == t.depth[p] + 1;
        UnderComparable(t, y, b, c);
      }
    }
  }

  /** Steps strictly below c, then the backward rollback of c: children still come first. */
  lemma ThenBackward(t: Tree, e: Env, c: string, a: seq<string>)
    requires Fits(t, e) && c in t.depth && StopAbove(t, e, c)
    requires ChildrenFirst(t, a) && ChildrenFirst(t, Backward(t, e, c))
    requires forall x | x in a :: Under(t, x, c) && x != c
    ensures ChildrenFirst(t, a + Backward(t, e, c))
  {
    forall x, y | x in a && y in Backward(t, e, c)
      ensures !Under(t, y, x)
    {
      BackwardOutside(t, e, c, y);
      if Under(t, y, x) {
        UnderTrans(t, y, x, c);
        UnderDepth(t, c, x);
        UnderDepth(t, x, c);
      }
    }
    ChildrenFirstConcat(t, a, Backward(t, e, c));
  }

  lemma {:induction false} BackwardOrdered(t: Tree, e: Env, c: string)
    requires Fits(t, e) && c in t.depth && StopAbove(t, e, c)
    ensures ChildrenFirst(t, Backward(t, e, c))
    decreases t.depth[c]
  {
    if c == e.stop || c == t.start {
      assert |Backward(t, e, c)| <= 1;
    } else {
      StopAboveParent(t, e, c);
      var q := t.steps[c].prev;
      hide Valid, Under, ForwardAll, Backward, OtherBranches, ChildrenFirst;
      BackwardOrdered(t, e, q);
      BesideOrdered(t, e, c);
      BackwardUnfold(t, e, c);
      ThenBackward(t, e, q, Own(e, c) + ForwardAll(t, e, t.depth[c], OtherBranches(t, e, c)));
    }
  }

  lemma BackwardUnfold(t: Tree, e: Env, c: string)
    requires Fits(t, e) && c in t.depth && c != e.stop && c != t.start && HasParent(t, c)
    requires OnLevel(t, t.depth[c], OtherBranches(t, e, c)) && t.depth[c] <= t.height
    ensures Backward(t, e, c) ==
            Own(e, c) + ForwardAll(t, e, t.depth[c], OtherBranches(t, e, c)) + Backward(t, e, t.steps[c].prev)
  {
    hide Valid, ForwardAll, Own, OtherBranches, OnLevel, Under, Children, Links, Branches, Distinct;
    LinksAreChildren(t, e, c);
    var own, others, rest :=
      Own(e, c), ForwardAll(t, e, t.depth[c], OtherBranches(t, e, c)), Backward(t, e, t.steps[c].prev);
    assert own + (others + rest) == own + others + rest;
  }

  lemma BesideOrdered(t: Tree, e: Env, c: string)
    requires Fits(t, e) && c in t.depth && c != t.start && HasParent(t, c)
    ensures OnLevel(t, t.depth[c], OtherBranches(t, e, c)) && t.depth[c] <= t.height
    ensures var a := Own(e, c) + ForwardAll(t, e, t.depth[c], OtherBranches(t, e, c));
            ChildrenFirst(t, a) && forall x | x in a :: Under(t, x, t.steps[c].prev) && x != t.steps[c].prev
  {
    var q, others := t.steps[c].prev, OtherBranches(t, e, c);
    hide Valid;
    OtherBranchesLevel(t, e, c);
    var b := ForwardAll(t, e, t.depth[c], others);
    ForwardAllOrdered(t, e, t.depth[c], others);
    ForwardAllUnder(t, e, t.depth[c], others);
    LinksAreChildren(t, e, q);
    BranchBelow(t, q, c);
    SelfUnder(t, c);
    forall y | y in b
      ensures !Under(t, y, c) && Under(t, y, q) && y != q
    {
      var n :| n in others && Under(t, y, n);
      assert n in Links(e, q);
      BranchBelow(t, q, n);
      if Under(t, y, c) {
        LevelApart(t, y, c, n);
      }
    }
    ChildrenFirstConcat(t, Own(e, c), b);
  }

  /** Every compensated step is handled before all of its compensated Prev ancestors, and no
      step is handled twice. */
  lemma RollbackOrder(t: Tree, e: Env, failed: string)
    requires Fits(t, e) && failed in t.depth && StopAbove(t, e, failed)
    ensures ChildrenFirst(t, RollbackLog(t, e, failed))
  {
    hide Valid, Backward, ForwardAll;
    LinksAreChildren(t, e, failed);
    BackwardOrdered(t, e, failed);
    var a := ForwardAll(t, e, t.depth[failed] + 1, Branches(e, failed));
    ForwardAllOrdered(t, e, t.depth[failed] + 1, Branches(e, failed));
    ForwardAllUnder(t, e, t.depth[failed] + 1, Branches(e, failed));
    forall x | x in a
      ensures Under(t, x, failed) && x != failed
    {
      var n :| n in Branches(e, failed) && Under(t, x, n);
      assert n in Links(e, failed);
      BranchBelow(t, failed, n);
    }
    ThenBackward(t, e, failed, a);
    assert [] + Backward(t, e, failed) == Backward(t, e, failed);
  }
}
