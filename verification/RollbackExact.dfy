/** The backward rollback of a failed step: equality with a plain recursion along the Prev
    chain, the exact set of compensated steps, their order, and the savepoint barrier. */
module RollbackExact {
  import opened Definitions
  import opened Graphs
  import opened Trees
  import opened Store
  import opened Rollback
  import opened RollbackTrees

  /** The walk stops at the root or at a savepoint on the Prev chain of c. */
  predicate StopAbove(t: Tree, e: Env, c: string)
    requires Fits(t, e) && c in t.depth
  {
    e.stop == ROOT_STEP || (e.stop in t.depth && Under(t, c, e.stop) && t.steps[e.stop].kind == SavePoint)
  }

  /** The other branches of the fork that c is a branch of (none when it is not). */
  function OtherBranches(t: Tree, e: Env, c: string): seq<string>
    requires Fits(t, e) && c in t.depth && c != t.start
  {
    assert HasParent(t, c);
    Unvisited(Branches(e, t.steps[c].prev), {c})
  }

  lemma OtherBranchesLevel(t: Tree, e: Env, c: string)
    requires Fits(t, e) && c in t.depth && c != t.start
    ensures OnLevel(t, t.depth[c], OtherBranches(t, e, c)) && t.depth[c] <= t.height
    ensures Distinct(OtherBranches(t, e, c))
  {
    assert HasParent(t, c);
    LinksAreChildren(t, e, t.steps[c].prev);
  }

  /** The backward rollback from c: c, then the other branches beside c, then its parent. */
  function Backward(t: Tree, e: Env, c: string): seq<string>
    requires Fits(t, e) && c in t.depth
    decreases t.depth[c]
  {
    if c == e.stop then []
    else if c == t.start then Own(e, c)
    else
      assert HasParent(t, c);
      OtherBranchesLevel(t, e, c);
      Own(e, c) + (ForwardAll(t, e, t.depth[c], OtherBranches(t, e, c)) + Backward(t, e, t.steps[c].prev))
  }

  /** The whole rollback of a failed step: its own branches when it is a fork, then backward. */
  function RollbackLog(t: Tree, e: Env, failed: string): seq<string>
    requires Fits(t, e) && failed in t.depth
  {
    LinksAreChildren(t, e, failed);
    (if failed == e.stop then [] else ForwardAll(t, e, t.depth[failed] + 1, Branches(e, failed)))
    + Backward(t, e, failed)
  }

  predicate AllBelow(t: Tree, visited: set<string>, c: string)
    requires Valid(t)
  {
    c !in visited && forall x | x in visited :: x in t.depth && Under(t, x, c)
  }

  lemma StopAboveOutside(t: Tree, e: Env, c: string, b: string)
    requires Fits(t, e) && c in t.depth && b in t.depth && StopAbove(t, e, c) && t.depth[c] < t.depth[b]
    ensures StopOutside(t, e, b)
  {
    if e.stop in t.depth {
      UnderDepth(t, c, e.stop);
      if Under(t, e.stop, b) {
        UnderDepth(t, e.stop, b);
      }
    }
  }

  /** The own branches of c: walked when fresh, skipped when visited. */
  lemma OwnBranches(t: Tree, e: Env, c: string, w: Walk) returns (w1: Walk)
    requires Fits(t, e) && c in t.depth && StopAbove(t, e, c) && w.ok && AllBelow(t, w.visited, c)
    requires forall b | b in Branches(e, c) :: b in t.depth && (b in w.visited || Clear(t, w.visited, b))
    ensures OnLevel(t, t.depth[c] + 1, Branches(e, c)) && t.depth[c] <= t.height
    ensures w1 == WalkAll(e, Branches(e, c), w.(visited := w.visited + {c}))
    ensures w1.ok && w1.log == w.log + ForwardAll(t, e, t.depth[c] + 1, Unvisited(Branches(e, c), w.visited))
    ensures c in w1.visited && forall x | x in w1.visited :: x in t.depth && Under(t, x, c)
  {
    hide Valid, WalkAll, WalkChain, ForwardAll;
    LinksAreChildren(t, e, c);
    SelfUnder(t, c);
    var w0 := w.(visited := w.visited + {c});
    var branches := Branches(e, c);
    forall b | b in branches
      ensures StopOutside(t, e, b) && (b in w0.visited || Clear(t, w0.visited, b)) && b != c
      ensures forall x | x in t.depth && Under(t, x, b) :: Under(t, x, c)
    {
      assert b in Links(e, c);
      StopAboveOutside(t, e, c, b);
      BranchBelow(t, c, b);
    }
    UnvisitedAgree(branches, w.visited, w0.visited);
    ForwardWalkAll(t, e, t.depth[c] + 1, branches, w0);
    w1 := WalkAll(e, branches, w0);
  }

  lemma BranchBelow(t: Tree, c: string, b: string)
    requires Valid(t) && c in t.depth && b in Children(t.steps[c])
    ensures b in t.depth && !Under(t, c, b) && b != c
    ensures forall x | x in t.depth && Under(t, x, b) :: Under(t, x, c) && x != c
  {
    UnderChild(t, c, b, c);
    assert t.depth[b] == t.depth[c] + 1;
    if Under(t, c, b) {
      UnderDepth(t, c, b);
    }
    forall x | x in t.depth && Under(t, x, b)
      ensures Under(t, x, c) && x != c
    {
      UnderTrans(t, x, b, c);
    }
  }

  /** The branches of c's parent: c itself is visited, the others are fresh. */
  lemma ParentBranches(t: Tree, e: Env, c: string, w: Walk) returns (w1: Walk)
    requires Fits(t, e) && c in t.depth && c != t.start && HasParent(t, c)
    requires StopAbove(t, e, t.steps[c].prev) && w.ok && c in w.visited
    requires forall x | x in w.visited :: x in t.depth && Under(t, x, c)
    ensures OnLevel(t, t.depth[c], OtherBranches(t, e, c)) && t.depth[c] <= t.height
    ensures w1 == WalkAll(e, Branches(e, t.steps[c].prev), w)
    ensures w1.ok && w1.log == w.log + ForwardAll(t, e, t.depth[c], OtherBranches(t, e, c))
    ensures AllBelow(t, w1.visited, t.steps[c].prev)
    ensures forall b | b in Branches(e, t.steps[c].prev) :: b in w1.visited && b in t.depth
  {
    var p := t.steps[c].prev;
    hide Valid, WalkAll, WalkChain, ForwardAll, Under, Clear, StopOutside, StopAbove;
    LinksAreChildren(t, e, p);
    OtherBranchesLevel(t, e, c);
    var branches := Branches(e, p);
    forall b | b in branches
      ensures b in Children(t.steps[p]) && StopOutside(t, e, b)
      ensures b in w.visited <==> b in {c}
      ensures b in w.visited || Clear(t, w.visited, b)
    {
      assert b in Links(e, p);
      StopAboveOutside(t, e, p, b);
      SiblingOf(t, c, b, w.visited);
    }
    UnvisitedAgree(branches, w.visited, {c});
    ForwardWalkAll(t, e, t.depth[c], branches, w);
    w1 := WalkAll(e, branches, w);
    BelowParent(t, p, c, branches, w.visited, w1.visited);
  }

  lemma BelowParent(t: Tree, p: string, c: string, branches: seq<string>, v: set<string>, v1: set<string>)
    requires Valid(t) && p in t.depth && c in Children(t.steps[p]) && c in t.depth
    requires forall b | b in branches :: b in Children(t.steps[p]) && b in t.depth
    requires forall x | x in v :: x in t.depth && Under(t, x, c)
    requires forall x | x in v1 && x !in v :: x in t.depth && exists b | b in branches :: Under(t, x, b)
    ensures AllBelow(t, v1, p)
  {
    hide Valid, Under;
    forall x | x in v1
      ensures x in t.depth && Under(t, x, p) && x != p
    {
      if x in v {
        BranchBelow(t, p, c);
      } else {
        var b :| b in branches && Under(t, x, b);
        BranchBelow(t, p, b);
      }
    }
  }

  lemma SiblingOf(t: Tree, c: string, b: string, visited: set<string>)
    requires Valid(t) && c in t.depth && b in t.depth && t.depth[b] == t.depth[c] && c in visited
    requires forall x | x in visited :: x in t.depth && Under(t, x, c)
    ensures b in visited <==> b == c
    ensures b != c ==> Clear(t, visited, b)
  {
    forall x | x in visited && Under(t, x, b)
      ensures b == c
    {
      LevelApart(t, x, b, c);
    }
    SelfUnder(t, b);
  }

  lemma {:induction false} UnvisitedNone(names: seq<string>, v: set<string>)
    requires forall n | n in names :: n in v
    ensures Unvisited(names, v) == []
  {
    if names != [] {
      UnvisitedNone(names[1..], v);
    }
  }

  lemma StopAboveParent(t: Tree, e: Env, c: string)
    requires Fits(t, e) && c in t.depth && StopAbove(t, e, c) && c != e.stop && c != t.start
    ensures HasParent(t, c) && StopAbove(t, e, t.steps[c].prev)
    ensures t.steps[c].prev != "" && t.steps[c].prev != ROOT_STEP && t.steps[c].prev in e.steps
  {
  }

  lemma WalkChainBackward(e: Env, c: string, w: Walk)
    requires w.ok && c !in w.visited && c != e.stop && c in e.steps
    requires WalkAll(e, Branches(e, c), w.(visited := w.visited + {c})).ok
    ensures var w3 := AfterLinks(e, c, WalkAll(e, Branches(e, c), w.(visited := w.visited + {c})));
            var p := e.steps[c].prev;
            WalkChain(e, c, false, w) ==
            if p == "" || p == ROOT_STEP then w3
            else WalkChain(e, p, false, if p in e.steps then WalkAll(e, Branches(e, p), w3) else w3)
  {
    var w1 := WalkAll(e, Branches(e, c), w.(visited := w.visited + {c}));
    assert w1.log + [] == w1.log;
  }

  lemma {:induction false} BackwardWalk(t: Tree, e: Env, c: string, w: Walk)
    requires Fits(t, e) && c in t.depth && StopAbove(t, e, c) && w.ok && AllBelow(t, w.visited, c)
    requires c in e.steps && OnLevel(t, t.depth[c] + 1, Branches(e, c)) && t.depth[c] <= t.height
    requires forall b | b in Branches(e, c) :: b in w.visited || Clear(t, w.visited, b)
    ensures WalkChain(e, c, false, w).ok
    ensures WalkChain(e, c, false, w).log == w.log
      + (if c == e.stop then [] else ForwardAll(t, e, t.depth[c] + 1, Unvisited(Branches(e, c), w.visited)))
      + Backward(t, e, c)
    decreases t.depth[c]
  {
    if c == e.stop {
      WalkChainStops(e, c, w);
    } else {
      hide Valid, WalkChain, WalkAll, ForwardAll, Backward, Under, Clear, StopAbove, Unvisited;
      var fwd := ForwardAll(t, e, t.depth[c] + 1, Unvisited(Branches(e, c), w.visited));
      LinksAreChildren(t, e, c);
      hide OnLevel;
      var w1 := OwnBranches(t, e, c, w);
      var w3 := AfterLinks(e, c, w1);
      WalkChainBackward(e, c, w);
      BackwardUnfold(t, e, c);
      if c == t.start {
        StartPrev(t);
        assert w.log + fwd + Own(e, c) == w3.log;
      } else {
        StopAboveParent(t, e, c);
        var p := t.steps[c].prev;
        var others := ForwardAll(t, e, t.depth[c], OtherBranches(t, e, c));
        var w4 := ParentBranches(t, e, c, w3);
        LinksAreChildren(t, e, p);
        BackwardWalk(t, e, p, w4);
        UnvisitedNone(Branches(e, p), w4.visited);
        ForwardAllNil(t, e, t.depth[p] + 1);
        assert WalkChain(e, c, false, w).log == w4.log + [] + Backward(t, e, p);
        assert w4.log == w.log + fwd + Own(e, c) + others;
        Regroup(w.log, fwd, Own(e, c), others, Backward(t, e, p));
      }
    }
  }

  lemma WalkChainStops(e: Env, c: string, w: Walk)
    requires c == e.stop && c !in w.visited && w.ok
    ensures WalkChain(e, c, false, w) == w.(visited := w.visited + {c})
  {
  }

  lemma BackwardUnfold(t: Tree, e: Env, c: string)
    requires Fits(t, e) && c in t.depth && c != e.stop
    ensures c == t.start ==> Backward(t, e, c) == Own(e, c)
    ensures c != t.start ==>
              && HasParent(t, c) && OnLevel(t, t.depth[c], OtherBranches(t, e, c)) && t.depth[c] <= t.height
              && Backward(t, e, c) ==
                 Own(e, c) + (ForwardAll(t, e, t.depth[c], OtherBranches(t, e, c)) + Backward(t, e, t.steps[c].prev))
  {
    if c != t.start {
      ValidAt(t, c);
      OtherBranchesLevel(t, e, c);
    }
  }

  lemma StartPrev(t: Tree)
    requires Valid(t)
    ensures t.steps[t.start].prev == ROOT_STEP
  {
  }

  lemma ForwardAllNil(t: Tree, e: Env, level: nat)
    requires Fits(t, e) && level <= t.height + 1
    ensures ForwardAll(t, e, level, []) == []
  {
  }

  lemma Regroup(a: seq<string>, b: seq<string>, c: seq<string>, d: seq<string>, f: seq<string>)
    ensures a + b + c + d + [] + f == a + b + (c + (d + f))
  {
  }

  lemma BranchesClear(t: Tree, e: Env, c: string)
    requires Fits(t, e) && c in t.depth && c in e.steps
    ensures forall b | b in Branches(e, c) :: Clear(t, {}, b)
  {
  }

  /** The rollback of a failed step, visited map and all, compensates the steps of the plain
      recursion in its order and never runs into an undefined step. */
  lemma WalkIsRollbackLog(t: Tree, e: Env, failed: string)
    requires Fits(t, e) && failed in t.depth && StopAbove(t, e, failed)
    ensures WalkChain(e, failed, false, Walk({}, [], true)).ok
    ensures WalkChain(e, failed, false, Walk({}, [], true)).log == RollbackLog(t, e, failed)
  {
    hide Valid, WalkChain, ForwardAll, Backward, Links, Branches, Children, Distinct, OnLevel, Clear, StopAbove,
         Unvisited, Under;
    LinksAreChildren(t, e, failed);
    BranchesClear(t, e, failed);
    BackwardWalk(t, e, failed, Walk({}, [], true));
    UnvisitedAll(Branches(e, failed), {});
  }
}
