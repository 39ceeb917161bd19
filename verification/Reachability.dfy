/** The engine's two ways to relate steps of one definition: the forward search over
    Next, Else and Parallel links, and the backward walk over Prev links. */
module Reachability {
  import opened Definitions
  import opened Graphs
  import opened Trees

  /** Every visited name that misses the target has all its successors visited too, except
      for the names still being expanded. */
  ghost predicate Swept(g: Graph, target: string, names: set<string>, pending: set<string>) {
    && target !in names
    && forall x, y | x in names && x !in pending && Edge(g, x, y) :: y in names
  }

  /** The links of a step in the order the search follows them. */
  function SearchOrder(d: StepDef): seq<string> {
    d.next + Link(d.els) + d.parallel
  }

  method IsStepReachableFrom(target: string, start: string, steps: Steps, v: Visited, ghost pending: set<string>)
    returns (found: bool)
    requires pending <= v.names && Swept(FlowGraph(steps), target, v.names, pending)
    modifies v
    ensures found ==> Reaches(FlowGraph(steps), start, target)
    ensures !found ==> Swept(FlowGraph(steps), target, v.names, pending) && start in v.names
    ensures old(v.names) <= v.names
    decreases steps.Keys - v.names, 1
  {
    ghost var g := FlowGraph(steps);
    if start == target {
      ReachesRefl(g, start);
      return true;
    }
    if start in v.names {
      return false;
    }
    v.names := v.names + {start};
    if start !in steps {
      return false;
    }
    var links := SearchOrder(steps[start]);
    var i := 0;
    while i < |links|
      invariant 0 <= i <= |links|
      invariant old(v.names) + {start} <= v.names
      invariant Swept(g, target, v.names, pending + {start})
      invariant forall k | 0 <= k < i :: links[k] in v.names
    {
      assert links[i] in Children(steps[start]);
      assert Edge(g, start, links[i]);
      found := IsStepReachableFrom(target, links[i], steps, v, pending + {start});
      if found {
        ReachesEdge(g, start, links[i]);
        ReachesTrans(g, start, links[i], target);
        return;
      }
      i := i + 1;
    }
    forall y | Edge(g, start, y)
      ensures y in v.names
    {
      assert y in Children(steps[start]);
      assert y in links;
    }
    found := false;
  }

  /** On any graph, cyclic or not, the search decides reachability. */
  method Reachable(target: string, start: string, steps: Steps) returns (found: bool)
    ensures found <==> Reaches(FlowGraph(steps), start, target)
  {
    var v := new Visited();
    found := IsStepReachableFrom(target, start, steps, v, {});
    if !found && Reaches(FlowGraph(steps), start, target) {
      ClosedContainsReachable(FlowGraph(steps), v.names, start, target);
    }
  }

  /** The Prev links as a graph. */
  function PrevGraph(steps: Steps): Graph {
    map x | x in steps :: Elements(Link(steps[x].prev))
  }

  /** On any definition the backward walk decides whether the ancestor is a step met on the
      Prev chain. */
  method IsStepDescendantOf(stepName: string, ancestor: string, steps: Steps) returns (found: bool)
    ensures found <==> stepName != "" && ancestor in steps && Reaches(PrevGraph(steps), stepName, ancestor)
  {
    ghost var g := PrevGraph(steps);
    var current := stepName;
    var visited: set<string> := {};
    ReachesRefl(g, stepName);
    while current != ""
      invariant (current == "" <==> stepName == "") && Reaches(g, stepName, current)
      invariant stepName in visited + {current}
      invariant ancestor !in visited || ancestor !in steps
      invariant forall x, y | x in visited && Edge(g, x, y) :: y in visited + {current}
      decreases steps.Keys - visited, current !in visited
    {
      if current in visited || current !in steps {
        NothingFurther(g, visited + {current}, stepName);
        return false;
      }
      visited := visited + {current};
      if current == ancestor {
        return true;
      }
      if steps[current].prev == "" {
        NothingFurther(g, visited, stepName);
        return false;
      }
      ReachesEdge(g, current, steps[current].prev);
      ReachesTrans(g, stepName, current, steps[current].prev);
      current := steps[current].prev;
    }
    return false;
  }

  lemma NothingFurther(g: Graph, s: set<string>, a: string)
    requires a in s
    requires forall x, y | x in s && Edge(g, x, y) :: y in s
    ensures forall b | Reaches(g, a, b) :: b in s
  {
    forall b | Reaches(g, a, b)
      ensures b in s
    {
      ClosedContainsReachable(g, s, a, b);
    }
  }

  /** On a tree the forward search and the backward walk give the same answer for every pair
      of steps. */
  lemma SearchesAgree(t: Tree, a: string, x: string)
    requires Valid(t) && a in t.steps && x in t.steps
    ensures Reaches(FlowGraph(t.steps), a, x) <==> Reaches(PrevGraph(t.steps), x, a)
  {
    if x !in t.depth {
      // a compensation step: nothing links to it and it links to nothing
      DetachedReaches(t, a, x);
    } else if a !in t.depth {
      DetachedReaches(t, x, a);
    } else {
      ReachesIffUnder(t, a, x);
      ChainIffUnder(t, x, a);
    }
  }

  /** Forward links stay inside the main flow; backward links leave it only for the root. */
  lemma FlowIsClosed(t: Tree, x: string, y: string)
    requires Valid(t) && x in t.depth
    ensures Edge(FlowGraph(t.steps), x, y) ==> y in t.depth
    ensures Edge(PrevGraph(t.steps), x, y) ==> y in t.depth || y == ROOT_STEP
  {
    assert OwnsChildren(t, x);
    assert x == t.start || HasParent(t, x);
  }

  lemma DetachedIsAlone(t: Tree, x: string, b: string)
    requires Valid(t) && x in t.steps && x !in t.depth
    ensures Reaches(FlowGraph(t.steps), x, b) <==> b == x
    ensures Reaches(PrevGraph(t.steps), x, b) <==> b == x
  {
    hide Valid, Reaches, IsPath, Under, Edge, FlowGraph, PrevGraph;
    DetachedAt(t, x);
    NoLinks(t.steps, x);
    AloneIn(FlowGraph(t.steps), x, b);
    AloneIn(PrevGraph(t.steps), x, b);
  }

  lemma NoLinks(steps: Steps, x: string)
    requires x in steps && Detached(steps[x])
    ensures forall z :: !Edge(FlowGraph(steps), x, z) && !Edge(PrevGraph(steps), x, z)
  {
  }

  lemma AloneIn(g: Graph, x: string, b: string)
    requires forall z :: !Edge(g, x, z)
    ensures Reaches(g, x, b) <==> b == x
  {
    hide Reaches, IsPath, Edge;
    ReachesRefl(g, x);
    NothingFurther(g, {x}, x);
  }

  lemma DetachedReaches(t: Tree, a: string, x: string)
    requires Valid(t) && a in t.steps && x in t.steps && x !in t.depth
    ensures Reaches(FlowGraph(t.steps), a, x) <==> a == x
    ensures Reaches(PrevGraph(t.steps), a, x) <==> a == x
    ensures Reaches(FlowGraph(t.steps), x, a) <==> a == x
    ensures Reaches(PrevGraph(t.steps), x, a) <==> a == x
  {
    DetachedIsAlone(t, x, a);
    if a !in t.depth {
      DetachedIsAlone(t, a, x);
    } else {
      FlowNeverReachesDetached(t, a, x);
    }
  }

  lemma FlowNeverReachesDetached(t: Tree, a: string, x: string)
    requires Valid(t) && a in t.depth && x in t.steps && x !in t.depth
    ensures !Reaches(FlowGraph(t.steps), a, x) && !Reaches(PrevGraph(t.steps), a, x)
  {
    hide Valid, Reaches, IsPath, Under, FlowGraph, PrevGraph, Edge;
    var flow := t.depth.Keys + {ROOT_STEP};
    RootUnknown(t);
    forall y, z | y in flow
      ensures Edge(FlowGraph(t.steps), y, z) ==> z in flow
      ensures Edge(PrevGraph(t.steps), y, z) ==> z in flow
    {
      NoEdgeFrom(t.steps, y, z);
      if y in t.depth {
        FlowIsClosed(t, y, z);
      }
    }
    NothingFurther(FlowGraph(t.steps), flow, a);
    NothingFurther(PrevGraph(t.steps), flow, a);
  }

  lemma NoEdgeFrom(steps: Steps, y: string, z: string)
    ensures Edge(FlowGraph(steps), y, z) || Edge(PrevGraph(steps), y, z) ==> y in steps
  {
  }

  lemma RootUnknown(t: Tree)
    requires Valid(t)
    ensures ROOT_STEP !in t.steps && t.depth.Keys <= t.steps.Keys
  {
  }

  lemma {:induction false} UnderIsChain(t: Tree, x: string, a: string)
    requires Valid(t) && x in t.depth && Under(t, x, a)
    ensures Reaches(PrevGraph(t.steps), x, a)
    decreases t.depth[x]
  {
    var h := PrevGraph(t.steps);
    if x == a {
      ReachesRefl(h, x);
    } else {
      var p := t.steps[x].prev;
      UnderIsChain(t, p, a);
      assert Edge(h, x, p);
      ReachesEdge(h, x, p);
      ReachesTrans(h, x, p, a);
    }
  }

  lemma PrevStaysAbove(t: Tree, x: string, y: string, z: string)
    requires Valid(t) && x in t.depth && y in t.depth && Under(t, x, y) && Edge(PrevGraph(t.steps), y, z)
    ensures z == ROOT_STEP || (z in t.depth && Under(t, x, z))
  {
    if y != t.start {
      assert HasParent(t, y) && z == t.steps[y].prev && Under(t, z, z);
      UnderTrans(t, x, y, z);
    }
  }

  /** The step, its ancestors and the root are closed under Prev. */
  lemma Above(t: Tree, x: string) returns (above: set<string>)
    requires Valid(t) && x in t.depth
    ensures x in above && forall y | y in above :: y == ROOT_STEP || (y in t.depth && Under(t, x, y))
    ensures forall y, z | y in above && Edge(PrevGraph(t.steps), y, z) :: z in above
  {
    hide PrevGraph, Edge, Valid, Under;
    SelfUnder(t, x);
    RootUnknown(t);
    above := (set y | y in t.depth && Under(t, x, y)) + {ROOT_STEP};
    forall y, z | y in above && Edge(PrevGraph(t.steps), y, z)
      ensures z in above
    {
      NoEdgeFrom(t.steps, y, z);
      PrevStaysAbove(t, x, y, z);
    }
  }

  lemma ChainIffUnder(t: Tree, x: string, a: string)
    requires Valid(t) && x in t.depth && a in t.steps
    ensures Reaches(PrevGraph(t.steps), x, a) <==> Under(t, x, a)
  {
    hide Reaches, IsPath, PrevGraph, Edge, Valid, Under;
    if Under(t, x, a) {
      UnderIsChain(t, x, a);
    }
    if Reaches(PrevGraph(t.steps), x, a) {
      RootUnknown(t);
      var above := Above(t, x);
      ClosedContainsReachable(PrevGraph(t.steps), above, x, a);
    }
  }
}
