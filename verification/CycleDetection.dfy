/** The depth-first cycle check run on every definition before it is accepted. */
module CycleDetection {
  import opened Definitions
  import opened Graphs

  /** All outgoing targets of a step, in the order the check visits them. */
  function Outs(d: StepDef): seq<string> {
    d.next + Link(d.onFailure) + Link(d.els) + d.parallel + d.waitFor
  }

  /** A target counts when it is a named, non-virtual, existing step. */
  predicate Counts(steps: Steps, name: string) {
    name != "" && !IsVirtual(name) && name in steps
  }

  function DependencyGraph(steps: Steps): Graph {
    map x | x in steps :: set y | y in Outs(steps[x]) && Counts(steps, y)
  }

  /** The two marks of the search.  `order` records the finished names, oldest first. */
  class Marks {
    var visited: set<string>
    var recStack: set<string>
    ghost var order: seq<string>

    constructor ()
      ensures visited == {} && recStack == {} && order == []
    {
      visited, recStack, order := {}, {}, [];
    }

    /** Finished names are exactly the visited ones that are off the stack, and they are
        listed after all of their successors. */
    ghost predicate Valid(g: Graph)
      reads this
    {
      && recStack <= visited
      && Elements(order) == visited - recStack
      && TopologicalOrder(g, order)
    }
  }

  lemma OrderExtends(g: Graph, order: seq<string>, x: string)
    requires TopologicalOrder(g, order)
    requires forall y | Edge(g, x, y) :: y in order
    ensures TopologicalOrder(g, order + [x])
    ensures Elements(order + [x]) == Elements(order) + {x}
  {
    var o := order + [x];
    forall i, y | 0 <= i < |o| && Edge(g, o[i], y)
      ensures y in o[..i]
    {
      if i < |order| {
        assert o[..i] == order[..i];
      } else {
        assert o[..i] == order;
      }
    }
  }

  method DetectCycles(current: string, steps: Steps, m: Marks) returns (found: bool)
    requires m.Valid(DependencyGraph(steps)) && current !in m.visited
    requires forall x | x in m.recStack :: Reaches(DependencyGraph(steps), x, current)
    modifies m
    ensures found ==> CycleReachable(DependencyGraph(steps), current)
    ensures !found ==> m.Valid(DependencyGraph(steps))
    ensures !found ==> m.recStack == old(m.recStack) && current in m.order
    ensures old(m.visited) <= m.visited
    decreases steps.Keys - m.visited, 1
  {
    ghost var g := DependencyGraph(steps);
    m.visited := m.visited + {current};
    m.recStack := m.recStack + {current};
    ReachesRefl(g, current);

    if current !in steps {
      m.recStack := m.recStack - {current};
      OrderExtends(g, m.order, current);
      m.order := m.order + [current];
      return false;
    }

    var outs := Outs(steps[current]);
    var i := 0;
    while i < |outs|
      invariant 0 <= i <= |outs|
      invariant m.Valid(g) && m.recStack == old(m.recStack) + {current}
      invariant old(m.visited) + {current} <= m.visited
      invariant forall k | 0 <= k < i && Counts(steps, outs[k]) :: outs[k] in m.order
    {
      var next := outs[i];
      if Counts(steps, next) {
        assert Edge(g, current, next);
        if next !in m.visited {
          forall x | x in m.recStack
            ensures Reaches(g, x, next)
          {
            ReachesEdge(g, current, next);
            ReachesTrans(g, x, current, next);
          }
          ghost var before := m.order;
          found := DetectCycles(next, steps, m);
          if found {
            ghost var v :| Reaches(g, next, v) && OnCycle(g, v);
            ReachesEdge(g, current, next);
            ReachesTrans(g, current, next, v);
            return;
          }
          assert forall y | y in before ::
              y in Elements(before) && y in m.visited - m.recStack && y in Elements(m.order);
        } else if next in m.recStack {
          ReachesEdge(g, current, next);
          BackEdgeCloses(g, current, next);
          return true;
        } else {
          assert next in Elements(m.order);
        }
      }
      i := i + 1;
    }

    forall y | Edge(g, current, y)
      ensures y in m.order
    {
      var k :| 0 <= k < |outs| && outs[k] == y;
    }
    m.recStack := m.recStack - {current};
    OrderExtends(g, m.order, current);
    m.order := m.order + [current];
    found := false;
  }

  /** The check reports an error exactly when a cycle is reachable from the start step; when
      it reports none, it has found a topological order of the reachable part. */
  method HasCycle(start: string, steps: Steps) returns (found: bool, ghost order: seq<string>)
    ensures found <==> CycleReachable(DependencyGraph(steps), start)
    ensures !found ==> TopologicalOrder(DependencyGraph(steps), order)
    ensures !found ==> forall v | Reaches(DependencyGraph(steps), start, v) :: v in order
  {
    var m := new Marks();
    found := DetectCycles(start, steps, m);
    order := m.order;
    if !found {
      OrderExcludesCycles(DependencyGraph(steps), order, start);
    }
  }
}
