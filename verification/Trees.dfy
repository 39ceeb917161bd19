/** Definitions whose Next, Parallel and Else links form a tree with Prev as the parent map. */
module Trees {
  import opened Definitions
  import opened Graphs

  /** The forward links of a step: parallel branches, next steps, else step. */
  function Children(d: StepDef): seq<string> {
    d.parallel + d.next + Link(d.els)
  }

  function FlowGraph(steps: Steps): Graph {
    map x | x in steps :: Elements(Children(steps[x]))
  }

  /** A definition together with the depth of each step of its main flow.  Steps without a
      depth are compensation steps, which stay outside the tree. */
  datatype Tree = Tree(steps: Steps, start: string, depth: map<string, nat>, height: nat)

  predicate Rooted(t: Tree) {
    && t.depth.Keys <= t.steps.Keys
    && ROOT_STEP !in t.steps && "" !in t.steps
    && t.start in t.depth && t.depth[t.start] == 0 && t.steps[t.start].prev == ROOT_STEP
    && forall x | x in t.depth :: t.depth[x] <= t.height
  }

  /** x is filed under its parent, one level below it. */
  predicate HasParent(t: Tree, x: string)
    requires t.depth.Keys <= t.steps.Keys && x in t.depth
  {
    var p := t.steps[x].prev;
    p in t.depth && x in Children(t.steps[p]) && t.depth[p] + 1 == t.depth[x]
  }

  /** The children of x are distinct and name x as their previous step. */
  predicate OwnsChildren(t: Tree, x: string)
    requires t.depth.Keys <= t.steps.Keys && x in t.depth
  {
    && Distinct(Children(t.steps[x]))
    && forall y | y in Children(t.steps[x]) ::
         y in t.depth && t.steps[y].prev == x && t.depth[y] == t.depth[x] + 1
  }

  /** Only forks have branches and only conditions have an else side. */
  predicate KindAgrees(d: StepDef) {
    && (!IsFork(d) ==> d.parallel == [])
    && (d.kind != Condition ==> d.els == "")
  }

  predicate Detached(d: StepDef) {
    d.prev == "" && Children(d) == []
  }

  predicate Valid(t: Tree) {
    && Rooted(t)
    && (forall x | x in t.depth && x != t.start :: HasParent(t, x))
    && (forall x | x in t.depth :: OwnsChildren(t, x) && KindAgrees(t.steps[x]))
    && (forall x | x in t.steps && x !in t.depth :: Detached(t.steps[x]))
  }

  lemma ValidParts(t: Tree)
    requires Valid(t)
    ensures Rooted(t)
  {
  }

  lemma ValidAt(t: Tree, x: string)
    requires Valid(t) && x in t.depth
    ensures t.depth.Keys <= t.steps.Keys
    ensures OwnsChildren(t, x) && KindAgrees(t.steps[x])
    ensures x != t.start ==> HasParent(t, x)
  {
  }

  lemma DetachedAt(t: Tree, x: string)
    requires Valid(t) && x in t.steps && x !in t.depth
    ensures Detached(t.steps[x])
  {
  }

  lemma SelfUnder(t: Tree, c: string)
    requires Valid(t) && c in t.depth
    ensures Under(t, c, c)
  {
  }

  /** a is x or one of x's Prev ancestors. */
  predicate Under(t: Tree, x: string, a: string)
    requires Valid(t) && x in t.depth
    decreases t.depth[x]
  {
    x == a || (x != t.start && HasParent(t, x) && Under(t, t.steps[x].prev, a))
  }

  lemma {:induction false} UnderDepth(t: Tree, x: string, a: string)
    requires Valid(t) && x in t.depth && Under(t, x, a)
    ensures a in t.depth && t.depth[a] <= t.depth[x]
    ensures t.depth[a] == t.depth[x] ==> a == x
    decreases t.depth[x]
  {
    if x != a {
      UnderDepth(t, t.steps[x].prev, a);
    }
  }

  lemma UnderChild(t: Tree, x: string, y: string, a: string)
    requires Valid(t) && x in t.depth && y in Children(t.steps[x])
    ensures y in t.depth && y != t.start
    ensures Under(t, y, a) <==> y == a || Under(t, x, a)
  {
    assert OwnsChildren(t, x) && t.depth[y] == t.depth[x] + 1;
    assert HasParent(t, y);
  }

  lemma {:induction false} UnderTrans(t: Tree, x: string, a: string, b: string)
    requires Valid(t) && x in t.depth && a in t.depth && Under(t, x, a) && Under(t, a, b)
    ensures Under(t, x, b)
    decreases t.depth[x]
  {
    if x != a {
      UnderTrans(t, t.steps[x].prev, a, b);
    }
  }

  /** The ancestors of one step form a chain. */
  lemma {:induction false} UnderComparable(t: Tree, x: string, a: string, b: string)
    requires Valid(t) && x in t.depth && a in t.depth && b in t.depth
    requires Under(t, x, a) && Under(t, x, b) && t.depth[a] <= t.depth[b]
    ensures Under(t, b, a)
    decreases t.depth[x]
  {
    if x != b {
      UnderDepth(t, t.steps[x].prev, b);
      UnderComparable(t, t.steps[x].prev, a, b);
    }
  }

  /** Two steps on one level have no common descendant unless they are the same. */
  lemma LevelApart(t: Tree, x: string, a: string, b: string)
    requires Valid(t) && x in t.depth && a in t.depth && b in t.depth
    requires Under(t, x, a) && Under(t, x, b) && t.depth[a] == t.depth[b]
    ensures a == b
  {
    UnderComparable(t, x, a, b);
    UnderDepth(t, b, a);
  }

  lemma {:induction false} UnderStart(t: Tree, x: string)
    requires Valid(t) && x in t.depth
    ensures Under(t, x, t.start)
    decreases t.depth[x]
  {
    if x != t.start {
      assert HasParent(t, x);
      UnderStart(t, t.steps[x].prev);
    }
  }

  /** A proper descendant of a lies under exactly one child of a. */
  lemma {:induction false} UnderVia(t: Tree, x: string, a: string) returns (c: string)
    requires Valid(t) && x in t.depth && a in t.depth && Under(t, x, a) && x != a
    ensures c in Children(t.steps[a]) && c in t.depth && Under(t, x, c)
    decreases t.depth[x]
  {
    var p := t.steps[x].prev;
    if p == a {
      c := x;
    } else {
      c := UnderVia(t, p, a);
    }
  }

  lemma EdgeGoesDown(t: Tree, x: string, y: string, a: string)
    requires Valid(t) && x in t.depth && Under(t, x, a) && Edge(FlowGraph(t.steps), x, y)
    ensures y in t.depth && Under(t, y, a)
  {
    assert y in Children(t.steps[x]);
    UnderChild(t, x, y, a);
  }

  lemma {:induction false} DescentIsPath(t: Tree, x: string, a: string)
    requires Valid(t) && x in t.depth && Under(t, x, a)
    ensures Reaches(FlowGraph(t.steps), a, x)
    decreases t.depth[x]
  {
    var g := FlowGraph(t.steps);
    if x == a {
      ReachesRefl(g, a);
    } else {
      var p := t.steps[x].prev;
      DescentIsPath(t, p, a);
      assert Edge(g, p, x);
      ReachesEdge(g, p, x);
      ReachesTrans(g, a, p, x);
    }
  }

  /** Walking forward and walking back along Prev describe the same relation. */
  lemma ReachesIffUnder(t: Tree, a: string, x: string)
    requires Valid(t) && a in t.depth
    ensures Reaches(FlowGraph(t.steps), a, x) <==> x in t.depth && Under(t, x, a)
  {
    if Reaches(FlowGraph(t.steps), a, x) {
      var below := set y | y in t.depth && Under(t, y, a);
      forall y, z | y in below && Edge(FlowGraph(t.steps), y, z)
        ensures z in below
      {
        EdgeGoesDown(t, y, z, a);
      }
      ClosedContainsReachable(FlowGraph(t.steps), below, a, x);
    }
    if x in t.depth && Under(t, x, a) {
      DescentIsPath(t, x, a);
    }
  }
}
