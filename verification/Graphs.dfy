/** Directed graphs over step names: paths, reachability, cycles and topological orders. */
module Graphs {

  /** The successors of every known node.  Nodes outside the map have no successors. */
  type Graph = map<string, set<string>>

  predicate Edge(g: Graph, x: string, y: string) {
    x in g && y in g[x]
  }

  /** A path is a nonempty list of names, each an edge away from the one before. */
  predicate IsPath(g: Graph, p: seq<string>) {
    && |p| >= 1
    && (|p| >= 2 ==> Edge(g, p[0], p[1]) && IsPath(g, p[1..]))
  }

  predicate Connects(g: Graph, p: seq<string>, a: string, b: string) {
    IsPath(g, p) && p[0] == a && p[|p| - 1] == b
  }

  ghost predicate Reaches(g: Graph, a: string, b: string) {
    exists p :: Connects(g, p, a, b)
  }

  /** v lies on a cycle: some path of at least one edge leads from v back to v. */
  ghost predicate OnCycle(g: Graph, v: string) {
    exists p :: |p| >= 2 && Connects(g, p, v, v)
  }

  ghost predicate CycleReachable(g: Graph, start: string) {
    exists v :: Reaches(g, start, v) && OnCycle(g, v)
  }

  /** Every successor of an entry occurs strictly before it. */
  ghost predicate TopologicalOrder(g: Graph, order: seq<string>) {
    forall i, y | 0 <= i < |order| && Edge(g, order[i], y) :: y in order[..i]
  }

  lemma ReachesRefl(g: Graph, a: string)
    ensures Reaches(g, a, a)
  {
    assert Connects(g, [a], a, a);
  }

  lemma {:induction false} PathAppend(g: Graph, p: seq<string>, q: seq<string>)
    requires IsPath(g, p) && IsPath(g, q)
    requires p[|p| - 1] == q[0]
    ensures IsPath(g, p + q[1..])
    ensures (p + q[1..])[0] == p[0]
    ensures (p + q[1..])[|p + q[1..]| - 1] == q[|q| - 1]
  {
    if |p| == 1 {
      assert p + q[1..] == q;
    } else {
      PathAppend(g, p[1..], q);
      assert (p + q[1..])[1..] == p[1..] + q[1..];
    }
  }

  lemma ReachesTrans(g: Graph, a: string, b: string, c: string)
    requires Reaches(g, a, b) && Reaches(g, b, c)
    ensures Reaches(g, a, c)
  {
    var p :| Connects(g, p, a, b);
    var q :| Connects(g, q, b, c);
    PathAppend(g, p, q);
    assert Connects(g, p + q[1..], a, c);
  }

  lemma ReachesEdge(g: Graph, a: string, b: string)
    requires Edge(g, a, b)
    ensures Reaches(g, a, b)
  {
    assert IsPath(g, [b]);
    assert [a, b][1..] == [b];
    assert Connects(g, [a, b], a, b);
  }

  /** Reachability unfolds at its first edge. */
  lemma ReachesUnfold(g: Graph, a: string, b: string) returns (y: string)
    requires Reaches(g, a, b) && a != b
    ensures Edge(g, a, y) && Reaches(g, y, b)
  {
    var p :| Connects(g, p, a, b);
    y := p[1];
    assert Connects(g, p[1..], y, b);
  }

  /** An edge back to a node that reaches its source closes a cycle. */
  lemma BackEdgeCloses(g: Graph, a: string, b: string)
    requires Reaches(g, b, a) && Edge(g, a, b)
    ensures OnCycle(g, b)
  {
    var p :| Connects(g, p, b, a);
    assert IsPath(g, [b]);
    assert [a, b][1..] == [b];
    PathAppend(g, p, [a, b]);
    assert Connects(g, p + [a, b][1..], b, b);
  }

  /** A set closed under edges contains everything reachable from its members. */
  lemma {:induction false} ClosedContainsPath(g: Graph, s: set<string>, p: seq<string>)
    requires IsPath(g, p) && p[0] in s
    requires forall x, y | x in s && Edge(g, x, y) :: y in s
    ensures p[|p| - 1] in s
  {
    if |p| >= 2 {
      ClosedContainsPath(g, s, p[1..]);
    }
  }

  lemma ClosedContainsReachable(g: Graph, s: set<string>, a: string, b: string)
    requires a in s && Reaches(g, a, b)
    requires forall x, y | x in s && Edge(g, x, y) :: y in s
    ensures b in s
  {
    var p :| Connects(g, p, a, b);
    ClosedContainsPath(g, s, p);
  }

  /** Along a topological order every path of at least one edge moves strictly left. */
  lemma {:induction false} PathMovesLeft(g: Graph, order: seq<string>, i: nat, p: seq<string>)
    requires TopologicalOrder(g, order) && i < |order|
    requires IsPath(g, p) && |p| >= 2 && p[0] == order[i]
    ensures p[|p| - 1] in order[..i]
    decreases |p|
  {
    assert Edge(g, order[i], p[1]);
    var j :| 0 <= j < i && order[j] == p[1];
    if |p| >= 3 {
      PathMovesLeft(g, order, j, p[1..]);
    }
  }

  lemma {:induction false} FirstIndex(order: seq<string>, v: string) returns (i: nat)
    requires v in order
    ensures i < |order| && order[i] == v && v !in order[..i]
  {
    if order[0] == v {
      i := 0;
    } else {
      i := FirstIndex(order[1..], v);
      i := i + 1;
      assert order[..i] == [order[0]] + order[1..][..i - 1];
    }
  }

  lemma OrderedNodesAcyclic(g: Graph, order: seq<string>, v: string)
    requires TopologicalOrder(g, order) && v in order
    ensures !OnCycle(g, v)
  {
    if OnCycle(g, v) {
      var p :| |p| >= 2 && Connects(g, p, v, v);
      var i := FirstIndex(order, v);
      PathMovesLeft(g, order, i, p);
    }
  }

  /** A topological order that contains the start holds the whole reachable part, which is
      therefore free of cycles. */
  lemma OrderExcludesCycles(g: Graph, order: seq<string>, start: string)
    requires TopologicalOrder(g, order) && start in order
    ensures forall v | Reaches(g, start, v) :: v in order
    ensures !CycleReachable(g, start)
  {
    var s := set x | x in order;
    forall v | Reaches(g, start, v)
      ensures v in order && !OnCycle(g, v)
    {
      forall x, y | x in s && Edge(g, x, y)
        ensures y in s
      {
        var i :| 0 <= i < |order| && order[i] == x;
        assert y in order[..i];
      }
      ClosedContainsReachable(g, s, start, v);
      OrderedNodesAcyclic(g, order, v);
    }
  }

  /** If every edge lowers a rank, no node lies on a cycle. */
  lemma {:induction false} RankFalls(g: Graph, rank: map<string, int>, p: seq<string>)
    requires forall x, y | Edge(g, x, y) :: x in rank && y in rank && rank[y] < rank[x]
    requires IsPath(g, p) && |p| >= 2
    ensures p[0] in rank && p[|p| - 1] in rank && rank[p[|p| - 1]] < rank[p[0]]
  {
    assert Edge(g, p[0], p[1]);
    if |p| >= 3 {
      RankFalls(g, rank, p[1..]);
    }
  }

  lemma RankedGraphAcyclic(g: Graph, rank: map<string, int>, start: string)
    requires forall x, y | Edge(g, x, y) :: x in rank && y in rank && rank[y] < rank[x]
    ensures !CycleReachable(g, start)
  {
    forall v, p | |p| >= 2 && Connects(g, p, v, v)
      ensures false
    {
      RankFalls(g, rank, p);
    }
  }

  /** The visited map that one search shares between its recursive calls. */
  class Visited {
    var names: set<string>

    constructor ()
      ensures names == {}
    {
      names := {};
    }
  }
}
