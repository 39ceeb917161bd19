/** Ranks that fall along every dependency link, and how the builder's calls preserve them. */
module BuilderHealth {
  import opened Definitions
  import opened Graphs
  import opened CycleDetection
  import opened Builder

  type Ranks = map<string, int>

  /** All outgoing names of d are virtual or known steps of a lower rank than r. */
  predicate Falls(steps: Steps, rank: Ranks, d: StepDef, r: int) {
    forall y | y in Outs(d) :: IsVirtual(y) || (y in steps && y in rank && rank[y] < r)
  }

  predicate HealthyAt(steps: Steps, rank: Ranks, low: int, high: int, x: string)
    requires x in steps
  {
    && ValidName(x) && StepOk(steps, steps[x])
    && x in rank && low < rank[x] < high
    && Falls(steps, rank, steps[x], rank[x])
  }

  predicate Healthy(steps: Steps, rank: Ranks, low: int, high: int) {
    low < high && forall x | x in steps :: HealthyAt(steps, rank, low, high, x)
  }

  lemma HealthyIsValid(steps: Steps, rank: Ranks, low: int, high: int, start: string)
    requires Healthy(steps, rank, low, high)
    ensures ValidDefinition(steps, start)
  {
    forall x, y | Edge(DependencyGraph(steps), x, y)
      ensures x in rank && y in rank && rank[y] < rank[x]
    {
      assert HealthyAt(steps, rank, low, high, x);
      assert y in Outs(steps[x]);
    }
    RankedGraphAcyclic(DependencyGraph(steps), rank, start);
    forall x | x in steps
      ensures ValidName(x) && StepOk(steps, steps[x])
    {
      assert HealthyAt(steps, rank, low, high, x);
    }
  }

  // ------------------------------------------------------------------ hanging one graph under another

  /** The ranks of the outer graph, and below all of them the shifted ranks of the inner one. */
  function Shift(rank: Ranks, low: int, inner: Ranks, innerHigh: int): Ranks {
    rank + map x | x in inner :: inner[x] - innerHigh + low + 1
  }

  /** The inner graph with its own Prev links changed. */
  predicate SameButPrev(inner: Steps, placed: Steps) {
    placed.Keys == inner.Keys && forall x | x in inner :: placed[x] == inner[x].(prev := placed[x].prev)
  }

  lemma HangOuter(steps: Steps, rank: Ranks, low: int, high: int, inner: Steps, irank: Ranks, ilow: int, ihigh: int,
                  placed: Steps, cur: string, d: StepDef, x: string)
    requires Healthy(steps, rank, low, high) && Healthy(inner, irank, ilow, ihigh)
    requires rank.Keys == steps.Keys && irank.Keys == inner.Keys && steps.Keys !! inner.Keys
    requires SameButPrev(inner, placed) && cur in steps && x in steps && inner != map[]
    requires StepOk(steps[cur := d] + placed, d)
    requires forall y | y in Outs(d) :: y in Outs(steps[cur]) || y in inner
    ensures x in steps[cur := d] + placed
    ensures HealthyAt(steps[cur := d] + placed, Shift(rank, low, irank, ihigh), low + ilow - ihigh + 1, high, x)
  {
    hide Outs, StepOk, IsVirtual, ValidName, Shift;
    var steps', rank' := steps[cur := d] + placed, Shift(rank, low, irank, ihigh);
    assert HealthyAt(steps, rank, low, high, x);
    var z :| z in inner;
    assert HealthyAt(inner, irank, ilow, ihigh, z);
    assert steps'.Keys == steps.Keys + inner.Keys;
    assert steps'[x] == if x == cur then d else steps[x];
    ShiftAt(rank, low, irank, ihigh, x);
    if x != cur {
      StepOkMore(steps, steps', steps[x]);
    }
    forall y | y in Outs(steps'[x])
      ensures IsVirtual(y) || (y in steps' && y in rank' && rank'[y] < rank'[x])
    {
      ShiftAt(rank, low, irank, ihigh, y);
      if y in inner {
        assert HealthyAt(inner, irank, ilow, ihigh, y);
      } else {
        assert y in Outs(steps[x]);
      }
    }
  }

  lemma ShiftAt(rank: Ranks, low: int, inner: Ranks, innerHigh: int, x: string)
    ensures x in inner ==> x in Shift(rank, low, inner, innerHigh)
                           && Shift(rank, low, inner, innerHigh)[x] == inner[x] - innerHigh + low + 1
    ensures x in rank && x !in inner ==> x in Shift(rank, low, inner, innerHigh)
                                         && Shift(rank, low, inner, innerHigh)[x] == rank[x]
  {
  }

  lemma PlacedAt(inner: Steps, placed: Steps, x: string, more: Steps)
    requires SameButPrev(inner, placed) && x in inner && inner.Keys <= more.Keys && StepOk(inner, inner[x])
    ensures x in placed && Outs(placed[x]) == Outs(inner[x]) && StepOk(more, placed[x])
  {
  }

  lemma HangInner(steps: Steps, rank: Ranks, low: int, high: int, inner: Steps, irank: Ranks, ilow: int, ihigh: int,
                  placed: Steps, cur: string, d: StepDef, x: string)
    requires x in inner && HealthyAt(inner, irank, ilow, ihigh, x) && low < high
    requires rank.Keys == steps.Keys && irank.Keys == inner.Keys && steps.Keys !! inner.Keys
    requires SameButPrev(inner, placed) && cur in steps
    ensures x in steps[cur := d] + placed
    ensures HealthyAt(steps[cur := d] + placed, Shift(rank, low, irank, ihigh), low + ilow - ihigh + 1, high, x)
  {
    var steps', rank' := steps[cur := d] + placed, Shift(rank, low, irank, ihigh);
    assert steps'.Keys == steps.Keys + inner.Keys && steps'[x] == placed[x];
    hide Outs, StepOk, IsVirtual, ValidName, Shift, SameButPrev;
    PlacedAt(inner, placed, x, steps');
    ShiftAt(rank, low, irank, ihigh, x);
    forall y | y in Outs(steps'[x])
      ensures IsVirtual(y) || (y in steps' && y in rank' && rank'[y] < rank'[x])
    {
      ShiftAt(rank, low, irank, ihigh, y);
    }
  }

  /** A healthy graph hung under a step of another one by one new link leaves both healthy. */
  lemma HangHealthy(steps: Steps, rank: Ranks, low: int, high: int, inner: Steps, irank: Ranks, ilow: int, ihigh: int,
                    placed: Steps, cur: string, d: StepDef)
    requires Healthy(steps, rank, low, high) && Healthy(inner, irank, ilow, ihigh)
    requires rank.Keys == steps.Keys && irank.Keys == inner.Keys && steps.Keys !! inner.Keys
    requires SameButPrev(inner, placed) && cur in steps && inner != map[]
    requires StepOk(steps[cur := d] + placed, d)
    requires forall y | y in Outs(d) :: y in Outs(steps[cur]) || y in inner
    ensures Healthy(steps[cur := d] + placed, Shift(rank, low, irank, ihigh), low + ilow - ihigh + 1, high)
    ensures Shift(rank, low, irank, ihigh).Keys == (steps[cur := d] + placed).Keys
  {
    hide HealthyAt, StepOk, Shift;
    ShiftKeys(rank, low, irank, ihigh);
    assert (steps[cur := d] + placed).Keys == steps.Keys + inner.Keys;
    var steps' := steps[cur := d] + placed;
    forall x | x in steps'
      ensures HealthyAt(steps', Shift(rank, low, irank, ihigh), low + ilow - ihigh + 1, high, x)
    {
      if x in steps {
        HangOuter(steps, rank, low, high, inner, irank, ilow, ihigh, placed, cur, d, x);
      } else {
        assert HealthyAt(inner, irank, ilow, ihigh, x);
        HangInner(steps, rank, low, high, inner, irank, ilow, ihigh, placed, cur, d, x);
      }
    }
  }

  lemma ShiftKeys(rank: Ranks, low: int, inner: Ranks, innerHigh: int)
    ensures Shift(rank, low, inner, innerHigh).Keys == rank.Keys + inner.Keys
  {
  }

  // ------------------------------------------------------------------ single steps

  /** A step without outgoing links. */
  predicate Lone(d: StepDef) {
    Outs(d) == [] && d.next == [] && d.onFailure == "" && d.els == "" && d.parallel == [] && d.waitFor == []
    && (d.kind == Task ==> d.handler != "")
  }

  lemma LoneHealthy(name: string, d: StepDef)
    requires ValidName(name) && Lone(d)
    ensures Healthy(map[name := d], map[name := 0], -1, 1)
  {
    assert HealthyAt(map[name := d], map[name := 0], -1, 1, name);
  }

  lemma StepOkMore(steps: Steps, more: Steps, d: StepDef)
    requires StepOk(steps, d) && steps.Keys <= more.Keys
    ensures StepOk(more, d)
  {
  }

  // ------------------------------------------------------------------ joins

  /** Doubling the ranks leaves room for a join right below its fork. */
  function Doubled(rank: Ranks): Ranks {
    map x | x in rank :: 2 * rank[x]
  }

  lemma DoubledAt(rank: Ranks)
    ensures Doubled(rank).Keys == rank.Keys && forall x | x in rank :: Doubled(rank)[x] == 2 * rank[x]
  {
  }

  lemma JoinHealthy(steps: Steps, rank: Ranks, low: int, high: int, fork: string, name: string, join: StepDef)
    requires Healthy(steps, rank, low, high) && rank.Keys == steps.Keys
    requires fork in steps && name !in steps && ValidName(name)
    requires join.kind == Join && join.next == [] && join.onFailure == "" && join.els == "" && join.parallel == []
    requires forall w | w in join.waitFor :: IsVirtual(w) || (w in steps && rank[w] < rank[fork])
    ensures var d := steps[fork].(next := steps[fork].next + [name]);
            var rank' := Doubled(rank)[name := 2 * rank[fork] - 1];
            && Healthy(steps[name := join][fork := d], rank', 2 * low, 2 * high)
            && rank'.Keys == steps.Keys + {name}
  {
    hide ValidName, IsVirtual, Falls, StepOk;
    var d := steps[fork].(next := steps[fork].next + [name]);
    var steps' := steps[name := join][fork := d];
    var rank' := Doubled(rank)[name := 2 * rank[fork] - 1];
    assert HealthyAt(steps, rank, low, high, fork);
    forall x | x in steps'
      ensures HealthyAt(steps', rank', 2 * low, 2 * high, x)
    {
      if x == name {
        JoinItself(steps, rank, low, high, fork, name, join);
      } else {
        assert HealthyAt(steps, rank, low, high, x);
        JoinOthers(steps, rank, low, high, fork, name, join, x);
      }
    }
  }

  lemma RankInside(steps: Steps, rank: Ranks, low: int, high: int, x: string)
    requires Healthy(steps, rank, low, high) && x in steps
    ensures x in rank && low < rank[x] < high
  {
    assert HealthyAt(steps, rank, low, high, x);
  }

  lemma JoinItself(steps: Steps, rank: Ranks, low: int, high: int, fork: string, name: string, join: StepDef)
    requires Healthy(steps, rank, low, high) && rank.Keys == steps.Keys
    requires fork in steps && name !in steps && ValidName(name)
    requires join.kind == Join && join.next == [] && join.onFailure == "" && join.els == "" && join.parallel == []
    requires forall w | w in join.waitFor :: IsVirtual(w) || (w in steps && rank[w] < rank[fork])
    ensures var d := steps[fork].(next := steps[fork].next + [name]);
            var steps' := steps[name := join][fork := d];
            name in steps' && HealthyAt(steps', Doubled(rank)[name := 2 * rank[fork] - 1], 2 * low, 2 * high, name)
  {
    hide Healthy, IsVirtual, ValidName, Doubled;
    RankInside(steps, rank, low, high, fork);
    DoubledAt(rank);
    assert Outs(join) == join.waitFor;
    hide Outs;
  }

  lemma JoinOthers(steps: Steps, rank: Ranks, low: int, high: int, fork: string, name: string, join: StepDef, x: string)
    requires fork in steps && name !in steps && x in steps && ValidName(name) && rank.Keys == steps.Keys
    requires HealthyAt(steps, rank, low, high, x)
    ensures var d := steps[fork].(next := steps[fork].next + [name]);
            var steps' := steps[name := join][fork := d];
            x in steps' && HealthyAt(steps', Doubled(rank)[name := 2 * rank[fork] - 1], 2 * low, 2 * high, x)
  {
    var d := steps[fork].(next := steps[fork].next + [name]);
    var steps' := steps[name := join][fork := d];
    var rank' := Doubled(rank)[name := 2 * rank[fork] - 1];
    OutsOfNext(steps[fork], name);
    assert StepOk(steps', steps'[x]) by {
      StepOkMore(steps, steps', steps[x]);
    }
    hide Outs, StepOk, IsVirtual, ValidName, Doubled;
    DoubledAt(rank);
    forall y | y in Outs(steps'[x])
      ensures IsVirtual(y) || (y in steps' && y in rank' && rank'[y] < rank'[x])
    {
      assert y in Outs(steps[x]) || (x == fork && y == name);
    }
  }

  lemma OutsOfNext(d: StepDef, name: string)
    ensures forall y :: y in Outs(d.(next := d.next + [name])) <==> y in Outs(d) || y == name
  {
    var rest := Link(d.onFailure) + Link(d.els) + d.parallel + d.waitFor;
    assert Outs(d) == d.next + rest;
    assert Outs(d.(next := d.next + [name])) == d.next + [name] + rest;
  }
}
