/** Every join of a finished definition waits for every branch of the fork before it. */
module BuilderJoinsKept {
  import opened Definitions
  import opened Graphs
  import opened CycleDetection
  import opened Trees
  import opened Builder
  import opened BuilderNames
  import opened BuilderTrees
  import opened BuilderJoins
  import opened BuilderExact

  // ------------------------------------------------------------------ the invariant

  /** Next and Else lead to known steps. */
  predicate Closed(steps: Steps) {
    forall x, y | x in steps && y in Onward(steps[x]) :: y in steps
  }

  /** No branch leads on to the current step, so later calls leave the branches alone. */
  ghost predicate Quiet(steps: Steps, cur: string) {
    forall p, q | p in steps && q in steps[p].parallel :: q in steps && !Reaches(OnwardGraph(steps), q, cur)
  }

  /** The join waits for one right entry per branch of the fork before it, or, when there is
      no fork, for the step before it. */
  ghost predicate JoinRight(steps: Steps, j: string)
    requires j in steps
  {
    var p, ws := steps[j].prev, steps[j].waitFor;
    && p in steps
    && if IsFork(steps[p]) then
         |ws| == |steps[p].parallel| && forall i | 0 <= i < |ws| :: AwaitedRight(steps, steps[p].parallel[i], ws[i])
       else ws == [p]
  }

  ghost predicate JoinsRight(steps: Steps) {
    forall j | j in steps && steps[j].kind == Join :: JoinRight(steps, j)
  }

  ghost predicate Settled(steps: Steps, cur: string) {
    Closed(steps) && Quiet(steps, cur) && JoinsRight(steps)
  }

  // ------------------------------------------------------------------ branches are left alone

  predicate SameOnward(d: StepDef, e: StepDef) {
    d.kind == e.kind && d.next == e.next && d.els == e.els
  }

  /** All steps of a but cur go on in b as they did. */
  predicate Continues(a: Steps, b: Steps, cur: string) {
    forall x | x in a && x != cur :: x in b && SameOnward(a[x], b[x])
  }

  lemma RegionForth(a: Steps, b: Steps, cur: string, q: string, x: string)
    requires Closed(a) && q in a && !Reaches(OnwardGraph(a), q, cur) && Continues(a, b, cur)
    requires Reaches(OnwardGraph(a), q, x)
    ensures x in a && x != cur && Reaches(OnwardGraph(b), q, x)
  {
    var ga, gb := OnwardGraph(a), OnwardGraph(b);
    var region := set y | y in a && Reaches(ga, q, y) && Reaches(gb, q, y);
    ReachesRefl(ga, q);
    ReachesRefl(gb, q);
    forall y, z | y in region && Edge(ga, y, z)
      ensures z in region
    {
      assert y != cur && SameOnward(a[y], b[y]);
      ReachesEdge(ga, y, z);
      ReachesTrans(ga, q, y, z);
      assert Edge(gb, y, z);
      ReachesEdge(gb, y, z);
      ReachesTrans(gb, q, y, z);
    }
    ClosedContainsReachable(ga, region, q, x);
  }

  lemma RegionBack(a: Steps, b: Steps, cur: string, q: string, x: string)
    requires Closed(a) && q in a && !Reaches(OnwardGraph(a), q, cur) && Continues(a, b, cur)
    requires Reaches(OnwardGraph(b), q, x)
    ensures x in a && Reaches(OnwardGraph(a), q, x)
  {
    var ga, gb := OnwardGraph(a), OnwardGraph(b);
    var region := set y | y in a && Reaches(ga, q, y);
    ReachesRefl(ga, q);
    forall y, z | y in region && Edge(gb, y, z)
      ensures z in region
    {
      assert y != cur && SameOnward(a[y], b[y]);
      assert Edge(ga, y, z);
      ReachesEdge(ga, y, z);
      ReachesTrans(ga, q, y, z);
    }
    ClosedContainsReachable(gb, region, q, x);
  }

  /** What is right to wait for in a branch stays right. */
  lemma AwaitedKept(a: Steps, b: Steps, cur: string, q: string, w: string)
    requires Closed(a) && q in a && !Reaches(OnwardGraph(a), q, cur) && Continues(a, b, cur)
    requires AwaitedRight(a, q, w)
    ensures AwaitedRight(b, q, w)
  {
    hide Reaches, Closed;
    if exists c :: IsCondition(a, c) && Reaches(OnwardGraph(a), q, c) {
      var c :| w == VirtualName(c) && IsCondition(a, c) && Reaches(OnwardGraph(a), q, c);
      RegionForth(a, b, cur, q, c);
      assert IsCondition(b, c);
    } else {
      RegionForth(a, b, cur, q, w);
      assert IsTerminal(b, w);
      forall c | IsCondition(b, c) && Reaches(OnwardGraph(b), q, c)
        ensures false
      {
        RegionBack(a, b, cur, q, c);
        RegionForth(a, b, cur, q, c);
      }
    }
  }

  /** The fork of a join, with its branches, is the same in b. */
  predicate SameFork(a: Steps, b: Steps, j: string)
    requires j in a && j in b
  {
    && b[j].waitFor == a[j].waitFor && b[j].prev == a[j].prev
    && var p := a[j].prev;
       p in a ==> p in b && b[p].kind == a[p].kind && b[p].parallel == a[p].parallel
  }

  lemma JoinKept(a: Steps, b: Steps, cur: string, j: string)
    requires Settled(a, cur) && Continues(a, b, cur) && j in a && j in b && SameFork(a, b, j) && a[j].kind == Join
    ensures JoinRight(b, j)
  {
    var p, ws := a[j].prev, a[j].waitFor;
    assert JoinRight(a, j);
    hide AwaitedRight, Reaches, Closed, Continues;
    if IsFork(a[p]) {
      forall i | 0 <= i < |ws|
        ensures AwaitedRight(b, a[p].parallel[i], ws[i])
      {
        assert a[p].parallel[i] in a[p].parallel;
        AwaitedKept(a, b, cur, a[p].parallel[i], ws[i]);
      }
    }
  }

  /** A branch still does not lead to the current step, be it the same or a new one. */
  lemma BranchKept(a: Steps, b: Steps, cur: string, next: string, p: string, q: string)
    requires Settled(a, cur) && Continues(a, b, cur) && p in a && q in a[p].parallel && (next == cur || next !in a)
    ensures q in a && !Reaches(OnwardGraph(b), q, next)
  {
    hide Reaches, Closed, JoinsRight, Continues;
    if Reaches(OnwardGraph(b), q, next) {
      RegionBack(a, b, cur, q, next);
    }
  }

  // ------------------------------------------------------------------ one call

  /** A join filed behind cur with this definition waits for the right steps. */
  ghost predicate RightLeaf(steps: Steps, cur: string, d: StepDef) {
    && d.prev == cur && cur in steps
    && if IsFork(steps[cur]) then
         && |d.waitFor| == |steps[cur].parallel|
         && forall i | 0 <= i < |d.waitFor| :: AwaitedRight(steps, steps[cur].parallel[i], d.waitFor[i])
       else d.waitFor == [cur]
  }

  /** What filing a step behind the current one does to the other steps. */
  predicate Filed(a: Steps, b: Steps, cur: string, name: string, d: StepDef) {
    && b.Keys == a.Keys + {name} && name !in a && b[name] == d
    && forall x | x in a :: b[x] == a[x] || (x == cur && b[x] == a[x].(next := a[x].next + [name]))
  }

  lemma AdvanceFiles(b: BState, name: string, d: StepDef)
    requires name !in b.steps
    ensures Filed(b.steps, Advance(b, name, d).steps, b.current, name, d)
  {
  }

  lemma FiledContinues(a: Steps, b: Steps, cur: string, name: string, d: StepDef)
    requires Filed(a, b, cur, name, d)
    ensures Continues(a, b, cur)
    ensures forall j | j in a :: SameFork(a, b, j)
  {
  }

  lemma FiledClosed(a: Steps, b: Steps, cur: string, name: string, d: StepDef)
    requires Filed(a, b, cur, name, d) && Closed(a) && Onward(d) == []
    ensures Closed(b)
  {
    forall x, y | x in b && y in Onward(b[x])
      ensures y in b
    {
      if x != name {
        assert y in Onward(a[x]) || y == name;
      }
    }
  }

  lemma RightLeafKept(a: Steps, b: Steps, cur: string, name: string, d: StepDef)
    requires Settled(a, cur) && Filed(a, b, cur, name, d) && RightLeaf(a, cur, d)
    ensures JoinRight(b, name)
  {
    FiledContinues(a, b, cur, name, d);
    assert name in b && b[name] == d && b[cur].kind == a[cur].kind && b[cur].parallel == a[cur].parallel;
    hide AwaitedRight, Reaches, Continues, Settled, Filed;
    if IsFork(a[cur]) {
      forall i | 0 <= i < |d.waitFor|
        ensures AwaitedRight(b, a[cur].parallel[i], d.waitFor[i])
      {
        assert a[cur].parallel[i] in a[cur].parallel;
        QuietAt(a, cur, cur, a[cur].parallel[i]);
        AwaitedKept(a, b, cur, a[cur].parallel[i], d.waitFor[i]);
      }
    }
  }

  lemma QuietAt(a: Steps, cur: string, p: string, q: string)
    requires Settled(a, cur) && p in a && q in a[p].parallel
    ensures Closed(a) && q in a && !Reaches(OnwardGraph(a), q, cur)
  {
  }

  lemma FiledSettled(a: Steps, b: Steps, cur: string, name: string, d: StepDef)
    requires Settled(a, cur) && Filed(a, b, cur, name, d) && Onward(d) == [] && d.parallel == []
    requires d.kind == Join ==> RightLeaf(a, cur, d)
    ensures Settled(b, name)
  {
    hide Settled, Continues, Reaches, JoinRight, SameFork, RightLeaf, Closed, Onward, Filed;
    FiledContinues(a, b, cur, name, d);
    SettledClosed(a, cur);
    FiledClosed(a, b, cur, name, d);
    FiledBranches(a, b, cur, name, d);
    forall p, q | p in b && q in b[p].parallel
      ensures q in b && !Reaches(OnwardGraph(b), q, name)
    {
      BranchKept(a, b, cur, name, p, q);
    }
    forall j | j in b && b[j].kind == Join
      ensures JoinRight(b, j)
    {
      if j == name {
        RightLeafKept(a, b, cur, name, d);
      } else {
        JoinKept(a, b, cur, j);
      }
    }
    SettledBy(b, name);
  }

  lemma FiledBranches(a: Steps, b: Steps, cur: string, name: string, d: StepDef)
    requires Filed(a, b, cur, name, d) && d.parallel == []
    ensures forall p, q | p in b && q in b[p].parallel :: p in a && q in a[p].parallel
    ensures forall j | j in b && b[j].kind == Join :: if j == name then d.kind == Join else j in a && a[j].kind == Join
    ensures name !in a && forall x | x in a :: x in b
  {
  }

  lemma SettledBy(b: Steps, cur: string)
    requires Closed(b) && (forall p, q | p in b && q in b[p].parallel :: q in b && !Reaches(OnwardGraph(b), q, cur))
    requires forall j | j in b && b[j].kind == Join :: JoinRight(b, j)
    ensures Settled(b, cur)
  {
  }

  lemma SettledClosed(a: Steps, cur: string)
    requires Settled(a, cur)
    ensures Closed(a)
  {
  }

  /** A compensation step changes no flow. */
  lemma CompensationSettled(a: Steps, cur: string, name: string, d: StepDef)
    requires Settled(a, cur) && name !in a && cur in a && Onward(d) == [] && d.parallel == [] && d.kind == Task
    ensures Settled(a[name := d][cur := a[cur].(onFailure := name)], cur)
  {
    var b := a[name := d][cur := a[cur].(onFailure := name)];
    SettledClosed(a, cur);
    CompensationContinues(a, cur, name, d);
    hide Settled, Continues, Reaches, JoinRight, SameFork, Closed, Onward;
    forall p, q | p in b && q in b[p].parallel
      ensures q in b && !Reaches(OnwardGraph(b), q, cur)
    {
      assert p in a && q in a[p].parallel;
      BranchKept(a, b, cur, cur, p, q);
    }
    forall j | j in b && b[j].kind == Join
      ensures JoinRight(b, j)
    {
      JoinKept(a, b, cur, j);
    }
    SettledBy(b, cur);
  }

  lemma CompensationContinues(a: Steps, cur: string, name: string, d: StepDef)
    requires Closed(a) && name !in a && cur in a && Onward(d) == []
    ensures var b := a[name := d][cur := a[cur].(onFailure := name)];
            Continues(a, b, cur) && Closed(b) && forall j | j in a :: SameFork(a, b, j)
  {
    var b := a[name := d][cur := a[cur].(onFailure := name)];
    forall x, y | x in b && y in Onward(b[x])
      ensures y in b
    {
      assert x != name ==> y in Onward(a[x]);
    }
  }

  // ------------------------------------------------------------------ merging

  /** No join is filed behind the fork yet. */
  predicate NoJoinBehind(steps: Steps, fork: string) {
    forall j | j in steps && steps[j].kind == Join :: steps[j].prev != fork
  }

  /** Two step maps side by side: the outer one with a new definition of cur, the inner one
      with its start hung under cur. */
  predicate SideBySide(a: Steps, sub: Steps, start: string, b: Steps, cur: string, d: StepDef) {
    && a.Keys !! sub.Keys && b.Keys == a.Keys + sub.Keys && cur in a && start in sub
    && (forall x | x in a :: b[x] == if x == cur then d else a[x])
    && (forall x | x in sub :: b[x] == if x == start then sub[x].(prev := cur) else sub[x])
  }

  /** The hung part never leads out. */
  lemma StaysInside(a: Steps, sub: Steps, start: string, b: Steps, cur: string, d: StepDef, x: string)
    requires SideBySide(a, sub, start, b, cur, d) && Closed(sub) && x !in sub
    ensures !Reaches(OnwardGraph(b), start, x)
  {
    if Reaches(OnwardGraph(b), start, x) {
      forall y, z | y in sub && Edge(OnwardGraph(b), y, z)
        ensures z in sub
      {
        assert z in Onward(sub[y]);
      }
      ClosedContainsReachable(OnwardGraph(b), sub.Keys, start, x);
    }
  }

  lemma SideClosed(a: Steps, sub: Steps, start: string, b: Steps, cur: string, d: StepDef)
    requires SideBySide(a, sub, start, b, cur, d) && Closed(a) && Closed(sub)
    requires forall y | y in Onward(d) :: y in Onward(a[cur]) || y == start
    ensures Closed(b)
  {
    forall x, y | x in b && y in Onward(b[x])
      ensures y in b
    {
      if x in sub {
        assert y in Onward(sub[x]);
      } else {
        assert y in Onward(a[x]) || y == start;
      }
    }
  }

  /** The new definition of cur adds at most the link to the start of the inner map. */
  predicate Hangs(a: Steps, sub: Steps, start: string, b: Steps, cur: string, d: StepDef) {
    && SideBySide(a, sub, start, b, cur, d) && sub[start].kind != Join && d.kind == a[cur].kind
    && (forall y | y in Onward(d) :: y in Onward(a[cur]) || y == start)
    && (forall q | q in d.parallel :: q in a[cur].parallel || q == start)
    && (forall j | j in a && a[j].kind == Join :: SameFork(a, b, j))
  }

  /** Hanging one settled map under the current step of another leaves both settled. */
  lemma HangSettled(a: Steps, sub: Steps, start: string, b: Steps, cur: string, d: StepDef, inner: string)
    requires Hangs(a, sub, start, b, cur, d) && Settled(a, cur) && Settled(sub, inner)
    ensures Settled(b, cur)
  {
    hide Hangs, JoinRight, Reaches, Closed, Settled;
    HangClosed(a, sub, start, b, cur, d, inner);
    HangBranches(a, sub, start, b, cur, d, inner);
    HangJoins(a, sub, start, b, cur, d, inner);
    SettledBy(b, cur);
  }

  lemma HangClosed(a: Steps, sub: Steps, start: string, b: Steps, cur: string, d: StepDef, inner: string)
    requires Hangs(a, sub, start, b, cur, d) && Settled(a, cur) && Settled(sub, inner)
    ensures Closed(b)
  {
    SettledClosed(a, cur);
    SettledClosed(sub, inner);
    hide Settled, Closed, SameFork, Onward;
    SideClosed(a, sub, start, b, cur, d);
  }

  /** Whose branch it is. */
  lemma HangBranch(a: Steps, sub: Steps, start: string, b: Steps, cur: string, d: StepDef, p: string, q: string)
    requires Hangs(a, sub, start, b, cur, d) && p in b && q in b[p].parallel
    ensures (p in sub && q in sub[p].parallel) || (p in a && q in a[p].parallel) || q == start
  {
    hide SameFork, Onward;
  }

  lemma HangContinues(a: Steps, sub: Steps, start: string, b: Steps, cur: string, d: StepDef, inner: string)
    requires Hangs(a, sub, start, b, cur, d)
    ensures Continues(a, b, cur) && Continues(sub, b, inner) && a.Keys <= b.Keys && sub.Keys <= b.Keys
    ensures SideBySide(a, sub, start, b, cur, d) && cur !in sub && start in sub
  {
    hide SameFork, Onward;
  }

  lemma HangBranches(a: Steps, sub: Steps, start: string, b: Steps, cur: string, d: StepDef, inner: string)
    requires Hangs(a, sub, start, b, cur, d) && Settled(a, cur) && Settled(sub, inner)
    ensures forall p, q | p in b && q in b[p].parallel :: q in b && !Reaches(OnwardGraph(b), q, cur)
  {
    hide Settled, Closed, Reaches, Hangs, SideBySide, Continues;
    SettledClosed(sub, inner);
    HangContinues(a, sub, start, b, cur, d, inner);
    StaysInside(a, sub, start, b, cur, d, cur);
    forall p, q | p in b && q in b[p].parallel
      ensures q in b && !Reaches(OnwardGraph(b), q, cur)
    {
      HangBranch(a, sub, start, b, cur, d, p, q);
      if p in sub && q in sub[p].parallel {
        BranchKept(sub, b, inner, cur, p, q);
      } else if q != start {
        BranchKept(a, b, cur, cur, p, q);
      }
    }
  }

  /** Whose join it is. */
  lemma HangJoin(a: Steps, sub: Steps, start: string, b: Steps, cur: string, d: StepDef, j: string)
    requires Hangs(a, sub, start, b, cur, d) && j in b && b[j].kind == Join
    ensures || (j in sub && sub[j].kind == Join && SameFork(sub, b, j))
            || (j in a && a[j].kind == Join && SameFork(a, b, j))
  {
    hide Onward;
  }

  lemma HangJoins(a: Steps, sub: Steps, start: string, b: Steps, cur: string, d: StepDef, inner: string)
    requires Hangs(a, sub, start, b, cur, d) && Settled(a, cur) && Settled(sub, inner)
    ensures forall j | j in b && b[j].kind == Join :: JoinRight(b, j)
  {
    hide Settled, Hangs, SideBySide, Continues, JoinRight, SameFork;
    HangContinues(a, sub, start, b, cur, d, inner);
    forall j | j in b && b[j].kind == Join
      ensures JoinRight(b, j)
    {
      HangJoin(a, sub, start, b, cur, d, j);
      if j in sub && sub[j].kind == Join && SameFork(sub, b, j) {
        JoinKept(sub, b, inner, j);
      } else {
        JoinKept(a, b, cur, j);
      }
    }
  }

  /** A branch merged under a fork that no join follows yet. */
  lemma MergeSettled(b: BState, fork: string, sub: BState)
    requires b.steps.Keys !! sub.steps.Keys && sub.start in sub.steps && fork in b.steps && b.steps[fork].kind != Join
    requires Settled(b.steps, fork) && Settled(sub.steps, sub.current) && sub.steps[sub.start].kind != Join
    requires NoJoinBehind(b.steps, fork)
    ensures Settled(Merge(b, fork, sub).steps, fork) && NoJoinBehind(Merge(b, fork, sub).steps, fork)
  {
    var r := Merge(b, fork, sub).steps;
    var d := b.steps[fork].(parallel := b.steps[fork].parallel + [sub.start]);
    hide Settled, Merge, NoJoinBehind, SideBySide, Hangs;
    MergeBeside(b, fork, sub);
    InnerPrevs(sub.steps, sub.current);
    StillNothingBehind(b.steps, sub.steps, sub.start, r, fork, d);
    HangSettled(b.steps, sub.steps, sub.start, r, fork, d, sub.current);
  }

  lemma MergeBeside(b: BState, fork: string, sub: BState)
    requires b.steps.Keys !! sub.steps.Keys && sub.start in sub.steps && fork in b.steps && b.steps[fork].kind != Join
    requires NoJoinBehind(b.steps, fork) && sub.steps[sub.start].kind != Join
    ensures var r := Merge(b, fork, sub).steps;
            var d := b.steps[fork].(parallel := b.steps[fork].parallel + [sub.start]);
            SideBySide(b.steps, sub.steps, sub.start, r, fork, d) && Hangs(b.steps, sub.steps, sub.start, r, fork, d)
  {
    var d := b.steps[fork].(parallel := b.steps[fork].parallel + [sub.start]);
    MergeFields(b, fork, sub);
    var r := Merge(b, fork, sub).steps;
    assert SideBySide(b.steps, sub.steps, sub.start, r, fork, d);
    assert Onward(d) == Onward(b.steps[fork]);
    hide Merge, Onward;
  }

  lemma StillNothingBehind(a: Steps, sub: Steps, start: string, r: Steps, fork: string, d: StepDef)
    requires SideBySide(a, sub, start, r, fork, d) && d.kind != Join && NoJoinBehind(a, fork) && sub[start].kind != Join
    requires forall j | j in sub && sub[j].kind == Join :: sub[j].prev in sub
    ensures NoJoinBehind(r, fork)
  {
  }

  lemma InnerPrevs(sub: Steps, inner: string)
    requires Settled(sub, inner)
    ensures forall j | j in sub && sub[j].kind == Join :: sub[j].prev in sub
  {
    forall j | j in sub && sub[j].kind == Join
      ensures sub[j].prev in sub
    {
      assert JoinRight(sub, j);
    }
  }

  /** A condition behind the current step, with its else branch. */
  lemma ElseSettled(b: BState, name: string, sub: BState)
    requires b.steps.Keys !! sub.steps.Keys && sub.start in sub.steps && name !in b.steps && name !in sub.steps
    requires b.current in b.steps && b.current != ""
    requires Settled(b.steps, b.current) && Settled(sub.steps, sub.current) && sub.steps[sub.start].kind != Join
    ensures Settled(WithElse(b, name, sub).steps, name)
  {
    hide Settled, WithElse, Advance, Onward, Filed, Hangs;
    var plain := Bare(Condition, b.current);
    var a, r := Advance(b, name, plain).steps, WithElse(b, name, sub).steps;
    BareFlat(Condition, b.current);
    AdvanceFiles(b, name, plain);
    FiledSettled(b.steps, a, b.current, name, plain);
    ElseBeside(b, name, sub);
    HangSettled(a, sub.steps, sub.start, r, name, plain.(els := sub.start), sub.current);
  }

  lemma ElseBeside(b: BState, name: string, sub: BState)
    requires b.steps.Keys !! sub.steps.Keys && sub.start in sub.steps && name !in b.steps && name !in sub.steps
    requires b.current in b.steps && b.current != "" && sub.steps[sub.start].kind != Join
    ensures var plain := Bare(Condition, b.current);
            var a, r := Advance(b, name, plain).steps, WithElse(b, name, sub).steps;
            Hangs(a, sub.steps, sub.start, r, name, plain.(els := sub.start))
  {
    var plain := Bare(Condition, b.current);
    AdvanceFiles(b, name, plain);
    WithElseFields(b, name, sub);
    var a, r := Advance(b, name, plain).steps, WithElse(b, name, sub).steps;
    assert name in a && a[name] == plain && a.Keys !! sub.steps.Keys;
    assert r == a[name := plain.(els := sub.start)] + sub.steps[sub.start := sub.steps[sub.start].(prev := name)];
    hide WithElse, Advance;
    PlacedBeside(a, sub.steps, sub.start, name, plain.(els := sub.start));
  }

  lemma PlacedBeside(a: Steps, sub: Steps, start: string, cur: string, d: StepDef)
    requires a.Keys !! sub.Keys && cur in a && start in sub && d == a[cur].(els := start) && a[cur].els == ""
             && sub[start].kind != Join
    ensures Hangs(a, sub, start, a[cur := d] + sub[start := sub[start].(prev := cur)], cur, d)
  {
    var r := a[cur := d] + sub[start := sub[start].(prev := cur)];
    assert SideBySide(a, sub, start, r, cur, d);
    assert forall j | j in a :: SameFork(a, r, j);
    assert forall y | y in Onward(d) :: y in Onward(a[cur]) || y == start;
  }

  // ------------------------------------------------------------------ programs

  lemma BareJoin(b: BState, t: Tree, strategy: JoinStrategy)
    requires Grows(b, t) && b.current in b.steps
    ensures RightLeaf(b.steps, b.current, Bare(Join, b.current).(waitFor := WaitList(b), strategy := strategy))
  {
    var d := b.steps[b.current];
    hide AwaitedRight, AwaitedIn, Valid;
    if IsFork(d) {
      forall i | 0 <= i < |d.parallel|
        ensures AwaitedRight(b.steps, d.parallel[i], AwaitedIn(b.steps, d.parallel[i]))
      {
        BranchRight(t, b.current, i);
      }
    }
  }

  lemma BranchRight(t: Tree, p: string, i: nat)
    requires Valid(t) && p in t.depth && p in t.steps && i < |t.steps[p].parallel|
    ensures AwaitedRight(t.steps, t.steps[p].parallel[i], AwaitedIn(t.steps, t.steps[p].parallel[i]))
  {
    var q := t.steps[p].parallel[i];
    assert Children(t.steps[p])[i] == q;
    UnderChild(t, p, q, q);
    hide Valid, AwaitedRight, AwaitedIn;
    AwaitedInRight(t, q);
  }

  /** A call without branches. */
  lemma SimpleSettled(b: BState, t: Tree, c: Cmd, b': BState)
    requires Grows(b, t) && ValidName(c.name) && c.name !in b.steps && !Nested(c) && ExecCmd(b, c) == Some(b')
    requires Settled(b.steps, b.current)
    ensures Settled(b'.steps, b'.current)
  {
    GrowsParts(b, t);
    SimpleResult(b, c, b');
    LeafFlat(b, c);
    var d := LeafOf(b, c);
    if c.JoinCmd? {
      BareJoin(b, t, d.strategy);
    }
    hide Grows, ExecCmd, LeafOf, Settled, RightLeaf, Onward;
    if c.OnFailureCmd? {
      CompensationSettled(b.steps, b.current, c.name, d);
    } else {
      AdvanceFiles(b, c.name, d);
      FiledSettled(b.steps, b'.steps, b.current, c.name, d);
    }
  }

  lemma LeafFlat(b: BState, c: Cmd)
    requires b.current in b.steps && !Nested(c)
    ensures var d := LeafOf(b, c);
            && Onward(d) == [] && d.parallel == [] && (c.OnFailureCmd? ==> d.kind == Task)
            && (d.kind == Join <==> c.JoinCmd?)
            && (c.JoinCmd? ==> d == Bare(Join, b.current).(waitFor := WaitList(b), strategy := d.strategy))
  {
    hide WaitList;
  }

  lemma {:induction false} CmdSettled(b: BState, t: Tree, c: Cmd, used: set<string>, b': BState)
    requires Grows(b, t) && CmdProper(c) && CmdFresh(c, used) && b.steps.Keys <= used && ExecCmd(b, c) == Some(b')
    requires Settled(b.steps, b.current)
    ensures Settled(b'.steps, b'.current)
    decreases c, 0
  {
    hide Valid, Settled, BuildOk, WaitList;
    assert ValidName(c.name) && c.name !in b.steps;
    match c
    case ForkCmd(name, branches) => ForkSettled(b, t, c, used, b');
    case ConditionCmd(name, expr, Some(p)) => ConditionSettled(b, t, c, used, b');
    case _ =>
      hide ExecCmd;
      SimpleSettled(b, t, c, b');
  }

  lemma {:induction false} ForkSettled(b: BState, t: Tree, c: Cmd, used: set<string>, b': BState)
    requires Grows(b, t) && CmdProper(c) && CmdFresh(c, used) && b.steps.Keys <= used && c.ForkCmd?
             && ExecCmd(b, c) == Some(b')
    requires Settled(b.steps, b.current)
    ensures Settled(b'.steps, b'.current)
    decreases c, 0, 0
  {
    hide Valid, BuildOk, CmdProper, CmdFresh, ProgsProper, ProgsFresh, ValidName, ExecCmd, ExecBranches, Advance,
         Settled, Filed, Unlinked, Onward, NoJoinBehind;
    ForkParts(c, used);
    ValidParted(c.name);
    GrowsParts(b, t);
    var d := Bare(Fork, b.current);
    BareFlat(Fork, b.current);
    BareUnlinked(Fork, b.current);
    AdvanceFiles(b, c.name, d);
    FiledSettled(b.steps, Advance(b, c.name, d).steps, b.current, c.name, d);
    NothingBehind(b.steps, Advance(b, c.name, d).steps, b.current, c.name, d);
    var t1 := AdvanceGrows(b, t, c.name, d);
    ForkFiled(b, c, b');
    BranchesSettled(Advance(b, c.name, d), t1, c.name, c.branches, used + {c.name}, b');
  }

  lemma BareFlat(kind: StepType, prev: string)
    ensures Onward(Bare(kind, prev)) == []
  {
  }

  /** No join is behind a step just filed. */
  lemma NothingBehind(a: Steps, b: Steps, cur: string, name: string, d: StepDef)
    requires Settled(a, cur) && Filed(a, b, cur, name, d) && d.kind != Join
    ensures NoJoinBehind(b, name)
  {
    InnerPrevs(a, cur);
    hide Settled;
  }

  lemma {:induction false} ConditionSettled(b: BState, t: Tree, c: Cmd, used: set<string>, b': BState)
    requires Grows(b, t) && CmdProper(c) && CmdFresh(c, used) && b.steps.Keys <= used
    requires c.ConditionCmd? && c.els.Some? && ExecCmd(b, c) == Some(b') && Settled(b.steps, b.current)
    ensures Settled(b'.steps, b'.current)
    decreases c, 0, 0
  {
    hide Valid, Exec, ExecCmd, WithElse, Settled, BuildOk, CmdProper, CmdFresh, Opened, Fresh, ValidName;
    GrowsParts(b, t);
    ElseParts(c, used);
    var p, name := c.els.value, c.name;
    var b0, sub := ConditionResult(b, c, b');
    OpenedSettled(b0, p, used + {name}, sub);
    NamesAreFresh(p, used + {name});
    ElseSettled(b, name, sub);
    WithElseCurrent(b, name, sub);
  }

  lemma WithElseCurrent(b: BState, name: string, sub: BState)
    requires sub.start in sub.steps
    ensures WithElse(b, name, sub).current == name
  {
  }

  lemma {:induction false} BranchesSettled(b: BState, t: Tree, fork: string, ps: Progs, used: set<string>, b': BState)
    requires Grows(b, t) && b.current == fork && fork in b.steps && IsFork(b.steps[fork])
    requires ProgsProper(ps) && ProgsFresh(ps, used) && b.steps.Keys <= used && ExecBranches(b, fork, ps) == Some(b')
    requires Settled(b.steps, fork) && NoJoinBehind(b.steps, fork)
    ensures Settled(b'.steps, b'.current)
    decreases ps, 1
  {
    hide Valid, BuildOk, Settled, NoJoinBehind;
    match ps
    case NoProgs =>
    case MoreProgs(p, rest) =>
      var b0 := EmptyBuilder(b.name + "_branch_", b.nesting + 1, b.defaultMaxRetries);
      var sub := Exec(b0, p).value;
      OpenedSettled(b0, p, used, sub);
      var st := OpenedGrows(b0, p, used, sub);
      var t1 := MergeGrows(b, t, fork, sub, st);
      MergeSettled(b, fork, sub);
      BranchesSettled(Merge(b, fork, sub), t1, fork, rest, used + Names(p), b');
  }

  lemma {:induction false} ProgSettled(b: BState, t: Tree, p: Prog, used: set<string>, b': BState)
    requires Grows(b, t) && Proper(p) && Fresh(p, used) && b.steps.Keys <= used && Exec(b, p) == Some(b')
    requires Settled(b.steps, b.current)
    ensures Settled(b'.steps, b'.current)
    decreases p, 1
  {
    hide Valid, BuildOk, Settled;
    match p
    case End =>
    case Then(c, rest) =>
      var b1 := ExecCmd(b, c).value;
      CmdSettled(b, t, c, used, b1);
      var t1 := CmdGrows(b, t, c, used, b1);
      ProgSettled(b1, t1, rest, used + CmdNames(c), b');
  }

  /** The call that opens a builder. */
  lemma {:induction false} FirstSettled(b: BState, c: Cmd, used: set<string>, b': BState)
    requires IsEmpty(b) && (c.StepCmd? || c.ForkCmd?) && CmdProper(c) && CmdFresh(c, used) && ExecCmd(b, c) == Some(b')
    ensures Settled(b'.steps, b'.current)
    decreases c, 0
  {
    assert ValidName(c.name);
    assert Settled(map[], "");
    var d := if c.StepCmd? then TaskStep(b, c.handler, b.current, c.opts) else Bare(Fork, b.current);
    var o := Opening(b, c.name, d);
    TaskFlat(b, c, d);
    AdvanceFiles(b.(start := c.name), c.name, d.(prev := ROOT_STEP));
    hide Settled, BuildOk, TaskStep, Valid, Advance;
    FiledSettled(map[], o.steps, "", c.name, d.(prev := ROOT_STEP));
    NothingBehind(map[], o.steps, "", c.name, d.(prev := ROOT_STEP));
    if c.ForkCmd? {
      BareUnlinked(Fork, b.current);
      var t0 := OpeningGrows(b, c.name, d);
      assert ProgsProper(c.branches) && ProgsFresh(c.branches, used + {c.name});
      BranchesSettled(o, t0, c.name, c.branches, used + {c.name}, b');
    }
  }

  lemma TaskFlat(b: BState, c: Cmd, d: StepDef)
    requires d == (if c.StepCmd? then TaskStep(b, c.handler, b.current, c.opts) else Bare(Fork, b.current))
    ensures Onward(d.(prev := ROOT_STEP)) == [] && d.parallel == [] && d.kind == if c.StepCmd? then Task else Fork
  {
  }

  lemma {:induction false} OpenedSettled(b: BState, p: Prog, used: set<string>, b': BState)
    requires IsEmpty(b) && Opened(p) && Fresh(p, used) && Exec(b, p) == Some(b')
    ensures Settled(b'.steps, b'.current) && b'.start in b'.steps && b'.steps[b'.start].kind != Join
    ensures b'.steps.Keys == Names(p)
    decreases p, 2
  {
    var c := p.cmd;
    assert CmdProper(c) && ValidName(c.name) && CmdFresh(c, used) && Proper(p.rest);
    hide Valid, BuildOk, Settled;
    var b1 := ExecCmd(b, c).value;
    FirstSettled(b, c, used, b1);
    var t1 := FirstGrows(b, c, used, b1);
    ProgSettled(b1, t1, p.rest, used + CmdNames(c), b');
    StartsWell(b, p, used, b');
  }

  lemma StartsWell(b: BState, p: Prog, used: set<string>, b': BState)
    requires IsEmpty(b) && Opened(p) && Fresh(p, used) && Exec(b, p) == Some(b')
    ensures b'.start in b'.steps && b'.steps[b'.start].kind != Join && b'.steps.Keys == Names(p)
  {
    StartedOpened(p);
    EmptyHeaded(b);
    hide Exec, Headed, Opened;
    ExecHeaded(b, p, used, b');
    var t := OpenedGrows(b, p, used, b');
    GrowsParts(b', t);
    HeadedStart(b'.steps, b'.start);
  }

  lemma HeadedStart(steps: Steps, start: string)
    requires Headed(steps, start) && start in steps && start != ""
    ensures steps[start].kind != Join
  {
  }

  // ------------------------------------------------------------------ finished definitions

  /** The join stands behind a fork and waits for exactly one entry per branch, the right one,
      and no entry twice. */
  ghost predicate WaitsForBranches(steps: Steps, j: string)
    requires j in steps
  {
    var p, ws := steps[j].prev, steps[j].waitFor;
    && p in steps && IsFork(steps[p]) && |ws| == |steps[p].parallel| && Distinct(ws)
    && forall i | 0 <= i < |ws| :: AwaitedRight(steps, steps[p].parallel[i], ws[i])
  }

  /** A join that is no child of a fork would wait for its own predecessor. */
  lemma JoinBehindFork(b: BState, t: Tree, j: string)
    requires Grows(b, t) && BuildOk(b) && Headed(b.steps, b.start) && j in b.steps && b.steps[j].kind == Join
             && JoinRight(b.steps, j)
    ensures b.steps[j].prev in t.depth && IsFork(b.steps[b.steps[j].prev])
  {
    var p := b.steps[j].prev;
    JoinInTree(b, t, j);
    assert HeadsOf(b.steps, b.steps[p]);
    assert j in b.steps[p].next;
    ValidAt(t, p);
    GrowsParts(b, t);
    if !IsFork(b.steps[p]) {
      assert b.steps[j].waitFor == [p];
      assert b.steps[p].prev != "";
      assert Knot(b.steps, p, j);
      hide Valid, BuildOk;
      SpoiledFails(b, t);
    }
  }

  lemma JoinInTree(b: BState, t: Tree, j: string)
    requires Grows(b, t) && j in b.steps && b.steps[j].prev in b.steps && Headed(b.steps, b.start)
             && b.steps[j].kind == Join
    ensures b.steps[j].prev in t.depth && j in Children(b.steps[b.steps[j].prev])
  {
    GrowsParts(b, t);
    if j !in t.depth {
      DetachedAt(t, j);
    }
    HeadedStart(b.steps, b.start);
    ValidAt(t, j);
  }

  lemma EntriesDistinct(t: Tree, p: string, ws: seq<string>)
    requires Valid(t) && p in t.depth && p in t.steps && (forall x | x in t.steps :: ValidName(x))
    requires |ws| == |t.steps[p].parallel| && forall i | 0 <= i < |ws| ::
               AwaitedRight(t.steps, t.steps[p].parallel[i], ws[i])
    ensures Distinct(ws)
  {
    ValidAt(t, p);
    var starts := t.steps[p].parallel;
    hide Valid, AwaitedRight;
    assert forall i | 0 <= i < |starts| :: starts[i] == Children(t.steps[p])[i];
    forall i, j | 0 <= i < j < |ws|
      ensures ws[i] != ws[j]
    {
      assert starts[i] in Children(t.steps[p]) && starts[j] in Children(t.steps[p]);
      if ws[i] == ws[j] {
        AwaitedApart(t, starts[i], starts[j], ws[i]);
      }
    }
  }

  /** In every definition that Build accepts, every join, however deeply nested, stands behind
      a fork and waits for each of its branches. */
  lemma FinishedJoinsWait(b: BState, p: Prog, b': BState)
    requires IsEmpty(b) && Started(p) && Fresh(p, {}) && Exec(b, p) == Some(b') && BuildOk(b')
    ensures forall j | j in b'.steps && b'.steps[j].kind == Join :: WaitsForBranches(b'.steps, j)
  {
    AcceptedNamesValid(b, p, b');
    StartedOpened(p);
    EmptyHeaded(b);
    hide Exec, Started;
    OpenedSettled(b, p, {}, b');
    ExecHeaded(b, p, {}, b');
    var t := OpenedGrows(b, p, {}, b');
    assert forall x | x in b'.steps :: ValidName(x);
    hide BuildOk, Headed, Opened, Fresh, Names, ValidName, Valid, AwaitedRight, Reaches, Closed, Quiet;
    forall j | j in b'.steps && b'.steps[j].kind == Join
      ensures WaitsForBranches(b'.steps, j)
    {
      assert JoinRight(b'.steps, j);
      JoinBehindFork(b', t, j);
      EntriesDistinct(t, b'.steps[j].prev, b'.steps[j].waitFor);
    }
  }
}
