/** What the engine's searches along Prev find in the tree of a definition: conditions, forks, joins
    and siblings. */
module EngineBranches {
  import opened Definitions
  import opened Graphs
  import opened Trees
  import opened Store
  import R = Reachability
  import opened Engine
  import opened EngineRuns

  /** c is the closest step of the kind at or above x. */
  predicate ClosestOf(t: Tree, kind: StepType, x: string, c: string)
    requires Valid(t) && x in t.depth
  {
    if c == "" then forall a | a in t.depth && Under(t, x, a) :: a in t.steps && t.steps[a].kind != kind
    else
      && c in t.depth && c in t.steps && t.steps[c].kind == kind && Under(t, x, c)
      && forall a | a in t.depth && Under(t, x, a) && a in t.steps && t.steps[a].kind == kind :: Under(t, c, a)
  }

  /** ... above x; a step at the start has nothing above it. */
  predicate ClosestAbove(t: Tree, kind: StepType, x: string, c: string)
    requires Valid(t) && x in t.depth
  {
    if x == t.start then c == ""
    else HasParent(t, x) && ClosestOf(t, kind, t.steps[x].prev, c)
  }

  lemma ClosestHere(t: Tree, kind: StepType, x: string)
    requires Valid(t) && x in t.depth && x in t.steps && t.steps[x].kind == kind && x != ""
    ensures ClosestOf(t, kind, x, x)
  {
    SelfUnder(t, x);
    hide Valid;
  }

  lemma ClosestHigher(t: Tree, kind: StepType, x: string, c: string)
    requires Valid(t) && x in t.depth && x in t.steps && t.steps[x].kind != kind && ClosestAbove(t, kind, x, c)
    ensures ClosestOf(t, kind, x, c)
  {
    ValidAt(t, x);
    RootedParts(t);
    forall a
      ensures Under(t, x, a) <==> x == a || (x != t.start && Under(t, t.steps[x].prev, a))
    {
    }
    hide Valid, Under;
  }

  lemma RootedParts(t: Tree)
    requires Valid(t)
    ensures t.depth.Keys <= t.steps.Keys && "" !in t.steps && ROOT_STEP !in t.steps
    ensures t.start in t.depth && t.steps[t.start].prev == ROOT_STEP
  {
  }

  /** Nothing at or above x was visited. */
  predicate Ahead(t: Tree, x: string, visited: set<string>)
    requires Valid(t) && x in t.depth
  {
    forall v | v in visited :: !Under(t, x, v)
  }

  lemma AheadAbove(t: Tree, x: string, visited: set<string>)
    requires Valid(t) && x in t.depth && x != t.start && Ahead(t, x, visited)
    ensures HasParent(t, x) && Ahead(t, t.steps[x].prev, visited + {x})
  {
    hide Valid, Under, HasParent;
    UnderPrev(t, x, x);
    forall v | v in visited + {x}
      ensures !Under(t, t.steps[x].prev, v)
    {
      UnderPrev(t, x, v);
    }
  }

  lemma UnderPrev(t: Tree, x: string, a: string)
    requires Valid(t) && x in t.depth && x != t.start
    ensures x in t.steps && HasParent(t, x) && t.steps[x].prev in t.depth
    ensures Under(t, x, a) <==> x == a || Under(t, t.steps[x].prev, a)
    ensures !Under(t, t.steps[x].prev, x)
  {
    ValidAt(t, x);
    if Under(t, t.steps[x].prev, x) {
      UnderDepth(t, t.steps[x].prev, x);
    }
  }

  lemma NothingVisited(t: Tree, x: string)
    requires Valid(t) && x in t.depth
    ensures Ahead(t, x, {})
  {
  }

  // ------------------------------------------------------------------ conditions

  lemma {:induction false} ConditionFromHere(t: Tree, x: string, visited: set<string>)
    requires Valid(t) && x in t.depth && Ahead(t, x, visited)
    ensures ClosestOf(t, Condition, x, ConditionAbove(t.steps, x, visited))
    decreases t.depth[x]
  {
    RootedParts(t);
    SelfUnder(t, x);
    if t.steps[x].kind == Condition {
      ClosestHere(t, Condition, x);
    } else {
      if x != t.start {
        AheadAbove(t, x, visited);
        ConditionFromHere(t, t.steps[x].prev, visited + {x});
      }
      hide Valid, Under, ClosestOf;
      ClosestHigher(t, Condition, x, ConditionAbove(t.steps, t.steps[x].prev, visited + {x}));
    }
  }

  /** The search finds the closest condition above a step. */
  lemma ConditionFound(t: Tree, x: string)
    requires Valid(t) && x in t.depth
    ensures x in t.steps && ClosestAbove(t, Condition, x, ConditionAbove(t.steps, t.steps[x].prev, {}))
  {
    RootedParts(t);
    if x != t.start {
      ValidAt(t, x);
      NothingVisited(t, t.steps[x].prev);
      hide Valid, Under, ClosestOf;
      ConditionFromHere(t, t.steps[x].prev, {});
    }
  }

  // ------------------------------------------------------------------ forks

  /** The step begins a branch of the fork. */
  predicate Begins(steps: Steps, fork: string, n: string) {
    fork in steps && steps[fork].kind == Fork && n in steps[fork].parallel
  }

  lemma {:induction false} ForkOfIs(steps: Steps, order: seq<string>, n: string)
    requires "" !in order
    ensures ForkOf(steps, order, n) != "" ==> Begins(steps, ForkOf(steps, order, n), n)
    ensures ForkOf(steps, order, n) == "" ==> forall f | f in order :: !Begins(steps, f, n)
  {
    if order != [] {
      ForkOfIs(steps, order[1..], n);
      assert order == [order[0]] + order[1..];
    }
  }

  /** In a tree a step begins a branch of its parent or of none. */
  lemma BeginsBelow(t: Tree, x: string, f: string)
    requires Valid(t) && x in t.depth && Begins(t.steps, f, x)
    ensures f in t.depth && x != t.start && t.steps[x].prev == f
  {
    assert x in Children(t.steps[f]);
    if f !in t.depth {
      DetachedAt(t, f);
    }
    UnderChild(t, f, x, f);
    ValidAt(t, f);
  }

  lemma BeginsFound(t: Tree, order: seq<string>, x: string)
    requires Valid(t) && x in t.depth && Enumerates(order, t.steps)
    ensures ForkOf(t.steps, order, x) != "" ==>
              x != t.start && HasParent(t, x) && ForkOf(t.steps, order, x) == t.steps[x].prev
              && t.steps[t.steps[x].prev].kind == Fork && x in t.steps[t.steps[x].prev].parallel
    ensures ForkOf(t.steps, order, x) == "" ==> forall f :: !Begins(t.steps, f, x)
  {
    RootedParts(t);
    assert forall f :: f in order <==> f in Elements(order);
    ForkOfIs(t.steps, order, x);
    var f := ForkOf(t.steps, order, x);
    if f != "" {
      BeginsBelow(t, x, f);
      ValidAt(t, x);
    }
  }

  lemma {:induction false} ForkFromHere(t: Tree, order: seq<string>, x: string, visited: set<string>)
    requires Valid(t) && x in t.depth && Ahead(t, x, visited) && Enumerates(order, t.steps)
    ensures ClosestOf(t, Fork, x, ForkAbove(t.steps, order, x, visited))
    decreases t.depth[x]
  {
    hide Valid, Under, ClosestOf, ForkOf, ForkAbove, Ahead, HasParent;
    RootedParts(t);
    NotVisited(t, x, visited);
    ForkAboveUnfold(t.steps, order, x, visited);
    if t.steps[x].kind == Fork {
      ClosestHere(t, Fork, x);
    } else {
      BeginsFound(t, order, x);
      ParentFacts(t, x);
      if ForkOf(t.steps, order, x) != "" {
        ClosestHere(t, Fork, t.steps[x].prev);
      } else if x != t.start {
        AheadAbove(t, x, visited);
        ForkFromHere(t, order, t.steps[x].prev, visited + {x});
      }
      ClosestHigher(t, Fork, x, ForkAbove(t.steps, order, x, visited));
    }
  }

  lemma NotVisited(t: Tree, x: string, visited: set<string>)
    requires Valid(t) && x in t.depth && Ahead(t, x, visited)
    ensures x !in visited
  {
    SelfUnder(t, x);
  }

  lemma ParentFacts(t: Tree, x: string)
    requires Valid(t) && x in t.depth
    ensures x in t.steps
    ensures x != t.start ==>
              && HasParent(t, x) && t.steps[x].prev in t.depth && t.steps[x].prev in t.steps
              && t.depth[t.steps[x].prev] < t.depth[x] && t.steps[x].prev != ""
  {
    ValidAt(t, x);
    RootedParts(t);
    hide Valid;
  }

  lemma ForkAboveUnfold(steps: Steps, order: seq<string>, x: string, visited: set<string>)
    requires x in steps && x !in visited && x != "" && x != ROOT_STEP
    ensures ForkAbove(steps, order, x, visited) ==
            if steps[x].kind == Fork then x
            else if ForkOf(steps, order, x) != "" then ForkOf(steps, order, x)
            else ForkAbove(steps, order, steps[x].prev, visited + {x})
    ensures steps[x].prev == ROOT_STEP ==> ForkAbove(steps, order, steps[x].prev, visited + {x}) == ""
  {
  }

  /** The search finds the closest fork above a step. */
  lemma ForkFound(t: Tree, order: seq<string>, x: string)
    requires Valid(t) && x in t.depth && Enumerates(order, t.steps)
    ensures x in t.steps && ClosestAbove(t, Fork, x, ForkAround(t.steps, order, x))
  {
    RootedParts(t);
    BeginsFound(t, order, x);
    if ForkOf(t.steps, order, x) != "" {
      ClosestHere(t, Fork, t.steps[x].prev);
    } else if x != t.start {
      ValidAt(t, x);
      NothingVisited(t, t.steps[x].prev);
      ForkFromHere(t, order, t.steps[x].prev, {});
    }
    hide Valid, Under, ClosestOf, ForkOf;
  }

  /** The first join of a list of names. */
  lemma {:induction false} FirstJoinIs(steps: Steps, names: seq<string>)
    requires "" !in names
    ensures FirstJoin(steps, names) == "" <==> forall n | n in names :: n !in steps || steps[n].kind != Join
    ensures FirstJoin(steps, names) != "" ==>
              exists k | 0 <= k < |names| ::
                && names[k] == FirstJoin(steps, names) && names[k] in steps && steps[names[k]].kind == Join
                && forall l | 0 <= l < k :: names[l] !in steps || steps[names[l]].kind != Join
  {
    if names != [] {
      var rest := names[1..];
      FirstJoinIs(steps, rest);
      assert names == [names[0]] + rest;
      if !(names[0] in steps && steps[names[0]].kind == Join) && FirstJoin(steps, rest) != "" {
        var k :| 0 <= k < |rest| && rest[k] == FirstJoin(steps, rest) && rest[k] in steps && steps[rest[k]].kind == Join
                 && forall l | 0 <= l < k :: rest[l] !in steps || steps[rest[l]].kind != Join;
        assert names[k + 1] == rest[k];
        forall l | 0 <= l < k + 1
          ensures names[l] !in steps || steps[names[l]].kind != Join
        {
          assert l > 0 ==> names[l] == rest[l - 1];
        }
      }
    }
  }

  // ------------------------------------------------------------------ siblings

  /** In a tree the steps of a fork's branches are those below the first steps of its branches. */
  lemma InBranchIs(t: Tree, f: string, n: string)
    requires Valid(t) && f in t.depth && f in t.steps && n in t.depth
    ensures InBranch(t.steps, t.steps[f], n) <==> exists p | p in t.steps[f].parallel :: Under(t, n, p)
  {
    RootedParts(t);
    ValidAt(t, f);
    forall p | p in t.steps[f].parallel
      ensures p in t.steps && (Reaches(R.PrevGraph(t.steps), n, p) <==> Under(t, n, p)) && (n == p ==> Under(t, n, p))
    {
      assert p in Children(t.steps[f]);
      R.ChainIffUnder(t, n, p);
    }
    hide Valid, Under, Reaches, R.PrevGraph;
  }

  /** After the final failure of a step that begins a branch of a fork, exactly the other pending
      and running steps in the branches of that fork are skipped; a failure anywhere else skips
      none. */
  lemma SiblingsAre(s: State, i: int, t: Tree, name: string, order: seq<string>)
    requires Valid(t) && name in t.depth && Enumerates(order, t.steps)
    requires forall x | x in IdsOf(s, i) && x in s.steps :: s.steps[x].name in t.depth
    ensures name in t.steps
    ensures forall x :: x in Siblings(s, i, name, t.steps, order) <==>
              && x in IdsOf(s, i) && x in s.steps && s.steps[x].name != name
              && (s.steps[x].status == Pending || s.steps[x].status == Running)
              && name != t.start && Begins(t.steps, t.steps[name].prev, name)
              && exists p | p in t.steps[t.steps[name].prev].parallel :: Under(t, s.steps[x].name, p)
  {
    RootedParts(t);
    BeginsFound(t, order, name);
    var f := t.steps[name].prev;
    if ForkOf(t.steps, order, name) != "" {
      forall x | x in IdsOf(s, i) && x in s.steps
        ensures InBranch(t.steps, t.steps[f], s.steps[x].name) <==>
                exists p | p in t.steps[f].parallel :: Under(t, s.steps[x].name, p)
      {
        InBranchIs(t, f, s.steps[x].name);
      }
    }
    hide Valid, Under, ForkOf, InBranch, Enumerates;
  }

  /** A step ends a branch if it is no join, has no Next, and lies below some fork. */
  lemma EndsBranchIs(t: Tree, order: seq<string>, x: string)
    requires Valid(t) && x in t.depth && Enumerates(order, t.steps)
    ensures x in t.steps
    ensures EndsBranch(t.steps, order, x) <==>
            && t.steps[x].kind != Join && t.steps[x].next == []
            && exists a | a in t.depth :: a != x && Under(t, x, a) && a in t.steps && t.steps[a].kind == Fork
  {
    ForkFound(t, order, x);
    var f := ForkAround(t.steps, order, x);
    RootedParts(t);
    if x == t.start {
      StartAlone(t);
    } else {
      UnderPrev(t, x, x);
      forall a
        ensures Under(t, x, a) <==> x == a || Under(t, t.steps[x].prev, a)
      {
        UnderPrev(t, x, a);
      }
    }
    hide Valid, Under, ForkAround;
  }

  lemma StartAlone(t: Tree)
    requires Valid(t)
    ensures forall a :: Under(t, t.start, a) <==> a == t.start
  {
    RootedParts(t);
  }

  /** The fork of the first awaited step that exists and begins a branch. */
  lemma {:induction false} ForkAwaitedIs(steps: Steps, order: seq<string>, waitFor: seq<string>, recs: seq<StepRec>)
    ensures var f := ForkAwaited(steps, order, waitFor, recs);
            if f == "" then forall k | 0 <= k < |waitFor| :: !Counts(steps, order, waitFor[k], recs)
            else exists k | 0 <= k < |waitFor| ::
                   && Counts(steps, order, waitFor[k], recs) && ForkOf(steps, order, waitFor[k]) == f
                   && forall l | 0 <= l < k :: !Counts(steps, order, waitFor[l], recs)
  {
    hide ForkOf;
    if waitFor != [] {
      var rest := waitFor[1..];
      ForkAwaitedIs(steps, order, rest, recs);
      assert waitFor == [waitFor[0]] + rest;
      var f := ForkAwaited(steps, order, rest, recs);
      if !Counts(steps, order, waitFor[0], recs) && f != "" {
        var k :| 0 <= k < |rest| && Counts(steps, order, rest[k], recs) && ForkOf(steps, order, rest[k]) == f
                 && forall l | 0 <= l < k :: !Counts(steps, order, rest[l], recs);
        assert waitFor[k + 1] == rest[k];
        forall l | 0 <= l < k + 1
          ensures !Counts(steps, order, waitFor[l], recs)
        {
          assert l > 0 ==> waitFor[l] == rest[l - 1];
        }
      }
      hide Counts;
    }
  }

  /** The awaited step exists and begins a branch. */
  predicate Counts(steps: Steps, order: seq<string>, n: string, recs: seq<StepRec>) {
    (exists r | r in recs :: r.name == n) && ForkOf(steps, order, n) != ""
  }

  /** A join has to wait for its branches: some pending or running step below a first step of a
      branch of that fork is not awaited itself. */
  lemma BranchPendingIs(t: Tree, order: seq<string>, join: StepDef, recs: seq<StepRec>)
    requires Valid(t) && Enumerates(order, t.steps) && forall r | r in recs :: r.name in t.depth
    ensures var f := ForkAwaited(t.steps, order, join.waitFor, recs);
            BranchPending(t.steps, order, join, recs) <==>
            && f != "" && f in t.steps
            && exists r, p | r in recs && p in t.steps[f].parallel ::
                 (r.status == Pending || r.status == Running) && Under(t, r.name, p) && r.name !in join.waitFor
  {
    var f := ForkAwaited(t.steps, order, join.waitFor, recs);
    RootedParts(t);
    ForkAwaitedIs(t.steps, order, join.waitFor, recs);
    if f != "" {
      var k :| 0 <= k < |join.waitFor| && Counts(t.steps, order, join.waitFor[k], recs)
               && ForkOf(t.steps, order, join.waitFor[k]) == f;
      var r :| r in recs && r.name == join.waitFor[k];
      BeginsFound(t, order, r.name);
      ParentFacts(t, r.name);
      hide Valid, Under, ForkOf, ForkAwaited, Enumerates;
      PendingIn(t, f, join, recs);
    }
  }

  lemma PendingIn(t: Tree, f: string, join: StepDef, recs: seq<StepRec>)
    requires Valid(t) && f in t.depth && f in t.steps && forall r | r in recs :: r.name in t.depth
    ensures (exists r | r in recs :: (r.status == Pending || r.status == Running)
                                     && InBranch(t.steps, t.steps[f], r.name) && r.name !in join.waitFor)
            <==> exists r, p | r in recs && p in t.steps[f].parallel ::
                   (r.status == Pending || r.status == Running) && Under(t, r.name, p) && r.name !in join.waitFor
  {
    forall r | r in recs
      ensures InBranch(t.steps, t.steps[f], r.name) <==> exists p | p in t.steps[f].parallel :: Under(t, r.name, p)
    {
      InBranchIs(t, f, r.name);
    }
    hide Valid, Under, InBranch;
  }
}
