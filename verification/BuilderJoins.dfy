/** What a join behind a fork waits for. */
module BuilderJoins {
  import opened Definitions
  import opened Graphs
  import opened Trees
  import opened Builder
  import opened BuilderTrees

  /** The links along which a branch is searched. */
  function OnwardGraph(steps: Steps): Graph {
    map x | x in steps :: Elements(Onward(steps[x]))
  }

  predicate IsCondition(steps: Steps, c: string) {
    c in steps && steps[c].kind == Condition
  }

  predicate IsTerminal(steps: Steps, c: string) {
    c in steps && steps[c].next == []
  }

  lemma ReachesStep(g: Graph, a: string, b: string, c: string)
    requires Edge(g, a, b) && Reaches(g, b, c)
    ensures Reaches(g, a, c)
  {
    ReachesEdge(g, a, b);
    ReachesTrans(g, a, b, c);
  }

  // ------------------------------------------------------------------ conditions

  lemma {:induction false} ConditionFound(steps: Steps, name: string, v: set<string>)
    requires SeekCondition(steps, name, v).0 != ""
    ensures IsCondition(steps, SeekCondition(steps, name, v).0)
    ensures Reaches(OnwardGraph(steps), name, SeekCondition(steps, name, v).0)
    decreases steps.Keys - v, 0, 0
  {
    var g := OnwardGraph(steps);
    if steps[name].kind == Condition {
      ReachesRefl(g, name);
    } else {
      var n := ConditionFoundIn(steps, Onward(steps[name]), v + {name});
      assert Edge(g, name, n);
      ReachesStep(g, name, n, SeekCondition(steps, name, v).0);
    }
  }

  lemma {:induction false} ConditionFoundIn(steps: Steps, names: seq<string>, v: set<string>) returns (n: string)
    requires SeekConditionAll(steps, names, v).0 != ""
    ensures n in names && IsCondition(steps, SeekConditionAll(steps, names, v).0)
    ensures Reaches(OnwardGraph(steps), n, SeekConditionAll(steps, names, v).0)
    decreases steps.Keys - v, 1, |names|
  {
    var r := SeekCondition(steps, names[0], v);
    if r.0 != "" {
      ConditionFound(steps, names[0], v);
      n := names[0];
    } else {
      n := ConditionFoundIn(steps, names[1..], r.1);
    }
  }

  /** No visited step is a condition, and the visited steps outside `pending` have been
      searched completely. */
  predicate Searched(steps: Steps, v: set<string>, pending: set<string>) {
    && (forall x | x in v :: !IsCondition(steps, x))
    && (forall x | x in v && x !in pending && x in steps :: forall y | y in Onward(steps[x]) :: y in v || y == "")
  }

  lemma {:induction false} ConditionMissed(steps: Steps, name: string, v: set<string>, pending: set<string>)
    requires Searched(steps, v, pending) && SeekCondition(steps, name, v).0 == "" && "" !in steps
    ensures Searched(steps, SeekCondition(steps, name, v).1, pending)
    ensures name == "" || name in SeekCondition(steps, name, v).1
    decreases steps.Keys - v, 0, 0
  {
    if name != "" && name !in v && name in steps {
      ConditionMissedIn(steps, Onward(steps[name]), v + {name}, pending + {name});
    }
  }

  lemma {:induction false} ConditionMissedIn(steps: Steps, names: seq<string>, v: set<string>, pending: set<string>)
    requires Searched(steps, v, pending) && SeekConditionAll(steps, names, v).0 == "" && "" !in steps
    ensures Searched(steps, SeekConditionAll(steps, names, v).1, pending)
    ensures forall n | n in names :: n == "" || n in SeekConditionAll(steps, names, v).1
    decreases steps.Keys - v, 1, |names|
  {
    if names != [] {
      ConditionMissed(steps, names[0], v, pending);
      ConditionMissedIn(steps, names[1..], SeekCondition(steps, names[0], v).1, pending);
    }
  }

  /** The search returns a condition reachable along Next and Else exactly when there is one. */
  lemma SeekConditionDecides(steps: Steps, branch: string)
    requires "" !in steps && branch != ""
    ensures var c := SeekCondition(steps, branch, {}).0;
            if c != "" then IsCondition(steps, c) && Reaches(OnwardGraph(steps), branch, c)
            else forall x | Reaches(OnwardGraph(steps), branch, x) :: !IsCondition(steps, x)
  {
    var r := SeekCondition(steps, branch, {});
    if r.0 != "" {
      ConditionFound(steps, branch, {});
    } else {
      ConditionMissed(steps, branch, {}, {});
      forall x | Reaches(OnwardGraph(steps), branch, x)
        ensures !IsCondition(steps, x)
      {
        ClosedContainsReachable(OnwardGraph(steps), r.1 + {""}, branch, x);
      }
    }
  }

  // ------------------------------------------------------------------ terminals

  lemma {:induction false} TerminalsFound(steps: Steps, name: string, v: set<string>, x: string)
    requires x in SeekTerminals(steps, name, v).0
    ensures IsTerminal(steps, x) && Reaches(OnwardGraph(steps), name, x)
    decreases steps.Keys - v, 0, 0
  {
    var g := OnwardGraph(steps);
    if steps[name].next == [] {
      ReachesRefl(g, name);
    } else {
      var n := TerminalsFoundIn(steps, Onward(steps[name]), v + {name}, x);
      assert Edge(g, name, n);
      ReachesStep(g, name, n, x);
    }
  }

  lemma {:induction false} TerminalsFoundIn(steps: Steps, names: seq<string>, v: set<string>, x: string)
    returns (n: string)
    requires x in SeekTerminalsAll(steps, names, v).0
    ensures n in names && IsTerminal(steps, x) && Reaches(OnwardGraph(steps), n, x)
    decreases steps.Keys - v, 1, |names|
  {
    var r := SeekTerminals(steps, names[0], v);
    if x in r.0 {
      TerminalsFound(steps, names[0], v, x);
      n := names[0];
    } else {
      n := TerminalsFoundIn(steps, names[1..], r.1, x);
    }
  }

  /** On a tree the search meets a terminal below every step whose subtree is unvisited. */
  lemma {:induction false} TerminalExists(t: Tree, name: string, v: set<string>)
    requires Valid(t) && name in t.depth && forall x | x in v && x in t.depth :: !Under(t, x, name)
    ensures SeekTerminals(t.steps, name, v).0 != []
    decreases t.height - t.depth[name]
  {
    ValidParts(t);
    ValidAt(t, name);
    assert Under(t, name, name);
    hide Valid, Under, SeekTerminals;
    if t.steps[name].next == [] {
      TerminalHere(t.steps, name, v);
    } else {
      var n := t.steps[name].next[0];
      assert n in Children(t.steps[name]);
      forall x | x in v + {name} && x in t.depth
        ensures !Under(t, x, n)
      {
        NotUnderChild(t, name, n, x);
      }
      TerminalExists(t, n, v + {name});
      TerminalBelow(t.steps, name, v);
    }
  }

  lemma TerminalHere(steps: Steps, name: string, v: set<string>)
    requires name in steps && name != "" && name !in v && steps[name].next == []
    ensures SeekTerminals(steps, name, v).0 == [name]
  {
  }

  lemma TerminalBelow(steps: Steps, name: string, v: set<string>)
    requires name in steps && name != "" && name !in v && steps[name].next != []
    requires SeekTerminals(steps, steps[name].next[0], v + {name}).0 != []
    ensures SeekTerminals(steps, name, v).0 != []
  {
    assert Onward(steps[name])[0] == steps[name].next[0];
  }

  lemma NotUnderChild(t: Tree, name: string, n: string, x: string)
    requires Valid(t) && name in t.depth && n in Children(t.steps[name]) && x in t.depth
    requires x == name || !Under(t, x, name)
    ensures n in t.depth && !Under(t, x, n)
  {
    UnderChild(t, name, n, name);
    if Under(t, x, n) {
      UnderTrans(t, x, n, name);
      UnderDepth(t, x, n);
    }
  }

  lemma TerminalOfIsTerminal(t: Tree, branch: string)
    requires Valid(t) && branch in t.depth
    ensures IsTerminal(t.steps, TerminalOf(t.steps, branch))
    ensures Reaches(OnwardGraph(t.steps), branch, TerminalOf(t.steps, branch))
  {
    TerminalExists(t, branch, {});
    TerminalsFound(t.steps, branch, {}, TerminalOf(t.steps, branch));
  }

  // ------------------------------------------------------------------ the wait list

  /** w is what a join has to wait for in one branch: the virtual name of a condition on the
      way, or, when there is none, a step at which the branch ends. */
  ghost predicate AwaitedRight(steps: Steps, branch: string, w: string) {
    if exists c :: IsCondition(steps, c) && Reaches(OnwardGraph(steps), branch, c)
    then exists c :: w == VirtualName(c) && IsCondition(steps, c) && Reaches(OnwardGraph(steps), branch, c)
    else IsTerminal(steps, w) && Reaches(OnwardGraph(steps), branch, w)
  }

  lemma AwaitedInRight(t: Tree, branch: string)
    requires Valid(t) && branch in t.depth
    ensures AwaitedRight(t.steps, branch, AwaitedIn(t.steps, branch))
  {
    ValidParts(t);
    hide Valid;
    SeekConditionDecides(t.steps, branch);
    TerminalOfIsTerminal(t, branch);
  }

  lemma OnwardStaysUnder(t: Tree, a: string, x: string)
    requires Valid(t) && a in t.depth && Reaches(OnwardGraph(t.steps), a, x)
    ensures x in t.depth && Under(t, x, a)
  {
    var below := set y | y in t.depth && Under(t, y, a);
    assert Under(t, a, a);
    forall y, z | y in below && Edge(OnwardGraph(t.steps), y, z)
      ensures z in below
    {
      assert z in Children(t.steps[y]);
      UnderChild(t, y, z, a);
    }
    ClosedContainsReachable(OnwardGraph(t.steps), below, a, x);
  }

  /** Two branches on one level never share an awaited entry. */
  lemma AwaitedApart(t: Tree, a: string, b: string, w: string)
    requires Valid(t) && a in t.depth && b in t.depth && t.depth[a] == t.depth[b]
    requires forall x | x in t.steps :: ValidName(x)
    requires AwaitedRight(t.steps, a, w) && AwaitedRight(t.steps, b, w)
    ensures a == b
  {
    hide Valid, Under, Reaches;
    var x := RealStep(t.steps, a, w);
    var y := RealStep(t.steps, b, w);
    assert x == y by {
      VirtualNamesNeverCollide(x, y);
    }
    OnwardStaysUnder(t, a, x);
    OnwardStaysUnder(t, b, x);
    LevelApart(t, x, a, b);
  }

  /** The real step behind an awaited entry. */
  lemma RealStep(steps: Steps, branch: string, w: string) returns (x: string)
    requires AwaitedRight(steps, branch, w) && forall n | n in steps :: ValidName(n)
    ensures x in steps && Reaches(OnwardGraph(steps), branch, x)
    ensures (w == VirtualName(x) && !ValidName(w)) || (w == x && ValidName(w))
  {
    if exists c :: IsCondition(steps, c) && Reaches(OnwardGraph(steps), branch, c) {
      x :| w == VirtualName(x) && IsCondition(steps, x) && Reaches(OnwardGraph(steps), branch, x);
      VirtualNamesNeverCollide(x, x);
    } else {
      x := w;
    }
  }

  /** A join behind a fork waits for one entry per branch, pairwise distinct, each the right
      one for its branch. */
  lemma JoinWaitsForEveryBranch(b: BState, t: Tree)
    requires Grows(b, t) && b.current in b.steps && IsFork(b.steps[b.current])
    requires forall x | x in b.steps :: ValidName(x)
    ensures |WaitList(b)| == |b.steps[b.current].parallel|
    ensures forall i | 0 <= i < |WaitList(b)| :: AwaitedRight(b.steps, b.steps[b.current].parallel[i], WaitList(b)[i])
    ensures Distinct(WaitList(b))
  {
    var ws, starts := WaitList(b), b.steps[b.current].parallel;
    ValidAt(t, b.current);
    hide Valid, AwaitedRight, AwaitedIn;
    assert forall i | 0 <= i < |starts| :: starts[i] == Children(b.steps[b.current])[i];
    forall i | 0 <= i < |ws|
      ensures starts[i] in t.depth && t.depth[starts[i]] == t.depth[b.current] + 1
      ensures AwaitedRight(b.steps, starts[i], ws[i])
    {
      assert starts[i] in Children(b.steps[b.current]);
      AwaitedInRight(t, starts[i]);
    }
    forall i, j | 0 <= i < j < |ws|
      ensures ws[i] != ws[j]
    {
      if ws[i] == ws[j] {
        AwaitedApart(t, starts[i], starts[j], ws[i]);
      }
    }
  }
}
