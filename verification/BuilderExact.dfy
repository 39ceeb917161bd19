/** The builder accepts exactly the complete programs. */
module BuilderExact {
  import opened Definitions
  import opened Graphs
  import opened CycleDetection
  import opened Trees
  import opened Builder
  import opened BuilderNames
  import opened BuilderTrees
  import opened BuilderJoins
  import opened BuilderComplete

  // ------------------------------------------------------------------ defects

  predicate BadTask(steps: Steps, x: string) {
    x in steps && steps[x].kind == Task && steps[x].handler == ""
  }

  /** x precedes the join y and y waits for x. */
  predicate Knot(steps: Steps, x: string, y: string) {
    && x in steps && y in steps && steps[x].prev != ""
    && y in steps[x].next && x in steps[y].waitFor
  }

  /** A defect that no later call removes. */
  predicate Spoiled(steps: Steps) {
    (exists x | x in steps :: BadTask(steps, x)) || exists x, y | x in steps && y in steps :: Knot(steps, x, y)
  }

  lemma FlowIsDependency(steps: Steps, x: string, y: string)
    requires forall n | n in steps :: ValidName(n)
    requires Edge(FlowGraph(steps), x, y) && y in steps
    ensures Edge(DependencyGraph(steps), x, y)
  {
    assert y in Children(steps[x]);
    assert y in Outs(steps[x]);
  }

  /** In a tree with valid names every main-flow step is reached over dependency links. */
  lemma {:induction false} FlowReached(t: Tree, x: string)
    requires Valid(t) && x in t.depth && forall n | n in t.steps :: ValidName(n)
    ensures Reaches(DependencyGraph(t.steps), t.start, x)
    decreases t.depth[x]
  {
    hide Valid, Reaches, ValidName, DependencyGraph, Distinct;
    ValidAt(t, x);
    var g := DependencyGraph(t.steps);
    if x == t.start {
      ReachesRefl(g, x);
    } else {
      var p := t.steps[x].prev;
      FlowReached(t, p);
      assert Edge(FlowGraph(t.steps), p, x);
      FlowIsDependency(t.steps, p, x);
      ReachesEdge(g, p, x);
      ReachesTrans(g, t.start, p, x);
    }
  }

  lemma KnotIsCycle(t: Tree, x: string, y: string)
    requires Valid(t) && Knot(t.steps, x, y) && forall n | n in t.steps :: ValidName(n)
    ensures CycleReachable(DependencyGraph(t.steps), t.start)
  {
    hide Valid, Reaches, Distinct;
    if x !in t.depth {
      DetachedAt(t, x);
    }
    var g := DependencyGraph(t.steps);
    FlowReached(t, x);
    assert y in Outs(t.steps[x]) && x in Outs(t.steps[y]);
    assert Edge(g, x, y) && Edge(g, y, x);
    ReachesEdge(g, x, y);
    BackEdgeCloses(g, y, x);
  }

  lemma SpoiledFails(b: BState, t: Tree)
    requires Grows(b, t) && Spoiled(b.steps)
    ensures !BuildOk(b)
  {
    if BuildOk(b) {
      if x, y :| x in b.steps && y in b.steps && Knot(b.steps, x, y) {
        KnotIsCycle(t, x, y);
      }
    }
  }

  // ------------------------------------------------------------------ calls only extend

  /** Later calls keep what earlier calls filed, except that links are added. */
  predicate Extends(a: Steps, b: Steps) {
    forall x | x in a :: x in b && KeptIn(a[x], b[x])
  }

  predicate KeptIn(d: StepDef, e: StepDef) {
    && e.kind == d.kind && e.handler == d.handler && e.waitFor == d.waitFor && e.prev == d.prev
    && d.next <= e.next
  }

  lemma ExtendsTrans(a: Steps, b: Steps, c: Steps)
    requires Extends(a, b) && Extends(b, c)
    ensures Extends(a, c)
  {
  }

  lemma SpoiledStays(a: Steps, b: Steps)
    requires Extends(a, b) && Spoiled(a)
    ensures Spoiled(b)
  {
    if x :| x in a && BadTask(a, x) {
      assert BadTask(b, x);
    } else {
      var x, y :| x in a && y in a && Knot(a, x, y);
      assert KeptIn(a[x], b[x]) && KeptIn(a[y], b[y]);
      assert y in b[x].next;
      assert Knot(b, x, y);
    }
  }

  lemma AdvanceExtends(b: BState, name: string, d: StepDef)
    requires name !in b.steps
    ensures Extends(b.steps, Advance(b, name, d).steps)
  {
  }

  lemma MergeExtends(b: BState, fork: string, sub: BState)
    requires sub.steps.Keys !! b.steps.Keys && sub.start in sub.steps && fork in b.steps
    ensures Extends(b.steps, Merge(b, fork, sub).steps)
  {
    MergeFields(b, fork, sub);
  }

  lemma WithElseExtends(b: BState, name: string, sub: BState)
    requires b.steps.Keys !! sub.steps.Keys && b.current in b.steps && name !in b.steps && name !in sub.steps
    requires b.current != "" && sub.start in sub.steps
    ensures Extends(b.steps, WithElse(b, name, sub).steps)
  {
    WithElseFields(b, name, sub);
    AdvanceExtends(b, name, Bare(Condition, b.current));
  }

  lemma {:induction false} BranchesExtend(b: BState, fork: string, ps: Progs, b': BState)
    requires ExecBranches(b, fork, ps) == Some(b')
    ensures Extends(b.steps, b'.steps) && b'.current == b.current && b'.nesting == b.nesting
    ensures fork in b.steps ==> fork in b'.steps && b'.steps[fork].kind == b.steps[fork].kind
    decreases ps
  {
    hide BuildOk;
    match ps
    case NoProgs =>
    case MoreProgs(p, rest) =>
      var sub := Exec(EmptyBuilder(b.name + "_branch_", b.nesting + 1, b.defaultMaxRetries), p).value;
      MergeExtends(b, fork, sub);
      MergeFields(b, fork, sub);
      hide Merge, Exec;
      BranchesExtend(Merge(b, fork, sub), fork, rest, b');
      ExtendsTrans(b.steps, Merge(b, fork, sub).steps, b'.steps);
  }

  /** Every successful call extends the graph and keeps track of being at a fork. */
  lemma CmdExtends(b: BState, t: Tree, c: Cmd, used: set<string>, b': BState)
    requires Grows(b, t) && CmdProper(c) && CmdFresh(c, used) && b.steps.Keys <= used
    requires ExecCmd(b, c) == Some(b')
    ensures Extends(b.steps, b'.steps) && b'.nesting == b.nesting
    ensures AtFork(b') == AtForkAfter(c, AtFork(b))
  {
    GrowsParts(b, t);
    hide Valid, BuildOk, WaitList, ApplyOpts;
    NameParts(c.name);
    if c.ForkCmd? {
      AdvanceExtends(b, c.name, Bare(Fork, b.current));
      AdvanceCurrent(b, c.name, Bare(Fork, b.current));
      hide Advance;
      var b1 := Advance(b, c.name, Bare(Fork, b.current));
      BranchesExtend(b1, c.name, c.branches, b');
      ExtendsTrans(b.steps, b1.steps, b'.steps);
    } else if Nested(c) {
      ConditionExtends(b, t, c, used, b');
    } else {
      SimpleExtends(b, c, b');
    }
  }

  lemma SimpleExtends(b: BState, c: Cmd, b': BState)
    requires b.current in b.steps && c.name !in b.steps && b.start != "" && b.current != "" && !Nested(c)
    requires c.name != "" && ExecCmd(b, c) == Some(b')
    ensures Extends(b.steps, b'.steps) && b'.nesting == b.nesting
    ensures AtFork(b') == AtForkAfter(c, AtFork(b))
  {
    SimpleResult(b, c, b');
    LeafKind(b, c);
    hide ExecCmd, LeafOf;
    if !c.OnFailureCmd? {
      AdvanceExtends(b, c.name, LeafOf(b, c));
      AdvanceCurrent(b, c.name, LeafOf(b, c));
    }
  }

  lemma LeafKind(b: BState, c: Cmd)
    requires b.current in b.steps && !Nested(c)
    ensures !IsFork(LeafOf(b, c))
  {
  }

  lemma ConditionExtends(b: BState, t: Tree, c: Cmd, used: set<string>, b': BState)
    requires Grows(b, t) && CmdProper(c) && CmdFresh(c, used) && b.steps.Keys <= used
    requires c.ConditionCmd? && c.els.Some? && ExecCmd(b, c) == Some(b')
    ensures Extends(b.steps, b'.steps) && b'.nesting == b.nesting && !AtFork(b')
  {
    hide Valid, BuildOk, ExecCmd;
    GrowsParts(b, t);
    NameParts(c.name);
    var p, name := c.els.value, c.name;
    assert Opened(p) && Fresh(p, used + {name});
    var b0, sub := ConditionResult(b, c, b');
    hide Exec, Opened, Fresh, CmdProper, CmdFresh, WithElse;
    var st := OpenedGrows(b0, p, used + {name}, sub);
    NamesAreFresh(p, used + {name});
    WithElseExtends(b, name, sub);
    WithElseFields(b, name, sub);
  }

  lemma {:induction false} ProgExtends(b: BState, t: Tree, p: Prog, used: set<string>, b': BState) returns (t': Tree)
    requires Grows(b, t) && Proper(p) && Fresh(p, used) && b.steps.Keys <= used && Exec(b, p) == Some(b')
    ensures Extends(b.steps, b'.steps) && Grows(b', t')
    decreases p
  {
    hide Valid, BuildOk, ExecCmd, AtFork;
    match p
    case End => t' := t;
    case Then(c, rest) =>
      var b1 := ExecCmd(b, c).value;
      CmdExtends(b, t, c, used, b1);
      var t1 := CmdGrows(b, t, c, used, b1);
      t' := ProgExtends(b1, t1, rest, used + CmdNames(c), b');
      ExtendsTrans(b.steps, b1.steps, b'.steps);
  }

  // ------------------------------------------------------------------ accepted programs are complete

  /** An incomplete simple call fails at once or leaves a lasting defect. */
  lemma SimpleSpoils(b: BState, c: Cmd, b': BState)
    requires b.current in b.steps && b.current != "" && b.start != "" && c.name !in b.steps && c.name != ""
             && !Nested(c)
    requires b.steps[b.current].prev != "" && ExecCmd(b, c) == Some(b')
    ensures CmdComplete(c, b.nesting, AtFork(b)) || Spoiled(b'.steps)
  {
    match c
    case StepCmd(name, handler, opts) =>
      AdvanceCurrent(b, name, TaskStep(b, handler, b.current, opts));
      assert handler == "" ==> BadTask(b'.steps, name);
    case OnFailureCmd(name, handler, opts) =>
      assert handler == "" ==> BadTask(b'.steps, name);
    case JoinCmd(name, strategy) =>
      if !AtFork(b) {
        AdvanceCurrent(b, name, b'.steps[name]);
        assert name in b'.steps[b.current].next && b.current in b'.steps[name].waitFor;
        assert Knot(b'.steps, b.current, name);
      }
    case SavePointCmd(name) =>
    case ConditionCmd(name, expr, els) =>
  }

  lemma {:induction false} CmdNecessary(b: BState, t: Tree, c: Cmd, used: set<string>, b': BState)
    requires Grows(b, t) && CmdProper(c) && CmdFresh(c, used) && b.steps.Keys <= used
    requires ExecCmd(b, c) == Some(b') && !Spoiled(b'.steps)
    ensures CmdComplete(c, b.nesting, AtFork(b))
    decreases c, 0
  {
    hide Valid, Spoiled, ExecCmd, AtFork, CmdFresh, Exec, Opened, Fresh, BuildOk, Complete, ValidName;
    GrowsParts(b, t);
    CurrentHasPrev(b, t);
    ProperName(c, used);
    NameParts(c.name);
    match c
    case ForkCmd(name, branches) =>
      ForkNecessary(b, c, used, b');
    case ConditionCmd(name, expr, Some(p)) =>
      ElseParts(c, used);
      var b0, sub := ConditionResult(b, c, b');
      OpenedNecessary(b0, p, used + {name}, sub);
      ExpressionGiven(b, c);
    case _ =>
      SimpleSpoils(b, c, b');
  }

  lemma ProperName(c: Cmd, used: set<string>)
    requires CmdProper(c) && CmdFresh(c, used)
    ensures ValidName(c.name) && c.name !in used
  {
  }

  lemma ExpressionGiven(b: BState, c: Cmd)
    requires c.ConditionCmd? && ExecCmd(b, c).Some?
    ensures c.expr != ""
  {
  }

  lemma {:induction false} ForkNecessary(b: BState, c: Cmd, used: set<string>, b': BState)
    requires c.ForkCmd? && CmdProper(c) && CmdFresh(c, used) && ExecCmd(b, c) == Some(b')
    ensures CmdComplete(c, b.nesting, false) && CmdComplete(c, b.nesting, true)
    decreases c, 0, 0
  {
    hide BuildOk, AppendNext;
    assert ProgsProper(c.branches) && ProgsFresh(c.branches, used + {c.name});
    BranchesNecessary(Opening(b, c.name, Bare(Fork, b.current)), c.name, c.branches, used + {c.name}, b');
  }

  lemma CurrentHasPrev(b: BState, t: Tree)
    requires Grows(b, t)
    ensures b.current in b.steps && b.steps[b.current].prev != ""
  {
    ValidAt(t, b.current);
  }

  lemma {:induction false} BranchesNecessary(b: BState, fork: string, ps: Progs, used: set<string>, b': BState)
    requires ProgsProper(ps) && ProgsFresh(ps, used) && ExecBranches(b, fork, ps) == Some(b')
    ensures ProgsComplete(ps, b.nesting + 1)
    decreases ps, 1
  {
    hide Exec, ExecBranches, Merge, BuildOk, ProgsProper, ProgsFresh, Opened, Fresh, Complete;
    if ps.MoreProgs? {
      ProgsParts(ps, used);
      var b0, sub := BranchResult(b, fork, ps, b');
      OpenedNecessary(b0, ps.head, used, sub);
      MergeNesting(b, fork, sub);
      BranchesNecessary(Merge(b, fork, sub), fork, ps.tail, used + Names(ps.head), b');
    }
  }

  lemma MergeNesting(b: BState, fork: string, sub: BState)
    requires sub.start in sub.steps && fork in b.steps
    ensures Merge(b, fork, sub).nesting == b.nesting
  {
  }

  lemma {:induction false} ProgNecessary(b: BState, t: Tree, p: Prog, used: set<string>, b': BState)
    requires Grows(b, t) && Proper(p) && Fresh(p, used) && b.steps.Keys <= used
    requires Exec(b, p) == Some(b') && BuildOk(b')
    ensures Complete(p, b.nesting, AtFork(b))
    decreases p, 1
  {
    hide Valid, BuildOk, ExecCmd, AtFork, Spoiled;
    match p
    case End =>
    case Then(c, rest) =>
      var b1 := ExecCmd(b, c).value;
      CmdExtends(b, t, c, used, b1);
      var t1 := CmdGrows(b, t, c, used, b1);
      NotSpoiledBefore(b1, t1, rest, used + CmdNames(c), b');
      CmdNecessary(b, t, c, used, b1);
      ProgNecessary(b1, t1, rest, used + CmdNames(c), b');
  }

  lemma NotSpoiledBefore(b: BState, t: Tree, p: Prog, used: set<string>, b': BState)
    requires Grows(b, t) && Proper(p) && Fresh(p, used) && b.steps.Keys <= used
    requires Exec(b, p) == Some(b') && BuildOk(b')
    ensures !Spoiled(b.steps)
  {
    var t' := ProgExtends(b, t, p, used, b');
    if Spoiled(b.steps) {
      SpoiledStays(b.steps, b'.steps);
      SpoiledFails(b', t');
    }
  }

  lemma {:induction false} OpenedNecessary(b: BState, p: Prog, used: set<string>, b': BState)
    requires IsEmpty(b) && Opened(p) && Fresh(p, used) && Exec(b, p) == Some(b') && BuildOk(b')
    ensures Complete(p, b.nesting, false)
    decreases p, 2
  {
    hide Valid, BuildOk, AtFork, Spoiled;
    var c := p.cmd;
    assert CmdProper(c) && ValidName(c.name) && CmdFresh(c, used) && Proper(p.rest);
    var b1 := ExecCmd(b, c).value;
    var t1 := FirstGrows(b, c, used, b1);
    NotSpoiledBefore(b1, t1, p.rest, used + CmdNames(c), b');
    FirstNecessary(b, c, used, b1);
    ProgNecessary(b1, t1, p.rest, used + CmdNames(c), b');
  }

  lemma {:induction false} FirstNecessary(b: BState, c: Cmd, used: set<string>, b': BState)
    requires IsEmpty(b) && (c.StepCmd? || c.ForkCmd?) && CmdProper(c) && CmdFresh(c, used)
    requires ExecCmd(b, c) == Some(b') && !Spoiled(b'.steps)
    ensures CmdComplete(c, b.nesting, false) && b'.nesting == b.nesting
    ensures AtFork(b') == AtForkAfter(c, false)
    decreases c, 0
  {
    match c
    case StepCmd(name, handler, opts) =>
      assert handler == "" ==> BadTask(b'.steps, name);
    case ForkCmd(name, branches) =>
      ForkNecessary(b, c, used, b');
      hide BuildOk, Spoiled, Exec;
      BranchesExtend(Opening(b, name, Bare(Fork, b.current)), name, branches, b');
  }

  /** Among the programs with fresh valid names in which every builder is opened by Step or
      Fork, those accepted by Build are exactly the complete ones. */
  lemma AcceptedWhenProper(b: BState, p: Prog)
    requires IsEmpty(b) && b.name != "" && Opened(p) && Fresh(p, {})
    ensures Complete(p, b.nesting, false) <==> exists b' :: Exec(b, p) == Some(b') && BuildOk(b')
  {
    hide BuildOk, Exec;
    if Complete(p, b.nesting, false) {
      var b', k := OpenedCertified(b, p, {});
      CertifiedBuilds(b', k);
    }
    if exists b' :: Exec(b, p) == Some(b') && BuildOk(b') {
      var b' :| Exec(b, p) == Some(b') && BuildOk(b');
      OpenedNecessary(b, p, {}, b');
    }
  }

  /** The main result: among the programs with fresh names in which every builder is opened by
      Step or Fork, Build accepts, nested sub-builders included, exactly those of a named
      builder that have valid names and are complete. */
  lemma AcceptedIffComplete(b: BState, p: Prog)
    requires IsEmpty(b) && Started(p) && Fresh(p, {})
    ensures (exists b' :: Exec(b, p) == Some(b') && BuildOk(b')) <==>
            b.name != "" && AllValid(Names(p)) && Complete(p, b.nesting, false)
  {
    StartedOpened(p);
    hide Exec, Complete, AllValid, BuildOk;
    AcceptedIsNamed(b, p);
    if b.name != "" && AllValid(Names(p)) {
      AcceptedWhenProper(b, p);
    }
  }

  lemma AcceptedIsNamed(b: BState, p: Prog)
    ensures (exists b' :: Exec(b, p) == Some(b') && BuildOk(b')) ==> b.name != "" && AllValid(Names(p))
  {
    hide Exec, AllValid;
    if b' :| Exec(b, p) == Some(b') && BuildOk(b') {
      ExecKeys(b, p, b');
      AcceptedNamesValid(b, p, b');
    }
  }
}
