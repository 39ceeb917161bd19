/** What any program does to the names of a builder, whatever else it does. */
module BuilderNames {
  import opened Definitions
  import opened Graphs
  import opened CycleDetection
  import opened Builder
  import opened BuilderTrees

  // ------------------------------------------------------------------ keys

  lemma AppendNextKeysSame(steps: Steps, current: string, name: string)
    ensures AppendNext(steps, current, name).Keys == steps.Keys
  {
  }

  /** A builder that has not failed holds the names of all calls so far, and no other. */
  lemma {:induction false} ExecKeys(b: BState, p: Prog, b': BState)
    requires Exec(b, p) == Some(b')
    ensures b'.steps.Keys == b.steps.Keys + Names(p) && b'.name == b.name
    decreases p, 1
  {
    hide BuildOk;
    if p.Then? {
      var m := ExecCmd(b, p.cmd).value;
      CmdKeys(b, p.cmd, m);
      ExecKeys(m, p.rest, b');
    }
  }

  lemma {:induction false} CmdKeys(b: BState, c: Cmd, b': BState)
    requires ExecCmd(b, c) == Some(b')
    ensures b'.steps.Keys == b.steps.Keys + CmdNames(c) && b'.name == b.name
    decreases c, 0
  {
    hide BuildOk, WaitList, ExecBranches, Exec, ApplyOpts;
    match c
    case ForkCmd(name, branches) =>
      BranchesKeys(Opening(b, name, Bare(Fork, b.current)), name, branches, b');
    case ConditionCmd(name, expr, Some(p)) =>
      var b0, sub := ConditionResult(b, c, b');
      hide ExecCmd;
      ExecKeys(b0, p, sub);
      ElseKeys(b, name, sub);
    case _ =>
  }

  lemma ElseKeys(b: BState, name: string, sub: BState)
    requires sub.start in sub.steps
    ensures WithElse(b, name, sub).steps.Keys == b.steps.Keys + {name} + sub.steps.Keys
            && WithElse(b, name, sub).name == b.name
  {
  }

  lemma {:induction false} BranchesKeys(b: BState, fork: string, ps: Progs, b': BState)
    requires ExecBranches(b, fork, ps) == Some(b')
    ensures b'.steps.Keys == b.steps.Keys + ProgsNames(ps) && b'.name == b.name
    decreases ps, 1
  {
    hide BuildOk;
    match ps
    case NoProgs =>
    case MoreProgs(p, rest) =>
      var b0 := EmptyBuilder(b.name + "_branch_", b.nesting + 1, b.defaultMaxRetries);
      var sub := Exec(b0, p).value;
      ExecKeys(b0, p, sub);
      BranchesKeys(Merge(b, fork, sub), fork, rest, b');
  }

  // ------------------------------------------------------------------ valid names

  /** Every builder, nested ones included, is opened by Step or Fork. */
  predicate CmdShaped(c: Cmd)
    decreases c, 0
  {
    match c
    case ForkCmd(_, branches) => ProgsShaped(branches)
    case ConditionCmd(_, _, Some(p)) => Started(p)
    case _ => true
  }

  predicate ProgsShaped(ps: Progs)
    decreases ps, 2
  {
    match ps
    case NoProgs => true
    case MoreProgs(p, rest) => Started(p) && ProgsShaped(rest)
  }

  predicate Shaped(p: Prog)
    decreases p, 1
  {
    match p
    case End => true
    case Then(c, rest) => CmdShaped(c) && Shaped(rest)
  }

  predicate Started(p: Prog)
    decreases p, 2
  {
    p.Then? && (p.cmd.StepCmd? || p.cmd.ForkCmd?) && Shaped(p)
  }

  predicate AllValid(names: set<string>) {
    forall n | n in names :: ValidName(n)
  }

  /** Shape and valid names are what the tree results ask of a program. */
  lemma {:induction false} ShapedProper(p: Prog)
    ensures Proper(p) <==> Shaped(p) && AllValid(Names(p))
    decreases p, 1
  {
    if p.Then? {
      CmdShapedProper(p.cmd);
      ShapedProper(p.rest);
      hide ValidName;
    }
  }

  lemma {:induction false} CmdShapedProper(c: Cmd)
    ensures CmdProper(c) <==> CmdShaped(c) && AllValid(CmdNames(c))
    decreases c, 0
  {
    hide ValidName;
    match c
    case ForkCmd(name, branches) => ProgsShapedProper(branches);
    case ConditionCmd(name, expr, Some(p)) => StartedOpened(p);
    case _ =>
  }

  lemma {:induction false} ProgsShapedProper(ps: Progs)
    ensures ProgsProper(ps) <==> ProgsShaped(ps) && AllValid(ProgsNames(ps))
    decreases ps, 2
  {
    hide ValidName;
    if ps.MoreProgs? {
      StartedOpened(ps.head);
      ProgsShapedProper(ps.tail);
    }
  }

  lemma {:induction false} StartedOpened(p: Prog)
    ensures Opened(p) <==> Started(p) && AllValid(Names(p))
    decreases p, 2
  {
    ShapedProper(p);
  }

  /** Build accepts no invalid name. */
  lemma AcceptedNamesValid(b: BState, p: Prog, b': BState)
    requires Exec(b, p) == Some(b') && BuildOk(b')
    ensures AllValid(Names(p))
  {
    ExecKeys(b, p, b');
    hide Exec;
  }

  // ------------------------------------------------------------------ heads

  /** No join begins the builder, a branch or an else side, and those that begin exist. */
  predicate Headed(steps: Steps, start: string) {
    && (start != "" ==> start in steps && steps[start].kind != Join)
    && forall x | x in steps :: HeadsOf(steps, steps[x])
  }

  predicate HeadsOf(steps: Steps, d: StepDef) {
    && (d.els != "" ==> d.els in steps && steps[d.els].kind != Join)
    && forall p | p in d.parallel :: p in steps && steps[p].kind != Join
  }

  /** The steps of a are in b, of the same kind. */
  predicate Keeps(a: Steps, b: Steps) {
    forall x | x in a :: x in b && b[x].kind == a[x].kind
  }

  lemma HeadsKept(a: Steps, b: Steps, d: StepDef, d': StepDef)
    requires Keeps(a, b) && HeadsOf(a, d) && d'.els == d.els && d'.parallel == d.parallel
    ensures HeadsOf(b, d')
  {
  }

  /** A new step without branches keeps the heads; only a step that is not a join may begin. */
  lemma AdvanceHeaded(b: BState, name: string, d: StepDef)
    requires Headed(b.steps, b.start) && name !in b.steps && d.els == "" && d.parallel == []
    ensures Headed(Advance(b, name, d).steps, b.start) && Keeps(b.steps, Advance(b, name, d).steps)
    ensures name in Advance(b, name, d).steps && Advance(b, name, d).steps[name].kind == d.kind
  {
    var r := Advance(b, name, d).steps;
    assert Keeps(b.steps, r);
    forall x | x in r
      ensures HeadsOf(r, r[x])
    {
      if x in b.steps {
        HeadsKept(b.steps, r, b.steps[x], r[x]);
      }
    }
  }

  lemma OpeningHeaded(b: BState, name: string, d: StepDef)
    requires Headed(b.steps, b.start) && name !in b.steps && d.els == "" && d.parallel == [] && d.kind != Join
             && name != ""
    ensures Headed(Opening(b, name, d).steps, Opening(b, name, d).start) && Opening(b, name, d).start != ""
    ensures Keeps(b.steps, Opening(b, name, d).steps) && name in Opening(b, name, d).steps
  {
    AdvanceHeaded(b, name, d);
    AdvanceHeaded(b, name, d.(prev := ROOT_STEP));
  }

  /** Two headed step maps side by side, one step of the first re-linked to the start of the
      second. */
  lemma JoinedHeaded(a: Steps, start: string, sub: Steps, begin: string, cur: string, d: StepDef, prev: string)
    requires Headed(a, start) && Headed(sub, begin) && begin != "" && a.Keys !! sub.Keys && cur in a
             && d.kind == a[cur].kind
    requires (d.els == a[cur].els || d.els == begin) && forall p | p in d.parallel :: p in a[cur].parallel || p == begin
    ensures var r := (a + sub[begin := sub[begin].(prev := prev)])[cur := d];
            Headed(r, start) && Keeps(a, r)
  {
    var placed := sub[begin := sub[begin].(prev := prev)];
    var r := (a + placed)[cur := d];
    assert Keeps(a, r);
    assert Keeps(sub, r);
    forall x | x in r
      ensures HeadsOf(r, r[x])
    {
      if x == cur {
        assert HeadsOf(a, a[cur]);
      } else if x in a {
        HeadsKept(a, r, a[x], r[x]);
      } else {
        HeadsKept(sub, r, sub[x], r[x]);
      }
    }
  }

  lemma MergeHeaded(b: BState, fork: string, sub: BState)
    requires Headed(b.steps, b.start) && Headed(sub.steps, sub.start) && sub.start != "" && fork in b.steps
    requires b.steps.Keys !! sub.steps.Keys
    ensures sub.start in sub.steps && Headed(Merge(b, fork, sub).steps, Merge(b, fork, sub).start)
  {
    var d := b.steps[fork];
    hide Headed;
    StartInside(sub);
    JoinedHeaded(b.steps, b.start, sub.steps, sub.start, fork, d.(parallel := d.parallel + [sub.start]), fork);
  }

  lemma StartInside(b: BState)
    requires Headed(b.steps, b.start) && b.start != ""
    ensures b.start in b.steps
  {
  }

  lemma ElseHeaded(b: BState, name: string, sub: BState)
    requires Headed(b.steps, b.start) && Headed(sub.steps, sub.start) && sub.start != "" && name !in b.steps
             && name !in sub.steps
    requires b.steps.Keys !! sub.steps.Keys
    ensures sub.start in sub.steps && Headed(WithElse(b, name, sub).steps, WithElse(b, name, sub).start)
  {
    StartInside(sub);
    var plain := Bare(Condition, b.current);
    var b1 := b.(steps := b.steps[name := plain]);
    var placed := sub.steps[sub.start := sub.steps[sub.start].(prev := name)];
    assert Headed(b1.steps, b.start) by {
      AdvanceHeaded(b.(current := ""), name, plain);
    }
    JoinedHeaded(b1.steps, b.start, sub.steps, sub.start, name, plain.(els := sub.start), name);
    var m := (b1.steps + placed)[name := plain.(els := sub.start)];
    assert m == b.steps[name := plain.(els := sub.start)] + placed;
    AppendHeaded(m, b.start, b.current, name);
  }

  lemma AppendHeaded(m: Steps, start: string, current: string, name: string)
    requires Headed(m, start)
    ensures Headed(AppendNext(m, current, name), start)
  {
    var r := AppendNext(m, current, name);
    forall x | x in r
      ensures HeadsOf(r, r[x])
    {
      HeadsKept(m, r, m[x], r[x]);
    }
  }

  /** In everything a program builds, no join begins a builder, a branch or an else side. */
  lemma {:induction false} ExecHeaded(b: BState, p: Prog, used: set<string>, b': BState)
    requires Headed(b.steps, b.start) && Fresh(p, used) && b.steps.Keys <= used && AllValid(Names(p))
             && Exec(b, p) == Some(b')
    ensures Headed(b'.steps, b'.start)
    decreases p, 1
  {
    hide BuildOk, Headed;
    if p.Then? {
      var m := ExecCmd(b, p.cmd).value;
      CmdHeaded(b, p.cmd, used, m);
      CmdKeys(b, p.cmd, m);
      ExecHeaded(m, p.rest, used + CmdNames(p.cmd), b');
    }
  }

  lemma {:induction false} CmdHeaded(b: BState, c: Cmd, used: set<string>, b': BState)
    requires Headed(b.steps, b.start) && CmdFresh(c, used) && b.steps.Keys <= used && AllValid(CmdNames(c))
             && ExecCmd(b, c) == Some(b')
    ensures Headed(b'.steps, b'.start)
    decreases c, 0
  {
    assert ValidName(c.name);
    hide BuildOk, Headed, WaitList;
    match c
    case StepCmd(name, handler, opts) =>
      OpeningHeaded(b, name, TaskStep(b, handler, b.current, opts));
    case OnFailureCmd(name, handler, opts) =>
      CompensationHeaded(b, name, TaskStep(b, handler, "", opts));
    case ForkCmd(name, branches) =>
      OpeningHeaded(b, name, Bare(Fork, b.current));
      OpeningKeys(b, name, Bare(Fork, b.current));
      BranchesHeaded(Opening(b, name, Bare(Fork, b.current)), name, branches, used + {name}, b');
    case JoinCmd(name, strategy) =>
      AdvanceHeaded(b, name, Bare(Join, b.current).(waitFor := WaitList(b), strategy := if strategy.None? then All
                                                    else strategy.value));
    case SavePointCmd(name) =>
      AdvanceHeaded(b, name, Bare(SavePoint, b.current));
    case ConditionCmd(name, expr, None) =>
      AdvanceHeaded(b, name, Bare(Condition, b.current));
    case ConditionCmd(name, expr, Some(p)) =>
      var b0 := EmptyBuilder(b.name + "_branch_else", b.nesting, b.defaultMaxRetries);
      var sub := Exec(b0, p).value;
      EmptyHeaded(b0);
      ExecHeaded(b0, p, used + {name}, sub);
      ExecKeys(b0, p, sub);
      NamesAreFresh(p, used + {name});
      ElseHeaded(b, name, sub);
  }

  lemma EmptyHeaded(b: BState)
    requires IsEmpty(b)
    ensures Headed(b.steps, b.start)
  {
  }

  lemma OpeningKeys(b: BState, name: string, d: StepDef)
    ensures Opening(b, name, d).steps.Keys == b.steps.Keys + {name}
  {
  }

  lemma CompensationHeaded(b: BState, name: string, d: StepDef)
    requires Headed(b.steps, b.start) && name !in b.steps && d.els == "" && d.parallel == []
    requires b.current in b.steps || b.current == name
    ensures var steps := b.steps[name := d];
            Headed(steps[b.current := steps[b.current].(onFailure := name)], b.start)
  {
    var steps := b.steps[name := d];
    var r := steps[b.current := steps[b.current].(onFailure := name)];
    assert Keeps(b.steps, r);
    forall x | x in r
      ensures HeadsOf(r, r[x])
    {
      if x in b.steps {
        HeadsKept(b.steps, r, b.steps[x], r[x]);
      }
    }
  }

  lemma {:induction false} BranchesHeaded(b: BState, fork: string, ps: Progs, used: set<string>, b': BState)
    requires Headed(b.steps, b.start) && ProgsFresh(ps, used) && b.steps.Keys <= used && AllValid(ProgsNames(ps))
    requires ExecBranches(b, fork, ps) == Some(b')
    ensures Headed(b'.steps, b'.start)
    decreases ps, 1
  {
    hide BuildOk, Headed, ValidName;
    match ps
    case NoProgs =>
    case MoreProgs(p, rest) =>
      var b0 := EmptyBuilder(b.name + "_branch_", b.nesting + 1, b.defaultMaxRetries);
      var sub := Exec(b0, p).value;
      EmptyHeaded(b0);
      ExecHeaded(b0, p, used, sub);
      ExecKeys(b0, p, sub);
      NamesAreFresh(p, used);
      MergeHeaded(b, fork, sub);
      BranchesHeaded(Merge(b, fork, sub), fork, rest, used + Names(p), b');
  }
}
