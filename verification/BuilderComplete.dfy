/** Which programs the builder accepts. */
module BuilderComplete {
  import opened Definitions
  import opened Graphs
  import opened CycleDetection
  import opened Trees
  import opened Builder
  import opened BuilderTrees
  import opened BuilderJoins
  import opened BuilderHealth

  // ------------------------------------------------------------------ complete programs

  /** Whether the current step is a fork after the call c. */
  predicate AtForkAfter(c: Cmd, atFork: bool) {
    c.ForkCmd? || (c.OnFailureCmd? && atFork)
  }

  /** Tasks have handlers, forks at least two branches, conditions an expression; joins come
      directly after a fork, savepoints only outside fork branches. */
  predicate CmdComplete(c: Cmd, nesting: nat, atFork: bool)
    decreases c, 0
  {
    match c
    case StepCmd(_, handler, _) => handler != ""
    case OnFailureCmd(_, handler, _) => handler != ""
    case ForkCmd(_, branches) =>
      branches.MoreProgs? && branches.tail.MoreProgs? && ProgsComplete(branches, nesting + 1)
    case JoinCmd(_, _) => atFork
    case SavePointCmd(_) => nesting <= 1
    case ConditionCmd(_, expr, els) => expr != "" && (els.Some? ==> Complete(els.value, nesting, false))
  }

  predicate ProgsComplete(ps: Progs, nesting: nat)
    decreases ps, 1
  {
    match ps
    case NoProgs => true
    case MoreProgs(p, rest) => Complete(p, nesting, false) && ProgsComplete(rest, nesting)
  }

  predicate Complete(p: Prog, nesting: nat, atFork: bool)
    decreases p, 1
  {
    match p
    case End => true
    case Then(c, rest) => CmdComplete(c, nesting, atFork) && Complete(rest, nesting, AtForkAfter(c, atFork))
  }

  // ------------------------------------------------------------------ certificates

  /** Evidence that a builder's graph is a tree whose dependency links all lower a rank. */
  datatype Cert = Cert(t: Tree, rank: Ranks, low: int, high: int)

  ghost predicate SubsOk(b: BState) {
    forall sub | sub in b.subs :: BuildOk(sub)
  }

  ghost predicate Certified(b: BState, k: Cert) {
    && Grows(b, k.t)
    && Healthy(b.steps, k.rank, k.low, k.high) && k.rank.Keys == b.steps.Keys
    && b.name != "" && SubsOk(b)
  }

  lemma CertifiedBuilds(b: BState, k: Cert)
    requires Certified(b, k)
    ensures BuildOk(b)
  {
    GrowsParts(b, k.t);
    hide Valid, Healthy, ValidDefinition;
    HealthyIsValid(b.steps, k.rank, k.low, k.high, b.start);
  }

  lemma OutsOfOnFailure(d: StepDef, name: string)
    requires name != ""
    ensures forall y :: y in Outs(d.(onFailure := name)) ==> y in Outs(d) || y == name
  {
    var e := d.(onFailure := name);
    assert Outs(e) == e.next + [name] + Link(e.els) + e.parallel + e.waitFor;
  }

  lemma OutsOfParallel(d: StepDef, name: string)
    ensures forall y :: y in Outs(d.(parallel := d.parallel + [name])) ==> y in Outs(d) || y == name
  {
    var e := d.(parallel := d.parallel + [name]);
    assert Outs(e) == d.next + Link(d.onFailure) + Link(d.els) + d.parallel + [name] + d.waitFor;
  }

  lemma HealthyStepOk(steps: Steps, rank: Ranks, low: int, high: int, x: string)
    requires Healthy(steps, rank, low, high) && x in steps
    ensures ValidName(x) && StepOk(steps, steps[x])
  {
    assert HealthyAt(steps, rank, low, high, x);
  }

  /** One more resolved link keeps a step's references in order. */
  lemma LinkOk(steps: Steps, more: Steps, d: StepDef, d': StepDef, name: string)
    requires StepOk(steps, d) && steps.Keys <= more.Keys && name in more
    requires d' == d.(next := d.next + [name]) || d' == d.(onFailure := name)
             || d' == d.(parallel := d.parallel + [name])
    ensures StepOk(more, d')
  {
  }

  /** A lone step hung under cur by one new link. */
  lemma HangLone(steps: Steps, k: Cert, cur: string, d': StepDef, name: string, d: StepDef)
    returns (rank: Ranks, low: int)
    requires Healthy(steps, k.rank, k.low, k.high) && k.rank.Keys == steps.Keys
    requires cur in steps && name !in steps && ValidName(name) && Lone(d)
    requires d' == steps[cur].(next := steps[cur].next + [name]) || d' == steps[cur].(onFailure := name)
    ensures Healthy(steps[name := d][cur := d'], rank, low, k.high) && rank.Keys == steps[name := d][cur := d'].Keys
  {
    hide Healthy, StepOk, Outs, IsVirtual, Lone, Shift;
    var one := map[name := d];
    LoneHealthy(name, d);
    HealthyStepOk(steps, k.rank, k.low, k.high, cur);
    OutsOfNext(steps[cur], name);
    OutsOfOnFailure(steps[cur], name);
    LinkOk(steps, steps[cur := d'] + one, steps[cur], d', name);
    assert steps[cur := d'] + one == steps[name := d][cur := d'];
    assert SameButPrev(one, one);
    HangHealthy(steps, k.rank, k.low, k.high, one, map[name := 0], -1, 1, one, cur, d');
    rank, low := Shift(k.rank, k.low, map[name := 0], 1), k.low - 1;
  }

  lemma OpeningCertified(b: BState, name: string, d: StepDef) returns (k: Cert)
    requires IsEmpty(b) && b.name != "" && ValidName(name) && Unlinked(d) && Lone(d)
    ensures Certified(Opening(b, name, d), k)
  {
    var t := OpeningGrows(b, name, d);
    hide Valid;
    LoneHealthy(name, d.(prev := ROOT_STEP));
    k := Cert(t, map[name := 0], -1, 1);
  }

  lemma LeafCertified(b: BState, k: Cert, name: string, d: StepDef) returns (k': Cert)
    requires Certified(b, k) && ValidName(name) && name !in b.steps && Unlinked(d) && Lone(d) && d.prev == b.current
    ensures Certified(Advance(b, name, d), k')
  {
    GrowsParts(b, k.t);
    var t := AdvanceGrows(b, k.t, name, d);
    AppendNextKeys(b.steps, b.current, name, d);
    hide Valid, Healthy, Lone, Unlinked;
    var d' := b.steps[b.current].(next := b.steps[b.current].next + [name]);
    var rank, low := HangLone(b.steps, k, b.current, d', name, d);
    k' := Cert(t, rank, low, k.high);
  }

  lemma CompensationCertified(b: BState, k: Cert, name: string, d: StepDef, b': BState) returns (k': Cert)
    requires Certified(b, k) && ValidName(name) && name !in b.steps && Unlinked(d) && Lone(d) && d.prev == ""
    requires b.current in b.steps
    requires b' == b.(steps := b.steps[name := d][b.current := b.steps[b.current].(onFailure := name)])
    ensures Certified(b', k')
  {
    GrowsParts(b, k.t);
    hide Valid, Healthy, Lone, Unlinked;
    var t := CompensationGrows(b, k.t, name, d, b');
    var d' := b.steps[b.current].(onFailure := name);
    var rank, low := HangLone(b.steps, k, b.current, d', name, d);
    k' := Cert(t, rank, low, k.high);
  }

  // ------------------------------------------------------------------ joins

  lemma OnwardFalls(steps: Steps, k: Cert, a: string, x: string)
    requires Healthy(steps, k.rank, k.low, k.high) && k.rank.Keys == steps.Keys && a in steps
    requires Reaches(OnwardGraph(steps), a, x) && x in steps
    ensures k.rank[x] <= k.rank[a]
  {
    var below := set y | y in steps && k.rank[y] <= k.rank[a];
    forall y, z | y in below && Edge(OnwardGraph(steps), y, z)
      ensures z in below
    {
      OnwardEdgeFalls(steps, k, y, z);
    }
    ClosedContainsReachable(OnwardGraph(steps), below, a, x);
  }

  lemma OnwardEdgeFalls(steps: Steps, k: Cert, y: string, z: string)
    requires Healthy(steps, k.rank, k.low, k.high) && k.rank.Keys == steps.Keys && y in steps
    requires Edge(OnwardGraph(steps), y, z)
    ensures z in steps && k.rank[z] < k.rank[y]
  {
    HealthyStepOk(steps, k.rank, k.low, k.high, y);
    OnwardOuts(steps, steps[y], z);
    HealthyStepOk(steps, k.rank, k.low, k.high, z);
    OutFalls(steps, k, y, z);
  }

  lemma OnwardOuts(steps: Steps, d: StepDef, z: string)
    requires z in Onward(d) && StepOk(steps, d)
    ensures z in Outs(d) && z in steps
  {
  }

  lemma OutFalls(steps: Steps, k: Cert, y: string, z: string)
    requires Healthy(steps, k.rank, k.low, k.high) && k.rank.Keys == steps.Keys && y in steps
    requires z in Outs(steps[y]) && z in steps && ValidName(z)
    ensures k.rank[z] < k.rank[y]
  {
    hide Outs, StepOk;
    assert HealthyAt(steps, k.rank, k.low, k.high, y);
  }

  lemma BranchFalls(steps: Steps, k: Cert, fork: string, s: string)
    requires Healthy(steps, k.rank, k.low, k.high) && k.rank.Keys == steps.Keys && fork in steps
    requires s in steps[fork].parallel && s in steps
    ensures k.rank[s] < k.rank[fork]
  {
    assert s in Outs(steps[fork]);
    HealthyStepOk(steps, k.rank, k.low, k.high, s);
    OutFalls(steps, k, fork, s);
  }

  lemma AwaitedFalls(b: BState, k: Cert, w: string)
    requires Certified(b, k) && b.current in b.steps && IsFork(b.steps[b.current]) && w in WaitList(b)
    ensures IsVirtual(w) || (w in b.steps && k.rank[w] < k.rank[b.current])
  {
    forall x | x in b.steps
      ensures ValidName(x)
    {
      HealthyStepOk(b.steps, k.rank, k.low, k.high, x);
    }
    hide Healthy, Valid, AwaitedRight, WaitList, Distinct, SubsOk, Reaches;
    JoinWaitsForEveryBranch(b, k.t);
    var i :| 0 <= i < |WaitList(b)| && WaitList(b)[i] == w;
    var s := b.steps[b.current].parallel[i];
    var x := RealStep(b.steps, s, w);
    if ValidName(w) {
      BranchInTree(b, k.t, s);
      OnwardFalls(b.steps, k, s, x);
      BranchFalls(b.steps, k, b.current, s);
    } else {
      RealVirtual(x);
    }
  }

  lemma RealVirtual(x: string)
    requires ValidName(x)
    ensures IsVirtual(VirtualName(x))
  {
    assert VirtualName(x)[..5] == VIRTUAL_PREFIX;
  }

  lemma BranchInTree(b: BState, t: Tree, s: string)
    requires Grows(b, t) && b.current in b.steps && s in b.steps[b.current].parallel
    ensures s in b.steps
  {
    ValidAt(t, b.current);
    assert s in Children(b.steps[b.current]);
  }

  lemma JoinUnlinked(b: BState, join: StepDef)
    requires join == Bare(Join, b.current).(waitFor := join.waitFor, strategy := join.strategy)
    ensures Unlinked(join)
  {
  }

  lemma NameParts(name: string)
    requires ValidName(name)
    ensures name != "" && name != ROOT_STEP
  {
  }

  lemma JoinCertified(b: BState, k: Cert, name: string, join: StepDef) returns (k': Cert)
    requires Certified(b, k) && ValidName(name) && name !in b.steps
    requires b.current in b.steps && IsFork(b.steps[b.current])
    requires join == Bare(Join, b.current).(waitFor := WaitList(b), strategy := join.strategy)
    ensures Certified(Advance(b, name, join), k')
  {
    hide Valid, Healthy, WaitList, Unlinked, ValidName, Doubled;
    GrowsParts(b, k.t);
    JoinUnlinked(b, join);
    NameParts(name);
    var t := AdvanceGrows(b, k.t, name, join);
    AppendNextKeys(b.steps, b.current, name, join);
    forall w | w in join.waitFor
      ensures IsVirtual(w) || (w in b.steps && k.rank[w] < k.rank[b.current])
    {
      AwaitedFalls(b, k, w);
    }
    JoinHealthy(b.steps, k.rank, k.low, k.high, b.current, name, join);
    k' := Cert(t, Doubled(k.rank)[name := 2 * k.rank[b.current] - 1], 2 * k.low, 2 * k.high);
  }

  // ------------------------------------------------------------------ sub-builders

  lemma PlacedSame(sub: BState, cur: string)
    requires sub.start in sub.steps
    ensures SameButPrev(sub.steps, sub.steps[sub.start := sub.steps[sub.start].(prev := cur)])
  {
  }

  lemma MergeCertified(b: BState, k: Cert, fork: string, sub: BState, ks: Cert) returns (k': Cert)
    requires Certified(b, k) && Certified(sub, ks) && fork == b.current && fork in b.steps && IsFork(b.steps[fork])
    requires sub.steps.Keys !! b.steps.Keys && sub.start in sub.steps
    ensures Certified(Merge(b, fork, sub), k')
    ensures Merge(b, fork, sub).current == fork && fork in Merge(b, fork, sub).steps
            && IsFork(Merge(b, fork, sub).steps[fork])
    ensures Merge(b, fork, sub).steps.Keys == b.steps.Keys + sub.steps.Keys
  {
    hide Valid, Healthy, Merge, BuildOk, StepOk, Outs, Shift;
    var d := b.steps[fork].(parallel := b.steps[fork].parallel + [sub.start]);
    var placed := sub.steps[sub.start := sub.steps[sub.start].(prev := fork)];
    CertifiedBuilds(sub, ks);
    HealthyStepOk(b.steps, k.rank, k.low, k.high, fork);
    LinkOk(b.steps, b.steps[fork := d] + placed, b.steps[fork], d, sub.start);
    var t := MergeGrows(b, k.t, fork, sub, ks.t);
    MergeFields(b, fork, sub);
    PlacedSame(sub, fork);
    OutsOfParallel(b.steps[fork], sub.start);
    HangHealthy(b.steps, k.rank, k.low, k.high, sub.steps, ks.rank, ks.low, ks.high, placed, fork, d);
    k' := Cert(t, Shift(k.rank, k.low, ks.rank, ks.high), k.low + ks.low - ks.high + 1, k.high);
  }

  lemma PlainCondition(prev: string, start: string)
    ensures Unlinked(Bare(Condition, prev)) && Lone(Bare(Condition, prev))
    ensures forall y | y in Outs(Bare(Condition, prev).(els := start)) :: y == start
  {
  }

  lemma ElseOk(steps: Steps, prev: string, start: string)
    requires start in steps
    ensures StepOk(steps, Bare(Condition, prev).(els := start))
  {
  }

  lemma ElseCertified(b: BState, k: Cert, name: string, sub: BState, ks: Cert) returns (k': Cert)
    requires Certified(b, k) && Certified(sub, ks) && ValidName(name) && name !in b.steps && name !in sub.steps
    requires sub.steps.Keys !! b.steps.Keys && sub.start in sub.steps
    ensures Certified(WithElse(b, name, sub), k')
    ensures WithElse(b, name, sub).steps.Keys == b.steps.Keys + {name} + sub.steps.Keys
  {
    hide Valid, Healthy, WithElse, BuildOk, StepOk, Outs, Shift, Unlinked, Lone, AppendNext, Children, Distinct,
         ValidName;
    GrowsParts(b, k.t);
    GrowsParts(sub, ks.t);
    CertifiedBuilds(sub, ks);
    NameParts(name);
    PlainCondition(b.current, sub.start);
    var k1 := LeafCertified(b, k, name, Bare(Condition, b.current));
    AppendNextKeys(b.steps, b.current, name, Bare(Condition, b.current));
    WithElseFields(b, name, sub);
    var t := ElseGrows(b, k.t, name, sub, ks.t);
    ElseHealthy(Advance(b, name, Bare(Condition, b.current)).steps, k1, name, b.current, sub, ks);
    k' := Cert(t, Shift(k1.rank, k1.low, ks.rank, ks.high), k1.low + ks.low - ks.high + 1, k1.high);
  }

  /** The ranks of the else branch go below those of the rest. */
  lemma ElseHealthy(steps: Steps, k: Cert, name: string, prev: string, sub: BState, ks: Cert)
    requires Healthy(steps, k.rank, k.low, k.high) && k.rank.Keys == steps.Keys && name in steps
    requires Healthy(sub.steps, ks.rank, ks.low, ks.high) && ks.rank.Keys == sub.steps.Keys && sub.start in sub.steps
    requires steps.Keys !! sub.steps.Keys
    ensures var steps' := steps[name := Bare(Condition, prev).(els := sub.start)]
                          + sub.steps[sub.start := sub.steps[sub.start].(prev := name)];
            && Healthy(steps', Shift(k.rank, k.low, ks.rank, ks.high), k.low + ks.low - ks.high + 1, k.high)
            && Shift(k.rank, k.low, ks.rank, ks.high).Keys == steps'.Keys
  {
    hide Healthy, StepOk, Outs, Shift;
    var d := Bare(Condition, prev).(els := sub.start);
    var placed := sub.steps[sub.start := sub.steps[sub.start].(prev := name)];
    PlainCondition(prev, sub.start);
    ElseOk(steps[name := d] + placed, prev, sub.start);
    PlacedSame(sub, name);
    HangHealthy(steps, k.rank, k.low, k.high, sub.steps, ks.rank, ks.low, ks.high, placed, name, d);
  }

  // ------------------------------------------------------------------ whole programs

  ghost predicate AtFork(b: BState) {
    b.current in b.steps && IsFork(b.steps[b.current])
  }

  lemma TaskLone(b: BState, handler: string, prev: string, opts: seq<StepOpt>)
    requires handler != ""
    ensures Lone(TaskStep(b, handler, prev, opts)) && Unlinked(TaskStep(b, handler, prev, opts))
    ensures TaskStep(b, handler, prev, opts).prev == prev && TaskStep(b, handler, prev, opts).kind == Task
  {
  }

  lemma BareLone(kind: StepType, prev: string)
    requires kind != Task
    ensures Lone(Bare(kind, prev)) && Unlinked(Bare(kind, prev)) && Bare(kind, prev).prev == prev
            && Bare(kind, prev).kind == kind
  {
  }

  lemma AdvanceCurrent(b: BState, name: string, d: StepDef)
    requires name !in b.steps && b.current in b.steps && name != "" && b.current != ""
    ensures Advance(b, name, d).current == name && name in Advance(b, name, d).steps
            && Advance(b, name, d).steps[name] == d
    ensures Advance(b, name, d).nesting == b.nesting
  {
  }

  /** A complete simple call succeeds and keeps the certificate. */
  lemma SimpleCertified(b: BState, k: Cert, c: Cmd) returns (b': BState, k': Cert)
    requires Certified(b, k) && !Nested(c) && ValidName(c.name) && c.name !in b.steps
    requires CmdComplete(c, b.nesting, AtFork(b))
    ensures ExecCmd(b, c) == Some(b') && Certified(b', k') && b'.nesting == b.nesting
    ensures AtFork(b') == AtForkAfter(c, AtFork(b))
  {
    hide Valid, Healthy, BuildOk, WaitList, ApplyOpts, AppendNext, Lone, Unlinked;
    GrowsParts(b, k.t);
    NameParts(c.name);
    match c
    case OnFailureCmd(name, handler, opts) =>
      TaskLone(b, handler, "", opts);
      b' := ExecCmd(b, c).value;
      k' := CompensationCertified(b, k, name, TaskStep(b, handler, "", opts), b');
    case StepCmd(name, handler, opts) =>
      TaskLone(b, handler, b.current, opts);
      AdvanceCurrent(b, name, TaskStep(b, handler, b.current, opts));
      b' := ExecCmd(b, c).value;
      k' := LeafCertified(b, k, name, TaskStep(b, handler, b.current, opts));
    case JoinCmd(name, strategy) =>
      var st := if strategy.None? then All else strategy.value;
      var join := Bare(Join, b.current).(waitFor := WaitList(b), strategy := st);
      AdvanceCurrent(b, name, join);
      b' := ExecCmd(b, c).value;
      k' := JoinCertified(b, k, name, join);
    case SavePointCmd(name) =>
      BareLone(SavePoint, b.current);
      AdvanceCurrent(b, name, Bare(SavePoint, b.current));
      b' := ExecCmd(b, c).value;
      k' := LeafCertified(b, k, name, Bare(SavePoint, b.current));
    case ConditionCmd(name, expr, els) =>
      BareLone(Condition, b.current);
      AdvanceCurrent(b, name, Bare(Condition, b.current));
      b' := ExecCmd(b, c).value;
      k' := LeafCertified(b, k, name, Bare(Condition, b.current));
  }

  lemma {:induction false} CmdCertified(b: BState, k: Cert, c: Cmd, used: set<string>) returns (b': BState, k': Cert)
    requires Certified(b, k) && CmdProper(c) && CmdFresh(c, used) && b.steps.Keys <= used
    requires CmdComplete(c, b.nesting, AtFork(b))
    ensures ExecCmd(b, c) == Some(b') && Certified(b', k') && b'.nesting == b.nesting
    ensures AtFork(b') == AtForkAfter(c, AtFork(b))
    decreases c, 0
  {
    hide Valid, Healthy, BuildOk, AppendNext, SubsOk;
    match c
    case ForkCmd(name, branches) =>
      b', k' := ForkCertified(b, k, c, used);
    case ConditionCmd(name, expr, Some(p)) =>
      b', k' := ConditionCertified(b, k, c, used);
    case _ =>
      hide ExecCmd;
      b', k' := SimpleCertified(b, k, c);
  }

  lemma {:induction false} ForkCertified(b: BState, k: Cert, c: Cmd, used: set<string>) returns (b': BState, k': Cert)
    requires Certified(b, k) && CmdProper(c) && CmdFresh(c, used) && b.steps.Keys <= used && c.ForkCmd?
    requires CmdComplete(c, b.nesting, AtFork(b))
    ensures ExecCmd(b, c) == Some(b') && Certified(b', k') && b'.nesting == b.nesting && AtFork(b')
    decreases c, 0, 0
  {
    hide Valid, Healthy, BuildOk, AppendNext, SubsOk, Lone, Unlinked;
    GrowsParts(b, k.t);
    NameParts(c.name);
    var d := Bare(Fork, b.current);
    BareLone(Fork, b.current);
    AdvanceCurrent(b, c.name, d);
    var k1 := LeafCertified(b, k, c.name, d);
    AppendNextKeys(b.steps, b.current, c.name, d);
    b', k' := BranchesCertified(Advance(b, c.name, d), k1, c.name, c.branches, used + {c.name});
  }

  lemma {:induction false} ConditionCertified(b: BState, k: Cert, c: Cmd, used: set<string>)
    returns (b': BState, k': Cert)
    requires Certified(b, k) && CmdProper(c) && CmdFresh(c, used) && b.steps.Keys <= used
    requires c.ConditionCmd? && c.els.Some? && CmdComplete(c, b.nesting, AtFork(b))
    ensures ExecCmd(b, c) == Some(b') && Certified(b', k') && b'.nesting == b.nesting && !AtFork(b')
    decreases c, 0, 0
  {
    hide Valid, Healthy, BuildOk, AppendNext, SubsOk;
    GrowsParts(b, k.t);
    NameParts(c.name);
    var p, name := c.els.value, c.name;
    var b0 := EmptyBuilder(b.name + "_branch_else", b.nesting, b.defaultMaxRetries);
    var sub, ks := OpenedCertified(b0, p, used + {name});
    NamesAreFresh(p, used + {name});
    CertifiedBuilds(sub, ks);
    GrowsParts(sub, ks.t);
    k' := ElseCertified(b, k, name, sub, ks);
    b' := WithElse(b, name, sub);
    WithElseFields(b, name, sub);
  }

  lemma {:induction false} BranchesCertified(b: BState, k: Cert, fork: string, ps: Progs, used: set<string>)
    returns (b': BState, k': Cert)
    requires Certified(b, k) && b.current == fork && AtFork(b)
    requires ProgsProper(ps) && ProgsFresh(ps, used) && b.steps.Keys <= used && ProgsComplete(ps, b.nesting + 1)
    ensures ExecBranches(b, fork, ps) == Some(b') && Certified(b', k') && b'.nesting == b.nesting
    ensures b'.current == fork && AtFork(b')
    decreases ps, 1
  {
    hide Valid, Healthy, BuildOk, SubsOk, Children, Distinct, Outs, StepOk, ValidName, ProgsProper, ProgsFresh, Opened,
         Fresh, Complete;
    hide Exec;
    if ps.NoProgs? {
      b', k' := b, k;
    } else {
      var p, rest := ps.head, ps.tail;
      ProgsParts(ps, used);
      var b0 := EmptyBuilder(b.name + "_branch_", b.nesting + 1, b.defaultMaxRetries);
      var sub, ks := OpenedCertified(b0, p, used);
      NamesAreFresh(p, used);
      CertifiedBuilds(sub, ks);
      GrowsParts(sub, ks.t);
      var k1 := MergeCertified(b, k, fork, sub, ks);
      MergeFields(b, fork, sub);
      hide Merge;
      b', k' := BranchesCertified(Merge(b, fork, sub), k1, fork, rest, used + Names(p));
    }
  }

  lemma {:induction false} ProgCertified(b: BState, k: Cert, p: Prog, used: set<string>) returns (b': BState, k': Cert)
    requires Certified(b, k) && Proper(p) && Fresh(p, used) && b.steps.Keys <= used && Complete(p, b.nesting, AtFork(b))
    ensures Exec(b, p) == Some(b') && Certified(b', k')
    decreases p, 1
  {
    hide Valid, Healthy, BuildOk, SubsOk, AtFork, ExecCmd;
    match p
    case End => b', k' := b, k;
    case Then(c, rest) =>
      var b1, k1 := CmdCertified(b, k, c, used);
      var _ := CmdGrows(b, k.t, c, used, b1);
      b', k' := ProgCertified(b1, k1, rest, used + CmdNames(c));
  }

  /** A complete program opened by Step or Fork is accepted by its builder. */
  lemma {:induction false} OpenedCertified(b: BState, p: Prog, used: set<string>) returns (b': BState, k: Cert)
    requires IsEmpty(b) && b.name != "" && Opened(p) && Fresh(p, used) && Complete(p, b.nesting, false)
    ensures Exec(b, p) == Some(b') && Certified(b', k) && b'.steps.Keys == Names(p)
    decreases p, 2
  {
    hide Valid, Healthy, BuildOk, SubsOk, Lone, Unlinked;
    var c := p.cmd;
    assert CmdProper(c) && ValidName(c.name) && CmdFresh(c, used) && CmdComplete(c, b.nesting, false);
    var b1, k1 := FirstCertified(b, c, used);
    var _ := FirstGrows(b, c, used, b1);
    b', k := ProgCertified(b1, k1, p.rest, used + CmdNames(c));
    var _ := OpenedGrows(b, p, used, b');
  }

  lemma {:induction false} FirstCertified(b: BState, c: Cmd, used: set<string>) returns (b': BState, k': Cert)
    requires IsEmpty(b) && b.name != "" && (c.StepCmd? || c.ForkCmd?)
    requires CmdProper(c) && ValidName(c.name) && CmdFresh(c, used) && CmdComplete(c, b.nesting, false)
    ensures ExecCmd(b, c) == Some(b') && Certified(b', k') && b'.nesting == b.nesting
    ensures AtFork(b') == AtForkAfter(c, false)
    decreases c, 0
  {
    hide Valid, Healthy, BuildOk, SubsOk, Lone, Unlinked, ValidName;
    match c
    case StepCmd(name, handler, opts) =>
      TaskLone(b, handler, b.current, opts);
      k' := OpeningCertified(b, name, TaskStep(b, handler, b.current, opts));
      b' := Opening(b, name, TaskStep(b, handler, b.current, opts));
    case ForkCmd(name, branches) =>
      BareLone(Fork, b.current);
      var k1 := OpeningCertified(b, name, Bare(Fork, b.current));
      b', k' := BranchesCertified(Opening(b, name, Bare(Fork, b.current)), k1, name, branches, used + {name});
  }
}
