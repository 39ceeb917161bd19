/** What a fork starts and which joins it opens. */
module EngineForks {
  import opened Definitions
  import opened Trees
  import opened Store
  import opened Queue
  import opened Builder
  import opened BuilderNames
  import opened BuilderTrees
  import opened BuilderJoins
  import opened BuilderExact
  import opened BuilderJoinsKept
  import opened JoinStores
  import opened Engine
  import opened EngineFrames
  import opened EngineJoins
  import opened EngineBirths

  /** The steps a join behind a fork waits for at first. */
  function FirstWait(n: StepDef, fork: StepDef): seq<string> {
    if n.waitFor == [] then fork.parallel else n.waitFor
  }

  /** A join among the names that has no state yet gets one: it waits for the steps of its
      definition, or for the branches when it names none, and has heard nothing.  Every other join
      stays as it is. */
  ghost predicate JoinsOpened(s: State, r: State, i: int, steps: Steps, d: StepDef, names: seq<string>) {
    forall j, n :: JoinAt(r, j, n) ==
      if j == i && n in names && n in steps && steps[n].kind == Join && JoinAt(s, i, n).None?
      then Some(JoinState(FirstWait(steps[n], d), [], [], steps[n].strategy, false))
      else JoinAt(s, j, n)
  }

  lemma {:induction false} OpenJoinsTable(s: State, i: int, steps: Steps, d: StepDef, names: seq<string>)
    ensures JoinsOpened(s, OpenJoins(s, i, steps, d, names), i, steps, d, names)
    ensures OpenJoins(s, i, steps, d, names) == s.(joins := OpenJoins(s, i, steps, d, names).joins)
    decreases |names|
  {
    hide JoinsOpened, JoinStep;
    if names == [] {
      NoneOpened(s, i, steps, d, []);
    } else {
      var n, rest := names[0], names[1..];
      assert names == [n] + rest;
      if n in steps && steps[n].kind == Join {
        var s1 := JoinStep(s, i, n, CreateOp(if steps[n].waitFor == [] then d.parallel else steps[n].waitFor,
                                             Some(steps[n].strategy)));
        OpenOne(s, i, steps, d, n);
        OpenJoinsTable(s1, i, steps, d, rest);
        OpenedMore(s, s1, OpenJoins(s1, i, steps, d, rest), i, steps, d, n, rest);
      } else {
        NoneOpened(s, i, steps, d, [n]);
        OpenJoinsTable(s, i, steps, d, rest);
        OpenedMore(s, s, OpenJoins(s, i, steps, d, rest), i, steps, d, n, rest);
      }
    }
  }

  lemma NoneOpened(s: State, i: int, steps: Steps, d: StepDef, names: seq<string>)
    requires forall n | n in names :: n !in steps || steps[n].kind != Join
    ensures JoinsOpened(s, s, i, steps, d, names)
  {
    hide JoinAt, FirstWait;
  }

  lemma OpenedMore(s: State, m: State, r: State, i: int, steps: Steps, d: StepDef, n: string, rest: seq<string>)
    requires JoinsOpened(s, m, i, steps, d, [n]) && JoinsOpened(m, r, i, steps, d, rest)
    ensures JoinsOpened(s, r, i, steps, d, [n] + rest)
  {
    hide JoinAt, FirstWait;
  }

  lemma OpenOne(s: State, i: int, steps: Steps, d: StepDef, n: string)
    requires n in steps && steps[n].kind == Join
    ensures var op := CreateOp(if steps[n].waitFor == [] then d.parallel else steps[n].waitFor,
                               Some(steps[n].strategy));
            && JoinsOpened(s, JoinStep(s, i, n, op), i, steps, d, [n])
            && JoinStep(s, i, n, op) == s.(joins := JoinStep(s, i, n, op).joins)
  {
    var op := CreateOp(if steps[n].waitFor == [] then d.parallel else steps[n].waitFor, Some(steps[n].strategy));
    JoinStepTable(s, i, n, op);
    JoinStepLocal(s, i, n, op);
    hide JoinStep, JoinAt;
  }

  /** A fork that succeeds starts exactly its branches and opens exactly the joins behind it. */
  lemma ForkStarts(s: State, i: int, steps: Steps, d: StepDef)
    requires Unused(s)
    ensures var (r, ok) := RunFork(s, i, steps, d);
            && (ok <==> forall n | n in d.parallel :: n in steps)
            && (ok ==> Born(s, r.(joins := s.joins), i, d.parallel, steps) && JoinsOpened(s, r, i, steps, d, d.next))
  {
    hide Born, JoinsOpened, OpenJoins, StartBranches, Unused;
    StartBranchesBorn(s, i, steps, d.parallel);
    var (m, ok) := StartBranches(s, i, steps, d.parallel);
    if ok {
      OpenJoinsTable(m, i, steps, d, d.next);
      BornJoins(s, m, i, d.parallel, steps);
      OpenedFrom(s, m, OpenJoins(m, i, steps, d, d.next), i, steps, d);
    }
  }

  lemma BornJoins(s: State, m: State, i: int, names: seq<string>, steps: Steps)
    requires Born(s, m, i, names, steps)
    ensures m.joins == s.joins
  {
    hide BornSteps, BornItems, From;
  }

  lemma OpenedFrom(s: State, m: State, r: State, i: int, steps: Steps, d: StepDef)
    requires m.joins == s.joins && JoinsOpened(m, r, i, steps, d, d.next)
    ensures JoinsOpened(s, r, i, steps, d, d.next)
  {
    SameJoins(s, m);
    hide JoinAt, FirstWait;
  }

  // ------------------------------------------------------------------ what the builder makes

  /** In a definition that Build accepts, a join behind a fork gets a state with one entry per
      branch, the right one for the branch and none twice. */
  lemma OpenedJoinsAwaitBranches(b: BState, p: Prog, b': BState, s: State, i: int, fork: string, n: string)
    requires IsEmpty(b) && Started(p) && Fresh(p, {}) && Exec(b, p) == Some(b') && BuildOk(b')
    requires fork in b'.steps && IsFork(b'.steps[fork]) && n in b'.steps[fork].next
    requires Unused(s) && JoinAt(s, i, n).None? && n in b'.steps && b'.steps[n].kind == Join
    ensures var d := b'.steps[fork];
            var (r, ok) := RunFork(s, i, b'.steps, d);
            ok && JoinAt(r, i, n).Some? &&
            var j := JoinAt(r, i, n).value;
            && |j.waitingFor| == |d.parallel| && Distinct(j.waitingFor)
            && (forall k | 0 <= k < |d.parallel| :: AwaitedRight(b'.steps, d.parallel[k], j.waitingFor[k]))
            && j.completed == [] && j.failed == [] && j.strategy == b'.steps[n].strategy && !j.isReady
  {
    var d := b'.steps[fork];
    FinishedJoinsWait(b, p, b');
    PrevIsFork(b, p, b', fork, n);
    ForkStarts(s, i, b'.steps, d);
    hide Exec, BuildOk, Started, Fresh, RunFork, Born, Unused, AwaitedRight, JoinAt;
    assert WaitsForBranches(b'.steps, n);
  }

  lemma PrevIsFork(b: BState, p: Prog, b': BState, fork: string, n: string)
    requires IsEmpty(b) && Started(p) && Fresh(p, {}) && Exec(b, p) == Some(b') && BuildOk(b')
    requires fork in b'.steps && n in b'.steps[fork].next
    ensures n in b'.steps && b'.steps[n].prev == fork
    ensures forall x | x in b'.steps[fork].parallel :: x in b'.steps
  {
    AcceptedNamesValid(b, p, b');
    StartedOpened(p);
    hide Exec, Started, Fresh, BuildOk;
    var t := OpenedGrows(b, p, {}, b');
    GrowsParts(b', t);
    ForkChild(t, fork, n);
  }

  lemma ForkChild(t: Tree, fork: string, n: string)
    requires Valid(t) && fork in t.steps && n in t.steps[fork].next
    ensures n in t.steps && t.steps[n].prev == fork
    ensures forall x | x in t.steps[fork].parallel :: x in t.steps
  {
    assert n in Children(t.steps[fork]);
    if fork !in t.depth {
      DetachedAt(t, fork);
    }
    ValidAt(t, fork);
    hide Valid;
    forall x | x in t.steps[fork].parallel
      ensures x in t.steps
    {
      assert x in Children(t.steps[fork]);
    }
  }
}
