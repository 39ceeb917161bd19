/** The builder programs that make linear workflows, and the stores their runs begin in. */
module SagaBuilds {
  import opened Definitions
  import opened Trees
  import opened Store
  import opened Queue
  import opened Builder
  import opened BuilderTrees
  import opened BuilderNames
  import opened BuilderComplete
  import opened BuilderExact
  import opened Engine
  import F = EngineFrames
  import opened EngineRuns
  import opened SagaChains
  import opened Sagas
  import opened SagaRuns

  // ------------------------------------------------------------------ linear programs

  /** Only tasks, compensations and savepoints. */
  predicate Straight(p: Prog) {
    p.Then? ==> (p.cmd.StepCmd? || p.cmd.OnFailureCmd? || p.cmd.SavePointCmd?) && Straight(p.rest)
  }

  /** The steps and savepoints in the order of the calls. */
  function ChainOf(p: Prog): seq<string> {
    if p.End? then [] else (if p.cmd.OnFailureCmd? then [] else [p.cmd.name]) + ChainOf(p.rest)
  }

  /** What Build returns. */
  function Built(id: string, b: BState): Definition {
    Definition(id, b.name, b.steps, b.start, false)
  }

  /** The builder stands at the end of a linear flow. */
  predicate AtEnd(b: BState, chain: seq<string>) {
    LinearFlow(Built("", b), chain) && b.current == chain[|chain| - 1]
  }

  /** A task or savepoint without links but the one back. */
  predicate Leaf(d: StepDef, prev: string) {
    && (d.kind == Task || d.kind == SavePoint) && d.next == [] && d.els == "" && d.parallel == [] && d.prev == prev
  }

  lemma FirstLink(b: BState, name: string, d: StepDef)
    requires IsEmpty(b) && ValidName(name) && Leaf(d.(prev := ROOT_STEP), ROOT_STEP)
    ensures AtEnd(Opening(b, name, d), [name])
  {
    var b' := Opening(b, name, d);
    assert b'.steps == map[name := d.(prev := ROOT_STEP)];
    assert IsLink(b'.steps, [name], 0);
  }

  /** The links of a flow and the steps beside it. */
  predicate Linked(steps: Steps, chain: seq<string>, k: nat) {
    k < |chain| && chain[k] in steps && IsLink(steps, chain, k)
  }

  predicate Aside(steps: Steps, chain: seq<string>) {
    forall x | x in steps && x !in chain :: Detached(steps[x]) && steps[x].kind == Task
  }

  lemma FlowIs(b: BState, chain: seq<string>)
    ensures LinearFlow(Built("", b), chain) <==>
            && chain != [] && Distinct(chain) && chain[0] == b.start && ROOT_STEP !in b.steps && "" !in b.steps
            && (forall k: nat | k < |chain| :: Linked(b.steps, chain, k)) && Aside(b.steps, chain)
  {
    hide IsLink, Detached;
    if forall k: nat | k < |chain| :: Linked(b.steps, chain, k) {
      forall k: nat | k < |chain|
        ensures chain[k] in b.steps && IsLink(b.steps, chain, k)
      {
        assert Linked(b.steps, chain, k);
      }
    }
  }

  /** The links of the longer chain. */
  lemma LinksAfter(b: BState, chain: seq<string>, name: string, d: StepDef, k: nat)
    requires chain != [] && b.current == chain[|chain| - 1] && b.current != "" && name !in b.steps && Leaf(d, b.current)
    requires Distinct(chain) && b.current in b.steps && name !in chain
    requires k < |chain| ==> Linked(b.steps, chain, k)
    requires k <= |chain|
    ensures Linked(Advance(b, name, d).steps, chain + [name], k)
  {
    hide Advance, AppendNext;
    var more, r := chain + [name], Advance(b, name, d).steps;
    AdvanceIs(b, name, d);
    if k < |chain| - 1 {
      assert chain[k] != chain[|chain| - 1];
      assert r[more[k]] == b.steps[chain[k]];
    } else if k < |chain| {
      assert [] + [name] == [name];
    } else {
      assert r[more[k]] == d;
    }
  }

  lemma AdvanceIs(b: BState, name: string, d: StepDef)
    requires b.current != "" && name !in b.steps && b.current in b.steps
    ensures Advance(b, name, d).steps ==
            b.steps[name := d][b.current := b.steps[b.current].(next := b.steps[b.current].next + [name])]
  {
  }

  lemma AsideAfter(b: BState, chain: seq<string>, name: string, d: StepDef)
    requires Aside(b.steps, chain) && b.current in chain && b.current in b.steps && b.current != ""
    ensures Aside(Advance(b, name, d).steps, chain + [name])
  {
    var r := Advance(b, name, d).steps;
    forall x | x in r && x !in chain + [name]
      ensures x in b.steps && x !in chain && r[x] == b.steps[x]
    {
      assert x !in chain && x != name;
    }
  }

  lemma NextLink(b: BState, chain: seq<string>, name: string, d: StepDef)
    requires AtEnd(b, chain) && ValidName(name) && name !in b.steps && Leaf(d, b.current)
    ensures AtEnd(Advance(b, name, d), chain + [name])
  {
    var b' := Advance(b, name, d);
    var more := chain + [name];
    FlowIs(b, chain);
    assert b'.steps.Keys == b.steps.Keys + {name} && b'.start == b.start && b'.current == name by {
      hide LinearFlow;
    }
    hide LinearFlow, Advance, IsLink, Leaf, Aside;
    assert Linked(b.steps, chain, |chain| - 1);
    forall k | 0 <= k < |chain|
      ensures chain[k] in b.steps
    {
      assert Linked(b.steps, chain, k);
    }
    forall k: nat | k <= |chain|
      ensures Linked(b'.steps, more, k)
    {
      LinksAfter(b, chain, name, d, k);
    }
    AsideAfter(b, chain, name, d);
    FlowIs(b', more);
  }

  lemma Attached(b: BState, chain: seq<string>, c: Cmd, b': BState)
    requires AtEnd(b, chain) && c.OnFailureCmd? && ValidName(c.name) && c.name !in b.steps && ExecCmd(b, c) == Some(b')
    ensures AtEnd(b', chain)
  {
    FlowIs(b, chain);
    assert Linked(b.steps, chain, |chain| - 1);
    hide LinearFlow, IsLink, Aside;
    var d := TaskStep(b, c.handler, "", c.opts);
    assert b'.steps == b.steps[c.name := d][b.current := b.steps[b.current].(onFailure := c.name)];
    assert b'.start == b.start && b'.current == b.current;
    assert Leaf(d, "") && d.kind == Task;
    hide ExecCmd, TaskStep;
    forall k: nat | k < |chain|
      ensures Linked(b'.steps, chain, k)
    {
      assert Linked(b.steps, chain, k);
      LinkKept(b.steps, chain, k, c.name, d, b.current);
    }
    AsideKept(b.steps, chain, c.name, d, b.current);
    hide Leaf;
    FlowIs(b', chain);
  }

  lemma LinkKept(steps: Steps, chain: seq<string>, k: nat, name: string, d: StepDef, current: string)
    requires Linked(steps, chain, k) && name !in steps && current in steps
    ensures Linked(steps[name := d][current := steps[current].(onFailure := name)], chain, k)
  {
  }

  lemma AsideKept(steps: Steps, chain: seq<string>, name: string, d: StepDef, current: string)
    requires Aside(steps, chain) && name !in steps && current in steps && current in chain && Leaf(d, "")
             && d.kind == Task
    ensures Aside(steps[name := d][current := steps[current].(onFailure := name)], chain)
  {
  }

  lemma LinkedCmd(b: BState, chain: seq<string>, c: Cmd, b': BState)
    requires AtEnd(b, chain) && (c.StepCmd? || c.OnFailureCmd? || c.SavePointCmd?)
    requires ValidName(c.name) && c.name !in b.steps && ExecCmd(b, c) == Some(b')
    ensures AtEnd(b', chain + if c.OnFailureCmd? then [] else [c.name])
  {
    assert b.start != "";
    match c
    case StepCmd(name, handler, opts) => NextLink(b, chain, name, TaskStep(b, handler, b.current, opts));
    case SavePointCmd(name) => NextLink(b, chain, name, Bare(SavePoint, b.current));
    case OnFailureCmd(_, _, _) =>
      Attached(b, chain, c, b');
      assert chain + [] == chain;
  }

  lemma {:induction false} LinkedProg(b: BState, chain: seq<string>, p: Prog, used: set<string>, b': BState)
    requires AtEnd(b, chain) && Straight(p) && Fresh(p, used) && b.steps.Keys <= used && AllValid(Names(p))
    requires Exec(b, p) == Some(b')
    ensures AtEnd(b', chain + ChainOf(p))
    decreases p
  {
    hide AtEnd, ExecCmd, ValidName;
    if p.End? {
      assert chain + [] == chain;
    } else {
      var c := p.cmd;
      var m := ExecCmd(b, c).value;
      assert c.name in CmdNames(c);
      LinkedCmd(b, chain, c, m);
      CmdKeys(b, c, m);
      var more := chain + if c.OnFailureCmd? then [] else [c.name];
      LinkedProg(m, more, p.rest, used + CmdNames(c), b');
      assert more + ChainOf(p.rest) == chain + ChainOf(p);
    }
  }

  function SavePoints(p: Prog): set<string> {
    if p.End? then {} else (if p.cmd.SavePointCmd? then {p.cmd.name} else {}) + SavePoints(p.rest)
  }

  /** A straight program makes savepoints of its savepoints and tasks of the rest. */
  lemma {:induction false} StraightKinds(b: BState, p: Prog, used: set<string>, b': BState)
    requires Straight(p) && Fresh(p, used) && b.steps.Keys <= used && Exec(b, p) == Some(b')
    ensures forall x | x in b.steps :: x in b'.steps && b'.steps[x].kind == b.steps[x].kind
    ensures forall x | x in Names(p) :: x in b'.steps && b'.steps[x].kind == if x in SavePoints(p) then
            SavePoint else Task
    ensures SavePoints(p) !! used
    decreases p
  {
    if p.Then? {
      var c := p.cmd;
      var m := ExecCmd(b, c).value;
      CmdKeys(b, c, m);
      KindAdded(b, c, m);
      hide ExecCmd;
      StraightKinds(m, p.rest, used + CmdNames(c), b');
    }
  }

  lemma KindAdded(b: BState, c: Cmd, m: BState)
    requires (c.StepCmd? || c.OnFailureCmd? || c.SavePointCmd?) && c.name !in b.steps && ExecCmd(b, c) == Some(m)
    ensures forall x | x in b.steps :: x in m.steps && m.steps[x].kind == b.steps[x].kind
    ensures c.name in m.steps && m.steps[c.name].kind == if c.SavePointCmd? then SavePoint else Task
    ensures CmdNames(c) == {c.name}
  {
  }

  /** What a straight program opened by Step builds, if accepted, is a linear flow along its
      steps and savepoints, and passes the validation of a start. */
  lemma StraightBuildsLinear(b: BState, p: Prog, b': BState, id: string)
    requires IsEmpty(b) && Straight(p) && p.Then? && p.cmd.StepCmd? && Fresh(p, {}) && Exec(b, p) == Some(b')
             && BuildOk(b')
    ensures LinearFlow(Built(id, b'), ChainOf(p)) && Acceptable(Built(id, b'))
    ensures forall x | x in Names(p) :: x in b'.steps && b'.steps[x].kind == if x in SavePoints(p) then
            SavePoint else Task
  {
    AcceptedNamesValid(b, p, b');
    StraightKinds(b, p, {}, b');
    var c := p.cmd;
    assert c.name in CmdNames(c);
    var m := ExecCmd(b, c).value;
    FirstLink(b, c.name, TaskStep(b, c.handler, b.current, c.opts));
    LinkedProg(m, [c.name], p.rest, {} + CmdNames(c), b');
    StartIsThere(b', [c.name] + ChainOf(p.rest), id);
  }

  lemma StartIsThere(b: BState, chain: seq<string>, id: string)
    requires AtEnd(b, chain) && BuildOk(b)
    ensures LinearFlow(Built(id, b), chain) && Acceptable(Built(id, b))
  {
    LinkAt(Built("", b), chain, 0);
  }

  /** Every complete straight program is accepted and builds a linear flow. */
  lemma CompleteStraightBuildsLinear(b: BState, p: Prog, id: string)
    requires IsEmpty(b) && b.name != "" && Straight(p) && p.Then? && p.cmd.StepCmd? && Fresh(p, {})
    requires AllValid(Names(p)) && Complete(p, b.nesting, false)
    ensures exists b' ::
              && Exec(b, p) == Some(b') && BuildOk(b')
              && LinearFlow(Built(id, b'), ChainOf(p)) && Acceptable(Built(id, b'))
  {
    StraightIsShaped(p);
    hide Exec, BuildOk, Complete, AllValid, LinearFlow, Acceptable;
    AcceptedIffComplete(b, p);
    var b' :| Exec(b, p) == Some(b') && BuildOk(b');
    StraightBuildsLinear(b, p, b', id);
  }

  lemma {:induction false} StraightIsShaped(p: Prog)
    requires Straight(p)
    ensures Shaped(p)
  {
    if p.Then? {
      StraightIsShaped(p.rest);
    }
  }

  /** A task, a savepoint and a task. */
  function GuardedProg(a: string, p: string, b: string): Prog {
    Then(StepCmd(a, "h", []), Then(SavePointCmd(p), Then(StepCmd(b, "h", []), End)))
  }

  lemma GuardedIsFresh(a: string, p: string, b: string)
    requires a != p && a != b && p != b
    ensures Fresh(GuardedProg(a, p, b), {})
  {
    var last := Then(StepCmd(b, "h", []), End);
    var rest := Then(SavePointCmd(p), last);
    assert CmdNames(rest.cmd) == {p} && CmdNames(StepCmd(a, "h", [])) == {a} && CmdNames(last.cmd) == {b};
    assert Fresh(last, {} + {a} + {p});
    assert Fresh(rest, {} + {a});
  }

  lemma GuardedNames(a: string, p: string, b: string)
    requires ValidName(a) && ValidName(p) && ValidName(b)
    ensures AllValid(Names(GuardedProg(a, p, b))) && p in Names(GuardedProg(a, p, b))
            && p in SavePoints(GuardedProg(a, p, b))
    ensures ChainOf(GuardedProg(a, p, b)) == [a, p, b]
  {
    hide ValidName;
    var last := Then(StepCmd(b, "h", []), End);
    var rest := Then(SavePointCmd(p), last);
    assert Names(last) == {b} && Names(rest) == {p, b} && Names(GuardedProg(a, p, b)) == {a, p, b};
    assert ChainOf(last) == [b] && ChainOf(rest) == [p, b];
    assert p in SavePoints(rest);
  }

  lemma GuardedIsComplete(a: string, p: string, b: string)
    ensures Straight(GuardedProg(a, p, b)) && Complete(GuardedProg(a, p, b), 0, false)
  {
    var last := Then(StepCmd(b, "h", []), End);
    StraightThen(StepCmd(b, "h", []), End, false);
    StraightThen(SavePointCmd(p), last, false);
    StraightThen(StepCmd(a, "h", []), Then(SavePointCmd(p), last), false);
  }

  lemma StraightThen(c: Cmd, rest: Prog, atFork: bool)
    requires (c.StepCmd? && c.handler != "") || c.SavePointCmd?
    requires Straight(rest) && Complete(rest, 0, false)
    ensures Straight(Then(c, rest)) && Complete(Then(c, rest), 0, atFork)
  {
  }

  lemma GuardedFlow(a: string, p: string, b: string) returns (def: Definition)
    requires a != p && a != b && p != b && ValidName(a) && ValidName(p) && ValidName(b)
    ensures LinearFlow(def, [a, p, b]) && Acceptable(def) && p in def.steps && def.steps[p].kind == SavePoint
  {
    var prog, empty := GuardedProg(a, p, b), EmptyBuilder("w", 0, 0);
    assert prog.Then? && prog.cmd.StepCmd?;
    GuardedIsFresh(a, p, b);
    GuardedNames(a, p, b);
    GuardedIsComplete(a, p, b);
    hide Exec, BuildOk, Complete, AllValid, LinearFlow, Acceptable, Fresh, GuardedProg, Names, SavePoints, ChainOf,
         Straight;
    CompleteStraightBuildsLinear(empty, prog, "w");
    var b' :| Exec(empty, prog) == Some(b') && BuildOk(b') && LinearFlow(Built("w", b'), ChainOf(prog))
      && Acceptable(Built("w", b'));
    StraightBuildsLinear(empty, prog, b', "w");
    def := Built("w", b');
  }

  // ------------------------------------------------------------------ the first store of a run

  /** A store with definitions and nothing else. */
  function NewStore(definitions: map<string, Definition>, clock: real): State {
    State(definitions, map[], map[], map[], map[], map[], map[], map[], 1, 1, 1, 1, clock)
  }

  lemma NewStoreWell(definitions: map<string, Definition>, clock: real)
    requires NoHumans(NewStore(definitions, clock))
    ensures F.WellFormed(NewStore(definitions, clock))
  {
  }

  /** A store with linear definitions and no instance satisfies what linear saga safety asks of
      the first store of a run. */
  lemma NewStoreSagas(definitions: map<string, Definition>, clock: real, chains: map<string, seq<string>>)
    requires forall w | w in definitions :: w in chains && LinearFlow(definitions[w], chains[w])
    ensures F.WellFormed(NewStore(definitions, clock)) && AllSagas(NewStore(definitions, clock), chains)
  {
    var s := NewStore(definitions, clock);
    forall w, n | w in definitions && n in definitions[w].steps
      ensures definitions[w].steps[n].kind != Human
    {
      LinearPlain(definitions[w], chains[w]);
    }
    NewStoreWell(definitions, clock);
    hide LinearFlow;
  }
}
