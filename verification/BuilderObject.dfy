/** The builder as an object: its methods change the step map and the current step in place. */
module BuilderObjects {
  import opened Definitions
  import opened Graphs
  import opened CycleDetection
  import opened Builder
  import opened Trees
  import opened BuilderTrees
  import opened BuilderNames
  import opened BuilderComplete
  import opened BuilderExact
  import opened BuilderJoinsKept
  import opened BuilderLayout

  // ------------------------------------------------------------------ searches

  method TraverseForCondition(steps: Steps, name: string, v: Visited) returns (found: string)
    modifies v
    ensures (found, v.names) == SeekCondition(steps, name, old(v.names))
    decreases steps.Keys - v.names, 1, 0
  {
    if name == "" || name in v.names {
      return "";
    }
    v.names := v.names + {name};
    if name !in steps {
      return "";
    }
    var d := steps[name];
    if d.kind == Condition {
      return name;
    }
    var links := Onward(d);
    var i := 0;
    while i < |links|
      invariant 0 <= i <= |links| && old(v.names) + {name} <= v.names
      invariant SeekCondition(steps, name, old(v.names)) == SeekConditionAll(steps, links[i..], v.names)
    {
      assert links[i..][1..] == links[i + 1..];
      found := TraverseForCondition(steps, links[i], v);
      if found != "" {
        return;
      }
      i := i + 1;
    }
    found := "";
  }

  method TraverseForTerminals(steps: Steps, name: string, v: Visited) returns (found: seq<string>)
    modifies v
    ensures (found, v.names) == SeekTerminals(steps, name, old(v.names))
    decreases steps.Keys - v.names, 1, 0
  {
    if name == "" || name in v.names {
      return [];
    }
    v.names := v.names + {name};
    if name !in steps {
      return [];
    }
    if steps[name].next == [] {
      return [name];
    }
    var links := Onward(steps[name]);
    found := [];
    var i := 0;
    ghost var all := SeekTerminals(steps, name, old(v.names));
    assert links[0..] == links && [] + all.0 == all.0;
    while i < |links|
      invariant 0 <= i <= |links| && old(v.names) + {name} <= v.names
      invariant all.0 == found + SeekTerminalsAll(steps, links[i..], v.names).0
      invariant all.1 == SeekTerminalsAll(steps, links[i..], v.names).1
    {
      assert links[i..][1..] == links[i + 1..];
      var more := TraverseForTerminals(steps, links[i], v);
      assert all.0 == found + (more + SeekTerminalsAll(steps, links[i + 1..], v.names).0);
      found := found + more;
      i := i + 1;
    }
    assert found + [] == found;
  }

  method WaitForOf(steps: Steps, branches: seq<string>) returns (waitFor: seq<string>)
    ensures waitFor == AwaitedOf(steps, branches)
  {
    waitFor := [];
    for i := 0 to |branches|
      invariant waitFor == AwaitedOf(steps, branches)[..i]
    {
      var v := new Visited();
      var c := TraverseForCondition(steps, branches[i], v);
      if c != "" {
        waitFor := waitFor + [VirtualName(c)];
      } else {
        var w := new Visited();
        var terminals := TraverseForTerminals(steps, branches[i], w);
        var last := if |terminals| > 0 then terminals[0] else branches[i];
        waitFor := waitFor + [if last != "" then last else branches[i]];
      }
    }
  }

  // ------------------------------------------------------------------ validation

  method AllKnown(names: seq<string>, steps: Steps, skipVirtual: bool) returns (ok: bool)
    ensures ok <==> forall n | n in names :: n in steps || (skipVirtual && IsVirtual(n))
  {
    for i := 0 to |names|
      invariant forall n | n in names[..i] :: n in steps || (skipVirtual && IsVirtual(n))
    {
      if !(skipVirtual && IsVirtual(names[i])) && names[i] !in steps {
        return false;
      }
    }
    ok := true;
  }

  method StepIsOk(steps: Steps, d: StepDef) returns (ok: bool)
    ensures ok <==> StepOk(steps, d)
  {
    ok := AllKnown(d.next, steps, false);
    if !ok || (d.onFailure != "" && d.onFailure !in steps) || (d.els != "" && d.els !in steps) {
      return false;
    }
    ok := AllKnown(d.parallel, steps, true);
    if !ok {
      return;
    }
    if d.kind == Join {
      ok := AllKnown(d.waitFor, steps, true);
      if !ok {
        return;
      }
    }
    ok := !(d.kind == Task && d.handler == "");
  }

  method ValidateDefinition(steps: Steps, start: string) returns (ok: bool)
    ensures ok <==> ValidDefinition(steps, start)
  {
    var rest := steps.Keys;
    while rest != {}
      invariant rest <= steps.Keys
      invariant forall x | x in steps && x !in rest :: ValidName(x) && StepOk(steps, steps[x])
      decreases rest
    {
      var x :| x in rest;
      ok := StepIsOk(steps, steps[x]);
      if !ok || !ValidName(x) {
        return false;
      }
      rest := rest - {x};
    }
    var cyclic, _ := HasCycle(start, steps);
    ok := !cyclic;
  }

  /** Build: validate the builder and then, once more, its sub-builders. */
  method BuildValue(b: BState) returns (ok: bool)
    ensures ok <==> BuildOk(b)
    decreases b
  {
    if b.name == "" || b.start == "" {
      return false;
    }
    ok := ValidateDefinition(b.steps, b.start);
    if !ok {
      return;
    }
    for i := 0 to |b.subs|
      invariant forall sub | sub in b.subs[..i] :: BuildOk(sub)
    {
      ok := BuildValue(b.subs[i]);
      if !ok {
        return;
      }
    }
    ok := true;
  }

  // ------------------------------------------------------------------ the object

  class BuilderObject {
    const name: string
    var steps: Steps
    var startStep: string
    var currentStep: string
    var nestingLevel: nat
    var defaultMaxRetries: int
    var subBuilders: seq<BState>
    var err: bool

    ghost predicate Valid()
      reads this
    {
      currentStep != "" ==> currentStep in steps
    }

    function Value(): BState
      reads this
    {
      BState(name, steps, startStep, currentStep, nestingLevel, defaultMaxRetries, subBuilders)
    }

    /** The builder as a value; None once an error is recorded. */
    ghost function View(): Option<BState>
      reads this
    {
      if err then None else Some(Value())
    }

    constructor (name: string, nestingLevel: nat, defaultMaxRetries: int)
      ensures Valid() && View() == Some(EmptyBuilder(name, nestingLevel, defaultMaxRetries))
    {
      this.name, this.nestingLevel, this.defaultMaxRetries := name, nestingLevel, defaultMaxRetries;
      steps, startStep, currentStep, subBuilders, err := map[], "", "", [], false;
    }

    /** File a step and link it behind the current one. */
    method Place(stepName: string, d: StepDef)
      requires Valid() && !err
      modifies this`steps, this`currentStep
      ensures Valid() && View() == Some(Advance(old(Value()), stepName, d))
    {
      steps := steps[stepName := d];
      if currentStep != "" && currentStep != stepName {
        steps := steps[currentStep := steps[currentStep].(next := steps[currentStep].next + [stepName])];
      }
      currentStep := stepName;
    }

    method Step(stepName: string, handler: string, opts: seq<StepOpt>)
      requires Valid()
      modifies this
      ensures Valid() && View() == Then1(old(View()), StepCmd(stepName, handler, opts))
    {
      if err {
        return;
      }
      if stepName in steps {
        err := true;
        return;
      }
      var d := TaskStep(Value(), handler, currentStep, opts);
      if startStep == "" {
        startStep := stepName;
        d := d.(prev := ROOT_STEP);
      }
      Place(stepName, d);
    }

    method OnFailure(stepName: string, handler: string, opts: seq<StepOpt>)
      requires Valid()
      modifies this
      ensures Valid() && View() == Then1(old(View()), OnFailureCmd(stepName, handler, opts))
    {
      if err {
        return;
      }
      if currentStep == "" {
        err := true;
        return;
      }
      steps := steps[stepName := TaskStep(Value(), handler, "", opts)];
      steps := steps[currentStep := steps[currentStep].(onFailure := stepName)];
    }

    method SavePoint(stepName: string)
      requires Valid()
      modifies this
      ensures Valid() && View() == Then1(old(View()), SavePointCmd(stepName))
    {
      if err {
        return;
      }
      if stepName == "" || nestingLevel > 1 {
        err := true;
        return;
      }
      Place(stepName, Bare(StepType.SavePoint, currentStep));
    }

    method Join(stepName: string, strategy: Option<JoinStrategy>)
      requires Valid()
      modifies this
      ensures Valid() && View() == Then1(old(View()), JoinCmd(stepName, strategy))
    {
      if err {
        return;
      }
      if currentStep == "" || stepName == "" {
        err := true;
        return;
      }
      var st := if strategy.None? then All else strategy.value;
      var prev := steps[currentStep];
      var waitFor := [currentStep];
      if prev.kind == StepType.Fork || prev.kind == Parallel {
        waitFor := WaitForOf(steps, prev.parallel);
      }
      Place(stepName, Bare(StepType.Join, currentStep).(waitFor := waitFor, strategy := st));
    }

    /** A condition; the else function is run on a sub-builder of the same nesting level. */
    method Condition(stepName: string, expr: string, els: Option<Prog>)
      requires Valid()
      modifies this
      ensures Valid() && View() == Then1(old(View()), ConditionCmd(stepName, expr, els))
      decreases ConditionCmd(stepName, expr, els), 0
    {
      if err {
        return;
      }
      if stepName == "" || expr == "" || currentStep == "" {
        err := true;
        return;
      }
      var cond := Bare(StepType.Condition, currentStep);
      if els.None? {
        Place(stepName, cond);
        return;
      }
      var r := RunSub(name + "_branch_else", nestingLevel, defaultMaxRetries, els.value);
      if r.None? || r.value.start !in r.value.steps {
        err := true;
        return;
      }
      PlaceElse(stepName, cond, r.value);
    }

    method PlaceElse(stepName: string, cond: StepDef, sub: BState)
      requires Valid() && !err && currentStep != "" && stepName != ""
      requires cond == Bare(StepType.Condition, currentStep) && sub.start in sub.steps
      modifies this
      ensures Valid() && View() == Some(WithElse(old(Value()), stepName, sub))
    {
      steps := steps[stepName := cond.(els := sub.start)]
               + sub.steps[sub.start := sub.steps[sub.start].(prev := stepName)];
      subBuilders := subBuilders + [sub];
      if currentStep != stepName {
        steps := steps[currentStep := steps[currentStep].(next := steps[currentStep].next + [stepName])];
      }
      currentStep := stepName;
    }

    /** A fork; every branch function is run on a sub-builder one level deeper. */
    method Fork(stepName: string, branches: Progs)
      requires Valid()
      modifies this
      ensures Valid() && View() == Then1(old(View()), ForkCmd(stepName, branches))
      decreases ForkCmd(stepName, branches), 0
    {
      if err {
        return;
      }
      if branches.NoProgs? || branches.tail.NoProgs? {
        err := true;
        return;
      }
      var d := Bare(StepType.Fork, currentStep);
      if startStep == "" {
        startStep := stepName;
        d := d.(prev := ROOT_STEP);
      }
      Place(stepName, d);
      var rest := branches;
      while rest.MoreProgs?
        invariant Valid() && stepName in steps && currentStep == stepName
        invariant rest == branches || rest < branches
        invariant Then1(old(View()), ForkCmd(stepName, branches))
               == if err then None else ExecBranches(Value(), stepName, rest)
        invariant !err
        decreases rest
      {
        AddBranch(stepName, rest.head);
        if err {
          return;
        }
        rest := rest.tail;
      }
    }

    /** One branch of a fork: run it, validate it, merge it. */
    method AddBranch(fork: string, p: Prog)
      requires Valid() && !err && fork in steps && currentStep == fork
      modifies this
      ensures Valid() && (!err ==> fork in steps && currentStep == fork)
      ensures forall rest :: ExecBranches(old(Value()), fork, MoreProgs(p, rest))
                             == if err then None else ExecBranches(Value(), fork, rest)
      decreases p, 3
    {
      hide BuildOk;
      var r := RunSub(name + "_branch_", nestingLevel + 1, defaultMaxRetries, p);
      if r.None? || r.value.start !in r.value.steps {
        err := true;
        return;
      }
      MergeBranch(fork, r.value);
    }

    method MergeBranch(fork: string, sub: BState)
      requires Valid() && !err && fork in steps && currentStep == fork && sub.start in sub.steps
      modifies this
      ensures Valid() && err == !(sub.steps.Keys !! old(steps.Keys))
      ensures !err ==> Value() == Merge(old(Value()), fork, sub) && fork in steps
    {
      var before := steps;
      var placed := sub.steps[sub.start := sub.steps[sub.start].(prev := fork)];
      var names := sub.steps.Keys;
      while names != {}
        invariant names <= sub.steps.Keys && !err && currentStep == fork
        invariant steps == before + map x | x in placed && x !in names :: placed[x]
        invariant (sub.steps.Keys - names) !! before.Keys
        invariant Value() == old(Value()).(steps := steps)
        decreases names
      {
        var n :| n in names;
        if n in steps {
          err := true;
          return;
        }
        var d := sub.steps[n];
        if n == sub.start {
          d := d.(prev := fork);
        }
        steps := steps[n := d];
        names := names - {n};
      }
      assert steps == before + placed;
      steps := steps[fork := steps[fork].(parallel := steps[fork].parallel + [sub.start])];
      subBuilders := subBuilders + [sub];
    }

    method Call(c: Cmd)
      requires Valid()
      modifies this
      ensures Valid() && View() == Then1(old(View()), c)
      decreases c, 1
    {
      match c
      case StepCmd(n, handler, opts) => Step(n, handler, opts);
      case OnFailureCmd(n, handler, opts) => OnFailure(n, handler, opts);
      case ForkCmd(n, branches) => Fork(n, branches);
      case JoinCmd(n, strategy) => Join(n, strategy);
      case SavePointCmd(n) => SavePoint(n);
      case ConditionCmd(n, expr, els) => Condition(n, expr, els);
    }

    /** The builder follows the program: its state is the one computed by Exec. */
    method Run(p: Prog)
      requires Valid()
      modifies this
      ensures Valid()
      ensures View() == if old(View()).None? then None else Exec(old(View()).value, p)
      decreases p, 2, 0
    {
      var rest := p;
      while rest.Then?
        invariant Valid() && (rest == p || rest < p)
        invariant old(View()).None? ==> View().None?
        invariant old(View()).Some? ==>
          Exec(old(View()).value, p) == if View().None? then None else Exec(View().value, rest)
        decreases rest
      {
        Call(rest.cmd);
        rest := rest.rest;
      }
    }

    method Build() returns (ok: bool)
      ensures ok <==> View().Some? && BuildOk(View().value)
    {
      if err {
        return false;
      }
      ok := BuildValue(Value());
    }
  }

  /** Run a branch function on a fresh sub-builder and validate the result; None when the
      sub-builder failed, stayed empty or does not build. */
  method RunSub(name: string, nesting: nat, defaultMaxRetries: int, p: Prog) returns (r: Option<BState>)
    ensures var e := Exec(EmptyBuilder(name, nesting, defaultMaxRetries), p);
            r == if e.Some? && e.value.start != "" && BuildOk(e.value) then e else None
    decreases p, 2, 1
  {
    var sub := new BuilderObject(name, nesting, defaultMaxRetries);
    sub.Run(p);
    if sub.err || sub.startStep == "" {
      return None;
    }
    var ok := BuildValue(sub.Value());
    r := if ok then Some(sub.Value()) else None;
  }

  /** One call on a builder that may already have failed. */
  ghost function Then1(b: Option<BState>, c: Cmd): Option<BState> {
    if b.None? then None else ExecCmd(b.value, c)
  }

  /** A whole program, built: accepted exactly if the builder is named and the program has valid
      names and is complete; the result is a tree of its names in which no join begins. */
  method BuildProgram(name: string, defaultMaxRetries: int, p: Prog) returns (ok: bool, steps: Steps, start: string)
    ensures Started(p) && Fresh(p, {}) ==> (ok <==> name != "" && AllValid(Names(p)) && Complete(p, 1, false))
    ensures ok ==> steps.Keys == Names(p) && ValidDefinition(steps, start)
    ensures Started(p) && Fresh(p, {}) && ok ==> Headed(steps, start)
    ensures Started(p) && Fresh(p, {}) && ok ==>
              ProgLaid(p, "", ROOT_STEP, steps, defaultMaxRetries) && start == FirstName(p)
    ensures Started(p) && Fresh(p, {}) && ok ==> forall j | j in steps && steps[j].kind == Join ::
              WaitsForBranches(steps, j)
    ensures Started(p) && Fresh(p, {}) && ok ==> exists t: Tree ::
              Trees.Valid(t) && t.steps == steps && t.start == start
  {
    ghost var b := EmptyBuilder(name, 1, defaultMaxRetries);
    hide BuildOk, Exec, AllValid, Complete, Headed, WaitsForBranches, Started, Fresh, Opened,
         ProgLaid, FirstName;
    var builder := new BuilderObject(name, 1, defaultMaxRetries);
    builder.Run(p);
    ok := builder.Build();
    steps, start := builder.steps, builder.startStep;
    if ok {
      BuiltIsValid(builder.View());
      ExecKeys(b, p, builder.View().value);
      AcceptedNamesValid(b, p, builder.View().value);
    }
    if Started(p) && Fresh(p, {}) {
      AcceptedIffComplete(b, p);
      StartedOpened(p);
      if ok {
        ProgramsBuildTrees(b, p, builder.View().value);
        EmptyHeaded(b);
        ExecHeaded(b, p, {}, builder.View().value);
        FinishedJoinsWait(b, p, builder.View().value);
        ProgramsAreLaidOut(b, p, builder.View().value);
      }
    }
  }

  /** Build accepts only valid definitions. */
  lemma BuiltIsValid(view: Option<BState>)
    ensures view.Some? && BuildOk(view.value) ==> ValidDefinition(view.value.steps, view.value.start)
  {
  }
}
