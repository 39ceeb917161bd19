/** The builder language and what running a program does to the builder's graph. */
module Builder {
  import opened Definitions
  import opened Graphs
  import opened CycleDetection

  /** Options of a step.  Metadata and timeouts do not affect anything modelled here. */
  datatype StepOpt =
    | MaxRetriesOpt(n: int)
    | NoIdempotentOpt
    | DelayOpt(delay: real)
    | RetryDelayOpt(retryDelay: real)
    | RetryStrategyOpt(strategy: RetryStrategy)
    | NeutralOpt

  /** A program is a chain of builder calls; the branch functions of Fork and Condition are
      programs for sub-builders. */
  datatype Prog = End | Then(cmd: Cmd, rest: Prog)

  datatype Progs = NoProgs | MoreProgs(head: Prog, tail: Progs)

  datatype Cmd =
    | StepCmd(name: string, handler: string, opts: seq<StepOpt>)
    | OnFailureCmd(name: string, handler: string, opts: seq<StepOpt>)
    | ForkCmd(name: string, branches: Progs)
    | JoinCmd(name: string, strategy: Option<JoinStrategy>)
    | SavePointCmd(name: string)
    | ConditionCmd(name: string, expr: string, els: Option<Prog>)

  /** A builder without error.  The sub-builders are kept to be validated again by Build. */
  datatype BState = BState(
    name: string,
    steps: Steps,
    start: string,
    current: string,
    nesting: nat,
    defaultMaxRetries: int,
    subs: seq<BState>)

  function EmptyBuilder(name: string, nesting: nat, defaultMaxRetries: int): BState {
    BState(name, map[], "", "", nesting, defaultMaxRetries, [])
  }

  predicate IsEmpty(b: BState) {
    b.steps == map[] && b.start == "" && b.current == "" && b.subs == []
  }

  function Bare(kind: StepType, prev: string): StepDef {
    StepDef(kind, "", 0, [], prev, "", "", [], [], All, false, 0.0, 0.0, Fixed)
  }

  function ApplyOpt(d: StepDef, o: StepOpt): StepDef {
    match o
    case MaxRetriesOpt(n) => if d.noIdempotent then d else d.(maxRetries := n)
    case NoIdempotentOpt => d.(noIdempotent := true, maxRetries := 1)
    case DelayOpt(x) => d.(delay := x)
    case RetryDelayOpt(x) => d.(retryDelay := x)
    case RetryStrategyOpt(x) => d.(retryStrategy := x)
    case NeutralOpt => d
  }

  function ApplyOpts(d: StepDef, opts: seq<StepOpt>): (r: StepDef)
    ensures r == d.(maxRetries := r.maxRetries, noIdempotent := r.noIdempotent, delay := r.delay,
                    retryDelay := r.retryDelay, retryStrategy := r.retryStrategy)
    decreases |opts|
  {
    if opts == [] then d else ApplyOpts(ApplyOpt(d, opts[0]), opts[1..])
  }

  /** Whatever the order of the options, a non-idempotent step has one retry. */
  lemma {:induction false} NoIdempotentHasOneRetry(d: StepDef, opts: seq<StepOpt>)
    requires d.noIdempotent ==> d.maxRetries == 1
    ensures ApplyOpts(d, opts).noIdempotent <==> d.noIdempotent || NoIdempotentOpt in opts
    ensures ApplyOpts(d, opts).noIdempotent ==> ApplyOpts(d, opts).maxRetries == 1
    decreases |opts|
  {
    if opts != [] {
      NoIdempotentHasOneRetry(ApplyOpt(d, opts[0]), opts[1..]);
    }
  }

  function TaskStep(b: BState, handler: string, prev: string, opts: seq<StepOpt>): StepDef {
    ApplyOpts(Bare(Task, prev).(handler := handler, maxRetries := b.defaultMaxRetries), opts)
  }

  /** Append `name` to the Next list of the current step. */
  function AppendNext(steps: Steps, current: string, name: string): Steps {
    if current != "" && current != name && current in steps
    then steps[current := steps[current].(next := steps[current].next + [name])]
    else steps
  }

  /** File a new step behind the current one and move on to it. */
  function Advance(b: BState, name: string, d: StepDef): BState {
    b.(steps := AppendNext(b.steps[name := d], b.current, name), current := name)
  }

  /** The first step of a builder becomes its start, below the root. */
  function Opening(b: BState, name: string, d: StepDef): BState {
    if b.start == "" then Advance(b.(start := name), name, d.(prev := ROOT_STEP)) else Advance(b, name, d)
  }

  // ------------------------------------------------------------------ the steps a join waits for

  function Onward(d: StepDef): seq<string> {
    d.next + Link(d.els)
  }

  /** Depth-first search for a condition along Next and Else; "" when there is none. */
  function SeekCondition(steps: Steps, name: string, visited: set<string>): (r: (string, set<string>))
    ensures visited <= r.1
    decreases steps.Keys - visited, 0, 0
  {
    if name == "" || name in visited then ("", visited)
    else if name !in steps then ("", visited + {name})
    else if steps[name].kind == Condition then (name, visited + {name})
    else SeekConditionAll(steps, Onward(steps[name]), visited + {name})
  }

  function SeekConditionAll(steps: Steps, names: seq<string>, visited: set<string>): (r: (string, set<string>))
    ensures visited <= r.1
    decreases steps.Keys - visited, 1, |names|
  {
    if names == [] then ("", visited)
    else
      var r := SeekCondition(steps, names[0], visited);
      if r.0 != "" then r else SeekConditionAll(steps, names[1..], r.1)
  }

  /** Depth-first collection of the steps without Next along Next and Else. */
  function SeekTerminals(steps: Steps, name: string, visited: set<string>): (r: (seq<string>, set<string>))
    ensures visited <= r.1
    decreases steps.Keys - visited, 0, 0
  {
    if name == "" || name in visited then ([], visited)
    else if name !in steps then ([], visited + {name})
    else if steps[name].next == [] then ([name], visited + {name})
    else SeekTerminalsAll(steps, Onward(steps[name]), visited + {name})
  }

  function SeekTerminalsAll(steps: Steps, names: seq<string>, visited: set<string>): (r: (seq<string>, set<string>))
    ensures visited <= r.1
    decreases steps.Keys - visited, 1, |names|
  {
    if names == [] then ([], visited)
    else
      var r := SeekTerminals(steps, names[0], visited);
      var s := SeekTerminalsAll(steps, names[1..], r.1);
      (r.0 + s.0, s.1)
  }

  function TerminalOf(steps: Steps, branch: string): string {
    var found := SeekTerminals(steps, branch, {}).0;
    if found == [] then branch else found[0]
  }

  /** What the join waits for in one branch. */
  function AwaitedIn(steps: Steps, branch: string): string {
    var c := SeekCondition(steps, branch, {}).0;
    if c != "" then VirtualName(c)
    else
      var last := TerminalOf(steps, branch);
      if last != "" then last else branch
  }

  function AwaitedOf(steps: Steps, branches: seq<string>): seq<string> {
    seq(|branches|, i requires 0 <= i < |branches| => AwaitedIn(steps, branches[i]))
  }

  function WaitList(b: BState): seq<string>
    requires b.current in b.steps
  {
    var d := b.steps[b.current];
    if IsFork(d) then AwaitedOf(b.steps, d.parallel) else [b.current]
  }

  // ------------------------------------------------------------------ validation

  /** The checks made on one step of a definition. */
  predicate StepOk(steps: Steps, d: StepDef) {
    && (forall n | n in d.next :: n in steps)
    && (d.onFailure == "" || d.onFailure in steps)
    && (d.els == "" || d.els in steps)
    && (forall n | n in d.parallel :: IsVirtual(n) || n in steps)
    && (d.kind == Join ==> forall n | n in d.waitFor :: IsVirtual(n) || n in steps)
    && (d.kind == Task ==> d.handler != "")
  }

  ghost predicate ValidDefinition(steps: Steps, start: string) {
    && (forall x | x in steps :: ValidName(x) && StepOk(steps, steps[x]))
    && !CycleReachable(DependencyGraph(steps), start)
  }

  /** Build succeeds: the builder itself and, again, all its sub-builders are valid. */
  ghost predicate BuildOk(b: BState) {
    && b.name != "" && b.start != ""
    && ValidDefinition(b.steps, b.start)
    && forall sub | sub in b.subs :: BuildOk(sub)
  }

  // ------------------------------------------------------------------ running a program

  /** None: the builder has recorded an error. */
  ghost function ExecCmd(b: BState, c: Cmd): Option<BState>
    decreases c, 0
  {
    match c
    case StepCmd(name, handler, opts) =>
      if name in b.steps then None
      else Some(Opening(b, name, TaskStep(b, handler, b.current, opts)))
    case OnFailureCmd(name, handler, opts) =>
      if b.current == "" then None
      else
        var steps := b.steps[name := TaskStep(b, handler, "", opts)];
        if b.current in steps
        then Some(b.(steps := steps[b.current := steps[b.current].(onFailure := name)]))
        else None
    case ForkCmd(name, branches) =>
      if branches.NoProgs? || branches.tail.NoProgs? then None
      else ExecBranches(Opening(b, name, Bare(Fork, b.current)), name, branches)
    case JoinCmd(name, strategy) =>
      if b.current == "" || name == "" || b.current !in b.steps then None
      else
        var st := if strategy.None? then All else strategy.value;
        Some(Advance(b, name, Bare(Join, b.current).(waitFor := WaitList(b), strategy := st)))
    case SavePointCmd(name) =>
      if name == "" || b.nesting > 1 then None
      else Some(Advance(b, name, Bare(SavePoint, b.current)))
    case ConditionCmd(name, expr, els) =>
      if name == "" || expr == "" || b.current == "" then None
      else if els.None? then Some(Advance(b, name, Bare(Condition, b.current)))
      else
        var r := Exec(EmptyBuilder(b.name + "_branch_else", b.nesting, b.defaultMaxRetries), els.value);
        if r.None? || r.value.start == "" || !BuildOk(r.value) then None
        else
          var sub := r.value;
          if sub.start !in sub.steps then None else Some(WithElse(b, name, sub))
  }

  /** The branches of a fork, one sub-builder each, merged under the fork. */
  ghost function ExecBranches(b: BState, fork: string, branches: Progs): Option<BState>
    decreases branches, 1
  {
    match branches
    case NoProgs => Some(b)
    case MoreProgs(p, rest) =>
      var r := Exec(EmptyBuilder(b.name + "_branch_", b.nesting + 1, b.defaultMaxRetries), p);
      if r.None? || r.value.start == "" || !BuildOk(r.value) then None
      else
        var sub := r.value;
        if !(sub.steps.Keys !! b.steps.Keys) || sub.start !in sub.steps || fork !in b.steps then None
        else ExecBranches(Merge(b, fork, sub), fork, rest)
  }

  /** A condition behind the current step, with an else branch. */
  function WithElse(b: BState, name: string, sub: BState): BState
    requires sub.start in sub.steps
  {
    var cond := Bare(Condition, b.current).(els := sub.start);
    var merged := b.steps[name := cond] + sub.steps[sub.start := sub.steps[sub.start].(prev := name)];
    b.(steps := AppendNext(merged, b.current, name), current := name, subs := b.subs + [sub])
  }

  function Merge(b: BState, fork: string, sub: BState): BState
    requires sub.start in sub.steps && fork in b.steps
  {
    var d := b.steps[fork];
    var merged := b.steps + sub.steps[sub.start := sub.steps[sub.start].(prev := fork)];
    b.(steps := merged[fork := d.(parallel := d.parallel + [sub.start])], subs := b.subs + [sub])
  }

  ghost function Exec(b: BState, p: Prog): Option<BState>
    decreases p, 1
  {
    match p
    case End => Some(b)
    case Then(c, rest) =>
      var r := ExecCmd(b, c);
      if r.None? then None else Exec(r.value, rest)
  }

  // ------------------------------------------------------------------ names

  function CmdNames(c: Cmd): set<string>
    decreases c, 0
  {
    {c.name} + (match c
                case ForkCmd(_, branches) => ProgsNames(branches)
                case ConditionCmd(_, _, Some(p)) => Names(p)
                case _ => {})
  }

  function ProgsNames(ps: Progs): set<string>
    decreases ps, 1
  {
    match ps
    case NoProgs => {}
    case MoreProgs(p, rest) => Names(p) + ProgsNames(rest)
  }

  function Names(p: Prog): set<string>
    decreases p, 1
  {
    match p
    case End => {}
    case Then(c, rest) => CmdNames(c) + Names(rest)
  }

  /** The program declares no name twice and none of the names already used. */
  predicate CmdFresh(c: Cmd, used: set<string>)
    decreases c, 0
  {
    && c.name !in used
    && (match c
        case ForkCmd(name, branches) => ProgsFresh(branches, used + {name})
        case ConditionCmd(name, _, Some(p)) => Fresh(p, used + {name})
        case _ => true)
  }

  predicate ProgsFresh(ps: Progs, used: set<string>)
    decreases ps, 1
  {
    match ps
    case NoProgs => true
    case MoreProgs(p, rest) => Fresh(p, used) && ProgsFresh(rest, used + Names(p))
  }

  predicate Fresh(p: Prog, used: set<string>)
    decreases p, 1
  {
    match p
    case End => true
    case Then(c, rest) => CmdFresh(c, used) && Fresh(rest, used + CmdNames(c))
  }

  /** Every builder, nested ones included, is opened by Step or Fork, and names are valid. */
  predicate CmdProper(c: Cmd)
    decreases c, 0
  {
    && ValidName(c.name)
    && (match c
        case ForkCmd(_, branches) => ProgsProper(branches)
        case ConditionCmd(_, _, Some(p)) => Opened(p)
        case _ => true)
  }

  predicate ProgsProper(ps: Progs)
    decreases ps, 2
  {
    match ps
    case NoProgs => true
    case MoreProgs(p, rest) => Opened(p) && ProgsProper(rest)
  }

  predicate Proper(p: Prog)
    decreases p, 1
  {
    match p
    case End => true
    case Then(c, rest) => CmdProper(c) && Proper(rest)
  }

  predicate Opened(p: Prog)
    decreases p, 2
  {
    p.Then? && (p.cmd.StepCmd? || p.cmd.ForkCmd?) && Proper(p)
  }
}
