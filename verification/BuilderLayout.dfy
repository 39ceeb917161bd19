/** The graph a program lays out: which step follows which, what each call declares, and which step
    compensates which. */
module BuilderLayout {
  import opened Definitions
  import opened Builder
  import opened BuilderTrees
  import opened BuilderNames

  // ------------------------------------------------------------------ options

  /** The value of the last option of a kind. */
  function LastRetries(opts: seq<StepOpt>): Option<int> {
    if opts == [] then None
    else if opts[|opts| - 1].MaxRetriesOpt? then Some(opts[|opts| - 1].n)
    else LastRetries(opts[..|opts| - 1])
  }

  function LastDelay(opts: seq<StepOpt>): Option<real> {
    if opts == [] then None
    else if opts[|opts| - 1].DelayOpt? then Some(opts[|opts| - 1].delay)
    else LastDelay(opts[..|opts| - 1])
  }

  function LastRetryDelay(opts: seq<StepOpt>): Option<real> {
    if opts == [] then None
    else if opts[|opts| - 1].RetryDelayOpt? then Some(opts[|opts| - 1].retryDelay)
    else LastRetryDelay(opts[..|opts| - 1])
  }

  function LastStrategy(opts: seq<StepOpt>): Option<RetryStrategy> {
    if opts == [] then None
    else if opts[|opts| - 1].RetryStrategyOpt? then Some(opts[|opts| - 1].strategy)
    else LastStrategy(opts[..|opts| - 1])
  }

  function OrElse<T>(x: Option<T>, default: T): T {
    if x.Some? then x.value else default
  }

  lemma {:induction false} ApplyLast(d: StepDef, opts: seq<StepOpt>, o: StepOpt)
    ensures ApplyOpts(d, opts + [o]) == ApplyOpt(ApplyOpts(d, opts), o)
    decreases |opts|
  {
    if opts == [] {
      assert [o][1..] == [];
      assert ApplyOpts(ApplyOpt(d, o), []) == ApplyOpt(d, o);
      assert [] + [o] == [o];
    } else {
      ApplyLast(ApplyOpt(d, opts[0]), opts[1..], o);
      assert (opts + [o])[1..] == opts[1..] + [o];
    }
  }

  /** The last option of each kind counts; the retries of an idempotent step are those of the last
      MaxRetries option, a step that is not idempotent has one. */
  lemma {:induction false} OptionsMean(d: StepDef, opts: seq<StepOpt>)
    requires !d.noIdempotent
    ensures var r := ApplyOpts(d, opts);
            && r.noIdempotent == (NoIdempotentOpt in opts)
            && r.maxRetries == (if NoIdempotentOpt in opts then 1 else OrElse(LastRetries(opts), d.maxRetries))
            && r.delay == OrElse(LastDelay(opts), d.delay)
            && r.retryDelay == OrElse(LastRetryDelay(opts), d.retryDelay)
            && r.retryStrategy == OrElse(LastStrategy(opts), d.retryStrategy)
    decreases |opts|
  {
    if opts != [] {
      var init, last := opts[..|opts| - 1], opts[|opts| - 1];
      assert opts == init + [last];
      OptionsMean(d, init);
      ApplyLast(d, init, last);
      hide ApplyOpts;
    }
  }

  // ------------------------------------------------------------------ the layout of a program

  /** A task with its handler and options. */
  predicate TaskDeclared(d: StepDef, handler: string, opts: seq<StepOpt>, retries: int) {
    && d.kind == Task && d.handler == handler && d.noIdempotent == (NoIdempotentOpt in opts)
    && d.maxRetries == (if NoIdempotentOpt in opts then 1 else OrElse(LastRetries(opts), retries))
    && d.delay == OrElse(LastDelay(opts), 0.0) && d.retryDelay == OrElse(LastRetryDelay(opts), 0.0)
    && d.retryStrategy == OrElse(LastStrategy(opts), Fixed)
  }

  function FirstName(p: Prog): string {
    if p.Then? then p.cmd.name else ""
  }

  function Starts(ps: Progs): seq<string> {
    match ps
    case NoProgs => []
    case MoreProgs(p, rest) => [FirstName(p)] + Starts(rest)
  }

  /** The next call that continues the flow. */
  function NextName(p: Prog): seq<string> {
    match p
    case End => []
    case Then(c, rest) => if c.OnFailureCmd? then NextName(rest) else [c.name]
  }

  predicate CompensationFollows(p: Prog) {
    p.Then? && p.cmd.OnFailureCmd?
  }

  /** What one call declares. */
  predicate CmdLaid(c: Cmd, steps: Steps, retries: int)
    decreases c, 0
  {
    && c.name in steps
    && match c
       case StepCmd(n, handler, opts) => TaskDeclared(steps[n], handler, opts, retries)
       case OnFailureCmd(n, handler, opts) =>
         TaskDeclared(steps[n], handler, opts, retries) && steps[n].prev == "" && steps[n].next == []
       case ForkCmd(n, branches) =>
         steps[n].kind == Fork && steps[n].parallel == Starts(branches) && ProgsLaid(branches, n, steps, retries)
       case JoinCmd(n, strategy) => steps[n].kind == Join && steps[n].strategy == OrElse(strategy, All)
       case SavePointCmd(n) => steps[n].kind == SavePoint
       case ConditionCmd(n, _, None) => steps[n].kind == Condition && steps[n].els == ""
       case ConditionCmd(n, _, Some(p)) =>
         steps[n].kind == Condition && steps[n].els == FirstName(p) && ProgLaid(p, "", n, steps, retries)
  }

  predicate ProgsLaid(ps: Progs, fork: string, steps: Steps, retries: int)
    decreases ps, 1
  {
    match ps
    case NoProgs => true
    case MoreProgs(p, rest) => ProgLaid(p, "", fork, steps, retries) && ProgsLaid(rest, fork, steps, retries)
  }

  /** The calls one after the other: each step of the flow has the step before it as Prev, the next
      one as its only Next, and the compensation named last for it, or none. */
  predicate ProgLaid(p: Prog, cur: string, top: string, steps: Steps, retries: int)
    decreases p, 1
  {
    match p
    case End => true
    case Then(c, rest) =>
      && CmdLaid(c, steps, retries)
      && if c.OnFailureCmd? then
           && cur in steps && (CompensationFollows(rest) || steps[cur].onFailure == c.name)
           && ProgLaid(rest, cur, top, steps, retries)
         else
           && steps[c.name].prev == (if cur == "" then top else cur) && steps[c.name].next == NextName(rest)
           && (CompensationFollows(rest) || steps[c.name].onFailure == "")
           && ProgLaid(rest, c.name, top, steps, retries)
  }

  // ------------------------------------------------------------------ what later calls keep

  /** b has the steps of a with these names, unchanged. */
  predicate Agree(a: Steps, b: Steps, names: set<string>) {
    forall x | x in names && x in a :: x in b && b[x] == a[x]
  }

  /** The definitions differ in Next, Prev and the compensation at most. */
  predicate Alike(d: StepDef, e: StepDef) {
    e == d.(next := e.next, prev := e.prev, onFailure := e.onFailure)
  }

  lemma {:induction false} CmdKept(c: Cmd, a: Steps, b: Steps, retries: int, used: set<string>)
    requires CmdLaid(c, a, retries) && Agree(a, b, CmdNames(c) - {c.name}) && c.name in b && Alike(a[c.name], b[c.name])
    requires c.OnFailureCmd? ==> b[c.name] == a[c.name]
    requires CmdFresh(c, used) && CmdProper(c)
    ensures CmdLaid(c, b, retries)
    decreases c, 0
  {
    match c
    case ForkCmd(n, branches) =>
      ProgsNamesFresh(branches, used + {n});
      ProgsKept(branches, n, a, b, retries, used + {n});
    case ConditionCmd(n, _, Some(p)) =>
      NamesAreFresh(p, used + {n});
      ProgKept(p, "", n, a, b, retries, used + {n});
    case _ =>
  }

  lemma {:induction false} ProgsKept(ps: Progs, fork: string, a: Steps, b: Steps, retries: int, used: set<string>)
    requires ProgsLaid(ps, fork, a, retries) && Agree(a, b, ProgsNames(ps)) && ProgsFresh(ps, used) && ProgsProper(ps)
    ensures ProgsLaid(ps, fork, b, retries)
    decreases ps, 1
  {
    match ps
    case NoProgs =>
    case MoreProgs(p, rest) =>
      ProgKept(p, "", fork, a, b, retries, used);
      ProgsKept(rest, fork, a, b, retries, used + Names(p));
  }

  lemma {:induction false} ProgKept(p: Prog, cur: string, top: string, a: Steps, b: Steps, retries: int,
                                    used: set<string>)
    requires ProgLaid(p, cur, top, a, retries) && Agree(a, b, Names(p)) && Fresh(p, used) && Proper(p)
    requires CompensationFollows(p) ==> cur in a && cur in b && b[cur].onFailure == a[cur].onFailure
    ensures ProgLaid(p, cur, top, b, retries)
    decreases p, 1
  {
    if p.Then? {
      var c, rest := p.cmd, p.rest;
      NameIsIn(c);
      CmdKept(c, a, b, retries, used);
      ProgKept(rest, if c.OnFailureCmd? then cur else c.name, top, a, b, retries, used + CmdNames(c));
    }
  }

  lemma NameIsIn(c: Cmd)
    ensures c.name in CmdNames(c)
  {
  }

  // ------------------------------------------------------------------ hanging a sub-program

  /** A program laid out on its own, hung under another step. */
  lemma LaidUnder(p: Prog, a: Steps, top: string, retries: int, used: set<string>)
    requires Opened(p) && Fresh(p, used) && ProgLaid(p, "", ROOT_STEP, a, retries)
    ensures FirstName(p) in a
    ensures ProgLaid(p, "", top, a[FirstName(p) := a[FirstName(p)].(prev := top)], retries)
  {
    var c, rest, n := p.cmd, p.rest, FirstName(p);
    var b := a[n := a[n].(prev := top)];
    assert CmdFresh(c, used) && Fresh(rest, used + CmdNames(c)) && CmdProper(c) && Proper(rest);
    NameIsIn(c);
    NamesAreFresh(rest, used + CmdNames(c));
    CmdKept(c, a, b, retries, used);
    TopChanges(rest, n, ROOT_STEP, top, a, retries);
    ProgKept(rest, n, top, a, b, retries, used + CmdNames(c));
  }

  /** Behind the first step the top does not matter. */
  lemma {:induction false} TopChanges(p: Prog, cur: string, top: string, top': string, steps: Steps, retries: int)
    requires ProgLaid(p, cur, top, steps, retries) && cur != "" && Proper(p)
    ensures ProgLaid(p, cur, top', steps, retries)
    decreases p
  {
    if p.Then? {
      assert CmdProper(p.cmd) && p.cmd.name != "";
      TopChanges(p.rest, if p.cmd.OnFailureCmd? then cur else p.cmd.name, top, top', steps, retries);
    }
  }

  // ------------------------------------------------------------------ calls

  /** What a call leaves of the steps filed before: only the current one may be linked on. */
  predicate OnlyCurrent(a: Steps, b: Steps, cur: string) {
    && (forall x | x in a && x != cur :: x in b && b[x] == a[x])
    && (cur in a ==> cur in b && Alike(a[cur], b[cur]) && b[cur].prev == a[cur].prev)
  }

  /** What one call does. */
  ghost predicate CallLays(b: BState, c: Cmd, b': BState) {
    && CmdLaid(c, b'.steps, b.defaultMaxRetries) && OnlyCurrent(b.steps, b'.steps, b.current)
    && b'.defaultMaxRetries == b.defaultMaxRetries && c.name in b'.steps && b'.start != ""
    && if c.OnFailureCmd? then
         && b'.current == b.current && b.current in b.steps && b.current in b'.steps
         && b'.steps[b.current].onFailure == c.name && b'.steps[b.current].next == b.steps[b.current].next
       else
         && b'.current == c.name && b'.steps[c.name].next == [] && b'.steps[c.name].onFailure == ""
         && b'.steps[c.name].prev == (if b.current == "" then ROOT_STEP else b.current)
         && (b.current in b.steps ==>
               && b.current in b'.steps && b'.steps[b.current].onFailure == b.steps[b.current].onFailure
               && b'.steps[b.current].next == b.steps[b.current].next + [c.name])
  }

  /** The builder is under way: it has a current step. */
  predicate UnderWay(b: BState) {
    b.start != "" && b.current != "" && b.current in b.steps
  }

  lemma TaskIsDeclared(b: BState, handler: string, prev: string, opts: seq<StepOpt>)
    ensures var d := TaskStep(b, handler, prev, opts);
            && TaskDeclared(d, handler, opts, b.defaultMaxRetries) && d.prev == prev && d.next == []
            && d.onFailure == ""
  {
    OptionsMean(Bare(Task, prev).(handler := handler, maxRetries := b.defaultMaxRetries), opts);
  }

  lemma AdvanceLays(b: BState, name: string, d: StepDef)
    requires UnderWay(b) && name !in b.steps
    ensures var b' := Advance(b, name, d);
            && OnlyCurrent(b.steps, b'.steps, b.current) && b'.current == name && b'.start == b.start
            && name in b'.steps && b'.steps[name] == d && b.current in b'.steps
            && b'.steps[b.current].onFailure == b.steps[b.current].onFailure
            && b'.steps[b.current].next == b.steps[b.current].next + [name]
            && b'.defaultMaxRetries == b.defaultMaxRetries
  {
  }

  lemma SimpleLays(b: BState, c: Cmd, b': BState)
    requires UnderWay(b) && !Nested(c) && c.name !in b.steps && ExecCmd(b, c) == Some(b')
    ensures CallLays(b, c, b')
  {
    SimpleResult(b, c, b');
    hide ExecCmd;
    var d := LeafOf(b, c);
    LeafLaid(b, c);
    if c.OnFailureCmd? {
      hide TaskDeclared, LeafOf;
    } else {
      AdvanceLays(b, c.name, d);
      hide Advance, TaskDeclared, LeafOf;
    }
  }

  lemma LeafLaid(b: BState, c: Cmd)
    requires b.current in b.steps && !Nested(c)
    ensures var d := LeafOf(b, c);
            && d.next == [] && d.onFailure == "" && d.prev == (if c.OnFailureCmd? then "" else b.current)
            && match c
               case StepCmd(_, handler, opts) => TaskDeclared(d, handler, opts, b.defaultMaxRetries)
               case OnFailureCmd(_, handler, opts) => TaskDeclared(d, handler, opts, b.defaultMaxRetries)
               case JoinCmd(_, strategy) => d.kind == Join && d.strategy == OrElse(strategy, All)
               case SavePointCmd(_) => d.kind == SavePoint
               case ConditionCmd(_, _, _) => d.kind == Condition && d.els == ""
               case ForkCmd(_, _) => true
  {
    match c
    case StepCmd(_, handler, opts) => TaskIsDeclared(b, handler, b.current, opts);
    case OnFailureCmd(_, handler, opts) => TaskIsDeclared(b, handler, "", opts);
    case _ => hide WaitList;
  }

  // ------------------------------------------------------------------ programs

  lemma {:induction false} ProgLays(b: BState, p: Prog, used: set<string>, b': BState)
    requires UnderWay(b) && Proper(p) && Fresh(p, used) && b.steps.Keys <= used && Exec(b, p) == Some(b')
    ensures ProgLaid(p, b.current, ROOT_STEP, b'.steps, b.defaultMaxRetries)
            && OnlyCurrent(b.steps, b'.steps, b.current)
    ensures b.current in b'.steps && b'.steps[b.current].next == b.steps[b.current].next + NextName(p)
    ensures CompensationFollows(p) || b'.steps[b.current].onFailure == b.steps[b.current].onFailure
    decreases p, 1
  {
    if p.Then? {
      var c, rest := p.cmd, p.rest;
      var m := ExecCmd(b, c).value;
      CmdLays(b, c, used, m);
      CmdKeys(b, c, m);
      StillUnderWay(b, c, m);
      ProgLays(m, rest, used + CmdNames(c), b');
      hide Exec, ExecCmd;
      CallThenRest(b, c, m, rest, used, b');
    }
  }

  lemma StillUnderWay(b: BState, c: Cmd, m: BState)
    requires UnderWay(b) && CallLays(b, c, m) && ValidName(c.name)
    ensures UnderWay(m)
  {
    hide CmdLaid;
  }

  lemma CallThenRest(b: BState, c: Cmd, m: BState, rest: Prog, used: set<string>, b': BState)
    requires UnderWay(b) && CallLays(b, c, m) && m.steps.Keys == b.steps.Keys + CmdNames(c)
    requires CmdProper(c) && CmdFresh(c, used) && b.steps.Keys <= used && m.defaultMaxRetries == b.defaultMaxRetries
    requires ProgLaid(rest, m.current, ROOT_STEP, b'.steps, m.defaultMaxRetries)
             && OnlyCurrent(m.steps, b'.steps, m.current)
    requires m.current in m.steps && m.current in b'.steps
             && b'.steps[m.current].next == m.steps[m.current].next + NextName(rest)
    requires CompensationFollows(rest) || b'.steps[m.current].onFailure == m.steps[m.current].onFailure
    ensures ProgLaid(Then(c, rest), b.current, ROOT_STEP, b'.steps, b.defaultMaxRetries)
    ensures OnlyCurrent(b.steps, b'.steps, b.current) && b.current in b'.steps
    ensures b'.steps[b.current].next == b.steps[b.current].next + NextName(Then(c, rest))
    ensures c.OnFailureCmd? || b'.steps[b.current].onFailure == b.steps[b.current].onFailure
  {
    NameIsIn(c);
    CmdNamesFresh(c, used);
    assert c.name !in b.steps;
    CmdKept(c, m.steps, b'.steps, b.defaultMaxRetries, used);
    hide CmdLaid, CmdProper, CmdFresh, CmdNames;
    assert [] + NextName(rest) == NextName(rest);
    assert b.current in m.steps;
  }

  lemma {:induction false} CmdLays(b: BState, c: Cmd, used: set<string>, b': BState)
    requires UnderWay(b) && CmdProper(c) && CmdFresh(c, used) && b.steps.Keys <= used && ExecCmd(b, c) == Some(b')
    ensures CallLays(b, c, b')
    decreases c, 0
  {
    hide CallLays, ExecCmd;
    match c
    case ForkCmd(name, branches) => ForkLays(b, c, used, b');
    case ConditionCmd(name, expr, Some(p)) => ElseLays(b, c, used, b');
    case _ => SimpleLays(b, c, b');
  }

  /** What running the branches of a fork does. */
  ghost predicate BranchesLaid(b: BState, fork: string, ps: Progs, b': BState) {
    && fork in b.steps && fork in b'.steps && ProgsLaid(ps, fork, b'.steps, b.defaultMaxRetries)
    && b'.steps[fork] == b.steps[fork].(parallel := b.steps[fork].parallel + Starts(ps))
    && (forall x | x in b.steps && x != fork :: x in b'.steps && b'.steps[x] == b.steps[x])
    && b'.current == b.current && b'.start == b.start && b'.defaultMaxRetries == b.defaultMaxRetries
  }

  lemma {:induction false} BranchesLay(b: BState, fork: string, ps: Progs, used: set<string>, b': BState)
    requires ProgsProper(ps) && ProgsFresh(ps, used) && b.steps.Keys <= used && fork in b.steps
    requires ExecBranches(b, fork, ps) == Some(b')
    ensures BranchesLaid(b, fork, ps, b')
    decreases ps, 1
  {
    if ps.NoProgs? {
      assert b.steps[fork].parallel + [] == b.steps[fork].parallel;
    } else {
      hide Exec, ExecBranches, BuildOk, ProgsProper, ProgsFresh, Opened, Fresh, BranchesLaid, ProgLaid;
      ProgsParts(ps, used);
      var b0, sub := BranchResult(b, fork, ps, b');
      OpenedLays(b0, ps.head, used, sub);
      NamesAreFresh(ps.head, used);
      MergeFields(b, fork, sub);
      var m := Merge(b, fork, sub);
      BranchesLay(m, fork, ps.tail, used + Names(ps.head), b');
      FirstBranchLaid(b, fork, sub, ps, used, b');
    }
  }

  lemma FirstBranchLaid(b: BState, fork: string, sub: BState, ps: Progs, used: set<string>, b': BState)
    requires ps.MoreProgs? && ProgsProper(ps) && ProgsFresh(ps, used) && b.steps.Keys <= used && fork in b.steps
    requires sub.start == FirstName(ps.head) && sub.start in sub.steps && sub.steps.Keys == Names(ps.head)
    requires sub.steps.Keys !! b.steps.Keys && ProgLaid(ps.head, "", ROOT_STEP, sub.steps, b.defaultMaxRetries)
    requires BranchesLaid(Merge(b, fork, sub), fork, ps.tail, b')
    ensures BranchesLaid(b, fork, ps, b')
  {
    hide ProgLaid, ProgsLaid, ProgsProper, ProgsFresh, Names, Opened, Fresh, Merge, BranchesLaid, Starts;
    var p := ps.head;
    ProgsParts(ps, used);
    LaidUnder(p, sub.steps, fork, b.defaultMaxRetries, used);
    var placed := sub.steps[sub.start := sub.steps[sub.start].(prev := fork)];
    MergedAgrees(b, fork, sub, ps.tail, b', p);
    OpenedFacts(p);
    ProgKept(p, "", fork, placed, b'.steps, b.defaultMaxRetries, used);
    BranchAdded(b, fork, sub, ps, b');
  }

  /** The merged branch is left alone by the other branches. */
  lemma MergedAgrees(b: BState, fork: string, sub: BState, rest: Progs, b': BState, p: Prog)
    requires fork in b.steps && sub.start in sub.steps && sub.steps.Keys == Names(p) && sub.steps.Keys !! b.steps.Keys
    requires BranchesLaid(Merge(b, fork, sub), fork, rest, b')
    ensures Agree(sub.steps[sub.start := sub.steps[sub.start].(prev := fork)], b'.steps, Names(p))
  {
    MergeFields(b, fork, sub);
    hide Merge, ProgsLaid, Names, Starts;
  }

  lemma BranchAdded(b: BState, fork: string, sub: BState, ps: Progs, b': BState)
    requires ps.MoreProgs? && fork in b.steps && sub.start == FirstName(ps.head) && sub.start in sub.steps
    requires sub.steps.Keys !! b.steps.Keys && BranchesLaid(Merge(b, fork, sub), fork, ps.tail, b')
    requires ProgLaid(ps.head, "", fork, b'.steps, b.defaultMaxRetries)
    ensures BranchesLaid(b, fork, ps, b')
  {
    hide Merge, ProgLaid, ProgsLaid, Starts;
    MergeKeeps(b, fork, sub);
    LaidCons(ps, fork, b'.steps, b.defaultMaxRetries);
    assert b.steps[fork].parallel + [sub.start] + Starts(ps.tail) ==
           b.steps[fork].parallel + ([sub.start] + Starts(ps.tail));
  }

  lemma LaidCons(ps: Progs, fork: string, steps: Steps, retries: int)
    requires ps.MoreProgs?
    ensures ProgsLaid(ps, fork, steps, retries) <==>
            ProgLaid(ps.head, "", fork, steps, retries) && ProgsLaid(ps.tail, fork, steps, retries)
    ensures Starts(ps) == [FirstName(ps.head)] + Starts(ps.tail)
  {
    hide ProgLaid;
  }

  lemma MergeKeeps(b: BState, fork: string, sub: BState)
    requires sub.steps.Keys !! b.steps.Keys && sub.start in sub.steps && fork in b.steps
    ensures var m := Merge(b, fork, sub);
            && fork in m.steps && m.steps[fork] == b.steps[fork].(parallel := b.steps[fork].parallel + [sub.start])
            && (forall x | x in b.steps && x != fork :: x in m.steps && m.steps[x] == b.steps[x])
            && m.current == b.current && m.start == b.start && m.defaultMaxRetries == b.defaultMaxRetries
  {
    MergeFields(b, fork, sub);
    hide Merge;
  }

  lemma OpenedFacts(p: Prog)
    requires Opened(p)
    ensures Proper(p) && !CompensationFollows(p)
  {
  }

  lemma {:induction false} ForkLays(b: BState, c: Cmd, used: set<string>, b': BState)
    requires UnderWay(b) && c.ForkCmd? && CmdProper(c) && CmdFresh(c, used) && b.steps.Keys <= used
             && ExecCmd(b, c) == Some(b')
    ensures CallLays(b, c, b')
    decreases c, 0, 0
  {
    hide CmdProper, CmdFresh, ProgsProper, ProgsFresh, ExecCmd, ExecBranches, ProgsLaid, BuildOk;
    ForkParts(c, used);
    var d := Bare(Fork, b.current);
    AdvanceLays(b, c.name, d);
    AdvanceFilesKeys(b, c.name, d);
    ForkFiled(b, c, b');
    var m := Advance(b, c.name, d);
    hide Advance;
    BranchesLay(m, c.name, c.branches, used + {c.name}, b');
    ForkCallLaid(b, c, m, b');
  }

  lemma AdvanceFilesKeys(b: BState, name: string, d: StepDef)
    ensures Advance(b, name, d).steps.Keys == b.steps.Keys + {name}
  {
  }

  lemma ForkCallLaid(b: BState, c: Cmd, m: BState, b': BState)
    requires UnderWay(b) && c.ForkCmd? && c.name !in b.steps && OnlyCurrent(b.steps, m.steps, b.current)
    requires m.current == c.name && m.start == b.start && c.name in m.steps && m.steps[c.name] == Bare(Fork, b.current)
    requires b.current in m.steps && m.steps[b.current].onFailure == b.steps[b.current].onFailure
    requires m.steps[b.current].next == b.steps[b.current].next + [c.name] && m.defaultMaxRetries == b.defaultMaxRetries
    requires BranchesLaid(m, c.name, c.branches, b')
    ensures CallLays(b, c, b')
  {
    assert [] + Starts(c.branches) == Starts(c.branches);
    hide ProgsLaid;
  }

  lemma {:induction false} ElseLays(b: BState, c: Cmd, used: set<string>, b': BState)
    requires UnderWay(b) && c.ConditionCmd? && c.els.Some? && CmdProper(c) && CmdFresh(c, used) && b.steps.Keys <= used
    requires ExecCmd(b, c) == Some(b')
    ensures CallLays(b, c, b')
    decreases c, 0, 0
  {
    hide CmdProper, CmdFresh, Opened, Fresh, ExecCmd, Exec, BuildOk, ProgLaid, WithElse, CallLays;
    ElseParts(c, used);
    var p, name := c.els.value, c.name;
    var b0, sub := ConditionResult(b, c, b');
    OpenedLays(b0, p, used + {name}, sub);
    NamesAreFresh(p, used + {name});
    ElseCallLaid(b, c, sub, used);
  }

  lemma ElseCallLaid(b: BState, c: Cmd, sub: BState, used: set<string>)
    requires UnderWay(b) && c.ConditionCmd? && c.els.Some? && c.name !in b.steps && c.name !in sub.steps
    requires Opened(c.els.value) && Fresh(c.els.value, used + {c.name}) && sub.steps.Keys !! b.steps.Keys
    requires sub.start == FirstName(c.els.value) && sub.start in sub.steps && sub.steps.Keys == Names(c.els.value)
    requires ProgLaid(c.els.value, "", ROOT_STEP, sub.steps, b.defaultMaxRetries)
    ensures CallLays(b, c, WithElse(b, c.name, sub))
  {
    hide ProgLaid, Fresh, Names, Opened, WithElse, Advance;
    var p, name := c.els.value, c.name;
    LaidUnder(p, sub.steps, name, b.defaultMaxRetries, used + {name});
    var placed := sub.steps[sub.start := sub.steps[sub.start].(prev := name)];
    var r := WithElse(b, name, sub);
    ElseAgrees(b, name, sub, p);
    OpenedFacts(p);
    ProgKept(p, "", name, placed, r.steps, b.defaultMaxRetries, used + {name});
  }

  lemma ElseAgrees(b: BState, name: string, sub: BState, p: Prog)
    requires UnderWay(b) && name !in b.steps && name !in sub.steps && sub.steps.Keys !! b.steps.Keys
    requires sub.start in sub.steps && sub.steps.Keys == Names(p)
    ensures var r := WithElse(b, name, sub);
            && Agree(sub.steps[sub.start := sub.steps[sub.start].(prev := name)], r.steps, Names(p))
            && OnlyCurrent(b.steps, r.steps, b.current) && r.current == name && r.start == b.start && name in r.steps
            && r.steps[name] == Bare(Condition, b.current).(els := sub.start) && b.current in r.steps
            && r.steps[b.current].onFailure == b.steps[b.current].onFailure
            && r.steps[b.current].next == b.steps[b.current].next + [name] && r.defaultMaxRetries == b.defaultMaxRetries
  {
    var plain := Bare(Condition, b.current);
    AdvanceLays(b, name, plain);
    WithElseFields(b, name, sub);
    AdvanceFilesKeys(b, name, plain);
    hide WithElse, Advance, Names;
  }

  /** A program opened by Step or Fork is laid out below the root. */
  lemma {:induction false} OpenedLays(b: BState, p: Prog, used: set<string>, b': BState)
    requires IsEmpty(b) && Opened(p) && Fresh(p, used) && Exec(b, p) == Some(b')
    ensures ProgLaid(p, "", ROOT_STEP, b'.steps, b.defaultMaxRetries)
    ensures b'.start == FirstName(p) && b'.start in b'.steps && b'.steps.Keys == Names(p)
    decreases p, 2
  {
    var c, rest := p.cmd, p.rest;
    assert CmdProper(c) && ValidName(c.name) && CmdFresh(c, used) && Proper(rest) && Fresh(rest, used + CmdNames(c));
    var m := ExecCmd(b, c).value;
    FirstLays(b, c, used, m);
    CmdKeys(b, c, m);
    NamesAreFresh(rest, used + CmdNames(c));
    ProgLays(m, rest, used + CmdNames(c), b');
    ExecKeys(b, p, b');
    StartStays(m, rest, b');
    hide Exec, ExecCmd;
    FirstThenRest(b, c, m, rest, used, b');
  }

  lemma {:induction false} StartStays(b: BState, p: Prog, b': BState)
    requires b.start != "" && Exec(b, p) == Some(b')
    ensures b'.start == b.start
    decreases p
  {
    hide BuildOk;
    if p.Then? {
      var m := ExecCmd(b, p.cmd).value;
      CmdStart(b, p.cmd, m);
      StartStays(m, p.rest, b');
    }
  }

  lemma CmdStart(b: BState, c: Cmd, b': BState)
    requires b.start != "" && ExecCmd(b, c) == Some(b')
    ensures b'.start == b.start
  {
    hide BuildOk, WaitList, Exec, ExecBranches, ApplyOpts;
    if c.ForkCmd? {
      BranchesStart(Opening(b, c.name, Bare(Fork, b.current)), c.name, c.branches, b');
    }
  }

  lemma {:induction false} BranchesStart(b: BState, fork: string, ps: Progs, b': BState)
    requires ExecBranches(b, fork, ps) == Some(b')
    ensures b'.start == b.start
    decreases ps
  {
    hide BuildOk, Exec;
    if ps.MoreProgs? {
      var b0, sub := BranchResult(b, fork, ps, b');
      BranchesStart(Merge(b, fork, sub), fork, ps.tail, b');
    }
  }

  /** The call that opens a builder. */
  lemma {:induction false} FirstLays(b: BState, c: Cmd, used: set<string>, b': BState)
    requires IsEmpty(b) && (c.StepCmd? || c.ForkCmd?) && CmdProper(c) && CmdFresh(c, used) && ExecCmd(b, c) == Some(b')
    ensures CallLays(b, c, b') && UnderWay(b') && b'.start == c.name
    decreases c, 0
  {
    assert ValidName(c.name);
    if c.StepCmd? {
      TaskIsDeclared(b, c.handler, b.current, c.opts);
      hide TaskDeclared, TaskStep;
    } else {
      var m := Opening(b, c.name, Bare(Fork, b.current));
      assert m.steps == map[c.name := Bare(Fork, ROOT_STEP)] && m.current == c.name && m.start == c.name;
      assert m.defaultMaxRetries == b.defaultMaxRetries;
      ForkParts(c, used);
      hide Opening, ProgsProper, ProgsFresh, ExecBranches, ProgsLaid, CmdProper, CmdFresh;
      BranchesLay(m, c.name, c.branches, used + {c.name}, b');
      assert [] + Starts(c.branches) == Starts(c.branches);
    }
  }

  lemma FirstThenRest(b: BState, c: Cmd, m: BState, rest: Prog, used: set<string>, b': BState)
    requires IsEmpty(b) && !c.OnFailureCmd? && CallLays(b, c, m) && m.steps.Keys == CmdNames(c) && UnderWay(m)
    requires CmdProper(c) && CmdFresh(c, used) && m.defaultMaxRetries == b.defaultMaxRetries
    requires ProgLaid(rest, m.current, ROOT_STEP, b'.steps, m.defaultMaxRetries)
             && OnlyCurrent(m.steps, b'.steps, m.current)
    requires m.current in b'.steps && b'.steps[m.current].next == m.steps[m.current].next + NextName(rest)
    requires CompensationFollows(rest) || b'.steps[m.current].onFailure == m.steps[m.current].onFailure
    ensures ProgLaid(Then(c, rest), "", ROOT_STEP, b'.steps, b.defaultMaxRetries)
  {
    NameIsIn(c);
    CmdKept(c, m.steps, b'.steps, b.defaultMaxRetries, used);
    hide CmdLaid, CmdProper, CmdFresh, CmdNames;
    assert [] + NextName(rest) == NextName(rest);
  }

  /** The graph of a program is the one its calls describe, nested branches included: steps, kinds,
      handlers, options, strategies, Next, Prev, Else, branches and compensations. */
  lemma ProgramsAreLaidOut(b: BState, p: Prog, b': BState)
    requires IsEmpty(b) && Started(p) && AllValid(Names(p)) && Fresh(p, {}) && Exec(b, p) == Some(b')
    ensures ProgLaid(p, "", ROOT_STEP, b'.steps, b.defaultMaxRetries)
    ensures b'.start == FirstName(p) && b'.steps.Keys == Names(p)
  {
    StartedOpened(p);
    hide Exec, ProgLaid;
    OpenedLays(b, p, {}, b');
  }
}
