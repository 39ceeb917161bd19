/** The data model of workflow definitions: step definitions, graphs and names. */
module Definitions {

  datatype Option<+T> = None | Some(value: T)

  datatype StepType = Task | Parallel | Condition | Fork | Join | SavePoint | Human

  datatype JoinStrategy = All | Any

  datatype RetryStrategy = Fixed | Exponential | Linear

  /** One step of a workflow definition.  An absent link is the empty string, as in the
      original; durations are real numbers of seconds. */
  datatype StepDef = StepDef(
    kind: StepType,
    handler: string,
    maxRetries: int,
    next: seq<string>,
    prev: string,
    els: string,
    onFailure: string,
    parallel: seq<string>,
    waitFor: seq<string>,
    strategy: JoinStrategy,
    noIdempotent: bool,
    delay: real,
    retryDelay: real,
    retryStrategy: RetryStrategy)

  type Steps = map<string, StepDef>

  datatype Definition = Definition(id: string, name: string, steps: Steps, start: string, dlqEnabled: bool)

  const ROOT_STEP := "_root_"

  const VIRTUAL_PREFIX := "cond#"

  /** A virtual step name stands for a condition whose terminal step is not known yet. */
  predicate IsVirtual(name: string) {
    |name| > 5 && name[..5] == VIRTUAL_PREFIX
  }

  predicate ValidName(name: string) {
    name != "" && name != ROOT_STEP && !IsVirtual(name)
  }

  function VirtualName(condition: string): string {
    VIRTUAL_PREFIX + condition
  }

  predicate IsFork(d: StepDef) {
    d.kind == Fork || d.kind == Parallel
  }

  predicate Distinct<T(==)>(s: seq<T>) {
    forall i, j | 0 <= i < j < |s| :: s[i] != s[j]
  }

  function Elements<T(==)>(s: seq<T>): set<T> {
    set x | x in s
  }

  /** The single link as a list: empty when the link is absent. */
  function Link(name: string): seq<string> {
    if name == "" then [] else [name]
  }

  /** The virtual name of a real step is virtual, hence never a valid step name, and
      distinct conditions have distinct virtual names. */
  lemma VirtualNamesNeverCollide(c: string, d: string)
    requires ValidName(c) && ValidName(d)
    ensures !ValidName(VirtualName(c))
    ensures VirtualName(c) == VirtualName(d) ==> c == d
  {
    assert VirtualName(c)[..5] == VIRTUAL_PREFIX;
    assert VirtualName(c)[5..] == c && VirtualName(d)[5..] == d;
  }
}
