/** A workflow whose rollback leaves a completed step behind a join alone. */
module RollbackExample {
  import opened Definitions
  import opened Trees
  import opened Store
  import opened Rollback
  import opened RollbackTrees
  import opened RollbackExact
  import opened RollbackTheorems

  /** The names of a fork with two branches, of the join behind it, and of a step behind that. */
  datatype Cast = Cast(f: string, b1: string, b2: string, j: string, c: string)

  predicate Fine(n: Cast) {
    && n.f != n.b1 && n.f != n.b2 && n.f != n.j && n.f != n.c && n.b1 != n.b2 && n.b1 != n.j && n.b1 != n.c
    && n.b2 != n.j && n.b2 != n.c && n.j != n.c
    && ROOT_STEP !in [n.f, n.b1, n.b2, n.j, n.c] && "" !in [n.f, n.b1, n.b2, n.j, n.c]
  }

  function Simple(kind: StepType, prev: string, next: seq<string>): StepDef {
    StepDef(kind, "h", 0, next, prev, "", "", [], [], Any, false, 0.0, 0.0, Fixed)
  }

  function EagerSteps(n: Cast): Steps {
    map[n.f := Simple(Fork, ROOT_STEP, [n.j]).(parallel := [n.b1, n.b2]),
        n.b1 := Simple(Task, n.f, []),
        n.b2 := Simple(Task, n.f, []),
        n.j := Simple(Join, n.f, [n.c]).(waitFor := [n.b1, n.b2]),
        n.c := Simple(Task, n.j, [])]
  }

  function EagerTree(n: Cast): Tree {
    Tree(EagerSteps(n), n.f, map[n.f := 0, n.b1 := 1, n.b2 := 1, n.j := 1, n.c := 2], 2)
  }

  function Rec(id: int, name: string, kind: StepType, status: StepStatus): StepRec {
    StepRec(id, 1, name, kind, status, 0, 0, 0)
  }

  /** Branch b1 completed, hence the join, any branch being enough, and the step behind it; then
      branch b2 failed. */
  function EagerEnv(n: Cast): Env {
    Env(EagerSteps(n), ROOT_STEP, map[
          n.f := Rec(1, n.f, Fork, Completed), n.b1 := Rec(2, n.b1, Task, Completed),
          n.b2 := Rec(3, n.b2, Task, Failed),
          n.j := Rec(4, n.j, Join, Completed), n.c := Rec(5, n.c, Task, Completed)])
  }

  /** A node: its children, its parent and its depth. */
  predicate Node(t: Tree, x: string, children: seq<string>, prev: string, depth: nat) {
    && x in t.steps && x in t.depth && t.depth[x] == depth && t.steps[x].prev == prev
    && Children(t.steps[x]) == children && KindAgrees(t.steps[x])
  }

  lemma EagerNodes(n: Cast)
    requires Fine(n)
    ensures var t := EagerTree(n);
            && t.steps.Keys == {n.f, n.b1, n.b2, n.j, n.c} && t.depth.Keys == t.steps.Keys && t.start == n.f
            && t.height == 2
            && Node(t, n.f, [n.b1, n.b2, n.j], ROOT_STEP, 0) && Node(t, n.b1, [], n.f, 1) && Node(t, n.b2, [], n.f, 1)
            && Node(t, n.j, [n.c], n.f, 1) && Node(t, n.c, [], n.j, 2)
  {
  }

  lemma NodeOwns(t: Tree, x: string, children: seq<string>, prev: string, depth: nat)
    requires t.depth.Keys == t.steps.Keys && Node(t, x, children, prev, depth) && Distinct(children)
    requires forall y | y in children :: y in t.depth && t.steps[y].prev == x && t.depth[y] == depth + 1
    ensures OwnsChildren(t, x) && KindAgrees(t.steps[x])
  {
    hide Children, KindAgrees;
  }

  lemma NodeHasParent(t: Tree, p: string, x: string)
    requires t.depth.Keys == t.steps.Keys && x in t.depth && p in t.depth && t.steps[x].prev == p
    requires x in Children(t.steps[p]) && t.depth[p] + 1 == t.depth[x]
    ensures HasParent(t, x)
  {
  }

  lemma EagerOwners(n: Cast)
    requires Fine(n)
    ensures var t := EagerTree(n);
            && t.depth.Keys == t.steps.Keys == {n.f, n.b1, n.b2, n.j, n.c}
            && OwnsChildren(t, n.f) && OwnsChildren(t, n.b1) && OwnsChildren(t, n.b2) && OwnsChildren(t, n.j)
            && OwnsChildren(t, n.c)
            && KindAgrees(t.steps[n.f]) && KindAgrees(t.steps[n.b1]) && KindAgrees(t.steps[n.b2])
            && KindAgrees(t.steps[n.j]) && KindAgrees(t.steps[n.c])
  {
    hide EagerTree, EagerSteps, Children, KindAgrees, OwnsChildren;
    EagerNodes(n);
    var t := EagerTree(n);
    NodeOwns(t, n.f, [n.b1, n.b2, n.j], ROOT_STEP, 0);
    NodeOwns(t, n.b1, [], n.f, 1);
    NodeOwns(t, n.b2, [], n.f, 1);
    NodeOwns(t, n.j, [n.c], n.f, 1);
    NodeOwns(t, n.c, [], n.j, 2);
  }

  lemma EagerParents(n: Cast)
    requires Fine(n)
    ensures var t := EagerTree(n);
            && t.depth.Keys == t.steps.Keys == {n.f, n.b1, n.b2, n.j, n.c}
            && HasParent(t, n.b1) && HasParent(t, n.b2) && HasParent(t, n.j) && HasParent(t, n.c)
  {
    hide EagerTree, EagerSteps, Children, KindAgrees, HasParent;
    EagerNodes(n);
    var t := EagerTree(n);
    NodeHasParent(t, n.f, n.b1);
    NodeHasParent(t, n.f, n.b2);
    NodeHasParent(t, n.f, n.j);
    NodeHasParent(t, n.j, n.c);
  }

  lemma EagerRooted(n: Cast)
    requires Fine(n)
    ensures Rooted(EagerTree(n)) && EagerTree(n).start == n.f
  {
    hide EagerTree, EagerSteps, Children, KindAgrees;
    EagerNodes(n);
  }

  lemma EagerValid(n: Cast)
    requires Fine(n)
    ensures Valid(EagerTree(n))
  {
    hide EagerTree, EagerSteps, Children, KindAgrees, OwnsChildren, HasParent, Rooted, Fine, Detached;
    EagerOwners(n);
    EagerParents(n);
    EagerRooted(n);
  }

  /** The step behind the join is completed, yet the rollback of the failed branch does not
      compensate it. */
  lemma CompletedContinuationKept(n: Cast)
    requires Fine(n)
    ensures var t, e := EagerTree(n), EagerEnv(n);
            && Fits(t, e) && n.b2 in t.depth && StopAbove(t, e, n.b2)
            && Eligible(e, n.c) && n.c !in RollbackLog(t, e, n.b2)
  {
    hide Valid, RollbackLog, Children, EagerSteps, EagerTree, EagerEnv, Under, Eligible, Branches, StopAbove;
    EagerValid(n);
    EagerNodes(n);
    EagerFacts(n);
    var t, e := EagerTree(n), EagerEnv(n);
    SelfUnder(t, n.b2);
    SelfUnder(t, n.f);
    SelfUnder(t, n.j);
    UnderChild(t, n.f, n.b2, n.f);
    UnderChild(t, n.j, n.c, n.j);
    Apart(t, n.b2, n.j);
    ContinuationKept(t, e, n.b2, n.f, n.j, n.c);
  }

  lemma EagerFacts(n: Cast)
    requires Fine(n) && Valid(EagerTree(n))
    ensures var t, e := EagerTree(n), EagerEnv(n);
            && e.steps == t.steps && e.stop == ROOT_STEP && Eligible(e, n.c) && n.f in e.steps
            && n.j !in Branches(e, n.f)
            && n.b2 in t.depth && StopAbove(t, e, n.b2)
  {
    hide Valid;
  }

  /** Two steps on one level. */
  lemma Apart(t: Tree, x: string, y: string)
    requires Valid(t) && x in t.depth && y in t.depth && t.depth[x] == t.depth[y] && x != y
    ensures !Under(t, x, y)
  {
    if Under(t, x, y) {
      UnderDepth(t, x, y);
    }
  }

  /** For instance. */
  lemma EagerExample()
    ensures Fine(Cast("f", "b1", "b2", "j", "c"))
  {
  }
}
