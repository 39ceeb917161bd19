/** Every builder program yields a tree: the forward links form a tree rooted at the start
    step, with Prev as its parent map and the compensation steps outside it. */
module BuilderTrees {
  import opened Definitions
  import opened Trees
  import opened Builder

  // ------------------------------------------------------------------ grafting

  /** The tree t with the tree sub hung under the step cur, whose definition becomes d. */
  function Graft(t: Tree, sub: Tree, cur: string, d: StepDef): Tree
    requires cur in t.depth && sub.start in sub.steps
  {
    var base := t.depth[cur] + 1;
    Tree(t.steps[cur := d] + sub.steps[sub.start := sub.steps[sub.start].(prev := cur)],
         t.start,
         t.depth + map x | x in sub.depth :: sub.depth[x] + base,
         t.height + sub.height + 1)
  }

  /** d is the definition of cur with one more child. */
  ghost predicate OneMore(was: StepDef, d: StepDef, child: string) {
    && d.prev == was.prev && KindAgrees(d) && Distinct(Children(d))
    && (forall y :: y in Children(d) <==> y in Children(was) || y == child)
  }

  predicate Graftable(t: Tree, sub: Tree, cur: string) {
    && t.depth.Keys <= t.steps.Keys && sub.depth.Keys <= sub.steps.Keys
    && t.steps.Keys !! sub.steps.Keys
    && cur in t.depth && sub.start in sub.depth
  }

  lemma GraftAt(t: Tree, sub: Tree, cur: string, d: StepDef, x: string)
    requires Graftable(t, sub, cur)
    ensures var r := Graft(t, sub, cur, d);
            && r.start == t.start && r.height == t.height + sub.height + 1
            && r.depth.Keys <= r.steps.Keys
            && (x in r.steps <==> x in t.steps || x in sub.steps)
            && (x in r.depth <==> x in t.depth || x in sub.depth)
    ensures x in t.steps ==> Graft(t, sub, cur, d).steps[x] == if x == cur then d else t.steps[x]
    ensures x in sub.steps ==>
              Graft(t, sub, cur, d).steps[x] == sub.steps[x].(prev := if x == sub.start then cur else sub.steps[x].prev)
    ensures x in t.depth ==> Graft(t, sub, cur, d).depth[x] == t.depth[x]
    ensures x in sub.depth ==> Graft(t, sub, cur, d).depth[x] == sub.depth[x] + t.depth[cur] + 1
  {
  }

  lemma GraftValid(t: Tree, sub: Tree, cur: string, d: StepDef)
    requires Valid(t) && Valid(sub) && cur in t.depth && t.steps.Keys !! sub.steps.Keys
    requires cur in t.steps && OneMore(t.steps[cur], d, sub.start)
    ensures sub.start in sub.steps && Valid(Graft(t, sub, cur, d))
  {
    ValidParts(t);
    ValidParts(sub);
    GraftRooted(t, sub, cur, d);
    GraftNodes(t, sub, cur, d);
  }

  lemma GraftNodes(t: Tree, sub: Tree, cur: string, d: StepDef)
    requires Valid(t) && Valid(sub) && Graftable(t, sub, cur)
    requires OneMore(t.steps[cur], d, sub.start)
    ensures var r := Graft(t, sub, cur, d);
            && r.depth.Keys <= r.steps.Keys
            && (forall x | x in r.depth :: (x != r.start ==>
                                            HasParent(r, x)) && OwnsChildren(r, x) && KindAgrees(r.steps[x]))
            && (forall x | x in r.steps && x !in r.depth :: Detached(r.steps[x]))
  {
    hide Valid, Graft, OneMore, HasParent, OwnsChildren, KindAgrees;
    var r := Graft(t, sub, cur, d);
    GraftAt(t, sub, cur, d, cur);
    forall x | x in r.depth
      ensures x != r.start ==> HasParent(r, x)
      ensures OwnsChildren(r, x) && KindAgrees(r.steps[x])
    {
      GraftAt(t, sub, cur, d, x);
      if x in t.depth {
        GraftOuter(t, sub, cur, d, x);
      } else {
        GraftInner(t, sub, cur, d, x);
      }
    }
    forall x | x in r.steps && x !in r.depth
      ensures Detached(r.steps[x])
    {
      GraftDetached(t, sub, cur, d, x);
    }
  }

  lemma GraftDetached(t: Tree, sub: Tree, cur: string, d: StepDef, x: string)
    requires Valid(t) && Valid(sub) && Graftable(t, sub, cur)
    requires x in Graft(t, sub, cur, d).steps && x !in Graft(t, sub, cur, d).depth
    ensures Detached(Graft(t, sub, cur, d).steps[x])
  {
    GraftAt(t, sub, cur, d, x);
    hide Valid, Graft;
    if x in t.steps {
      DetachedAt(t, x);
    } else {
      DetachedAt(sub, x);
    }
  }

  lemma GraftRooted(t: Tree, sub: Tree, cur: string, d: StepDef)
    requires Rooted(t) && Rooted(sub) && Graftable(t, sub, cur) && d.prev == t.steps[cur].prev
    ensures Rooted(Graft(t, sub, cur, d))
  {
    var r := Graft(t, sub, cur, d);
    GraftAt(t, sub, cur, d, t.start);
    GraftAt(t, sub, cur, d, ROOT_STEP);
    GraftAt(t, sub, cur, d, "");
    hide Graft;
    forall x | x in r.depth
      ensures r.depth[x] <= r.height
    {
      GraftAt(t, sub, cur, d, x);
    }
  }

  lemma GraftOuter(t: Tree, sub: Tree, cur: string, d: StepDef, x: string)
    requires Valid(t) && Valid(sub) && Graftable(t, sub, cur)
    requires OneMore(t.steps[cur], d, sub.start) && x in t.depth
    requires Graft(t, sub, cur, d).depth.Keys <= Graft(t, sub, cur, d).steps.Keys && x in Graft(t, sub, cur, d).depth
    ensures x != t.start ==> HasParent(Graft(t, sub, cur, d), x)
    ensures OwnsChildren(Graft(t, sub, cur, d), x) && KindAgrees(Graft(t, sub, cur, d).steps[x])
  {
    hide Valid, Graft, Children, KindAgrees;
    var r := Graft(t, sub, cur, d);
    ValidAt(t, x);
    GraftAt(t, sub, cur, d, x);
    forall y | y in Children(r.steps[x])
      ensures y in r.depth && r.steps[y].prev == x && r.depth[y] == r.depth[x] + 1
    {
      GraftAt(t, sub, cur, d, y);
      SubStart(sub);
    }
    if x != t.start {
      GraftAt(t, sub, cur, d, t.steps[x].prev);
    }
  }

  lemma SubStart(sub: Tree)
    requires Valid(sub)
    ensures sub.start in sub.depth && sub.start in sub.steps && sub.depth[sub.start] == 0
    ensures sub.steps[sub.start].prev == ROOT_STEP && ROOT_STEP !in sub.steps
  {
  }

  lemma GraftInner(t: Tree, sub: Tree, cur: string, d: StepDef, x: string)
    requires Valid(t) && Valid(sub) && Graftable(t, sub, cur)
    requires OneMore(t.steps[cur], d, sub.start) && x in sub.depth
    requires Graft(t, sub, cur, d).depth.Keys <= Graft(t, sub, cur, d).steps.Keys && x in Graft(t, sub, cur, d).depth
    ensures HasParent(Graft(t, sub, cur, d), x)
    ensures OwnsChildren(Graft(t, sub, cur, d), x) && KindAgrees(Graft(t, sub, cur, d).steps[x])
  {
    hide Valid, Graft;
    var r := Graft(t, sub, cur, d);
    ValidAt(sub, x);
    SubStart(sub);
    GraftAt(t, sub, cur, d, x);
    GraftAt(t, sub, cur, d, cur);
    assert Children(r.steps[x]) == Children(sub.steps[x]);
    hide Children;
    forall y | y in Children(r.steps[x])
      ensures y in r.depth && r.steps[y].prev == x && r.depth[y] == r.depth[x] + 1
    {
      GraftAt(t, sub, cur, d, y);
    }
    if x != sub.start {
      GraftAt(t, sub, cur, d, sub.steps[x].prev);
      assert Children(r.steps[sub.steps[x].prev]) == Children(sub.steps[sub.steps[x].prev]) by {
        SamePrevChildren(sub.steps[sub.steps[x].prev], r.steps[sub.steps[x].prev].prev);
      }
    }
  }

  lemma SamePrevChildren(d: StepDef, p: string)
    ensures Children(d.(prev := p)) == Children(d)
  {
  }

  // ------------------------------------------------------------------ single steps

  /** A step that has not been linked to anything. */
  predicate Unlinked(d: StepDef) {
    Children(d) == [] && d.els == "" && d.parallel == []
  }

  function Single(name: string, d: StepDef): Tree {
    Tree(map[name := d.(prev := ROOT_STEP)], name, map[name := 0], 0)
  }

  lemma SingleValid(name: string, d: StepDef)
    requires Unlinked(d) && name != "" && name != ROOT_STEP
    ensures Valid(Single(name, d))
  {
  }

  /** The builder's graph is the tree t and its current step is in the main flow. */
  predicate Grows(b: BState, t: Tree) {
    Valid(t) && t.steps == b.steps && t.start == b.start && b.current in t.depth
  }

  lemma InsertDistinct(a: seq<string>, x: string, c: seq<string>)
    requires Distinct(a + c) && x !in a + c
    ensures Distinct(a + [x] + c)
    ensures forall y :: y in a + [x] + c <==> y in a + c || y == x
  {
    var s := a + [x] + c;
    assert forall k | 0 <= k < |a| :: s[k] == (a + c)[k];
    assert forall k | |a| < k < |s| :: s[k] == (a + c)[k - 1];
    assert s[|a|] == x;
  }

  lemma InsertIsOneMore(t: Tree, cur: string, d: StepDef, a: seq<string>, x: string, c: seq<string>)
    requires Valid(t) && cur in t.depth && cur in t.steps && x !in t.steps
    requires Children(t.steps[cur]) == a + c && Children(d) == a + [x] + c
    requires d.prev == t.steps[cur].prev && KindAgrees(d)
    ensures OneMore(t.steps[cur], d, x)
  {
    ValidAt(t, cur);
    hide Valid, Children, KindAgrees;
    InsertDistinct(a, x, c);
  }

  lemma AppendNextChildren(d: StepDef, name: string)
    ensures Children(d.(next := d.next + [name])) == d.parallel + d.next + [name] + Link(d.els)
    ensures Children(d) == d.parallel + d.next + Link(d.els)
  {
    assert d.parallel + (d.next + [name]) == d.parallel + d.next + [name];
  }

  lemma NextIsOneMore(t: Tree, cur: string, name: string)
    requires Valid(t) && cur in t.depth && cur in t.steps && name !in t.steps
    ensures OneMore(t.steps[cur], t.steps[cur].(next := t.steps[cur].next + [name]), name)
  {
    ValidAt(t, cur);
    var was := t.steps[cur];
    var d := was.(next := was.next + [name]);
    assert KindAgrees(d);
    hide Valid, Children, KindAgrees, OneMore, OwnsChildren;
    AppendNextChildren(was, name);
    InsertIsOneMore(t, cur, d, was.parallel + was.next, name, Link(was.els));
  }

  lemma GrowsParts(b: BState, t: Tree)
    requires Grows(b, t)
    ensures b.current in b.steps && b.start in b.steps && b.start in t.depth
    ensures t.depth.Keys <= t.steps.Keys && "" !in b.steps && ROOT_STEP !in b.steps
  {
  }

  /** A new step behind the current one extends the tree by a leaf. */
  lemma AdvanceGrows(b: BState, t: Tree, name: string, d: StepDef) returns (t': Tree)
    requires Grows(b, t) && name !in b.steps && name != "" && name != ROOT_STEP
    requires Unlinked(d) && d.prev == b.current
    ensures Grows(Advance(b, name, d), t')
    ensures Advance(b, name, d).steps.Keys == b.steps.Keys + {name}
  {
    GrowsParts(b, t);
    hide Valid, OneMore, Graft, Single, Unlinked, Children, Distinct;
    var cur := b.current;
    var d' := t.steps[cur].(next := t.steps[cur].next + [name]);
    SingleValid(name, d);
    NextIsOneMore(t, cur, name);
    GraftSingle(t, name, d, cur, d');
    GraftValid(t, Single(name, d), cur, d');
    t' := Graft(t, Single(name, d), cur, d');
    AppendNextKeys(b.steps, cur, name, d);
  }

  lemma AppendNextKeys(steps: Steps, cur: string, name: string, d: StepDef)
    requires cur in steps && name !in steps && cur != ""
    ensures AppendNext(steps[name := d], cur, name) ==
            steps[name := d][cur := steps[cur].(next := steps[cur].next + [name])]
    ensures AppendNext(steps[name := d], cur, name).Keys == steps.Keys + {name}
  {
  }

  lemma GraftSingle(t: Tree, name: string, d: StepDef, cur: string, d': StepDef)
    requires cur in t.depth && cur in t.steps && name !in t.steps && d.prev == cur
    ensures Single(name, d).steps.Keys == {name} && Single(name, d).start == name
    ensures var r := Graft(t, Single(name, d), cur, d');
            r.steps == t.steps[name := d][cur := d'] && r.start == t.start && name in r.depth && cur in r.depth
  {
    assert Graft(t, Single(name, d), cur, d').steps == t.steps[name := d][cur := d'];
  }

  /** Opening an empty builder starts a one-step tree. */
  lemma OpeningGrows(b: BState, name: string, d: StepDef) returns (t: Tree)
    requires IsEmpty(b) && name != "" && name != ROOT_STEP && Unlinked(d)
    ensures Grows(Opening(b, name, d), t)
    ensures Opening(b, name, d).steps.Keys == {name}
  {
    SingleValid(name, d);
    t := Single(name, d);
    hide Valid;
  }

  /** Changing the definitions without touching any link of the flow keeps the tree. */
  lemma RelabelValid(t: Tree, t': Tree)
    requires Valid(t) && t' == t.(steps := t'.steps) && t.steps.Keys <= t'.steps.Keys
    requires "" !in t'.steps && ROOT_STEP !in t'.steps
    requires forall x | x in t.steps :: t'.steps[x] == t.steps[x].(onFailure := t'.steps[x].onFailure)
    requires forall x | x in t'.steps && x !in t.steps :: Detached(t'.steps[x])
    ensures Valid(t')
  {
    ValidParts(t);
    hide Valid;
    forall x | x in t.depth
      ensures x != t.start ==> HasParent(t', x)
      ensures OwnsChildren(t', x) && KindAgrees(t'.steps[x])
    {
      hide HasParent, OwnsChildren, KindAgrees, Detached;
      RelabelAt(t, t', x);
    }
    forall x | x in t'.steps && x !in t'.depth
      ensures Detached(t'.steps[x])
    {
      hide HasParent, OwnsChildren, KindAgrees;
      if x in t.steps {
        DetachedAt(t, x);
      }
    }
    hide HasParent, OwnsChildren, KindAgrees, Detached;
    Assemble(t');
  }

  lemma RelabelAt(t: Tree, t': Tree, x: string)
    requires Valid(t) && t' == t.(steps := t'.steps) && t.steps.Keys <= t'.steps.Keys && t.depth.Keys <= t.steps.Keys
    requires forall y | y in t.steps :: t'.steps[y] == t.steps[y].(onFailure := t'.steps[y].onFailure)
    requires x in t.depth
    ensures x != t.start ==> HasParent(t', x)
    ensures OwnsChildren(t', x) && KindAgrees(t'.steps[x])
  {
    ValidAt(t, x);
    hide Valid;
    assert Children(t'.steps[x]) == Children(t.steps[x]);
    if x != t.start {
      var p := t.steps[x].prev;
      assert Children(t'.steps[p]) == Children(t.steps[p]);
    }
    hide Children;
  }

  lemma Assemble(t: Tree)
    requires Rooted(t)
    requires forall x | x in t.depth :: (x != t.start ==>
                                         HasParent(t, x)) && OwnsChildren(t, x) && KindAgrees(t.steps[x])
    requires forall x | x in t.steps && x !in t.depth :: Detached(t.steps[x])
    ensures Valid(t)
  {
  }

  /** A compensation step stays outside the tree. */
  lemma CompensationGrows(b: BState, t: Tree, name: string, d: StepDef, b': BState) returns (t': Tree)
    requires Grows(b, t) && name !in b.steps && name != "" && name != ROOT_STEP
    requires Unlinked(d) && d.prev == "" && b.current in b.steps
    requires b' == b.(steps := b.steps[name := d][b.current := b.steps[b.current].(onFailure := name)])
    ensures Grows(b', t')
  {
    hide Valid, Distinct, Children;
    GrowsParts(b, t);
    t' := t.(steps := b'.steps);
    RelabelValid(t, t');
  }

  lemma BranchIsOneMore(t: Tree, fork: string, x: string)
    requires Valid(t) && fork in t.depth && fork in t.steps && x !in t.steps && IsFork(t.steps[fork])
    ensures OneMore(t.steps[fork], t.steps[fork].(parallel := t.steps[fork].parallel + [x]), x)
  {
    ValidAt(t, fork);
    hide Valid, OneMore, Distinct, OwnsChildren, HasParent;
    var was := t.steps[fork];
    var d := was.(parallel := was.parallel + [x]);
    BranchChildren(was, x);
    assert KindAgrees(d);
    hide Children, KindAgrees;
    InsertIsOneMore(t, fork, d, was.parallel, x, was.next + Link(was.els));
  }

  lemma BranchChildren(was: StepDef, x: string)
    ensures Children(was) == was.parallel + (was.next + Link(was.els))
    ensures Children(was.(parallel := was.parallel + [x])) == was.parallel + [x] + (was.next + Link(was.els))
  {
  }

  lemma MergeFields(b: BState, fork: string, sub: BState)
    requires sub.steps.Keys !! b.steps.Keys && sub.start in sub.steps && fork in b.steps
    ensures var d := b.steps[fork].(parallel := b.steps[fork].parallel + [sub.start]);
            var r := Merge(b, fork, sub);
            && r.steps == b.steps[fork := d] + sub.steps[sub.start := sub.steps[sub.start].(prev := fork)]
            && r.steps.Keys == b.steps.Keys + sub.steps.Keys && r.steps[fork] == d
            && r == b.(steps := r.steps, subs := b.subs + [sub])
  {
    var d := b.steps[fork].(parallel := b.steps[fork].parallel + [sub.start]);
    MergeIsGraft(b.steps, sub.steps[sub.start := sub.steps[sub.start].(prev := fork)], fork, d);
  }

  /** A merged branch hangs below the fork. */
  lemma MergeGrows(b: BState, t: Tree, fork: string, sub: BState, st: Tree) returns (t': Tree)
    requires Grows(b, t) && Grows(sub, st) && fork == b.current && fork in b.steps && IsFork(b.steps[fork])
    requires sub.steps.Keys !! b.steps.Keys && sub.start in sub.steps
    ensures Grows(Merge(b, fork, sub), t')
    ensures Merge(b, fork, sub).steps.Keys == b.steps.Keys + sub.steps.Keys
    ensures IsFork(Merge(b, fork, sub).steps[fork]) && Merge(b, fork, sub).current == fork
  {
    hide Valid, OneMore, Graft, Merge;
    var d := b.steps[fork].(parallel := b.steps[fork].parallel + [sub.start]);
    BranchIsOneMore(t, fork, sub.start);
    GraftValid(t, st, fork, d);
    t' := Graft(t, st, fork, d);
    GraftFields(t, st, fork, d);
    MergeFields(b, fork, sub);
  }

  lemma GraftFields(t: Tree, sub: Tree, cur: string, d: StepDef)
    requires cur in t.depth && cur in t.steps && sub.start in sub.steps
    ensures var r := Graft(t, sub, cur, d);
            && r.steps == t.steps[cur := d] + sub.steps[sub.start := sub.steps[sub.start].(prev := cur)]
            && r.start == t.start && cur in r.depth
  {
  }

  lemma MergeIsGraft(a: Steps, b: Steps, cur: string, d: StepDef)
    requires a.Keys !! b.Keys && cur in a
    ensures a[cur := d] + b == (a + b)[cur := d]
  {
  }

  lemma ElseIsOneMore(t: Tree, name: string, prev: string, x: string)
    requires Valid(t) && name in t.depth && name in t.steps && x !in t.steps
    requires t.steps[name] == Bare(Condition, prev) && x != ""
    ensures OneMore(t.steps[name], Bare(Condition, prev).(els := x), x)
  {
    hide Valid, OneMore, Distinct;
    var cond := Bare(Condition, prev).(els := x);
    assert Children(t.steps[name]) == [] + [] && Children(cond) == [] + [x] + [];
    InsertIsOneMore(t, name, cond, [], x, []);
  }

  lemma WithElseFields(b: BState, name: string, sub: BState)
    requires b.steps.Keys !! sub.steps.Keys && b.current in b.steps && name !in b.steps && name !in sub.steps
    requires b.current != "" && sub.start in sub.steps
    ensures var plain := Bare(Condition, b.current);
            var r := WithElse(b, name, sub);
            && r.steps == Advance(b, name, plain).steps[name := plain.(els := sub.start)]
                          + sub.steps[sub.start := sub.steps[sub.start].(prev := name)]
            && r.steps.Keys == b.steps.Keys + {name} + sub.steps.Keys
            && r == b.(steps := r.steps, current := name, subs := b.subs + [sub])
  {
    var plain := Bare(Condition, b.current);
    ElseIsGraft(b.steps, sub.steps[sub.start := sub.steps[sub.start].(prev := name)], b.current, name,
                plain, plain.(els := sub.start));
  }

  lemma ElseIsGraft(a: Steps, b: Steps, cur: string, name: string, plain: StepDef, cond: StepDef)
    requires a.Keys !! b.Keys && cur in a && name !in a && name !in b && cur != ""
    ensures AppendNext(a[name := plain], cur, name)[name := cond] + b == AppendNext(a[name := cond] + b, cur, name)
    ensures AppendNext(a[name := cond] + b, cur, name).Keys == a.Keys + {name} + b.Keys
  {
  }

  /** The else branch hangs below its condition, which is a leaf behind the current step. */
  lemma ElseGrows(b: BState, t: Tree, name: string, sub: BState, st: Tree) returns (t': Tree)
    requires Grows(b, t) && Grows(sub, st) && name !in b.steps && name !in sub.steps
    requires name != "" && name != ROOT_STEP && sub.steps.Keys !! b.steps.Keys && sub.start in sub.steps
    ensures Grows(WithElse(b, name, sub), t')
    ensures WithElse(b, name, sub).steps.Keys == b.steps.Keys + {name} + sub.steps.Keys
  {
    hide Valid, OneMore, Graft, AppendNext, WithElse, Unlinked, Children, Distinct;
    GrowsParts(b, t);
    GrowsParts(sub, st);
    BareUnlinked(Condition, b.current);
    var t1 := AdvanceGrows(b, t, name, Bare(Condition, b.current));
    AppendNextKeys(b.steps, b.current, name, Bare(Condition, b.current));
    t' := ElseTree(t1, st, name, b.current);
    WithElseFields(b, name, sub);
  }

  lemma ElseTree(t: Tree, st: Tree, name: string, prev: string) returns (t': Tree)
    requires Valid(t) && Valid(st) && name in t.depth && name in t.steps && t.steps[name] == Bare(Condition, prev)
    requires t.steps.Keys !! st.steps.Keys && st.start in st.steps && st.start != ""
    ensures Valid(t') && t'.start == t.start && name in t'.depth
    ensures t'.steps == t.steps[name := Bare(Condition, prev).(els := st.start)]
                        + st.steps[st.start := st.steps[st.start].(prev := name)]
  {
    hide Valid, OneMore, Graft;
    var cond := Bare(Condition, prev).(els := st.start);
    ElseIsOneMore(t, name, prev, st.start);
    GraftValid(t, st, name, cond);
    t' := Graft(t, st, name, cond);
    GraftFields(t, st, name, cond);
  }

  // ------------------------------------------------------------------ whole programs

  lemma TaskUnlinked(b: BState, handler: string, prev: string, opts: seq<StepOpt>)
    ensures Unlinked(TaskStep(b, handler, prev, opts)) && TaskStep(b, handler, prev, opts).prev == prev
  {
  }

  lemma BareUnlinked(kind: StepType, prev: string)
    ensures Unlinked(Bare(kind, prev)) && Bare(kind, prev).prev == prev
  {
  }

  predicate Nested(c: Cmd) {
    c.ForkCmd? || (c.ConditionCmd? && c.els.Some?)
  }

  lemma SimpleCmdGrows(b: BState, t: Tree, c: Cmd, b': BState) returns (t': Tree)
    requires Grows(b, t) && ValidName(c.name) && c.name !in b.steps && !Nested(c)
    requires ExecCmd(b, c) == Some(b')
    ensures Grows(b', t') && b'.steps.Keys == b.steps.Keys + {c.name}
  {
    GrowsParts(b, t);
    SimpleResult(b, c, b');
    hide Valid, ExecCmd, LeafOf;
    var d := LeafOf(b, c);
    LeafUnlinked(b, c);
    if c.OnFailureCmd? {
      t' := CompensationGrows(b, t, c.name, d, b');
    } else {
      t' := AdvanceGrows(b, t, c.name, d);
    }
  }

  lemma SimpleResult(b: BState, c: Cmd, b': BState)
    requires b.current in b.steps && c.name !in b.steps && b.start != "" && !Nested(c) && ExecCmd(b, c) == Some(b')
    ensures b' == if c.OnFailureCmd?
                  then b.(steps := b.steps[c.name := LeafOf(b,
                                                            c)][b.current := b.steps[b.current].(onFailure := c.name)])
                  else Advance(b, c.name, LeafOf(b, c))
  {
    hide BuildOk, WaitList, ApplyOpts;
  }

  /** The step that a simple call files. */
  function LeafOf(b: BState, c: Cmd): StepDef
    requires b.current in b.steps && !Nested(c)
  {
    match c
    case StepCmd(_, handler, opts) => TaskStep(b, handler, b.current, opts)
    case OnFailureCmd(_, handler, opts) => TaskStep(b, handler, "", opts)
    case JoinCmd(_, strategy) =>
      Bare(Join, b.current).(waitFor := WaitList(b), strategy := if strategy.None? then All else strategy.value)
    case SavePointCmd(_) => Bare(SavePoint, b.current)
    case ConditionCmd(_, _, _) => Bare(Condition, b.current)
  }

  lemma LeafUnlinked(b: BState, c: Cmd)
    requires b.current in b.steps && !Nested(c)
    ensures Unlinked(LeafOf(b, c))
    ensures LeafOf(b, c).prev == if c.OnFailureCmd? then "" else b.current
  {
  }

  lemma ForkParts(c: Cmd, used: set<string>)
    requires c.ForkCmd? && CmdProper(c) && CmdFresh(c, used)
    ensures ProgsProper(c.branches) && ProgsFresh(c.branches, used + {c.name}) && ValidName(c.name) && c.name !in used
  {
  }

  lemma ElseParts(c: Cmd, used: set<string>)
    requires c.ConditionCmd? && c.els.Some? && CmdProper(c) && CmdFresh(c, used)
    ensures Opened(c.els.value) && Fresh(c.els.value, used + {c.name}) && ValidName(c.name) && c.name !in used
  {
  }

  lemma ProgsParts(ps: Progs, used: set<string>)
    requires ps.MoreProgs? && ProgsProper(ps) && ProgsFresh(ps, used)
    ensures Opened(ps.head) && Fresh(ps.head, used) && ProgsProper(ps.tail)
            && ProgsFresh(ps.tail, used + Names(ps.head))
  {
  }

  /** The first branch is run, validated and merged; the others follow. */
  lemma BranchResult(b: BState, fork: string, ps: Progs, b': BState) returns (b0: BState, sub: BState)
    requires ps.MoreProgs? && ExecBranches(b, fork, ps) == Some(b')
    ensures b0 == EmptyBuilder(b.name + "_branch_", b.nesting + 1, b.defaultMaxRetries)
    ensures Exec(b0, ps.head) == Some(sub) && BuildOk(sub) && sub.start != "" && sub.steps.Keys !! b.steps.Keys
    ensures sub.start in sub.steps && fork in b.steps && ExecBranches(Merge(b, fork, sub), fork, ps.tail) == Some(b')
  {
    b0 := EmptyBuilder(b.name + "_branch_", b.nesting + 1, b.defaultMaxRetries);
    sub := Exec(b0, ps.head).value;
  }

  lemma ValidParted(name: string)
    requires ValidName(name)
    ensures name != "" && name != ROOT_STEP
  {
  }

  /** A call that does not open the builder keeps the tree and adds exactly its names. */
  lemma {:induction false} CmdGrows(b: BState, t: Tree, c: Cmd, used: set<string>, b': BState) returns (t': Tree)
    requires Grows(b, t) && CmdProper(c) && CmdFresh(c, used) && b.steps.Keys <= used
    requires ExecCmd(b, c) == Some(b')
    ensures Grows(b', t') && b'.steps.Keys == b.steps.Keys + CmdNames(c)
    decreases c, 0
  {
    hide Valid, BuildOk, WaitList, AppendNext, ApplyOpts, ExecCmd;
    assert ValidName(c.name) && c.name !in used;
    match c
    case ForkCmd(name, branches) =>
      t' := ForkGrows(b, t, c, used, b');
    case ConditionCmd(name, expr, Some(p)) =>
      t' := ConditionGrows(b, t, c, used, b');
    case _ =>
      t' := SimpleCmdGrows(b, t, c, b');
  }

  lemma {:induction false} ForkGrows(b: BState, t: Tree, c: Cmd, used: set<string>, b': BState) returns (t': Tree)
    requires Grows(b, t) && CmdProper(c) && CmdFresh(c, used) && b.steps.Keys <= used && c.ForkCmd?
    requires ExecCmd(b, c) == Some(b')
    ensures Grows(b', t') && b'.steps.Keys == b.steps.Keys + CmdNames(c)
    decreases c, 0, 0
  {
    hide Valid, BuildOk, AppendNext, CmdProper, CmdFresh, ProgsProper, ProgsFresh, Unlinked, ValidName, ExecCmd,
         ExecBranches, Advance;
    ForkParts(c, used);
    ValidParted(c.name);
    GrowsParts(b, t);
    var d := Bare(Fork, b.current);
    BareUnlinked(Fork, b.current);
    var t1 := AdvanceGrows(b, t, c.name, d);
    ForkFiled(b, c, b');
    ForkNames(c);
    t' := BranchesGrow(Advance(b, c.name, d), t1, c.name, c.branches, used + {c.name}, b');
  }

  lemma ForkNames(c: Cmd)
    requires c.ForkCmd?
    ensures CmdNames(c) == {c.name} + ProgsNames(c.branches)
  {
  }

  /** The fork is filed, then its branches are run. */
  lemma ForkFiled(b: BState, c: Cmd, b': BState)
    requires c.ForkCmd? && ExecCmd(b, c) == Some(b') && b.start != "" && b.current in b.steps && c.name !in b.steps
             && b.current != ""
    ensures var m := Advance(b, c.name, Bare(Fork, b.current));
            && ExecBranches(m, c.name, c.branches) == Some(b') && m.current == c.name && m.start == b.start
            && c.name in m.steps && m.steps[c.name] == Bare(Fork, b.current)
  {
    hide ExecBranches;
  }

  lemma ConditionResult(b: BState, c: Cmd, b': BState) returns (b0: BState, sub: BState)
    requires c.ConditionCmd? && c.els.Some? && ExecCmd(b, c) == Some(b')
    ensures b0 == EmptyBuilder(b.name + "_branch_else", b.nesting, b.defaultMaxRetries)
    ensures Exec(b0, c.els.value) == Some(sub) && BuildOk(sub)
    ensures sub.start in sub.steps && b' == WithElse(b, c.name, sub)
  {
    b0 := EmptyBuilder(b.name + "_branch_else", b.nesting, b.defaultMaxRetries);
    sub := Exec(b0, c.els.value).value;
  }

  lemma {:induction false} ConditionGrows(b: BState, t: Tree, c: Cmd, used: set<string>, b': BState) returns (t': Tree)
    requires Grows(b, t) && CmdProper(c) && CmdFresh(c, used) && b.steps.Keys <= used
    requires c.ConditionCmd? && c.els.Some? && ExecCmd(b, c) == Some(b')
    ensures Grows(b', t') && b'.steps.Keys == b.steps.Keys + CmdNames(c)
    decreases c, 0, 0
  {
    hide Valid, Exec, ExecCmd, WithElse, BuildOk, CmdProper, CmdFresh, Opened, Fresh, ValidName;
    GrowsParts(b, t);
    ElseParts(c, used);
    ValidParted(c.name);
    var p, name := c.els.value, c.name;
    var b0, sub := ConditionResult(b, c, b');
    var st := OpenedGrows(b0, p, used + {name}, sub);
    NamesAreFresh(p, used + {name});
    t' := ElseGrows(b, t, name, sub, st);
  }

  lemma {:induction false} BranchesGrow(b: BState, t: Tree, fork: string, ps: Progs, used: set<string>, b': BState)
    returns (t': Tree)
    requires Grows(b, t) && b.current == fork && fork in b.steps && IsFork(b.steps[fork])
    requires ProgsProper(ps) && ProgsFresh(ps, used) && b.steps.Keys <= used
    requires ExecBranches(b, fork, ps) == Some(b')
    ensures Grows(b', t') && b'.steps.Keys == b.steps.Keys + ProgsNames(ps)
    decreases ps, 1
  {
    hide Valid, BuildOk;
    match ps
    case NoProgs => t' := t;
    case MoreProgs(p, rest) =>
      var b0 := EmptyBuilder(b.name + "_branch_", b.nesting + 1, b.defaultMaxRetries);
      var sub := Exec(b0, p).value;
      var st := OpenedGrows(b0, p, used, sub);
      var t1 := MergeGrows(b, t, fork, sub, st);
      t' := BranchesGrow(Merge(b, fork, sub), t1, fork, rest, used + Names(p), b');
  }

  lemma {:induction false} ProgGrows(b: BState, t: Tree, p: Prog, used: set<string>, b': BState) returns (t': Tree)
    requires Grows(b, t) && Proper(p) && Fresh(p, used) && b.steps.Keys <= used
    requires Exec(b, p) == Some(b')
    ensures Grows(b', t') && b'.steps.Keys == b.steps.Keys + Names(p)
    decreases p, 1
  {
    hide Valid, BuildOk;
    match p
    case End => t' := t;
    case Then(c, rest) =>
      var b1 := ExecCmd(b, c).value;
      var t1 := CmdGrows(b, t, c, used, b1);
      t' := ProgGrows(b1, t1, rest, used + CmdNames(c), b');
  }

  /** Every program opened by Step or Fork, with fresh valid names, yields a tree. */
  lemma {:induction false} OpenedGrows(b: BState, p: Prog, used: set<string>, b': BState) returns (t: Tree)
    requires IsEmpty(b) && Opened(p) && Fresh(p, used)
    requires Exec(b, p) == Some(b')
    ensures Grows(b', t) && b'.steps.Keys == Names(p)
    decreases p, 2
  {
    hide Valid, BuildOk;
    var c := p.cmd;
    assert CmdProper(c) && ValidName(c.name);
    var b1 := ExecCmd(b, c).value;
    var t1: Tree;
    match c {
      case StepCmd(name, handler, opts) =>
        TaskUnlinked(b, handler, b.current, opts);
        t1 := OpeningGrows(b, name, TaskStep(b, handler, b.current, opts));
      case ForkCmd(name, branches) =>
        BareUnlinked(Fork, b.current);
        assert ProgsProper(branches);
        var t0 := OpeningGrows(b, name, Bare(Fork, b.current));
        t1 := BranchesGrow(Opening(b, name, Bare(Fork, b.current)), t0, name, branches, used + {name}, b1);
    }
    t := ProgGrows(b1, t1, p.rest, used + CmdNames(c), b');
  }

  lemma {:induction false} CmdNamesFresh(c: Cmd, used: set<string>)
    requires CmdFresh(c, used)
    ensures CmdNames(c) !! used
    decreases c, 0
  {
    match c
    case ForkCmd(name, branches) => ProgsNamesFresh(branches, used + {name});
    case ConditionCmd(name, _, Some(p)) => NamesAreFresh(p, used + {name});
    case _ =>
  }

  lemma {:induction false} ProgsNamesFresh(ps: Progs, used: set<string>)
    requires ProgsFresh(ps, used)
    ensures ProgsNames(ps) !! used
    decreases ps, 1
  {
    match ps
    case NoProgs =>
    case MoreProgs(p, rest) =>
      NamesAreFresh(p, used);
      ProgsNamesFresh(rest, used + Names(p));
  }

  lemma {:induction false} NamesAreFresh(p: Prog, used: set<string>)
    requires Fresh(p, used)
    ensures Names(p) !! used
    decreases p, 1
  {
    match p
    case End =>
    case Then(c, rest) =>
      CmdNamesFresh(c, used);
      NamesAreFresh(rest, used + CmdNames(c));
  }

  lemma FirstGrows(b: BState, c: Cmd, used: set<string>, b': BState) returns (t: Tree)
    requires IsEmpty(b) && (c.StepCmd? || c.ForkCmd?) && CmdProper(c) && ValidName(c.name) && CmdFresh(c, used)
    requires ExecCmd(b, c) == Some(b')
    ensures Grows(b', t) && b'.steps.Keys == CmdNames(c)
  {
    var p := Then(c, End);
    assert Exec(b', End) == Some(b');
    assert Proper(End) && Names(End) == {} && Fresh(End, used + CmdNames(c));
    t := OpenedGrows(b, p, used, b');
  }

  /** The main result: the graph of a program is a tree rooted at its start step, on exactly
      the names the program declares. */
  lemma ProgramsBuildTrees(b: BState, p: Prog, b': BState)
    requires IsEmpty(b) && Opened(p) && Fresh(p, {}) && Exec(b, p) == Some(b')
    ensures exists t: Tree :: Valid(t) && t.steps == b'.steps && t.start == b'.start
    ensures b'.steps.Keys == Names(p)
  {
    var t := OpenedGrows(b, p, {}, b');
  }
}
