/** Linear workflows as trees: the savepoint that protects a prefix, and what a rollback covers. */
module SagaChains {
  import opened Definitions
  import opened Trees
  import opened Store
  import opened Rollback
  import opened RollbackTrees
  import opened RollbackExact
  import opened RollbackTheorems
  import opened RollbackEngine

  /** The main flow is a chain of tasks and savepoints; everything else is a detached
      compensation task; failures are not parked in the dead-letter state. */
  predicate LinearFlow(def: Definition, chain: seq<string>) {
    && chain != [] && Distinct(chain) && chain[0] == def.start && !def.dlqEnabled
    && ROOT_STEP !in def.steps && "" !in def.steps
    && (forall k | 0 <= k < |chain| :: chain[k] in def.steps)
    && (forall k: nat | k < |chain| :: IsLink(def.steps, chain, k))
    && (forall n | n in def.steps && n !in chain :: Detached(def.steps[n]) && def.steps[n].kind == Task)
  }

  predicate IsLink(steps: Steps, chain: seq<string>, k: nat)
    requires k < |chain| && chain[k] in steps
  {
    var d := steps[chain[k]];
    && (d.kind == Task || d.kind == SavePoint) && d.parallel == [] && d.els == ""
    && d.next == (if k + 1 < |chain| then [chain[k + 1]] else [])
    && d.prev == (if k == 0 then ROOT_STEP else chain[k - 1])
  }

  function Index(chain: seq<string>, x: string): (k: nat)
    requires x in chain
    ensures k < |chain| && chain[k] == x
  {
    if chain[0] == x then 0 else 1 + Index(chain[1..], x)
  }

  function ChainTree(def: Definition, chain: seq<string>): Tree {
    Tree(def.steps, def.start, map x | x in chain :: Index(chain, x), |chain|)
  }

  lemma AtIndex(chain: seq<string>, k: nat)
    requires Distinct(chain) && k < |chain|
    ensures chain[k] in chain && Index(chain, chain[k]) == k
  {
  }

  lemma LinkAt(def: Definition, chain: seq<string>, k: nat)
    requires LinearFlow(def, chain) && k < |chain|
    ensures chain[k] in def.steps && IsLink(def.steps, chain, k)
    ensures chain[k] in chain && Index(chain, chain[k]) == k && (chain[k] == def.start <==> k == 0)
  {
    AtIndex(chain, k);
    AtIndex(chain, 0);
  }

  /** The tree at position k of the chain. */
  lemma TreeAt(def: Definition, chain: seq<string>, k: nat)
    requires LinearFlow(def, chain) && k < |chain|
    ensures var t := ChainTree(def, chain);
            && t.steps == def.steps && t.start == def.start && t.height == |chain|
            && chain[k] in t.depth && t.depth[chain[k]] == k && chain[k] in t.steps
  {
    LinkAt(def, chain, k);
  }

  lemma NextIsAll(d: StepDef)
    requires d.parallel == [] && d.els == ""
    ensures Children(d) == d.next
  {
  }

  lemma ChainOwns(def: Definition, chain: seq<string>, k: nat)
    requires LinearFlow(def, chain) && k < |chain|
             && ChainTree(def, chain).depth.Keys <= ChainTree(def, chain).steps.Keys
    ensures chain[k] in ChainTree(def, chain).depth
    ensures OwnsChildren(ChainTree(def, chain), chain[k]) && KindAgrees(def.steps[chain[k]])
  {
    hide LinearFlow, Index, ChainTree, Children;
    TreeAt(def, chain, k);
    LinkAt(def, chain, k);
    NextIsAll(def.steps[chain[k]]);
    if k + 1 < |chain| {
      TreeAt(def, chain, k + 1);
      LinkAt(def, chain, k + 1);
    }
  }

  lemma ChainParent(def: Definition, chain: seq<string>, k: nat)
    requires LinearFlow(def, chain) && 0 < k < |chain|
             && ChainTree(def, chain).depth.Keys <= ChainTree(def, chain).steps.Keys
    ensures chain[k] in ChainTree(def, chain).depth
    ensures HasParent(ChainTree(def, chain), chain[k])
  {
    hide LinearFlow, Index, ChainTree;
    TreeAt(def, chain, k);
    LinkAt(def, chain, k);
    TreeAt(def, chain, k - 1);
    LinkAt(def, chain, k - 1);
    assert Children(def.steps[chain[k - 1]]) == [chain[k]];
  }

  lemma KeysInside(def: Definition, chain: seq<string>)
    requires LinearFlow(def, chain)
    ensures ChainTree(def, chain).depth.Keys <= def.steps.Keys
  {
    forall x | x in chain
      ensures x in def.steps
    {
      LinkAt(def, chain, Index(chain, x));
    }
  }

  lemma ChainTreeValid(def: Definition, chain: seq<string>)
    requires LinearFlow(def, chain)
    ensures Valid(ChainTree(def, chain))
  {
    var t := ChainTree(def, chain);
    KeysInside(def, chain);
    assert Rooted(t) by {
      LinkAt(def, chain, 0);
    }
    forall x | x in t.depth
      ensures OwnsChildren(t, x) && KindAgrees(t.steps[x]) && (x != t.start ==> HasParent(t, x))
    {
      var k := Index(chain, x);
      ChainOwns(def, chain, k);
      LinkAt(def, chain, k);
      if k > 0 {
        ChainParent(def, chain, k);
      }
    }
    hide OwnsChildren, HasParent, KindAgrees, IsLink, Rooted;
  }

  lemma {:induction false} ChainUnder(def: Definition, chain: seq<string>, k: nat, x: string)
    requires LinearFlow(def, chain) && k < |chain|
    ensures Valid(ChainTree(def, chain)) && chain[k] in ChainTree(def, chain).depth
    ensures Under(ChainTree(def, chain), chain[k], x) <==> x in chain && Index(chain, x) <= k
  {
    hide LinearFlow, Valid, ChainTree, Index;
    ChainTreeValid(def, chain);
    LinkAt(def, chain, k);
    TreeAt(def, chain, k);
    ValidAt(ChainTree(def, chain), chain[k]);
    if x in chain {
      LinkAt(def, chain, Index(chain, x));
    }
    if k > 0 {
      ChainUnder(def, chain, k - 1, x);
    }
  }

  /** How many leading steps of the chain the nearest savepoint protects. */
  function Protected(steps: Steps, chain: seq<string>, n: nat): (b: nat)
    requires n <= |chain| && forall k | 0 <= k < n :: chain[k] in steps
    ensures b <= n
    ensures b > 0 ==> steps[chain[b - 1]].kind == SavePoint
    ensures forall k | b <= k < n :: steps[chain[k]].kind != SavePoint
  {
    if n == 0 then 0 else if steps[chain[n - 1]].kind == SavePoint then n else Protected(steps, chain, n - 1)
  }

  /** Where the rollback of step k of the chain stops. */
  function StopOf(def: Definition, chain: seq<string>, k: nat): string
    requires LinearFlow(def, chain) && k < |chain|
  {
    var b := Protected(def.steps, chain, k + 1);
    if b == 0 then ROOT_STEP else chain[b - 1]
  }

  /** The savepoint search ends exactly at the protected prefix. */
  lemma NearestIsProtected(def: Definition, chain: seq<string>, k: nat, stop: string)
    requires LinearFlow(def, chain) && k < |chain| && Valid(ChainTree(def, chain))
             && chain[k] in ChainTree(def, chain).depth
    requires NearestSavePoint(ChainTree(def, chain), chain[k], stop)
    ensures stop == StopOf(def, chain, k)
  {
    hide NearestSavePoint, Valid, ChainTree, IsLink, Index;
    var b := Protected(def.steps, chain, k + 1);
    if b > 0 {
      StopCovers(def, chain, k, stop, b - 1);
    }
    if stop != ROOT_STEP {
      StopFound(def, chain, k, stop);
      var m := Index(chain, stop);
      assert chain[m] == stop && m < b;
    }
  }

  lemma StopFound(def: Definition, chain: seq<string>, k: nat, stop: string)
    requires LinearFlow(def, chain) && k < |chain| && Valid(ChainTree(def, chain))
             && chain[k] in ChainTree(def, chain).depth
    requires NearestSavePoint(ChainTree(def, chain), chain[k], stop) && stop != ROOT_STEP
    ensures stop in chain && Index(chain, stop) <= k && stop in def.steps && def.steps[stop].kind == SavePoint
  {
    hide LinearFlow, Valid;
    ChainUnder(def, chain, k, stop);
    TreeAt(def, chain, Index(chain, stop));
  }

  lemma StopCovers(def: Definition, chain: seq<string>, k: nat, stop: string, m: nat)
    requires LinearFlow(def, chain) && m <= k < |chain| && Valid(ChainTree(def, chain))
             && chain[k] in ChainTree(def, chain).depth
    requires NearestSavePoint(ChainTree(def, chain), chain[k], stop) && chain[m] in def.steps
             && def.steps[chain[m]].kind == SavePoint
    ensures stop in chain && m <= Index(chain, stop) && stop != ROOT_STEP
  {
    RootOutside(def, chain);
    hide LinearFlow, Valid;
    LinkAt(def, chain, m);
    ChainUnder(def, chain, k, chain[m]);
    var t := ChainTree(def, chain);
    assert stop in t.depth && Under(t, stop, chain[m]);
    ChainUnder(def, chain, Index(chain, stop), chain[m]);
  }

  lemma RootOutside(def: Definition, chain: seq<string>)
    requires LinearFlow(def, chain)
    ensures ROOT_STEP !in chain
  {
  }

  lemma DepthIsChain(def: Definition, chain: seq<string>, x: string)
    ensures x in ChainTree(def, chain).depth <==> x in chain
  {
  }

  /** The stop lies just below step b of the chain: the root, or the savepoint before it. */
  predicate StopsAt(def: Definition, chain: seq<string>, stop: string, b: nat, k: nat) {
    && b <= k + 1
    && (b == 0 ==> stop == ROOT_STEP && stop !in chain)
    && (b > 0 ==>
          && stop != ROOT_STEP && stop in chain && Index(chain, stop) == b - 1
          && stop in def.steps && def.steps[stop].kind == SavePoint)
  }

  lemma StopShape(def: Definition, chain: seq<string>, k: nat)
    requires LinearFlow(def, chain) && k < |chain|
    ensures StopsAt(def, chain, StopOf(def, chain, k), Protected(def.steps, chain, k + 1), k)
  {
    RootOutside(def, chain);
    hide IsLink, Index;
    var b := Protected(def.steps, chain, k + 1);
    if b > 0 {
      LinkAt(def, chain, b - 1);
    }
  }

  lemma RootShape(def: Definition, chain: seq<string>, k: nat)
    requires LinearFlow(def, chain)
    ensures StopsAt(def, chain, ROOT_STEP, 0, k)
  {
    RootOutside(def, chain);
  }

  lemma ChainFits(def: Definition, chain: seq<string>, e: Env, b: nat, k: nat)
    requires LinearFlow(def, chain) && k < |chain| && e.steps == def.steps && StopsAt(def, chain, e.stop, b, k)
    ensures Fits(ChainTree(def, chain), e) && chain[k] in ChainTree(def, chain).depth
            && StopAbove(ChainTree(def, chain), e, chain[k])
  {
    hide LinearFlow, Valid, Under, Index, ChainTree;
    TreeAt(def, chain, k);
    ChainTreeValid(def, chain);
    ChainUnder(def, chain, k, e.stop);
    DepthIsChain(def, chain, e.stop);
  }

  /** The rollback of a chain step covers exactly the steps from b up to it. */
  lemma ChainPath(def: Definition, chain: seq<string>, e: Env, b: nat, k: nat, x: string)
    requires LinearFlow(def, chain) && k < |chain| && e.steps == def.steps && StopsAt(def, chain, e.stop, b, k)
    requires Fits(ChainTree(def, chain), e) && chain[k] in ChainTree(def, chain).depth
    ensures OnPath(ChainTree(def, chain), e, chain[k], x) <==> x in chain && b <= Index(chain, x) <= k
  {
    hide LinearFlow, Valid, Under, Index, ChainTree;
    DepthIsChain(def, chain, x);
    ChainUnder(def, chain, k, x);
    if x in chain {
      ChainUnder(def, chain, Index(chain, x), e.stop);
    }
  }

  lemma NoBranches(def: Definition, chain: seq<string>, e: Env, k: nat)
    requires LinearFlow(def, chain) && k < |chain| && e.steps == def.steps && Fits(ChainTree(def, chain), e)
    requires chain[k] in ChainTree(def, chain).depth
    ensures forall p, b :: !OffBranch(ChainTree(def, chain), e, chain[k], p, b)
    ensures forall x :: !BesidePath(ChainTree(def, chain), e, chain[k], x)
  {
    forall p, b
      ensures !OffBranch(ChainTree(def, chain), e, chain[k], p, b)
    {
      if p in chain {
        LinkAt(def, chain, Index(chain, p));
      }
      hide Valid, Under, LinearFlow;
    }
  }
}
