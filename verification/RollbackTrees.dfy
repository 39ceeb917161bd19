/** Rollback on tree-shaped definitions: the walk with its visited map equals a plain tree
    recursion, and that recursion covers exactly the right steps in the right order. */
module RollbackTrees {
  import opened Definitions
  import opened Graphs
  import opened Trees
  import opened Store
  import opened Rollback

  predicate Fits(t: Tree, e: Env) {
    Valid(t) && e.steps == t.steps
  }

  predicate OnLevel(t: Tree, level: nat, names: seq<string>) {
    forall n | n in names :: n in t.depth && t.depth[n] == level
  }

  /** Everything a forward walk continues with, in its order. */
  function Links(e: Env, c: string): seq<string>
    requires c in e.steps
  {
    Branches(e, c) + Taken(e, c)
  }

  lemma DistinctPieces(a: seq<string>, b: seq<string>, c: seq<string>)
    requires Distinct(a + b + c)
    ensures Distinct(a) && Distinct(b) && Distinct(a + b) && Distinct(a + c)
  {
    var s := a + b + c;
    assert s[..|a|] == a && s[|a|..|a| + |b|] == b && s[..|a| + |b|] == a + b;
    forall i, j | 0 <= i < j < |a + c|
      ensures (a + c)[i] != (a + c)[j]
    {
      var i' := if i < |a| then i else i + |b|;
      var j' := if j < |a| then j else j + |b|;
      assert s[i'] == (a + c)[i] && s[j'] == (a + c)[j];
    }
  }

  lemma LinksFromParts(e: Env, c: string)
    requires c in e.steps && KindAgrees(e.steps[c])
    ensures Branches(e, c) == e.steps[c].parallel
    ensures Taken(e, c) in {e.steps[c].next, Link(e.steps[c].els), []}
  {
  }

  lemma LinksAreChildren(t: Tree, e: Env, c: string)
    requires Fits(t, e) && c in t.depth
    ensures c in e.steps && t.depth[c] <= t.height
    ensures Distinct(Links(e, c)) && Distinct(Branches(e, c))
    ensures forall n | n in Links(e, c) :: n in Children(t.steps[c])
    ensures OnLevel(t, t.depth[c] + 1, Links(e, c)) && OnLevel(t, t.depth[c] + 1, Branches(e, c))
  {
    var d := t.steps[c];
    assert OwnsChildren(t, c) && KindAgrees(d);
    LinksFromParts(e, c);
    DistinctPieces(d.parallel, d.next, Link(d.els));
    assert d.parallel + [] == d.parallel;
  }

  /** The forward rollback of a subtree: branches first, then the taken continuation, then
      the step itself. */
  function Forward(t: Tree, e: Env, c: string): seq<string>
    requires Fits(t, e) && c in t.depth
    decreases t.height + 1 - t.depth[c], 0, 0
  {
    LinksAreChildren(t, e, c);
    ForwardAll(t, e, t.depth[c] + 1, Links(e, c)) + Own(e, c)
  }

  function Own(e: Env, c: string): seq<string> {
    if Eligible(e, c) then [c] else []
  }

  function ForwardAll(t: Tree, e: Env, level: nat, names: seq<string>): seq<string>
    requires Fits(t, e) && OnLevel(t, level, names) && level <= t.height + 1
    decreases t.height + 1 - level, 1, |names|
  {
    if names == [] then []
    else Forward(t, e, names[0]) + ForwardAll(t, e, level, names[1..])
  }

  // ------------------------------------------------------------------ contents

  /** The links a forward walk follows, given what was executed. */
  function TakenGraph(e: Env): Graph {
    map x | x in e.steps :: Elements(Links(e, x))
  }

  lemma {:induction false} ForwardAllExact(t: Tree, e: Env, level: nat, names: seq<string>, x: string)
    requires Fits(t, e) && OnLevel(t, level, names) && level <= t.height + 1
    ensures x in ForwardAll(t, e, level, names)
       <==> Eligible(e, x) && exists n | n in names :: Reaches(TakenGraph(e), n, x)
    decreases t.height + 1 - level, 1, |names|
  {
    hide Valid, Reaches, TakenGraph, Eligible, ForwardAll, OnLevel;
    if names == [] {
      ForwardAllEmpty(t, e, level);
    } else {
      ForwardAllStep(t, e, level, names);
      ForwardExact(t, e, names[0], x);
      hide Forward;
      ForwardAllExact(t, e, level, names[1..], x);
      assert names == [names[0]] + names[1..];
    }
  }

  lemma ForwardAllEmpty(t: Tree, e: Env, level: nat)
    requires Fits(t, e) && level <= t.height + 1
    ensures OnLevel(t, level, []) && ForwardAll(t, e, level, []) == []
  {
  }

  lemma ForwardAllStep(t: Tree, e: Env, level: nat, names: seq<string>)
    requires Fits(t, e) && OnLevel(t, level, names) && level <= t.height + 1 && names != []
    ensures names[0] in t.depth && t.depth[names[0]] == level && OnLevel(t, level, names[1..])
    ensures ForwardAll(t, e, level, names) == Forward(t, e, names[0]) + ForwardAll(t, e, level, names[1..])
  {
    hide Valid, Forward;
  }

  /** A forward rollback compensates exactly the eligible steps reachable along branches,
      next steps and the taken side of each condition. */
  lemma {:induction false} ForwardExact(t: Tree, e: Env, c: string, x: string)
    requires Fits(t, e) && c in t.depth
    ensures x in Forward(t, e, c) <==> Eligible(e, x) && Reaches(TakenGraph(e), c, x)
    decreases t.height + 1 - t.depth[c], 0, 0
  {
    hide Valid, Links, Reaches, TakenGraph, Eligible, ForwardAll, Distinct, Children, OnLevel;
    LinksAreChildren(t, e, c);
    ForwardAllExact(t, e, t.depth[c] + 1, Links(e, c), x);
    TakenUnfold(e, c, x);
  }

  lemma TakenUnfold(e: Env, c: string, x: string)
    requires c in e.steps
    ensures Reaches(TakenGraph(e), c, x) <==> x == c || exists n | n in Links(e, c) :: Reaches(TakenGraph(e), n, x)
  {
    var g := TakenGraph(e);
    ReachesRefl(g, c);
    if Reaches(g, c, x) && x != c {
      var y := ReachesUnfold(g, c, x);
      assert y in Links(e, c);
    }
    forall n | n in Links(e, c) && Reaches(g, n, x)
      ensures Reaches(g, c, x)
    {
      assert Edge(g, c, n);
      ReachesEdge(g, c, n);
      ReachesTrans(g, c, n, x);
    }
  }

  lemma TakenStaysUnder(t: Tree, e: Env, c: string, x: string)
    requires Fits(t, e) && c in t.depth && Reaches(TakenGraph(e), c, x)
    ensures x in t.depth && Under(t, x, c)
  {
    var below := set y | y in t.depth && Under(t, y, c);
    forall y, z | y in below && Edge(TakenGraph(e), y, z)
      ensures z in below
    {
      LinksAreChildren(t, e, y);
      UnderChild(t, y, z, c);
    }
    ClosedContainsReachable(TakenGraph(e), below, c, x);
  }

  lemma ForwardUnder(t: Tree, e: Env, c: string)
    requires Fits(t, e) && c in t.depth
    ensures forall x | x in Forward(t, e, c) :: x in t.depth && Under(t, x, c)
  {
    forall x | x in Forward(t, e, c)
      ensures x in t.depth && Under(t, x, c)
    {
      ForwardExact(t, e, c, x);
      TakenStaysUnder(t, e, c, x);
    }
  }

  lemma ForwardAllUnder(t: Tree, e: Env, level: nat, names: seq<string>)
    requires Fits(t, e) && OnLevel(t, level, names) && level <= t.height + 1
    ensures forall x | x in ForwardAll(t, e, level, names) ::
              x in t.depth && exists n | n in names :: Under(t, x, n)
  {
    forall x | x in ForwardAll(t, e, level, names)
      ensures x in t.depth && exists n | n in names :: Under(t, x, n)
    {
      ForwardAllExact(t, e, level, names, x);
      var n :| n in names && Reaches(TakenGraph(e), n, x);
      TakenStaysUnder(t, e, n, x);
    }
  }

  // ------------------------------------------------------------------ order

  /** No entry comes after one of its Prev ancestors or after itself. */
  predicate ChildrenFirst(t: Tree, log: seq<string>)
    requires Valid(t)
  {
    && (forall x | x in log :: x in t.depth)
    && forall i, j | 0 <= i < j < |log| :: log[j] in t.depth && !Under(t, log[j], log[i])
  }

  lemma ChildrenFirstConcat(t: Tree, a: seq<string>, b: seq<string>)
    requires Valid(t) && ChildrenFirst(t, a) && ChildrenFirst(t, b)
    requires forall x, y | x in a && y in b :: !Under(t, y, x)
    ensures ChildrenFirst(t, a + b)
  {
    var log := a + b;
    forall i, j | 0 <= i < j < |log|
      ensures log[j] in t.depth && !Under(t, log[j], log[i])
    {
      if j < |a| {
        assert log[i] == a[i] && log[j] == a[j];
      } else if i < |a| {
        assert log[i] in a && log[j] in b;
      } else {
        assert log[i] == b[i - |a|] && log[j] == b[j - |a|];
      }
    }
  }

  lemma ApartSubtrees(t: Tree, m: string, n: string, x: string, y: string)
    requires Valid(t) && m in t.depth && n in t.depth && t.depth[m] == t.depth[n] && m != n
    requires x in t.depth && y in t.depth && Under(t, x, m) && Under(t, y, n)
    ensures !Under(t, y, x)
  {
    if Under(t, y, x) {
      UnderTrans(t, y, x, m);
      LevelApart(t, y, m, n);
    }
  }

  lemma {:induction false} ForwardAllOrdered(t: Tree, e: Env, level: nat, names: seq<string>)
    requires Fits(t, e) && OnLevel(t, level, names) && level <= t.height + 1 && Distinct(names)
    ensures ChildrenFirst(t, ForwardAll(t, e, level, names))
    decreases t.height + 1 - level, 1, |names|
  {
    hide Valid;
    if names != [] {
      var a, b := Forward(t, e, names[0]), ForwardAll(t, e, level, names[1..]);
      ForwardOrdered(t, e, names[0]);
      ForwardAllOrdered(t, e, level, names[1..]);
      ForwardUnder(t, e, names[0]);
      ForwardAllUnder(t, e, level, names[1..]);
      forall x, y | x in a && y in b
        ensures !Under(t, y, x)
      {
        var n :| n in names[1..] && Under(t, y, n);
        ApartSubtrees(t, names[0], n, x, y);
      }
      ChildrenFirstConcat(t, a, b);
    }
  }

  lemma {:induction false} ForwardOrdered(t: Tree, e: Env, c: string)
    requires Fits(t, e) && c in t.depth
    ensures ChildrenFirst(t, Forward(t, e, c))
    decreases t.height + 1 - t.depth[c], 0, 0
  {
    hide Valid;
    LinksAreChildren(t, e, c);
    var level := t.depth[c] + 1;
    var a := ForwardAll(t, e, level, Links(e, c));
    ForwardAllOrdered(t, e, level, Links(e, c));
    ForwardAllUnder(t, e, level, Links(e, c));
    forall x | x in a
      ensures !Under(t, c, x)
    {
      var n :| n in Links(e, c) && Under(t, x, n);
      NotAbove(t, c, n, x);
    }
    ChildrenFirstConcat(t, a, Own(e, c));
  }

  lemma NotAbove(t: Tree, c: string, n: string, x: string)
    requires Valid(t) && c in t.depth && n in t.depth && t.depth[n] > t.depth[c]
    requires x in t.depth && Under(t, x, n)
    ensures !Under(t, c, x)
  {
    UnderDepth(t, x, n);
    if Under(t, c, x) {
      UnderDepth(t, c, x);
    }
  }

  // ------------------------------------------------------------------ the walk refines the recursion

  /** Nothing under c has been visited. */
  predicate Clear(t: Tree, visited: set<string>, c: string)
    requires Valid(t)
  {
    forall x | x in visited && x in t.depth :: !Under(t, x, c)
  }

  /** The stopping step is not under c. */
  predicate StopOutside(t: Tree, e: Env, c: string)
    requires Valid(t)
  {
    e.stop in t.depth ==> !Under(t, e.stop, c)
  }

  function Unvisited(names: seq<string>, visited: set<string>): (r: seq<string>)
    ensures forall n | n in r :: n in names && n !in visited
    ensures Distinct(names) ==> Distinct(r)
  {
    if names == [] then []
    else (if names[0] in visited then [] else [names[0]]) + Unvisited(names[1..], visited)
  }

  lemma {:induction false} UnvisitedAgree(names: seq<string>, v: set<string>, w: set<string>)
    requires forall n | n in names :: n in v <==> n in w
    ensures Unvisited(names, v) == Unvisited(names, w)
  {
    if names != [] {
      UnvisitedAgree(names[1..], v, w);
    }
  }

  lemma {:induction false} UnvisitedAll(names: seq<string>, v: set<string>)
    requires forall n | n in names :: n !in v
    ensures Unvisited(names, v) == names
  {
    if names != [] {
      UnvisitedAll(names[1..], v);
    }
  }

  lemma {:induction false} WalkAllConcat(e: Env, a: seq<string>, b: seq<string>, w: Walk)
    ensures WalkAll(e, a + b, w) == WalkAll(e, b, WalkAll(e, a, w))
    decreases |a|
  {
    if a == [] {
      assert a + b == b;
    } else if w.ok {
      assert (a + b)[1..] == a[1..] + b;
      WalkAllConcat(e, a[1..], b, WalkChain(e, a[0], true, w));
    } else {
      assert WalkAll(e, b, w) == w;
    }
  }

  /** What a forward walk over some siblings leaves behind. */
  predicate WalkedSiblings(t: Tree, w: Walk, r: Walk, names: seq<string>, log: seq<string>)
    requires Valid(t)
  {
    && r.ok && r.log == w.log + log
    && w.visited <= r.visited && (forall n | n in names :: n in r.visited)
    && forall x | x in r.visited && x !in w.visited ::
         x in t.depth && exists n | n in names :: Under(t, x, n)
  }

  function AfterLinks(e: Env, c: string, r: Walk): Walk {
    if r.ok then r.(log := r.log + Own(e, c)) else r
  }

  lemma WalkChainForward(e: Env, c: string, w: Walk)
    requires w.ok && c !in w.visited && c != e.stop && c in e.steps
    ensures WalkChain(e, c, true, w) == AfterLinks(e, c, WalkAll(e, Links(e, c), w.(visited := w.visited + {c})))
  {
    WalkAllConcat(e, Branches(e, c), Taken(e, c), w.(visited := w.visited + {c}));
  }

  lemma {:induction false} ForwardWalk(t: Tree, e: Env, c: string, w: Walk)
    requires Fits(t, e) && c in t.depth && w.ok
    requires Clear(t, w.visited, c) && StopOutside(t, e, c)
    ensures WalkedSiblings(t, w, WalkChain(e, c, true, w), [c], Forward(t, e, c))
    decreases t.height + 1 - t.depth[c], 0, 0
  {
    hide Valid, WalkChain, WalkAll, ForwardAll, Unvisited, Links;
    LinksAreChildren(t, e, c);
    SelfUnder(t, c);
    var links := Links(e, c);
    var w0 := w.(visited := w.visited + {c});
    forall n | n in links
      ensures n in t.depth && Clear(t, w0.visited, n) && n !in w0.visited && StopOutside(t, e, n)
    {
      ChildClear(t, w.visited, c, n);
      ChildStop(t, e, c, n);
    }
    hide Clear, StopOutside, Under, WalkedSiblings, OnLevel, Distinct, Own;
    UnvisitedAll(links, w0.visited);
    ForwardWalkAll(t, e, t.depth[c] + 1, links, w0);
    WalkChainForward(e, c, w);
    ForwardWalked(t, e, c, w, WalkAll(e, links, w0), ForwardAll(t, e, t.depth[c] + 1, links));
  }

  lemma ForwardWalked(t: Tree, e: Env, c: string, w: Walk, r: Walk, fwd: seq<string>)
    requires Fits(t, e) && c in t.depth && c in e.steps && Under(t, c, c)
    requires OnLevel(t, t.depth[c] + 1, Links(e, c))
    requires WalkedSiblings(t, w.(visited := w.visited + {c}), r, Links(e, c), fwd)
    ensures WalkedSiblings(t, w, AfterLinks(e, c, r), [c], fwd + Own(e, c))
  {
    hide Valid, Under, Own, Links;
    LinksUnder(t, e, c, w.visited + {c}, r.visited);
  }

  /** Whatever is under a link of c is under c. */
  lemma LinksUnder(t: Tree, e: Env, c: string, v: set<string>, v1: set<string>)
    requires Fits(t, e) && c in t.depth && c in e.steps
    requires forall x | x in v1 && x !in v :: x in t.depth && exists n | n in Links(e, c) ::
               n in t.depth && Under(t, x, n)
    ensures forall x | x in v1 && x !in v :: x in t.depth && Under(t, x, c)
  {
    forall x | x in v1 && x !in v
      ensures x in t.depth && Under(t, x, c)
    {
      var n :| n in Links(e, c) && n in t.depth && Under(t, x, n);
      LinksAreChildren(t, e, c);
      UnderChild(t, c, n, c);
      UnderTrans(t, x, n, c);
    }
  }

  lemma ChildClear(t: Tree, visited: set<string>, c: string, n: string)
    requires Valid(t) && c in t.depth && n in Children(t.steps[c]) && Clear(t, visited, c)
    ensures n in t.depth && Clear(t, visited + {c}, n) && n !in visited + {c}
    ensures forall x | x in t.depth && Under(t, x, n) :: Under(t, x, c)
  {
    UnderChild(t, c, n, c);
    assert t.depth[n] == t.depth[c] + 1;
    forall x | x in t.depth && Under(t, x, n)
      ensures Under(t, x, c) && x != c
    {
      UnderTrans(t, x, n, c);
      UnderDepth(t, x, n);
    }
  }

  lemma ChildStop(t: Tree, e: Env, c: string, n: string)
    requires Fits(t, e) && c in t.depth && n in Children(t.steps[c]) && StopOutside(t, e, c)
    ensures StopOutside(t, e, n) && e.stop != c
  {
    UnderChild(t, c, n, c);
    if e.stop in t.depth && Under(t, e.stop, n) {
      UnderTrans(t, e.stop, n, c);
    }
  }

  lemma {:induction false} ForwardWalkAll(t: Tree, e: Env, level: nat, names: seq<string>, w: Walk)
    requires Fits(t, e) && OnLevel(t, level, names) && level <= t.height + 1 && Distinct(names) && w.ok
    requires forall n | n in names :: StopOutside(t, e, n) && (n in w.visited || Clear(t, w.visited, n))
    ensures WalkedSiblings(t, w, WalkAll(e, names, w), names,
                           ForwardAll(t, e, level, Unvisited(names, w.visited)))
    decreases t.height + 1 - level, 1, |names|, 0
  {
    hide Valid, Under, Clear, StopOutside, Forward, WalkChain, WalkedSiblings;
    if names == [] {
      NoSiblings(t, w);
    } else {
      var n, rest := names[0], names[1..];
      assert names == [n] + rest;
      if n in w.visited {
        ForwardWalkAll(t, e, level, rest, w);
        WalkChainVisited(e, n, w);
        var log := ForwardAll(t, e, level, Unvisited(rest, w.visited));
        SiblingsJoin(t, w, w, WalkAll(e, rest, w), n, rest, [], log);
        assert [] + log == log && [] + Unvisited(rest, w.visited) == Unvisited(rest, w.visited);
      } else {
        ForwardWalk(t, e, n, w);
        ForwardRest(t, e, level, n, rest, w, WalkChain(e, n, true, w));
      }
    }
  }

  lemma WalkChainVisited(e: Env, n: string, w: Walk)
    requires n in w.visited
    ensures WalkChain(e, n, true, w) == w
  {
  }

  lemma NoSiblings(t: Tree, w: Walk)
    requires Valid(t) && w.ok
    ensures WalkedSiblings(t, w, w, [], [])
  {
    assert w.log + [] == w.log;
  }

  /** Two forward walks in a row, the first over one sibling or over none. */
  lemma SiblingsJoin(t: Tree, w: Walk, w1: Walk, r: Walk, n: string, rest: seq<string>,
                     a: seq<string>, b: seq<string>)
    requires Valid(t)
    requires WalkedSiblings(t, w, w1, [n], a) || (w1 == w && n in w.visited && a == [])
    requires WalkedSiblings(t, w1, r, rest, b)
    ensures WalkedSiblings(t, w, r, [n] + rest, a + b)
  {
    hide Valid, Under;
    assert w.log + a + b == w.log + (a + b);
    assert w.log + ([] + b) == w.log + b;
    forall x | x in r.visited && x !in w.visited
      ensures x in t.depth && exists m | m in [n] + rest :: Under(t, x, m)
    {
      if x in w1.visited {
        assert n in [n] + rest;
      } else {
        var m :| m in rest && Under(t, x, m);
        assert m in [n] + rest;
      }
    }
  }

  lemma ForwardRest(t: Tree, e: Env, level: nat, n: string, rest: seq<string>, w: Walk, w1: Walk)
    requires Fits(t, e) && OnLevel(t, level, [n] + rest) && level <= t.height + 1 && Distinct([n] + rest)
    requires w.ok && n !in w.visited && w1 == WalkChain(e, n, true, w)
    requires WalkedSiblings(t, w, w1, [n], Forward(t, e, n))
    requires forall m | m in rest :: StopOutside(t, e, m) && (m in w.visited || Clear(t, w.visited, m))
    ensures WalkedSiblings(t, w, WalkAll(e, [n] + rest, w), [n] + rest,
                           ForwardAll(t, e, level, Unvisited([n] + rest, w.visited)))
    decreases t.height + 1 - level, 1, |rest|, 1
  {
    hide Valid, Under, Clear, StopOutside, Forward, WalkChain;
    var names := [n] + rest;
    assert names[1..] == rest && names[0] == n;
    forall m | m in rest
      ensures m in w1.visited <==> m in w.visited
      ensures m in w.visited || Clear(t, w1.visited, m)
    {
      var k :| 0 <= k < |rest| && rest[k] == m;
      assert names[k + 1] == m;
      assert m in names && n in names;
      SiblingClear(t, level, n, m, w.visited, w1.visited);
    }
    UnvisitedAgree(rest, w.visited, w1.visited);
    var rest' := Unvisited(rest, w.visited);
    assert forall m | m in rest :: m in names;
    ForwardWalkAll(t, e, level, rest, w1);
    SiblingsJoin(t, w, w1, WalkAll(e, rest, w1), n, rest, Forward(t, e, n), ForwardAll(t, e, level, rest'));
    assert ([n] + rest')[1..] == rest';
  }

  lemma SiblingClear(t: Tree, level: nat, n: string, m: string, v: set<string>, v1: set<string>)
    requires Valid(t) && OnLevel(t, level, [n, m]) && n != m
    requires v <= v1 && forall x | x in v1 && x !in v :: x in t.depth && Under(t, x, n)
    ensures m in v1 <==> m in v
    ensures Clear(t, v, m) ==> Clear(t, v1, m)
  {
    assert n in [n, m] && m in [n, m];
    forall x | x in v1 && x !in v
      ensures !Under(t, x, m)
    {
      if Under(t, x, m) {
        LevelApart(t, x, m, n);
      }
    }
  }
}
