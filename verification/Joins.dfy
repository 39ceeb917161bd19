/** The join-state protocol: which steps a join has heard of and when it is ready. */
module Joins {
  import opened Definitions
  import opened Store

  predicate CheckReady(waitingFor: seq<string>, completed: seq<string>, failed: seq<string>, strategy: JoinStrategy) {
    if strategy == Any then |completed| > 0 || |failed| > 0
    else |completed| + |failed| >= |waitingFor|
  }

  function Refreshed(j: JoinState): JoinState {
    j.(isReady := CheckReady(j.waitingFor, j.completed, j.failed, j.strategy))
  }

  function Created(waitingFor: seq<string>, strategy: JoinStrategy): JoinState {
    JoinState(waitingFor, [], [], strategy, false)
  }

  /** The list with x added at the end unless it is there. */
  function Insert(s: seq<string>, x: string): seq<string> {
    if x in s then s else s + [x]
  }

  /** The list without its first x. */
  function Without(s: seq<string>, x: string): seq<string> {
    if s == [] then [] else if s[0] == x then s[1..] else [s[0]] + Without(s[1..], x)
  }

  /** A notification: the step moves to the list of its latest outcome. */
  function Notified(j: JoinState, step: string, success: bool): JoinState {
    Refreshed(if success
              then j.(completed := Insert(j.completed, step), failed := Without(j.failed, step))
              else j.(failed := Insert(j.failed, step), completed := Without(j.completed, step)))
  }

  function WaitAdded(j: JoinState, step: string): JoinState {
    if step in j.waitingFor then j else Refreshed(j.(waitingFor := j.waitingFor + [step]))
  }

  /** The list with its first x replaced by y, or with y appended when there is no x. */
  function Replaced(s: seq<string>, x: string, y: string): seq<string> {
    if s == [] then [y] else if s[0] == x then [y] + s[1..] else [s[0]] + Replaced(s[1..], x, y)
  }

  /** The virtual entry becomes a real step; a step that already ended is counted at once. */
  function WaitReplaced(j: JoinState, virtual: string, real_: string, status: Option<StepStatus>): JoinState {
    var j1 := j.(waitingFor := Replaced(j.waitingFor, virtual, real_));
    var known := real_ in j.completed || real_ in j.failed;
    var j2 := if known || status.None? then j1
              else if status.value == Completed then j1.(completed := j1.completed + [real_])
              else if status.value == Failed || status.value == RolledBack then j1.(failed := j1.failed + [real_])
              else j1;
    Refreshed(j2)
  }

  // ------------------------------------------------------------------ the invariant

  /** No step is listed twice, no step is both completed and failed, and the stored flag is
      the recomputed one unless the join waits for nothing. */
  predicate Consistent(j: JoinState) {
    && Distinct(j.completed) && Distinct(j.failed)
    && (forall x | x in j.completed :: x !in j.failed)
    && (j.waitingFor != [] ==> j.isReady == CheckReady(j.waitingFor, j.completed, j.failed, j.strategy))
  }

  lemma InsertFacts(s: seq<string>, x: string)
    requires Distinct(s)
    ensures Distinct(Insert(s, x))
    ensures forall y :: y in Insert(s, x) <==> y in s || y == x
  {
  }

  lemma {:induction false} WithoutFacts(s: seq<string>, x: string)
    requires Distinct(s)
    ensures Distinct(Without(s, x))
    ensures forall y :: y in Without(s, x) <==> y in s && y != x
  {
    if s != [] {
      var rest := s[1..];
      assert forall y :: y in s <==> y == s[0] || y in rest;
      if s[0] == x {
        assert x !in rest;
      } else {
        WithoutFacts(rest, x);
        assert forall y :: y in [s[0]] + Without(rest, x) <==> y == s[0] || y in Without(rest, x);
        assert s[0] !in rest;
      }
    }
  }

  /** Notifications, additions and replacements keep the invariant. */
  lemma NotifiedConsistent(j: JoinState, step: string, success: bool)
    requires Consistent(j)
    ensures Consistent(Notified(j, step, success))
  {
    InsertFacts(j.completed, step);
    InsertFacts(j.failed, step);
    WithoutFacts(j.completed, step);
    WithoutFacts(j.failed, step);
  }

  lemma WaitAddedConsistent(j: JoinState, step: string)
    requires Consistent(j)
    ensures Consistent(WaitAdded(j, step))
    ensures Distinct(j.waitingFor) ==> Distinct(WaitAdded(j, step).waitingFor)
    ensures var r := WaitAdded(j, step);
            && r == j.(waitingFor := r.waitingFor, isReady := r.isReady) && j.waitingFor <= r.waitingFor
            && forall y :: y in r.waitingFor <==> y in j.waitingFor || y == step
  {
  }

  lemma ReplacedFacts(s: seq<string>, x: string, y: string)
    requires Distinct(s)
    ensures x !in s ==> Replaced(s, x, y) == s + [y]
    ensures forall z :: z in Replaced(s, x, y) <==> (z in s && z != x) || z == y
    ensures Distinct(Replaced(s, x, y)) <==> y !in s || y == x
  {
    hide Distinct, Replaced;
    ReplacedMissing(s, x, y);
    ReplacedMembers(s, x, y);
    ReplacedDistinct(s, x, y);
  }

  lemma {:induction false} ReplacedMissing(s: seq<string>, x: string, y: string)
    ensures x !in s ==> Replaced(s, x, y) == s + [y]
  {
    if s != [] {
      ReplacedMissing(s[1..], x, y);
      assert s == [s[0]] + s[1..];
    }
  }

  lemma {:induction false} ReplacedMembers(s: seq<string>, x: string, y: string)
    requires Distinct(s)
    ensures forall z :: z in Replaced(s, x, y) <==> (z in s && z != x) || z == y
  {
    if s != [] {
      var rest := s[1..];
      ReplacedMembers(rest, x, y);
      assert s == [s[0]] + rest && s[0] !in rest;
    }
  }

  lemma {:induction false} ReplacedDistinct(s: seq<string>, x: string, y: string)
    requires Distinct(s)
    ensures Distinct(Replaced(s, x, y)) <==> y !in s || y == x
  {
    if s != [] {
      var rest := s[1..];
      assert s == [s[0]] + rest && s[0] !in rest && Distinct(rest);
      if s[0] == x {
        ConsDistinct(y, rest);
      } else {
        ReplacedDistinct(rest, x, y);
        ReplacedMembers(rest, x, y);
        ConsDistinct(s[0], Replaced(rest, x, y));
      }
    }
  }

  lemma ConsDistinct(a: string, r: seq<string>)
    ensures Distinct([a] + r) <==> a !in r && Distinct(r)
  {
    if a in r {
      var k :| 0 <= k < |r| && r[k] == a;
      assert ([a] + r)[0] == ([a] + r)[k + 1];
    } else {
      DistinctCons(a, r);
    }
  }

  lemma DistinctCons(a: string, r: seq<string>)
    requires a !in r
    ensures Distinct([a] + r) <==> Distinct(r)
  {
    if Distinct([a] + r) {
      forall i, j | 0 <= i < j < |r|
        ensures r[i] != r[j]
      {
        assert ([a] + r)[i + 1] == r[i] && ([a] + r)[j + 1] == r[j];
      }
    }
  }

  /** A replacement keeps the invariant; it keeps the wait list free of duplicates exactly when
      the real step was not awaited already. */
  lemma WaitReplacedConsistent(j: JoinState, virtual: string, real_: string, status: Option<StepStatus>)
    requires Consistent(j)
    ensures Consistent(WaitReplaced(j, virtual, real_, status))
    ensures Distinct(j.waitingFor) ==>
            (Distinct(WaitReplaced(j, virtual, real_, status).waitingFor)
             <==> real_ !in j.waitingFor || real_ == virtual)
    ensures var r := WaitReplaced(j, virtual, real_, status);
            && r == j.(waitingFor := r.waitingFor, completed := r.completed, failed := r.failed, isReady := r.isReady)
            && (Distinct(j.waitingFor) ==>
                  forall z :: z in r.waitingFor <==> (z in j.waitingFor && z != virtual) || z == real_)
            && (forall z :: z in r.completed <==>
                  z in j.completed || (z == real_ && real_ !in j.failed && status == Some(Completed)))
            && (forall z :: z in r.failed <==>
                  || z in j.failed
                  || (z == real_ && real_ !in j.completed && (status == Some(Failed) || status == Some(RolledBack))))
  {
    hide Replaced, CheckReady;
    if Distinct(j.waitingFor) {
      ReplacedFacts(j.waitingFor, virtual, real_);
    }
  }

  // ------------------------------------------------------------------ traces

  datatype Note = Note(step: string, success: bool)

  function Play(j: JoinState, trace: seq<Note>): JoinState {
    if trace == [] then j
    else
      var last := |trace| - 1;
      Notified(Play(j, trace[..last]), trace[last].step, trace[last].success)
  }

  /** The latest outcome reported for a step. */
  function Latest(trace: seq<Note>, step: string): Option<bool> {
    if trace == [] then None
    else
      var last := |trace| - 1;
      if trace[last].step == step then Some(trace[last].success) else Latest(trace[..last], step)
  }

  /** After any notifications the two lists hold exactly the steps by latest outcome, each
      once, and the wait list and strategy are as created. */
  lemma {:induction false} TraceSemantics(w: seq<string>, st: JoinStrategy, trace: seq<Note>)
    ensures var j := Play(Created(w, st), trace);
            && Consistent(j) && j.waitingFor == w && j.strategy == st
            && (forall x :: x in j.completed <==> Latest(trace, x) == Some(true))
            && (forall x :: x in j.failed <==> Latest(trace, x) == Some(false))
            && (trace != [] ==> j.isReady == CheckReady(w, j.completed, j.failed, st))
  {
    if trace != [] {
      var last := |trace| - 1;
      TraceSemantics(w, st, trace[..last]);
      var j := Play(Created(w, st), trace[..last]);
      var n := trace[last];
      NotifiedConsistent(j, n.step, n.success);
      InsertFacts(j.completed, n.step);
      InsertFacts(j.failed, n.step);
      WithoutFacts(j.completed, n.step);
      WithoutFacts(j.failed, n.step);
    }
  }

  /** The notifications of one step, in order. */
  function Project(trace: seq<Note>, step: string): seq<bool> {
    if trace == [] then []
    else
      var last := |trace| - 1;
      Project(trace[..last], step) + (if trace[last].step == step then [trace[last].success] else [])
  }

  lemma {:induction false} LatestIsLast(trace: seq<Note>, step: string)
    ensures Latest(trace, step) == if Project(trace, step) == [] then None
                                   else Some(Project(trace, step)[|Project(trace, step)| - 1])
  {
    if trace != [] {
      LatestIsLast(trace[..|trace| - 1], step);
    }
  }

  lemma {:induction false} DistinctSize(s: seq<string>)
    requires Distinct(s)
    ensures |Elements(s)| == |s|
  {
    if s != [] {
      var rest := s[1..];
      DistinctSize(rest);
      assert Elements(s) == {s[0]} + Elements(rest);
      assert s[0] !in rest;
    }
  }

  lemma SameElementsSameSize(a: seq<string>, b: seq<string>)
    requires Distinct(a) && Distinct(b) && forall x :: x in a <==> x in b
    ensures |a| == |b|
  {
    DistinctSize(a);
    DistinctSize(b);
    assert Elements(a) == Elements(b);
  }

  /** Readiness does not depend on how the notifications of different steps interleave. */
  lemma ReadinessIgnoresInterleaving(w: seq<string>, st: JoinStrategy, t1: seq<Note>, t2: seq<Note>)
    requires forall x :: Project(t1, x) == Project(t2, x)
    ensures var j1, j2 := Play(Created(w, st), t1), Play(Created(w, st), t2);
            && (forall x :: (x in j1.completed <==> x in j2.completed) && (x in j1.failed <==> x in j2.failed))
            && j1.isReady == j2.isReady
  {
    LatestAgree(t1, t2);
    SameLatest(w, st, t1, t2);
  }

  lemma LatestAgree(t1: seq<Note>, t2: seq<Note>)
    requires forall x :: Project(t1, x) == Project(t2, x)
    ensures forall x :: Latest(t1, x) == Latest(t2, x)
    ensures t1 == [] <==> t2 == []
  {
    forall x
      ensures Latest(t1, x) == Latest(t2, x)
    {
      LatestIsLast(t1, x);
      LatestIsLast(t2, x);
    }
    if t1 == [] {
      NoNotes(t2);
    }
    if t2 == [] {
      NoNotes(t1);
    }
  }

  lemma SameLatest(w: seq<string>, st: JoinStrategy, t1: seq<Note>, t2: seq<Note>)
    requires forall x :: Latest(t1, x) == Latest(t2, x)
    requires t1 == [] <==> t2 == []
    ensures var j1, j2 := Play(Created(w, st), t1), Play(Created(w, st), t2);
            && (forall x :: (x in j1.completed <==> x in j2.completed) && (x in j1.failed <==> x in j2.failed))
            && j1.isReady == j2.isReady
  {
    TraceSemantics(w, st, t1);
    TraceSemantics(w, st, t2);
    if t1 != [] {
      var j1, j2 := Play(Created(w, st), t1), Play(Created(w, st), t2);
      hide Play, Latest;
      SameElementsSameSize(j1.completed, j2.completed);
      SameElementsSameSize(j1.failed, j2.failed);
    }
  }

  lemma NoNotes(t: seq<Note>)
    requires forall x :: Project(t, x) == []
    ensures t == []
  {
    assert t == [] || |Project(t, t[|t| - 1].step)| > 0;
  }

  function Processed(j: JoinState): set<string> {
    Elements(j.completed) + Elements(j.failed)
  }

  lemma ProcessedSize(j: JoinState)
    requires Consistent(j)
    ensures |Processed(j)| == |j.completed| + |j.failed|
  {
    DistinctSize(j.completed);
    DistinctSize(j.failed);
    assert Elements(j.completed) !! Elements(j.failed);
  }

  lemma SubsetSize(a: set<string>, b: set<string>)
    requires a <= b
    ensures |a| <= |b|
  {
    assert b == a + (b - a);
  }

  /** With a fixed wait list a join that is ready stays ready. */
  lemma ReadyNeverReverts(w: seq<string>, st: JoinStrategy, trace: seq<Note>, n: Note)
    requires Play(Created(w, st), trace).isReady
    ensures Play(Created(w, st), trace + [n]).isReady
  {
    var j, k := Play(Created(w, st), trace), Play(Created(w, st), trace + [n]);
    TraceSemantics(w, st, trace);
    TraceSemantics(w, st, trace + [n]);
    assert (trace + [n])[..|trace|] == trace;
    assert Processed(j) <= Processed(k);
    SubsetSize(Processed(j), Processed(k));
    ProcessedSize(j);
    ProcessedSize(k);
  }

  /** A join with strategy any is ready from the first notification on. */
  lemma AnyReadyIffNotified(w: seq<string>, trace: seq<Note>)
    ensures Play(Created(w, Any), trace).isReady <==> trace != []
  {
    if trace != [] {
      TraceSemantics(w, Any, trace);
      var j, n := Play(Created(w, Any), trace), trace[|trace| - 1];
      assert Latest(trace, n.step) == Some(n.success);
      assert if n.success then n.step in j.completed else n.step in j.failed;
    }
  }

  // ------------------------------------------------------------------ the count test

  /** Awaited steps not heard of yet, and steps heard of but not awaited. */
  function Missing(j: JoinState): set<string> {
    Elements(j.waitingFor) - Processed(j)
  }

  function Strangers(j: JoinState): set<string> {
    Processed(j) - Elements(j.waitingFor)
  }

  lemma SizesDiffer(w: set<string>, p: set<string>)
    ensures |p| >= |w| <==> |p - w| >= |w - p|
  {
    assert w == (w * p) + (w - p);
    assert p == (w * p) + (p - w);
  }

  /** The exact meaning of the count test: it succeeds when at least as many strangers as
      missing steps have been counted. */
  lemma CountTestMeans(j: JoinState)
    requires Consistent(j) && Distinct(j.waitingFor) && j.strategy == All
    ensures CheckReady(j.waitingFor, j.completed, j.failed, j.strategy) <==> |Strangers(j)| >= |Missing(j)|
  {
    ProcessedSize(j);
    DistinctSize(j.waitingFor);
    hide Elements, Processed, Distinct, Consistent;
    SizesDiffer(Elements(j.waitingFor), Processed(j));
  }

  /** Hence, when only awaited steps are counted, the test decides coverage. */
  lemma CountTestDecidesCoverage(j: JoinState)
    requires Consistent(j) && Distinct(j.waitingFor) && j.strategy == All
    requires forall x | x in Processed(j) :: x in j.waitingFor
    ensures CheckReady(j.waitingFor, j.completed, j.failed, j.strategy) <==> forall x | x in j.waitingFor ::
              x in Processed(j)
  {
    CountTestMeans(j);
    assert Strangers(j) == {};
    assert Missing(j) == {} <==> |Missing(j)| == 0;
    assert forall x :: x in Missing(j) <==> x in j.waitingFor && x !in Processed(j);
    hide Missing, Processed, CheckReady, Consistent, Distinct;
    assert Missing(j) == {} <==> forall x | x in j.waitingFor :: x in Processed(j);
  }

  /** A stranger can make a join ready while an awaited step is still running. */
  lemma StrangerFoolsTheCount()
    ensures var j := Play(Created(["a", "b"], All), [Note("a", true), Note("c", true)]);
            j.isReady && "b" in j.waitingFor && "b" !in Processed(j)
  {
    var t := [Note("a", true), Note("c", true)];
    assert t[..1] == [Note("a", true)] && t[..1][..0] == [];
    TraceSemantics(["a", "b"], All, t);
    assert Latest(t, "b") == None by {
      assert Latest(t[..1], "b") == Latest([], "b");
    }
    assert Play(Created(["a", "b"], All), t[..1]).completed == ["a"];
  }
}
