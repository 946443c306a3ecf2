/** When a setup or a teardown comes to an end: the recursion of labs/__init__.py, cut off
    at a depth, against the workshops that it calls one from the other. */
module Termination {
  import opened Graphs
  import opened Orchestrator

  // A call that finishes, one that looks up a workshop that is not registered, and one
  // that is still under way when the depth is used up.
  datatype Attempt<T> = Done(work: seq<T>) | Raises | TooDeep

  /** Two calls, one after the other; the second is not made unless the first finishes. */
  function Then<T>(a: Attempt<T>, b: Attempt<T>): Attempt<T> {
    match a
    case Done(work) => if b.Done? then Done(work + b.work) else b
    case _ => a
  }

  function Setup(ws: Catalog, w: Id, lab: nat, depth: nat): Attempt<Run>
    decreases depth, 1, 0
  {
    if w !in ws then Raises
    else if !ws[w].runnable then Done([])
    else Then(SetupPrereqs(ws, w, |ws[w].prereqs|, depth), Done([Run(w, lab)]))
  }

  function SetupPrereqs(ws: Catalog, w: Id, n: nat, depth: nat): Attempt<Run>
    requires w in ws && n <= |ws[w].prereqs|
    decreases depth, 0, n
  {
    if n == 0 then Done([])
    else
      var p := ws[w].prereqs[n - 1];
      Then(SetupPrereqs(ws, w, n - 1, depth),
           if depth == 0 then TooDeep else Setup(ws, p.workshop, Cutoff(p), depth - 1))
  }

  function Teardown(ws: Catalog, w: Id, depth: nat): Attempt<Id>
    decreases depth, 1, 0
  {
    if w !in ws then Raises
    else if !ws[w].runnable then Done([])
    else Then(Done([w]), TeardownPrereqs(ws, w, |ws[w].prereqs|, depth))
  }

  function TeardownPrereqs(ws: Catalog, w: Id, n: nat, depth: nat): Attempt<Id>
    requires w in ws && n <= |ws[w].prereqs|
    decreases depth, 0, n
  {
    if n == 0 then Done([])
    else
      Then(TeardownPrereqs(ws, w, n - 1, depth),
           if depth == 0 then TooDeep else Teardown(ws, ws[w].prereqs[n - 1].workshop, depth - 1))
  }

  /** Calls one inside the other: each workshop is runnable and requires the next. */
  ghost predicate Calls(ws: Catalog, p: seq<Id>) {
    p != [] && forall i :: 0 <= i < |p| - 1 ==> Requires(ws, p[i], p[i + 1])
  }

  ghost predicate CallsFrom(ws: Catalog, w: Id, p: seq<Id>) {
    Calls(ws, p) && p[0] == w
  }

  /** Every workshop that is called is registered. */
  ghost predicate AllRegistered(ws: Catalog, w: Id) {
    forall p :: CallsFrom(ws, w, p) ==> p[|p| - 1] in ws
  }

  ghost predicate Repeats(p: seq<Id>) {
    exists i, j :: 0 <= i < j < |p| && p[i] == p[j]
  }

  /** No workshop calls itself, directly or through others. */
  ghost predicate NoCycle(ws: Catalog, w: Id) {
    forall p :: CallsFrom(ws, w, p) ==> !Repeats(p)
  }

  lemma CallFirst(ws: Catalog, w: Id, p: seq<Id>)
    requires Calls(ws, p) && Requires(ws, w, p[0])
    ensures CallsFrom(ws, w, [w] + p)
  {
    var q := [w] + p;
    forall i | 0 <= i < |q| - 1 ensures Requires(ws, q[i], q[i + 1]) {
      assert i > 0 ==> Requires(ws, p[i - 1], p[i - 1 + 1]);
    }
  }

  lemma CallsInside(ws: Catalog, p: seq<Id>)
    requires Calls(ws, p) && |p| > 1
    ensures Requires(ws, p[0], p[1]) && Calls(ws, p[1..])
  {
    var q := p[1..];
    assert Requires(ws, p[0], p[0 + 1]);
    forall i | 0 <= i < |q| - 1 ensures Requires(ws, q[i], q[i + 1]) {
      assert Requires(ws, p[i + 1], p[i + 1 + 1]);
    }
  }

  // What the outcome says about the calls.

  lemma {:induction false} PrereqsDone(ws: Catalog, w: Id, n: nat, depth: nat, i: nat)
    requires w in ws && i < n <= |ws[w].prereqs| && SetupPrereqs(ws, w, n, depth).Done?
    ensures depth > 0 && Setup(ws, ws[w].prereqs[i].workshop, Cutoff(ws[w].prereqs[i]), depth - 1).Done?
  {
    if i < n - 1 {
      PrereqsDone(ws, w, n - 1, depth, i);
    }
  }

  /** A finished setup has called only registered workshops, none deeper than the cut-off. */
  lemma {:induction false} DoneBoundsCalls(ws: Catalog, w: Id, lab: nat, depth: nat, p: seq<Id>)
    requires Setup(ws, w, lab, depth).Done? && CallsFrom(ws, w, p)
    ensures |p| <= depth + 1 && p[|p| - 1] in ws
    decreases |p|
  {
    if |p| > 1 {
      CallsInside(ws, p);
      var i :| 0 <= i < |ws[w].prereqs| && ws[w].prereqs[i].workshop == p[1];
      PrereqsDone(ws, w, |ws[w].prereqs|, depth, i);
      DoneBoundsCalls(ws, p[1], Cutoff(ws[w].prereqs[i]), depth - 1, p[1..]);
    }
  }

  lemma {:induction false} PrereqsFail(ws: Catalog, w: Id, n: nat, depth: nat) returns (i: nat)
    requires w in ws && n <= |ws[w].prereqs| && !SetupPrereqs(ws, w, n, depth).Done?
    ensures i < n
    ensures SetupPrereqs(ws, w, n, depth) ==
            if depth == 0 then TooDeep else Setup(ws, ws[w].prereqs[i].workshop, Cutoff(ws[w].prereqs[i]), depth - 1)
  {
    if SetupPrereqs(ws, w, n - 1, depth).Done? {
      i := n - 1;
    } else {
      i := PrereqsFail(ws, w, n - 1, depth);
    }
  }

  /** A setup that does not finish is stuck in calls that lead to an unregistered workshop
      or go deeper than the cut-off. */
  lemma {:induction false} StuckInCalls(ws: Catalog, w: Id, lab: nat, depth: nat) returns (p: seq<Id>)
    requires !Setup(ws, w, lab, depth).Done?
    ensures CallsFrom(ws, w, p)
    ensures Setup(ws, w, lab, depth).Raises? ==> p[|p| - 1] !in ws
    ensures Setup(ws, w, lab, depth).TooDeep? ==> |p| == depth + 2
    decreases depth
  {
    if w !in ws {
      p := [w];
    } else {
      var i := PrereqsFail(ws, w, |ws[w].prereqs|, depth);
      var u := ws[w].prereqs[i].workshop;
      var q := [u];
      if depth > 0 {
        q := StuckInCalls(ws, u, Cutoff(ws[w].prereqs[i]), depth - 1);
      }
      CallFirst(ws, w, q);
      p := [w] + q;
    }
  }

  // Cycles make calls as deep as one likes, and nothing else does.

  lemma CallsJoin(ws: Catalog, p: seq<Id>, q: seq<Id>)
    requires Calls(ws, p) && Calls(ws, q) && p[|p| - 1] == q[0]
    ensures Calls(ws, p + q[1..])
  {
    var s := p + q[1..];
    forall i | 0 <= i < |s| - 1 ensures Requires(ws, s[i], s[i + 1]) {
      if i < |p| - 1 {
        assert Requires(ws, p[i], p[i + 1]);
      } else {
        var k := i - (|p| - 1);
        assert Requires(ws, q[k], q[k + 1]);
      }
    }
  }

  lemma Part(ws: Catalog, p: seq<Id>, i: nat, j: nat)
    requires Calls(ws, p) && i <= j < |p|
    ensures Calls(ws, p[i..j + 1])
  {
    var q := p[i..j + 1];
    forall k | 0 <= k < |q| - 1 ensures Requires(ws, q[k], q[k + 1]) {
      assert Requires(ws, p[i + k], p[i + k + 1]);
    }
  }

  lemma {:induction false} GoRound(ws: Catalog, p: seq<Id>, i: nat, j: nat, n: nat) returns (q: seq<Id>)
    requires Calls(ws, p) && i < j < |p| && p[i] == p[j]
    ensures CallsFrom(ws, p[0], q) && |q| > n && q[|q| - 1] == p[j]
  {
    if n == 0 {
      Part(ws, p, 0, j);
      q := p[0..j + 1];
    } else {
      var before := GoRound(ws, p, i, j, n - 1);
      var round := p[i..j + 1];
      Part(ws, p, i, j);
      CallsJoin(ws, before, round);
      q := before + round[1..];
    }
  }

  lemma DeepCallsRepeat(ws: Catalog, p: seq<Id>)
    requires Calls(ws, p) && |p| > |ws| + 1
    ensures Repeats(p)
  {
    var callers := p[..|p| - 1];
    forall i | 0 <= i < |callers| ensures callers[i] in ws.Keys {
      assert Requires(ws, p[i], p[i + 1]);
    }
    var i, j := Pigeonhole(callers, ws.Keys);
    assert p[i] == p[j];
  }

  /** A setup finishes, at some depth, exactly when everything it calls is registered and
      nothing it calls calls itself. If only the former holds it never ends, and if only
      the latter holds it raises. */
  lemma SetupEndsExactly(ws: Catalog, w: Id, lab: nat)
    ensures AllRegistered(ws, w) && NoCycle(ws, w) <==> exists depth :: Setup(ws, w, lab, depth).Done?
    ensures AllRegistered(ws, w) && !NoCycle(ws, w) ==> forall depth :: Setup(ws, w, lab, depth).TooDeep?
    ensures !AllRegistered(ws, w) && NoCycle(ws, w) ==> Setup(ws, w, lab, |ws|).Raises?
  {
    if depth: nat :| Setup(ws, w, lab, depth).Done? {
      CallsOfDone(ws, w, lab, depth);
    }
    if AllRegistered(ws, w) {
      forall depth ensures !Setup(ws, w, lab, depth).Raises? {
        if Setup(ws, w, lab, depth).Raises? {
          var p := StuckInCalls(ws, w, lab, depth);
        }
      }
    }
    if NoCycle(ws, w) && Setup(ws, w, lab, |ws|).TooDeep? {
      var p := StuckInCalls(ws, w, lab, |ws|);
      DeepCallsRepeat(ws, p);
    }
  }

  lemma CallsOfDone(ws: Catalog, w: Id, lab: nat, depth: nat)
    requires Setup(ws, w, lab, depth).Done?
    ensures AllRegistered(ws, w) && NoCycle(ws, w)
  {
    forall p | CallsFrom(ws, w, p) ensures p[|p| - 1] in ws && !Repeats(p) {
      DoneBoundsCalls(ws, w, lab, depth, p);
      if Repeats(p) {
        var i, j :| 0 <= i < j < |p| && p[i] == p[j];
        var q := GoRound(ws, p, i, j, depth + 1);
        DoneBoundsCalls(ws, w, lab, depth, q);
      }
    }
  }

  ghost predicate SameOutcome<T, U>(a: Attempt<T>, b: Attempt<U>) {
    (a.Done? <==> b.Done?) && (a.Raises? <==> b.Raises?)
  }

  /** A teardown makes the same calls: it ends, raises or goes on with the setup. */
  lemma {:induction false} TeardownEndsLikeSetup(ws: Catalog, w: Id, lab: nat, depth: nat)
    ensures SameOutcome(Teardown(ws, w, depth), Setup(ws, w, lab, depth))
    decreases depth, 1, 0
  {
    if w in ws {
      PrereqsEndAlike(ws, w, |ws[w].prereqs|, depth);
    }
  }

  lemma {:induction false} PrereqsEndAlike(ws: Catalog, w: Id, n: nat, depth: nat)
    requires w in ws && n <= |ws[w].prereqs|
    ensures SameOutcome(TeardownPrereqs(ws, w, n, depth), SetupPrereqs(ws, w, n, depth))
    decreases depth, 0, n
  {
    if n > 0 {
      PrereqsEndAlike(ws, w, n - 1, depth);
      if depth > 0 {
        TeardownEndsLikeSetup(ws, ws[w].prereqs[n - 1].workshop, Cutoff(ws[w].prereqs[n - 1]), depth - 1);
      }
    }
  }

  // A catalog is ready when every setup in it ends.

  lemma CallsAreWalks(ws: Catalog, p: seq<Id>)
    requires |p| > 1
    ensures Walk(PrereqGraph(ws), p) <==> Calls(ws, p) && p[|p| - 1] in ws
  {
    var g := PrereqGraph(ws);
    forall u, v | u in ws ensures v in g[u] <==> Requires(ws, u, v) {
      if Requires(ws, u, v) {
        var i :| 0 <= i < |ws[u].prereqs| && ws[u].prereqs[i].workshop == v;
        assert ws[u].prereqs[i] in ws[u].prereqs;
      }
    }
    if Calls(ws, p) && p[|p| - 1] in ws {
      forall i | 0 <= i < |p| ensures p[i] in g {
        assert i < |p| - 1 ==> Requires(ws, p[i], p[i + 1]);
      }
    }
  }

  /** Every setup in the catalog ends exactly when the catalog is ready. */
  lemma ReadyExactlyWhenAllSetupsEnd(ws: Catalog)
    ensures Ready(ws) <==> forall w :: w in ws ==> AllRegistered(ws, w) && NoCycle(ws, w)
  {
    ReadyMeansAcyclic(ws);
    if Ready(ws) {
      forall w | w in ws ensures AllRegistered(ws, w) && NoCycle(ws, w) {
        ReadySetupFollowsPlan(ws, w, 0, Rank(ws, w));
        CallsOfDone(ws, w, 0, Rank(ws, w));
      }
    } else {
      NotReadyMeansStuck(ws);
    }
  }

  lemma NotReadyMeansStuck(ws: Catalog)
    requires !(Complete(PrereqGraph(ws)) && Acyclic(PrereqGraph(ws)))
    ensures exists w :: w in ws && !(AllRegistered(ws, w) && NoCycle(ws, w))
  {
    var g := PrereqGraph(ws);
    if !Acyclic(g) {
      var p :| |p| > 1 && Walk(g, p) && p[0] == p[|p| - 1];
      CallsAreWalks(ws, p);
      assert CallsFrom(ws, p[0], p) && Repeats(p);
    } else {
      var u :| u in g && !(g[u] <= g.Keys);
      var v :| v in g[u] && v !in g;
      var p :| p in ws[u].prereqs && p.workshop == v;
      assert Requires(ws, u, v);
      assert CallsFrom(ws, u, [u, v]) && [u, v][1] == v;
    }
  }

  /** In a ready catalog, setups finish with the plan that the properties of setups are about. */
  lemma {:induction false} ReadySetupFollowsPlan(ws: Catalog, w: Id, lab: nat, depth: nat)
    requires Ready(ws) && w in ws && Rank(ws, w) <= depth
    ensures Setup(ws, w, lab, depth) == Done(SetupPlan(ws, w, lab))
    decreases depth, 1, 0
  {
    if ws[w].runnable {
      PrereqsFollowPlan(ws, w, |ws[w].prereqs|, depth);
    }
  }

  lemma {:induction false} PrereqsFollowPlan(ws: Catalog, w: Id, n: nat, depth: nat)
    requires Ready(ws) && Runnable(ws, w) && n <= |ws[w].prereqs| && Rank(ws, w) <= depth
    ensures SetupPrereqs(ws, w, n, depth) == Done(PrereqsPlan(ws, w, n))
    decreases depth, 0, n
  {
    if n > 0 {
      var p := ws[w].prereqs[n - 1];
      PrereqRanksLower(ws, w, n - 1);
      PrereqsFollowPlan(ws, w, n - 1, depth);
      ReadySetupFollowsPlan(ws, p.workshop, Cutoff(p), depth - 1);
    }
  }

  lemma {:induction false} ReadyTeardownFollowsPlan(ws: Catalog, w: Id, depth: nat)
    requires Ready(ws) && w in ws && Rank(ws, w) <= depth
    ensures Teardown(ws, w, depth) == Done(TeardownPlan(ws, w))
    decreases depth, 1, 0
  {
    if ws[w].runnable {
      PrereqsFollowTeardown(ws, w, |ws[w].prereqs|, depth);
    }
  }

  lemma {:induction false} PrereqsFollowTeardown(ws: Catalog, w: Id, n: nat, depth: nat)
    requires Ready(ws) && Runnable(ws, w) && n <= |ws[w].prereqs| && Rank(ws, w) <= depth
    ensures TeardownPrereqs(ws, w, n, depth) == Done(PrereqsTeardown(ws, w, n))
    decreases depth, 0, n
  {
    if n > 0 {
      PrereqRanksLower(ws, w, n - 1);
      PrereqsFollowTeardown(ws, w, n - 1, depth);
      ReadyTeardownFollowsPlan(ws, ws[w].prereqs[n - 1].workshop, depth - 1);
    }
  }

  // A setup that ends does so by the plan of the workshops it calls, whatever else is
  // registered.

  ghost predicate IsCalled(ws: Catalog, w: Id, v: Id) {
    exists p :: CallsFrom(ws, w, p) && p[|p| - 1] == v
  }

  ghost function Called(ws: Catalog, w: Id): Catalog {
    map v | v in ws && IsCalled(ws, w, v) :: ws[v]
  }

  lemma CallsOneMore(ws: Catalog, w: Id, v: Id, q: seq<Id>) returns (p: seq<Id>)
    requires IsCalled(ws, w, v) && CallsFrom(ws, v, q)
    ensures CallsFrom(ws, w, p) && p[|p| - 1] == q[|q| - 1] && (Repeats(q) ==> Repeats(p))
  {
    var before :| CallsFrom(ws, w, before) && before[|before| - 1] == v;
    CallsJoin(ws, before, q);
    p := before + q[1..];
    var n := |before| - 1;
    assert forall k :: 0 <= k < |q| ==> p[n + k] == q[k];
    if Repeats(q) {
      var i, j :| 0 <= i < j < |q| && q[i] == q[j];
      assert p[n + i] == p[n + j];
    }
  }

  lemma CalledIsReady(ws: Catalog, w: Id)
    requires AllRegistered(ws, w) && NoCycle(ws, w)
    ensures w in Called(ws, w) && Ready(Called(ws, w))
  {
    var c := Called(ws, w);
    assert CallsFrom(ws, w, [w]) && [w][0] in ws;
    forall v | v in c ensures AllRegistered(c, v) && NoCycle(c, v) {
      forall q | CallsFrom(c, v, q) ensures q[|q| - 1] in c && !Repeats(q) {
        assert forall i :: 0 <= i < |q| - 1 && Requires(c, q[i], q[i + 1]) ==> Requires(ws, q[i], q[i + 1]);
        var p := CallsOneMore(ws, w, v, q);
      }
    }
    ReadyExactlyWhenAllSetupsEnd(c);
  }

  lemma {:induction false} CalledSetsUpAlike(ws: Catalog, w: Id, v: Id, lab: nat, depth: nat)
    requires AllRegistered(ws, w) && IsCalled(ws, w, v)
    ensures Setup(ws, v, lab, depth) == Setup(Called(ws, w), v, lab, depth)
    decreases depth, 1, 0
  {
    assert v in ws;
    if ws[v].runnable {
      PrereqsSetUpAlike(ws, w, v, |ws[v].prereqs|, depth);
    }
  }

  lemma {:induction false} PrereqsSetUpAlike(ws: Catalog, w: Id, v: Id, n: nat, depth: nat)
    requires AllRegistered(ws, w) && IsCalled(ws, w, v) && Runnable(ws, v) && n <= |ws[v].prereqs|
    ensures SetupPrereqs(ws, v, n, depth) == SetupPrereqs(Called(ws, w), v, n, depth)
    decreases depth, 0, n
  {
    if n > 0 {
      PrereqsSetUpAlike(ws, w, v, n - 1, depth);
      if depth > 0 {
        PrereqIsCalled(ws, w, v, n - 1);
        CalledSetsUpAlike(ws, w, ws[v].prereqs[n - 1].workshop, Cutoff(ws[v].prereqs[n - 1]), depth - 1);
      }
    }
  }

  lemma PrereqIsCalled(ws: Catalog, w: Id, v: Id, i: nat)
    requires IsCalled(ws, w, v) && Runnable(ws, v) && i < |ws[v].prereqs|
    ensures IsCalled(ws, w, ws[v].prereqs[i].workshop)
  {
    var u := ws[v].prereqs[i].workshop;
    assert Requires(ws, v, u) && CallsFrom(ws, v, [v, u]);
    var p := CallsOneMore(ws, w, v, [v, u]);
  }

  lemma {:induction false} CalledTearsDownAlike(ws: Catalog, w: Id, v: Id, depth: nat)
    requires AllRegistered(ws, w) && IsCalled(ws, w, v)
    ensures Teardown(ws, v, depth) == Teardown(Called(ws, w), v, depth)
    decreases depth, 1, 0
  {
    assert v in ws;
    if ws[v].runnable {
      PrereqsTearDownAlike(ws, w, v, |ws[v].prereqs|, depth);
    }
  }

  lemma {:induction false} PrereqsTearDownAlike(ws: Catalog, w: Id, v: Id, n: nat, depth: nat)
    requires AllRegistered(ws, w) && IsCalled(ws, w, v) && Runnable(ws, v) && n <= |ws[v].prereqs|
    ensures TeardownPrereqs(ws, v, n, depth) == TeardownPrereqs(Called(ws, w), v, n, depth)
    decreases depth, 0, n
  {
    if n > 0 {
      PrereqsTearDownAlike(ws, w, v, n - 1, depth);
      if depth > 0 {
        PrereqIsCalled(ws, w, v, n - 1);
        CalledTearsDownAlike(ws, w, ws[v].prereqs[n - 1].workshop, depth - 1);
      }
    }
  }

  /** A setup that ends is the plan for the workshops it calls, and so is the teardown. */
  lemma EndedSetupFollowsPlan(ws: Catalog, w: Id, lab: nat)
    requires AllRegistered(ws, w) && NoCycle(ws, w)
    ensures var c := Called(ws, w);
            && w in c && Ready(c)
            && (forall depth: nat :: Rank(c, w) <= depth ==> Setup(ws, w, lab, depth) == Done(SetupPlan(c, w, lab)))
            && (forall depth: nat :: Rank(c, w) <= depth ==> Teardown(ws, w, depth) == Done(TeardownPlan(c, w)))
  {
    var c := Called(ws, w);
    CalledIsReady(ws, w);
    forall depth: nat | Rank(c, w) <= depth
      ensures Setup(ws, w, lab, depth) == Done(SetupPlan(c, w, lab))
          && Teardown(ws, w, depth) == Done(TeardownPlan(c, w))
    {
      CalledSetsUpAlike(ws, w, w, lab, depth);
      CalledTearsDownAlike(ws, w, w, depth);
      ReadySetupFollowsPlan(c, w, lab, depth);
      ReadyTeardownFollowsPlan(c, w, depth);
    }
  }
}
