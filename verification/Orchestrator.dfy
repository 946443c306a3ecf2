/** Setting up and tearing down workshops (labs/__init__.py): a workshop's prerequisites
    are set up before it, up to a lab, and torn down after it; workshops that are not
    runnable are passed over together with what only they need. */
module Orchestrator {
  import opened Graphs

  type Id = string

  datatype Prereq = Whole(workshop: Id) | UpTo(workshop: Id, lab: nat)

  const NO_LIMIT: nat := 99

  function Cutoff(p: Prereq): nat {
    match p
    case Whole(_) => NO_LIMIT
    case UpTo(_, lab) => lab
  }

  /** What the class of a workshop declares: its prerequisites, whether they are met, and
      the names of its members, among which are the labs. */
  datatype Workshop = Workshop(prereqs: seq<Prereq>, runnable: bool, members: seq<string>)

  type Catalog = map<Id, Workshop>

  predicate Runnable(ws: Catalog, w: Id) {
    w in ws && ws[w].runnable
  }

  /** Every prerequisite of a runnable workshop is registered and ranks below it. */
  ghost predicate IsOrder(ws: Catalog, rank: map<Id, nat>) {
    && rank.Keys == ws.Keys
    && forall w, i :: Runnable(ws, w) && 0 <= i < |ws[w].prereqs| ==>
         ws[w].prereqs[i].workshop in ws && rank[ws[w].prereqs[i].workshop] < rank[w]
  }

  ghost predicate Ready(ws: Catalog) {
    exists rank :: IsOrder(ws, rank)
  }

  ghost function Rank(ws: Catalog, w: Id): nat
    requires Ready(ws) && w in ws
  {
    var rank :| IsOrder(ws, rank);
    rank[w]
  }

  lemma PrereqRanksLower(ws: Catalog, w: Id, i: nat)
    requires Ready(ws) && Runnable(ws, w) && i < |ws[w].prereqs|
    ensures ws[w].prereqs[i].workshop in ws && Rank(ws, ws[w].prereqs[i].workshop) < Rank(ws, w)
  {
  }

  /** What each runnable workshop requires. */
  function PrereqGraph(ws: Catalog): Graph<Id> {
    map w | w in ws :: if ws[w].runnable then (set p | p in ws[w].prereqs :: p.workshop) else {}
  }

  /** A rank exists exactly when runnable workshops only require registered workshops and
      do not require each other in a cycle. */
  lemma ReadyMeansAcyclic(ws: Catalog)
    ensures Ready(ws) <==> Complete(PrereqGraph(ws)) && Acyclic(PrereqGraph(ws))
  {
    var g := PrereqGraph(ws);
    if Ready(ws) {
      var rank :| IsOrder(ws, rank);
      forall u, v | u in g && v in g[u] ensures v in ws && rank[v] < rank[u] {
        var p :| p in ws[u].prereqs && p.workshop == v;
        var i :| 0 <= i < |ws[u].prereqs| && ws[u].prereqs[i] == p;
      }
      RankedIsAcyclic(g, rank);
    }
    if Complete(g) && Acyclic(g) {
      var rank := AcyclicHasRank(g);
      forall w, i | Runnable(ws, w) && 0 <= i < |ws[w].prereqs|
        ensures ws[w].prereqs[i].workshop in ws && rank[ws[w].prereqs[i].workshop] < rank[w]
      {
        assert ws[w].prereqs[i].workshop in g[w];
      }
      assert IsOrder(ws, rank);
    }
  }

  // The order of work, workshop by workshop.

  datatype Run = Run(workshop: Id, lab: nat)

  function SetupPlan(ws: Catalog, w: Id, lab: nat): seq<Run>
    requires Ready(ws) && w in ws
    decreases Rank(ws, w), 1, 0
  {
    if ws[w].runnable then PrereqsPlan(ws, w, |ws[w].prereqs|) + [Run(w, lab)] else []
  }

  function PrereqsPlan(ws: Catalog, w: Id, n: nat): seq<Run>
    requires Ready(ws) && Runnable(ws, w) && n <= |ws[w].prereqs|
    decreases Rank(ws, w), 0, n
  {
    if n == 0 then []
    else
      var p := ws[w].prereqs[n - 1];
      PrereqRanksLower(ws, w, n - 1);
      PrereqsPlan(ws, w, n - 1) + SetupPlan(ws, p.workshop, Cutoff(p))
  }

  function TeardownPlan(ws: Catalog, w: Id): seq<Id>
    requires Ready(ws) && w in ws
    decreases Rank(ws, w), 1, 0
  {
    if ws[w].runnable then [w] + PrereqsTeardown(ws, w, |ws[w].prereqs|) else []
  }

  function PrereqsTeardown(ws: Catalog, w: Id, n: nat): seq<Id>
    requires Ready(ws) && Runnable(ws, w) && n <= |ws[w].prereqs|
    decreases Rank(ws, w), 0, n
  {
    if n == 0 then []
    else
      PrereqRanksLower(ws, w, n - 1);
      PrereqsTeardown(ws, w, n - 1) + TeardownPlan(ws, ws[w].prereqs[n - 1].workshop)
  }

  // Which workshops a setup covers.

  predicate Requires(ws: Catalog, w: Id, v: Id) {
    Runnable(ws, w) && exists i :: 0 <= i < |ws[w].prereqs| && ws[w].prereqs[i].workshop == v
  }

  /** A path of prerequisites through runnable workshops only. */
  ghost predicate RunnablePath(ws: Catalog, p: seq<Id>) {
    && p != [] && (forall i :: 0 <= i < |p| ==> Runnable(ws, p[i]))
    && forall i :: 0 <= i < |p| - 1 ==> Requires(ws, p[i], p[i + 1])
  }

  ghost predicate Reaches(ws: Catalog, w: Id, v: Id) {
    exists p :: RunnablePath(ws, p) && p[0] == w && p[|p| - 1] == v
  }

  lemma PathExtends(ws: Catalog, w: Id, i: nat, v: Id)
    requires Runnable(ws, w) && i < |ws[w].prereqs| && Reaches(ws, ws[w].prereqs[i].workshop, v)
    ensures Reaches(ws, w, v)
  {
    var u := ws[w].prereqs[i].workshop;
    var p :| RunnablePath(ws, p) && p[0] == u && p[|p| - 1] == v;
    var q := [w] + p;
    assert Requires(ws, w, u);
    assert RunnablePath(ws, q) && q[0] == w && q[|q| - 1] == v;
  }

  lemma PathSplits(ws: Catalog, w: Id, v: Id) returns (i: nat)
    requires Reaches(ws, w, v) && v != w
    ensures Runnable(ws, w) && i < |ws[w].prereqs| && Reaches(ws, ws[w].prereqs[i].workshop, v)
  {
    var p :| RunnablePath(ws, p) && p[0] == w && p[|p| - 1] == v;
    assert Requires(ws, p[0], p[0 + 1]);
    i :| 0 <= i < |ws[w].prereqs| && ws[w].prereqs[i].workshop == p[1];
    var q := p[1..];
    forall j | 0 <= j < |q| - 1 ensures Requires(ws, q[j], q[j + 1]) {
      assert Requires(ws, p[j + 1], p[j + 1 + 1]);
    }
    assert RunnablePath(ws, q) && q[0] == p[1] && q[|q| - 1] == v;
  }

  ghost predicate InPlan(plan: seq<Run>, v: Id) {
    exists i :: 0 <= i < |plan| && plan[i].workshop == v
  }

  lemma InPlanOfSum(a: seq<Run>, b: seq<Run>, v: Id)
    ensures InPlan(a + b, v) <==> InPlan(a, v) || InPlan(b, v)
  {
    if InPlan(a, v) {
      var i :| 0 <= i < |a| && a[i].workshop == v;
      assert (a + b)[i].workshop == v;
    }
    if InPlan(b, v) {
      var i :| 0 <= i < |b| && b[i].workshop == v;
      assert (a + b)[|a| + i].workshop == v;
    }
  }

  /** Setup runs exactly the workshops that are reachable through runnable ones. */
  lemma {:induction false} SetupRunsWhatIsReachable(ws: Catalog, w: Id, lab: nat, v: Id)
    requires Ready(ws) && w in ws
    ensures InPlan(SetupPlan(ws, w, lab), v) <==> Reaches(ws, w, v)
    decreases Rank(ws, w), 1
  {
    if ws[w].runnable {
      var n := |ws[w].prereqs|;
      PrereqsRunWhatIsReachable(ws, w, n, v);
      SomePrereqReachesIs(ws, w, n, v);
      InPlanOfSum(PrereqsPlan(ws, w, n), [Run(w, lab)], v);
      if v == w {
        assert RunnablePath(ws, [w]);
        assert [Run(w, lab)][0].workshop == v;
      } else if Reaches(ws, w, v) {
        var i := PathSplits(ws, w, v);
      } else if InPlan(PrereqsPlan(ws, w, n), v) {
        var i :| 0 <= i < n && Reaches(ws, ws[w].prereqs[i].workshop, v);
        PathExtends(ws, w, i, v);
      }
    }
  }

  ghost predicate SomePrereqReaches(ws: Catalog, w: Id, n: nat, v: Id)
    requires w in ws && n <= |ws[w].prereqs|
  {
    n > 0 && (SomePrereqReaches(ws, w, n - 1, v) || Reaches(ws, ws[w].prereqs[n - 1].workshop, v))
  }

  lemma {:induction false} SomePrereqReachesIs(ws: Catalog, w: Id, n: nat, v: Id)
    requires w in ws && n <= |ws[w].prereqs|
    ensures SomePrereqReaches(ws, w, n, v) <==> exists i :: 0 <= i < n && Reaches(ws, ws[w].prereqs[i].workshop, v)
  {
    if n > 0 {
      SomePrereqReachesIs(ws, w, n - 1, v);
    }
  }

  lemma {:induction false} PrereqsRunWhatIsReachable(ws: Catalog, w: Id, n: nat, v: Id)
    requires Ready(ws) && Runnable(ws, w) && n <= |ws[w].prereqs|
    ensures InPlan(PrereqsPlan(ws, w, n), v) <==> SomePrereqReaches(ws, w, n, v)
    decreases Rank(ws, w), 0, n
  {
    if n > 0 {
      var p := ws[w].prereqs[n - 1];
      PrereqRanksLower(ws, w, n - 1);
      var a, b := PrereqsPlan(ws, w, n - 1), SetupPlan(ws, p.workshop, Cutoff(p));
      PrereqsRunWhatIsReachable(ws, w, n - 1, v);
      SetupRunsWhatIsReachable(ws, p.workshop, Cutoff(p), v);
      assert PrereqsPlan(ws, w, n) == a + b;
      InPlanOfSum(a, b, v);
    }
  }

  // Prerequisites come first on the way up and last on the way down.

  /** Each run in the plan comes after a run of each of its runnable prerequisites, up to
      the lab that the prerequisite asks for. */
  ghost predicate PrereqsFirst(ws: Catalog, plan: seq<Run>) {
    forall i :: 0 <= i < |plan| ==> plan[i].workshop in ws && AllPlanned(ws, plan[i].workshop, plan[..i])
  }

  ghost predicate AllPlanned(ws: Catalog, w: Id, plan: seq<Run>)
    requires w in ws
  {
    forall p :: p in ws[w].prereqs && Runnable(ws, p.workshop) ==>
      match p
      case Whole(v) => Run(v, 99) in plan
      case UpTo(v, lab) => Run(v, lab) in plan
  }

  lemma PrereqsFirstOfSum(ws: Catalog, a: seq<Run>, b: seq<Run>)
    requires PrereqsFirst(ws, a) && PrereqsFirst(ws, b)
    ensures PrereqsFirst(ws, a + b)
  {
    var s := a + b;
    forall i | 0 <= i < |s| ensures s[i].workshop in ws && AllPlanned(ws, s[i].workshop, s[..i]) {
      if i < |a| {
        assert s[..i] == a[..i];
        assert AllPlanned(ws, a[i].workshop, a[..i]);
      } else {
        assert s[..i] == a + b[..i - |a|];
        assert AllPlanned(ws, b[i - |a|].workshop, b[..i - |a|]);
      }
    }
  }

  lemma {:induction false} SetupPutsPrereqsFirst(ws: Catalog, w: Id, lab: nat)
    requires Ready(ws) && w in ws
    ensures PrereqsFirst(ws, SetupPlan(ws, w, lab))
    ensures ws[w].runnable ==> Run(w, lab) in SetupPlan(ws, w, lab)
    decreases Rank(ws, w), 1
  {
    if ws[w].runnable {
      var n := |ws[w].prereqs|;
      var before := PrereqsPlan(ws, w, n);
      PrereqsPlanIsOrdered(ws, w, n);
      var s := before + [Run(w, lab)];
      forall i | 0 <= i < |s| ensures s[i].workshop in ws && AllPlanned(ws, s[i].workshop, s[..i]) {
        if i < |before| {
          assert s[..i] == before[..i];
          assert AllPlanned(ws, before[i].workshop, before[..i]);
        } else {
          assert s[..i] == before;
        }
      }
    }
  }

  ghost predicate Covers(ws: Catalog, w: Id, n: nat, plan: seq<Run>)
    requires w in ws && n <= |ws[w].prereqs|
  {
    forall i :: 0 <= i < n && Runnable(ws, ws[w].prereqs[i].workshop) ==>
      Run(ws[w].prereqs[i].workshop, Cutoff(ws[w].prereqs[i])) in plan
  }

  lemma CoversOneMore(ws: Catalog, w: Id, n: nat, a: seq<Run>, b: seq<Run>)
    requires w in ws && n < |ws[w].prereqs| && Covers(ws, w, n, a)
    requires Runnable(ws, ws[w].prereqs[n].workshop) ==> Run(ws[w].prereqs[n].workshop, Cutoff(ws[w].prereqs[n])) in b
    ensures Covers(ws, w, n + 1, a + b)
  {
  }

  lemma {:induction false} PrereqsPlanIsOrdered(ws: Catalog, w: Id, n: nat)
    requires Ready(ws) && Runnable(ws, w) && n <= |ws[w].prereqs|
    ensures PrereqsFirst(ws, PrereqsPlan(ws, w, n)) && Covers(ws, w, n, PrereqsPlan(ws, w, n))
    decreases Rank(ws, w), 0, n
  {
    if n > 0 {
      var p := ws[w].prereqs[n - 1];
      PrereqRanksLower(ws, w, n - 1);
      var a, b := PrereqsPlan(ws, w, n - 1), SetupPlan(ws, p.workshop, Cutoff(p));
      PrereqsPlanIsOrdered(ws, w, n - 1);
      SetupPutsPrereqsFirst(ws, p.workshop, Cutoff(p));
      PrereqsFirstOfSum(ws, a, b);
      CoversOneMore(ws, w, n - 1, a, b);
      assert PrereqsPlan(ws, w, n) == a + b;
    }
  }

  /** The runs for a prerequisite end with its own run, up to its lab, and follow the runs
      for the prerequisites listed before it; a plan ends with the run of its workshop. */
  lemma {:induction false} PlanFollowsListing(ws: Catalog, w: Id, lab: nat, n: nat)
    requires Ready(ws) && Runnable(ws, w) && n <= |ws[w].prereqs|
    ensures PrereqsPlan(ws, w, n) <= SetupPlan(ws, w, lab)
    ensures forall i :: 0 <= i < n ==> PrereqsPlan(ws, w, i) <= PrereqsPlan(ws, w, n)
    ensures SetupPlan(ws, w, lab) != [] && SetupPlan(ws, w, lab)[|SetupPlan(ws, w, lab)| - 1] == Run(w, lab)
    ensures n > 0 && Runnable(ws, ws[w].prereqs[n - 1].workshop) ==>
              var plan, p := PrereqsPlan(ws, w, n), ws[w].prereqs[n - 1];
              plan != [] && plan[|plan| - 1] == Run(p.workshop, match p case Whole(_) => 99 case UpTo(_, l) => l)
    decreases |ws[w].prereqs| - n
  {
    PrefixesGrow(ws, w, n);
    PrefixesGrow(ws, w, |ws[w].prereqs|);
    if n > 0 {
      PrereqRanksLower(ws, w, n - 1);
    }
  }

  lemma {:induction false} PrefixesGrow(ws: Catalog, w: Id, n: nat)
    requires Ready(ws) && Runnable(ws, w) && n <= |ws[w].prereqs|
    ensures forall i :: 0 <= i <= n ==> PrereqsPlan(ws, w, i) <= PrereqsPlan(ws, w, n)
  {
    if n > 0 {
      PrefixesGrow(ws, w, n - 1);
      PrereqRanksLower(ws, w, n - 1);
    }
  }

  /** Each teardown in the plan is followed by a teardown of each runnable prerequisite. */
  ghost predicate PrereqsLast(ws: Catalog, plan: seq<Id>) {
    forall i :: 0 <= i < |plan| ==> plan[i] in ws && AllToGo(ws, plan[i], plan[i + 1..])
  }

  ghost predicate AllToGo(ws: Catalog, w: Id, plan: seq<Id>)
    requires w in ws
  {
    forall p :: p in ws[w].prereqs && Runnable(ws, p.workshop) ==> p.workshop in plan
  }

  lemma PrereqsLastOfSum(ws: Catalog, a: seq<Id>, b: seq<Id>)
    requires PrereqsLast(ws, a) && PrereqsLast(ws, b)
    ensures PrereqsLast(ws, a + b)
  {
    var s := a + b;
    forall i | 0 <= i < |s| ensures s[i] in ws && AllToGo(ws, s[i], s[i + 1..]) {
      if i < |a| {
        assert s[i + 1..] == a[i + 1..] + b;
        assert AllToGo(ws, a[i], a[i + 1..]);
      } else {
        assert s[i + 1..] == b[i - |a| + 1..];
        assert AllToGo(ws, b[i - |a|], b[i - |a| + 1..]);
      }
    }
  }

  lemma {:induction false} TeardownPutsPrereqsLast(ws: Catalog, w: Id)
    requires Ready(ws) && w in ws
    ensures PrereqsLast(ws, TeardownPlan(ws, w))
    ensures ws[w].runnable ==> w in TeardownPlan(ws, w)
    decreases Rank(ws, w), 1
  {
    if ws[w].runnable {
      var n := |ws[w].prereqs|;
      var rest := PrereqsTeardown(ws, w, n);
      PrereqsTeardownIsOrdered(ws, w, n);
      var s := [w] + rest;
      forall i | 0 <= i < |s| ensures s[i] in ws && AllToGo(ws, s[i], s[i + 1..]) {
        if i == 0 {
          assert s[1..] == rest;
        } else {
          assert s[i + 1..] == rest[i - 1 + 1..];
          assert AllToGo(ws, rest[i - 1], rest[i - 1 + 1..]);
        }
      }
    }
  }

  ghost predicate CoversDown(ws: Catalog, w: Id, n: nat, plan: seq<Id>)
    requires w in ws && n <= |ws[w].prereqs|
  {
    forall i :: 0 <= i < n && Runnable(ws, ws[w].prereqs[i].workshop) ==> ws[w].prereqs[i].workshop in plan
  }

  lemma CoversOneMoreDown(ws: Catalog, w: Id, n: nat, a: seq<Id>, b: seq<Id>)
    requires w in ws && n < |ws[w].prereqs| && CoversDown(ws, w, n, a)
    requires Runnable(ws, ws[w].prereqs[n].workshop) ==> ws[w].prereqs[n].workshop in b
    ensures CoversDown(ws, w, n + 1, a + b)
  {
  }

  lemma {:induction false} PrereqsTeardownIsOrdered(ws: Catalog, w: Id, n: nat)
    requires Ready(ws) && Runnable(ws, w) && n <= |ws[w].prereqs|
    ensures PrereqsLast(ws, PrereqsTeardown(ws, w, n)) && CoversDown(ws, w, n, PrereqsTeardown(ws, w, n))
    decreases Rank(ws, w), 0, n
  {
    if n > 0 {
      var p := ws[w].prereqs[n - 1];
      PrereqRanksLower(ws, w, n - 1);
      var a, b := PrereqsTeardown(ws, w, n - 1), TeardownPlan(ws, p.workshop);
      PrereqsTeardownIsOrdered(ws, w, n - 1);
      TeardownPutsPrereqsLast(ws, p.workshop);
      PrereqsLastOfSum(ws, a, b);
      CoversOneMoreDown(ws, w, n - 1, a, b);
      assert PrereqsTeardown(ws, w, n) == a + b;
    }
  }

  /** `a` requires `b` and `c`, and both require `d`. */
  ghost predicate IsDiamond(ws: Catalog, a: Id, b: Id, c: Id, d: Id, i: nat, l: nat) {
    && Runnable(ws, a) && Runnable(ws, b) && Runnable(ws, c) && Runnable(ws, d)
    && ws[a].prereqs == [Whole(b), UpTo(c, l)]
    && ws[b].prereqs == [UpTo(d, i)] && ws[c].prereqs == [Whole(d)] && ws[d].prereqs == []
  }

  lemma PlansWithout(ws: Catalog, w: Id, lab: nat)
    requires Ready(ws) && Runnable(ws, w) && ws[w].prereqs == []
    ensures SetupPlan(ws, w, lab) == [Run(w, lab)] && TeardownPlan(ws, w) == [w]
  {
  }

  lemma PlansStep(ws: Catalog, w: Id, n: nat, p: Prereq)
    requires Ready(ws) && Runnable(ws, w) && n < |ws[w].prereqs| && ws[w].prereqs[n] == p
    ensures p.workshop in ws
    ensures PrereqsPlan(ws, w, n + 1) == PrereqsPlan(ws, w, n) + SetupPlan(ws, p.workshop, Cutoff(p))
    ensures PrereqsTeardown(ws, w, n + 1) == PrereqsTeardown(ws, w, n) + TeardownPlan(ws, p.workshop)
  {
    PrereqRanksLower(ws, w, n);
  }

  lemma PlansEnd(ws: Catalog, w: Id, lab: nat, n: nat)
    requires Ready(ws) && Runnable(ws, w) && n == |ws[w].prereqs|
    ensures SetupPlan(ws, w, lab) == PrereqsPlan(ws, w, n) + [Run(w, lab)]
    ensures TeardownPlan(ws, w) == [w] + PrereqsTeardown(ws, w, n)
    ensures PrereqsPlan(ws, w, 0) == [] && PrereqsTeardown(ws, w, 0) == []
  {
  }

  lemma PlansWithOne(ws: Catalog, w: Id, lab: nat, p: Prereq)
    requires Ready(ws) && Runnable(ws, w) && ws[w].prereqs == [p]
    ensures p.workshop in ws
    ensures SetupPlan(ws, w, lab) == SetupPlan(ws, p.workshop, Cutoff(p)) + [Run(w, lab)]
    ensures TeardownPlan(ws, w) == [w] + TeardownPlan(ws, p.workshop)
  {
    PlansStep(ws, w, 0, p);
    PlansEnd(ws, w, lab, 1);
  }

  lemma PlansWithTwo(ws: Catalog, w: Id, lab: nat, p: Prereq, q: Prereq)
    requires Ready(ws) && Runnable(ws, w) && ws[w].prereqs == [p, q]
    ensures p.workshop in ws && q.workshop in ws
    ensures SetupPlan(ws, w, lab) ==
            SetupPlan(ws, p.workshop, Cutoff(p)) + SetupPlan(ws, q.workshop, Cutoff(q)) + [Run(w, lab)]
    ensures TeardownPlan(ws, w) == [w] + (TeardownPlan(ws, p.workshop) + TeardownPlan(ws, q.workshop))
  {
    PlansStep(ws, w, 0, p);
    PlansStep(ws, w, 1, q);
    PlansEnd(ws, w, lab, 2);
  }

  /** A diamond, written out. */
  lemma DiamondPlans(ws: Catalog, a: Id, b: Id, c: Id, d: Id, i: nat, l: nat, lab: nat)
    requires Ready(ws) && IsDiamond(ws, a, b, c, d, i, l)
    ensures SetupPlan(ws, a, lab) == [Run(d, i), Run(b, 99), Run(d, 99), Run(c, l), Run(a, lab)]
    ensures TeardownPlan(ws, a) == [a, b, d, c, d]
  {
    PlansWithout(ws, d, i);
    PlansWithout(ws, d, 99);
    PlansWithOne(ws, b, 99, UpTo(d, i));
    PlansWithOne(ws, c, l, Whole(d));
    PlansWithTwo(ws, a, lab, Whole(b), UpTo(c, l));
  }

  // Teardown undoes as many runs of each workshop as setup makes.

  function Names(plan: seq<Run>): (s: seq<Id>)
    ensures |s| == |plan| && forall i :: 0 <= i < |plan| ==> s[i] == plan[i].workshop
  {
    seq(|plan|, i requires 0 <= i < |plan| => plan[i].workshop)
  }

  lemma NamesOfSum(a: seq<Run>, b: seq<Run>)
    ensures Names(a + b) == Names(a) + Names(b)
  {
  }

  /** Setup and teardown cover the same workshops, each as often: diamonds included. */
  lemma {:induction false} TeardownMirrorsSetup(ws: Catalog, w: Id, lab: nat)
    requires Ready(ws) && w in ws
    ensures multiset(TeardownPlan(ws, w)) == multiset(Names(SetupPlan(ws, w, lab)))
    decreases Rank(ws, w), 1
  {
    if ws[w].runnable {
      var n := |ws[w].prereqs|;
      PrereqsMirror(ws, w, n);
      NamesOfSum(PrereqsPlan(ws, w, n), [Run(w, lab)]);
      assert Names([Run(w, lab)]) == [w];
    }
  }

  lemma {:induction false} PrereqsMirror(ws: Catalog, w: Id, n: nat)
    requires Ready(ws) && Runnable(ws, w) && n <= |ws[w].prereqs|
    ensures multiset(PrereqsTeardown(ws, w, n)) == multiset(Names(PrereqsPlan(ws, w, n)))
    decreases Rank(ws, w), 0, n
  {
    if n > 0 {
      var p := ws[w].prereqs[n - 1];
      PrereqRanksLower(ws, w, n - 1);
      PrereqsMirror(ws, w, n - 1);
      TeardownMirrorsSetup(ws, p.workshop, Cutoff(p));
      NamesOfSum(PrereqsPlan(ws, w, n - 1), SetupPlan(ws, p.workshop, Cutoff(p)));
      assert PrereqsPlan(ws, w, n) == PrereqsPlan(ws, w, n - 1) + SetupPlan(ws, p.workshop, Cutoff(p));
      assert PrereqsTeardown(ws, w, n) == PrereqsTeardown(ws, w, n - 1) + TeardownPlan(ws, p.workshop);
    }
  }
}
