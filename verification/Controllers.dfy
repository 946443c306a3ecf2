/** The loop with which workshop teardowns stop the controllers of a canvas: it goes over
    all controllers, in whatever order they are listed, until a whole pass succeeds. */
module Controllers {
  import opened Graphs

  type Controller = string

  /** A controller cannot be stopped while a running one references it. `referrers` gives
      the controllers that reference each controller. */
  predicate Blocked(referrers: Graph<Controller>, running: set<Controller>, c: Controller) {
    c in referrers && referrers[c] * running != {}
  }

  datatype Outcome = Outcome(running: set<Controller>, failed: bool)

  /** What one pass over the controllers in `order` leaves running, and whether it failed. */
  function Pass(referrers: Graph<Controller>, running: set<Controller>, order: seq<Controller>): Outcome {
    if order == [] then Outcome(running, false)
    else
      var n := |order| - 1;
      var before := Pass(referrers, running, order[..n]);
      if Blocked(referrers, before.running, order[n]) then Outcome(before.running, true)
      else Outcome(before.running - {order[n]}, before.failed)
  }

  /** The references among running controllers. */
  function Within(referrers: Graph<Controller>, running: set<Controller>): Graph<Controller> {
    map c | c in referrers && c in running :: referrers[c] * running
  }

  /** A running controller only references running ones. */
  ghost predicate Consistent(referrers: Graph<Controller>, running: set<Controller>) {
    forall c :: c in referrers && referrers[c] * running != {} ==> c in running
  }

  class Canvas {
    const referrers: Graph<Controller>
    var running: set<Controller>

    ghost predicate Valid()
      reads this
    {
      running <= referrers.Keys && Complete(referrers)
    }

    constructor (referrers: Graph<Controller>, running: set<Controller>)
      requires running <= referrers.Keys && Complete(referrers)
      ensures Valid() && this.referrers == referrers && this.running == running
    {
      this.referrers, this.running := referrers, running;
    }

    /** All controllers, in any order. */
    method ListAllControllers() returns (order: seq<Controller>)
      ensures (set c | c in order) == referrers.Keys
    {
      order := [];
      var todo := referrers.Keys;
      while todo != {}
        invariant todo <= referrers.Keys && forall c :: c in order <==> c in referrers.Keys - todo
        decreases |todo|
      {
        var c :| c in todo;
        order, todo := order + [c], todo - {c};
      }
    }

    /** Asks for one controller to be stopped; a conflict is reported as such. */
    method Stop(c: Controller) returns (conflict: bool)
      modifies this
      ensures conflict == Blocked(referrers, old(running), c)
      ensures running == if conflict then old(running) else old(running) - {c}
    {
      conflict := Blocked(referrers, running, c);
      if !conflict {
        running := running - {c};
      }
    }

    method OnePass() returns (order: seq<Controller>, failed: bool)
      modifies this
      ensures (set c | c in order) == referrers.Keys
      ensures Outcome(running, failed) == Pass(referrers, old(running), order)
    {
      order := ListAllControllers();
      failed := false;
      for i := 0 to |order|
        invariant Outcome(running, failed) == Pass(referrers, old(running), order[..i])
      {
        assert order[..i + 1][..i] == order[..i];
        var conflict := Stop(order[i]);
        if conflict {
          failed := true;
        }
      }
      assert order[..|order|] == order;
    }

    /** The retry loop. It stops everything, after at most as many passes as there are
        controllers (as there are running ones, if none of them references a stopped one). */
    method StopAll() returns (passes: nat, ghost orders: seq<seq<Controller>>)
      requires Valid() && Acyclic(Within(referrers, running))
      modifies this
      ensures running == {}
      ensures |orders| == passes && PassesUntilSuccess(referrers, old(running), orders)
      ensures 1 <= passes <= Max(1, |referrers.Keys|)
      ensures Consistent(referrers, old(running)) ==> passes <= Max(1, |old(running)|)
    {
      passes, orders := 0, [];
      ghost var start := running;
      ghost var n, m := |referrers.Keys|, |start|;
      NotAllRunning(referrers, start);
      var failed := true;
      while failed
        invariant |orders| == passes && running == AfterPasses(referrers, start, orders)
        invariant AllButLastFail(referrers, start, orders)
        invariant passes > 0 ==> failed == LastFails(referrers, start, orders)
        invariant failed || passes > 0
        invariant running <= start && Acyclic(Within(referrers, running))
        invariant Consistent(referrers, start) ==> Consistent(referrers, running)
        invariant failed ==> |running| + passes <= m
        invariant failed && passes > 0 && Consistent(referrers, start) ==> passes < m
        invariant !failed ==> running == {} && 1 <= passes <= Max(1, n)
        invariant !failed && Consistent(referrers, start) ==> passes <= Max(1, m)
        decreases failed, |running|
      {
        ghost var before := running;
        var order;
        order, failed := OnePass();
        PassMakesProgress(referrers, before, order);
        SubsetIsSmaller(running, before);
        OneMorePass(referrers, start, orders, order);
        passes, orders := passes + 1, orders + [order];
      }
    }
  }

  /** The pass with the last of the orders, after the others, leaves a controller running that
      another one references. */
  ghost predicate LastFails(g: Graph<Controller>, running: set<Controller>, orders: seq<seq<Controller>>)
    requires orders != []
  {
    var n := |orders| - 1;
    Pass(g, AfterPasses(g, running, orders[..n]), orders[n]).failed
  }

  ghost predicate AllButLastFail(g: Graph<Controller>, running: set<Controller>, orders: seq<seq<Controller>>) {
    forall i :: 0 < i < |orders| ==> LastFails(g, running, orders[..i])
  }

  /** Passes are made as long as they fail, and no longer. */
  ghost predicate PassesUntilSuccess(g: Graph<Controller>, running: set<Controller>, orders: seq<seq<Controller>>) {
    orders != [] && AllButLastFail(g, running, orders) && !LastFails(g, running, orders)
  }

  lemma OneMorePass(g: Graph<Controller>, running: set<Controller>, orders: seq<seq<Controller>>,
                    order: seq<Controller>)
    requires AllButLastFail(g, running, orders) && (orders != [] ==> LastFails(g, running, orders))
    ensures AllButLastFail(g, running, orders + [order])
    ensures LastFails(g, running, orders + [order]) == Pass(g, AfterPasses(g, running, orders), order).failed
    ensures AfterPasses(g, running, orders + [order]) == Pass(g, AfterPasses(g, running, orders), order).running
  {
    var s := orders + [order];
    assert s[..|orders|] == orders;
    forall i | 0 < i < |s| ensures LastFails(g, running, s[..i]) {
      assert s[..i] == orders[..i] && orders[..|orders|] == orders;
    }
  }

  function Max(a: nat, b: nat): nat {
    if a < b then b else a
  }

  lemma SubsetIsSmaller<T>(a: set<T>, b: set<T>)
    requires a <= b
    ensures |a| <= |b| && (a != b ==> |a| < |b|)
  {
    assert b == a + (b - a);
  }

  lemma NotAllRunning(g: Graph<Controller>, running: set<Controller>)
    requires running <= g.Keys
    ensures |running| <= |g.Keys|
    ensures !Consistent(g, running) ==> |running| < |g.Keys|
  {
    SubsetIsSmaller(running, g.Keys);
  }

  lemma {:induction false} PassOnlyStops(g: Graph<Controller>, running: set<Controller>, order: seq<Controller>)
    ensures Pass(g, running, order).running <= running
  {
    if order != [] {
      PassOnlyStops(g, running, order[..|order| - 1]);
    }
  }

  lemma {:induction false} FreeControllerStops(g: Graph<Controller>, running: set<Controller>, order: seq<Controller>,
      c: Controller)
    requires c in order && c in g && g[c] * running == {}
    ensures c !in Pass(g, running, order).running
  {
    var n := |order| - 1;
    PassOnlyStops(g, running, order[..n]);
    if c in order[..n] {
      FreeControllerStops(g, running, order[..n], c);
    } else {
      assert order == order[..n] + [order[n]];
    }
  }

  lemma SelfReferenceIsCycle(g: Graph<Controller>, running: set<Controller>, c: Controller)
    requires c in g && c in running && c in g[c]
    ensures !Acyclic(Within(g, running))
  {
    var p := [c, c];
    assert Walk(Within(g, running), p) && p[0] == p[|p| - 1];
  }

  lemma {:induction false} FailureMeansRunning(g: Graph<Controller>, running: set<Controller>, order: seq<Controller>)
    requires Pass(g, running, order).failed
    ensures running != {}
    ensures Consistent(g, running) && Acyclic(Within(g, running)) ==> |running| >= 2
  {
    var n := |order| - 1;
    var before := Pass(g, running, order[..n]);
    PassOnlyStops(g, running, order[..n]);
    if before.failed {
      FailureMeansRunning(g, running, order[..n]);
    } else {
      var c := order[n];
      var a :| a in g[c] * before.running;
      if Consistent(g, running) && Acyclic(Within(g, running)) {
        assert a in g[c] * running;
        if a == c {
          SelfReferenceIsCycle(g, running, c);
        }
        assert {a, c} <= running;
        SubsetIsSmaller({a, c}, running);
      }
    }
  }

  lemma {:induction false} SuccessStopsAll(g: Graph<Controller>, running: set<Controller>, order: seq<Controller>)
    requires !Pass(g, running, order).failed
    ensures forall c :: c in order ==> c !in Pass(g, running, order).running
  {
    if order != [] {
      var n := |order| - 1;
      assert order == order[..n] + [order[n]];
      SuccessStopsAll(g, running, order[..n]);
    }
  }

  lemma {:induction false} PassKeepsConsistency(g: Graph<Controller>, running: set<Controller>, order: seq<Controller>)
    requires Complete(g) && running <= g.Keys && Consistent(g, running) && (set c | c in order) <= g.Keys
    ensures Consistent(g, Pass(g, running, order).running)
  {
    if order != [] {
      var n := |order| - 1;
      assert order[n] in (set c | c in order);
      assert (set c | c in order[..n]) <= (set c | c in order);
      PassKeepsConsistency(g, running, order[..n]);
    }
  }

  lemma FewerStayAcyclic(g: Graph<Controller>, running: set<Controller>, fewer: set<Controller>)
    requires Acyclic(Within(g, running)) && fewer <= running
    ensures Acyclic(Within(g, fewer))
  {
    var big, small := Within(g, running), Within(g, fewer);
    forall p | |p| > 1 && Walk(small, p) ensures p[0] != p[|p| - 1] {
      assert Walk(big, p);
    }
  }

  lemma PassMakesProgress(g: Graph<Controller>, running: set<Controller>, order: seq<Controller>)
    requires Complete(g) && running <= g.Keys && Acyclic(Within(g, running)) && (set c | c in order) == g.Keys
    ensures var out := Pass(g, running, order);
            && out.running <= running && Acyclic(Within(g, out.running))
            && (running != {} ==> out.running != running)
            && (out.failed ==> running != {})
            && (!out.failed ==> out.running == {})
            && (Consistent(g, running) ==> Consistent(g, out.running) && (out.failed ==> |running| >= 2))
  {
    var out := Pass(g, running, order);
    PassOnlyStops(g, running, order);
    FewerStayAcyclic(g, running, out.running);
    if running != {} {
      var c := HasSink(Within(g, running), running);
      assert c in (set c | c in order);
      FreeControllerStops(g, running, order, c);
    }
    if out.failed {
      FailureMeansRunning(g, running, order);
    } else {
      SuccessStopsAll(g, running, order);
      assert forall c :: c in out.running ==> c in (set c | c in order);
    }
    if Consistent(g, running) {
      PassKeepsConsistency(g, running, order);
    }
  }

  // What one pass does, in terms of the order alone.

  /** When its turn comes, every controller that references it has been listed before, or was
      not running to begin with. */
  ghost predicate ReferrersFirst(g: Graph<Controller>, running: set<Controller>, order: seq<Controller>) {
    forall i, a :: 0 <= i < |order| && order[i] in g && a in g[order[i]] && a in running ==> a in order[..i]
  }

  /** A pass succeeds exactly if referrers come first; it then stops all that it lists. */
  lemma {:induction false} PassSucceedsExactly(g: Graph<Controller>, running: set<Controller>, order: seq<Controller>)
    ensures !Pass(g, running, order).failed <==> ReferrersFirst(g, running, order)
    ensures !Pass(g, running, order).failed ==> Pass(g, running, order).running == running - set c | c in order
  {
    if order == [] {
    } else {
      var n := |order| - 1;
      var init, c := order[..n], order[n];
      assert order == init + [c];
      PassSucceedsExactly(g, running, init);
      assert forall i :: 0 <= i <= n ==> init[..i] == order[..i];
      assert ReferrersFirst(g, running, order) ==> ReferrersFirst(g, running, init);
      if !Pass(g, running, init).failed {
        var left := Pass(g, running, init).running;
        if Blocked(g, left, c) {
          var a :| a in g[c] * left;
          assert a in g[order[n]] && a in running && a !in order[..n];
        } else {
          assert forall a :: c in g && a in g[c] && a in running && a !in init ==> a in g[c] * left;
        }
      }
    }
  }

  // Acyclic references are also necessary: otherwise no pass ever succeeds.

  lemma {:induction false} KnotStaysRunning(g: Graph<Controller>, running: set<Controller>, order: seq<Controller>,
      knot: set<Controller>)
    requires knot <= running && knot <= g.Keys && forall c :: c in knot ==> g[c] * knot != {}
    ensures knot <= Pass(g, running, order).running
    ensures (exists c :: c in knot && c in order) ==> Pass(g, running, order).failed
  {
    if order != [] {
      var n := |order| - 1;
      assert order == order[..n] + [order[n]];
      KnotStaysRunning(g, running, order[..n], knot);
      if order[n] in knot {
        var a :| a in g[order[n]] * knot;
        assert a in g[order[n]] * Pass(g, running, order[..n]).running;
      }
    }
  }

  /** What is running after passes in the given listing orders. */
  function AfterPasses(g: Graph<Controller>, running: set<Controller>, orders: seq<seq<Controller>>): set<Controller> {
    if orders == [] then running
    else
      var n := |orders| - 1;
      Pass(g, AfterPasses(g, running, orders[..n]), orders[n]).running
  }

  lemma {:induction false} KnotSurvivesPasses(g: Graph<Controller>, running: set<Controller>,
      orders: seq<seq<Controller>>, knot: set<Controller>)
    requires knot <= running && knot <= g.Keys && forall c :: c in knot ==> g[c] * knot != {}
    ensures knot <= AfterPasses(g, running, orders)
  {
    if orders != [] {
      var n := |orders| - 1;
      KnotSurvivesPasses(g, running, orders[..n], knot);
      KnotStaysRunning(g, AfterPasses(g, running, orders[..n]), orders[n], knot);
    }
  }

  /** If running controllers reference each other in a cycle, every pass fails, whatever
      came before it: the loop does not end. */
  lemma CyclicReferencesNeverStop(g: Graph<Controller>, running: set<Controller>, orders: seq<seq<Controller>>,
      order: seq<Controller>)
    requires running <= g.Keys && !Acyclic(Within(g, running)) && (set c | c in order) == g.Keys
    ensures Pass(g, AfterPasses(g, running, orders), order).failed
  {
    var w := Within(g, running);
    var p :| |p| > 1 && Walk(w, p) && p[0] == p[|p| - 1];
    var knot := set c | c in p;
    forall c | c in knot ensures c in running && g[c] * knot != {} {
      var i :| 0 <= i < |p| && p[i] == c;
      assert p[(if i < |p| - 1 then i else 0) + 1] in g[c] * knot;
    }
    KnotSurvivesPasses(g, running, orders, knot);
    KnotStaysRunning(g, AfterPasses(g, running, orders), order, knot);
    assert p[0] in knot && p[0] in (set c | c in order);
  }
}
