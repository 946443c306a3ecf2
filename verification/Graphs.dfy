/** Finite directed graphs: having no cycle and having a rank that decreases along
    every edge are the same thing. */
module Graphs {

  type Graph<V> = map<V, set<V>>

  /** Every edge leads to a node of the graph. */
  ghost predicate Complete<V>(g: Graph<V>) {
    forall u :: u in g ==> g[u] <= g.Keys
  }

  ghost predicate Walk<V>(g: Graph<V>, p: seq<V>) {
    && p != [] && (forall i :: 0 <= i < |p| ==> p[i] in g)
    && forall i :: 0 <= i < |p| - 1 ==> p[i + 1] in g[p[i]]
  }

  ghost predicate Acyclic<V(!new)>(g: Graph<V>) {
    !exists p :: |p| > 1 && Walk(g, p) && p[0] == p[|p| - 1]
  }

  ghost predicate IsRank<V>(g: Graph<V>, rank: map<V, nat>) {
    rank.Keys == g.Keys && forall u, v :: u in g && v in g[u] && v in g ==> rank[v] < rank[u]
  }

  lemma {:induction false} RankFallsAlongWalk<V>(g: Graph<V>, rank: map<V, nat>, p: seq<V>)
    requires IsRank(g, rank) && Walk(g, p)
    ensures rank[p[|p| - 1]] + |p| - 1 <= rank[p[0]]
  {
    if |p| > 1 {
      var init := p[..|p| - 1];
      RankFallsAlongWalk(g, rank, init);
      assert p[|p| - 2 + 1] in g[p[|p| - 2]];
    }
  }

  lemma RankedIsAcyclic<V(!new)>(g: Graph<V>, rank: map<V, nat>)
    requires IsRank(g, rank)
    ensures Acyclic(g)
  {
    forall p | |p| > 1 && Walk(g, p) ensures p[0] != p[|p| - 1] {
      RankFallsAlongWalk(g, rank, p);
    }
  }

  lemma {:induction false} Pigeonhole<V>(p: seq<V>, s: set<V>) returns (i: nat, j: nat)
    requires |p| > |s| && forall n :: 0 <= n < |p| ==> p[n] in s
    ensures i < j < |p| && p[i] == p[j]
    decreases |s|
  {
    var x, rest := p[0], p[1..];
    if x in rest {
      j :| 1 <= j < |p| && p[j] == x;
      i := 0;
    } else {
      assert forall n :: 0 <= n < |rest| ==> rest[n] in s - {x};
      i, j := Pigeonhole(rest, s - {x});
      i, j := i + 1, j + 1;
    }
  }

  lemma {:induction false} LongWalk<V>(g: Graph<V>, s: set<V>, n: nat) returns (p: seq<V>)
    requires s != {} && s <= g.Keys && forall u :: u in s ==> g[u] * s != {}
    ensures Walk(g, p) && |p| == n + 1 && forall i :: 0 <= i < |p| ==> p[i] in s
  {
    if n == 0 {
      var u :| u in s;
      p := [u];
    } else {
      var q := LongWalk(g, s, n - 1);
      var v :| v in g[q[n - 1]] * s;
      p := q + [v];
    }
  }

  /** A non-empty set of nodes that all have an edge into it contains a cycle. */
  lemma CycleInside<V>(g: Graph<V>, s: set<V>) returns (cycle: seq<V>)
    requires s != {} && s <= g.Keys && forall u :: u in s ==> g[u] * s != {}
    ensures |cycle| > 1 && Walk(g, cycle) && cycle[0] == cycle[|cycle| - 1]
    ensures forall i :: 0 <= i < |cycle| ==> cycle[i] in s
  {
    var p := LongWalk(g, s, |s|);
    var i, j := Pigeonhole(p, s);
    cycle := p[i..j + 1];
  }

  /** In an acyclic graph every non-empty set of nodes has a member with no edge into it. */
  lemma HasSink<V(!new)>(g: Graph<V>, s: set<V>) returns (u: V)
    requires Acyclic(g) && s != {} && s <= g.Keys
    ensures u in s && g[u] * s == {}
  {
    if forall u :: u in s ==> g[u] * s != {} {
      var cycle := CycleInside(g, s);
      assert false;
    }
    u :| u in s && g[u] * s == {};
  }

  lemma {:induction false} RankSet<V(!new)>(g: Graph<V>, s: set<V>) returns (rank: map<V, nat>)
    requires Acyclic(g) && s <= g.Keys
    ensures rank.Keys == s && forall u, v :: u in s && v in s && v in g[u] ==> rank[v] < rank[u]
    decreases |s|
  {
    if s == {} {
      rank := map[];
    } else {
      var u := HasSink(g, s);
      var rest := RankSet(g, s - {u});
      rank := map v | v in s :: if v == u then 0 else rest[v] + 1;
    }
  }

  lemma AcyclicHasRank<V(!new)>(g: Graph<V>) returns (rank: map<V, nat>)
    requires Acyclic(g)
    ensures IsRank(g, rank)
  {
    rank := RankSet(g, g.Keys);
  }
}
