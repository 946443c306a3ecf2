/** Merging templates that agree gives one result, whatever their order. */
module OrderIndependence {
  import opened Json
  import opened Sorting
  import opened Merge
  import opened MergeLaws

  /** No identity attribute at top level: the merge starts from an empty object. */
  predicate Anonymous(r: Rules, template: Json) {
    template.Obj? ==> forall k :: k in r.ids ==> k !in template.fields
  }

  ghost predicate Agree(r: Rules, x: Json, y: Json) {
    x.Obj? && y.Obj? ==> Compatible(r, x, y)
  }

  ghost predicate AgreeingTemplates(r: Rules, ts: seq<Json>) {
    && (forall i :: 0 <= i < |ts| && ts[i].Obj? ==> WellFormed(r, ts[i]) && Anonymous(r, ts[i]))
    && (forall i, j :: 0 <= i < j < |ts| ==> Agree(r, ts[i], ts[j]))
  }

  /** The same for a merge under way: all remaining templates agree with what is merged. */
  ghost predicate Mergeable(r: Rules, merged: map<string, Json>, ts: seq<Json>) {
    && WellFormed(r, Obj(merged))
    && (forall t :: t in ts && t.Obj? ==> WellFormed(r, t) && Compatible(r, Obj(merged), t))
    && (forall t, u :: t in ts && u in ts ==> Agree(r, t, u))
  }

  lemma {:induction false} MergedStaysCompatible(r: Rules, merged: map<string, Json>, ts: seq<Json>, y: Json)
    requires TotalPreorder(r.le) && Mergeable(r, merged, ts) && Mergeable(r, merged, [y])
    requires forall t :: t in ts ==> Agree(r, t, y)
    ensures Mergeable(r, MergeFrom(r, merged, ts), [y])
    ensures !TemplatesRaise(r, merged, ts)
  {
    if ts == [] {
    } else {
      var n := |ts| - 1;
      var init, last := ts[..n], ts[n];
      assert ts == init + [last];
      assert Mergeable(r, merged, [last]);
      MergedStaysCompatible(r, merged, init, y);
      MergedStaysCompatible(r, merged, init, last);
      var m := MergeFrom(r, merged, init);
      if last.Obj? {
        CompatibleFits(r, Obj(m), last);
        MergeIsSafe(r, Obj(m), last);
        if y.Obj? {
          assert y in [y] && last in [last] && Agree(r, last, y);
          CompatibleWithMerge(r, Obj(m), last, y);
        }
      }
    }
  }

  lemma {:induction false} SwapLast(r: Rules, m: map<string, Json>, x: Json, y: Json)
    requires TotalOrder(r.le) && Mergeable(r, m, [x, y])
    ensures MergeTemplate(r, MergeTemplate(r, m, x), y) == MergeTemplate(r, MergeTemplate(r, m, y), x)
  {
    if x.Obj? && y.Obj? {
      assert Agree(r, x, y);
      LeftCommute(r, Obj(m), x, y);
    }
  }

  lemma MergeFromAppend(r: Rules, m: map<string, Json>, ts: seq<Json>, x: Json)
    ensures MergeFrom(r, m, ts + [x]) == MergeTemplate(r, MergeFrom(r, m, ts), x)
    ensures TemplatesRaise(r, m, ts + [x]) <==>
            TemplatesRaise(r, m, ts) || (x.Obj? && FieldsRaise(r, MergeFrom(r, m, ts), x.fields))
  {
    assert (ts + [x])[..|ts|] == ts;
  }

  lemma FewerAreMergeable(r: Rules, m: map<string, Json>, ts: seq<Json>, us: seq<Json>)
    requires Mergeable(r, m, ts) && multiset(us) <= multiset(ts)
    ensures Mergeable(r, m, us)
  {
    forall t | t in us ensures t in ts {
      assert t in multiset(us);
    }
  }

  lemma Rearranged(pre: seq<Json>, x: Json, init: seq<Json>, y: Json)
    ensures pre + [x] + (init + [y]) == pre + [x] + init + [y]
    ensures pre + (init + [y]) + [x] == pre + init + [y] + [x]
    ensures multiset(pre + init + [x, y]) == multiset(pre + [x] + init + [y])
  {
  }

  lemma {:induction false} MoveToBack(r: Rules, m: map<string, Json>, pre: seq<Json>, x: Json, post: seq<Json>)
    requires TotalOrder(r.le) && Mergeable(r, m, pre + [x] + post)
    ensures MergeFrom(r, m, pre + [x] + post) == MergeFrom(r, m, pre + post + [x])
    decreases |post|
  {
    if post == [] {
      assert pre + [x] + post == pre + post + [x];
    } else {
      var n := |post| - 1;
      var init, y := post[..n], post[n];
      var left, rest := pre + [x] + init, pre + init;
      assert post == init + [y];
      Rearranged(pre, x, init, y);
      StillMergeable(r, m, left, rest, x, y);
      MoveToBack(r, m, pre, x, init);
      PastOneMore(r, m, left, rest, x, y);
    }
  }

  lemma StillMergeable(r: Rules, m: map<string, Json>, left: seq<Json>, rest: seq<Json>, x: Json, y: Json)
    requires Mergeable(r, m, left + [y]) && multiset(rest + [x, y]) == multiset(left + [y])
    ensures Mergeable(r, m, left) && Mergeable(r, m, rest + [x, y])
  {
    FewerAreMergeable(r, m, left + [y], left);
    FewerAreMergeable(r, m, left + [y], rest + [x, y]);
  }

  lemma PastOneMore(r: Rules, m: map<string, Json>, left: seq<Json>, rest: seq<Json>, x: Json, y: Json)
    requires TotalOrder(r.le) && Mergeable(r, m, rest + [x, y])
    requires MergeFrom(r, m, left) == MergeFrom(r, m, rest + [x])
    ensures MergeFrom(r, m, left + [y]) == MergeFrom(r, m, rest + [y] + [x])
  {
    MergeFromAppend(r, m, left, y);
    MergeFromAppend(r, m, rest, x);
    MergeFromAppend(r, m, rest, y);
    MergeFromAppend(r, m, rest + [y], x);
    SwapAfter(r, m, rest, x, y);
  }

  lemma SwapAfter(r: Rules, m: map<string, Json>, ts: seq<Json>, x: Json, y: Json)
    requires TotalOrder(r.le) && Mergeable(r, m, ts + [x, y])
    ensures MergeTemplate(r, MergeTemplate(r, MergeFrom(r, m, ts), x), y) ==
            MergeTemplate(r, MergeTemplate(r, MergeFrom(r, m, ts), y), x)
  {
    assert x in ts + [x, y] && y in ts + [x, y];
    MergedStaysCompatible(r, m, ts, x);
    MergedStaysCompatible(r, m, ts, y);
    SwapLast(r, MergeFrom(r, m, ts), x, y);
  }

  lemma TakeOne(q: seq<Json>, s: seq<Json>, v: Json) returns (a: seq<Json>, b: seq<Json>)
    requires multiset(q) == multiset(s + [v])
    ensures multiset(a + b) == multiset(s) && q == a + [v] + b
  {
    assert v in multiset(q);
    var i :| 0 <= i < |q| && q[i] == v;
    a, b := q[..i], q[i + 1..];
    assert q == a + [v] + b;
    assert multiset(a + b) == multiset(q) - multiset{v};
  }

  lemma {:induction false} Permute(r: Rules, m: map<string, Json>, ts: seq<Json>, us: seq<Json>)
    requires TotalOrder(r.le) && Mergeable(r, m, ts) && multiset(ts) == multiset(us)
    ensures MergeFrom(r, m, ts) == MergeFrom(r, m, us)
    decreases |ts|
  {
    if ts == [] {
      assert |us| == |multiset(us)| == 0;
    } else {
      var init, x := ts[..|ts| - 1], ts[|ts| - 1];
      assert ts == init + [x];
      var a, b := TakeOne(us, init, x);
      FewerAreMergeable(r, m, ts, us);
      MoveToBack(r, m, a, x, b);
      FewerAreMergeable(r, m, ts, init);
      Permute(r, m, init, a + b);
      MergeFromAppend(r, m, init, x);
      MergeFromAppend(r, m, a + b, x);
    }
  }

  lemma AgreeingAreMergeable(r: Rules, ts: seq<Json>)
    requires AgreeingTemplates(r, ts)
    ensures Mergeable(r, map[], ts)
  {
    forall t, u | t in ts && u in ts ensures Agree(r, t, u) {
      if t.Obj? && u.Obj? {
        var i :| 0 <= i < |ts| && ts[i] == t;
        var j :| 0 <= j < |ts| && ts[j] == u;
        if i == j {
          CompatibleWithItself(r, t);
        } else if i < j {
          assert Agree(r, ts[i], ts[j]);
        } else {
          assert Agree(r, ts[j], ts[i]);
          CompatibleIsSymmetric(r, u, t);
        }
      }
    }
  }

  /** Agreeing templates merge without error, and every permutation gives the same result. */
  lemma MergeIsOrderIndependent(r: Rules, ts: seq<Json>, us: seq<Json>)
    requires TotalOrder(r.le) && AgreeingTemplates(r, ts) && multiset(ts) == multiset(us)
    ensures MergeTemplates(r, ts) == MergeTemplates(r, us)
    ensures !TemplatesRaise(r, map[], us)
  {
    AgreeingAreMergeable(r, ts);
    Permute(r, map[], ts, us);
    forall t | t in us ensures t in ts {
      assert t in multiset(ts);
    }
    MergedStaysCompatible(r, map[], us, Leaf(Null));
  }

  lemma MergeIntoNothing(r: Rules, x: Json)
    requires x.Obj? && Anonymous(r, x)
    ensures MergeFields(r, map[], x.fields) == x.fields
  {
  }

  lemma MergeTwo(r: Rules, x: Json, y: Json)
    requires x.Obj? && y.Obj? && Anonymous(r, x)
    ensures MergeTemplates(r, [x, y]) == MergeFields(r, x.fields, y.fields)
    ensures TemplatesRaise(r, map[], [x, y]) <==> ValueRaises(r, x, y)
  {
    MergeIntoNothing(r, x);
    assert [x, y][..1] == [x] && [x][..0] == [];
    assert MergeFrom(r, map[], [x]) == x.fields;
    forall k | k in x.fields ensures !FieldRaises(r, map[], x.fields, k) {
    }
    assert !TemplatesRaise(r, map[], [x]);
  }

  /** Order matters as soon as two templates give a shared key different scalars: the
      last one wins. */
  lemma LastTemplateWins(r: Rules, k: string, s: Scalar, s': Scalar)
    requires k !in r.ids && s != s'
    ensures MergeTemplates(r, [Obj(map[k := Leaf(s)]), Obj(map[k := Leaf(s')])]) == map[k := Leaf(s')]
    ensures MergeTemplates(r, [Obj(map[k := Leaf(s)]), Obj(map[k := Leaf(s')])]) !=
            MergeTemplates(r, [Obj(map[k := Leaf(s')]), Obj(map[k := Leaf(s)])])
  {
    var x, y := Obj(map[k := Leaf(s)]), Obj(map[k := Leaf(s')]);
    MergeTwo(r, x, y);
    MergeTwo(r, y, x);
    assert MergeTemplates(r, [x, y])[k] == Leaf(s');
    assert MergeTemplates(r, [y, x])[k] == Leaf(s);
  }
}
