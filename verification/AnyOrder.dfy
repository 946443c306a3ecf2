/** Agreement is also necessary: templates that merge without error to one result in
    every order agree pairwise. */
module AnyOrder {
  import opened Wrappers
  import opened Json
  import opened Sorting
  import opened Merge
  import opened KeyedLists
  import opened MergeLaws
  import opened OrderIndependence

  /** Merging values one after the other into the first. */
  function Fold(r: Rules, vs: seq<Json>): Json {
    if vs == [] then Leaf(Null)
    else
      var n := |vs| - 1;
      if n == 0 then vs[0] else MergeValue(r, Fold(r, vs[..n]), vs[n])
  }

  ghost predicate FoldRaises(r: Rules, vs: seq<Json>) {
    |vs| > 1 &&
    var n := |vs| - 1;
    FoldRaises(r, vs[..n]) || ValueRaises(r, Fold(r, vs[..n]), vs[n])
  }

  ghost predicate OneResult(r: Rules, vs: seq<Json>) {
    forall p :: multiset(p) == multiset(vs) ==> !FoldRaises(r, p) && Fold(r, p) == Fold(r, vs)
  }

  lemma FoldAppend(r: Rules, vs: seq<Json>, x: Json)
    ensures Fold(r, vs + [x]) == if vs == [] then x else MergeValue(r, Fold(r, vs), x)
    ensures FoldRaises(r, vs + [x]) <==> vs != [] && (FoldRaises(r, vs) || ValueRaises(r, Fold(r, vs), x))
  {
    assert (vs + [x])[..|vs|] == vs;
  }

  lemma {:induction false} PrefixRaises(r: Rules, vs: seq<Json>, more: seq<Json>)
    requires FoldRaises(r, vs)
    ensures FoldRaises(r, vs + more)
  {
    if more == [] {
      assert vs + more == vs;
    } else {
      var init, x := more[..|more| - 1], more[|more| - 1];
      PrefixRaises(r, vs, init);
      FoldAppend(r, vs + init, x);
      assert vs + more == vs + init + [x];
    }
  }

  // What a merge brings together at one place: the values found there, in order.

  type Pick = Json -> Option<Json>

  ghost function Picked(vs: seq<Json>, pick: Pick): seq<Json> {
    if vs == [] then []
    else
      var n := |vs| - 1;
      Picked(vs[..n], pick) + PickedOne(pick(vs[n]))
  }

  ghost function PickedOne(x: Option<Json>): seq<Json> {
    match x
    case Some(v) => [v]
    case None => []
  }

  lemma PickedAppend(vs: seq<Json>, x: Json, pick: Pick)
    ensures Picked(vs + [x], pick) == Picked(vs, pick) + PickedOne(pick(x))
  {
    assert (vs + [x])[..|vs|] == vs;
  }

  lemma Regroup(a: seq<Json>, b: seq<Json>, c: seq<Json>)
    ensures (a + b) + c == a + (b + c)
  {
  }

  ghost predicate PicksApart(a: seq<Json>, b: seq<Json>, pick: Pick) {
    Picked(a + b, pick) == Picked(a, pick) + Picked(b, pick)
  }

  lemma PickedOneMore(a: seq<Json>, b: seq<Json>, x: Json, pick: Pick)
    requires PicksApart(a, b, pick)
    ensures PicksApart(a, b + [x], pick)
  {
    Regroup(a, b, [x]);
    PickedAppend(a + b, x, pick);
    PickedAppend(b, x, pick);
    Regroup(Picked(a, pick), Picked(b, pick), PickedOne(pick(x)));
  }

  lemma {:induction false} PickedOfSum(a: seq<Json>, b: seq<Json>, pick: Pick)
    ensures PicksApart(a, b, pick)
  {
    if b == [] {
      assert a + b == a && Picked(a, pick) + [] == Picked(a, pick);
    } else {
      var init, x := b[..|b| - 1], b[|b| - 1];
      PickedOfSum(a, init, pick);
      PickedOneMore(a, init, x, pick);
      assert b == init + [x];
    }
  }

  lemma {:induction false} PickedIs(vs: seq<Json>, pick: Pick, x: Json)
    ensures x in Picked(vs, pick) <==> exists v :: v in vs && pick(v) == Some(x)
  {
    if vs != [] {
      var n := |vs| - 1;
      PickedIs(vs[..n], pick, x);
      assert vs == vs[..n] + [vs[n]];
    }
  }

  lemma LastIs(s: seq<Json>, x: Json, a: seq<Json>, b: seq<Json>)
    requires s + [x] == a + b && b != []
    ensures s == a + b[..|b| - 1] && b == b[..|b| - 1] + [x]
  {
    assert (s + [x])[|s|] == x && s == (s + [x])[..|s|];
  }

  lemma PickedCut(vs: seq<Json>, pick: Pick, j: nat)
    requires vs != [] && j < |vs|
    ensures var init, v := vs[..|vs| - 1], vs[|vs| - 1];
            vs[..j] == init[..j] && Picked(vs[j..], pick) == Picked(init[j..], pick) + PickedOne(pick(v))
  {
    var init, v := vs[..|vs| - 1], vs[|vs| - 1];
    PickedAppend(init[j..], v, pick);
    assert vs[j..] == init[j..] + [v];
  }

  lemma {:induction false} SplitPicked(vs: seq<Json>, pick: Pick, a: seq<Json>, b: seq<Json>) returns (j: nat)
    requires Picked(vs, pick) == a + b
    ensures j <= |vs| && Picked(vs[..j], pick) == a && Picked(vs[j..], pick) == b
  {
    if b == [] {
      j := |vs|;
      assert vs[..j] == vs && vs[j..] == [] && a + b == a;
    } else {
      var init, x := vs[..|vs| - 1], pick(vs[|vs| - 1]);
      var b' := b;
      match x {
        case None =>
          assert Picked(init, pick) + [] == Picked(init, pick) && b == b + [];
        case Some(v) =>
          LastIs(Picked(init, pick), v, a, b);
          b' := b[..|b| - 1];
      }
      j := SplitPicked(init, pick, a, b');
      PickedCut(vs, pick, j);
    }
  }

  /** Any order of the picked values comes from an order of the values they are picked from. */
  lemma {:induction false} Lift(vs: seq<Json>, pick: Pick, q: seq<Json>) returns (p: seq<Json>)
    requires multiset(q) == multiset(Picked(vs, pick))
    ensures multiset(p) == multiset(vs) && Picked(p, pick) == q
    decreases |vs|
  {
    if vs == [] {
      p := [];
      assert |q| == |multiset(q)| == 0;
    } else {
      var n := |vs| - 1;
      var init, v := vs[..n], vs[n];
      assert vs == init + [v];
      var a, b := TakeOut(q, Picked(init, pick), pick(v));
      var p' := Lift(init, pick, a + b);
      var j := SplitPicked(p', pick, a, b);
      p := Spliced(p', j, v, pick);
    }
  }

  lemma TakeOut(q: seq<Json>, s: seq<Json>, x: Option<Json>) returns (a: seq<Json>, b: seq<Json>)
    requires multiset(q) == multiset(s + PickedOne(x))
    ensures multiset(a + b) == multiset(s) && q == a + PickedOne(x) + b
  {
    match x
    case None =>
      a, b := q, [];
      assert s + PickedOne(x) == s && a + b == q && a + PickedOne(x) == a;
    case Some(v) =>
      a, b := TakeOne(q, s, v);
  }

  lemma Spliced(vs: seq<Json>, j: nat, v: Json, pick: Pick) returns (p: seq<Json>)
    requires j <= |vs|
    ensures multiset(p) == multiset(vs) + multiset{v}
    ensures Picked(p, pick) == Picked(vs[..j], pick) + PickedOne(pick(v)) + Picked(vs[j..], pick)
  {
    p := vs[..j] + [v] + vs[j..];
    assert vs == vs[..j] + vs[j..];
    PickedOfSum(vs[..j] + [v], vs[j..], pick);
    PickedAppend(vs[..j], v, pick);
  }

  /** `whole` is what merging leaves at a place where the values `at` were found, and it
      raises if merging them does. */
  ghost predicate Follows(r: Rules, whole: Option<Json>, raises: bool, at: seq<Json>) {
    && whole == (if at == [] then None else Some(Fold(r, at)))
    && (FoldRaises(r, at) ==> raises)
  }

  lemma FollowsOneMore(r: Rules, whole: Option<Json>, raises: bool, at: seq<Json>, x: Option<Json>, raises': bool)
    requires Follows(r, whole, raises, at) && (raises ==> raises')
    requires whole.Some? && x.Some? && ValueRaises(r, whole.value, x.value) ==> raises'
    ensures Follows(r, Join(r, whole, x), raises', at + PickedOne(x))
  {
    match x
    case Some(v) => FoldAppend(r, at, v);
    case None => assert at + PickedOne(x) == at;
  }

  // Objects.

  ghost function AtKey(k: string): Pick {
    (v: Json) => if v.Obj? then Get(v.fields, k) else None
  }

  lemma {:induction false} FoldAtKey(r: Rules, vs: seq<Json>, k: string)
    requires vs != [] && k !in r.ids && forall v :: v in vs ==> v.Obj?
    ensures Fold(r, vs).Obj?
    ensures Follows(r, Get(Fold(r, vs).fields, k), FoldRaises(r, vs), Picked(vs, AtKey(k)))
  {
    var n := |vs| - 1;
    var init, last := vs[..n], vs[n];
    assert vs == init + [last] && vs[n] in vs;
    PickedAppend(init, last, AtKey(k));
    FoldAppend(r, init, last);
    if n == 0 {
      assert init == [];
      FollowsOneMore(r, None, false, [], Get(last.fields, k), FoldRaises(r, vs));
    } else {
      FoldAtKey(r, init, k);
      var before := Fold(r, init).fields;
      GetMerged(r, before, last.fields, k);
      if k in before && k in last.fields && ValueRaises(r, before[k], last.fields[k]) {
        assert FieldRaises(r, before, last.fields, k);
      }
      var at := Picked(init, AtKey(k));
      FollowsOneMore(r, Get(before, k), FoldRaises(r, init), at, Get(last.fields, k), FoldRaises(r, vs));
    }
  }

  lemma {:induction false} FoldKeepsFirstIds(r: Rules, vs: seq<Json>, k: string)
    requires vs != [] && k in r.ids && forall v :: v in vs ==> v.Obj?
    ensures Fold(r, vs).Obj? && Get(Fold(r, vs).fields, k) == Get(vs[0].fields, k)
  {
    var n := |vs| - 1;
    if n > 0 {
      FoldKeepsFirstIds(r, vs[..n], k);
      GetMerged(r, Fold(r, vs[..n]).fields, vs[n].fields, k);
    }
  }

  // Lists.

  ghost function AtId(attr: string, id: Json): Pick {
    (v: Json) => if v.Arr? then At(v.items, attr, id) else None
  }

  ghost predicate AllKeyed(r: Rules, vs: seq<Json>, attr: string) {
    forall v :: v in vs ==> v.Arr? && Keyed(r, v.items, attr)
  }

  lemma FewerKeyed(r: Rules, vs: seq<Json>, n: nat, attr: string)
    requires AllKeyed(r, vs, attr) && n < |vs|
    ensures AllKeyed(r, vs[..n], attr) && vs[n].Arr? && Keyed(r, vs[n].items, attr)
  {
    assert vs[n] in vs;
  }

  /** `f` is a keyed list in which merging left, for one identity, what `at` makes. */
  ghost predicate ListFollows(r: Rules, f: Json, raises: bool, at: seq<Json>, attr: string, id: Json) {
    f.Arr? && Keyed(r, f.items, attr) && Follows(r, At(f.items, attr, id), raises, at)
  }

  lemma {:induction false} FoldAtId(r: Rules, vs: seq<Json>, attr: string, id: Json)
    requires TotalPreorder(r.le) && vs != [] && AllKeyed(r, vs, attr)
    ensures ListFollows(r, Fold(r, vs), FoldRaises(r, vs), Picked(vs, AtId(attr, id)), attr, id)
  {
    var n := |vs| - 1;
    var init, last := vs[..n], vs[n];
    assert vs == init + [last];
    FewerKeyed(r, vs, n, attr);
    PickedAppend(init, last, AtId(attr, id));
    FoldAppend(r, init, last);
    if n == 0 {
      FollowsFirstList(r, last, attr, id);
    } else {
      FoldAtId(r, init, attr, id);
      FollowsOneMoreList(r, Fold(r, init), FoldRaises(r, init), Picked(init, AtId(attr, id)), last, attr, id);
    }
  }

  lemma FollowsFirstList(r: Rules, f: Json, attr: string, id: Json)
    requires f.Arr? && Keyed(r, f.items, attr)
    ensures ListFollows(r, f, false, [] + PickedOne(AtId(attr, id)(f)), attr, id)
  {
    FollowsOneMore(r, None, false, [], At(f.items, attr, id), false);
  }

  lemma FollowsOneMoreList(r: Rules, f: Json, raises: bool, at: seq<Json>, last: Json, attr: string, id: Json)
    requires TotalPreorder(r.le) && ListFollows(r, f, raises, at, attr, id) && last.Arr? && Keyed(r, last.items, attr)
    ensures ListFollows(r, MergeValue(r, f, last), raises || ValueRaises(r, f, last),
                        at + PickedOne(AtId(attr, id)(last)), attr, id)
  {
    MergeListsAt(r, f.items, last.items, attr);
    var x, y := At(f.items, attr, id), At(last.items, attr, id);
    ItemsRaiseExactly(r, f.items, last.items, attr);
    assert x.Some? && y.Some? && ValueRaises(r, x.value, y.value) ==> NamesakesRaise(r, f.items, last.items, attr, id);
    FollowsOneMore(r, x, raises, at, y, raises || ItemsRaise(r, f.items, last.items));
  }

  lemma {:induction false} LeadingIdsMeet(ids: seq<string>, m: map<string, Json>, m': map<string, Json>)
    requires LeadingId(ids, m).Some? && LeadingId(ids, m').Some?
    requires LeadingId(ids, m).value in m' && LeadingId(ids, m').value in m
    ensures LeadingId(ids, m) == LeadingId(ids, m')
  {
    if ids[0] !in m && ids[0] !in m' {
      LeadingIdsMeet(ids[1..], m, m');
    }
  }

  lemma KindsMeet(r: Rules, a: seq<Json>, b: seq<Json>)
    requires WellFormedList(r, a) && WellFormedList(r, b)
    requires !ItemsRaise(r, a, b) && !ItemsRaise(r, b, a)
    ensures SameKind(r, a, b)
  {
    if a != [] && b != [] {
      if ItemRaises(r, a, b[0]) {
        FirstItemRaises(r, a, b);
      } else if ItemRaises(r, b, a[0]) {
        FirstItemRaises(r, b, a);
      } else if ListAttr(r, a).Some? && ListAttr(r, b).Some? {
        LeadingIdsMeet(r.ids, a[0].fields, b[0].fields);
      }
    }
  }

  // What one result in every order says about the values.

  /** Each of the values can come first, or last. */
  lemma Reordered(vs: seq<Json>, x: Json) returns (first: seq<Json>, last: seq<Json>)
    requires x in vs
    ensures multiset(first) == multiset(vs) && first != [] && first[0] == x
    ensures multiset(last) == multiset(vs) && last != [] && last[|last| - 1] == x
  {
    var i :| 0 <= i < |vs| && vs[i] == x;
    assert vs == vs[..i] + [x] + vs[i + 1..];
    first := [x] + vs[..i] + vs[i + 1..];
    last := vs[..i] + vs[i + 1..] + [x];
  }

  lemma SameElements(a: seq<Json>, b: seq<Json>)
    requires multiset(a) == multiset(b)
    ensures forall v :: v in a <==> v in b
  {
    forall v ensures v in a <==> v in b {
      assert v in multiset(a) <==> v in multiset(b);
    }
  }

  /** The result is of the same sort as each value, and equals each scalar. */
  lemma ResultIsLikeEach(r: Rules, vs: seq<Json>, x: Json)
    requires OneResult(r, vs) && x in vs
    ensures var f := Fold(r, vs); (f.Obj? <==> x.Obj?) && (f.Arr? <==> x.Arr?) && (x.Leaf? ==> f == x)
  {
    var _, last := Reordered(vs, x);
    assert Fold(r, last) == Fold(r, vs);
  }

  lemma ResultHasIdsOfEach(r: Rules, vs: seq<Json>, x: Json, k: string)
    requires OneResult(r, vs) && x in vs && k in r.ids && forall v :: v in vs ==> v.Obj?
    ensures Fold(r, vs).Obj? && Get(Fold(r, vs).fields, k) == Get(x.fields, k)
  {
    var first, _ := Reordered(vs, x);
    SameElements(first, vs);
    FoldKeepsFirstIds(r, first, k);
    assert Fold(r, first) == Fold(r, vs);
  }

  lemma OneResultAtKey(r: Rules, vs: seq<Json>, k: string)
    requires OneResult(r, vs) && k !in r.ids && vs != [] && forall v :: v in vs ==> v.Obj?
    ensures OneResult(r, Picked(vs, AtKey(k)))
  {
    var at := Picked(vs, AtKey(k));
    forall q | multiset(q) == multiset(at) ensures !FoldRaises(r, q) && Fold(r, q) == Fold(r, at) {
      var p := Lift(vs, AtKey(k), q);
      SameElements(p, vs);
      assert p != [] && |q| == |multiset(q)| == |at|;
      FoldAtKey(r, p, k);
      FoldAtKey(r, vs, k);
      assert !FoldRaises(r, p) && Fold(r, p) == Fold(r, vs);
    }
  }

  lemma OneResultAtId(r: Rules, vs: seq<Json>, attr: string, id: Json)
    requires TotalPreorder(r.le) && OneResult(r, vs) && vs != []
    requires forall v :: v in vs ==> v.Arr? && Keyed(r, v.items, attr)
    ensures OneResult(r, Picked(vs, AtId(attr, id)))
  {
    var at := Picked(vs, AtId(attr, id));
    forall q | multiset(q) == multiset(at) ensures !FoldRaises(r, q) && Fold(r, q) == Fold(r, at) {
      var p := Lift(vs, AtId(attr, id), q);
      SameElements(p, vs);
      assert p != [] && |q| == |multiset(q)| == |at|;
      FoldAtId(r, p, attr, id);
      FoldAtId(r, vs, attr, id);
      assert !FoldRaises(r, p) && Fold(r, p) == Fold(r, vs);
    }
  }

  /** Lists of different kinds cannot be merged both ways. */
  lemma OneResultMeansOneKind(r: Rules, vs: seq<Json>, x: Json, y: Json)
    requires OneResult(r, vs) && x in vs && y in vs && x.Arr? && y.Arr? && WellFormed(r, x) && WellFormed(r, y)
    ensures SameKind(r, x.items, y.items)
  {
    if x != y {
      FirstTwoDoNotRaise(r, vs, x, y);
      FirstTwoDoNotRaise(r, vs, y, x);
      KindsMeet(r, x.items, y.items);
    }
  }

  lemma BothFirst(vs: seq<Json>, x: Json, y: Json) returns (rest: seq<Json>)
    requires x in vs && y in vs && x != y
    ensures multiset([x, y] + rest) == multiset(vs)
  {
    var first, _ := Reordered(vs, x);
    SameElements(first, vs);
    assert first == [x] + first[1..];
    var second, _ := Reordered(first[1..], y);
    rest := second[1..];
    assert second == [y] + rest && [x, y] + rest == [x] + second;
  }

  lemma FirstTwoDoNotRaise(r: Rules, vs: seq<Json>, x: Json, y: Json)
    requires OneResult(r, vs) && x in vs && y in vs && x != y
    ensures !ValueRaises(r, x, y)
  {
    var rest := BothFirst(vs, x, y);
    assert !FoldRaises(r, [x, y] + rest);
    FoldAppend(r, [x], y);
    if ValueRaises(r, x, y) {
      assert [x] + [y] == [x, y] && Fold(r, [x]) == x;
      PrefixRaises(r, [x, y], rest);
    }
  }

  lemma {:induction false} OneResultMeansCompatible(r: Rules, vs: seq<Json>, x: Json, y: Json)
    requires TotalPreorder(r.le) && OneResult(r, vs) && x in vs && y in vs
    requires forall v :: v in vs ==> WellFormed(r, v)
    ensures Compatible(r, x, y)
    decreases x, 1
  {
    forall v | v in vs
      ensures var f := Fold(r, vs); (f.Obj? <==> v.Obj?) && (f.Arr? <==> v.Arr?) && (v.Leaf? ==> f == v)
    {
      ResultIsLikeEach(r, vs, v);
    }
    if x.Obj? {
      forall k | k in r.ids ensures Get(x.fields, k) == Get(y.fields, k) {
        ResultHasIdsOfEach(r, vs, x, k);
        ResultHasIdsOfEach(r, vs, y, k);
      }
      assert SameIds(r, x.fields, y.fields) by {
        forall k | k in r.ids
          ensures (k in x.fields <==> k in y.fields) && (k in x.fields ==> x.fields[k] == y.fields[k])
        {
          assert Get(x.fields, k) == Get(y.fields, k);
        }
      }
      forall k | k in x.fields && k in y.fields && k !in r.ids ensures Compatible(r, x.fields[k], y.fields[k]) {
        CompatibleAtKey(r, vs, x, y, k);
      }
    } else if x.Arr? {
      OneResultMeansOneKind(r, vs, x, y);
      forall attr, id | ListAttr(r, x.items) == Some(attr) && At(x.items, attr, id).Some? && At(y.items, attr, id).Some?
        ensures Compatible(r, At(x.items, attr, id).value, At(y.items, attr, id).value)
      {
        CompatibleAtId(r, vs, x, y, attr, id);
      }
    }
  }

  lemma {:induction false} CompatibleAtKey(r: Rules, vs: seq<Json>, x: Json, y: Json, k: string)
    requires TotalPreorder(r.le) && OneResult(r, vs) && x in vs && y in vs && k !in r.ids
    requires forall v :: v in vs ==> v.Obj? && WellFormed(r, v)
    requires k in x.fields && k in y.fields
    ensures Compatible(r, x.fields[k], y.fields[k])
    decreases x, 0
  {
    var at := Picked(vs, AtKey(k));
    OneResultAtKey(r, vs, k);
    forall v | v in at ensures WellFormed(r, v) {
      PickedIs(vs, AtKey(k), v);
    }
    PickedIs(vs, AtKey(k), x.fields[k]);
    PickedIs(vs, AtKey(k), y.fields[k]);
    OneResultMeansCompatible(r, at, x.fields[k], y.fields[k]);
  }

  lemma {:induction false} CompatibleAtId(r: Rules, vs: seq<Json>, x: Json, y: Json, attr: string, id: Json)
    requires TotalPreorder(r.le) && OneResult(r, vs) && x in vs && y in vs
    requires forall v :: v in vs ==> v.Arr? && WellFormed(r, v)
    requires ListAttr(r, x.items) == Some(attr) && At(x.items, attr, id).Some? && At(y.items, attr, id).Some?
    ensures Compatible(r, At(x.items, attr, id).value, At(y.items, attr, id).value)
    decreases x, 0
  {
    forall v | v in vs ensures Keyed(r, v.items, attr) {
      OneResultMeansOneKind(r, vs, x, v);
    }
    var at := Picked(vs, AtId(attr, id));
    OneResultAtId(r, vs, attr, id);
    forall v | v in at ensures WellFormed(r, v) {
      PickedIs(vs, AtId(attr, id), v);
    }
    var a, b := At(x.items, attr, id).value, At(y.items, attr, id).value;
    PickedIs(vs, AtId(attr, id), a);
    PickedIs(vs, AtId(attr, id), b);
    OneResultMeansCompatible(r, at, a, b);
  }

  // Templates: those that are not objects are passed over.

  ghost function AsObject(): Pick {
    (v: Json) => if v.Obj? then Some(v) else None
  }

  lemma {:induction false} MergeFromIsFold(r: Rules, ts: seq<Json>)
    requires forall t :: t in ts && t.Obj? ==> Anonymous(r, t)
    ensures IsFoldOf(r, Picked(ts, AsObject()), MergeTemplates(r, ts), TemplatesRaise(r, map[], ts))
  {
    if ts != [] {
      var init, last := ts[..|ts| - 1], ts[|ts| - 1];
      MergeFromIsFold(r, init);
      assert ts == init + [last] && last in ts;
      MergeFromIsFoldOfMore(r, init, last);
    }
  }

  lemma MergeFromIsFoldOfMore(r: Rules, ts: seq<Json>, x: Json)
    requires IsFoldOf(r, Picked(ts, AsObject()), MergeTemplates(r, ts), TemplatesRaise(r, map[], ts))
    requires x.Obj? ==> Anonymous(r, x)
    ensures IsFoldOf(r, Picked(ts + [x], AsObject()), MergeTemplates(r, ts + [x]), TemplatesRaise(r, map[], ts + [x]))
  {
    var objects := Picked(ts, AsObject());
    PickedAppend(ts, x, AsObject());
    MergeFromAppend(r, map[], ts, x);
    if x.Obj? {
      IsFoldOfOneMore(r, objects, MergeTemplates(r, ts), TemplatesRaise(r, map[], ts), x);
    } else {
      assert objects + [] == objects;
    }
  }

  ghost predicate IsFoldOf(r: Rules, objects: seq<Json>, merged: map<string, Json>, raises: bool) {
    && Obj(merged) == (if objects == [] then Obj(map[]) else Fold(r, objects))
    && raises == FoldRaises(r, objects)
  }

  lemma IsFoldOfOneMore(r: Rules, objects: seq<Json>, merged: map<string, Json>, raises: bool, x: Json)
    requires IsFoldOf(r, objects, merged, raises) && x.Obj? && Anonymous(r, x)
    ensures IsFoldOf(r, objects + [x], MergeFields(r, merged, x.fields), raises || FieldsRaise(r, merged, x.fields))
  {
    FoldAppend(r, objects, x);
    if objects == [] {
      MergeIntoNothing(r, x);
      forall k | k in x.fields ensures !FieldRaises(r, map[], x.fields, k) {
      }
    }
  }

  /** In every order, the templates merge without error and to the same result. */
  ghost predicate AnyOrderWorks(r: Rules, ts: seq<Json>) {
    forall us :: multiset(us) == multiset(ts) ==>
      !TemplatesRaise(r, map[], us) && MergeTemplates(r, us) == MergeTemplates(r, ts)
  }

  lemma TemplatesWithOneResultAgree(r: Rules, ts: seq<Json>)
    requires TotalPreorder(r.le) && forall t :: t in ts && t.Obj? ==> WellFormed(r, t) && Anonymous(r, t)
    requires AnyOrderWorks(r, ts)
    ensures forall x, y :: x in ts && y in ts ==> Agree(r, x, y)
  {
    var objects := Picked(ts, AsObject());
    MergeFromIsFold(r, ts);
    forall q | multiset(q) == multiset(objects) ensures !FoldRaises(r, q) && Fold(r, q) == Fold(r, objects) {
      var us := Lift(ts, AsObject(), q);
      SameElements(us, ts);
      MergeFromIsFold(r, us);
      assert |q| == |multiset(q)| == |objects|;
    }
    forall v | v in objects ensures WellFormed(r, v) {
      PickedIs(ts, AsObject(), v);
    }
    forall x, y | x in ts && y in ts ensures Agree(r, x, y) {
      if x.Obj? && y.Obj? {
        PickedIs(ts, AsObject(), x);
        PickedIs(ts, AsObject(), y);
        OneResultMeansCompatible(r, objects, x, y);
      }
    }
  }

  lemma AgreeEverywhere(r: Rules, ts: seq<Json>)
    requires forall t :: t in ts && t.Obj? ==> WellFormed(r, t) && Anonymous(r, t)
    requires forall x, y :: x in ts && y in ts ==> Agree(r, x, y)
    ensures AgreeingTemplates(r, ts)
  {
    assert forall i :: 0 <= i < |ts| ==> ts[i] in ts;
  }

  /** Templates merge without error and to one result in every order, exactly when they
      agree pairwise. */
  lemma AnyOrderWorksExactlyWhenAgreeing(r: Rules, ts: seq<Json>)
    requires TotalOrder(r.le) && forall t :: t in ts && t.Obj? ==> WellFormed(r, t) && Anonymous(r, t)
    ensures AnyOrderWorks(r, ts) <==> AgreeingTemplates(r, ts)
  {
    if AgreeingTemplates(r, ts) {
      forall us | multiset(us) == multiset(ts)
        ensures !TemplatesRaise(r, map[], us) && MergeTemplates(r, us) == MergeTemplates(r, ts)
      {
        MergeIsOrderIndependent(r, ts, us);
      }
    } else if AnyOrderWorks(r, ts) {
      TemplatesWithOneResultAgree(r, ts);
      AgreeEverywhere(r, ts);
    }
  }
}
