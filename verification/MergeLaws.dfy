/** The laws of the template merge: on well-formed, compatible values it commutes, and
    so the result of merging a list of templates does not depend on their order. */
module MergeLaws {
  import opened Wrappers
  import opened Json
  import opened Sorting
  import opened Merge
  import opened KeyedLists

  /** The attribute that identifies the elements of a list, if they have one. */
  function ListAttr(r: Rules, s: seq<Json>): Option<string> {
    if s != [] && s[0].Obj? then LeadingId(r.ids, s[0].fields) else None
  }

  /** No element has an identity: merging two such lists appends one to the other. */
  ghost predicate Bag(r: Rules, s: seq<Json>) {
    forall i :: 0 <= i < |s| && s[i].Obj? ==> LeadingId(r.ids, s[i].fields).None?
  }

  ghost predicate WellFormedList(r: Rules, s: seq<Json>) {
    match ListAttr(r, s)
    case Some(attr) => Keyed(r, s, attr)
    case None => Bag(r, s)
  }

  /** Every list that a merge can reach is keyed or a bag. */
  ghost predicate WellFormed(r: Rules, j: Json) {
    match j
    case Leaf(_) => true
    case Obj(m) => forall k :: k in m && k !in r.ids ==> WellFormed(r, m[k])
    case Arr(s) => WellFormedList(r, s) && forall i :: 0 <= i < |s| ==> WellFormed(r, s[i])
  }

  ghost predicate SameIds(r: Rules, a: map<string, Json>, b: map<string, Json>) {
    forall k :: k in r.ids ==> (k in a <==> k in b) && (k in a ==> a[k] == b[k])
  }

  ghost predicate SameKind(r: Rules, a: seq<Json>, b: seq<Json>) {
    a == [] || b == [] || ListAttr(r, a) == ListAttr(r, b)
  }

  /** Two values agree wherever a merge would bring them together: equal scalars, objects
      with equal identities, lists of the same kind whose namesakes agree. */
  ghost predicate Compatible(r: Rules, x: Json, y: Json) {
    match (x, y)
    case (Leaf(_), Leaf(_)) => x == y
    case (Obj(a), Obj(b)) =>
      SameIds(r, a, b) && forall k :: k in a && k in b && k !in r.ids ==> Compatible(r, a[k], b[k])
    case (Arr(a), Arr(b)) =>
      SameKind(r, a, b) &&
      forall attr, id :: ListAttr(r, a) == Some(attr) && At(a, attr, id).Some? && At(b, attr, id).Some? ==>
        Compatible(r, At(a, attr, id).value, At(b, attr, id).value)
    case (_, _) => false
  }

  // Objects, seen key by key.

  function Get(m: map<string, Json>, k: string): Option<Json> {
    if k in m then Some(m[k]) else None
  }

  lemma GetMerged(r: Rules, a: map<string, Json>, b: map<string, Json>, k: string)
    ensures Get(MergeFields(r, a, b), k) == if k in r.ids then Get(a, k) else Join(r, Get(a, k), Get(b, k))
  {
  }

  lemma SameGet(a: map<string, Json>, b: map<string, Json>)
    requires forall k :: Get(a, k) == Get(b, k)
    ensures a == b
  {
    forall k ensures k in a <==> k in b {
      assert Get(a, k) == Get(b, k);
    }
    forall k | k in a ensures a[k] == b[k] {
      assert Get(a, k) == Get(b, k);
    }
  }

  // Lists, seen by kind.

  lemma {:induction false} BagMerge(r: Rules, a: seq<Json>, b: seq<Json>)
    requires Bag(r, b)
    ensures MergeItems(r, a, b) == a + b
  {
    if b == [] {
    } else {
      var n := |b| - 1;
      BagMerge(r, a, b[..n]);
      assert b == b[..n] + [b[n]];
    }
  }

  lemma {:induction false} MergeBags(r: Rules, a: seq<Json>, b: seq<Json>)
    requires TotalPreorder(r.le) && Bag(r, a) && Bag(r, b)
    ensures multiset(MergeLists(r, a, b)) == multiset(a) + multiset(b)
    ensures Bag(r, MergeLists(r, a, b)) && ListAttr(r, MergeLists(r, a, b)).None?
    ensures forall i :: 0 <= i < |MergeLists(r, a, b)| ==> MergeLists(r, a, b)[i] in a || MergeLists(r, a, b)[i] in b
  {
    var s := MergeLists(r, a, b);
    BagMerge(r, a, b);
    SortSorts(a + b, r.le);
    forall i | 0 <= i < |s| ensures s[i] in a || s[i] in b {
      assert s[i] in multiset(s);
    }
  }

  /** Lists of the same kind are all keyed by one attribute or are all bags. */
  lemma CommonKind(r: Rules, a: seq<Json>, b: seq<Json>, c: seq<Json>) returns (attr: Option<string>)
    requires WellFormedList(r, a) && WellFormedList(r, b) && WellFormedList(r, c)
    requires SameKind(r, a, b) && SameKind(r, a, c) && SameKind(r, b, c)
    ensures attr == if a != [] then ListAttr(r, a) else if b != [] then ListAttr(r, b) else ListAttr(r, c)
    ensures attr.Some? ==> Keyed(r, a, attr.value) && Keyed(r, b, attr.value) && Keyed(r, c, attr.value)
    ensures attr.None? ==> Bag(r, a) && Bag(r, b) && Bag(r, c)
  {
    attr := if a != [] then ListAttr(r, a) else if b != [] then ListAttr(r, b) else ListAttr(r, c);
  }

  lemma MergedListsEqual(r: Rules, a: seq<Json>, b: seq<Json>, c: seq<Json>, d: seq<Json>, attr: string)
    requires TotalOrder(r.le)
    requires Keyed(r, a, attr) && Keyed(r, b, attr) && Keyed(r, c, attr) && Keyed(r, d, attr)
    requires forall id :: Join(r, At(a, attr, id), At(b, attr, id)) == Join(r, At(c, attr, id), At(d, attr, id))
    ensures MergeLists(r, a, b) == MergeLists(r, c, d)
  {
    MergeItemsAt(r, a, b, attr);
    MergeItemsAt(r, c, d, attr);
    SameAtSameElements(r, MergeItems(r, a, b), MergeItems(r, c, d), attr);
    SortIsCanonical(MergeItems(r, a, b), MergeItems(r, c, d), r.le);
  }

  // Commutativity.

  lemma {:induction false} Commute(r: Rules, x: Json, y: Json)
    requires TotalOrder(r.le) && WellFormed(r, x) && WellFormed(r, y) && Compatible(r, x, y)
    ensures MergeValue(r, x, y) == MergeValue(r, y, x)
    decreases x, 1
  {
    if x.Obj? {
      CommuteFields(r, x.fields, y.fields);
    } else if x.Arr? {
      CommuteLists(r, x.items, y.items);
    }
  }

  lemma {:induction false} CommuteFields(r: Rules, a: map<string, Json>, b: map<string, Json>)
    requires TotalOrder(r.le) && WellFormed(r, Obj(a)) && WellFormed(r, Obj(b)) && Compatible(r, Obj(a), Obj(b))
    ensures MergeFields(r, a, b) == MergeFields(r, b, a)
    decreases Obj(a), 0
  {
    forall k ensures Get(MergeFields(r, a, b), k) == Get(MergeFields(r, b, a), k) {
      GetMerged(r, a, b, k);
      GetMerged(r, b, a, k);
      if k in a && k in b && k !in r.ids {
        Commute(r, a[k], b[k]);
      }
    }
    SameGet(MergeFields(r, a, b), MergeFields(r, b, a));
  }

  lemma {:induction false} CommuteLists(r: Rules, a: seq<Json>, b: seq<Json>)
    requires TotalOrder(r.le) && WellFormed(r, Arr(a)) && WellFormed(r, Arr(b)) && Compatible(r, Arr(a), Arr(b))
    ensures MergeLists(r, a, b) == MergeLists(r, b, a)
    decreases Arr(a), 0
  {
    var attr := CommonKind(r, a, b, b);
    if attr.None? {
      BagMerge(r, a, b);
      BagMerge(r, b, a);
      SortIsCanonical(a + b, b + a, r.le);
    } else {
      var t := attr.value;
      forall id ensures Join(r, At(a, t, id), At(b, t, id)) == Join(r, At(b, t, id), At(a, t, id)) {
        if At(a, t, id).Some? && At(b, t, id).Some? {
          Commute(r, At(a, t, id).value, At(b, t, id).value);
        }
      }
      MergedListsEqual(r, a, b, b, a, t);
    }
  }

  // Left-commutativity.

  lemma {:induction false} LeftCommute(r: Rules, b: Json, x: Json, y: Json)
    requires TotalOrder(r.le) && WellFormed(r, b) && WellFormed(r, x) && WellFormed(r, y)
    requires Compatible(r, b, x) && Compatible(r, b, y) && Compatible(r, x, y)
    ensures MergeValue(r, MergeValue(r, b, x), y) == MergeValue(r, MergeValue(r, b, y), x)
    decreases b, 2
  {
    if b.Obj? {
      LeftCommuteFields(r, b.fields, x.fields, y.fields);
    } else if b.Arr? {
      LeftCommuteLists(r, b.items, x.items, y.items);
    }
  }

  lemma {:induction false} LeftCommuteFields(r: Rules, b: map<string, Json>, x: map<string, Json>, y: map<string, Json>)
    requires TotalOrder(r.le) && WellFormed(r, Obj(b)) && WellFormed(r, Obj(x)) && WellFormed(r, Obj(y))
    requires Compatible(r, Obj(b), Obj(x)) && Compatible(r, Obj(b), Obj(y)) && Compatible(r, Obj(x), Obj(y))
    ensures MergeFields(r, MergeFields(r, b, x), y) == MergeFields(r, MergeFields(r, b, y), x)
    decreases Obj(b), 1
  {
    var b1, b2 := MergeFields(r, b, x), MergeFields(r, b, y);
    forall k ensures Get(MergeFields(r, b1, y), k) == Get(MergeFields(r, b2, x), k) {
      GetMerged(r, b1, y, k);
      GetMerged(r, b2, x, k);
      GetMerged(r, b, x, k);
      GetMerged(r, b, y, k);
      if k !in r.ids && k in x && k in y {
        if k in b {
          LeftCommute(r, b[k], x[k], y[k]);
        } else {
          Commute(r, x[k], y[k]);
        }
      }
    }
    SameGet(MergeFields(r, b1, y), MergeFields(r, b2, x));
  }

  lemma {:induction false} LeftCommuteLists(r: Rules, b: seq<Json>, x: seq<Json>, y: seq<Json>)
    requires TotalOrder(r.le) && WellFormed(r, Arr(b)) && WellFormed(r, Arr(x)) && WellFormed(r, Arr(y))
    requires Compatible(r, Arr(b), Arr(x)) && Compatible(r, Arr(b), Arr(y)) && Compatible(r, Arr(x), Arr(y))
    ensures MergeLists(r, MergeLists(r, b, x), y) == MergeLists(r, MergeLists(r, b, y), x)
    decreases Arr(b), 1
  {
    var b1, b2 := MergeLists(r, b, x), MergeLists(r, b, y);
    var attr := CommonKind(r, b, x, y);
    if attr.None? {
      MergeBags(r, b, x);
      MergeBags(r, b, y);
      BagMerge(r, b1, y);
      BagMerge(r, b2, x);
      SortIsCanonical(b1 + y, b2 + x, r.le);
    } else {
      var t := attr.value;
      MergeListsAt(r, b, x, t);
      MergeListsAt(r, b, y, t);
      forall id ensures Join(r, At(b1, t, id), At(y, t, id)) == Join(r, At(b2, t, id), At(x, t, id)) {
        LeftCommuteAt(r, b, x, y, t, id);
      }
      MergedListsEqual(r, b1, y, b2, x, t);
    }
  }

  lemma {:induction false} LeftCommuteAt(r: Rules, b: seq<Json>, x: seq<Json>, y: seq<Json>, t: string, id: Json)
    requires TotalOrder(r.le) && WellFormed(r, Arr(b)) && WellFormed(r, Arr(x)) && WellFormed(r, Arr(y))
    requires Compatible(r, Arr(b), Arr(x)) && Compatible(r, Arr(b), Arr(y)) && Compatible(r, Arr(x), Arr(y))
    requires Keyed(r, b, t) && Keyed(r, x, t) && Keyed(r, y, t)
    ensures Join(r, Join(r, At(b, t, id), At(x, t, id)), At(y, t, id)) ==
            Join(r, Join(r, At(b, t, id), At(y, t, id)), At(x, t, id))
    decreases Arr(b), 0
  {
    if At(x, t, id).Some? && At(y, t, id).Some? {
      if At(b, t, id).Some? {
        LeftCommute(r, At(b, t, id).value, At(x, t, id).value, At(y, t, id).value);
      } else {
        Commute(r, At(x, t, id).value, At(y, t, id).value);
      }
    }
  }

  // What the merge needs in order not to raise, and what it then preserves.

  /** `template` can be merged into `base`: objects that meet have their identity
      attributes in the base, and lists that meet are of one kind. */
  ghost predicate Fits(r: Rules, base: Json, template: Json) {
    match (base, template)
    case (Obj(a), Obj(b)) =>
      && (forall k :: k in r.ids && k in b ==> k in a)
      && forall k :: k in a && k in b && k !in r.ids ==> Fits(r, a[k], b[k])
    case (Arr(a), Arr(b)) =>
      SameKind(r, a, b) &&
      forall attr, id :: ListAttr(r, a) == Some(attr) && At(a, attr, id).Some? && At(b, attr, id).Some? ==>
        Fits(r, At(a, attr, id).value, At(b, attr, id).value)
    case (_, _) => true
  }

  lemma {:induction false} MergeIsSafe(r: Rules, base: Json, template: Json)
    requires TotalPreorder(r.le) && WellFormed(r, base) && WellFormed(r, template) && Fits(r, base, template)
    ensures !ValueRaises(r, base, template)
    ensures WellFormed(r, MergeValue(r, base, template))
    decreases base, 2
  {
    if base.Obj? && template.Obj? {
      MergeFieldsIsSafe(r, base.fields, template.fields);
    } else if base.Arr? && template.Arr? {
      MergeListsIsSafe(r, base.items, template.items);
    }
  }

  lemma {:induction false} MergeFieldsIsSafe(r: Rules, base: map<string, Json>, template: map<string, Json>)
    requires TotalPreorder(r.le) && WellFormed(r, Obj(base)) && WellFormed(r, Obj(template))
        && Fits(r, Obj(base), Obj(template))
    ensures !FieldsRaise(r, base, template)
    ensures WellFormed(r, Obj(MergeFields(r, base, template)))
    decreases Obj(base), 1
  {
    forall k | k in template && k in base && k !in r.ids
      ensures !ValueRaises(r, base[k], template[k]) && WellFormed(r, MergeValue(r, base[k], template[k]))
    {
      MergeIsSafe(r, base[k], template[k]);
    }
  }

  lemma {:induction false} MergeListsIsSafe(r: Rules, base: seq<Json>, template: seq<Json>)
    requires TotalPreorder(r.le) && WellFormed(r, Arr(base)) && WellFormed(r, Arr(template))
        && Fits(r, Arr(base), Arr(template))
    ensures !ItemsRaise(r, base, template)
    ensures WellFormed(r, Arr(MergeLists(r, base, template)))
    decreases Arr(base), 1
  {
    var attr := CommonKind(r, base, template, template);
    if attr.None? {
      MergeBags(r, base, template);
      BagDoesNotRaise(r, base, template);
    } else {
      MergeKeyedIsSafe(r, base, template, attr.value);
    }
  }

  lemma {:induction false} MergeKeyedIsSafe(r: Rules, base: seq<Json>, template: seq<Json>, t: string)
    requires TotalPreorder(r.le) && WellFormed(r, Arr(base)) && WellFormed(r, Arr(template))
        && Fits(r, Arr(base), Arr(template))
    requires Keyed(r, base, t) && Keyed(r, template, t)
    ensures !ItemsRaise(r, base, template)
    ensures WellFormed(r, Arr(MergeLists(r, base, template)))
    decreases Arr(base), 0
  {
    forall id | At(base, t, id).Some? && At(template, t, id).Some?
      ensures !ValueRaises(r, At(base, t, id).value, At(template, t, id).value)
      ensures WellFormed(r, MergeValue(r, At(base, t, id).value, At(template, t, id).value))
    {
      assert ListAttr(r, base) == Some(t);
      MergeIsSafe(r, At(base, t, id).value, At(template, t, id).value);
    }
    ItemsRaiseExactly(r, base, template, t);
    MergeListsAt(r, base, template, t);
    var s := MergeLists(r, base, template);
    forall i | 0 <= i < |s| ensures WellFormed(r, s[i]) {
      AtIs(r, s, t, i);
    }
    KeyedIsWellFormed(r, s, t);
  }

  lemma KeyedIsWellFormed(r: Rules, s: seq<Json>, attr: string)
    requires Keyed(r, s, attr)
    ensures WellFormedList(r, s)
  {
    if s != [] {
      assert KeyedItem(r, s[0], attr);
    }
  }

  lemma {:induction false} BagDoesNotRaise(r: Rules, base: seq<Json>, template: seq<Json>)
    requires Bag(r, template)
    ensures !ItemsRaise(r, base, template)
  {
    if template != [] {
      BagDoesNotRaise(r, base, template[..|template| - 1]);
    }
  }

  // Compatibility is reflexive and symmetric, implies fitting, and survives merging.

  lemma {:induction false} CompatibleWithItself(r: Rules, x: Json)
    requires WellFormed(r, x)
    ensures Compatible(r, x, x)
  {
    match x
    case Leaf(_) =>
    case Obj(m) =>
      forall k | k in m && k !in r.ids ensures Compatible(r, m[k], m[k]) {
        CompatibleWithItself(r, m[k]);
      }
    case Arr(s) =>
      forall attr, id | ListAttr(r, s) == Some(attr) && At(s, attr, id).Some?
        ensures Compatible(r, At(s, attr, id).value, At(s, attr, id).value)
      {
        CompatibleWithItself(r, At(s, attr, id).value);
      }
  }

  lemma {:induction false} CompatibleIsSymmetric(r: Rules, x: Json, y: Json)
    requires Compatible(r, x, y)
    ensures Compatible(r, y, x)
  {
    match (x, y)
    case (Obj(a), Obj(b)) =>
      forall k | k in a && k in b && k !in r.ids ensures Compatible(r, b[k], a[k]) {
        CompatibleIsSymmetric(r, a[k], b[k]);
      }
    case (Arr(a), Arr(b)) =>
      forall attr, id | ListAttr(r, b) == Some(attr) && At(a, attr, id).Some? && At(b, attr, id).Some?
        ensures Compatible(r, At(b, attr, id).value, At(a, attr, id).value)
      {
        CompatibleIsSymmetric(r, At(a, attr, id).value, At(b, attr, id).value);
      }
    case (_, _) =>
  }

  lemma {:induction false} CompatibleFits(r: Rules, x: Json, y: Json)
    requires Compatible(r, x, y)
    ensures Fits(r, x, y)
  {
    match (x, y)
    case (Obj(a), Obj(b)) =>
      forall k | k in a && k in b && k !in r.ids ensures Fits(r, a[k], b[k]) {
        CompatibleFits(r, a[k], b[k]);
      }
    case (Arr(a), Arr(b)) =>
      forall attr, id | ListAttr(r, a) == Some(attr) && At(a, attr, id).Some? && At(b, attr, id).Some?
        ensures Fits(r, At(a, attr, id).value, At(b, attr, id).value)
      {
        CompatibleFits(r, At(a, attr, id).value, At(b, attr, id).value);
      }
    case (_, _) =>
  }

  lemma {:induction false} CompatibleWithMerge(r: Rules, b: Json, x: Json, y: Json)
    requires TotalPreorder(r.le) && WellFormed(r, b) && WellFormed(r, x) && WellFormed(r, y)
    requires Compatible(r, b, x) && Compatible(r, b, y) && Compatible(r, x, y)
    ensures Compatible(r, MergeValue(r, b, x), y)
    decreases b, 1
  {
    if b.Obj? {
      var m := MergeFields(r, b.fields, x.fields);
      MergeKeepsIds(r, b.fields, x.fields);
      forall k | k in m && k in y.fields && k !in r.ids ensures Compatible(r, m[k], y.fields[k]) {
        if k in b.fields && k in x.fields {
          CompatibleWithMerge(r, b.fields[k], x.fields[k], y.fields[k]);
        }
      }
    } else if b.Arr? {
      CompatibleWithMergedLists(r, b.items, x.items, y.items);
    }
  }

  lemma {:induction false} CompatibleWithMergedLists(r: Rules, b: seq<Json>, x: seq<Json>, y: seq<Json>)
    requires TotalPreorder(r.le) && WellFormed(r, Arr(b)) && WellFormed(r, Arr(x)) && WellFormed(r, Arr(y))
    requires Compatible(r, Arr(b), Arr(x)) && Compatible(r, Arr(b), Arr(y)) && Compatible(r, Arr(x), Arr(y))
    ensures Compatible(r, Arr(MergeLists(r, b, x)), Arr(y))
    decreases Arr(b), 0
  {
    var s := MergeLists(r, b, x);
    var attr := CommonKind(r, b, x, y);
    if attr.None? {
      MergeBags(r, b, x);
    } else {
      var t := attr.value;
      MergeListsAt(r, b, x, t);
      KeyedIsWellFormed(r, s, t);
      assert s != [] ==> KeyedItem(r, s[0], t);
      forall id | At(s, t, id).Some? && At(y, t, id).Some?
        ensures Compatible(r, At(s, t, id).value, At(y, t, id).value)
      {
        if At(b, t, id).Some? && At(x, t, id).Some? {
          CompatibleWithMerge(r, At(b, t, id).value, At(x, t, id).value, At(y, t, id).value);
        }
      }
    }
  }
}
