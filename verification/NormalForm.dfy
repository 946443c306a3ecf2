/** What merging leaves behind: a declarative account of a merge that determines it
    completely, and the normal form reached by merging a template with itself. */
module NormalForm {
  import opened Wrappers
  import opened Json
  import opened Sorting
  import opened Merge
  import opened KeyedLists
  import opened MergeLaws
  import opened OrderIndependence

  /** Nothing is lost and nothing is invented when `template` is merged into `base`:
      identities keep the base's value, what only one side has is kept as it is, scalars
      take the template's value, bags add up, namesakes merge, lists come out sorted. */
  ghost predicate Conserved(r: Rules, base: Json, template: Json, merged: Json)
    decreases base, 1
  {
    match (base, template)
    case (Obj(a), Obj(b)) =>
      merged.Obj? && var m := merged.fields;
      && m.Keys == a.Keys + b.Keys
      && (forall k :: k in a && (k in r.ids || k !in b) ==> m[k] == a[k])
      && (forall k :: k in b && k !in a ==> m[k] == b[k])
      && (forall k :: k in a && k in b && k !in r.ids ==> Conserved(r, a[k], b[k], m[k]))
    case (Arr(a), Arr(b)) =>
      merged.Arr? && SortedBy(merged.items, r.le) &&
      ConservedItems(r, a, b, merged.items, if a != [] then ListAttr(r, a) else ListAttr(r, b))
    case (_, _) => merged == template
  }

  ghost predicate ConservedItems(r: Rules, a: seq<Json>, b: seq<Json>, m: seq<Json>, attr: Option<string>)
    decreases Arr(a), 0
  {
    match attr
    case None => multiset(m) == multiset(a) + multiset(b)
    case Some(t) =>
      && Keyed(r, m, t)
      && (forall id :: At(m, t, id).Some? <==> At(a, t, id).Some? || At(b, t, id).Some?)
      && (forall id :: At(a, t, id).Some? && At(b, t, id).None? ==> At(m, t, id) == At(a, t, id))
      && (forall id :: At(a, t, id).None? && At(b, t, id).Some? ==> At(m, t, id) == At(b, t, id))
      && (forall id :: At(a, t, id).Some? && At(b, t, id).Some? && At(m, t, id).Some? ==>
                         Conserved(r, At(a, t, id).value, At(b, t, id).value, At(m, t, id).value))
  }

  /** The declarative account holds of the merge and of nothing else. */
  lemma {:induction false} MergeIsTheConservingValue(r: Rules, base: Json, template: Json, merged: Json)
    requires TotalOrder(r.le) && WellFormed(r, base) && WellFormed(r, template) && Fits(r, base, template)
    ensures Conserved(r, base, template, merged) <==> merged == MergeValue(r, base, template)
    decreases base, 3
  {
    if base.Obj? && template.Obj? {
      if merged.Obj? {
        ConservingFields(r, base.fields, template.fields, merged.fields);
      }
    } else if base.Arr? && template.Arr? {
      if merged.Arr? {
        ConservingLists(r, base.items, template.items, merged.items);
      }
    }
  }

  lemma {:induction false} ConservingFields(r: Rules, a: map<string, Json>, b: map<string, Json>, m: map<string, Json>)
    requires TotalOrder(r.le) && WellFormed(r, Obj(a)) && WellFormed(r, Obj(b)) && Fits(r, Obj(a), Obj(b))
    ensures Conserved(r, Obj(a), Obj(b), Obj(m)) <==> m == MergeFields(r, a, b)
    decreases Obj(a), 2
  {
    var m' := MergeFields(r, a, b);
    assert m'.Keys == a.Keys + b.Keys;
    if m.Keys == m'.Keys {
      forall k | k in a && k in b && k !in r.ids
        ensures Conserved(r, a[k], b[k], m[k]) <==> m[k] == m'[k]
      {
        MergeIsTheConservingValue(r, a[k], b[k], m[k]);
      }
      assert m == m' <==> forall k :: k in m' ==> m[k] == m'[k];
    }
  }

  lemma {:induction false} ConservingLists(r: Rules, a: seq<Json>, b: seq<Json>, m: seq<Json>)
    requires TotalOrder(r.le) && WellFormed(r, Arr(a)) && WellFormed(r, Arr(b)) && Fits(r, Arr(a), Arr(b))
    ensures Conserved(r, Arr(a), Arr(b), Arr(m)) <==> m == MergeLists(r, a, b)
    decreases Arr(a), 2
  {
    var m' := MergeLists(r, a, b);
    var attr := CommonKind(r, a, b, b);
    SortSorts(MergeItems(r, a, b), r.le);
    if attr.None? {
      MergeBags(r, a, b);
      if SortedBy(m, r.le) && multiset(m) == multiset(m') {
        SortedIsUnique(m, m', r.le);
      }
    } else {
      var t := attr.value;
      MergeListsAt(r, a, b, t);
      ConservingKeyed(r, a, b, m', t, m');
      if SortedBy(m, r.le) && ConservedItems(r, a, b, m, attr) {
        ConservingKeyed(r, a, b, m, t, m');
        SameAtSameElements(r, m, m', t);
        SortedIsUnique(m, m', r.le);
      }
    }
  }

  lemma {:induction false} ConservingKeyed(r: Rules, a: seq<Json>, b: seq<Json>, m: seq<Json>, t: string, m': seq<Json>)
    requires TotalOrder(r.le) && WellFormed(r, Arr(a)) && WellFormed(r, Arr(b)) && Fits(r, Arr(a), Arr(b))
    requires Keyed(r, a, t) && Keyed(r, b, t) && Keyed(r, m, t)
    requires forall id :: At(m', t, id) == Join(r, At(a, t, id), At(b, t, id))
    ensures ConservedItems(r, a, b, m, Some(t)) <==> forall id :: At(m, t, id) == At(m', t, id)
    decreases Arr(a), 1
  {
    forall id | At(a, t, id).Some? && At(b, t, id).Some? && At(m, t, id).Some?
      ensures Conserved(r, At(a, t, id).value, At(b, t, id).value, At(m, t, id).value) <==>
          At(m, t, id) == At(m', t, id)
    {
      assert ListAttr(r, a) == Some(t);
      MergeIsTheConservingValue(r, At(a, t, id).value, At(b, t, id).value, At(m, t, id).value);
    }
  }

  // Merging a template with itself.

  function NormalItems(r: Rules, s: seq<Json>): (n: seq<Json>)
    ensures |n| == |s|
    decreases s, 0
  {
    seq(|s|, i requires 0 <= i < |s| => Normal(r, s[i]))
  }

  /** The template with every list that a merge can reach sorted, from the inside out. */
  function Normal(r: Rules, j: Json): Json
    decreases j, 1
  {
    match j
    case Leaf(_) => j
    case Obj(m) => Obj(map k | k in m :: if k in r.ids then m[k] else Normal(r, m[k]))
    case Arr(s) => Arr(Sort(NormalItems(r, s), r.le))
  }

  /** No list that a merge can reach is a non-empty bag. */
  ghost predicate BagFree(r: Rules, j: Json) {
    match j
    case Leaf(_) => true
    case Obj(m) => forall k :: k in m && k !in r.ids ==> BagFree(r, m[k])
    case Arr(s) => (s != [] ==> ListAttr(r, s).Some?) && forall i :: 0 <= i < |s| ==> BagFree(r, s[i])
  }

  lemma NormalKeepsIdentity(r: Rules, j: Json, attr: string)
    requires KeyedItem(r, j, attr)
    ensures KeyedItem(r, Normal(r, j), attr)
    ensures Normal(r, j).fields[attr] == j.fields[attr]
  {
    LeadingIdOfKeys(r.ids, j.fields, Normal(r, j).fields);
  }

  lemma NormalItemsAt(r: Rules, s: seq<Json>, attr: string)
    requires Keyed(r, s, attr)
    ensures Keyed(r, NormalItems(r, s), attr)
    ensures forall id :: At(NormalItems(r, s), attr, id) ==
                         if At(s, attr, id).Some? then Some(Normal(r, At(s, attr, id).value)) else None
  {
    var n := NormalItems(r, s);
    forall i | 0 <= i < |s| ensures KeyedItem(r, n[i], attr) && n[i].fields[attr] == s[i].fields[attr] {
      NormalKeepsIdentity(r, s[i], attr);
    }
    forall id ensures FindNamesake(n, attr, id) == FindNamesake(s, attr, id) {
      assert forall j :: 0 <= j < |s| ==> HasId(n[j], attr, id) == HasId(s[j], attr, id);
      var a, b := FindNamesake(n, attr, id), FindNamesake(s, attr, id);
      assert a < |s| ==> HasId(s[a], attr, id);
      assert b < |s| ==> HasId(n[b], attr, id);
    }
  }

  lemma {:induction false} SelfMerge(r: Rules, j: Json)
    requires TotalOrder(r.le) && WellFormed(r, j) && BagFree(r, j)
    ensures MergeValue(r, j, j) == Normal(r, j)
    ensures MergeValue(r, Normal(r, j), j) == Normal(r, j)
    decreases j, 1
  {
    match j
    case Leaf(_) =>
    case Obj(m) =>
      var n := Normal(r, j).fields;
      forall k | k in m && k !in r.ids
        ensures MergeValue(r, m[k], m[k]) == n[k] && MergeValue(r, n[k], m[k]) == n[k]
      {
        SelfMerge(r, m[k]);
      }
      assert MergeFields(r, m, m) == n;
      assert MergeFields(r, n, m) == n;
    case Arr(s) => SelfMergeLists(r, s);
  }

  lemma {:induction false} SelfMergeLists(r: Rules, s: seq<Json>)
    requires TotalOrder(r.le) && WellFormed(r, Arr(s)) && BagFree(r, Arr(s))
    ensures MergeLists(r, s, s) == Sort(NormalItems(r, s), r.le)
    ensures MergeLists(r, Sort(NormalItems(r, s), r.le), s) == Sort(NormalItems(r, s), r.le)
    decreases Arr(s), 0
  {
    var n := NormalItems(r, s);
    var sorted := Sort(n, r.le);
    SortSorts(n, r.le);
    if s == [] {
      assert n == [];
    } else {
      var t := ListAttr(r, s).value;
      NormalItemsAt(r, s, t);
      KeyedPermutation(r, n, sorted, t);
      MergeItemsAt(r, s, s, t);
      MergeItemsAt(r, sorted, s, t);
      forall id
        ensures Join(r, At(s, t, id), At(s, t, id)) == At(n, t, id) ==
                Join(r, At(sorted, t, id), At(s, t, id))
      {
        if At(s, t, id).Some? {
          SelfMerge(r, At(s, t, id).value);
        }
      }
      SameAtSameElements(r, MergeItems(r, s, s), n, t);
      SameAtSameElements(r, MergeItems(r, sorted, s), n, t);
      SortIsCanonical(MergeItems(r, s, s), n, r.le);
      SortIsCanonical(MergeItems(r, sorted, s), n, r.le);
    }
  }

  lemma {:induction false} BagsDoNotSelfMerge(r: Rules, j: Json)
    requires TotalOrder(r.le) && WellFormed(r, j) && !BagFree(r, j)
    ensures MergeValue(r, j, j) != Normal(r, j)
    decreases j, 1
  {
    match j
    case Obj(m) =>
      var k :| k in m && k !in r.ids && !BagFree(r, m[k]);
      BagsDoNotSelfMerge(r, m[k]);
      assert MergeFields(r, m, m)[k] != Normal(r, j).fields[k];
    case Arr(s) =>
      if ListAttr(r, s).None? {
        BagsGrow(r, s);
      } else {
        var i :| 0 <= i < |s| && !BagFree(r, s[i]);
        BagsGrowInside(r, s, ListAttr(r, s).value, i);
      }
    case Leaf(_) =>
  }

  lemma BagsGrow(r: Rules, s: seq<Json>)
    requires TotalOrder(r.le) && s != [] && Bag(r, s)
    ensures |MergeLists(r, s, s)| > |Sort(NormalItems(r, s), r.le)|
  {
    MergeBags(r, s, s);
    assert |MergeLists(r, s, s)| == |multiset(MergeLists(r, s, s))| == 2 * |s|;
  }

  lemma {:induction false} BagsGrowInside(r: Rules, s: seq<Json>, t: string, i: nat)
    requires TotalOrder(r.le) && WellFormed(r, Arr(s)) && Keyed(r, s, t) && i < |s| && !BagFree(r, s[i])
    ensures MergeLists(r, s, s) != Sort(NormalItems(r, s), r.le)
    decreases Arr(s), 0
  {
    var n := NormalItems(r, s);
    BagsDoNotSelfMerge(r, s[i]);
    AtIs(r, s, t, i);
    MergeListsAt(r, s, s, t);
    NormalItemsAt(r, s, t);
    SortSorts(n, r.le);
    KeyedPermutation(r, n, Sort(n, r.le), t);
    assert At(MergeLists(r, s, s), t, s[i].fields[t]) != At(Sort(n, r.le), t, s[i].fields[t]);
  }

  /** Merging a template with a copy of itself only sorts it, exactly when none of its
      lists is a non-empty bag; merging in further copies then changes nothing. */
  lemma SelfMergeNormalises(r: Rules, j: Json)
    requires TotalOrder(r.le) && WellFormed(r, j)
    ensures MergeValue(r, j, j) == Normal(r, j) <==> BagFree(r, j)
    ensures BagFree(r, j) ==> MergeValue(r, MergeValue(r, j, j), j) == MergeValue(r, j, j)
  {
    if BagFree(r, j) {
      SelfMerge(r, j);
    } else {
      BagsDoNotSelfMerge(r, j);
    }
  }

  /** Two or more copies of a template without bags merge into its normal form. */
  lemma {:induction false} CopiesMergeIntoNormalForm(r: Rules, t: Json, copies: seq<Json>)
    requires TotalOrder(r.le) && t.Obj? && WellFormed(r, t) && BagFree(r, t) && Anonymous(r, t)
    requires |copies| >= 2 && forall i :: 0 <= i < |copies| ==> copies[i] == t
    ensures Obj(MergeTemplates(r, copies)) == Normal(r, t)
  {
    SelfMerge(r, t);
    var n := |copies| - 1;
    if n == 1 {
      assert copies == [t, t];
      MergeTwo(r, t, t);
    } else {
      CopiesMergeIntoNormalForm(r, t, copies[..n]);
      assert MergeTemplates(r, copies) == MergeTemplate(r, MergeTemplates(r, copies[..n]), t);
    }
  }
}
