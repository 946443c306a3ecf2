/** Lists whose elements are objects with distinct identities behave like maps from
    identity to object, and merging two of them merges the maps point by point. */
module KeyedLists {
  import opened Wrappers
  import opened Json
  import opened Sorting
  import opened Merge

  ghost predicate KeyedItem(r: Rules, j: Json, attr: string) {
    j.Obj? && LeadingId(r.ids, j.fields) == Some(attr) && IsString(j.fields[attr])
  }

  ghost predicate Keyed(r: Rules, s: seq<Json>, attr: string) {
    && (forall i :: 0 <= i < |s| ==> KeyedItem(r, s[i], attr))
    && (forall i, j :: 0 <= i < j < |s| ==> s[i].fields[attr] != s[j].fields[attr])
  }

  /** The element identified by `id`, if there is one. */
  ghost function At(s: seq<Json>, attr: string, id: Json): Option<Json> {
    var i := FindNamesake(s, attr, id);
    if i < |s| then Some(s[i]) else None
  }

  ghost function Join(r: Rules, x: Option<Json>, y: Option<Json>): Option<Json> {
    match (x, y)
    case (None, _) => y
    case (_, None) => x
    case (Some(a), Some(b)) => Some(MergeValue(r, a, b))
  }

  lemma AtIs(r: Rules, s: seq<Json>, attr: string, i: nat)
    requires Keyed(r, s, attr) && i < |s|
    ensures FindNamesake(s, attr, s[i].fields[attr]) == i
    ensures At(s, attr, s[i].fields[attr]) == Some(s[i])
  {
    assert HasId(s[i], attr, s[i].fields[attr]);
    assert forall j :: 0 <= j < i ==> !HasId(s[j], attr, s[i].fields[attr]);
  }

  /** Two keyed lists with the same identities and the same objects under them hold
      the same elements. */
  lemma SameAtSameElements(r: Rules, a: seq<Json>, b: seq<Json>, attr: string)
    requires Keyed(r, a, attr) && Keyed(r, b, attr)
    requires forall id :: At(a, attr, id) == At(b, attr, id)
    ensures multiset(a) == multiset(b)
  {
    forall x ensures multiset(a)[x] == multiset(b)[x] {
      CountIs(r, a, attr, x);
      CountIs(r, b, attr, x);
    }
  }

  lemma CountIs(r: Rules, s: seq<Json>, attr: string, x: Json)
    requires Keyed(r, s, attr)
    ensures multiset(s)[x] == if x.Obj? && attr in x.fields && At(s, attr, x.fields[attr]) == Some(x) then 1 else 0
  {
    if x in s {
      var i :| 0 <= i < |s| && s[i] == x;
      AtIs(r, s, attr, i);
      OccursOnce(s, i);
    }
  }

  lemma OccursOnce<T>(s: seq<T>, i: nat)
    requires i < |s| && forall j :: 0 <= j < |s| && j != i ==> s[j] != s[i]
    ensures multiset(s)[s[i]] == 1
  {
    var left, right := s[..i], s[i + 1..];
    assert s == left + [s[i]] + right;
    assert s[i] !in left && s[i] !in right;
  }

  lemma KeyedPermutation(r: Rules, a: seq<Json>, b: seq<Json>, attr: string)
    requires Keyed(r, a, attr) && multiset(a) == multiset(b)
    ensures Keyed(r, b, attr)
    ensures forall id :: At(b, attr, id) == At(a, attr, id)
  {
    forall i | 0 <= i < |b| ensures KeyedItem(r, b[i], attr) {
      assert b[i] in multiset(a);
    }
    forall i, j | 0 <= i < j < |b| ensures b[i].fields[attr] != b[j].fields[attr] {
      PermutationIsDistinct(r, a, b, attr, i, j);
    }
    forall id ensures At(b, attr, id) == At(a, attr, id) {
      SameAtOneWay(r, a, b, attr, id);
      SameAtOneWay(r, b, a, attr, id);
    }
  }

  lemma PermutationIsDistinct(r: Rules, a: seq<Json>, b: seq<Json>, attr: string, i: nat, j: nat)
    requires Keyed(r, a, attr) && multiset(a) == multiset(b) && i < j < |b|
    requires KeyedItem(r, b[i], attr) && KeyedItem(r, b[j], attr)
    ensures b[i].fields[attr] != b[j].fields[attr]
  {
    assert b[i] in multiset(a) && b[j] in multiset(a);
    CountIs(r, a, attr, b[i]);
    CountIs(r, a, attr, b[j]);
    if b[i] == b[j] {
      CountsTwice(b, i, j);
    }
  }

  lemma CountsTwice<T>(s: seq<T>, i: nat, j: nat)
    requires i < j < |s| && s[i] == s[j]
    ensures multiset(s)[s[i]] >= 2
  {
    assert s == s[..i] + [s[i]] + s[i + 1..j] + [s[j]] + s[j + 1..];
  }

  lemma SameAtOneWay(r: Rules, a: seq<Json>, b: seq<Json>, attr: string, id: Json)
    requires Keyed(r, a, attr) && Keyed(r, b, attr) && multiset(a) == multiset(b)
    ensures At(a, attr, id).Some? ==> At(b, attr, id) == At(a, attr, id)
  {
    if At(a, attr, id).Some? {
      var x := At(a, attr, id).value;
      assert x in multiset(b);
      var j :| 0 <= j < |b| && b[j] == x;
      AtIs(r, b, attr, j);
    }
  }

  // Merging.

  lemma {:induction false} LeadingIdOfKeys<U, V>(ids: seq<string>, m: map<string, U>, m': map<string, V>)
    requires forall k :: k in ids ==> (k in m <==> k in m')
    ensures LeadingId(ids, m) == LeadingId(ids, m')
  {
    if ids == [] {
    } else {
      assert ids[0] in ids;
      LeadingIdOfKeys(ids[1..], m, m');
    }
  }

  ghost predicate IsFirstId(ids: seq<string>, m: map<string, Json>, a: string, i: int) {
    0 <= i < |ids| && ids[i] == a && a in m && forall j :: 0 <= j < i ==> ids[j] !in m
  }

  /** The first of the attributes that the object has. */
  lemma {:induction false} LeadingIdIs(ids: seq<string>, m: map<string, Json>)
    ensures LeadingId(ids, m).Some? ==> exists i :: IsFirstId(ids, m, LeadingId(ids, m).value, i)
    ensures LeadingId(ids, m).None? ==> forall i :: 0 <= i < |ids| ==> ids[i] !in m
  {
    if ids != [] && ids[0] in m {
      assert LeadingId(ids, m).value == ids[0];
      assert IsFirstId(ids, m, LeadingId(ids, m).value, 0);
    } else if ids != [] {
      var rest := ids[1..];
      LeadingIdIs(rest, m);
      assert forall i :: 0 < i < |ids| ==> ids[i] == rest[i - 1];
      if LeadingId(rest, m).Some? {
        var i :| IsFirstId(rest, m, LeadingId(rest, m).value, i);
        assert IsFirstId(ids, m, LeadingId(ids, m).value, i + 1);
      }
    }
  }

  /** Merging never touches the identity of the base. */
  lemma MergeKeepsIds(r: Rules, base: map<string, Json>, template: map<string, Json>)
    ensures forall k :: k in r.ids ==> (k in MergeFields(r, base, template) <==> k in base)
    ensures forall k :: k in r.ids && k in base ==> MergeFields(r, base, template)[k] == base[k]
    ensures LeadingId(r.ids, MergeFields(r, base, template)) == LeadingId(r.ids, base)
  {
    LeadingIdOfKeys(r.ids, MergeFields(r, base, template), base);
  }

  /** Every element can be asked for the attribute. */
  ghost predicate HaveId(s: seq<Json>, attr: string) {
    forall i :: 0 <= i < |s| ==> s[i].Obj? && attr in s[i].fields
  }

  ghost function Only(item: Json, attr: string, id: Json): Option<Json> {
    if HasId(item, attr, id) then Some(item) else None
  }

  /** One item updates the first element with its identity, or is appended; the other
      elements stay. */
  lemma MergeItemJoins(r: Rules, base: seq<Json>, item: Json, attr: string)
    requires HaveId(base, attr) && KeyedItem(r, item, attr)
    ensures HaveId(MergeItem(r, base, item), attr)
    ensures forall id :: At(MergeItem(r, base, item), attr, id) == Join(r, At(base, attr, id), Only(item, attr, id))
    ensures var s, i := MergeItem(r, base, item), FindNamesake(base, attr, item.fields[attr]);
            |s| == |base| + (if i < |base| then 0 else 1) && forall j :: 0 <= j < |base| && j != i ==> s[j] == base[j]
  {
    var id0 := item.fields[attr];
    var i := FindNamesake(base, attr, id0);
    var s := MergeItem(r, base, item);
    if i < |base| {
      var x := Obj(MergeFields(r, base[i].fields, item.fields));
      MergeKeepsIds(r, base[i].fields, item.fields);
      assert attr in r.ids && x.fields[attr] == id0;
      assert s == base[i := x];
      forall id ensures At(s, attr, id) == Join(r, At(base, attr, id), Only(item, attr, id)) {
        FindAfterUpdate(base, i, x, attr, id);
      }
    } else {
      assert s == base + [item];
      forall id ensures At(s, attr, id) == Join(r, At(base, attr, id), Only(item, attr, id)) {
        FindAfterAppend(base, item, attr, id);
      }
    }
  }

  lemma MergeItemAt(r: Rules, base: seq<Json>, item: Json, attr: string)
    requires Keyed(r, base, attr) && KeyedItem(r, item, attr)
    ensures Keyed(r, MergeItem(r, base, item), attr)
    ensures forall id :: At(MergeItem(r, base, item), attr, id) == Join(r, At(base, attr, id), Only(item, attr, id))
  {
    MergeItemJoins(r, base, item, attr);
    var i := FindNamesake(base, attr, item.fields[attr]);
    var s := MergeItem(r, base, item);
    if i < |base| {
      var x := Obj(MergeFields(r, base[i].fields, item.fields));
      MergeKeepsIds(r, base[i].fields, item.fields);
      assert KeyedItem(r, x, attr) && x.fields[attr] == item.fields[attr];
      assert s == base[i := x];
    } else {
      assert s == base + [item];
    }
  }

  lemma FindAfterUpdate(s: seq<Json>, i: nat, x: Json, attr: string, id: Json)
    requires i < |s| && s[i].Obj? && x.Obj? && attr in s[i].fields && attr in x.fields
    requires s[i].fields[attr] == x.fields[attr]
    ensures FindNamesake(s[i := x], attr, id) == FindNamesake(s, attr, id)
  {
    var t := s[i := x];
    assert forall j :: 0 <= j < |s| ==> HasId(t[j], attr, id) == HasId(s[j], attr, id);
    var a, b := FindNamesake(t, attr, id), FindNamesake(s, attr, id);
    assert a < |s| ==> HasId(s[a], attr, id);
    assert b < |s| ==> HasId(t[b], attr, id);
  }

  lemma FindAfterAppend(s: seq<Json>, x: Json, attr: string, id: Json)
    ensures FindNamesake(s + [x], attr, id) ==
            if FindNamesake(s, attr, id) < |s| then FindNamesake(s, attr, id)
            else if HasId(x, attr, id) then |s| else |s| + 1
  {
    var t := s + [x];
    var a, b := FindNamesake(t, attr, id), FindNamesake(s, attr, id);
    assert a < |s| ==> HasId(s[a], attr, id);
    assert b < |s| ==> HasId(t[b], attr, id);
    assert HasId(x, attr, id) ==> HasId(t[|s|], attr, id);
  }

  lemma AtAppend(r: Rules, init: seq<Json>, item: Json, attr: string, id: Json)
    requires Keyed(r, init + [item], attr)
    ensures HasId(item, attr, id) ==> At(init, attr, id).None?
    ensures At(init + [item], attr, id) == if HasId(item, attr, id) then Some(item) else At(init, attr, id)
  {
    FindAfterAppend(init, item, attr, id);
    if HasId(item, attr, id) {
      AtIs(r, init + [item], attr, |init|);
    }
  }

  lemma {:induction false} MergeItemsJoins(r: Rules, base: seq<Json>, template: seq<Json>, attr: string)
    requires HaveId(base, attr) && Keyed(r, template, attr)
    ensures HaveId(MergeItems(r, base, template), attr)
    ensures forall id :: At(MergeItems(r, base, template), attr, id) ==
                         Join(r, At(base, attr, id), At(template, attr, id))
  {
    if template == [] {
    } else {
      var n := |template| - 1;
      var init, item := template[..n], template[n];
      assert template == init + [item];
      MergeItemsJoins(r, base, init, attr);
      MergeItemJoins(r, MergeItems(r, base, init), item, attr);
      forall id
        ensures At(MergeItems(r, base, template), attr, id) ==
                Join(r, At(base, attr, id), At(template, attr, id))
      {
        AtAppend(r, init, item, attr, id);
      }
    }
  }

  lemma {:induction false} MergeItemsAt(r: Rules, base: seq<Json>, template: seq<Json>, attr: string)
    requires Keyed(r, base, attr) && Keyed(r, template, attr)
    ensures Keyed(r, MergeItems(r, base, template), attr)
    ensures forall id :: At(MergeItems(r, base, template), attr, id) ==
                         Join(r, At(base, attr, id), At(template, attr, id))
  {
    MergeItemsJoins(r, base, template, attr);
    if template == [] {
    } else {
      var n := |template| - 1;
      MergeItemsAt(r, base, template[..n], attr);
      MergeItemAt(r, MergeItems(r, base, template[..n]), template[n], attr);
    }
  }

  // When merging a keyed list raises.

  ghost predicate NamesakesRaise(r: Rules, base: seq<Json>, template: seq<Json>, attr: string, id: Json) {
    At(base, attr, id).Some? && At(template, attr, id).Some? &&
    ValueRaises(r, At(base, attr, id).value, At(template, attr, id).value)
  }

  lemma ItemRaisesExactly(r: Rules, base: seq<Json>, item: Json, attr: string)
    requires HaveId(base, attr) && KeyedItem(r, item, attr)
    ensures ItemRaises(r, base, item) <==>
            var x := At(base, attr, item.fields[attr]); x.Some? && ValueRaises(r, x.value, item)
  {
  }

  lemma NamesakesOneMore(r: Rules, base: seq<Json>, init: seq<Json>, item: Json, attr: string, id: Json)
    requires HaveId(base, attr) && Keyed(r, init + [item], attr) && KeyedItem(r, item, attr) && Keyed(r, init, attr)
    ensures NamesakesRaise(r, base, init + [item], attr, id) <==>
            || NamesakesRaise(r, base, init, attr, id)
            || (HasId(item, attr, id) && ItemRaises(r, MergeItems(r, base, init), item))
  {
    AtAppend(r, init, item, attr, id);
    if HasId(item, attr, id) {
      MergeItemsJoins(r, base, init, attr);
      ItemRaisesExactly(r, MergeItems(r, base, init), item, attr);
    }
  }

  /** Where every element of the base can be asked for the attribute, merging raises exactly
      if merging two namesakes does. */
  lemma {:induction false} ItemsRaiseExactly(r: Rules, base: seq<Json>, template: seq<Json>, attr: string)
    requires HaveId(base, attr) && Keyed(r, template, attr)
    ensures ItemsRaise(r, base, template) <==> exists id :: NamesakesRaise(r, base, template, attr, id)
  {
    if template == [] {
    } else {
      var n := |template| - 1;
      var init, item := template[..n], template[n];
      assert template == init + [item];
      ItemsRaiseExactly(r, base, init, attr);
      forall id ensures NamesakesRaise(r, base, template, attr, id) <==>
                        || NamesakesRaise(r, base, init, attr, id)
                        || (HasId(item, attr, id) && ItemRaises(r, MergeItems(r, base, init), item))
      {
        NamesakesOneMore(r, base, init, item, attr, id);
      }
      if ItemRaises(r, MergeItems(r, base, init), item) {
        assert NamesakesRaise(r, base, template, attr, item.fields[attr]);
      } else if ItemsRaise(r, base, init) {
        var id :| NamesakesRaise(r, base, init, attr, id);
        assert NamesakesRaise(r, base, template, attr, id);
      }
    }
  }

  /** If some element of the base cannot be asked, the first item raises. */
  lemma {:induction false} FirstItemRaises(r: Rules, base: seq<Json>, template: seq<Json>)
    requires template != [] && ItemRaises(r, base, template[0])
    ensures ItemsRaise(r, base, template)
  {
    var n := |template| - 1;
    if n == 0 {
      assert MergeItems(r, base, template[..0]) == base;
    } else {
      FirstItemRaises(r, base, template[..n]);
    }
  }

  /** The sorted merge of two keyed lists, seen as maps. */
  lemma MergeListsAt(r: Rules, base: seq<Json>, template: seq<Json>, attr: string)
    requires TotalPreorder(r.le) && Keyed(r, base, attr) && Keyed(r, template, attr)
    ensures Keyed(r, MergeLists(r, base, template), attr)
    ensures forall id :: At(MergeLists(r, base, template), attr, id) ==
                         Join(r, At(base, attr, id), At(template, attr, id))
  {
    MergeItemsAt(r, base, template, attr);
    SortSorts(MergeItems(r, base, template), r.le);
    KeyedPermutation(r, MergeItems(r, base, template), MergeLists(r, base, template), attr);
  }
}
