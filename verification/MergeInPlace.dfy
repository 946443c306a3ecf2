/** The merge as cm_template.py performs it: the base is updated in place, and parts of
    the template are hooked into it. `ok` is false when the original raises. */
module MergeInPlace {
  import opened Wrappers
  import opened Json
  import opened Sorting
  import opened Merge
  import opened KeyedLists
  import opened ObjectTrees

  method UpdateObject(r: Rules, base: Val, template: Val, ghost t: Shape, ghost s: Shape)
    returns (handled: bool, ok: bool, ghost t': Shape)
    requires Ref(t) == base && Ref(s) == template
    requires Live(t) && Live(s) && Nodes(t) !! Nodes(s)
    modifies Nodes(t) + Nodes(s)
    ensures handled <==> (base.DictRef? && template.DictRef?) || (base.ListRef? && template.ListRef?)
    ensures ok <==> !ValueRaises(r, Value(t), Value(s))
    ensures !handled ==> ok && t' == t && Live(t) && Live(s) && MergeValue(r, Value(t), Value(s)) == Value(s)
    ensures handled && ok ==> GrownFrom(t', t, s) && Value(t') == MergeValue(r, Value(t), Value(s))
    decreases s, 3
  {
    handled, ok, t' := false, true, t;
    if base.DictRef? && template.DictRef? {
      ok, t' := UpdateDict(r, base.dict, template.dict, t, s);
      handled := true;
    } else if base.ListRef? && template.ListRef? {
      ok, t' := UpdateList(r, base.list, template.list, t, s);
      handled := true;
    }
  }

  method UpdateDict(r: Rules, base: Dict, template: Dict, ghost t: Shape, ghost s: Shape)
    returns (ok: bool, ghost t': Shape)
    requires Ref(t) == DictRef(base) && Ref(s) == DictRef(template)
    requires Live(t) && Live(s) && Nodes(t) !! Nodes(s)
    modifies Nodes(t) + Nodes(s)
    ensures ok <==> !FieldsRaise(r, Fields(t), Fields(s))
    ensures ok ==> GrownFrom(t', t, s) && t'.DictShape? && Fields(t') == MergeFields(r, Fields(t), Fields(s))
    decreases s, 1
  {
    var todo := template.fields.Keys;
    ghost var done: set<string> := {};
    ok, t' := true, t;
    assert allocated(Nodes(t)) && allocated(Nodes(s));
    assert Taken(s, {}) == map[];
    MergeNothing(r, Fields(t));
    while ok && todo != {}
      invariant todo <= s.kids.Keys && done !! todo && template.fields == old(template.fields)
      invariant forall k :: k in s.kids ==> k in todo || k in done
      invariant ok ==> Pending(s, todo, t')
      invariant ok ==> Live(t') && Ref(t') == Ref(t) && Nodes(t') <= Nodes(t) + NodesOfKids(s)
      invariant ok ==> Fields(t') == MergeFields(r, Fields(t), Taken(s, done))
      invariant ok <==> !FieldsRaise(r, Fields(t), Taken(s, done))
      decreases |todo|
    {
      var k :| k in todo;
      todo := todo - {k};
      TakenMore(r, Fields(t), s, done, k);
      ok, t' := TakeKey(r, base, template, k, todo, t', s);
      done := done + {k};
    }
    TakenAll(r, Fields(t), s, done);
  }

  /** One round of the loop, keeping the subtrees of the template that are still to come. */
  method TakeKey(r: Rules, base: Dict, template: Dict, k: string, ghost todo: set<string>, ghost t: Shape,
      ghost s: Shape)
    returns (ok: bool, ghost t': Shape)
    requires Ref(t) == DictRef(base) && s.DictShape? && IsTree(s) && Live(t)
    requires k in s.kids && k !in todo && k in template.fields && template.fields[k] == Ref(s.kids[k])
    requires Pending(s, todo, t) && Pending(s, {k}, t)
    modifies Nodes(t) + Nodes(s.kids[k])
    ensures ok <==> !KeyRaises(r, Fields(t), k, Value(s.kids[k]))
    ensures ok ==>
        GrownFrom(t', t, s.kids[k]) && t'.DictShape? && Fields(t') == MergeKey(r, Fields(t), k, Value(s.kids[k]))
    ensures ok ==> Pending(s, todo, t')
    decreases s, 0
  {
    ghost var kid := s.kids[k];
    assert allocated(Nodes(s));
    ok, t' := UpdateKey(r, base, k, template.fields[k], t, kid);
    if ok {
      forall k' | k' in todo && k' in s.kids ensures Holds(s.kids[k']) && Nodes(s.kids[k']) !! Nodes(t') {
        assert Nodes(s.kids[k']) !! Nodes(t) + Nodes(kid);
      }
    }
  }

  /** The part of the template's fields under the given keys. */
  ghost function Taken(s: Shape, keys: set<string>): map<string, Json>
    requires s.DictShape?
  {
    map k | k in s.kids && k in keys :: Value(s.kids[k])
  }

  lemma TakenMore(r: Rules, b: map<string, Json>, s: Shape, keys: set<string>, k: string)
    requires s.DictShape? && k in s.kids && k !in keys
    ensures MergeFields(r, b, Taken(s, keys + {k})) ==
        MergeKey(r, MergeFields(r, b, Taken(s, keys)), k, Value(s.kids[k]))
    ensures FieldsRaise(r, b, Taken(s, keys + {k})) <==>
            FieldsRaise(r, b, Taken(s, keys)) || KeyRaises(r, MergeFields(r, b, Taken(s, keys)), k, Value(s.kids[k]))
  {
    assert Taken(s, keys + {k}) == Taken(s, keys)[k := Value(s.kids[k])];
    MergeOneMore(r, b, Taken(s, keys), k, Value(s.kids[k]));
  }

  lemma TakenAll(r: Rules, b: map<string, Json>, s: Shape, done: set<string>)
    requires s.DictShape?
    ensures s.kids.Keys <= done ==> Taken(s, done) == Fields(s)
    ensures FieldsRaise(r, b, Taken(s, done)) ==> FieldsRaise(r, b, Fields(s))
  {
    if FieldsRaise(r, b, Taken(s, done)) {
      FewerRaise(r, b, Taken(s, done), Fields(s));
    }
  }

  /** The subtrees of the template that the loop has yet to take are still untouched. */
  ghost predicate Pending(s: Shape, todo: set<string>, t: Shape)
    requires s.DictShape?
    reads Nodes(s)
  {
    forall k :: k in todo && k in s.kids ==> Holds(s.kids[k]) && Nodes(s.kids[k]) !! Nodes(t)
  }

  lemma MergeNothing(r: Rules, b: map<string, Json>)
    ensures MergeFields(r, b, map[]) == b
    ensures !FieldsRaise(r, b, map[])
  {
  }

  lemma FewerRaise(r: Rules, b: map<string, Json>, part: map<string, Json>, whole: map<string, Json>)
    requires FieldsRaise(r, b, part) && forall k :: k in part ==> k in whole && whole[k] == part[k]
    ensures FieldsRaise(r, b, whole)
  {
    var k :| k in part && FieldRaises(r, b, part, k);
    assert FieldRaises(r, b, whole, k);
  }

  lemma MergeOneMore(r: Rules, b: map<string, Json>, done: map<string, Json>, k: string, v: Json)
    requires k !in done
    ensures MergeFields(r, b, done[k := v]) == MergeKey(r, MergeFields(r, b, done), k, v)
    ensures FieldsRaise(r, b, done[k := v]) <==> FieldsRaise(r, b, done) || KeyRaises(r, MergeFields(r, b, done), k, v)
  {
    var more := done[k := v];
    assert FieldRaises(r, b, more, k) == KeyRaises(r, MergeFields(r, b, done), k, v);
    assert forall k' :: k' in done ==> FieldRaises(r, b, more, k') == FieldRaises(r, b, done, k');
  }

  method UpdateList(r: Rules, base: List, template: List, ghost t: Shape, ghost s: Shape)
    returns (ok: bool, ghost t': Shape)
    requires Ref(t) == ListRef(base) && Ref(s) == ListRef(template)
    requires Live(t) && Live(s) && Nodes(t) !! Nodes(s)
    modifies Nodes(t) + Nodes(s)
    ensures ok <==> !ItemsRaise(r, Values(t.elems), Values(s.elems))
    ensures ok ==> GrownFrom(t', t, s) && t'.ListShape?
                   && Values(t'.elems) == MergeLists(r, Values(t.elems), Values(s.elems))
    decreases s, 2
  {
    assert allocated(Nodes(t)) && allocated(Nodes(s));
    ok, t' := TakeItems(r, base, template, t, s);
    if ok {
      t' := SortItems(r, base, t');
    }
  }

  /** The loop over the items of the template. */
  method TakeItems(r: Rules, base: List, template: List, ghost t: Shape, ghost s: Shape)
    returns (ok: bool, ghost t': Shape)
    requires Ref(t) == ListRef(base) && Ref(s) == ListRef(template)
    requires Live(t) && Live(s) && Nodes(t) !! Nodes(s)
    modifies Nodes(t) + Nodes(s)
    ensures ok <==> !ItemsRaise(r, Values(t.elems), Values(s.elems))
    ensures ok ==> GrownFrom(t', t, s) && t'.ListShape?
                   && Values(t'.elems) == MergeItems(r, Values(t.elems), Values(s.elems))
    decreases s, 1
  {
    var i := 0;
    ok, t' := true, t;
    assert allocated(Nodes(t)) && allocated(Nodes(s));
    assert Values(s.elems)[..0] == [] && t.ListShape? && s.ListShape?;
    assert HoldAll(s.elems);
    while ok && i < |template.items|
      invariant i <= |s.elems| && template.items == old(template.items)
      invariant ok ==> PendingFrom(s, i, t')
      invariant ok ==> Live(t') && Ref(t') == Ref(t) && Nodes(t') <= Nodes(t) + NodesOf(s.elems)
      invariant ok ==> Values(t'.elems) == MergeItems(r, Values(t.elems), Values(s.elems)[..i])
      invariant ok <==> !ItemsRaise(r, Values(t.elems), Values(s.elems)[..i])
    {
      MergeOneMoreItem(r, Values(t.elems), Values(s.elems), i);
      ok, t' := TakeItem(r, base, template, i, t', s);
      i := i + 1;
    }
    ItemsTaken(r, Values(t.elems), Values(s.elems), i);
  }

  lemma MergeOneMoreItem(r: Rules, b: seq<Json>, ts: seq<Json>, i: nat)
    requires i < |ts|
    ensures MergeItems(r, b, ts[..i + 1]) == MergeItem(r, MergeItems(r, b, ts[..i]), ts[i])
    ensures ItemsRaise(r, b, ts[..i + 1]) <==>
        ItemsRaise(r, b, ts[..i]) || ItemRaises(r, MergeItems(r, b, ts[..i]), ts[i])
  {
    assert ts[..i + 1][..i] == ts[..i];
  }

  lemma {:induction false} ItemsTaken(r: Rules, b: seq<Json>, ts: seq<Json>, i: nat)
    requires i <= |ts|
    ensures i == |ts| ==> ts[..i] == ts
    ensures ItemsRaise(r, b, ts[..i]) ==> ItemsRaise(r, b, ts)
    decreases |ts| - i
  {
    if i == |ts| {
      assert ts[..i] == ts;
    } else {
      MergeOneMoreItem(r, b, ts, i);
      ItemsTaken(r, b, ts, i + 1);
    }
  }

  /** The elements of the template that the loop has yet to take are still untouched. */
  ghost predicate PendingFrom(s: Shape, i: nat, t: Shape)
    requires s.ListShape?
    reads Nodes(s)
  {
    forall j :: i <= j < |s.elems| ==> Holds(s.elems[j]) && Nodes(s.elems[j]) !! Nodes(t)
  }

  method TakeItem(r: Rules, base: List, template: List, i: nat, ghost t: Shape, ghost s: Shape)
    returns (ok: bool, ghost t': Shape)
    requires Ref(t) == ListRef(base) && s.ListShape? && IsTree(s) && Live(t)
    requires i < |s.elems| && i < |template.items| && template.items[i] == Ref(s.elems[i])
    requires PendingFrom(s, i, t)
    modifies Nodes(t) + Nodes(s.elems[i])
    ensures ok <==> !ItemRaises(r, Values(t.elems), Value(s.elems[i]))
    ensures ok ==>
        GrownFrom(t', t, s.elems[i]) && t'.ListShape?
            && Values(t'.elems) == MergeItem(r, Values(t.elems), Value(s.elems[i]))
    ensures ok ==> PendingFrom(s, i + 1, t')
    decreases s, 0
  {
    ghost var elem := s.elems[i];
    assert allocated(Nodes(s));
    ok, t' := UpdateItem(r, base, template.items[i], t, elem);
    if ok {
      forall j | i + 1 <= j < |s.elems| ensures Holds(s.elems[j]) && Nodes(s.elems[j]) !! Nodes(t') {
        assert Nodes(s.elems[j]) !! Nodes(t) + Nodes(elem);
      }
    }
  }

  // The body of the loop of update_list, for one item.

  method UpdateItem(r: Rules, base: List, item: Val, ghost t: Shape, ghost s: Shape)
    returns (ok: bool, ghost t': Shape)
    requires Ref(t) == ListRef(base) && Ref(s) == item
    requires Live(t) && Live(s) && Nodes(t) !! Nodes(s)
    modifies Nodes(t) + Nodes(s)
    ensures ok <==> !ItemRaises(r, Values(t.elems), Value(s))
    ensures ok ==> GrownFrom(t', t, s) && t'.ListShape? && Values(t'.elems) == MergeItem(r, Values(t.elems), Value(s))
    decreases s, 6
  {
    ok, t' := true, t;
    if item.DictRef? && LeadingId(r.ids, item.dict.fields).Some? {
      ok, t' := UpdateNamedItem(r, base, item.dict, t, s);
    } else {
      NotNamed(r, Values(t.elems), s);
      t' := AppendItem(base, item, t, s);
    }
  }

  lemma NotNamed(r: Rules, b: seq<Json>, s: Shape)
    requires Holds(s) && !(s.DictShape? && LeadingId(r.ids, s.dict.fields).Some?)
    ensures MergeItem(r, b, Value(s)) == b + [Value(s)] && !ItemRaises(r, b, Value(s))
  {
    if s.DictShape? {
      LeadingIdOfKeys(r.ids, s.dict.fields, Fields(s));
    }
  }

  lemma Named(r: Rules, b: seq<Json>, m: map<string, Json>, attr: string)
    requires LeadingId(r.ids, m) == Some(attr)
    ensures var i := FindNamesake(b, attr, m[attr]);
            && MergeItem(r, b, Obj(m)) ==
                (if i < |b| then b[i := Obj(MergeFields(r, b[i].fields, m))] else b + [Obj(m)])
            && (ItemRaises(r, b, Obj(m)) <==>
                !HaveAttr(b, attr) || (i < |b| && (!IsString(m[attr]) || FieldsRaise(r, b[i].fields, m))))
  {
  }

  predicate HaveAttr(b: seq<Json>, attr: string) {
    forall j :: 0 <= j < |b| ==> b[j].Obj? && attr in b[j].fields
  }

  method UpdateNamedItem(r: Rules, base: List, item: Dict, ghost t: Shape, ghost s: Shape)
    returns (ok: bool, ghost t': Shape)
    requires Ref(t) == ListRef(base) && Ref(s) == DictRef(item) && LeadingId(r.ids, item.fields).Some?
    requires Live(t) && Live(s) && Nodes(t) !! Nodes(s)
    modifies Nodes(t) + Nodes(s)
    ensures ok <==> !ItemRaises(r, Values(t.elems), Value(s))
    ensures ok ==> GrownFrom(t', t, s) && t'.ListShape? && Values(t'.elems) == MergeItem(r, Values(t.elems), Value(s))
    decreases s, 5
  {
    var attr := LeadingId(r.ids, item.fields).value;
    LeadingIdOfKeys(r.ids, item.fields, Fields(s));
    KidOf(s, attr);
    t' := t;
    assert allocated(Nodes(t)) && allocated(Nodes(s));
    var id := ReadValue(item.fields[attr], s.kids[attr]);
    var values := ReadItems(base, t);
    var i := FindNamesake(values, attr, id);
    ok := HaveAttr(values, attr);
    Named(r, values, Fields(s), attr);
    if ok {
      if i == |values| {
        t' := AppendItem(base, DictRef(item), t, s);
      } else if IsString(id) {
        ok, t' := UpdateElem(r, base, i, item, t, s);
      } else {
        ok := false;
      }
    }
  }

  method AppendItem(base: List, item: Val, ghost t: Shape, ghost s: Shape) returns (ghost t': Shape)
    requires Ref(t) == ListRef(base) && Ref(s) == item
    requires Live(t) && Live(s) && Nodes(t) !! Nodes(s)
    modifies base
    ensures GrownFrom(t', t, s) && t'.ListShape? && Values(t'.elems) == Values(t.elems) + [Value(s)]
  {
    assert base in Nodes(t);
    assert allocated(Nodes(t)) && allocated(Nodes(s));
    assert HoldAll(t.elems);
    base.items := base.items + [item];
    t' := ListShape(base, t.elems + [s]);
    forall j | 0 <= j < |t.elems| ensures Holds(t.elems[j]) {
      assert base !in Nodes(t.elems[j]);
    }
    assert base.items == Refs(t.elems + [s]);
    AppendElem(t, s);
  }

  method UpdateElem(r: Rules, base: List, i: nat, item: Dict, ghost t: Shape, ghost s: Shape)
    returns (ok: bool, ghost t': Shape)
    requires Ref(t) == ListRef(base) && Ref(s) == DictRef(item) && i < |t.elems| && t.elems[i].DictShape?
    requires Live(t) && Live(s) && Nodes(t) !! Nodes(s)
    modifies Nodes(t) + Nodes(s)
    ensures ok <==> !FieldsRaise(r, Fields(t.elems[i]), Fields(s))
    ensures ok ==> GrownFrom(t', t, s) && t'.ListShape?
                   && Values(t'.elems) == Values(t.elems)[i := Obj(MergeFields(r, Fields(t.elems[i]), Fields(s)))]
    decreases s, 4
  {
    ghost var elem, elem' := t.elems[i], t.elems[i];
    t' := t;
    ElemOf(t, i);
    assert HoldAll(t.elems);
    assert allocated(Nodes(t));
    ok, elem' := UpdateDict(r, base.items[i].dict, item, elem, s);
    if ok {
      forall j | 0 <= j < |t.elems| && j != i ensures Holds(t.elems[j]) {
        assert Nodes(t.elems[j]) !! Nodes(elem) + Nodes(s);
      }
      t' := ListShape(base, t.elems[i := elem']);
      ElemReplaced(t, i, elem', s);
    }
  }

  lemma ElemReplaced(t: Shape, i: nat, elem: Shape, s: Shape)
    requires t.ListShape? && i < |t.elems| && IsTree(t) && Live(elem) && Nodes(t) !! Nodes(s)
    requires Ref(elem) == Ref(t.elems[i]) && Nodes(elem) <= Nodes(t.elems[i]) + Nodes(s)
    requires t.list.items == Refs(t.elems)
    requires forall j :: 0 <= j < |t.elems| && j != i ==> Holds(t.elems[j])
    ensures GrownFrom(ListShape(t.list, t.elems[i := elem]), t, s)
    ensures Values(t.elems[i := elem]) == Values(t.elems)[i := Value(elem)]
  {
    SetElem(t, i, elem);
    ElemsHold(t.list, t.elems, i, elem);
  }

  lemma ElemsHold(l: List, elems: seq<Shape>, i: nat, elem: Shape)
    requires i < |elems| && Holds(elem) && Ref(elem) == Ref(elems[i]) && l.items == Refs(elems)
    requires forall j :: 0 <= j < |elems| && j != i ==> Holds(elems[j])
    ensures Holds(ListShape(l, elems[i := elem]))
  {
    assert Refs(elems[i := elem]) == Refs(elems);
  }

  // The final sort of update_list.

  /** An insertion sort that moves elements in place, comparing their serialised forms. */
  method SortItems(r: Rules, base: List, ghost t: Shape) returns (ghost t': Shape)
    requires Ref(t) == ListRef(base) && Live(t)
    modifies base
    ensures GrownFrom(t', t, t) && t'.ListShape? && Values(t'.elems) == Sort(Values(t.elems), r.le)
  {
    assert allocated(Nodes(t));
    var keys := ReadItems(base, t);
    ghost var values, elems := keys, t.elems;
    var i := |keys|;
    assert HoldAll(elems) && keys == values[..i] + Sort(values[i..], r.le);
    while i > 0
      invariant 0 <= i <= |keys| == |elems| == |values|
      invariant keys == Values(elems) && base.items == Refs(elems)
      invariant IsForest(elems) && HoldAll(elems) && NodesOf(elems) <= NodesOf(t.elems)
      invariant keys == values[..i] + Sort(values[i..], r.le)
    {
      i := i - 1;
      InsertionStep(keys, values, i, r.le);
      var p := Target(keys, i, r.le);
      MoveKeepsForest(elems, i, p);
      MoveItem(base, i, p, elems);
      keys, elems := MoveRight(keys, i, p), MoveRight(elems, i, p);
    }
    assert keys == Sort(values, r.le) by {
      assert values[0..] == values;
    }
    t' := ListShape(base, elems);
  }

  method MoveItem(base: List, i: nat, p: nat, ghost elems: seq<Shape>)
    requires i <= p < |elems| && base.items == Refs(elems) && HoldAll(elems) && base !in NodesOf(elems)
    modifies base
    ensures base.items == MoveRight(Refs(elems), i, p) && HoldAll(MoveRight(elems, i, p))
  {
    assert allocated(NodesOf(elems));
    base.items := MoveRight(base.items, i, p);
    forall j | 0 <= j < |elems| ensures Holds(elems[j]) {
      assert base !in Nodes(elems[j]);
    }
  }

  lemma MoveKeepsForest(ts: seq<Shape>, i: nat, p: nat)
    requires i <= p < |ts| && IsForest(ts)
    ensures IsForest(MoveRight(ts, i, p)) && NodesOf(MoveRight(ts, i, p)) <= NodesOf(ts)
    ensures Values(MoveRight(ts, i, p)) == MoveRight(Values(ts), i, p)
    ensures Refs(MoveRight(ts, i, p)) == MoveRight(Refs(ts), i, p)
  {
    var m := MoveRight(ts, i, p);
    forall a, b | 0 <= a < b < |m| ensures Nodes(m[a]) !! Nodes(m[b]) {
      Apart(ts, MovedFrom(i, p, a), MovedFrom(i, p, b));
    }
    MovedValues(ts, i, p);
    MovedRefs(ts, i, p);
  }

  lemma MovedValues(ts: seq<Shape>, i: nat, p: nat)
    requires i <= p < |ts|
    ensures Values(MoveRight(ts, i, p)) == MoveRight(Values(ts), i, p)
  {
    var m := MoveRight(ts, i, p);
    assert |Values(m)| == |MoveRight(Values(ts), i, p)|;
    forall j | 0 <= j < |m| ensures Values(m)[j] == MoveRight(Values(ts), i, p)[j] {
      MovedAt(ts, i, p, j);
    }
  }

  lemma MovedRefs(ts: seq<Shape>, i: nat, p: nat)
    requires i <= p < |ts|
    ensures Refs(MoveRight(ts, i, p)) == MoveRight(Refs(ts), i, p)
  {
    var m := MoveRight(ts, i, p);
    assert |Refs(m)| == |MoveRight(Refs(ts), i, p)|;
    forall j | 0 <= j < |m| ensures Refs(m)[j] == MoveRight(Refs(ts), i, p)[j] {
      MovedAt(ts, i, p, j);
    }
  }

  lemma MovedAt(ts: seq<Shape>, i: nat, p: nat, j: nat)
    requires i <= p < |ts| && j < |ts|
    ensures Values(MoveRight(ts, i, p))[j] == MoveRight(Values(ts), i, p)[j]
    ensures Refs(MoveRight(ts, i, p))[j] == MoveRight(Refs(ts), i, p)[j]
  {
    assert MoveRight(ts, i, p)[j] == ts[MovedFrom(i, p, j)];
  }

  lemma Apart(ts: seq<Shape>, a: nat, b: nat)
    requires a < |ts| && b < |ts| && a != b && IsForest(ts)
    ensures Nodes(ts[a]) !! Nodes(ts[b])
  {
    if a < b {
      assert Nodes(ts[a]) !! Nodes(ts[b]);
    } else {
      assert Nodes(ts[b]) !! Nodes(ts[a]);
    }
  }

  // The body of the loop of update_dict, for one key.

  function MergeKey(r: Rules, m: map<string, Json>, k: string, v: Json): map<string, Json> {
    if k in r.ids then m else if k !in m then m[k := v] else m[k := MergeValue(r, m[k], v)]
  }

  ghost predicate KeyRaises(r: Rules, m: map<string, Json>, k: string, v: Json) {
    if k in r.ids then k !in m else k in m && ValueRaises(r, m[k], v)
  }

  method UpdateKey(r: Rules, base: Dict, k: string, v: Val, ghost t: Shape, ghost s: Shape)
    returns (ok: bool, ghost t': Shape)
    requires Ref(t) == DictRef(base) && Ref(s) == v
    requires Live(t) && Live(s) && Nodes(t) !! Nodes(s)
    modifies Nodes(t) + Nodes(s)
    ensures ok <==> !KeyRaises(r, Fields(t), k, Value(s))
    ensures ok ==> GrownFrom(t', t, s) && t'.DictShape? && Fields(t') == MergeKey(r, Fields(t), k, Value(s))
    decreases s, 6
  {
    t', ok := t, true;
    if k in r.ids {
      ok := k in base.fields;
    } else if k !in base.fields {
      t' := SetKey(base, k, v, t, s, s);
    } else {
      ok, t' := UpdatePresentKey(r, base, k, v, t, s);
    }
  }

  /** base[key] = v, where `kid` is the tree that `v` refers to. */
  method SetKey(base: Dict, k: string, v: Val, ghost t: Shape, ghost kid: Shape, ghost s: Shape)
      returns (ghost t': Shape)
    requires Ref(t) == DictRef(base) && Ref(kid) == v && IsTree(t) && Live(kid) && Nodes(t) !! Nodes(s)
    requires FitsSlot(t, k, kid, s) && OthersHold(t, k)
    modifies base
    ensures GrownFrom(t', t, s) && t'.DictShape? && Fields(t') == Fields(t)[k := Value(kid)]
  {
    assert base in Nodes(t);
    assert allocated(Nodes(t)) && allocated(Nodes(kid));
    SlotIsApart(t, k, kid, s);
    AssignKey(base, k, v, t, kid);
    t' := DictShape(base, t.kids[k := kid]);
    SetKid(t, k, kid);
    SlotNodes(t, k, kid, s);
  }

  method AssignKey(base: Dict, k: string, v: Val, ghost t: Shape, ghost kid: Shape)
    requires Ref(t) == DictRef(base) && Ref(kid) == v && Holds(kid) && base !in Nodes(kid)
    requires OthersHold(t, k) && forall k' :: k' in t.kids && k' != k ==> base !in Nodes(t.kids[k'])
    modifies base
    ensures Holds(DictShape(base, t.kids[k := kid]))
  {
    assert allocated(Nodes(t)) && allocated(Nodes(kid));
    base.fields := base.fields[k := v];
    KidsHold(base, t.kids, k, kid);
  }

  /** `kid` is made of what was below key `k`, and of parts of the template. */
  ghost predicate FitsSlot(t: Shape, k: string, kid: Shape, s: Shape)
    requires t.DictShape?
  {
    Nodes(kid) <= (if k in t.kids then Nodes(t.kids[k]) else {}) + Nodes(s)
  }

  lemma SlotIsApart(t: Shape, k: string, kid: Shape, s: Shape)
    requires t.DictShape? && IsTree(t) && Nodes(t) !! Nodes(s) && FitsSlot(t, k, kid, s)
    ensures t.dict !in Nodes(kid)
    ensures forall k' :: k' in t.kids && k' != k ==> Nodes(t.kids[k']) !! Nodes(kid) && t.dict !in Nodes(t.kids[k'])
  {
  }

  lemma SlotNodes(t: Shape, k: string, kid: Shape, s: Shape)
    requires t.DictShape? && FitsSlot(t, k, kid, s)
    ensures Nodes(t) + Nodes(kid) <= Nodes(t) + Nodes(s)
  {
  }

  /** The heap has shape `t`, except perhaps below key `k`. */
  ghost predicate OthersHold(t: Shape, k: string)
    requires t.DictShape?
    reads Nodes(t)
  {
    && t.dict.fields.Keys == t.kids.Keys
    && forall k' :: k' in t.kids && k' != k ==> Holds(t.kids[k']) && t.dict.fields[k'] == Ref(t.kids[k'])
  }

  method UpdatePresentKey(r: Rules, base: Dict, k: string, v: Val, ghost t: Shape, ghost s: Shape)
    returns (ok: bool, ghost t': Shape)
    requires Ref(t) == DictRef(base) && Ref(s) == v && k in t.kids
    requires Live(t) && Live(s) && Nodes(t) !! Nodes(s)
    modifies Nodes(t) + Nodes(s)
    ensures ok <==> !ValueRaises(r, Value(t.kids[k]), Value(s))
    ensures ok ==>
        GrownFrom(t', t, s) && t'.DictShape? && Fields(t') == Fields(t)[k := MergeValue(r, Value(t.kids[k]), Value(s))]
    decreases s, 5
  {
    ghost var kid := t.kids[k];
    ghost var kid';
    var slot;
    t' := t;
    KidOf(t, k);
    assert allocated(Nodes(t));
    ok, slot, kid' := UpdateSlot(r, base.fields[k], v, kid, s);
    if ok {
      forall k' | k' in t.kids && k' != k ensures Holds(t.kids[k']) {
        assert Nodes(t.kids[k']) !! Nodes(kid) + Nodes(s);
      }
      t' := SetKey(base, k, slot, t, kid', s);
    }
  }

  /** What a slot of the base that already has a value holds afterwards: the same object,
      updated, or the template's value. */
  method UpdateSlot(r: Rules, slot: Val, v: Val, ghost t: Shape, ghost s: Shape)
    returns (ok: bool, slot': Val, ghost t': Shape)
    requires Ref(t) == slot && Ref(s) == v
    requires Live(t) && Live(s) && Nodes(t) !! Nodes(s)
    modifies Nodes(t) + Nodes(s)
    ensures ok <==> !ValueRaises(r, Value(t), Value(s))
    ensures ok ==> slot' == Ref(t') && Live(t') && Nodes(t') <= Nodes(t) + Nodes(s)
    ensures ok ==> Value(t') == MergeValue(r, Value(t), Value(s))
    decreases s, 4
  {
    var handled;
    slot' := slot;
    handled, ok, t' := UpdateObject(r, slot, v, t, s);
    if !handled && slot != v {
      slot', t' := v, s;
    }
  }

  lemma KidsHold(d: Dict, kids: map<string, Shape>, k: string, kid: Shape)
    requires Holds(kid)
    requires d.fields.Keys == kids.Keys + {k} && d.fields[k] == Ref(kid)
    requires forall k' :: k' in kids && k' != k ==> Holds(kids[k']) && d.fields[k'] == Ref(kids[k'])
    ensures Holds(DictShape(d, kids[k := kid]))
  {
  }

  // merge_templates.

  /** Merges disjoint template trees into a new dictionary: the tree that results stands
      for the merge of the values the templates stood for at the start. */
  method MergeAll(r: Rules, templates: seq<Val>, ghost ts: seq<Shape>)
    returns (ok: bool, merged: Dict, ghost t: Shape)
    requires templates == Refs(ts) && IsForest(ts) && HoldAll(ts)
    modifies NodesOf(ts)
    ensures ok <==> !TemplatesRaise(r, map[], Values(ts))
    ensures ok ==> Live(t) && Ref(t) == DictRef(merged) && fresh(merged)
    ensures ok ==> Fields(t) == MergeTemplates(r, Values(ts))
  {
    assert allocated(NodesOf(ts));
    ghost var values := Values(ts);
    merged := new Dict();
    t := DictShape(merged, map[]);
    ok := true;
    var i := 0;
    assert forall j :: 0 <= j < |ts| ==> Holds(ts[j]) && Nodes(ts[j]) !! Nodes(t);
    assert values[..0] == [] && Fields(t) == map[];
    while ok && i < |templates|
      invariant i <= |ts| == |values|
      invariant ok ==>
          AllPending(ts, i, t) && Live(t) && Ref(t) == DictRef(merged) && Nodes(t) <= {merged} + NodesOf(ts)
      invariant ok ==> Fields(t) == MergeFrom(r, map[], values[..i])
      invariant ok <==> !TemplatesRaise(r, map[], values[..i])
    {
      MergeOneMoreTemplate(r, values, i);
      ok, t := TakeTemplate(r, merged, templates[i], i, t, ts);
      i := i + 1;
    }
    TemplatesTaken(r, values, i);
  }

  method TakeTemplate(r: Rules, merged: Dict, template: Val, i: nat, ghost t: Shape, ghost ts: seq<Shape>)
    returns (ok: bool, ghost t': Shape)
    requires Ref(t) == DictRef(merged) && Live(t) && i < |ts| && template == Ref(ts[i])
    requires IsForest(ts) && AllPending(ts, i, t)
    modifies Nodes(t) + NodesOf(ts)
    ensures ok <==> !(ts[i].DictShape? && FieldsRaise(r, Fields(t), Fields(ts[i])))
    ensures ok ==> GrownFrom(t', t, ts[i]) && t'.DictShape? && Fields(t') == MergeTemplate(r, Fields(t), Value(ts[i]))
    ensures ok ==> AllPending(ts, i + 1, t')
  {
    assert allocated(NodesOf(ts)) && allocated(Nodes(t));
    var handled;
    handled, ok, t' := UpdateObject(r, DictRef(merged), template, t, ts[i]);
    forall j | i + 1 <= j < |ts| ensures Holds(ts[j]) && Nodes(ts[j]) !! Nodes(t) + Nodes(ts[i]) {
      Apart(ts, i, j);
    }
  }

  ghost predicate AllPending(ts: seq<Shape>, i: nat, t: Shape)
    reads NodesOf(ts)
  {
    forall j :: i <= j < |ts| ==> Holds(ts[j]) && Nodes(ts[j]) !! Nodes(t)
  }

  lemma MergeOneMoreTemplate(r: Rules, ts: seq<Json>, i: nat)
    requires i < |ts|
    ensures MergeFrom(r, map[], ts[..i + 1]) == MergeTemplate(r, MergeFrom(r, map[], ts[..i]), ts[i])
    ensures TemplatesRaise(r, map[], ts[..i + 1]) <==>
            || TemplatesRaise(r, map[], ts[..i])
            || (ts[i].Obj? && FieldsRaise(r, MergeFrom(r, map[], ts[..i]), ts[i].fields))
  {
    assert ts[..i + 1][..i] == ts[..i];
  }

  /** A merge that raises part of the way raises. */
  lemma {:induction false} TemplatesTaken(r: Rules, ts: seq<Json>, i: nat)
    requires i <= |ts|
    ensures i == |ts| ==> ts[..i] == ts
    ensures TemplatesRaise(r, map[], ts[..i]) ==> TemplatesRaise(r, map[], ts)
    decreases |ts| - i
  {
    if i == |ts| {
      assert ts[..i] == ts;
    } else {
      MergeOneMoreTemplate(r, ts, i);
      TemplatesTaken(r, ts, i + 1);
    }
  }
}
