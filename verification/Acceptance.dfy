/** When a merge raises: an exact condition on what it finds in the base. */
module Acceptance {
  import opened Json
  import opened Merge
  import opened KeyedLists
  import opened MergeLaws

  /** Where an object of the template meets one of the base, the base has its identity
      attributes; where a list with identities meets one of the base, every element there
      has the attribute that identifies its elements; and so on below. The base may have any
      other identities, several of them or twice the same. */
  ghost predicate Accepts(r: Rules, base: Json, template: Json)
    decreases template
  {
    match (base, template)
    case (Obj(a), Obj(b)) =>
      && (forall k :: k in r.ids && k in b ==> k in a)
      && forall k :: k in a && k in b && k !in r.ids ==> Accepts(r, a[k], b[k])
    case (Arr(a), Arr(b)) =>
      ListAttr(r, b).Some? ==>
        var attr := ListAttr(r, b).value;
        HaveId(a, attr) &&
        forall id :: At(a, attr, id).Some? && At(b, attr, id).Some? ==>
          Accepts(r, At(a, attr, id).value, At(b, attr, id).value)
    case (_, _) => true
  }

  /** Merging a well-formed template raises exactly when the base does not accept it. */
  lemma {:induction false} RaisesExactlyWhenNotAccepted(r: Rules, base: Json, template: Json)
    requires WellFormed(r, template)
    ensures ValueRaises(r, base, template) <==> !Accepts(r, base, template)
    decreases template, 1
  {
    if base.Obj? && template.Obj? {
      FieldsRaiseExactly(r, base.fields, template.fields);
    } else if base.Arr? && template.Arr? {
      ListsRaiseExactly(r, base.items, template.items);
    }
  }

  lemma {:induction false} FieldsRaiseExactly(r: Rules, base: map<string, Json>, template: map<string, Json>)
    requires WellFormed(r, Obj(template))
    ensures FieldsRaise(r, base, template) <==> !Accepts(r, Obj(base), Obj(template))
    decreases Obj(template), 0
  {
    forall k | k in template
      ensures FieldRaises(r, base, template, k) <==>
              if k in r.ids then k !in base else k in base && !Accepts(r, base[k], template[k])
    {
      if k in base && k !in r.ids {
        RaisesExactlyWhenNotAccepted(r, base[k], template[k]);
      }
    }
  }

  lemma {:induction false} ListsRaiseExactly(r: Rules, base: seq<Json>, template: seq<Json>)
    requires WellFormed(r, Arr(template))
    ensures ItemsRaise(r, base, template) <==> !Accepts(r, Arr(base), Arr(template))
    decreases Arr(template), 0
  {
    match ListAttr(r, template)
    case None =>
      BagDoesNotRaise(r, base, template);
    case Some(attr) =>
      if HaveId(base, attr) {
        ItemsRaiseExactly(r, base, template, attr);
        forall id | At(base, attr, id).Some? && At(template, attr, id).Some?
          ensures NamesakesRaise(r, base, template, attr, id) <==>
                  !Accepts(r, At(base, attr, id).value, At(template, attr, id).value)
        {
          RaisesExactlyWhenNotAccepted(r, At(base, attr, id).value, At(template, attr, id).value);
        }
      } else {
        FirstItemRaises(r, base, template);
      }
  }

  /** One item, of whatever kind: it raises exactly if it has an identity, and the base has an
      element without that attribute, or a first namesake that does not accept the item, or
      one at all while the identity is no string and cannot be put in the breadcrumbs. */
  lemma OneItemRaisesExactly(r: Rules, base: seq<Json>, item: Json)
    ensures ItemsRaise(r, base, [item]) <==>
            && item.Obj? && LeadingId(r.ids, item.fields).Some?
            && var attr := LeadingId(r.ids, item.fields).value;
               || !HaveId(base, attr)
               || exists i :: IsNamesake(base, attr, item.fields[attr], i)
                              && ((forall s :: item.fields[attr] != Leaf(Str(s))) || ValueRaises(r, base[i], item))
  {
    assert [item][..0] == [] && MergeItems(r, base, []) == base;
    assert ItemsRaise(r, base, [item]) <==> ItemRaises(r, base, item);
    if item.Obj? && LeadingId(r.ids, item.fields).Some? {
      var attr := LeadingId(r.ids, item.fields).value;
      var id := item.fields[attr];
      StringIs(id);
      if HaveId(base, attr) {
        NamesakeIs(base, attr, id);
      }
    }
  }

  /** The first element with the identity. */
  ghost predicate IsNamesake(s: seq<Json>, attr: string, id: Json, i: int)
    requires HaveId(s, attr)
  {
    0 <= i < |s| && s[i].fields[attr] == id && forall j :: 0 <= j < i ==> s[j].fields[attr] != id
  }

  lemma StringIs(id: Json)
    ensures IsString(id) <==> exists s :: id == Leaf(Str(s))
  {
    if IsString(id) {
      assert id == Leaf(Str(id.scalar.s));
    }
  }

  lemma NamesakeIs(s: seq<Json>, attr: string, id: Json)
    requires HaveId(s, attr)
    ensures forall i :: IsNamesake(s, attr, id, i) <==> i == FindNamesake(s, attr, id) && i < |s|
  {
    var n := FindNamesake(s, attr, id);
    assert forall j :: 0 <= j < |s| ==> (HasId(s[j], attr, id) <==> s[j].fields[attr] == id);
  }
}
