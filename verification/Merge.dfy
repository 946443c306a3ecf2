/** JSON values as the template loader parses them. A number is given by how it is written. */
module Json {
  predicate NumeralChar(c: char) {
    '0' <= c <= '9' || c == '+' || c == '-' || c == '.' || c == 'e' || c == 'E'
  }

  predicate IsNumeral(s: string) {
    s != "" && forall i :: 0 <= i < |s| ==> NumeralChar(s[i])
  }

  type Numeral = s: string | IsNumeral(s) witness "0"

  datatype Scalar = Null | Bool(b: bool) | Number(text: Numeral) | Str(s: string)

  datatype Json =
    | Leaf(scalar: Scalar)
    | Obj(fields: map<string, Json>)
    | Arr(items: seq<Json>)
}

/** The recursive template merge of cm_template.py, on values.

    `Rules` carries the two things the merge is parametric in: the list of identity
    attributes, in order of precedence, and the order that the serialised form of a
    value induces on list elements. Every result about the merge holds for any
    identity attributes and any total order. */
module Merge {
  import opened Wrappers
  import opened Json
  import opened Sorting

  const IDEMPOTENT_IDS: seq<string> := ["refName", "name", "clusterName", "hostName", "product"]

  datatype Rules = Rules(ids: seq<string>, le: (Json, Json) -> bool)

  /** The attribute that identifies an object inside a list: the first one it has. */
  function LeadingId<V>(ids: seq<string>, m: map<string, V>): (a: Option<string>)
    ensures a.Some? ==> a.value in ids && a.value in m
    ensures a.None? ==> forall k :: k in ids ==> k !in m
  {
    if ids == [] then None
    else if ids[0] in m then Some(ids[0])
    else LeadingId(ids[1..], m)
  }

  predicate HasId(j: Json, attr: string, id: Json) {
    j.Obj? && attr in j.fields && j.fields[attr] == id
  }

  /** Index of the first element of `s` identified by `id`, or |s|. */
  function FindNamesake(s: seq<Json>, attr: string, id: Json): (i: nat)
    ensures i <= |s| && (i < |s| ==> HasId(s[i], attr, id))
    ensures forall j :: 0 <= j < i ==> !HasId(s[j], attr, id)
  {
    if s == [] then 0
    else if HasId(s[0], attr, id) then 0
    else 1 + FindNamesake(s[1..], attr, id)
  }

  function MergeValue(r: Rules, base: Json, template: Json): Json
    decreases template, 1
  {
    match (base, template)
    case (Obj(bm), Obj(tm)) => Obj(MergeFields(r, bm, tm))
    case (Arr(bs), Arr(ts)) => Arr(MergeLists(r, bs, ts))
    case (_, _) => template
  }

  function MergeFields(r: Rules, base: map<string, Json>, template: map<string, Json>): map<string, Json>
    decreases Obj(template), 0
  {
    map k | k in base.Keys + (template.Keys - set k | k in r.ids) ::
      if k !in template || k in r.ids then base[k]
      else if k !in base then template[k]
      else MergeValue(r, base[k], template[k])
  }

  function MergeLists(r: Rules, base: seq<Json>, template: seq<Json>): seq<Json>
    decreases template, 1
  {
    Sort(MergeItems(r, base, template), r.le)
  }

  function MergeItems(r: Rules, base: seq<Json>, template: seq<Json>): seq<Json>
    decreases template, 0
  {
    if template == [] then base
    else
      var n := |template| - 1;
      MergeItem(r, MergeItems(r, base, template[..n]), template[n])
  }

  function MergeItem(r: Rules, base: seq<Json>, item: Json): seq<Json>
    decreases item, 2
  {
    if item.Obj? && LeadingId(r.ids, item.fields).Some? then
      var attr := LeadingId(r.ids, item.fields).value;
      var i := FindNamesake(base, attr, item.fields[attr]);
      if i < |base| then base[i := Obj(MergeFields(r, base[i].fields, item.fields))] else base + [item]
    else base + [item]
  }

  /** A template that is not an object is ignored, because update_object then reports
      that it did nothing. */
  function MergeTemplate(r: Rules, merged: map<string, Json>, template: Json): map<string, Json> {
    if template.Obj? then MergeFields(r, merged, template.fields) else merged
  }

  /** The loop of merge_templates, from a given starting point. */
  function MergeFrom(r: Rules, base: map<string, Json>, templates: seq<Json>): map<string, Json> {
    if templates == [] then base
    else
      var n := |templates| - 1;
      MergeTemplate(r, MergeFrom(r, base, templates[..n]), templates[n])
  }

  function MergeTemplates(r: Rules, templates: seq<Json>): map<string, Json> {
    MergeFrom(r, map[], templates)
  }

  // When the merge raises: a lookup of an identity attribute in something that lacks
  // it (a KeyError, or a TypeError if that something is not an object), or an identity
  // that is not a string and so cannot be appended to the breadcrumbs.

  ghost predicate ValueRaises(r: Rules, base: Json, template: Json)
    decreases template, 2
  {
    match (base, template)
    case (Obj(bm), Obj(tm)) => FieldsRaise(r, bm, tm)
    case (Arr(bs), Arr(ts)) => ItemsRaise(r, bs, ts)
    case (_, _) => false
  }

  ghost predicate FieldRaises(r: Rules, base: map<string, Json>, template: map<string, Json>, k: string)
    requires k in template
    decreases Obj(template), 0
  {
    if k in r.ids then k !in base else k in base && ValueRaises(r, base[k], template[k])
  }

  ghost predicate FieldsRaise(r: Rules, base: map<string, Json>, template: map<string, Json>)
    decreases Obj(template), 1
  {
    exists k :: k in template && FieldRaises(r, base, template, k)
  }

  ghost predicate ItemsRaise(r: Rules, base: seq<Json>, template: seq<Json>)
    decreases template, 0
  {
    template != [] &&
    var n := |template| - 1;
    ItemsRaise(r, base, template[..n]) || ItemRaises(r, MergeItems(r, base, template[..n]), template[n])
  }

  ghost predicate ItemRaises(r: Rules, base: seq<Json>, item: Json)
    decreases item, 2
  {
    item.Obj? && LeadingId(r.ids, item.fields).Some? &&
    var attr := LeadingId(r.ids, item.fields).value;
    var i := FindNamesake(base, attr, item.fields[attr]);
    || (exists j :: 0 <= j < |base| && !(base[j].Obj? && attr in base[j].fields))
    || (i < |base| && !IsString(item.fields[attr]))
    || (i < |base| && FieldsRaise(r, base[i].fields, item.fields))
  }

  predicate IsString(j: Json) {
    j.Leaf? && j.scalar.Str?
  }

  ghost predicate TemplatesRaise(r: Rules, base: map<string, Json>, templates: seq<Json>) {
    templates != [] &&
    var n := |templates| - 1;
    || TemplatesRaise(r, base, templates[..n])
    || (templates[n].Obj? && FieldsRaise(r, MergeFrom(r, base, templates[..n]), templates[n].fields))
  }
}
