/** From templates as values to their merge as a value, by way of the heap: each template is
    built as a tree of new objects, the trees are merged in place, and the result is read. */
module Loading {
  import opened Json
  import opened Merge
  import opened ObjectTrees
  import opened MergeInPlace

  /** Builds the objects for a value, as json.loads does: no object is used twice. */
  method LoadValue(j: Json) returns (v: Val, ghost t: Shape)
    ensures Ref(t) == v && Live(t) && Value(t) == j && fresh(Nodes(t))
    decreases j, 2
  {
    match j {
      case Leaf(s) =>
        v, t := Prim(s), Atom(s);
      case Obj(m) =>
        var d;
        d, t := LoadFields(m);
        v := DictRef(d);
      case Arr(s) =>
        var l;
        l, t := LoadItems(s);
        v := ListRef(l);
    }
  }

  method LoadFields(m: map<string, Json>) returns (d: Dict, ghost t: Shape)
    ensures Ref(t) == DictRef(d) && Live(t) && Fields(t) == m && fresh(Nodes(t))
    decreases Obj(m), 1
  {
    d := new Dict();
    t := DictShape(d, map[]);
    EmptyDict(d);
    var todo := m.Keys;
    assert Fields(t) == Except(m, todo);
    while todo != {}
      invariant todo <= m.Keys && Ref(t) == DictRef(d) && Live(t) && fresh(Nodes(t)) && Fields(t) == Except(m, todo)
      decreases |todo|
    {
      var k :| k in todo;
      t := LoadField(d, m, k, t);
      ExceptOneLess(m, todo, k);
      todo := todo - {k};
    }
    assert Except(m, {}) == m;
  }

  lemma EmptyDict(d: Dict)
    requires d.fields == map[]
    ensures Live(DictShape(d, map[])) && Fields(DictShape(d, map[])) == map[] && Nodes(DictShape(d, map[])) == {d}
  {
  }

  ghost function Except(m: map<string, Json>, todo: set<string>): map<string, Json> {
    m - todo
  }

  lemma ExceptOneLess(m: map<string, Json>, todo: set<string>, k: string)
    requires k in todo && k in m
    ensures Except(m, todo - {k}) == Except(m, todo)[k := m[k]]
  {
  }

  method LoadField(d: Dict, m: map<string, Json>, k: string, ghost t: Shape) returns (ghost t': Shape)
    requires Ref(t) == DictRef(d) && Live(t) && k in m && k !in t.kids
    modifies d
    ensures Ref(t') == DictRef(d) && Live(t') && Fields(t') == Fields(t)[k := m[k]]
    ensures forall o :: o in Nodes(t') ==> o in Nodes(t) || fresh(o)
    decreases Obj(m), 0
  {
    assert allocated(Nodes(t)) && d in Nodes(t);
    var v;
    ghost var kid;
    v, kid := LoadValue(m[k]);
    t' := SetKey(d, k, v, t, kid, kid);
  }

  ghost predicate Loaded(l: List, t: Shape, done: seq<Json>)
    reads Nodes(t)
  {
    Ref(t) == ListRef(l) && Live(t) && Values(t.elems) == done
  }

  method LoadItems(s: seq<Json>) returns (l: List, ghost t: Shape)
    ensures Loaded(l, t, s) && fresh(Nodes(t))
    decreases s, 1
  {
    l := new List();
    t := ListShape(l, []);
    EmptyList(l);
    for i := 0 to |s|
      invariant Loaded(l, t, s[..i]) && fresh(Nodes(t))
    {
      t := LoadItem(l, s, i, t);
    }
    assert s[..|s|] == s;
  }

  lemma EmptyList(l: List)
    requires l.items == []
    ensures Loaded(l, ListShape(l, []), []) && Nodes(ListShape(l, [])) == {l}
  {
    assert IsForest([]) && HoldAll([]) && NodesOf([]) == {};
  }

  method LoadItem(l: List, s: seq<Json>, i: nat, ghost t: Shape) returns (ghost t': Shape)
    requires i < |s| && Loaded(l, t, s[..i])
    modifies l
    ensures Loaded(l, t', s[..i + 1])
    ensures forall o :: o in Nodes(t') ==> o in Nodes(t) || fresh(o)
    decreases s, 0
  {
    assert allocated(Nodes(t));
    var v;
    ghost var elem;
    v, elem := LoadValue(s[i]);
    assert Loaded(l, t, s[..i]) && Nodes(t) !! Nodes(elem);
    assert s[..i + 1] == s[..i] + [s[i]];
    t' := AppendItem(l, v, t, elem);
  }

  ghost predicate Forest(vs: seq<Val>, ts: seq<Shape>, js: seq<Json>)
    reads NodesOf(ts)
  {
    vs == Refs(ts) && IsForest(ts) && HoldAll(ts) && Values(ts) == js
  }

  method LoadAll(js: seq<Json>) returns (vs: seq<Val>, ghost ts: seq<Shape>)
    ensures Forest(vs, ts, js) && fresh(NodesOf(ts))
  {
    vs, ts := [], [];
    for i := 0 to |js|
      invariant Forest(vs, ts, js[..i]) && fresh(NodesOf(ts))
    {
      vs, ts := LoadOneMore(js, i, vs, ts);
    }
    assert js[..|js|] == js;
  }

  method LoadOneMore(js: seq<Json>, i: nat, vs: seq<Val>, ghost ts: seq<Shape>)
    returns (vs': seq<Val>, ghost ts': seq<Shape>)
    requires i < |js| && Forest(vs, ts, js[..i])
    ensures Forest(vs', ts', js[..i + 1])
    ensures forall o :: o in NodesOf(ts') ==> o in NodesOf(ts) || fresh(o)
  {
    assert allocated(NodesOf(ts));
    var v;
    ghost var t;
    v, t := LoadValue(js[i]);
    OneMoreTree(ts, t);
    vs', ts' := vs + [v], ts + [t];
    assert js[..i + 1] == js[..i] + [js[i]];
  }

  lemma OneMoreTree(ts: seq<Shape>, t: Shape)
    requires IsForest(ts) && HoldAll(ts) && Live(t) && NodesOf(ts) !! Nodes(t)
    ensures IsForest(ts + [t]) && HoldAll(ts + [t]) && NodesOf(ts + [t]) <= NodesOf(ts) + Nodes(t)
    ensures Refs(ts + [t]) == Refs(ts) + [Ref(t)] && Values(ts + [t]) == Values(ts) + [Value(t)]
  {
  }

  /** The templates loaded, merged in place and read back: what the merge of their values is,
      and an error exactly when that raises. */
  method MergeLoaded(r: Rules, templates: seq<Json>) returns (ok: bool, merged: map<string, Json>)
    ensures ok <==> !TemplatesRaise(r, map[], templates)
    ensures ok ==> merged == MergeTemplates(r, templates)
  {
    merged := map[];
    var vs;
    ghost var ts;
    vs, ts := LoadAll(templates);
    var d;
    ghost var t;
    ok, d, t := MergeAll(r, vs, ts);
    if ok {
      merged := ReadFields(d, t);
    }
  }
}
