/** Dictionaries and lists as heap objects, the trees they form, and the JSON values
    those trees stand for. */
module ObjectTrees {
  import opened Json

  class Dict {
    var fields: map<string, Val>

    constructor ()
      ensures fields == map[]
    {
      fields := map[];
    }
  }

  class List {
    var items: seq<Val>

    constructor ()
      ensures items == []
    {
      items := [];
    }
  }

  datatype Val = Prim(scalar: Scalar) | DictRef(dict: Dict) | ListRef(list: List)

  /** The tree of objects below a value: which objects it is made of, and how. */
  datatype Shape =
    | Atom(scalar: Scalar)
    | DictShape(dict: Dict, kids: map<string, Shape>)
    | ListShape(list: List, elems: seq<Shape>)

  function Ref(t: Shape): Val {
    match t
    case Atom(s) => Prim(s)
    case DictShape(d, _) => DictRef(d)
    case ListShape(l, _) => ListRef(l)
  }

  function Refs(ts: seq<Shape>): (vs: seq<Val>)
    ensures |vs| == |ts| && forall i :: 0 <= i < |ts| ==> vs[i] == Ref(ts[i])
  {
    seq(|ts|, i requires 0 <= i < |ts| => Ref(ts[i]))
  }

  /** The JSON value that a tree of objects stands for. */
  function Value(t: Shape): Json
    decreases t, 1
  {
    match t
    case Atom(s) => Leaf(s)
    case DictShape(_, _) => Obj(Fields(t))
    case ListShape(_, elems) => Arr(Values(elems))
  }

  function Fields(t: Shape): (m: map<string, Json>)
    requires t.DictShape?
    ensures m.Keys == t.kids.Keys
    decreases t, 0
  {
    map k | k in t.kids :: Value(t.kids[k])
  }

  function Values(ts: seq<Shape>): (s: seq<Json>)
    ensures |s| == |ts| && forall i :: 0 <= i < |ts| ==> s[i] == Value(ts[i])
    decreases ts, 0
  {
    seq(|ts|, i requires 0 <= i < |ts| => Value(ts[i]))
  }

  ghost function Nodes(t: Shape): set<object>
    decreases t, 1
  {
    match t
    case Atom(_) => {}
    case DictShape(d, _) => {d} + NodesOfKids(t)
    case ListShape(l, elems) => {l} + NodesOf(elems)
  }

  ghost function NodesOfKids(t: Shape): (s: set<object>)
    requires t.DictShape?
    ensures forall k :: k in t.kids ==> Nodes(t.kids[k]) <= s
    decreases t, 0
  {
    set k, o | k in t.kids && o in Nodes(t.kids[k]) :: o
  }

  ghost function NodesOf(ts: seq<Shape>): (s: set<object>)
    ensures forall i :: 0 <= i < |ts| ==> Nodes(ts[i]) <= s
    decreases ts, 0
  {
    set i, o | 0 <= i < |ts| && o in Nodes(ts[i]) :: o
  }

  /** No object occurs twice. */
  ghost predicate IsTree(t: Shape)
    decreases t, 1
  {
    match t
    case Atom(_) => true
    case DictShape(d, kids) =>
      && (forall k :: k in kids ==> d !in Nodes(kids[k]) && IsTree(kids[k]))
      && (forall k, k' :: k in kids && k' in kids && k != k' ==> Nodes(kids[k]) !! Nodes(kids[k']))
    case ListShape(l, elems) => l !in NodesOf(elems) && IsForest(elems)
  }

  ghost predicate IsForest(ts: seq<Shape>)
    decreases ts, 0
  {
    && (forall i :: 0 <= i < |ts| ==> IsTree(ts[i]))
    && (forall i, j :: 0 <= i < j < |ts| ==> Nodes(ts[i]) !! Nodes(ts[j]))
  }

  /** The objects in the heap have exactly this shape. */
  ghost predicate Holds(t: Shape)
    reads Nodes(t)
    decreases t, 1
  {
    match t
    case Atom(_) => true
    case DictShape(d, kids) =>
      && d.fields.Keys == kids.Keys
      && forall k :: k in kids ==> d.fields[k] == Ref(kids[k]) && Holds(kids[k])
    case ListShape(l, elems) => l.items == Refs(elems) && HoldAll(elems)
  }

  ghost predicate HoldAll(ts: seq<Shape>)
    reads NodesOf(ts)
    decreases ts, 0
  {
    forall i :: 0 <= i < |ts| ==> Holds(ts[i])
  }

  /** A well-formed object tree in the heap. */
  ghost predicate Live(t: Shape)
    reads Nodes(t)
  {
    IsTree(t) && Holds(t)
  }

  /** `t'` is `t` after something made of `s` was merged into it. */
  ghost predicate GrownFrom(t': Shape, t: Shape, s: Shape)
    reads Nodes(t')
  {
    Live(t') && Ref(t') == Ref(t) && Nodes(t') <= Nodes(t) + Nodes(s)
  }

  lemma KidOf(t: Shape, k: string)
    requires t.DictShape? && Live(t) && k in t.kids
    ensures Live(t.kids[k]) && Nodes(t.kids[k]) <= Nodes(t) && t.dict !in Nodes(t.kids[k])
    ensures t.dict.fields[k] == Ref(t.kids[k])
  {
  }

  lemma ElemOf(t: Shape, i: nat)
    requires t.ListShape? && Live(t) && i < |t.elems|
    ensures Live(t.elems[i]) && Nodes(t.elems[i]) <= Nodes(t) && t.list !in Nodes(t.elems[i])
    ensures t.list.items[i] == Ref(t.elems[i])
    ensures forall j :: 0 <= j < |t.elems| && j != i ==> Nodes(t.elems[j]) !! Nodes(t.elems[i])
  {
    assert HoldAll(t.elems) && IsForest(t.elems);
  }

  lemma SetKid(t: Shape, k: string, s: Shape)
    requires t.DictShape? && IsTree(t) && IsTree(s) && t.dict !in Nodes(s)
    requires forall k' :: k' in t.kids && k' != k ==> Nodes(t.kids[k']) !! Nodes(s)
    ensures IsTree(DictShape(t.dict, t.kids[k := s]))
    ensures Nodes(DictShape(t.dict, t.kids[k := s])) <= Nodes(t) + Nodes(s)
    ensures Fields(DictShape(t.dict, t.kids[k := s])) == Fields(t)[k := Value(s)]
  {
  }

  lemma SetElem(t: Shape, i: nat, s: Shape)
    requires t.ListShape? && IsTree(t) && IsTree(s) && t.list !in Nodes(s) && i < |t.elems|
    requires forall j :: 0 <= j < |t.elems| && j != i ==> Nodes(t.elems[j]) !! Nodes(s)
    ensures IsTree(ListShape(t.list, t.elems[i := s]))
    ensures Nodes(ListShape(t.list, t.elems[i := s])) <= Nodes(t) + Nodes(s)
    ensures Values(t.elems[i := s]) == Values(t.elems)[i := Value(s)]
  {
  }

  lemma AppendElem(t: Shape, s: Shape)
    requires t.ListShape? && IsTree(t) && IsTree(s) && Nodes(t) !! Nodes(s)
    ensures IsTree(ListShape(t.list, t.elems + [s]))
    ensures Nodes(ListShape(t.list, t.elems + [s])) <= Nodes(t) + Nodes(s)
    ensures Values(t.elems + [s]) == Values(t.elems) + [Value(s)]
  {
  }

  /** Reads a tree off the heap, as json.dumps and == do. */
  method ReadValue(v: Val, ghost t: Shape) returns (j: Json)
    requires Ref(t) == v && Holds(t)
    ensures j == Value(t)
    decreases t, 1
  {
    match v {
      case Prim(s) =>
        j := Leaf(s);
      case DictRef(d) =>
        var m := ReadFields(d, t);
        j := Obj(m);
      case ListRef(l) =>
        var s := ReadItems(l, t);
        j := Arr(s);
    }
  }

  method ReadFields(d: Dict, ghost t: Shape) returns (m: map<string, Json>)
    requires t.DictShape? && t.dict == d && Holds(t)
    ensures m == Fields(t)
    decreases t, 0
  {
    m := map[];
    var todo := d.fields.Keys;
    while todo != {}
      invariant Holds(t) && todo <= d.fields.Keys && m.Keys == d.fields.Keys - todo
      invariant forall k :: k in m ==> m[k] == Value(t.kids[k])
      decreases |todo|
    {
      var k :| k in todo;
      assert allocated(Nodes(t));
      var x := ReadValue(d.fields[k], t.kids[k]);
      m, todo := m[k := x], todo - {k};
    }
  }

  method ReadItems(l: List, ghost t: Shape) returns (s: seq<Json>)
    requires t.ListShape? && t.list == l && Holds(t)
    ensures s == Values(t.elems)
    decreases t, 0
  {
    s := [];
    for i := 0 to |l.items|
      invariant Holds(t) && |s| == i
      invariant s == Values(t.elems)[..i]
    {
      assert allocated(Nodes(t));
      var x := ReadValue(l.items[i], t.elems[i]);
      s := s + [x];
    }
  }
}
