/** Stable insertion sort under a caller-supplied order, and the facts about it
    that make sorting canonical: what it returns depends only on the multiset of
    its input when the order is a total order. */
module Sorting {

  ghost predicate TotalPreorder<T(!new)>(le: (T, T) -> bool) {
    && (forall a, b :: le(a, b) || le(b, a))
    && (forall a, b, c :: le(a, b) && le(b, c) ==> le(a, c))
  }

  ghost predicate TotalOrder<T(!new)>(le: (T, T) -> bool) {
    TotalPreorder(le) && forall a, b :: le(a, b) && le(b, a) ==> a == b
  }

  ghost predicate SortedBy<T>(s: seq<T>, le: (T, T) -> bool) {
    forall i, j :: 0 <= i < j < |s| ==> le(s[i], s[j])
  }

  /** Sequences compare element by element, and a prefix comes first. */
  predicate LexLe<T(==)>(a: seq<T>, b: seq<T>, le: (T, T) -> bool) {
    a == [] || (b != [] && if a[0] == b[0] then LexLe(a[1..], b[1..], le) else le(a[0], b[0]))
  }

  lemma {:induction false} LexLeIsTotal<T(!new)>(a: seq<T>, b: seq<T>, le: (T, T) -> bool)
    requires TotalOrder(le)
    ensures LexLe(a, b, le) || LexLe(b, a, le)
    ensures LexLe(a, b, le) && LexLe(b, a, le) ==> a == b
  {
    if a != [] && b != [] && a[0] == b[0] {
      LexLeIsTotal(a[1..], b[1..], le);
      assert a == [a[0]] + a[1..] && b == [b[0]] + b[1..];
    }
  }

  lemma {:induction false} LexLeIsTransitive<T(!new)>(a: seq<T>, b: seq<T>, c: seq<T>, le: (T, T) -> bool)
    requires TotalOrder(le) && LexLe(a, b, le) && LexLe(b, c, le)
    ensures LexLe(a, c, le)
  {
    if a != [] && a[0] == b[0] == c[0] {
      LexLeIsTransitive(a[1..], b[1..], c[1..], le);
    }
  }

  /** The first position at which both have an element and the elements differ. */
  ghost predicate DifferFirst<T>(a: seq<T>, b: seq<T>, i: int) {
    0 <= i < |a| && i < |b| && a[i] != b[i] && forall j :: 0 <= j < i ==> a[j] == b[j]
  }

  /** `a` is a prefix of `b`, or the smaller one where they first differ. */
  lemma {:induction false} LexLeIs<T>(a: seq<T>, b: seq<T>, le: (T, T) -> bool)
    ensures LexLe(a, b, le) <==> a <= b || exists i :: DifferFirst(a, b, i) && le(a[i], b[i])
  {
    if a != [] && b != [] {
      if a[0] != b[0] {
        assert DifferFirst(a, b, 0);
      } else {
        var s, t := a[1..], b[1..];
        LexLeIs(s, t, le);
        assert a == [a[0]] + s && b == [b[0]] + t;
        forall i ensures DifferFirst(a, b, i) <==> DifferFirst(s, t, i - 1) {
          LaterDifference(a, b, i);
        }
        if i :| DifferFirst(s, t, i) && le(s[i], t[i]) {
          assert DifferFirst(a, b, i + 1);
        }
      }
    }
  }

  lemma LaterDifference<T>(a: seq<T>, b: seq<T>, i: int)
    requires a != [] && b != [] && a[0] == b[0]
    ensures DifferFirst(a, b, i) <==> DifferFirst(a[1..], b[1..], i - 1)
  {
    if DifferFirst(a[1..], b[1..], i - 1) {
      forall j | 0 <= j < i ensures a[j] == b[j] {
        assert j > 0 ==> a[1..][j - 1] == b[1..][j - 1];
      }
    }
  }

  predicate IntLe(a: int, b: int) {
    a <= b
  }

  /** Numbers compared one by one, as native `<` compares them; a prefix comes first. */
  ghost predicate NumbersInOrder(a: seq<int>, b: seq<int>) {
    a <= b || exists i :: DifferFirst(a, b, i) && a[i] < b[i]
  }

  lemma IntLeIs(a: seq<int>, b: seq<int>)
    ensures LexLe(a, b, IntLe) <==> NumbersInOrder(a, b)
  {
    LexLeIs(a, b, IntLe);
  }

  predicate CharLe(a: char, b: char) {
    a <= b
  }

  predicate StringLe(a: string, b: string) {
    LexLe(a, b, CharLe)
  }

  /** Texts compared character by character, as native `<` compares them; a prefix comes first. */
  ghost predicate TextInOrder(a: string, b: string) {
    a <= b || exists i :: DifferFirst(a, b, i) && a[i] < b[i]
  }

  lemma StringLeIs(a: string, b: string)
    ensures StringLe(a, b) <==> TextInOrder(a, b)
  {
    LexLeIs(a, b, CharLe);
  }

  lemma StringLeOrders()
    ensures TotalOrder(StringLe)
  {
    forall a, b ensures (StringLe(a, b) || StringLe(b, a)) && (StringLe(a, b) && StringLe(b, a) ==> a == b) {
      LexLeIsTotal(a, b, CharLe);
    }
    forall a, b, c | StringLe(a, b) && StringLe(b, c) ensures StringLe(a, c) {
      LexLeIsTransitive(a, b, c, CharLe);
    }
  }

  /** Inserts `x` before the first element that is not smaller, so that sorting is stable. */
  function Insert<T>(x: T, s: seq<T>, le: (T, T) -> bool): (r: seq<T>)
    ensures |r| == |s| + 1
  {
    if s == [] || le(x, s[0]) then [x] + s else [s[0]] + Insert(x, s[1..], le)
  }

  function Sort<T>(s: seq<T>, le: (T, T) -> bool): (r: seq<T>)
    ensures |r| == |s|
  {
    if s == [] then [] else Insert(s[0], Sort(s[1..], le), le)
  }

  lemma {:induction false} InsertIsSorted<T(!new)>(x: T, s: seq<T>, le: (T, T) -> bool)
    requires TotalPreorder(le) && SortedBy(s, le)
    ensures SortedBy(Insert(x, s, le), le)
    ensures multiset(Insert(x, s, le)) == multiset(s) + multiset{x}
  {
    if s == [] {
    } else if le(x, s[0]) {
    } else {
      InsertIsSorted(x, s[1..], le);
      var rest := Insert(x, s[1..], le);
      assert s == [s[0]] + s[1..];
      forall j | 0 <= j < |rest| ensures le(s[0], rest[j]) {
        assert rest[j] in multiset(rest);
        assert rest[j] in multiset(s[1..]) || rest[j] == x;
      }
    }
  }

  lemma {:induction false} SortSorts<T(!new)>(s: seq<T>, le: (T, T) -> bool)
    requires TotalPreorder(le)
    ensures SortedBy(Sort(s, le), le)
    ensures multiset(Sort(s, le)) == multiset(s)
  {
    if s == [] {
    } else {
      SortSorts(s[1..], le);
      InsertIsSorted(s[0], Sort(s[1..], le), le);
      assert s == [s[0]] + s[1..];
    }
  }

  lemma SameFirst<T(!new)>(a: seq<T>, b: seq<T>, le: (T, T) -> bool)
    requires TotalOrder(le) && SortedBy(a, le) && SortedBy(b, le)
    requires a != [] && b != [] && multiset(a) == multiset(b)
    ensures a[0] == b[0]
  {
    assert a[0] in multiset(b) && b[0] in multiset(a);
    var i :| 0 <= i < |b| && b[i] == a[0];
    var j :| 0 <= j < |a| && a[j] == b[0];
    assert le(b[0], b[i]) && le(a[0], a[j]);
  }

  lemma SameRest<T>(a: seq<T>, b: seq<T>)
    requires a != [] && b != [] && a[0] == b[0] && multiset(a) == multiset(b)
    ensures multiset(a[1..]) == multiset(b[1..])
  {
    assert a == [a[0]] + a[1..] && b == [b[0]] + b[1..];
    assert multiset(a[1..]) == multiset(a) - multiset{a[0]};
    assert multiset(b[1..]) == multiset(b) - multiset{b[0]};
  }

  lemma {:induction false} SortedIsUnique<T(!new)>(a: seq<T>, b: seq<T>, le: (T, T) -> bool)
    requires TotalOrder(le) && SortedBy(a, le) && SortedBy(b, le)
    requires multiset(a) == multiset(b)
    ensures a == b
  {
    assert |a| == |multiset(a)| == |b|;
    if a != [] {
      SameFirst(a, b, le);
      SameRest(a, b);
      SortedIsUnique(a[1..], b[1..], le);
      assert a == [a[0]] + a[1..] && b == [b[0]] + b[1..];
    }
  }

  /** Sorting forgets the order of its input. */
  lemma SortIsCanonical<T(!new)>(a: seq<T>, b: seq<T>, le: (T, T) -> bool)
    requires TotalOrder(le) && multiset(a) == multiset(b)
    ensures Sort(a, le) == Sort(b, le)
  {
    SortSorts(a, le);
    SortSorts(b, le);
    SortedIsUnique(Sort(a, le), Sort(b, le), le);
  }

  /** Where `Insert` puts its element: an in-place sort moves the element there. */
  function InsertPosition<T>(x: T, s: seq<T>, le: (T, T) -> bool): (p: nat)
    ensures p <= |s| && Insert(x, s, le) == s[..p] + [x] + s[p..]
  {
    if s == [] || le(x, s[0]) then 0
    else
      var q := InsertPosition(x, s[1..], le);
      InsertsLater(x, s, q, le);
      1 + q
  }

  lemma InsertsLater<T>(x: T, s: seq<T>, q: nat, le: (T, T) -> bool)
    requires s != [] && !le(x, s[0]) && q < |s|
    requires Insert(x, s[1..], le) == s[1..][..q] + [x] + s[1..][q..]
    ensures Insert(x, s, le) == s[..1 + q] + [x] + s[1 + q..]
  {
    SplitsLater(s, q);
    Regroups([s[0]], s[1..][..q], [x], s[1..][q..]);
  }

  lemma SplitsLater<T>(s: seq<T>, q: nat)
    requires q < |s|
    ensures s[..1 + q] == [s[0]] + s[1..][..q] && s[1 + q..] == s[1..][q..]
  {
  }

  lemma Regroups<T>(a: seq<T>, b: seq<T>, c: seq<T>, d: seq<T>)
    ensures a + (b + c + d) == (a + b) + c + d
  {
  }

  /** `s` with its element `i` moved right to position `p`. */
  function MoveRight<T>(s: seq<T>, i: nat, p: nat): (m: seq<T>)
    requires i <= p < |s|
    ensures |m| == |s| && forall j :: 0 <= j < |s| ==> m[j] == s[MovedFrom(i, p, j)]
  {
    seq(|s|, j requires 0 <= j < |s| => s[MovedFrom(i, p, j)])
  }

  function MovedFrom(i: nat, p: nat, j: nat): nat {
    if j < i || p < j then j else if j == p then i else j + 1
  }

  /** Where element `i` belongs among the elements to its right. */
  function Target<T>(s: seq<T>, i: nat, le: (T, T) -> bool): (p: nat)
    requires i < |s|
    ensures i <= p < |s|
  {
    i + InsertPosition(s[i], s[i + 1..], le)
  }

  /** One round of an in-place insertion sort that works from the right: everything
      from `i + 1` on is sorted, and element `i` moves to its place. */
  lemma InsertionStep<T>(s: seq<T>, orig: seq<T>, i: nat, le: (T, T) -> bool)
    requires i < |orig| && s == orig[..i + 1] + Sort(orig[i + 1..], le)
    ensures MoveRight(s, i, Target(s, i, le)) == orig[..i] + Sort(orig[i..], le)
  {
    var x, tail := orig[i], Sort(orig[i + 1..], le);
    assert s[i] == x && s[i + 1..] == tail;
    var q := InsertPosition(x, tail, le);
    assert orig[i..] == [x] + orig[i + 1..];
    assert Sort(orig[i..], le) == tail[..q] + [x] + tail[q..];
    assert s == orig[..i] + [x] + tail;
    MoveRightSplits(orig[..i], x, tail, q);
  }

  lemma MoveRightSplits<T>(a: seq<T>, x: T, tail: seq<T>, q: nat)
    requires q <= |tail|
    ensures MoveRight(a + [x] + tail, |a|, |a| + q) == a + (tail[..q] + [x] + tail[q..])
  {
  }
}
