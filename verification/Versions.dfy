/** Version strings as cm_template.py compares them: split at dots and dashes, each part
    read as a number, the lists of numbers compared the way Python compares lists. */
module Versions {
  import opened Sorting
  import opened Text

  const UNREADABLE := 999

  predicate IsBlank(c: char) {
    9 <= c as int <= 13 || 28 <= c as int <= 32
  }

  function TrimLeft(s: string): string {
    if s != "" && IsBlank(s[0]) then TrimLeft(s[1..]) else s
  }

  function TrimRight(s: string): string {
    if s != "" && IsBlank(s[|s| - 1]) then TrimRight(s[..|s| - 1]) else s
  }

  /** Digits, possibly grouped by single underscores. */
  predicate IsNumber(s: string) {
    && s != "" && IsDigit(s[0]) && IsDigit(s[|s| - 1])
    && (forall i :: 0 <= i < |s| ==> IsDigit(s[i]) || s[i] == '_')
    && forall i :: 0 < i < |s| ==> s[i] != '_' || s[i - 1] != '_'
  }

  function NumberOf(s: string): nat {
    if s == "" then 0
    else
      var n := |s| - 1;
      if IsDigit(s[n]) then 10 * NumberOf(s[..n]) + (s[n] - '0') as nat else NumberOf(s[..n])
  }

  /** What int makes of a part, or 999. A part has no minus sign, because versions are
      split at dashes. */
  function ToInt(part: string): int {
    var t := TrimRight(TrimLeft(part));
    var u := if t != "" && t[0] == '+' then t[1..] else t;
    if IsNumber(u) then NumberOf(u) else UNREADABLE
  }

  predicate IsSeparator(c: char) {
    c == '-' || c == '.'
  }

  predicate IsPart(s: string) {
    forall c :: c in s ==> !IsSeparator(c)
  }

  /** The parts, after one more character in front. */
  function InFront(c: char, parts: seq<string>): (longer: seq<string>)
    requires parts != []
    ensures longer != []
  {
    if IsSeparator(c) then [""] + parts else [[c] + parts[0]] + parts[1..]
  }

  function Split(s: string): (parts: seq<string>)
    ensures parts != []
  {
    if s == "" then [""] else InFront(s[0], Split(s[1..]))
  }

  function Numbers(parts: seq<string>): (ns: seq<int>)
    ensures |ns| == |parts| && forall i :: 0 <= i < |parts| ==> ns[i] == ToInt(parts[i])
  {
    seq(|parts|, i requires 0 <= i < |parts| => ToInt(parts[i]))
  }

  function ParseVersion(v: string): seq<int> {
    Numbers(Split(v))
  }

  /** Where two lists first differ, or the end of the shorter one. */
  function FirstDifference(a: seq<int>, b: seq<int>): (i: nat)
    ensures i <= |a| && i <= |b| && a[..i] == b[..i]
    ensures i < |a| && i < |b| ==> a[i] != b[i]
  {
    if a == [] || b == [] || a[0] != b[0] then 0
    else
      var i := FirstDifference(a[1..], b[1..]);
      assert a[..i + 1] == [a[0]] + a[1..][..i] && b[..i + 1] == [b[0]] + b[1..][..i];
      i + 1
  }

  /** Python compares lists where they first differ, and by length if one is a prefix. */
  function Deciding(a: seq<int>, b: seq<int>): (int, int) {
    var i := FirstDifference(a, b);
    if i < |a| && i < |b| then (a[i], b[i]) else (|a|, |b|)
  }

  predicate Ge(v: string, w: string) {
    var d := Deciding(ParseVersion(v), ParseVersion(w));
    d.0 >= d.1
  }

  predicate Gt(v: string, w: string) {
    var d := Deciding(ParseVersion(v), ParseVersion(w));
    d.0 > d.1
  }

  predicate Le(v: string, w: string) {
    var d := Deciding(ParseVersion(v), ParseVersion(w));
    d.0 <= d.1
  }

  predicate Lt(v: string, w: string) {
    var d := Deciding(ParseVersion(v), ParseVersion(w));
    d.0 < d.1
  }

  // The comparisons agree with each other and with the lexicographic order.

  lemma {:induction false} DecidingIsLexicographic(a: seq<int>, b: seq<int>)
    ensures Deciding(a, b).0 <= Deciding(a, b).1 <==> LexLe(a, b, IntLe)
    ensures Deciding(a, b).0 == Deciding(a, b).1 <==> a == b
    ensures Deciding(b, a) == (Deciding(a, b).1, Deciding(a, b).0)
  {
    if a != [] && b != [] && a[0] == b[0] {
      DecidingIsLexicographic(a[1..], b[1..]);
      assert a == [a[0]] + a[1..] && b == [b[0]] + b[1..];
    }
  }

  /** ge, gt, le and lt are four views of one total preorder, whose ties are the versions
      with the same numbers. */
  lemma ComparisonsAgree(u: string, v: string, w: string)
    ensures Le(v, w) || Le(w, v)
    ensures Le(u, v) && Le(v, w) ==> Le(u, w)
    ensures Le(v, w) && Le(w, v) <==> ParseVersion(v) == ParseVersion(w)
    ensures (Ge(v, w) <==> Le(w, v)) && (Gt(v, w) <==> !Le(v, w)) && (Lt(v, w) <==> !Le(w, v))
  {
    var a, b, c := ParseVersion(u), ParseVersion(v), ParseVersion(w);
    DecidingIsLexicographic(a, b);
    DecidingIsLexicographic(b, c);
    DecidingIsLexicographic(a, c);
    if Le(u, v) && Le(v, w) {
      LexLeIsTransitive(a, b, c, IntLe);
    }
  }

  // Versions that extend one another, and what their parts read as.

  lemma InFrontOfSum(c: char, a: seq<string>, b: seq<string>)
    requires a != []
    ensures InFront(c, a + b) == InFront(c, a) + b
  {
    assert (a + b)[0] == a[0] && (a + b)[1..] == a[1..] + b;
  }

  lemma {:induction false} SplitAtSeparator(s: string, c: char, t: string)
    requires IsSeparator(c)
    ensures Split(s + [c] + t) == Split(s) + Split(t)
  {
    var whole := s + [c] + t;
    if s == "" {
      assert whole[0] == c && whole[1..] == t;
    } else {
      assert whole[0] == s[0] && whole[1..] == s[1..] + [c] + t;
      SplitAtSeparator(s[1..], c, t);
      InFrontOfSum(s[0], Split(s[1..]), Split(t));
    }
  }

  lemma {:induction false} SplitOfPart(p: string)
    requires IsPart(p)
    ensures Split(p) == [p]
  {
    if p != "" {
      SplitOfPart(p[1..]);
      assert [p[0]] + p[1..] == p;
    }
  }

  lemma ParseExtended(v: string, c: char, w: string)
    requires IsSeparator(c)
    ensures ParseVersion(v + [c] + w) == ParseVersion(v) + ParseVersion(w)
  {
    SplitAtSeparator(v, c, w);
  }

  lemma {:induction false} DecidingAfterPrefix(p: seq<int>, a: seq<int>, b: seq<int>)
    ensures Deciding(p + a, p + b).0 <= Deciding(p + a, p + b).1 <==> LexLe(a, b, IntLe)
  {
    DecidingIsLexicographic(p + a, p + b);
    if p == [] {
      assert p + a == a && p + b == b;
    } else {
      assert (p + a)[1..] == p[1..] + a && (p + b)[1..] == p[1..] + b;
      DecidingAfterPrefix(p[1..], a, b);
      DecidingIsLexicographic(p[1..] + a, p[1..] + b);
    }
  }

  /** Whatever is added to a version, the result is later: 7.1.7-rc1 and 7.1.7.0 come
      after 7.1.7. */
  lemma ExtendedIsLater(v: string, c: char, w: string)
    requires IsSeparator(c)
    ensures Gt(v + [c] + w, v) && Lt(v, v + [c] + w)
  {
    var p, a := ParseVersion(v), ParseVersion(w);
    ParseExtended(v, c, w);
    DecidingAfterPrefix(p, a, []);
    assert p + [] == p && !LexLe(a, [], IntLe);
    ComparisonsAgree(v, v + [c] + w, v);
  }

  /** Versions that differ in their last part compare as that part's numbers do. A part
      that is not a number counts as 999: a 7.1.7-SNAPSHOT is not older than 7.1.7.n,
      exactly when n is at most 999. */
  lemma LastPartDecides(v: string, c: char, q: string, d: char, p: string)
    requires IsSeparator(c) && IsSeparator(d) && IsPart(q) && IsPart(p)
    ensures Ge(v + [c] + q, v + [d] + p) <==> ToInt(p) <= ToInt(q)
  {
    ParseExtended(v, c, q);
    ParseExtended(v, d, p);
    SplitOfPart(q);
    SplitOfPart(p);
    var a, b := [ToInt(q)], [ToInt(p)];
    assert ParseVersion(q) == a && ParseVersion(p) == b;
    DecidingAfterPrefix(ParseVersion(v), b, a);
    ComparisonsAgree(v, v + [c] + q, v + [d] + p);
    assert LexLe(b, a, IntLe) <==> ToInt(p) <= ToInt(q) by {
      assert a[1..] == [] && b[1..] == [];
    }
  }

  // What a part reads as: a number in decimal, with zeros and underscores, blanks and a plus
  // sign where Python allows them; or else 999.

  ghost predicate Blank(s: string) {
    forall c :: c in s ==> c in {'\t', '\n', '\U{0B}', '\U{0C}', '\r', '\U{1C}', '\U{1D}', '\U{1E}', '\U{1F}', ' '}
  }

  /** Without underscores. */
  function Plain(d: string): string {
    if d == "" then ""
    else
      var n := |d| - 1;
      Plain(d[..n]) + if d[n] == '_' then "" else [d[n]]
  }

  /** No underscore at either end, and no two in a row. */
  ghost predicate Grouped(d: string) {
    d != "" && d[0] != '_' && d[|d| - 1] != '_' && forall i :: 0 < i < |d| ==> d[i] != '_' || d[i - 1] != '_'
  }

  ghost predicate WrittenAs(p: string, n: nat, left: string, sign: string, d: string, right: string, z: nat) {
    && p == left + (sign + d) + right && Blank(left) && Blank(right) && (sign == "" || sign == "+")
    && Grouped(d) && Plain(d) == Zeros(z) + Decimal(n)
  }

  ghost predicate Reads(p: string, n: nat) {
    exists left, sign, d, right, z :: WrittenAs(p, n, left, sign, d, right, z)
  }

  lemma BlankCharIs(c: char)
    ensures IsBlank(c) <==> c in {'\t', '\n', '\U{0B}', '\U{0C}', '\r', '\U{1C}', '\U{1D}', '\U{1E}', '\U{1F}', ' '}
  {
    assert c == (c as int) as char;
  }

  lemma BlankIs(s: string)
    ensures Blank(s) <==> forall i :: 0 <= i < |s| ==> IsBlank(s[i])
  {
    forall i | 0 <= i < |s| ensures s[i] in s && (Blank(s) ==> IsBlank(s[i])) {
      assert s[i] in s;
      BlankCharIs(s[i]);
    }
    if forall i :: 0 <= i < |s| ==> IsBlank(s[i]) {
      forall c | c in s ensures Blank([c]) {
        BlankCharIs(c);
      }
      assert forall c :: c in s ==> c in [c];
    }
  }

  lemma {:induction false} TrimsLeft(left: string, t: string)
    requires Blank(left) && (t == "" || !IsBlank(t[0]))
    ensures TrimLeft(left + t) == t
  {
    BlankIs(left);
    if left == "" {
      assert left + t == t;
    } else {
      TrimsLeft(left[1..], t);
      assert (left + t)[1..] == left[1..] + t;
    }
  }

  lemma TrimsLast(s: string, c: char)
    ensures TrimRight(s + [c]) == if IsBlank(c) then TrimRight(s) else s + [c]
  {
    assert (s + [c])[..|s|] == s;
  }

  lemma NothingToTrim(t: string)
    requires t == "" || !IsBlank(t[|t| - 1])
    ensures TrimRight(t) == t
  {
  }

  lemma {:induction false} TrimsRight(t: string, right: string)
    requires Blank(right) && (t == "" || !IsBlank(t[|t| - 1]))
    ensures TrimRight(t + right) == t
  {
    if right == "" {
      assert t + right == t;
      NothingToTrim(t);
    } else {
      var init, c := right[..|right| - 1], right[|right| - 1];
      assert right == init + [c] && t + right == (t + init) + [c];
      assert c in right && forall d :: d in init ==> d in right;
      BlankCharIs(c);
      TrimsRight(t, init);
      TrimsLast(t + init, c);
    }
  }

  lemma {:induction false} TrimmedLeft(s: string) returns (left: string)
    ensures s == left + TrimLeft(s) && Blank(left)
  {
    if s != "" && IsBlank(s[0]) {
      var more := TrimmedLeft(s[1..]);
      left := [s[0]] + more;
    } else {
      left := "";
    }
  }

  lemma {:induction false} TrimmedRight(s: string) returns (right: string)
    ensures s == TrimRight(s) + right && Blank(right)
  {
    if s != "" && IsBlank(s[|s| - 1]) {
      var more := TrimmedRight(s[..|s| - 1]);
      right := more + [s[|s| - 1]];
    } else {
      right := "";
    }
  }

  lemma {:induction false} NumberOfPlain(d: string)
    requires forall i :: 0 <= i < |d| ==> IsDigit(d[i]) || d[i] == '_'
    ensures NumberOf(d) == NumberOf(Plain(d))
    ensures forall i :: 0 <= i < |Plain(d)| ==> IsDigit(Plain(d)[i])
  {
    if d != "" {
      var n := |d| - 1;
      NumberOfPlain(d[..n]);
      if d[n] == '_' {
        assert Plain(d) == Plain(d[..n]);
      } else {
        assert Plain(d)[..|Plain(d)| - 1] == Plain(d[..n]);
      }
    }
  }

  lemma {:induction false} NumberOfDecimal(z: nat, n: nat)
    ensures NumberOf(Zeros(z) + Decimal(n)) == n
  {
    if n < 10 {
      NumberOfZeros(z);
      assert (Zeros(z) + Decimal(n))[..z] == Zeros(z);
    } else {
      NumberOfDecimal(z, n / 10);
      var s := Zeros(z) + Decimal(n);
      assert s[..|s| - 1] == Zeros(z) + Decimal(n / 10);
    }
  }

  lemma {:induction false} NumberOfZeros(z: nat)
    ensures NumberOf(Zeros(z)) == 0
  {
    if z > 0 {
      NumberOfZeros(z - 1);
      assert Zeros(z)[..z - 1] == Zeros(z - 1);
    }
  }

  lemma DecimalGrows(z: nat, m: nat, c: nat) returns (z': nat)
    requires c < 10
    ensures Zeros(z) + Decimal(m) + [Digit(c)] == Zeros(z') + Decimal(10 * m + c)
  {
    if m == 0 {
      z' := z + 1;
      assert Zeros(z) + Decimal(0) == Zeros(z');
    } else {
      z' := z;
      assert (10 * m + c) / 10 == m && (10 * m + c) % 10 == c;
      assert Decimal(10 * m + c) == Decimal(m) + [Digit(c)];
    }
  }

  lemma NumberOfMore(d: string, c: char)
    requires IsDigit(c)
    ensures NumberOf(d + [c]) == 10 * NumberOf(d) + (c - '0') as nat
  {
    assert (d + [c])[..|d|] == d;
  }

  lemma {:induction false} DigitsAreDecimal(d: string) returns (z: nat)
    requires d != "" && forall i :: 0 <= i < |d| ==> IsDigit(d[i])
    ensures d == Zeros(z) + Decimal(NumberOf(d))
  {
    var init, c := d[..|d| - 1], d[|d| - 1];
    assert d == init + [c] && Digit((c - '0') as nat) == c;
    NumberOfMore(init, c);
    if init == "" {
      z := 0;
      assert Zeros(0) == "" && NumberOf("") == 0;
    } else {
      var before := DigitsAreDecimal(init);
      z := DecimalGrows(before, NumberOf(init), (c - '0') as nat);
    }
  }

  lemma {:induction false} PlainStart(d: string)
    requires d != "" && d[0] != '_'
    ensures Plain(d) != "" && Plain(d)[0] == d[0]
  {
    if |d| > 1 {
      PlainStart(d[..|d| - 1]);
    }
  }

  lemma {:induction false} PlainKeeps(d: string, i: nat)
    requires i < |d| && d[i] != '_'
    ensures d[i] in Plain(d)
  {
    if i < |d| - 1 {
      PlainKeeps(d[..|d| - 1], i);
    }
  }

  lemma GroupedReads(d: string, z: nat, n: nat)
    requires Grouped(d) && Plain(d) == Zeros(z) + Decimal(n)
    ensures IsNumber(d) && NumberOf(d) == n
  {
    DecimalIsDigits(n);
    forall i | 0 <= i < |d| ensures IsDigit(d[i]) || d[i] == '_' {
      if d[i] != '_' {
        PlainKeeps(d, i);
      }
    }
    NumberOfPlain(d);
    NumberOfDecimal(z, n);
  }

  lemma WrittenReads(p: string, n: nat, left: string, sign: string, d: string, right: string, z: nat)
    requires WrittenAs(p, n, left, sign, d, right, z)
    ensures ToInt(p) == n
  {
    GroupedReads(d, z, n);
    var t := sign + d;
    assert t[|t| - 1] == d[|d| - 1] && p == left + (t + right);
    assert (t + right)[0] == t[0];
    TrimsLeft(left, t + right);
    TrimsRight(t, right);
    if sign == "+" {
      assert t[0] == '+' && t[1..] == d;
    } else {
      assert t == d;
    }
  }

  lemma NumberText(d: string) returns (z: nat)
    requires IsNumber(d)
    ensures Grouped(d) && Plain(d) == Zeros(z) + Decimal(NumberOf(d))
  {
    PlainStart(d);
    NumberOfPlain(d);
    z := DigitsAreDecimal(Plain(d));
  }

  lemma SignedIsWritten(t: string) returns (n: nat, sign: string, d: string, z: nat)
    requires var u := if t != "" && t[0] == '+' then t[1..] else t; IsNumber(u)
    ensures t == sign + d && (sign == "" || sign == "+") && Grouped(d) && Plain(d) == Zeros(z) + Decimal(n)
  {
    sign := if t != "" && t[0] == '+' then "+" else "";
    d := if sign == "+" then t[1..] else t;
    n := NumberOf(d);
    z := NumberText(d);
  }

  lemma NumberIsWritten(p: string) returns (n: nat)
    requires ToInt(p) != 999
    ensures Reads(p, n)
  {
    var rest := TrimLeft(p);
    var sign, d, z;
    n, sign, d, z := SignedIsWritten(TrimRight(rest));
    var left := TrimmedLeft(p);
    var right := TrimmedRight(rest);
    Around(p, left, sign + d, right, rest);
    assert WrittenAs(p, n, left, sign, d, right, z);
  }

  lemma Around(p: string, left: string, t: string, right: string, rest: string)
    requires p == left + rest && rest == t + right
    ensures p == left + t + right
  {
  }

  /** A part reads as the number it is written as, and as 999 if it is not a number. */
  lemma PartReads(p: string)
    ensures forall n :: Reads(p, n) ==> ToInt(p) == n
    ensures (forall n :: !Reads(p, n)) ==> ToInt(p) == 999
  {
    forall n | Reads(p, n) ensures ToInt(p) == n {
      var left, sign, d, right, z :| WrittenAs(p, n, left, sign, d, right, z);
      WrittenReads(p, n, left, sign, d, right, z);
    }
    if ToInt(p) != 999 {
      var n := NumberIsWritten(p);
    }
  }

  lemma {:induction false} PlainDigits(d: string)
    requires forall i :: 0 <= i < |d| ==> d[i] != '_'
    ensures Plain(d) == d
  {
    if d != "" {
      PlainDigits(d[..|d| - 1]);
    }
  }

  lemma DecimalReads(z: nat, n: nat)
    ensures ToInt(Zeros(z) + Decimal(n)) == n
  {
    var d := Zeros(z) + Decimal(n);
    DecimalIsDigits(n);
    PlainDigits(d);
    assert d == "" + ("" + d) + "";
    assert WrittenAs(d, n, "", "", d, "", z);
    WrittenReads(d, n, "", "", d, "", z);
  }

  // Whole versions.

  /** Numbers with dots between them. */
  function Dotted(ns: seq<nat>): string
    requires ns != []
  {
    if |ns| == 1 then Decimal(ns[0]) else Decimal(ns[0]) + "." + Dotted(ns[1..])
  }

  lemma DecimalParses(n: nat)
    ensures ParseVersion(Decimal(n)) == [n]
  {
    DecimalIsDigits(n);
    DecimalReads(0, n);
    assert Zeros(0) + Decimal(n) == Decimal(n);
    SplitOfPart(Decimal(n));
  }

  lemma {:induction false} DottedParses(ns: seq<nat>)
    requires ns != []
    ensures ParseVersion(Dotted(ns)) == ns
  {
    DecimalParses(ns[0]);
    if |ns| == 1 {
      assert ns == [ns[0]];
    } else {
      var rest := ns[1..];
      DottedParses(rest);
      assert Dotted(ns) == Decimal(ns[0]) + ['.'] + Dotted(rest);
      ParseExtended(Decimal(ns[0]), '.', Dotted(rest));
      assert ns == [ns[0]] + rest;
    }
  }

  /** Versions in decimal compare number by number: 7.11.3.9 is at least 7.3.1. */
  lemma DottedCompare(a: seq<nat>, b: seq<nat>)
    requires a != [] && b != []
    ensures Le(Dotted(a), Dotted(b)) <==> NumbersInOrder(a, b)
    ensures Ge(Dotted(a), Dotted(b)) <==> NumbersInOrder(b, a)
    ensures Lt(Dotted(a), Dotted(b)) <==> !NumbersInOrder(b, a)
    ensures Gt(Dotted(a), Dotted(b)) <==> !NumbersInOrder(a, b)
  {
    DottedParses(a);
    DottedParses(b);
    DecidingIsLexicographic(a, b);
    DecidingIsLexicographic(b, a);
    IntLeIs(a, b);
    IntLeIs(b, a);
  }

  /** A dash separates as a dot does, and nothing else separates. */
  lemma SeparatorsAre(v: string, w: string, p: string)
    requires forall c :: c in p ==> c != '.' && c != '-'
    ensures ParseVersion(v + "." + w) == ParseVersion(v) + ParseVersion(w)
    ensures ParseVersion(v + "-" + w) == ParseVersion(v) + ParseVersion(w)
    ensures ParseVersion(p) == [ToInt(p)]
  {
    ParseExtended(v, '.', w);
    ParseExtended(v, '-', w);
    SplitOfPart(p);
  }

  lemma LastNumberDecides(v: string, m: nat, n: nat)
    ensures Ge(v + "." + Decimal(m), v + "." + Decimal(n)) <==> n <= m
  {
    DecimalIsDigits(m);
    DecimalIsDigits(n);
    DecimalReads(0, m);
    DecimalReads(0, n);
    assert Zeros(0) + Decimal(m) == Decimal(m) && Zeros(0) + Decimal(n) == Decimal(n);
    LastPartDecides(v, '.', Decimal(m), '.', Decimal(n));
  }
}
