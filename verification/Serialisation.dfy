/** The order that sorts merged lists: elements compare by their JSON text (RFC 8259) with
    sorted keys. The text can be read back, so this is a total order. */
module Serialisation {
  import opened Wrappers
  import opened Json
  import opened Sorting
  import opened Merge
  import opened Spelling
  import opened Reading
  import opened KeyedLists
  import opened MergeLaws
  import opened OrderIndependence
  import opened AnyOrder

  lemma SortedKeysExist(keys: set<string>)
    ensures exists s :: SortedKeys(keys, s)
  {
    var s := Listing(keys);
    StringLeOrders();
    SortSorts(s, StringLe);
    assert SortedKeys(keys, Sort(s, StringLe));
  }

  ghost predicate SortedKeys(keys: set<string>, s: seq<string>) {
    multiset(s) == multiset(keys) && SortedBy(s, StringLe)
  }

  lemma {:induction false} Listing(keys: set<string>) returns (s: seq<string>)
    ensures multiset(s) == multiset(keys)
    decreases |keys|
  {
    if keys == {} {
      s := [];
    } else {
      var k :| k in keys;
      var rest := Listing(keys - {k});
      s := rest + [k];
      assert keys == keys - {k} + {k};
    }
  }

  ghost function Keys(m: map<string, Json>): (s: seq<string>)
    ensures SortedKeys(m.Keys, s) && forall k :: k in s <==> k in m
  {
    SortedKeysExist(m.Keys);
    var s :| SortedKeys(m.Keys, s);
    assert forall k :: k in s <==> k in multiset(s);
    s
  }

  /** The keys are listed in ascending order. */
  lemma KeysAscend(m: map<string, Json>, i: nat, j: nat)
    requires i < j < |Keys(m)|
    ensures Ascends(Some(Keys(m)[i]), Keys(m)[j])
  {
    KeysDiffer(m, i, j);
    StringLeIs(Keys(m)[i], Keys(m)[j]);
  }

  lemma KeysDiffer(m: map<string, Json>, i: nat, j: nat)
    requires i < j < |Keys(m)|
    ensures Keys(m)[i] != Keys(m)[j]
  {
    if Keys(m)[i] == Keys(m)[j] {
      CountsTwice(Keys(m), i, j);
    }
  }

  /** The JSON text of a value, keys sorted. */
  ghost function Dumps(j: Json): string
    decreases j, 2
  {
    match j
    case Leaf(s) => Spell(s)
    case Arr(s) => if s == [] then "[]" else "[" + (Dumps(s[0]) + MoreItems(s[1..]))
    case Obj(m) =>
      var ks := Keys(m);
      if ks == [] then "{}" else "{" + (Member(m, ks[0]) + MoreMembers(m, ks[1..]))
  }

  ghost function MoreItems(s: seq<Json>): string
    decreases s, 0
  {
    if s == [] then "]" else ", " + (Dumps(s[0]) + MoreItems(s[1..]))
  }

  ghost function Member(m: map<string, Json>, k: string): string
    requires k in m
    decreases Obj(m), 0
  {
    Spell(Str(k)) + (": " + Dumps(m[k]))
  }

  ghost function MoreMembers(m: map<string, Json>, ks: seq<string>): string
    requires forall k :: k in ks ==> k in m
    decreases Obj(m), 1, |ks|
  {
    if ks == [] then "}" else ", " + (Member(m, ks[0]) + MoreMembers(m, ks[1..]))
  }

  // Reading it back.

  lemma AfterIs(p: string, r: string)
    requires p != ""
    ensures After(p, p + r) == Some(r)
  {
    assert (p + r)[|p|..] == r;
  }

  lemma Regroup(a: string, b: string, c: string)
    ensures (a + b) + c == a + (b + c)
  {
  }

  lemma HexDigitReads(n: nat)
    requires n < 0x10
    ensures HexValue(HexDigit(n)) == Some(n)
  {
    assert HexDigit(n) == "0123456789abcdef"[n];
  }

  lemma HexSplits(n: nat, x: string)
    requires n < 0x1_0000
    ensures var t := Hex4(n) + x;
            t == Hex2(n / 0x100) + (Hex2(n % 0x100) + x) && t[2..] == Hex2(n % 0x100) + x && t[4..] == x
  {
  }

  lemma HexReads(n: nat, x: string)
    requires n < 0x1_0000
    ensures ReadHex(Hex4(n) + x) == Some(n) && (Hex4(n) + x)[4..] == x
  {
    HexSplits(n, x);
    Hex2Reads(n / 0x100, Hex2(n % 0x100) + x);
    Hex2Reads(n % 0x100, x);
  }

  lemma Hex2Reads(n: nat, x: string)
    requires n < 0x100
    ensures ReadHex2(Hex2(n) + x) == Some(n)
  {
    var t := Hex2(n) + x;
    assert t[0] == HexDigit(n / 0x10) && t[1] == HexDigit(n % 0x10);
    HexDigitReads(n / 0x10);
    HexDigitReads(n % 0x10);
  }

  lemma UnitsPair(t: string, high: nat, rest: string, low: nat)
    requires |t| >= 4 && ReadHex(t) == Some(high) && 0xD800 <= high < 0xDC00 && t[4..] == "\\u" + rest
    requires ReadHex(rest) == Some(low) && 0xDC00 <= low < 0xE000
    ensures ReadUnits(t) == Some(((0x1_0000 + (high - 0xD800) * 0x400 + (low - 0xDC00)) as char, rest[4..]))
  {
    AfterIs("\\u", rest);
  }

  lemma PairReads(n: nat, x: string)
    requires 0x1_0000 <= n < 0x11_0000
    ensures ReadUnits(Hex4(High(n)) + (Unit(Low(n)) + x)) == Some((n as char, x))
  {
    var rest := Hex4(Low(n)) + x;
    Regroup("\\u", Hex4(Low(n)), x);
    HexReads(High(n), "\\u" + rest);
    HexReads(Low(n), x);
    UnitsPair(Hex4(High(n)) + ("\\u" + rest), High(n), rest, Low(n));
    PairIs(n);
  }

  lemma PairIs(n: nat)
    requires 0x1_0000 <= n < 0x11_0000
    ensures 0x1_0000 + (High(n) - 0xD800) * 0x400 + (Low(n) - 0xDC00) == n
  {
  }

  lemma ShortReads(c: char, x: string)
    requires ShortEscape(c) != '-'
    ensures ReadChar(['\\', ShortEscape(c)] + x) == Some((c, x))
  {
    var t := ['\\', ShortEscape(c)] + x;
    assert t[0] == '\\' && t[1] == ShortEscape(c) && t[2..] == x;
    assert c == (c as int) as char;
  }

  lemma UnitsRead(t: string, c: char, x: string)
    requires ReadUnits(t) == Some((c, x))
    ensures ReadChar("\\u" + t) == Some((c, x))
  {
    var s := "\\u" + t;
    assert s[0] == '\\' && s[1] == 'u' && s[2..] == t;
  }

  /** An escaped character reads as that character, whatever follows. */
  lemma CharReadsBack(c: char, x: string)
    ensures ReadChar(Escape(c) + x) == Some((c, x)) && (Escape(c) + x)[0] != '"'
  {
    var n := c as int;
    assert c == n as char;
    if ShortEscape(c) != '-' {
      ShortReads(c, x);
    } else if 0x20 <= n <= 0x7e {
      assert ([c] + x)[1..] == x;
    } else if n < 0x1_0000 {
      HexReads(n, x);
      UnitsRead(Hex4(n) + x, c, x);
      Regroup("\\u", Hex4(n), x);
    } else {
      PairReads(n, x);
      UnitsRead(Hex4(High(n)) + (Unit(Low(n)) + x), c, x);
      Regroup(Unit(High(n)), Unit(Low(n)), x);
      Regroup("\\u", Hex4(High(n)), Unit(Low(n)) + x);
    }
  }

  /** A quoted string reads as that string, whatever follows. */
  lemma {:induction false} StringReadsBack(s: string, x: string)
    ensures ReadString(Quoted(s) + x) == Some((s, x))
  {
    if s == "" {
      assert (Quoted(s) + x)[1..] == x;
    } else {
      var rest := Quoted(s[1..]) + x;
      CharReadsBack(s[0], rest);
      Regroup(Escape(s[0]), Quoted(s[1..]), x);
      StringReadsBack(s[1..], x);
      assert s == [s[0]] + s[1..];
    }
  }

  /** What follows a value does not look like more of a number. */
  predicate Ends(s: string) {
    s == "" || !NumeralChar(s[0])
  }

  lemma {:induction false} NumeralLengthIs(t: string, x: string)
    requires Ends(x) && forall i :: 0 <= i < |t| ==> NumeralChar(t[i])
    ensures NumeralLength(t + x) == |t|
  {
    if t == "" {
      assert t + x == x;
    } else {
      NumeralLengthIs(t[1..], x);
      assert (t + x)[1..] == t[1..] + x;
    }
  }

  lemma ScalarReadsBack(s: Scalar, x: string)
    requires Ends(x)
    ensures ReadScalar(Spell(s) + x) == Some((s, x))
    ensures (Spell(s) + x)[0] !in {'[', ']', '{'}
  {
    var t := Spell(s) + x;
    assert t[0] == Spell(s)[0];
    match s
    case Null => AfterIs("null", x);
    case Bool(b) => AfterIs(Spell(s), x);
    case Number(n) =>
      NumeralLengthIs(n, x);
      assert t[..|n|] == n && t[|n|..] == x && NumeralChar(t[0]);
    case Str(q) =>
      Regroup("\"", Quoted(q), x);
      AfterIs("\"", Quoted(q) + x);
      StringReadsBack(q, x);
  }

  /** The text of a value reads as that value, whatever follows. */
  lemma {:induction false} ReadsBack(j: Json, x: string)
    requires Ends(x)
    ensures ReadValue(Dumps(j) + x) == Some((j, x))
    ensures (Dumps(j) + x)[0] != ']'
    decreases j, 3
  {
    match j
    case Leaf(s) => ScalarReadsBack(s, x);
    case Arr(s) => ListReadsBack(s, x);
    case Obj(m) => ObjectReadsBack(m, x);
  }

  lemma {:induction false} ListReadsBack(s: seq<Json>, x: string)
    requires Ends(x)
    ensures ReadValue(Dumps(Arr(s)) + x) == Some((Arr(s), x))
    decreases Arr(s), 1
  {
    if s == [] {
      AfterIs("[]", x);
    } else {
      var items := Dumps(s[0]) + MoreItems(s[1..]);
      ItemsReadBack(s, x);
      Regroup("[", items, x);
      AfterIs("[", items + x);
      assert ("[" + (items + x))[1] == (items + x)[0] != ']';
    }
  }

  lemma {:induction false} ItemsReadBack(s: seq<Json>, x: string)
    requires s != []
    ensures var t := Dumps(s[0]) + MoreItems(s[1..]) + x; ReadItems(t) == Some((s, x)) && t[0] != ']'
    decreases s, 0
  {
    var more := MoreItems(s[1..]) + x;
    Regroup(Dumps(s[0]), MoreItems(s[1..]), x);
    ReadsBack(s[0], more);
    if |s| == 1 {
      AfterIs("]", x);
      assert s == [s[0]];
    } else {
      var rest := Dumps(s[1]) + MoreItems(s[1..][1..]);
      ItemsReadBack(s[1..], x);
      Regroup(", ", rest, x);
      AfterIs(", ", rest + x);
      assert s == [s[0]] + s[1..];
    }
  }

  /** The members under the given keys. */
  function Under(m: map<string, Json>, ks: seq<string>): map<string, Json>
    requires forall k :: k in ks ==> k in m
  {
    map k | k in ks :: m[k]
  }

  lemma ObjectReads(t: string, m: map<string, Json>, x: string)
    requires ReadMembers(t, None) == Some((m, x)) && t != "" && t[0] == '"'
    ensures ReadValue("{" + t) == Some((Obj(m), x))
  {
    var s := "{" + t;
    AfterIs("{", t);
    assert s[0] == '{' && s[1] == t[0];
    assert After("[]", s).None? && After("{}", s).None? && After("[", s).None?;
  }

  lemma {:induction false} ObjectReadsBack(m: map<string, Json>, x: string)
    requires Ends(x)
    ensures ReadValue(Dumps(Obj(m)) + x) == Some((Obj(m), x))
    decreases Obj(m), 2
  {
    var ks := Keys(m);
    if ks == [] {
      assert m == map[];
      AfterIs("{}", x);
    } else {
      assert ks == ks[0..];
      KeysAllAscend(m, 0);
      MembersReadBack(m, ks, None, x);
      Regroup("{", Member(m, ks[0]) + MoreMembers(m, ks[1..]), x);
      assert Under(m, ks) == m;
      ObjectReads(Member(m, ks[0]) + MoreMembers(m, ks[1..]) + x, m, x);
    }
  }

  lemma LastMemberReads(t: string, before: Option<string>, k: string, j: Json, x: string)
    requires ReadMember(t) == Some((k, j, "}" + x)) && Ascends(before, k)
    ensures ReadMembers(t, before) == Some((map[k := j], x))
  {
    AfterIs("}", x);
  }

  lemma FirstMemberReads(t: string, before: Option<string>, k: string, j: Json, rest: string,
                         m: map<string, Json>, x: string)
    requires ReadMember(t) == Some((k, j, ", " + rest)) && Ascends(before, k)
    requires ReadMembers(rest, Some(k)) == Some((m, x))
    ensures ReadMembers(t, before) == Some((m[k := j], x))
  {
    AfterIs(", ", rest);
    assert (", " + rest)[0] != '}';
  }

  /** Each key comes after the one before it. */
  ghost predicate AllAscend(before: Option<string>, ks: seq<string>)
    decreases |ks|
  {
    ks != [] ==> Ascends(before, ks[0]) && AllAscend(Some(ks[0]), ks[1..])
  }

  lemma {:induction false} KeysAllAscend(m: map<string, Json>, i: nat)
    requires i <= |Keys(m)|
    ensures AllAscend(if i == 0 then None else Some(Keys(m)[i - 1]), Keys(m)[i..])
    decreases |Keys(m)| - i
  {
    if i < |Keys(m)| {
      KeysAllAscend(m, i + 1);
      assert Keys(m)[i..][1..] == Keys(m)[i + 1..];
      if i > 0 {
        KeysAscend(m, i - 1, i);
      }
    }
  }

  lemma {:induction false} MembersReadBack(m: map<string, Json>, ks: seq<string>, before: Option<string>, x: string)
    requires ks != [] && AllAscend(before, ks) && forall k :: k in ks ==> k in m
    ensures var t := Member(m, ks[0]) + MoreMembers(m, ks[1..]) + x;
            ReadMembers(t, before) == Some((Under(m, ks), x)) && t[0] == '"'
    decreases Obj(m), 1, |ks|
  {
    var k, next := ks[0], ks[1..];
    var t := Member(m, k) + MoreMembers(m, next) + x;
    Regroup(Member(m, k), MoreMembers(m, next), x);
    MemberReadsBack(m, k, MoreMembers(m, next) + x);
    UnderOneMore(m, ks);
    if next == [] {
      LastMemberReads(t, before, k, m[k], x);
    } else {
      var rest := Member(m, next[0]) + MoreMembers(m, next[1..]);
      MembersReadBack(m, next, Some(k), x);
      Regroup(", ", rest, x);
      FirstMemberReads(t, before, k, m[k], rest + x, Under(m, next), x);
    }
  }

  lemma UnderOneMore(m: map<string, Json>, ks: seq<string>)
    requires ks != [] && forall k :: k in ks ==> k in m
    ensures Under(m, ks) == Under(m, ks[1..])[ks[0] := m[ks[0]]]
  {
    assert ks == [ks[0]] + ks[1..];
  }

  lemma MemberReads(k: string, j: Json, t: string, x: string)
    requires ReadValue(t) == Some((j, x))
    ensures ReadMember("\"" + (Quoted(k) + (": " + t))) == Some((k, j, x))
  {
    AfterIs(": ", t);
    StringReadsBack(k, ": " + t);
    AfterIs("\"", Quoted(k) + (": " + t));
  }

  lemma MemberText(m: map<string, Json>, k: string, x: string)
    requires k in m
    ensures Member(m, k) + x == "\"" + (Quoted(k) + (": " + (Dumps(m[k]) + x)))
  {
    Regroup("\"" + Quoted(k), ": " + Dumps(m[k]), x);
    Regroup(": ", Dumps(m[k]), x);
    Regroup("\"", Quoted(k), ": " + (Dumps(m[k]) + x));
  }

  lemma {:induction false} MemberReadsBack(m: map<string, Json>, k: string, x: string)
    requires k in m && Ends(x)
    ensures ReadMember(Member(m, k) + x) == Some((k, m[k], x)) && (Member(m, k) + x)[0] == '"'
    decreases Obj(m), 0
  {
    ReadsBack(m[k], x);
    MemberText(m, k, x);
    MemberReads(k, m[k], Dumps(m[k]) + x, x);
  }

  /** JSON texts with sorted keys, followed by anything that can follow them, are equal only
      for equal values. */
  lemma ReadsBackOneWay(a: Json, b: Json, x: string, y: string)
    requires Ends(x) && Ends(y) && Dumps(a) + x == Dumps(b) + y
    ensures a == b && x == y
  {
    ReadsBack(a, x);
    ReadsBack(b, y);
  }

  lemma DumpsIsInjective(a: Json, b: Json)
    requires Dumps(a) == Dumps(b)
    ensures a == b
  {
    assert Dumps(a) + "" == Dumps(b) + "";
    ReadsBackOneWay(a, b, "", "");
  }

  // How strings are spelled: printable ASCII, and an escape only where there must be one.

  lemma EscapeIs(c: char)
    ensures Escape(c) == [c] <==> ' ' <= c <= '~' && c != '"' && c != '\\'
    ensures |Escape(c)| == 2 <==> c in {'"', '\\', '\U{8}', '\U{C}', '\n', '\r', '\t'}
    ensures |Escape(c)| == 12 <==> '\U{10000}' <= c
    ensures |Escape(c)| in {1, 2, 6, 12}
  {
    assert c == (c as int) as char;
  }

  ghost predicate Printed(s: string) {
    forall i :: 0 <= i < |s| ==> ' ' <= s[i] <= '~' && !('A' <= s[i] <= 'F')
  }

  lemma HexDigitIsPrinted(d: nat)
    requires d < 0x10
    ensures '0' <= HexDigit(d) <= '9' || 'a' <= HexDigit(d) <= 'f'
  {
    assert HexDigit(d) == "0123456789abcdef"[d];
  }

  lemma HexIsPrinted(n: nat)
    requires n < 0x1_0000
    ensures Printed(Unit(n))
  {
    HexDigitIsPrinted(n / 0x100 / 0x10);
    HexDigitIsPrinted(n / 0x100 % 0x10);
    HexDigitIsPrinted(n % 0x100 / 0x10);
    HexDigitIsPrinted(n % 0x100 % 0x10);
  }

  /** An escape is printable ASCII, with hexadecimal digits in lower case. */
  lemma EscapeIsPrinted(c: char)
    ensures Escape(c) != [c] ==> Printed(Escape(c))
  {
    var n := c as int;
    if ShortEscape(c) == '-' && !(0x20 <= n <= 0x7e) {
      if n < 0x1_0000 {
        HexIsPrinted(n);
      } else {
        HexIsPrinted(High(n));
        HexIsPrinted(Low(n));
      }
    }
  }

  // The order.

  /** The order that the sort key of update_list gives. */
  ghost predicate DumpsLe(a: Json, b: Json) {
    StringLe(Dumps(a), Dumps(b))
  }

  lemma DumpsOrders()
    ensures TotalOrder(DumpsLe)
  {
    StringLeOrders();
    forall a, b
      ensures (DumpsLe(a, b) || DumpsLe(b, a)) && (DumpsLe(a, b) && DumpsLe(b, a) ==> a == b)
    {
      if Dumps(a) == Dumps(b) {
        DumpsIsInjective(a, b);
      }
    }
    forall a, b, c | DumpsLe(a, b) && DumpsLe(b, c) ensures DumpsLe(a, c) {
    }
  }

  /** The rules of cm_template.py: its identity attributes, and the order of the JSON text. */
  ghost function CmTemplateRules(): Rules {
    Rules(IDEMPOTENT_IDS, (a, b) => DumpsLe(a, b))
  }

  lemma CmTemplateRulesOrder()
    ensures TotalOrder(CmTemplateRules().le)
  {
    DumpsOrders();
    var le := CmTemplateRules().le;
    assert forall a, b :: le(a, b) == DumpsLe(a, b);
  }

  /** A merged list is in ascending order of the texts of its elements, character by character. */
  lemma MergedTextsAscend(a: seq<Json>, b: seq<Json>, i: nat, j: nat)
    requires i < j < |MergeLists(CmTemplateRules(), a, b)|
    ensures var m := MergeLists(CmTemplateRules(), a, b); TextInOrder(Dumps(m[i]), Dumps(m[j]))
  {
    var r := CmTemplateRules();
    var m := MergeLists(r, a, b);
    CmTemplateRulesOrder();
    SortSorts(MergeItems(r, a, b), r.le);
    assert r.le(m[i], m[j]);
    StringLeIs(Dumps(m[i]), Dumps(m[j]));
  }

  lemma LeadingStep(ids: seq<string>, m: map<string, Json>, a: string, rest: seq<string>)
    requires ids == [a] + rest
    ensures LeadingId(ids, m) == if a in m then Some(a) else LeadingId(rest, m)
  {
    assert ids[1..] == rest;
  }

  /** What identifies an item: the first that it has of five attributes. */
  lemma CmTemplateIdentities(m: map<string, Json>)
    ensures LeadingId(CmTemplateRules().ids, m) ==
            if "refName" in m then Some("refName")
            else if "name" in m then Some("name")
            else if "clusterName" in m then Some("clusterName")
            else if "hostName" in m then Some("hostName")
            else if "product" in m then Some("product")
            else None
    ensures forall k :: k in CmTemplateRules().ids <==> k in {"refName", "name", "clusterName", "hostName", "product"}
  {
    LeadingStep(IDEMPOTENT_IDS, m, "refName", ["name", "clusterName", "hostName", "product"]);
    LeadingStep(["name", "clusterName", "hostName", "product"], m, "name", ["clusterName", "hostName", "product"]);
    LeadingStep(["clusterName", "hostName", "product"], m, "clusterName", ["hostName", "product"]);
    LeadingStep(["hostName", "product"], m, "hostName", ["product"]);
    LeadingStep(["product"], m, "product", []);
  }

  /** With the attributes and the sort key of cm_template.py: templates can be merged in any
      order exactly when they agree pairwise. */
  lemma CmTemplatesMergeInAnyOrder(ts: seq<Json>)
    requires forall t :: t in ts && t.Obj? ==> WellFormed(CmTemplateRules(), t) && Anonymous(CmTemplateRules(), t)
    ensures AnyOrderWorks(CmTemplateRules(), ts) <==> AgreeingTemplates(CmTemplateRules(), ts)
  {
    CmTemplateRulesOrder();
    AnyOrderWorksExactlyWhenAgreeing(CmTemplateRules(), ts);
  }
}
