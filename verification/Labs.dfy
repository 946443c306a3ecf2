/** The labs of a workshop: which of its members are labs, and in what order they run. */
module Labs {
  import opened Wrappers
  import opened Sorting
  import opened Text

  datatype Lab = Lab(number: nat, name: string)

  /** The number that the leading digits of `s` spell, after the digits read so far. */
  function LeadingNumber(s: string, read: nat): nat {
    if s == "" || !IsDigit(s[0]) then read
    else LeadingNumber(s[1..], 10 * read + (s[0] - '0') as nat)
  }

  /** Members called `lab` and a number are labs. */
  function StepNumber(name: string): Option<nat> {
    if |name| > 3 && name[..3] == "lab" && IsDigit(name[3]) then Some(LeadingNumber(name[3..], 0)) else None
  }

  function LabsAmong(members: seq<string>): seq<Lab> {
    if members == [] then []
    else
      var rest := LabsAmong(members[1..]);
      match StepNumber(members[0])
      case Some(n) => [Lab(n, members[0])] + rest
      case None => rest
  }

  /** Labs compare by number, and by name among equal numbers. */
  predicate LabLe(a: Lab, b: Lab) {
    a.number < b.number || (a.number == b.number && StringLe(a.name, b.name))
  }

  function LabFunctions(members: seq<string>): seq<Lab> {
    Sort(LabsAmong(members), LabLe)
  }

  function Below(labs: seq<Lab>, cutoff: nat): seq<Lab> {
    if labs == [] then []
    else
      var n := |labs| - 1;
      Below(labs[..n], cutoff) + if labs[n].number < cutoff then [labs[n]] else []
  }

  function LabsToRun(members: seq<string>, cutoff: nat): seq<Lab> {
    Below(LabFunctions(members), cutoff)
  }

  lemma LabLeOrders()
    ensures TotalOrder(LabLe)
  {
    StringLeOrders();
    forall a, b ensures (LabLe(a, b) || LabLe(b, a)) && (LabLe(a, b) && LabLe(b, a) ==> a == b) {
      assert StringLe(a.name, b.name) || StringLe(b.name, a.name);
    }
    forall a, b, c | LabLe(a, b) && LabLe(b, c) ensures LabLe(a, c) {
    }
  }

  lemma {:induction false} CountLabs(members: seq<string>, l: Lab)
    ensures multiset(LabsAmong(members))[l] ==
            if StepNumber(l.name) == Some(l.number) then multiset(members)[l.name] else 0
  {
    if members == [] {
    } else {
      CountLabs(members[1..], l);
      assert members == [members[0]] + members[1..];
    }
  }

  lemma {:induction false} CountBelow(labs: seq<Lab>, cutoff: nat, l: Lab)
    ensures multiset(Below(labs, cutoff))[l] == if l.number < cutoff then multiset(labs)[l] else 0
  {
    if labs == [] {
    } else {
      var n := |labs| - 1;
      CountBelow(labs[..n], cutoff, l);
      assert labs == labs[..n] + [labs[n]];
    }
  }

  lemma BelowIsAmong(labs: seq<Lab>, cutoff: nat, l: Lab)
    requires l in Below(labs, cutoff)
    ensures l in labs
  {
    assert l in multiset(Below(labs, cutoff));
    CountBelow(labs, cutoff, l);
    assert l in multiset(labs);
  }

  lemma {:induction false} BelowStaysSorted(labs: seq<Lab>, cutoff: nat)
    requires SortedBy(labs, LabLe)
    ensures SortedBy(Below(labs, cutoff), LabLe)
  {
    if labs == [] {
    } else {
      var n := |labs| - 1;
      var init := Below(labs[..n], cutoff);
      BelowStaysSorted(labs[..n], cutoff);
      forall i | 0 <= i < |init| ensures LabLe(init[i], labs[n]) {
        BelowIsAmong(labs[..n], cutoff, init[i]);
      }
    }
  }

  // What is read off the name of a member.

  lemma {:induction false} ReadsDecimal(n: nat, rest: string)
    ensures LeadingNumber(Decimal(n) + rest, 0) == LeadingNumber(rest, n)
  {
    if n < 10 {
      assert (Decimal(n) + rest)[1..] == rest;
    } else {
      var last := [Digit(n % 10)] + rest;
      ReadsDecimal(n / 10, last);
      assert Decimal(n) + rest == Decimal(n / 10) + last;
      assert last[1..] == rest;
    }
  }

  lemma {:induction false} ReadsZeros(z: nat, s: string)
    ensures LeadingNumber(Zeros(z) + s, 0) == LeadingNumber(s, 0)
  {
    if z == 0 {
      assert Zeros(z) + s == s;
    } else {
      ReadsZeros(z - 1, s);
      assert (Zeros(z) + s)[1..] == Zeros(z - 1) + s;
    }
  }

  /** A lab is a member called "lab" and a number in decimal, perhaps with zeros in front,
      whatever comes after the number. */
  lemma StepNumberReads(n: nat, z: nat, rest: string)
    requires rest == "" || !('0' <= rest[0] <= '9')
    ensures StepNumber("lab" + Zeros(z) + Decimal(n) + rest) == Some(n)
  {
    var digits := Zeros(z) + (Decimal(n) + rest);
    var name := "lab" + Zeros(z) + Decimal(n) + rest;
    assert name == "lab" + digits && name[..3] == "lab" && name[3..] == digits;
    assert name[3] == digits[0] && '0' <= digits[0] <= '9';
    ReadsZeros(z, Decimal(n) + rest);
    ReadsDecimal(n, rest);
  }

  lemma NoStepNumber(name: string)
    ensures StepNumber(name).None? <==> !("lab" <= name && |name| > 3 && '0' <= name[3] <= '9')
  {
  }

  /** The labs to run: all members that are labs numbered below the cut-off, each as often
      as it is a member, by number and, for equal numbers, by name. */
  ghost predicate InOrder(labs: seq<Lab>, members: seq<string>, cutoff: nat) {
    && (forall l :: multiset(labs)[l] ==
                    if StepNumber(l.name) == Some(l.number) && l.number < cutoff then multiset(members)[l.name] else 0)
    && (forall i, j :: 0 <= i < j < |labs| ==>
          labs[i].number < labs[j].number
          || (labs[i].number == labs[j].number && TextInOrder(labs[i].name, labs[j].name)))
  }

  /** A workshop set up to a lab runs exactly the labs numbered below it, each once for
      each member of that name, in the order of their numbers and names. */
  lemma LabsRunInOrder(members: seq<string>, cutoff: nat)
    ensures InOrder(LabsToRun(members, cutoff), members, cutoff)
  {
    var labs := LabsToRun(members, cutoff);
    LabLeOrders();
    SortSorts(LabsAmong(members), LabLe);
    BelowStaysSorted(LabFunctions(members), cutoff);
    forall i, j | 0 <= i < j < |labs|
      ensures labs[i].number < labs[j].number
              || (labs[i].number == labs[j].number && TextInOrder(labs[i].name, labs[j].name))
    {
      StringLeIs(labs[i].name, labs[j].name);
      assert LabLe(labs[i], labs[j]);
    }
    forall l ensures multiset(labs)[l] ==
                     if StepNumber(l.name) == Some(l.number) && l.number < cutoff then multiset(members)[l.name] else 0
    {
      CountLabs(members, l);
      CountBelow(LabFunctions(members), cutoff, l);
    }
  }

  /** Lab 2 runs before lab 10: of two labs to run, the one whose name has the smaller
      number comes first. */
  lemma SmallerNumberRunsFirst(members: seq<string>, cutoff: nat, i: nat, j: nat, m: nat, n: nat, a: string, b: string)
    requires i < |LabsToRun(members, cutoff)| && j < |LabsToRun(members, cutoff)| && m < n
    requires (a == "" || !('0' <= a[0] <= '9')) && (b == "" || !('0' <= b[0] <= '9'))
    requires LabsToRun(members, cutoff)[i].name == "lab" + Decimal(m) + a
    requires LabsToRun(members, cutoff)[j].name == "lab" + Decimal(n) + b
    ensures i < j
  {
    LabsRunInOrder(members, cutoff);
    NumberOfLab(members, cutoff, i, m, a);
    NumberOfLab(members, cutoff, j, n, b);
  }

  lemma NumberOfLab(members: seq<string>, cutoff: nat, i: nat, n: nat, rest: string)
    requires i < |LabsToRun(members, cutoff)| && (rest == "" || !('0' <= rest[0] <= '9'))
    requires LabsToRun(members, cutoff)[i].name == "lab" + Decimal(n) + rest
    ensures LabsToRun(members, cutoff)[i].number == n
  {
    var labs := LabsToRun(members, cutoff);
    LabsRunInOrder(members, cutoff);
    StepNumberReads(n, 0, rest);
    assert "lab" + Zeros(0) == "lab" && labs[i] in multiset(labs);
  }

  /** The order in which the members are found does not matter. */
  lemma LabsDoNotDependOnMemberOrder(members: seq<string>, other: seq<string>, cutoff: nat)
    requires multiset(members) == multiset(other)
    ensures LabsToRun(members, cutoff) == LabsToRun(other, cutoff)
  {
    forall l ensures multiset(LabsAmong(members))[l] == multiset(LabsAmong(other))[l] {
      CountLabs(members, l);
      CountLabs(other, l);
    }
    LabLeOrders();
    SortIsCanonical(LabsAmong(members), LabsAmong(other), LabLe);
  }
}
