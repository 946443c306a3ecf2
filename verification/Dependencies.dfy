/** The closure of a selection of services under their dependencies (cm_template.py,
    fix_dependencies), starting from the parsed dependency file. */
module Dependencies {

  const ALL := "all"

  type Deps = map<string, seq<string>>

  function RequiredBy(deps: Deps, svc: string): seq<string> {
    if svc in deps then deps[svc] else []
  }

  /** `s` contains what its members require, and what everything requires. */
  ghost predicate Closed(deps: Deps, s: set<string>) {
    forall svc, dep :: (svc in s || svc == ALL) && dep in RequiredBy(deps, svc) ==> dep in s
  }

  ghost predicate LeastClosed(deps: Deps, selected: set<string>, s: set<string>) {
    && selected <= s && Closed(deps, s)
    && forall c :: selected <= c && Closed(deps, c) ==> s <= c
  }

  /** One service requires the next, from a selected service or one that everything requires. */
  ghost predicate Chain(deps: Deps, selected: set<string>, p: seq<string>) {
    && p != [] && (p[0] in selected || p[0] in RequiredBy(deps, ALL))
    && forall i :: 0 <= i < |p| - 1 ==> p[i + 1] in RequiredBy(deps, p[i])
  }

  ghost predicate Needed(deps: Deps, selected: set<string>, svc: string) {
    exists p :: Chain(deps, selected, p) && p[|p| - 1] == svc
  }

  function AllDeps(deps: Deps): set<string> {
    set svc, dep | svc in deps && dep in deps[svc] :: dep
  }

  method FixDependencies(deps: Deps, selected: seq<string>) returns (services: seq<string>)
    ensures LeastClosed(deps, set svc | svc in selected, set svc | svc in services)
    ensures forall svc :: svc in selected ==> svc in services
    ensures forall svc, dep :: svc in deps && (svc in services || svc == "all") && dep in deps[svc] ==> dep in services
    ensures forall svc :: svc in services ==> Leads(deps, selected, svc)
    ensures forall i, j :: 0 <= i < j < |services| ==> services[i] != services[j]
  {
    var svcSet := set svc | svc in selected;
    ghost var chosen := svcSet;
    while true
      invariant chosen <= svcSet <= chosen + AllDeps(deps)
      invariant BelowEveryClosure(deps, chosen, svcSet)
      decreases chosen + AllDeps(deps) - svcSet
    {
      var baseSet := svcSet;
      svcSet := AddRequired(deps, baseSet, chosen);
      if svcSet == baseSet {
        break;
      }
    }
    services := ToList(svcSet);
    LeastIsLed(deps, selected, services, svcSet);
  }

  /** Requirements lead to the service, step by step: from a selected one, or from what
      everything requires, each requires the next. */
  ghost predicate Leads(deps: Deps, selected: seq<string>, svc: string) {
    exists p: seq<string> :: IsLead(deps, selected, p) && p[|p| - 1] == svc
  }

  ghost predicate IsLead(deps: Deps, selected: seq<string>, p: seq<string>) {
    && p != [] && (p[0] in selected || ("all" in deps && p[0] in deps["all"]))
    && forall i :: 0 <= i < |p| - 1 ==> p[i] in deps && p[i + 1] in deps[p[i]]
  }

  lemma LeastIsLed(deps: Deps, selected: seq<string>, services: seq<string>, s: set<string>)
    requires (set svc | svc in services) == s && LeastClosed(deps, (set svc | svc in selected), s)
    ensures forall svc :: svc in selected ==> svc in services
    ensures forall svc, dep :: svc in deps && (svc in services || svc == "all") && dep in deps[svc] ==> dep in services
    ensures forall svc :: svc in services ==> Leads(deps, selected, svc)
  {
    var chosen := set svc | svc in selected;
    ClosureIsWhatIsNeeded(deps, chosen, s);
    forall svc | svc in selected ensures svc in services {
      assert svc in s;
    }
    forall svc, dep | svc in deps && (svc in services || svc == "all") && dep in deps[svc] ensures dep in services {
      assert dep in RequiredBy(deps, svc) && dep in s;
    }
    forall svc | svc in services ensures Leads(deps, selected, svc) {
      assert svc in s;
      var p :| Chain(deps, chosen, p) && p[|p| - 1] == svc;
      forall i | 0 <= i < |p| - 1 ensures p[i] in deps && p[i + 1] in deps[p[i]] {
        assert p[i + 1] in RequiredBy(deps, p[i]);
      }
      assert IsLead(deps, selected, p);
    }
  }

  ghost predicate BelowEveryClosure(deps: Deps, selected: set<string>, s: set<string>) {
    forall c :: selected <= c && Closed(deps, c) ==> s <= c
  }

  /** One pass over the services, in any order, that grows the set as it goes. */
  method AddRequired(deps: Deps, baseSet: set<string>, ghost selected: set<string>) returns (svcSet: set<string>)
    requires BelowEveryClosure(deps, selected, baseSet)
    ensures baseSet <= svcSet <= baseSet + AllDeps(deps)
    ensures BelowEveryClosure(deps, selected, svcSet)
    ensures svcSet == baseSet ==> Closed(deps, svcSet)
  {
    svcSet := baseSet;
    var todo := baseSet + {ALL};
    while todo != {}
      invariant todo <= baseSet + {ALL} && baseSet <= svcSet <= baseSet + AllDeps(deps)
      invariant BelowEveryClosure(deps, selected, svcSet)
      invariant forall svc :: svc in baseSet + {ALL} && svc !in todo ==>
          forall dep :: dep in RequiredBy(deps, svc) ==> dep in svcSet
      decreases |todo|
    {
      var svc :| svc in todo;
      svcSet := AddRequiredBy(deps, svc, baseSet, svcSet, selected);
      todo := todo - {svc};
    }
  }

  lemma RequiredIsBelow(deps: Deps, svc: string, dep: string, baseSet: set<string>, svcSet: set<string>,
      selected: set<string>)
    requires svc in baseSet + {ALL} && dep in RequiredBy(deps, svc)
    requires BelowEveryClosure(deps, selected, baseSet) && BelowEveryClosure(deps, selected, svcSet)
    ensures dep in AllDeps(deps) && BelowEveryClosure(deps, selected, svcSet + {dep})
  {
    forall c | selected <= c && Closed(deps, c) ensures svcSet + {dep} <= c {
      assert baseSet <= c && svcSet <= c;
    }
  }

  /** The inner loop, for one service. */
  method AddRequiredBy(deps: Deps, svc: string, ghost baseSet: set<string>, svcSet: set<string>,
      ghost selected: set<string>)
    returns (svcSet': set<string>)
    requires svc in baseSet + {ALL} && baseSet <= svcSet && BelowEveryClosure(deps, selected, svcSet)
    requires BelowEveryClosure(deps, selected, baseSet)
    ensures svcSet <= svcSet' <= svcSet + AllDeps(deps)
    ensures forall dep :: dep in RequiredBy(deps, svc) ==> dep in svcSet'
    ensures BelowEveryClosure(deps, selected, svcSet')
  {
    var required := RequiredBy(deps, svc);
    svcSet' := svcSet;
    for i := 0 to |required|
      invariant svcSet <= svcSet' <= svcSet + AllDeps(deps)
      invariant BelowEveryClosure(deps, selected, svcSet')
      invariant forall j :: 0 <= j < i ==> required[j] in svcSet'
    {
      RequiredIsBelow(deps, svc, required[i], baseSet, svcSet', selected);
      if required[i] !in svcSet' {
        svcSet' := svcSet' + {required[i]};
      }
    }
  }

  method ToList(s: set<string>) returns (l: seq<string>)
    ensures (set x | x in l) == s
    ensures forall i, j :: 0 <= i < j < |l| ==> l[i] != l[j]
  {
    l := [];
    var todo := s;
    while todo != {}
      invariant todo <= s && (forall x :: x in l <==> x in s - todo)
      invariant forall i, j :: 0 <= i < j < |l| ==> l[i] != l[j]
      decreases |todo|
    {
      var x :| x in todo;
      assert x !in l && forall i :: 0 <= i < |l| ==> l[i] in l;
      l, todo := l + [x], todo - {x};
    }
  }

  // What the closure is, whatever order the loop runs in.

  lemma {:induction false} ChainStaysInside(deps: Deps, selected: set<string>, c: set<string>, p: seq<string>, i: nat)
    requires selected <= c && Closed(deps, c) && Chain(deps, selected, p) && i < |p|
    ensures p[i] in c
  {
    if i == 0 {
      assert p[0] in selected || p[0] in RequiredBy(deps, ALL);
    } else {
      ChainStaysInside(deps, selected, c, p, i - 1);
      assert p[i - 1 + 1] in RequiredBy(deps, p[i - 1]);
    }
  }

  lemma NeededPropagates(deps: Deps, selected: set<string>, svc: string, dep: string)
    requires dep in RequiredBy(deps, svc) && (svc == ALL || Needed(deps, selected, svc))
    ensures Needed(deps, selected, dep)
  {
    if svc == ALL {
      assert Chain(deps, selected, [dep]);
    } else {
      var p :| Chain(deps, selected, p) && p[|p| - 1] == svc;
      var q := p + [dep];
      assert Chain(deps, selected, q) && q[|q| - 1] == dep;
    }
  }

  /** The least closed set is exactly what some chain of requirements leads to. */
  lemma ClosureIsWhatIsNeeded(deps: Deps, selected: set<string>, s: set<string>)
    requires LeastClosed(deps, selected, s)
    ensures forall svc :: svc in s <==> Needed(deps, selected, svc)
  {
    var c := set svc | svc in s && Needed(deps, selected, svc);
    forall svc | svc in selected ensures svc in c {
      assert Chain(deps, selected, [svc]);
    }
    forall svc, dep | (svc in c || svc == ALL) && dep in RequiredBy(deps, svc) ensures dep in c {
      NeededPropagates(deps, selected, svc, dep);
    }
    assert s <= c;
    forall svc | Needed(deps, selected, svc) ensures svc in s {
      var p :| Chain(deps, selected, p) && p[|p| - 1] == svc;
      ChainStaysInside(deps, selected, s, p, |p| - 1);
    }
  }

  /** Closing two selections together is closing each of them: the closure of a selection
      is monotone, idempotent and decided service by service. */
  lemma ClosureOfUnion(deps: Deps, a: set<string>, b: set<string>, closedA: set<string>, closedB: set<string>,
      s: set<string>)
    requires LeastClosed(deps, a, closedA) && LeastClosed(deps, b, closedB)
    ensures LeastClosed(deps, a + b, s) <==> s == closedA + closedB
    ensures LeastClosed(deps, closedA, closedA)
    ensures a <= b ==> closedA <= closedB
  {
    assert LeastClosed(deps, a + b, closedA + closedB) by {
      forall c | a + b <= c && Closed(deps, c) ensures closedA + closedB <= c {
      }
    }
    if LeastClosed(deps, a + b, s) {
      assert s <= closedA + closedB && closedA + closedB <= s;
    }
  }
}
