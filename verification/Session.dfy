/** A test session (tests/conftest.py): before the tests of a module run, the workshop
    left over from the previous module is torn down and the module's own is set up; the
    session remembers the workshop it last set up. */
module Session {
  import opened Wrappers
  import opened Orchestrator
  import opened Labs

  /** What setting up one workshop does, once its prerequisites are set up. */
  datatype Step = BeforeSetup | RunLab(lab: Lab) | AfterSetup

  datatype Event =
    | Ran(workshop: Id, steps: seq<Step>)
    | TornDown(workshop: Id)
    | SetupStarts(workshop: Id)
    | Tested(workshop: Id)

  function LabSteps(labs: seq<Lab>): (s: seq<Step>)
    ensures |s| == |labs| && forall i :: 0 <= i < |labs| ==> s[i] == RunLab(labs[i])
  {
    seq(|labs|, i requires 0 <= i < |labs| => RunLab(labs[i]))
  }

  function StepsOf(members: seq<string>, cutoff: nat): seq<Step> {
    [BeforeSetup] + LabSteps(LabsToRun(members, cutoff)) + [AfterSetup]
  }

  function RunEvent(ws: Catalog, run: Run): Event {
    Ran(run.workshop, if run.workshop in ws then StepsOf(ws[run.workshop].members, run.lab) else [])
  }

  function SetupEvents(ws: Catalog, plan: seq<Run>): seq<Event> {
    seq(|plan|, i requires 0 <= i < |plan| => RunEvent(ws, plan[i]))
  }

  function TeardownEvents(plan: seq<Id>): (s: seq<Event>)
    ensures |s| == |plan| && forall i :: 0 <= i < |plan| ==> s[i] == TornDown(plan[i])
  {
    seq(|plan|, i requires 0 <= i < |plan| => TornDown(plan[i]))
  }

  lemma SetupEventsOfSum(ws: Catalog, a: seq<Run>, b: seq<Run>)
    ensures SetupEvents(ws, a + b) == SetupEvents(ws, a) + SetupEvents(ws, b)
  {
  }

  lemma TeardownEventsOfSum(a: seq<Id>, b: seq<Id>)
    ensures TeardownEvents(a + b) == TeardownEvents(a) + TeardownEvents(b)
  {
  }

  lemma PrereqsPlanOneMore(ws: Catalog, w: Id, i: nat)
    requires Ready(ws) && Runnable(ws, w) && i < |ws[w].prereqs| && ws[w].prereqs[i].workshop in ws
    ensures var p := ws[w].prereqs[i];
            SetupEvents(ws, PrereqsPlan(ws, w, i + 1)) ==
            SetupEvents(ws, PrereqsPlan(ws, w, i)) + SetupEvents(ws, SetupPlan(ws, p.workshop, Cutoff(p)))
  {
    var p := ws[w].prereqs[i];
    SetupEventsOfSum(ws, PrereqsPlan(ws, w, i), SetupPlan(ws, p.workshop, Cutoff(p)));
  }

  lemma PrereqsTeardownOneMore(ws: Catalog, w: Id, i: nat)
    requires Ready(ws) && Runnable(ws, w) && i < |ws[w].prereqs| && ws[w].prereqs[i].workshop in ws
    ensures TeardownEvents(PrereqsTeardown(ws, w, i + 1)) ==
            TeardownEvents(PrereqsTeardown(ws, w, i)) + TeardownEvents(TeardownPlan(ws, ws[w].prereqs[i].workshop))
  {
    TeardownEventsOfSum(PrereqsTeardown(ws, w, i), TeardownPlan(ws, ws[w].prereqs[i].workshop));
  }

  class TestSession {
    const ws: Catalog
    const setupFlag: bool
    const teardownFlag: bool
    var last: Option<Id>
    var log: seq<Event>

    constructor (ws: Catalog, setupFlag: bool, teardownFlag: bool)
      ensures this.ws == ws && this.setupFlag == setupFlag && this.teardownFlag == teardownFlag
      ensures last == None && log == []
    {
      this.ws, this.setupFlag, this.teardownFlag := ws, setupFlag, teardownFlag;
      last, log := None, [];
    }

    method ExecuteSetup(w: Id, lab: nat)
      requires Ready(ws) && w in ws
      modifies `log
      ensures log == old(log) + SetupEvents(ws, SetupPlan(ws, w, lab))
      decreases Rank(ws, w), 1
    {
      if !ws[w].runnable {
        return;
      }
      SetupPrereqs(w);
      var steps := RunLabs(w, lab);
      log := log + [Ran(w, steps)];
      SetupEventsOfSum(ws, PrereqsPlan(ws, w, |ws[w].prereqs|), [Run(w, lab)]);
      assert SetupEvents(ws, [Run(w, lab)]) == [RunEvent(ws, Run(w, lab))];
    }

    method RunLabs(w: Id, lab: nat) returns (steps: seq<Step>)
      requires w in ws
      ensures steps == StepsOf(ws[w].members, lab)
    {
      var labs := LabFunctions(ws[w].members);
      steps := [];
      for i := 0 to |labs|
        invariant steps == LabSteps(Below(labs[..i], lab))
      {
        BelowAppend(labs, i, lab);
        if labs[i].number < lab {
          steps := steps + [RunLab(labs[i])];
        }
      }
      assert labs[..|labs|] == labs;
      steps := [BeforeSetup] + steps + [AfterSetup];
    }

    method SetupPrereqs(w: Id)
      requires Ready(ws) && Runnable(ws, w)
      modifies `log
      ensures log == old(log) + SetupEvents(ws, PrereqsPlan(ws, w, |ws[w].prereqs|))
      decreases Rank(ws, w), 0
    {
      var prereqs := ws[w].prereqs;
      for i := 0 to |prereqs|
        invariant log == old(log) + SetupEvents(ws, PrereqsPlan(ws, w, i))
      {
        PrereqRanksLower(ws, w, i);
        PrereqsPlanOneMore(ws, w, i);
        ExecuteSetup(prereqs[i].workshop, Cutoff(prereqs[i]));
      }
    }

    method ExecuteTeardown(w: Id)
      requires Ready(ws) && w in ws
      modifies `log
      ensures log == old(log) + TeardownEvents(TeardownPlan(ws, w))
      decreases Rank(ws, w), 1
    {
      if !ws[w].runnable {
        return;
      }
      log := log + [TornDown(w)];
      TeardownPrereqs(w);
      TeardownEventsOfSum([w], PrereqsTeardown(ws, w, |ws[w].prereqs|));
    }

    method TeardownPrereqs(w: Id)
      requires Ready(ws) && Runnable(ws, w)
      modifies `log
      ensures log == old(log) + TeardownEvents(PrereqsTeardown(ws, w, |ws[w].prereqs|))
      decreases Rank(ws, w), 0
    {
      var prereqs := ws[w].prereqs;
      for i := 0 to |prereqs|
        invariant log == old(log) + TeardownEvents(PrereqsTeardown(ws, w, i))
      {
        PrereqRanksLower(ws, w, i);
        PrereqsTeardownOneMore(ws, w, i);
        ExecuteTeardown(prereqs[i].workshop);
      }
    }

    /** workshop_teardown: one workshop, or every registered one in any order. */
    method WorkshopTeardown(target: Option<Id>) returns (ghost order: seq<Id>)
      requires Ready(ws)
      modifies `log
      ensures IsTeardownOrder(ws, target, order) && log == old(log) + TeardownOf(ws, order)
    {
      order := [];
      if target.Some? && target.value in ws {
        ExecuteTeardown(target.value);
        order := [target.value];
        TeardownOfMore(ws, [], target.value);
      } else if target.None? {
        var todo := ws.Keys;
        while todo != {}
          invariant todo <= ws.Keys && multiset(order) + multiset(todo) == multiset(ws.Keys)
          invariant log == old(log) + TeardownOf(ws, order)
          decreases |todo|
        {
          var w :| w in todo;
          TeardownOfMore(ws, order, w);
          Regroup(old(log), TeardownOf(ws, order), TeardownEventsFor(ws, w));
          ExecuteTeardown(w);
          order, todo := order + [w], todo - {w};
        }
      }
    }

    /** setup_all: what happens before the tests of a module of workshop `w`. */
    method SetupAll(w: Id) returns (skip: bool, ghost order: seq<Id>)
      requires Ready(ws) && (last.Some? ==> Runnable(ws, last.value))
      modifies this
      ensures skip <==> setupFlag && !Runnable(ws, w)
      ensures IsTeardownOrder(ws, old(last), order)
      ensures last == if setupFlag then Remembered(ws, old(last), w) else old(last)
      ensures log == old(log) + if setupFlag then SetupAllEvents(ws, old(last), w, order) else []
    {
      skip, order := false, SomeTeardownOrder(ws, last);
      if setupFlag && last != Some(w) {
        order := WorkshopTeardown(last);
        if !Runnable(ws, w) {
          skip := true;
          return;
        }
        log := log + [SetupStarts(w)];
        ExecuteSetup(w, NO_LIMIT);
        RegroupSetup(old(log), TeardownOf(ws, order), [SetupStarts(w)], SetupEvents(ws, SetupPlan(ws, w, 99)));
        last := Some(w);
      }
    }

    /** Runs the tests of a module, unless its setup skips them. */
    method RunModule(w: Id) returns (ghost order: seq<Id>)
      requires Ready(ws) && (last.Some? ==> Runnable(ws, last.value))
      modifies this
      ensures IsTeardownOrder(ws, old(last), order)
      ensures last == if setupFlag then Remembered(ws, old(last), w) else old(last)
      ensures log == old(log) + if setupFlag then ModuleEvents(ws, old(last), w, order) else [Tested(w)]
    {
      var skip;
      skip, order := SetupAll(w);
      if !skip {
        log := log + [Tested(w)];
      }
    }

    method FinalTeardown()
      requires Ready(ws)
      modifies `log
      ensures log == old(log) + FinalEvents(ws, if teardownFlag then last else None)
    {
      if teardownFlag && last.Some? {
        ghost var order := WorkshopTeardown(last);
        TeardownOfOne(ws, last.value, order);
      }
    }

    /** These modules have been run, and no others. */
    ghost predicate HasRunModules(modules: seq<Id>, orders: seq<seq<Id>>)
      requires Ready(ws)
      reads this
    {
      && (last.Some? ==> Runnable(ws, last.value))
      && if setupFlag then InSession(ws, modules, orders, last, log) else log == TestEvents(modules) && last == None
    }

    method RunOneMore(ghost modules: seq<Id>, w: Id, ghost orders: seq<seq<Id>>) returns (ghost orders': seq<seq<Id>>)
      requires Ready(ws) && HasRunModules(modules, orders)
      modifies this
      ensures HasRunModules(modules + [w], orders')
    {
      ghost var order := RunModule(w);
      orders' := orders + [order];
      if setupFlag {
        OneMoreModule(ws, modules, w, orders, order, old(last), old(log));
      }
    }

    method RunModules(modules: seq<Id>) returns (ghost orders: seq<seq<Id>>)
      requires Ready(ws) && last == None && log == []
      modifies this
      ensures HasRunModules(modules, orders)
    {
      orders := [];
      ghost var done := [];
      StartsAtNothing(ws);
      for i := 0 to |modules|
        invariant done == modules[..i] && HasRunModules(done, orders)
      {
        orders := RunOneMore(done, modules[i], orders);
        done := done + [modules[i]];
      }
      assert done == modules;
    }

    /** A whole session over the modules in the order in which they are collected. Its
        tests are all safe exactly when no module returns to a workshop that was torn down
        to no purpose; without setup, it only runs the tests. `up` is what was set up before
        the session began. */
    method RunSession(modules: seq<Id>, ghost up: set<Id>) returns (ghost orders: seq<seq<Id>>)
      requires Ready(ws) && last == None && log == []
      requires up <= CoveredBy(ws, None)
      modifies this
      ensures setupFlag ==> OrdersFit(ws, modules, orders) && last == LastOf(ws, modules)
      ensures setupFlag ==>
                log == SessionEvents(ws, modules, orders) + FinalEvents(ws, if teardownFlag then last else None)
      ensures setupFlag ==> KeepsPromises(ws, up, modules, log, teardownFlag)
      ensures !setupFlag ==> log == TestEvents(modules)
    {
      orders := RunModules(modules);
      FinalTeardown();
      if setupFlag {
        SessionKeepsPromises(ws, up, modules, orders, teardownFlag);
      }
    }
  }

  // The whole log, given the orders in which all workshops are torn down when nothing is
  // remembered.

  ghost predicate IsTeardownOrder(ws: Catalog, target: Option<Id>, order: seq<Id>) {
    match target
    case None => multiset(order) == multiset(ws.Keys)
    case Some(w) => order == if w in ws then [w] else []
  }

  lemma {:induction false} ListingExists(s: set<Id>) returns (order: seq<Id>)
    ensures multiset(order) == multiset(s)
    decreases |s|
  {
    if s == {} {
      order := [];
    } else {
      var w :| w in s;
      var rest := ListingExists(s - {w});
      order := [w] + rest;
      assert s == s - {w} + {w};
    }
  }

  lemma TeardownOrderExists(ws: Catalog, target: Option<Id>)
    ensures exists order :: IsTeardownOrder(ws, target, order)
  {
    var all := ListingExists(ws.Keys);
    assert IsTeardownOrder(ws, None, all);
    if target.Some? {
      assert IsTeardownOrder(ws, target, if target.value in ws then [target.value] else []);
    }
  }

  ghost function SomeTeardownOrder(ws: Catalog, target: Option<Id>): (order: seq<Id>)
    ensures IsTeardownOrder(ws, target, order)
  {
    TeardownOrderExists(ws, target);
    var order :| IsTeardownOrder(ws, target, order);
    order
  }

  /** Teardowns of the given workshops, one after the other. */
  ghost function TeardownOf(ws: Catalog, order: seq<Id>): seq<Event>
    requires Ready(ws)
  {
    if order == [] then []
    else
      var n := |order| - 1;
      TeardownOf(ws, order[..n]) + TeardownEventsFor(ws, order[n])
  }

  ghost function TeardownEventsFor(ws: Catalog, w: Id): seq<Event>
    requires Ready(ws)
  {
    if w in ws then TeardownEvents(TeardownPlan(ws, w)) else []
  }

  lemma TeardownOfMore(ws: Catalog, order: seq<Id>, w: Id)
    requires Ready(ws)
    ensures TeardownOf(ws, order + [w]) == TeardownOf(ws, order) + TeardownEventsFor(ws, w)
    ensures TeardownOf(ws, [w]) == TeardownEventsFor(ws, w)
  {
    assert (order + [w])[..|order|] == order && [w][..0] == [];
    assert TeardownOf(ws, [w]) == [] + TeardownEventsFor(ws, w);
  }

  lemma TeardownOfOne(ws: Catalog, w: Id, order: seq<Id>)
    requires Ready(ws) && IsTeardownOrder(ws, Some(w), order)
    ensures TeardownOf(ws, order) == TeardownEventsFor(ws, w)
  {
    if w in ws {
      TeardownOfMore(ws, [], w);
    }
  }

  ghost function FinalEvents(ws: Catalog, last: Option<Id>): seq<Event>
    requires Ready(ws)
  {
    match last
    case None => []
    case Some(w) => TeardownEventsFor(ws, w)
  }

  function Remembered(ws: Catalog, last: Option<Id>, w: Id): Option<Id> {
    if Runnable(ws, w) then Some(w) else last
  }

  /** What happens before the tests of a module. */
  ghost function SetupAllEvents(ws: Catalog, last: Option<Id>, w: Id, order: seq<Id>): seq<Event>
    requires Ready(ws)
  {
    if last == Some(w) then []
    else
      TeardownOf(ws, order) +
      if Runnable(ws, w) then [SetupStarts(w)] + SetupEvents(ws, SetupPlan(ws, w, 99)) else []
  }

  ghost function ModuleEvents(ws: Catalog, last: Option<Id>, w: Id, order: seq<Id>): seq<Event>
    requires Ready(ws)
  {
    SetupAllEvents(ws, last, w, order) + if Runnable(ws, w) then [Tested(w)] else []
  }

  /** The workshop of the last runnable module. */
  function LastOf(ws: Catalog, modules: seq<Id>): Option<Id> {
    if modules == [] then None
    else
      var n := |modules| - 1;
      Remembered(ws, LastOf(ws, modules[..n]), modules[n])
  }

  ghost predicate OrdersFit(ws: Catalog, modules: seq<Id>, orders: seq<seq<Id>>)
    decreases |modules|
  {
    |orders| == |modules| &&
    (modules == [] ||
     var n := |modules| - 1;
     OrdersFit(ws, modules[..n], orders[..n]) && IsTeardownOrder(ws, LastOf(ws, modules[..n]), orders[n]))
  }

  ghost function SessionEvents(ws: Catalog, modules: seq<Id>, orders: seq<seq<Id>>): seq<Event>
    requires Ready(ws) && |orders| == |modules|
  {
    if modules == [] then []
    else
      var n := |modules| - 1;
      SessionEvents(ws, modules[..n], orders[..n]) + ModuleEvents(ws, LastOf(ws, modules[..n]), modules[n], orders[n])
  }

  lemma StartsAtNothing(ws: Catalog)
    requires Ready(ws)
    ensures InSession(ws, [], [], None, []) && TestEvents([]) == []
  {
  }

  /** The session has run these modules, and no others. */
  ghost predicate InSession(ws: Catalog, modules: seq<Id>, orders: seq<seq<Id>>, last: Option<Id>, log: seq<Event>)
    requires Ready(ws)
  {
    OrdersFit(ws, modules, orders) && last == LastOf(ws, modules) && log == SessionEvents(ws, modules, orders)
  }

  lemma OneMoreModule(ws: Catalog, modules: seq<Id>, w: Id, orders: seq<seq<Id>>, order: seq<Id>,
                      last: Option<Id>, log: seq<Event>)
    requires Ready(ws) && InSession(ws, modules, orders, last, log) && IsTeardownOrder(ws, last, order)
    ensures InSession(ws, modules + [w], orders + [order], Remembered(ws, last, w),
                      log + ModuleEvents(ws, last, w, order))
  {
    var ms, os, n := modules + [w], orders + [order], |modules|;
    assert ms[..n] == modules && ms[n] == w && os[..n] == orders && os[n] == order;
    assert OrdersFit(ws, ms, os);
  }

  function TestEvents(modules: seq<Id>): (s: seq<Event>)
    ensures |s| == |modules| && forall i :: 0 <= i < |modules| ==> s[i] == Tested(modules[i])
  {
    seq(|modules|, i requires 0 <= i < |modules| => Tested(modules[i]))
  }

  lemma BelowAppend(labs: seq<Lab>, i: nat, cutoff: nat)
    requires i < |labs|
    ensures Below(labs[..i + 1], cutoff) == Below(labs[..i], cutoff) + if labs[i].number < cutoff then [labs[i]] else []
  {
    assert labs[..i + 1][..i] == labs[..i];
  }

  // Which workshops are set up at each point of the log.

  function UpAfter(up: set<Id>, log: seq<Event>): set<Id> {
    if log == [] then up
    else
      var before := UpAfter(up, log[..|log| - 1]);
      match log[|log| - 1]
      case Ran(w, _) => before + {w}
      case TornDown(w) => before - {w}
      case SetupStarts(_) => before
      case Tested(_) => before
  }

  lemma {:induction false} UpAfterSum(up: set<Id>, a: seq<Event>, b: seq<Event>)
    ensures UpAfter(up, a + b) == UpAfter(UpAfter(up, a), b)
  {
    if b == [] {
      assert a + b == a;
    } else {
      var n := |b| - 1;
      UpAfterSum(up, a, b[..n]);
      assert (a + b)[..|a| + n] == a + b[..n];
    }
  }

  function Workshops(plan: seq<Run>): set<Id> {
    set run | run in plan :: run.workshop
  }

  lemma WorkshopsOneMore(plan: seq<Run>, run: Run)
    ensures Workshops(plan + [run]) == Workshops(plan) + {run.workshop}
  {
    forall r | r in plan ensures r in plan + [run] {
    }
    assert run in plan + [run];
  }

  ghost predicate SetsUp(ws: Catalog, up: set<Id>, plan: seq<Run>) {
    UpAfter(up, SetupEvents(ws, plan)) == up + Workshops(plan)
  }

  lemma SetsUpOneMore(ws: Catalog, up: set<Id>, plan: seq<Run>, run: Run)
    requires SetsUp(ws, up, plan)
    ensures SetsUp(ws, up, plan + [run])
  {
    var log := SetupEvents(ws, plan + [run]);
    assert log[..|plan|] == SetupEvents(ws, plan) && log[|plan|] == RunEvent(ws, run);
    WorkshopsOneMore(plan, run);
  }

  lemma {:induction false} UpAfterSetup(ws: Catalog, up: set<Id>, plan: seq<Run>)
    ensures SetsUp(ws, up, plan)
  {
    if plan == [] {
      assert SetupEvents(ws, plan) == [] && Workshops(plan) == {};
    } else {
      var init, run := plan[..|plan| - 1], plan[|plan| - 1];
      UpAfterSetup(ws, up, init);
      SetsUpOneMore(ws, up, init, run);
      assert plan == init + [run];
    }
  }

  lemma {:induction false} UpAfterTeardown(up: set<Id>, plan: seq<Id>)
    ensures UpAfter(up, TeardownEvents(plan)) == up - set w | w in plan
  {
    if plan != [] {
      var n := |plan| - 1;
      UpAfterTeardown(up, plan[..n]);
      assert TeardownEvents(plan)[..n] == TeardownEvents(plan[..n]);
      assert plan == plan[..n] + [plan[n]];
    }
  }

  /** A workshop together with its runnable prerequisites, if it is runnable itself. */
  ghost function Reach(ws: Catalog, w: Id): set<Id> {
    set v | v in ws && Reaches(ws, w, v)
  }

  lemma SetupPlanCovers(ws: Catalog, w: Id, lab: nat)
    requires Ready(ws) && w in ws
    ensures Workshops(SetupPlan(ws, w, lab)) == Reach(ws, w)
    ensures (set v | v in TeardownPlan(ws, w)) == Reach(ws, w)
  {
    var plan := SetupPlan(ws, w, lab);
    var down := TeardownPlan(ws, w);
    SetupPutsPrereqsFirst(ws, w, lab);
    TeardownMirrorsSetup(ws, w, lab);
    PlanNames(plan);
    forall v ensures v in Reach(ws, w) <==> v in Names(plan) {
      SetupRunsWhatIsReachable(ws, w, lab, v);
    }
    forall v ensures v in down <==> v in Names(plan) {
      assert v in multiset(down) <==> v in multiset(Names(plan));
    }
  }

  lemma PlanNames(plan: seq<Run>)
    ensures Workshops(plan) == (set v | v in Names(plan))
    ensures forall v :: v in Names(plan) <==> InPlan(plan, v)
  {
    var names := Names(plan);
    forall v ensures v in names <==> InPlan(plan, v) {
      if v in names {
        var i :| 0 <= i < |names| && names[i] == v;
        assert plan[i].workshop == v;
      }
      if InPlan(plan, v) {
        var i :| 0 <= i < |plan| && plan[i].workshop == v;
        assert names[i] == v;
      }
    }
    forall v | v in names ensures v in Workshops(plan) {
      var i :| 0 <= i < |plan| && plan[i].workshop == v;
    }
    forall run | run in plan ensures run.workshop in names {
      assert InPlan(plan, run.workshop);
    }
  }

  lemma ReachIncludesItself(ws: Catalog, w: Id)
    ensures Runnable(ws, w) ==> w in Reach(ws, w)
    ensures !Runnable(ws, w) ==> Reach(ws, w) == {}
    ensures forall v :: v in Reach(ws, w) ==> Runnable(ws, v)
  {
    if Runnable(ws, w) {
      assert RunnablePath(ws, [w]);
    }
  }

  // What a session promises about its log.

  /** Tests of a workshop run only when exactly it and its runnable prerequisites are set up. */
  ghost predicate TestsSafe(ws: Catalog, up: set<Id>, log: seq<Event>) {
    forall i :: 0 <= i < |log| && log[i].Tested? ==> UpAfter(up, log[..i]) == Reach(ws, log[i].workshop)
  }

  /** Nothing is set up when a new setup begins. */
  ghost predicate StartsClean(up: set<Id>, log: seq<Event>) {
    forall i :: 0 <= i < |log| && log[i].SetupStarts? ==> UpAfter(up, log[..i]) == {}
  }

  function TestsIn(log: seq<Event>): seq<Id> {
    if log == [] then []
    else
      var n := |log| - 1;
      TestsIn(log[..n]) + if log[n].Tested? then [log[n].workshop] else []
  }

  function SetupsIn(log: seq<Event>): seq<Id> {
    if log == [] then []
    else
      var n := |log| - 1;
      SetupsIn(log[..n]) + if log[n].SetupStarts? then [log[n].workshop] else []
  }

  /** The workshop was run once, after its `before_setup` and before its `after_setup`: all
      its labs numbered below the cut-off, in order. */
  ghost predicate Complete(ws: Catalog, e: Event, w: Id, cutoff: nat) {
    && e.Ran? && e.workshop == w && w in ws
    && exists labs :: InOrder(labs, ws[w].members, cutoff) && e.steps == [BeforeSetup] + LabSteps(labs) + [AfterSetup]
  }

  /** A prerequisite has been run, all of it or up to the lab asked for, and since then there
      have been runs only. */
  ghost predicate HasRun(ws: Catalog, log: seq<Event>, p: Prereq) {
    exists j :: 0 <= j < |log| && (forall k :: j <= k < |log| ==> log[k].Ran?) &&
      match p
      case Whole(v) => Complete(ws, log[j], v, 99)
      case UpTo(v, lab) => Complete(ws, log[j], v, lab)
  }

  /** Every run of a workshop is complete up to some lab, and follows runs of all runnable
      prerequisites of the workshop. */
  ghost predicate Thorough(ws: Catalog, log: seq<Event>) {
    forall i :: 0 <= i < |log| && log[i].Ran? ==> RunIsThorough(ws, log[..i], log[i])
  }

  ghost predicate RunIsThorough(ws: Catalog, before: seq<Event>, e: Event)
    requires e.Ran?
  {
    && (exists cutoff :: Complete(ws, e, e.workshop, cutoff))
    && e.workshop in ws
    && forall p :: p in ws[e.workshop].prereqs && Runnable(ws, p.workshop) ==> HasRun(ws, before, p)
  }

  /** Since the workshop was run with all its labs, there have been tests only. */
  ghost predicate SetUpLast(ws: Catalog, log: seq<Event>, w: Id) {
    exists j :: 0 <= j < |log| && Complete(ws, log[j], w, 99) && forall k :: j < k < |log| ==> log[k].Tested?
  }

  /** Tests run on a workshop that was set up with all its labs right before, except for tests. */
  ghost predicate TestsPrepared(ws: Catalog, log: seq<Event>) {
    forall i :: 0 <= i < |log| && log[i].Tested? ==> SetUpLast(ws, log[..i], log[i].workshop)
  }

  lemma RunIsComplete(ws: Catalog, run: Run)
    requires run.workshop in ws
    ensures Complete(ws, RunEvent(ws, run), run.workshop, run.lab)
  {
    LabsRunInOrder(ws[run.workshop].members, run.lab);
  }

  lemma SetupIsThorough(ws: Catalog, w: Id, lab: nat)
    requires Ready(ws) && w in ws
    ensures Thorough(ws, SetupEvents(ws, SetupPlan(ws, w, lab)))
  {
    var plan := SetupPlan(ws, w, lab);
    var log := SetupEvents(ws, plan);
    SetupPutsPrereqsFirst(ws, w, lab);
    forall i | 0 <= i < |log| ensures RunIsThorough(ws, log[..i], log[i]) {
      RunIsComplete(ws, plan[i]);
      forall p | p in ws[plan[i].workshop].prereqs && Runnable(ws, p.workshop) ensures HasRun(ws, log[..i], p) {
        assert AllPlanned(ws, plan[i].workshop, plan[..i]);
        PlannedHasRun(ws, plan, i, p);
      }
    }
  }

  /** How far a prerequisite asks to be run. */
  function AskedFor(p: Prereq): nat {
    match p
    case Whole(_) => 99
    case UpTo(_, lab) => lab
  }

  lemma HasRunAt(ws: Catalog, log: seq<Event>, p: Prereq, j: nat)
    requires j < |log| && Complete(ws, log[j], p.workshop, AskedFor(p)) && forall k :: j <= k < |log| ==> log[k].Ran?
    ensures HasRun(ws, log, p)
  {
  }

  lemma PlannedHasRun(ws: Catalog, plan: seq<Run>, i: nat, p: Prereq)
    requires i <= |plan| && p.workshop in ws && Run(p.workshop, AskedFor(p)) in plan[..i]
    ensures HasRun(ws, SetupEvents(ws, plan)[..i], p)
  {
    var run := Run(p.workshop, AskedFor(p));
    var log := SetupEvents(ws, plan)[..i];
    var j :| 0 <= j < i && plan[j] == run;
    RunIsComplete(ws, run);
    assert log[j] == RunEvent(ws, run);
    assert forall k :: j <= k < i ==> log[k] == RunEvent(ws, plan[k]);
    HasRunAt(ws, log, p, j);
  }

  lemma SetupEndsWith(ws: Catalog, w: Id, log: seq<Event>)
    requires Ready(ws) && w in ws
    ensures Runnable(ws, w) ==> SetUpLast(ws, log + SetupEvents(ws, SetupPlan(ws, w, NO_LIMIT)), w)
  {
    if Runnable(ws, w) {
      var plan := SetupPlan(ws, w, NO_LIMIT);
      var s := log + SetupEvents(ws, plan);
      PlanFollowsListing(ws, w, NO_LIMIT, 0);
      RunIsComplete(ws, Run(w, NO_LIMIT));
      assert s[|s| - 1] == RunEvent(ws, Run(w, NO_LIMIT));
    }
  }

  lemma HasRunLater(ws: Catalog, a: seq<Event>, b: seq<Event>, p: Prereq)
    requires HasRun(ws, b, p)
    ensures HasRun(ws, a + b, p)
  {
    var j :| 0 <= j < |b| && (forall k :: j <= k < |b| ==> b[k].Ran?) &&
             match p
             case Whole(v) => Complete(ws, b[j], v, 99)
             case UpTo(v, lab) => Complete(ws, b[j], v, lab);
    var s := a + b;
    assert s[|a| + j] == b[j];
    assert forall k :: |a| + j <= k < |s| ==> s[k] == b[k - |a|];
  }

  lemma ThoroughOfSum(ws: Catalog, a: seq<Event>, b: seq<Event>)
    requires Thorough(ws, a) && Thorough(ws, b)
    ensures Thorough(ws, a + b)
  {
    var s := a + b;
    forall i | 0 <= i < |s| && s[i].Ran? ensures RunIsThorough(ws, s[..i], s[i]) {
      if i < |a| {
        assert s[..i] == a[..i];
      } else {
        var before, e := b[..i - |a|], b[i - |a|];
        assert s[..i] == a + before && RunIsThorough(ws, before, e);
        forall p | p in ws[e.workshop].prereqs && Runnable(ws, p.workshop) ensures HasRun(ws, s[..i], p) {
          HasRunLater(ws, a, before, p);
        }
      }
    }
  }

  lemma PreparedOfSum(ws: Catalog, log: seq<Event>, more: seq<Event>)
    requires TestsPrepared(ws, log) && forall i :: 0 <= i < |more| ==> !more[i].Tested?
    ensures TestsPrepared(ws, log + more)
  {
    var s := log + more;
    forall i | 0 <= i < |s| && s[i].Tested? ensures SetUpLast(ws, s[..i], s[i].workshop) {
      assert s[..i] == log[..i];
    }
  }

  lemma StillSetUpLast(ws: Catalog, log: seq<Event>, w: Id)
    requires SetUpLast(ws, log, w)
    ensures SetUpLast(ws, log + [Tested(w)], w)
  {
    var s := log + [Tested(w)];
    var j :| 0 <= j < |log| && Complete(ws, log[j], w, 99) && forall k :: j < k < |log| ==> log[k].Tested?;
    assert s[j] == log[j];
    assert forall k :: j < k < |s| ==> s[k].Tested?;
  }

  lemma PreparedOneMore(ws: Catalog, log: seq<Event>, w: Id)
    requires TestsPrepared(ws, log) && SetUpLast(ws, log, w)
    ensures TestsPrepared(ws, log + [Tested(w)])
  {
    var s := log + [Tested(w)];
    forall i | 0 <= i < |s| && s[i].Tested? ensures SetUpLast(ws, s[..i], s[i].workshop) {
      assert s[..i] == if i < |log| then log[..i] else log;
    }
  }

  /** The log of a session, summed up event by event. */
  ghost predicate SafeSoFar(ws: Catalog, up: set<Id>, log: seq<Event>) {
    log == [] ||
    var n := |log| - 1;
    SafeSoFar(ws, up, log[..n]) && (log[n].Tested? ==> UpAfter(up, log[..n]) == Reach(ws, log[n].workshop))
  }

  ghost predicate CleanSoFar(up: set<Id>, log: seq<Event>) {
    log == [] ||
    var n := |log| - 1;
    CleanSoFar(up, log[..n]) && (log[n].SetupStarts? ==> UpAfter(up, log[..n]) == {})
  }

  lemma SoFarMeansEverywhere(ws: Catalog, up: set<Id>, log: seq<Event>)
    ensures SafeSoFar(ws, up, log) <==> TestsSafe(ws, up, log)
    ensures CleanSoFar(up, log) <==> StartsClean(up, log)
  {
    SafeSoFarIs(ws, up, log);
    CleanSoFarIs(up, log);
  }

  lemma EverywhereOneMore(ws: Catalog, up: set<Id>, log: seq<Event>, e: Event)
    ensures TestsSafe(ws, up, log + [e]) <==>
            TestsSafe(ws, up, log) && (e.Tested? ==> UpAfter(up, log) == Reach(ws, e.workshop))
    ensures StartsClean(up, log + [e]) <==> StartsClean(up, log) && (e.SetupStarts? ==> UpAfter(up, log) == {})
  {
    var s, n := log + [e], |log|;
    assert s[n] == e && s[..n] == log;
    forall i | 0 <= i < n ensures s[i] == log[i] && s[..i] == log[..i] {
    }
  }

  lemma {:induction false} SafeSoFarIs(ws: Catalog, up: set<Id>, log: seq<Event>)
    ensures SafeSoFar(ws, up, log) <==> TestsSafe(ws, up, log)
  {
    if log != [] {
      var init, e := log[..|log| - 1], log[|log| - 1];
      SafeSoFarIs(ws, up, init);
      EverywhereOneMore(ws, up, init, e);
      assert log == init + [e];
    }
  }

  lemma {:induction false} CleanSoFarIs(up: set<Id>, log: seq<Event>)
    ensures CleanSoFar(up, log) <==> StartsClean(up, log)
  {
    if log != [] {
      var init, e := log[..|log| - 1], log[|log| - 1];
      CleanSoFarIs(up, init);
      EverywhereOneMore(map[], up, init, e);
      assert log == init + [e];
    }
  }

  lemma AppendOne(ws: Catalog, up: set<Id>, log: seq<Event>, e: Event)
    ensures SafeSoFar(ws, up, log + [e]) <==>
        SafeSoFar(ws, up, log) && (e.Tested? ==> UpAfter(up, log) == Reach(ws, e.workshop))
    ensures CleanSoFar(up, log + [e]) <==> CleanSoFar(up, log) && (e.SetupStarts? ==> UpAfter(up, log) == {})
    ensures TestsIn(log + [e]) == TestsIn(log) + if e.Tested? then [e.workshop] else []
    ensures SetupsIn(log + [e]) == SetupsIn(log) + if e.SetupStarts? then [e.workshop] else []
    ensures e.SetupStarts? || e.Tested? ==> UpAfter(up, log + [e]) == UpAfter(up, log)
  {
    assert (log + [e])[..|log|] == log;
  }

  ghost predicate Quiet(log: seq<Event>) {
    forall i :: 0 <= i < |log| ==> log[i].Ran? || log[i].TornDown?
  }

  lemma {:induction false} AppendQuiet(ws: Catalog, up: set<Id>, log: seq<Event>, more: seq<Event>)
    requires Quiet(more)
    ensures SafeSoFar(ws, up, log + more) == SafeSoFar(ws, up, log)
    ensures CleanSoFar(up, log + more) == CleanSoFar(up, log)
    ensures TestsIn(log + more) == TestsIn(log) && SetupsIn(log + more) == SetupsIn(log)
  {
    if more == [] {
      assert log + more == log;
    } else {
      var init, e := more[..|more| - 1], more[|more| - 1];
      assert more == init + [e];
      assert Quiet(init);
      AppendQuiet(ws, up, log, init);
      AppendOne(ws, up, log + init, e);
      assert log + more == log + init + [e];
    }
  }

  // Teardowns and setups only add to what is torn down and set up.

  /** `log` is `before` with more setups and teardowns at the end. */
  ghost predicate Grown(ws: Catalog, up: set<Id>, before: seq<Event>, log: seq<Event>) {
    && SafeSoFar(ws, up, log) == SafeSoFar(ws, up, before)
    && CleanSoFar(up, log) == CleanSoFar(up, before)
    && TestsIn(log) == TestsIn(before) && SetupsIn(log) == SetupsIn(before)
    && (Thorough(ws, before) ==> Thorough(ws, log))
    && (TestsPrepared(ws, before) ==> TestsPrepared(ws, log))
  }

  lemma GrownBy(ws: Catalog, up: set<Id>, log: seq<Event>, more: seq<Event>)
    requires Quiet(more) && Thorough(ws, more)
    ensures Grown(ws, up, log, log + more)
  {
    AppendQuiet(ws, up, log, more);
    if Thorough(ws, log) {
      ThoroughOfSum(ws, log, more);
    }
    if TestsPrepared(ws, log) {
      PreparedOfSum(ws, log, more);
    }
  }

  /** What a teardown of a workshop, or of all of them, tears down. */
  ghost function CoveredBy(ws: Catalog, target: Option<Id>): set<Id> {
    match target
    case Some(w) => Reach(ws, w)
    case None => set w | w in ws && Runnable(ws, w)
  }

  ghost function CoveredByAll(ws: Catalog, targets: set<Id>): set<Id> {
    set w, v | w in targets && v in Reach(ws, w) :: v
  }

  lemma CoveredByOneMore(ws: Catalog, targets: set<Id>, w: Id)
    ensures CoveredByAll(ws, targets + {w}) == CoveredByAll(ws, targets) + Reach(ws, w)
  {
  }

  lemma CoveredByAllIsRunnable(ws: Catalog)
    ensures CoveredByAll(ws, ws.Keys) == CoveredBy(ws, None)
  {
    forall w ensures w in CoveredByAll(ws, ws.Keys) <==> w in CoveredBy(ws, None) {
      ReachIncludesItself(ws, w);
      if w in CoveredByAll(ws, ws.Keys) {
        var u :| u in ws.Keys && w in Reach(ws, u);
        ReachIncludesItself(ws, u);
      }
    }
  }

  // The session, seen from its modules alone.

  /** Whether what the session remembers is set up: not asked yet, set up, or torn down. */
  datatype Phase = Untouched | Live | Gone

  datatype Track = Track(last: Option<Id>, phase: Phase, safe: bool)

  function Enter(ws: Catalog, t: Track, w: Id): Track {
    if t.last == Some(w) then t
    else if !Runnable(ws, w) then t.(phase := Gone)
    else t.(last := Some(w), phase := Live)
  }

  function Advance(ws: Catalog, t: Track, w: Id): Track {
    var t' := Enter(ws, t, w);
    if Runnable(ws, w) && t'.phase != Live then t'.(safe := false) else t'
  }

  function TrackOf(ws: Catalog, modules: seq<Id>): Track {
    if modules == [] then Track(None, Untouched, true)
    else
      var n := |modules| - 1;
      Advance(ws, TrackOf(ws, modules[..n]), modules[n])
  }

  /** The session remembers `last`, and its log so far keeps its promises exactly when `t`
      says so. `up` is what was set up before the session began. */
  ghost predicate IsTracked(ws: Catalog, up: set<Id>, last: Option<Id>, log: seq<Event>, t: Track) {
    && last == t.last && (last.Some? ==> Runnable(ws, last.value))
    && (SafeSoFar(ws, up, log) <==> t.safe) && CleanSoFar(up, log)
    && UpAfter(up, log) <= CoveredBy(ws, None)
    && (t.phase.Untouched? ==> last == None && log == [])
    && Thorough(ws, log) && (t.safe ==> TestsPrepared(ws, log))
    && (t.phase.Live? ==> last.Some? && UpAfter(up, log) == Reach(ws, last.value) && SetUpLast(ws, log, last.value))
    && (t.phase.Gone? ==> UpAfter(up, log) == {})
  }

  /** The workshop that a module sets up: its own, if it is runnable and not the one that the
      session remembers. */
  function SetsUpNow(ws: Catalog, last: Option<Id>, w: Id): seq<Id> {
    if Runnable(ws, w) && last != Some(w) then [w] else []
  }

  /** One setup for each module whose workshop is not that of the last runnable module before. */
  ghost function SetupsFor(ws: Catalog, modules: seq<Id>): seq<Id> {
    if modules == [] then []
    else
      var init, w := modules[..|modules| - 1], modules[|modules| - 1];
      SetupsFor(ws, init) + if Runnable(ws, w) && !ClosesFor(ws, init, w) then [w] else []
  }

  lemma OtherEventIsThorough(ws: Catalog, log: seq<Event>, e: Event)
    requires Thorough(ws, log) && !e.Ran?
    ensures Thorough(ws, log + [e])
  {
    assert Thorough(ws, [e]);
    ThoroughOfSum(ws, log, [e]);
  }

  lemma StartIsTracked(ws: Catalog, up: set<Id>)
    requires up <= CoveredBy(ws, None)
    ensures IsTracked(ws, up, None, [], Track(None, Untouched, true))
  {
  }

  lemma LastIsRunnable(ws: Catalog, up: set<Id>, last: Option<Id>, log: seq<Event>, t: Track)
    requires IsTracked(ws, up, last, log, t)
    ensures last == t.last && (last.Some? ==> Runnable(ws, last.value))
  {
  }

  lemma UnrunnableAdvance(ws: Catalog, t: Track, w: Id)
    ensures !Runnable(ws, w) ==> Advance(ws, t, w) == Enter(ws, t, w)
  {
  }

  lemma Regroup(a: seq<Event>, b: seq<Event>, c: seq<Event>)
    ensures (a + b) + c == a + (b + c)
  {
  }

  lemma RegroupSetup(a: seq<Event>, b: seq<Event>, c: seq<Event>, d: seq<Event>)
    ensures ((a + b) + c) + d == a + (b + (c + d))
  {
    Regroup(a + b, c, d);
    Regroup(a, b, c + d);
  }

  ghost predicate OnlyTearsDown(ws: Catalog, up: set<Id>, log: seq<Event>, order: seq<Id>)
    requires Ready(ws)
  {
    var s := log + TeardownOf(ws, order);
    Grown(ws, up, log, s) && UpAfter(up, s) == UpAfter(up, log) - CoveredByAll(ws, SetOf(order))
  }

  lemma GrownTwice(ws: Catalog, up: set<Id>, a: seq<Event>, b: seq<Event>, c: seq<Event>)
    requires Grown(ws, up, a, b) && Grown(ws, up, b, c)
    ensures Grown(ws, up, a, c)
  {
  }

  function SetOf(order: seq<Id>): set<Id> {
    set w | w in order
  }

  lemma SetOfMore(order: seq<Id>, w: Id)
    ensures SetOf(order + [w]) == SetOf(order) + {w}
  {
  }

  lemma OnlyTearsDownMore(ws: Catalog, up: set<Id>, log: seq<Event>, order: seq<Id>, w: Id)
    requires Ready(ws) && w in ws && OnlyTearsDown(ws, up, log, order)
    ensures OnlyTearsDown(ws, up, log, order + [w])
  {
    var before := log + TeardownOf(ws, order);
    TeardownOfMore(ws, order, w);
    Regroup(log, TeardownOf(ws, order), TeardownEventsFor(ws, w));
    TeardownCovers(ws, up, before, w);
    GrownTwice(ws, up, log, before, before + TeardownEventsFor(ws, w));
    CoveredByOneMore(ws, SetOf(order), w);
    SetOfMore(order, w);
  }

  lemma TearsDownNothing(ws: Catalog, up: set<Id>, log: seq<Event>)
    requires Ready(ws)
    ensures OnlyTearsDown(ws, up, log, [])
  {
    GrownBy(ws, up, log, []);
    assert log + [] == log && SetOf([]) == {} && CoveredByAll(ws, {}) == {};
  }

  lemma {:induction false} TeardownOfCovers(ws: Catalog, up: set<Id>, log: seq<Event>, order: seq<Id>)
    requires Ready(ws) && forall i :: 0 <= i < |order| ==> order[i] in ws
    ensures OnlyTearsDown(ws, up, log, order)
  {
    if order == [] {
      TearsDownNothing(ws, up, log);
    } else {
      var init, w := order[..|order| - 1], order[|order| - 1];
      assert order == init + [w];
      TeardownOfCovers(ws, up, log, init);
      OnlyTearsDownMore(ws, up, log, init, w);
    }
  }

  lemma TeardownCovers(ws: Catalog, up: set<Id>, log: seq<Event>, w: Id)
    requires Ready(ws) && w in ws
    ensures Grown(ws, up, log, log + TeardownEvents(TeardownPlan(ws, w)))
    ensures UpAfter(up, log + TeardownEvents(TeardownPlan(ws, w))) == UpAfter(up, log) - Reach(ws, w)
  {
    var more := TeardownEvents(TeardownPlan(ws, w));
    assert Thorough(ws, more);
    GrownBy(ws, up, log, more);
    UpAfterSum(up, log, more);
    UpAfterTeardown(UpAfter(up, log), TeardownPlan(ws, w));
    SetupPlanCovers(ws, w, 0);
  }

  lemma OrderIsSet(ws: Catalog, target: Option<Id>, order: seq<Id>)
    requires IsTeardownOrder(ws, target, order) && (target.Some? ==> Runnable(ws, target.value))
    ensures forall i :: 0 <= i < |order| ==> order[i] in ws
    ensures CoveredByAll(ws, SetOf(order)) == CoveredBy(ws, target)
  {
    if target.Some? {
      assert SetOf(order) == {target.value};
      CoveredByOneMore(ws, {}, target.value);
    } else {
      forall v ensures v in order <==> v in ws {
        assert v in multiset(order) <==> v in multiset(ws.Keys);
      }
      assert SetOf(order) == ws.Keys;
      CoveredByAllIsRunnable(ws);
    }
  }

  lemma OrderCovers(ws: Catalog, up: set<Id>, log: seq<Event>, target: Option<Id>, order: seq<Id>)
    requires Ready(ws) && IsTeardownOrder(ws, target, order) && (target.Some? ==> Runnable(ws, target.value))
    ensures Grown(ws, up, log, log + TeardownOf(ws, order))
    ensures UpAfter(up, log + TeardownOf(ws, order)) == UpAfter(up, log) - CoveredBy(ws, target)
  {
    OrderIsSet(ws, target, order);
    TeardownOfCovers(ws, up, log, order);
  }

  lemma SetupCovers(ws: Catalog, up: set<Id>, log: seq<Event>, w: Id)
    requires Ready(ws) && Runnable(ws, w)
    ensures var s := log + SetupEvents(ws, SetupPlan(ws, w, 99));
            Grown(ws, up, log, s) && UpAfter(up, s) == UpAfter(up, log) + Reach(ws, w) && SetUpLast(ws, s, w)
  {
    var plan := SetupPlan(ws, w, 99);
    var more := SetupEvents(ws, plan);
    SetupIsThorough(ws, w, 99);
    SetupEndsWith(ws, w, log);
    GrownBy(ws, up, log, more);
    UpAfterSum(up, log, more);
    UpAfterSetup(ws, UpAfter(up, log), plan);
    SetupPlanCovers(ws, w, 99);
  }

  /** After the teardown of what the session remembers, nothing is set up. */
  lemma GoneIfTracked(ws: Catalog, up: set<Id>, last: Option<Id>, before: seq<Event>, log: seq<Event>, t: Track)
    requires IsTracked(ws, up, last, before, t) && Grown(ws, up, before, log)
    requires UpAfter(up, log) == UpAfter(up, before) - CoveredBy(ws, last)
    ensures IsTracked(ws, up, last, log, t.(phase := Gone))
  {
    assert UpAfter(up, log) == {};
  }

  lemma StartKeeps(ws: Catalog, up: set<Id>, log: seq<Event>, w: Id)
    requires Thorough(ws, log)
    ensures var s := log + [SetupStarts(w)];
            && (SafeSoFar(ws, up, s) <==> SafeSoFar(ws, up, log)) && UpAfter(up, s) == UpAfter(up, log)
            && (CleanSoFar(up, s) <==> CleanSoFar(up, log) && UpAfter(up, log) == {})
            && TestsIn(s) == TestsIn(log) && SetupsIn(s) == SetupsIn(log) + [w]
            && Thorough(ws, s) && (TestsPrepared(ws, log) ==> TestsPrepared(ws, s))
  {
    AppendOne(ws, up, log, SetupStarts(w));
    OtherEventIsThorough(ws, log, SetupStarts(w));
    if TestsPrepared(ws, log) {
      PreparedOfSum(ws, log, [SetupStarts(w)]);
    }
  }

  /** After a setup that began with nothing set up, exactly the workshop and its runnable
      prerequisites are. */
  lemma LiveIfTracked(ws: Catalog, up: set<Id>, last: Option<Id>, gone: seq<Event>, log: seq<Event>, t: Track, w: Id)
    requires IsTracked(ws, up, last, gone, t) && t.phase.Gone? && Runnable(ws, w)
    requires Grown(ws, up, gone + [SetupStarts(w)], log) && SetUpLast(ws, log, w)
    requires UpAfter(up, log) == UpAfter(up, gone + [SetupStarts(w)]) + Reach(ws, w)
    ensures IsTracked(ws, up, Some(w), log, t.(last := Some(w), phase := Live))
    ensures TestsIn(log) == TestsIn(gone) && SetupsIn(log) == SetupsIn(gone) + [w]
  {
    StartKeeps(ws, up, gone, w);
    ReachIncludesItself(ws, w);
    assert UpAfter(up, log) == Reach(ws, w);
  }

  lemma TestsIfTracked(ws: Catalog, up: set<Id>, last: Option<Id>, log: seq<Event>, t: Track, w: Id)
    ensures IsTracked(ws, up, last, log, Enter(ws, t, w)) && Runnable(ws, w) ==>
              IsTracked(ws, up, last, log + [Tested(w)], Advance(ws, t, w))
    ensures TestsIn(log + [Tested(w)]) == TestsIn(log) + [w] && SetupsIn(log + [Tested(w)]) == SetupsIn(log)
  {
    AppendOne(ws, up, log, Tested(w));
    if IsTracked(ws, up, last, log, Enter(ws, t, w)) && Runnable(ws, w) {
      TestedIsTracked(ws, up, last, log, Enter(ws, t, w), w);
    }
  }

  lemma TestedIsTracked(ws: Catalog, up: set<Id>, last: Option<Id>, log: seq<Event>, t: Track, w: Id)
    requires IsTracked(ws, up, last, log, t) && Runnable(ws, w)
    requires (t.phase.Live? ==> last == Some(w)) && !t.phase.Untouched?
    ensures IsTracked(ws, up, last, log + [Tested(w)], if t.phase.Live? then t else t.(safe := false))
  {
    AppendOne(ws, up, log, Tested(w));
    ReachIncludesItself(ws, w);
    OtherEventIsThorough(ws, log, Tested(w));
    if t.phase.Live? {
      TestedOnLive(ws, log, t.safe, w);
    }
  }

  lemma TestedOnLive(ws: Catalog, log: seq<Event>, safe: bool, w: Id)
    requires SetUpLast(ws, log, w) && (safe ==> TestsPrepared(ws, log))
    ensures SetUpLast(ws, log + [Tested(w)], w) && (safe ==> TestsPrepared(ws, log + [Tested(w)]))
  {
    StillSetUpLast(ws, log, w);
    if safe {
      PreparedOneMore(ws, log, w);
    }
  }

  /** The session is where `t` says, `tests` and `setups` after it was at `before`. */
  ghost predicate HasCome(ws: Catalog, up: set<Id>, last: Option<Id>, before: seq<Event>, log: seq<Event>, t: Track,
      tests: seq<Id>, setups: seq<Id>)
  {
    && IsTracked(ws, up, last, log, t)
    && TestsIn(log) == TestsIn(before) + tests && SetupsIn(log) == SetupsIn(before) + setups
  }

  /** One module more. */
  lemma ModuleIsTracked(ws: Catalog, up: set<Id>, last: Option<Id>, log: seq<Event>, t: Track, w: Id, order: seq<Id>)
    requires Ready(ws) && IsTracked(ws, up, last, log, t) && IsTeardownOrder(ws, last, order)
    ensures HasCome(ws, up, Remembered(ws, last, w), log, log + ModuleEvents(ws, last, w, order), Advance(ws, t, w),
                    if Runnable(ws, w) then [w] else [], SetsUpNow(ws, last, w))
  {
    var events := SetupAllEvents(ws, last, w, order);
    EnterIsTracked(ws, up, last, log, t, w, order);
    if Runnable(ws, w) {
      Regroup(log, events, [Tested(w)]);
      TestsOnceEntered(ws, up, last, log, log + events, t, w);
    } else {
      UnrunnableAdvance(ws, t, w);
      assert events + [] == events;
    }
  }

  lemma TestsOnceEntered(ws: Catalog, up: set<Id>, last: Option<Id>, log: seq<Event>, entered: seq<Event>, t: Track,
      w: Id)
    requires Runnable(ws, w)
    requires HasCome(ws, up, Some(w), log, entered, Enter(ws, t, w), [], SetsUpNow(ws, last, w))
    ensures HasCome(ws, up, Some(w), log, entered + [Tested(w)], Advance(ws, t, w), [w], SetsUpNow(ws, last, w))
  {
    TestsIfTracked(ws, up, Some(w), entered, t, w);
  }

  lemma EnterIsTracked(ws: Catalog, up: set<Id>, last: Option<Id>, log: seq<Event>, t: Track, w: Id, order: seq<Id>)
    requires Ready(ws) && IsTracked(ws, up, last, log, t) && IsTeardownOrder(ws, last, order)
    ensures HasCome(ws, up, Remembered(ws, last, w), log, log + SetupAllEvents(ws, last, w, order), Enter(ws, t, w),
                    [], SetsUpNow(ws, last, w))
  {
    LastIsRunnable(ws, up, last, log, t);
    if last == Some(w) {
      assert log + [] == log;
    } else {
      LeaveIsTracked(ws, up, last, log, t, order);
      if Runnable(ws, w) {
        SetUpIsTracked(ws, up, last, log, log + TeardownOf(ws, order), t, w);
        RegroupSetup(log, TeardownOf(ws, order), [SetupStarts(w)], SetupEvents(ws, SetupPlan(ws, w, 99)));
      } else {
        assert TeardownOf(ws, order) + [] == TeardownOf(ws, order);
      }
    }
  }

  lemma LeaveIsTracked(ws: Catalog, up: set<Id>, last: Option<Id>, log: seq<Event>, t: Track, order: seq<Id>)
    requires Ready(ws) && IsTracked(ws, up, last, log, t) && IsTeardownOrder(ws, last, order)
    ensures HasCome(ws, up, last, log, log + TeardownOf(ws, order), t.(phase := Gone), [], [])
  {
    OrderCovers(ws, up, log, last, order);
    GoneIfTracked(ws, up, last, log, log + TeardownOf(ws, order), t);
  }

  lemma SetUpIsTracked(ws: Catalog, up: set<Id>, last: Option<Id>, log: seq<Event>, gone: seq<Event>, t: Track, w: Id)
    requires Ready(ws) && Runnable(ws, w) && HasCome(ws, up, last, log, gone, t.(phase := Gone), [], [])
    ensures HasCome(ws, up, Some(w), log, (gone + [SetupStarts(w)]) + SetupEvents(ws, SetupPlan(ws, w, 99)),
                    t.(last := Some(w), phase := Live), [], [w])
  {
    var start := gone + [SetupStarts(w)];
    SetupCovers(ws, up, start, w);
    SetUpFrom(ws, up, last, log, gone, start, start + SetupEvents(ws, SetupPlan(ws, w, 99)), t, w);
  }

  lemma SetUpFrom(ws: Catalog, up: set<Id>, last: Option<Id>, log: seq<Event>, gone: seq<Event>, start: seq<Event>,
      done: seq<Event>, t: Track, w: Id)
    requires Runnable(ws, w) && HasCome(ws, up, last, log, gone, t.(phase := Gone), [], [])
    requires start == gone + [SetupStarts(w)] && Grown(ws, up, start, done)
    requires UpAfter(up, done) == UpAfter(up, start) + Reach(ws, w) && SetUpLast(ws, done, w)
    ensures HasCome(ws, up, Some(w), log, done, t.(last := Some(w), phase := Live), [], [w])
  {
    LiveIfTracked(ws, up, last, gone, done, t.(phase := Gone), w);
  }

  lemma {:induction false} SessionIsTracked(ws: Catalog, up: set<Id>, modules: seq<Id>, orders: seq<seq<Id>>)
    requires Ready(ws) && up <= CoveredBy(ws, None) && OrdersFit(ws, modules, orders)
    ensures var log := SessionEvents(ws, modules, orders);
            && IsTracked(ws, up, LastOf(ws, modules), log, TrackOf(ws, modules))
            && TestsIn(log) == RunnableOnes(ws, modules) && SetupsIn(log) == SetupsFor(ws, modules)
  {
    if modules == [] {
      StartIsTracked(ws, up);
    } else {
      var n := |modules| - 1;
      var init, w := modules[..n], modules[n];
      SessionIsTracked(ws, up, init, orders[..n]);
      ModuleIsTracked(ws, up, LastOf(ws, init), SessionEvents(ws, init, orders[..n]), TrackOf(ws, init), w, orders[n]);
      LastIsRunnable(ws, up, LastOf(ws, init), SessionEvents(ws, init, orders[..n]), TrackOf(ws, init));
      TrackRemembers(ws, init, w);
    }
  }

  /** What a session promises of its whole log: tests run when exactly their workshop and its
      runnable prerequisites are set up, if and only if no module returns to a workshop that
      was torn down to no purpose, and then right after a run of all labs; every run is
      complete and follows those of the prerequisites; each change of workshop brings one
      setup, which starts from nothing; the tests are those of the runnable modules; and
      nothing is left at the end. */
  ghost predicate KeepsPromises(ws: Catalog, up: set<Id>, modules: seq<Id>, log: seq<Event>, tearsDown: bool) {
    && (TestsSafe(ws, up, log) <==> NoStaleReturn(ws, modules))
    && (NoStaleReturn(ws, modules) ==> TestsPrepared(ws, log))
    && Thorough(ws, log)
    && StartsClean(up, log) && SetupsIn(log) == SetupsFor(ws, modules)
    && TestsIn(log) == RunnableOnes(ws, modules)
    && (tearsDown && modules != [] ==> UpAfter(up, log) == {})
  }

  lemma SessionKeepsPromises(ws: Catalog, up: set<Id>, modules: seq<Id>, orders: seq<seq<Id>>, tearsDown: bool)
    requires Ready(ws) && up <= CoveredBy(ws, None) && OrdersFit(ws, modules, orders)
    ensures var log := SessionEvents(ws, modules, orders) +
                       FinalEvents(ws, if tearsDown then LastOf(ws, modules) else None);
            KeepsPromises(ws, up, modules, log, tearsDown)
  {
    var before, t, last := SessionEvents(ws, modules, orders), TrackOf(ws, modules), LastOf(ws, modules);
    var log := before + FinalEvents(ws, if tearsDown then last else None);
    SessionIsTracked(ws, up, modules, orders);
    LastIsRunnable(ws, up, last, before, t);
    SafeExactlyWithoutStaleReturn(ws, modules);
    if tearsDown && last.Some? {
      TeardownCovers(ws, up, before, last.value);
    } else {
      GrownBy(ws, up, before, []);
      assert log == before + [];
    }
    PromisesAtEnd(ws, up, last, before, log, t);
    if tearsDown && modules != [] {
      NothingLeft(ws, up, modules, before, log);
    }
  }

  lemma NothingLeft(ws: Catalog, up: set<Id>, modules: seq<Id>, before: seq<Event>, log: seq<Event>)
    requires IsTracked(ws, up, LastOf(ws, modules), before, TrackOf(ws, modules)) && modules != []
    requires match LastOf(ws, modules)
             case Some(w) => UpAfter(up, log) == UpAfter(up, before) - Reach(ws, w)
             case None => log == before
    ensures UpAfter(up, log) == {}
  {
    TouchedBy(ws, modules);
  }

  lemma TouchedBy(ws: Catalog, modules: seq<Id>)
    requires modules != []
    ensures !TrackOf(ws, modules).phase.Untouched?
  {
    var n := |modules| - 1;
    TrackRemembers(ws, modules[..n], modules[n]);
  }

  lemma PromisesAtEnd(ws: Catalog, up: set<Id>, last: Option<Id>, before: seq<Event>, log: seq<Event>, t: Track)
    requires IsTracked(ws, up, last, before, t) && Grown(ws, up, before, log)
    ensures TestsSafe(ws, up, log) <==> t.safe
    ensures StartsClean(up, log) && Thorough(ws, log) && (t.safe ==> TestsPrepared(ws, log))
    ensures TestsIn(log) == TestsIn(before) && SetupsIn(log) == SetupsIn(before)
  {
    SoFarMeansEverywhere(ws, up, log);
  }

  function RunnableOnes(ws: Catalog, modules: seq<Id>): seq<Id> {
    if modules == [] then []
    else
      var n := |modules| - 1;
      RunnableOnes(ws, modules[..n]) + if Runnable(ws, modules[n]) then [modules[n]] else []
  }

  /** The module at `i` was the last to set up a workshop, and the one at `k` had it torn
      down without setting up another. */
  ghost predicate Stale(ws: Catalog, modules: seq<Id>, i: int, k: int) {
    && 0 <= i < k < |modules| && Runnable(ws, modules[i]) && !Runnable(ws, modules[k])
    && forall n :: i < n < |modules| ==> modules[n] == modules[i] || !Runnable(ws, modules[n])
  }

  ghost predicate StaleFor(ws: Catalog, modules: seq<Id>, w: Id) {
    exists i, k :: Stale(ws, modules, i, k) && modules[i] == w
  }

  /** No module returns to a workshop that an unrunnable module had torn down. */
  ghost predicate NoStaleReturn(ws: Catalog, modules: seq<Id>) {
    forall j :: 0 <= j < |modules| ==> !StaleFor(ws, modules[..j], modules[j])
  }

  /** The module at `i` is the last one, or one of the last, of a runnable workshop. */
  ghost predicate Closes(ws: Catalog, modules: seq<Id>, i: int) {
    && 0 <= i < |modules| && Runnable(ws, modules[i])
    && forall n :: i < n < |modules| ==> modules[n] == modules[i] || !Runnable(ws, modules[n])
  }

  ghost predicate ClosesFor(ws: Catalog, modules: seq<Id>, w: Id) {
    exists i :: Closes(ws, modules, i) && modules[i] == w
  }

  lemma ClosesForAppend(ws: Catalog, modules: seq<Id>, m: Id, w: Id)
    ensures ClosesFor(ws, modules + [m], w) <==> if Runnable(ws, m) then w == m else ClosesFor(ws, modules, w)
  {
    var n, s := |modules|, modules + [m];
    if Runnable(ws, m) {
      assert Closes(ws, s, n);
    } else {
      forall i ensures Closes(ws, s, i) <==> Closes(ws, modules, i) {
        assert Closes(ws, s, i) ==> forall j :: i < j < n ==> modules[j] == s[j];
      }
    }
  }

  lemma StaleForAppend(ws: Catalog, modules: seq<Id>, m: Id, w: Id)
    ensures StaleFor(ws, modules + [m], w) <==>
            if Runnable(ws, m) then w == m && StaleFor(ws, modules, w) else ClosesFor(ws, modules, w)
  {
    var n, s := |modules|, modules + [m];
    if Runnable(ws, m) {
      forall i, k ensures Stale(ws, s, i, k) <==> Stale(ws, modules, i, k) && modules[i] == m {
        assert Stale(ws, s, i, k) ==> s[n] == s[i] && k < n;
        assert Stale(ws, s, i, k) ==> forall j :: i < j < n ==> modules[j] == s[j];
        assert Stale(ws, modules, i, k) && modules[i] == m ==> forall j :: i < j < n ==> s[j] == modules[j];
      }
    } else {
      forall i ensures Stale(ws, s, i, n) <==> Closes(ws, modules, i) {
        assert Stale(ws, s, i, n) ==> forall j :: i < j < n ==> modules[j] == s[j];
      }
      forall i, k | Stale(ws, s, i, k) ensures Stale(ws, s, i, n) {
      }
    }
  }

  lemma {:induction false} TrackRemembers(ws: Catalog, modules: seq<Id>, w: Id)
    ensures var t := TrackOf(ws, modules);
            && (t.last == Some(w) <==> ClosesFor(ws, modules, w))
            && (t.last == Some(w) ==> Runnable(ws, w) && !t.phase.Untouched?)
            && (t.last == Some(w) && t.phase.Gone? <==> StaleFor(ws, modules, w))
  {
    if modules != [] {
      var init, m := modules[..|modules| - 1], modules[|modules| - 1];
      assert modules == init + [m];
      TrackRemembers(ws, init, w);
      ClosesForAppend(ws, init, m, w);
      StaleForAppend(ws, init, m, w);
    }
  }

  lemma {:induction false} SafeExactlyWithoutStaleReturn(ws: Catalog, modules: seq<Id>)
    ensures TrackOf(ws, modules).safe <==> NoStaleReturn(ws, modules)
  {
    if modules != [] {
      var init, w := modules[..|modules| - 1], modules[|modules| - 1];
      SafeExactlyWithoutStaleReturn(ws, init);
      TrackRemembers(ws, init, w);
      assert TrackOf(ws, modules).safe <==> NoStaleReturn(ws, init) && !StaleFor(ws, init, w);
      NoStaleReturnAppend(ws, init, w);
      assert modules == init + [w];
    }
  }

  lemma NoStaleReturnAppend(ws: Catalog, modules: seq<Id>, w: Id)
    ensures NoStaleReturn(ws, modules + [w]) <==> NoStaleReturn(ws, modules) && !StaleFor(ws, modules, w)
  {
    var n, s := |modules|, modules + [w];
    assert s[..n] == modules && s[n] == w;
    forall j | 0 <= j < n ensures s[..j] == modules[..j] && s[j] == modules[j] {
    }
  }

  /** Modules of one workshop that come one after another never return to it. */
  lemma GroupedModulesAreSafe(ws: Catalog, modules: seq<Id>)
    requires forall i, k, j :: 0 <= i < k < j < |modules| && modules[i] == modules[j] ==> modules[k] == modules[i]
    ensures NoStaleReturn(ws, modules)
  {
    forall j | 0 <= j < |modules| ensures !StaleFor(ws, modules[..j], modules[j]) {
      forall i, k | Stale(ws, modules[..j], i, k) ensures modules[i] != modules[j] {
        assert modules[k] != modules[i];
      }
    }
  }

  /** Going back to a workshop after an unrunnable one leaves its tests without it. */
  lemma ReturnAfterSkipIsUnsafe(ws: Catalog, a: Id, b: Id)
    requires Runnable(ws, a) && !Runnable(ws, b)
    ensures !NoStaleReturn(ws, [a, b, a])
  {
    var modules := [a, b, a];
    assert modules[..2] == [a, b];
    assert Stale(ws, modules[..2], 0, 1);
    assert StaleFor(ws, modules[..2], modules[2]);
  }
}
