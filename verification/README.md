# Verification of the workshop tooling

This project models the decision-making parts of the workshop tooling and proves
properties of them for all inputs, all runs or all reachable states. Everything is plain
Dafny; `dafny verify dfyconfig.toml` checks it.

## What is modelled

**Cluster templates** (`cm_template.py`). `Merge` is the recursive merge on JSON values
(section 3 of RFC 8259), together with a predicate for each function that says when it
raises: a missing identity attribute (line 128), a list element that lacks the attribute of
an item merged into the list (line 148), an identity that is not a string (line 151). The
merge is parametric in the identity attributes and in the order used for sorting; the
attributes and the order of `cm_template.py` are one instance (`Spelling`, `Serialisation`),
where the order is that of the JSON texts with sorted keys. `Reading` is a reader of such
texts, and the texts are proved to read back.

- `KeyedLists` and `MergeLaws`: a list whose elements have distinct identities behaves like
  a map, merging is pointwise, commutative and left-commutative on compatible values, and a
  template that fits the base merges without raising into a well-formed value.
- `Acceptance`: the exact condition for not raising. It is wider than fitting, which is
  sufficient only: a list element may have other identities than the item merged into it.
- `OrderIndependence` and `AnyOrder`: templates merge without error to one result in every
  order exactly when they agree pairwise. The code merges any templates, and the last one
  wins (`LastTemplateWins`); agreement is the exact condition under which that is not
  visible.
- `NormalForm`: a declarative account of the merge that no other value satisfies, and the
  normal form that a template reaches when it is merged with itself. Lists without
  identities are the exception: they double, so the normal form is reached exactly if there
  are none.
- `ObjectTrees` and `MergeInPlace`: the same merge as the code performs it, on dictionaries
  and lists in the heap, updating the base in place and hooking parts of the templates into
  it. It is proved to leave a tree that stands for the merge of the values. `Loading` puts
  the two ends together: templates as values in, their merge as a value out.
- `Dependencies`: the closure of the selected services. `Versions`: the version tests.

**Workshops** (`labs/__init__.py`, `tests/conftest.py`). `Orchestrator` and `Labs` say what
a setup and a teardown do, over any catalog in which they end; `Termination` says when they
do, for each workshop and for a catalog as a whole. `Session` has the recursive
methods and the test session around them. The session keeps the workshop it remembers when
it tears it down for a module that is then skipped. If a later module belongs to that
workshop, its tests run with nothing set up (`ReturnAfterSkipIsUnsafe`); `RunSession` proves
that this is the only way for a test to run without exactly its workshop, and that grouping
modules by workshop rules it out.

**Controllers** (`labs/workshop_nifi.py`, and the same loop in `labs/workshop_edge.py` and
`labs/workshop_fraud.py`). The retry loop of the teardowns, with a bound on its passes and a
proof that it does not end if references are cyclic.

**Portal** (`web/app/routes.py`, `web/app/models.py`). A state machine whose steps are the
requests, the server methods that take those steps, and what holds in every reachable state.

**Counting loops**. `FraudGenerator` (the generator script inside `labs/workshop_fraud.py`):
a tick that is rolled back counts down as well, so the bounds are on ticks, and on the ticks
that are committed frauds can be denser than one in min + 1. `GapKeepsRateExactly` says when
for one gap, and `RateKeptExactlyWhenShortestGapsCommit` for a commit pattern under all
draws. `Endpoints` (`utils/ssb.py`) and `Polling` (`create_cluster.py`, `utils/cm.py`,
`cdsw_setup.py`) are loops of the same kind.

## Modelling choices

- Where Python raises, a method has an out-parameter that says so (`ok`, `raised`) or a
  result that stands for the exception, and the contract says exactly when.
- Where Python iterates over a dictionary or a set, the methods take the elements in an
  arbitrary order, and the results hold for all of them.
- `list.sort` is an insertion sort that moves elements in place; a stable sort has only one
  possible result.
- What comes from outside is a parameter: the number drawn by `randint`, the observations
  and clock readings of a poll, the answer of each command poll by its time, whether a
  password is right, whether a session commits.
- Whether a workshop is runnable does not change during a session. What was set up before
  the session began is an arbitrary set of registered, runnable workshops.
- A controller fails to stop exactly while a running controller references it, itself
  included.
- Each web request is one atomic step. Deleting a cluster sets the reference of its users to
  null, the default of the relationship at `models.py:57`. Identifiers start at 1 and are
  not reused. What the database makes of the values of a payload is a parameter: an instance
  id is sent as text and stored as an integer (`models.py:52`), so two texts for one number
  clash, and values that a column cannot hold are refused.

## Model

| member | source | states |
|---|---|---|
| AnyOrder.AnyOrderWorksExactlyWhenAgreeing | setup/terraform/resources/cm_template.py:107-154 | For any list of well-formed templates: every permutation merges without raising and to the same result if and only if the templates agree pairwise (equal shared scalars, equal identities where objects meet, lists of one kind) |
| Serialisation.CmTemplatesMergeInAnyOrder | setup/terraform/resources/cm_template.py:25-154 | The same equivalence with the identity attributes of line 25 and the order of line 154, which MergedTextsAscend and CmTemplateIdentities pin down |
| OrderIndependence.MergeIsOrderIndependent | setup/terraform/resources/cm_template.py:107-154 | Agreeing templates merge without raising, and every permutation gives exactly the same value |
| OrderIndependence.Permute | setup/terraform/resources/cm_template.py:107-111 | From any starting point, a permutation of mergeable templates ends in the same value |
| OrderIndependence.MoveToBack | setup/terraform/resources/cm_template.py:107-111 | One template can be moved past all that follow it |
| OrderIndependence.MergedStaysCompatible | setup/terraform/resources/cm_template.py:107-154 | While templates are merged, what is merged stays well-formed and compatible with every template to come, and nothing raises |
| OrderIndependence.MergeTwo | setup/terraform/resources/cm_template.py:107-135 | Merging two templates from an empty start is merging the second into the first, and raises exactly when that does |
| OrderIndependence.LastTemplateWins | setup/terraform/resources/cm_template.py:131-135 | Two templates with different scalars under one key: the last one wins, so the order matters |
| AnyOrder.OneResultMeansCompatible | setup/terraform/resources/cm_template.py:124-154 | Values that merge to one result in every order, without raising, are compatible pairwise, at every depth |
| AnyOrder.FoldAtKey | setup/terraform/resources/cm_template.py:124-135 | Merging objects one after the other does, under each non-identity key, what merging the values found there does, errors included |
| AnyOrder.FoldKeepsFirstIds | setup/terraform/resources/cm_template.py:127-130 | However many objects are merged in, the identity is that of the first |
| AnyOrder.FoldAtId | setup/terraform/resources/cm_template.py:138-154 | Merging keyed lists one after the other does, for each identity, what merging the objects with it does, errors included |
| AnyOrder.KindsMeet | setup/terraform/resources/cm_template.py:138-154 | Two well-formed lists that merge both ways without raising are of the same kind |
| AnyOrder.Lift | setup/terraform/resources/cm_template.py:107-111 | Any order of the values found at one place comes from an order of the templates |
| MergeLaws.Commute | setup/terraform/resources/cm_template.py:114-154 | Merging compatible well-formed values is commutative |
| MergeLaws.CommuteFields | setup/terraform/resources/cm_template.py:124-135 | The same for objects |
| MergeLaws.CommuteLists | setup/terraform/resources/cm_template.py:138-154 | The same for lists; here the sort matters |
| MergeLaws.LeftCommute | setup/terraform/resources/cm_template.py:114-154 | Two compatible values can be merged into a third in either order |
| MergeLaws.LeftCommuteFields | setup/terraform/resources/cm_template.py:124-135 | The same for objects |
| MergeLaws.LeftCommuteLists | setup/terraform/resources/cm_template.py:138-154 | The same for lists |
| MergeLaws.MergeIsSafe | setup/terraform/resources/cm_template.py:114-154 | A template that fits its base merges without raising, and the result is well-formed again: identities present where they are looked up, no repeated identity in a keyed list, at every depth |
| MergeLaws.MergeFieldsIsSafe | setup/terraform/resources/cm_template.py:124-135 | The same for objects: no lookup of line 128 fails |
| MergeLaws.MergeListsIsSafe | setup/terraform/resources/cm_template.py:138-154 | The same for lists: no lookup of line 148 and no breadcrumb of line 151 fails |
| Acceptance.RaisesExactlyWhenNotAccepted | setup/terraform/resources/cm_template.py:114-154 | For a well-formed template and any base: the merge raises if and only if an object lacks an identity attribute of the one merged into it, or a list element lacks the attribute that identifies the items merged into the list, at any depth that the merge reaches |
| Acceptance.OneItemRaisesExactly | setup/terraform/resources/cm_template.py:139-153 | For an item of any kind: the three ways to raise, the identity that is not a string included, and no other |
| KeyedLists.ItemsRaiseExactly | setup/terraform/resources/cm_template.py:138-153 | Where every element of the base has the attribute, merging a list raises if and only if merging two namesakes does |
| MergeLaws.CompatibleWithItself | setup/terraform/resources/cm_template.py:124-154 | Every well-formed template is compatible with a copy of itself |
| MergeLaws.CompatibleIsSymmetric | setup/terraform/resources/cm_template.py:124-154 | Compatibility is symmetric |
| MergeLaws.CompatibleFits | setup/terraform/resources/cm_template.py:128-148 | Compatible values fit in the sense that merging them does not raise |
| MergeLaws.CompatibleWithMerge | setup/terraform/resources/cm_template.py:114-154 | A value compatible with two others is compatible with their merge |
| MergeLaws.MergeBags | setup/terraform/resources/cm_template.py:138-154 | Lists without identities add up, element by element |
| KeyedLists.MergeKeepsIds | setup/terraform/resources/cm_template.py:127-130 | A merge never adds, removes or changes an identity attribute of the base |
| KeyedLists.MergeItemAt | setup/terraform/resources/cm_template.py:139-153 | One item merged into a keyed list updates exactly its namesake, or is appended, and the list stays keyed |
| KeyedLists.MergeItemJoins | setup/terraform/resources/cm_template.py:139-153 | The same for any list whose elements all have the attribute, repeated identities included: the first namesake is updated and every other element stays |
| KeyedLists.MergeItemsAt | setup/terraform/resources/cm_template.py:139-153 | All items: identity by identity, the objects of both sides are joined, and no identity repeats |
| KeyedLists.MergeListsAt | setup/terraform/resources/cm_template.py:138-154 | The same after sorting |
| KeyedLists.KeyedPermutation | setup/terraform/resources/cm_template.py:154 | Reordering a keyed list changes neither its identities nor the objects under them |
| KeyedLists.SameAtSameElements | setup/terraform/resources/cm_template.py:138-154 | A keyed list is determined, up to order, by the object under each identity |
| Merge.LeadingId | setup/terraform/resources/cm_template.py:141-146 | The chosen attribute is an identity attribute that the item has; none is chosen only if it has none |
| Merge.FindNamesake | setup/terraform/resources/cm_template.py:148 | The first element with the identity, if there is one |
| NormalForm.MergeIsTheConservingValue | setup/terraform/resources/cm_template.py:114-154 | A value satisfies the declarative account of a merge (no key or element lost or invented, identities from the base, scalars from the template, bags added up, namesakes merged, sorted) if and only if it is the merge |
| NormalForm.ConservingFields | setup/terraform/resources/cm_template.py:124-135 | The same for objects |
| NormalForm.ConservingLists | setup/terraform/resources/cm_template.py:138-154 | The same for lists |
| NormalForm.SelfMergeNormalises | setup/terraform/resources/cm_template.py:124-154 | Merging a template with a copy of itself yields the template with its lists sorted, if and only if none of its lists is a non-empty bag; a further copy then changes nothing |
| NormalForm.SelfMerge | setup/terraform/resources/cm_template.py:124-154 | For bag-free templates: the normal form, and its stability under merging the template in again |
| NormalForm.BagsDoNotSelfMerge | setup/terraform/resources/cm_template.py:153 | A non-empty bag anywhere makes the copy visible: its elements are appended once more |
| NormalForm.CopiesMergeIntoNormalForm | setup/terraform/resources/cm_template.py:107-111 | Any number of copies, two or more, merge into the normal form |
| Sorting.StringLeIs | setup/terraform/resources/cm_template.py:154 | Texts are ordered by prefix, or by the native order of the characters where they first differ |
| Sorting.SortSorts | setup/terraform/resources/cm_template.py:154 | Sorting sorts and permutes |
| Sorting.SortedIsUnique | setup/terraform/resources/cm_template.py:154 | Under a total order, a multiset has only one sorted listing |
| Sorting.SortIsCanonical | setup/terraform/resources/cm_template.py:154 | Sorting forgets the order of its input |
| Serialisation.DumpsIsInjective | setup/terraform/resources/cm_template.py:154 | Equal JSON texts with sorted keys come from equal values |
| Serialisation.ReadsBack | setup/terraform/resources/cm_template.py:154 | A reader of JSON texts, which accepts object keys in ascending order only, reads the text of a value as that value, whatever follows it |
| Serialisation.StringReadsBack | setup/terraform/resources/cm_template.py:154 | It reads a quoted string as that string: hexadecimal digits, short escapes and surrogate pairs included |
| Serialisation.EscapeIs | setup/terraform/resources/cm_template.py:154 | A character is escaped exactly if it is a quote, a backslash or not printable ASCII; which escapes are short, and which are pairs |
| Serialisation.EscapeIsPrinted | setup/terraform/resources/cm_template.py:154 | Escapes are printable ASCII with hexadecimal digits in lower case |
| Serialisation.MergedTextsAscend | setup/terraform/resources/cm_template.py:154 | In every merged list, the text of an element is a prefix of that of any later one, or has the smaller character where they first differ |
| Serialisation.CmTemplateIdentities | setup/terraform/resources/cm_template.py:25-146 | An item is identified by refName if it has it, else by name, clusterName, hostName or product, in this order, and by nothing else |
| KeyedLists.LeadingIdIs | setup/terraform/resources/cm_template.py:141-146 | The identifying attribute is the first that the item has, and there is none only if it has none |
| Serialisation.ReadsBackOneWay | setup/terraform/resources/cm_template.py:154 | Two texts, each followed by anything that can follow it, are equal only for equal values and equal continuations |
| Serialisation.DumpsOrders | setup/terraform/resources/cm_template.py:154 | The sort key induces a total order on JSON values, the ascending one by MergedTextsAscend |
| Serialisation.CmTemplateRulesOrder | setup/terraform/resources/cm_template.py:25-154 | The rules of cm_template.py carry a total order, the ascending one by MergedTextsAscend |
| Loading.MergeLoaded | setup/terraform/resources/cm_template.py:157-161 | Templates loaded as trees of new objects, merged in place and read back give the merge of their values, and an error exactly when that raises: no precondition on the templates is left |
| Loading.LoadValue | setup/terraform/resources/cm_template.py:161 | Every JSON value has a tree of new objects, none used twice, that stands for it |
| MergeInPlace.MergeAll | setup/terraform/resources/cm_template.py:107-111 | On disjoint object trees, the in-place merge raises exactly when the merge of values does, and otherwise leaves a well-formed tree under a new dictionary whose value is the merge of the values the templates had at the start |
| MergeInPlace.UpdateObject | setup/terraform/resources/cm_template.py:114-121 | Handles two dictionaries or two lists and nothing else; what it leaves is the merge of the two values, in the same object, built only from objects of both trees |
| MergeInPlace.UpdateDict | setup/terraform/resources/cm_template.py:124-135 | The loop over the keys, in any order, leaves the merge of the two objects in the base |
| MergeInPlace.TakeKey | setup/terraform/resources/cm_template.py:125-135 | One round of it leaves the subtrees of the keys to come untouched, although parts of the template are now shared with the base |
| MergeInPlace.UpdateKey | setup/terraform/resources/cm_template.py:127-135 | One key: kept, hooked in, or merged; raises exactly for a missing identity or below |
| MergeInPlace.SetKey | setup/terraform/resources/cm_template.py:132-135 | Assigning one key leaves a tree in which only that key changed |
| MergeInPlace.UpdatePresentKey | setup/terraform/resources/cm_template.py:133-135 | A key that is present is updated in place or overwritten |
| MergeInPlace.UpdateSlot | setup/terraform/resources/cm_template.py:133-135 | What a present slot holds afterwards stands for the merge, whether updated, equal or overwritten |
| MergeInPlace.UpdateList | setup/terraform/resources/cm_template.py:138-154 | The loop over the items and the final sort leave the sorted merge of the two lists in the base |
| MergeInPlace.TakeItems | setup/terraform/resources/cm_template.py:139-153 | The loop alone leaves the merge before sorting |
| MergeInPlace.TakeItem | setup/terraform/resources/cm_template.py:139-153 | One round of it leaves the items to come untouched |
| MergeInPlace.UpdateItem | setup/terraform/resources/cm_template.py:140-153 | One item, with or without identity |
| MergeInPlace.UpdateNamedItem | setup/terraform/resources/cm_template.py:147-153 | An item with identity: the lookup over the whole base, the namesake, the append, and the three ways to raise |
| MergeInPlace.UpdateElem | setup/terraform/resources/cm_template.py:149-152 | The namesake is updated in place inside the list |
| MergeInPlace.AppendItem | setup/terraform/resources/cm_template.py:153 | An appended item becomes part of the tree of the base |
| MergeInPlace.SortItems | setup/terraform/resources/cm_template.py:154 | Reorders the elements of the list in place into the sorted order of their values |
| MergeInPlace.TakenMore | setup/terraform/resources/cm_template.py:125-135 | Merging one more key into what the keys so far gave is merging all of them; the order of keys does not matter |
| ObjectTrees.ReadValue | setup/terraform/resources/cm_template.py:133-154 | Reading an object tree, to compare or serialise it, gives the value it stands for |
| Versions.ComparisonsAgree | setup/terraform/resources/cm_template.py:40-65 | ge, gt, le and lt are four views of one total preorder whose ties are the versions with equal numbers |
| Versions.DecidingIsLexicographic | setup/terraform/resources/cm_template.py:44-65 | Comparing where two lists first differ is the lexicographic order |
| Versions.SplitAtSeparator | setup/terraform/resources/cm_template.py:41 | Splitting distributes over joining with a separator |
| Versions.ExtendedIsLater | setup/terraform/resources/cm_template.py:40-65 | Adding any part to a version makes it later, even a pre-release mark |
| Versions.LastPartDecides | setup/terraform/resources/cm_template.py:33-65 | Versions that differ in the last part compare as its numbers, where what is not a number counts as 999 |
| Versions.PartReads | setup/terraform/resources/cm_template.py:33-37 | A part reads as the number it is written as (decimal digits with zeros in front, single underscores, blanks around, a plus sign) and as 999 exactly if it is not written so |
| Versions.DottedParses | setup/terraform/resources/cm_template.py:40-41 | Numbers written in decimal with dots between them parse as these numbers |
| Versions.DottedCompare | setup/terraform/resources/cm_template.py:44-65 | Versions in decimal compare number by number under the native order, a prefix coming first: 7.11.3.9 is at least 7.3.1 |
| Versions.LastNumberDecides | setup/terraform/resources/cm_template.py:44-47 | Versions that differ in a last decimal number compare as the numbers |
| Versions.SeparatorsAre | setup/terraform/resources/cm_template.py:41 | A dot and a dash separate parts, and nothing else does |
| Dependencies.FixDependencies | setup/terraform/resources/cm_template.py:237-262 | The loop ends for every dependency map and returns, without repetition, the least set that contains the selection and is closed under the requirements of its members and of the entry "all"; every service in it is led to by requirements |
| Dependencies.AddRequired | setup/terraform/resources/cm_template.py:254-258 | One pass stays below every closed set above the selection, and changes nothing only if the set is closed |
| Dependencies.ClosureIsWhatIsNeeded | setup/terraform/resources/cm_template.py:251-262 | The least closed set is exactly what some chain of requirements leads to |
| Dependencies.ClosureOfUnion | setup/terraform/resources/cm_template.py:251-262 | The closure is monotone, idempotent and distributes over unions of selections |
| Controllers.Canvas.StopAll | setup/terraform/resources/labs/workshop_nifi.py:66-77 | With acyclic references among running controllers the loop ends with all of them stopped, at the first pass that succeeds, after at most max(1, n) passes, for any listing order of each pass |
| Controllers.Canvas.OnePass | setup/terraform/resources/labs/workshop_nifi.py:67-75 | One pass over all controllers in any order does what the specification of a pass says |
| Controllers.PassMakesProgress | setup/terraform/resources/labs/workshop_nifi.py:66-77 | Each pass stops something; a pass without failure leaves nothing running; failure needs two running controllers |
| Controllers.PassSucceedsExactly | setup/terraform/resources/labs/workshop_nifi.py:66-77 | A pass succeeds if and only if every running controller that references another is listed before it, and then stops all that it lists |
| Controllers.CyclicReferencesNeverStop | setup/terraform/resources/labs/workshop_nifi.py:66-77 | A reference cycle among running controllers makes every pass fail, whatever came before: acyclicity is necessary |
| Controllers.KnotStaysRunning | setup/terraform/resources/labs/workshop_nifi.py:66-75 | Controllers that reference each other keep running through any pass |
| Graphs.HasSink | setup/terraform/resources/labs/workshop_nifi.py:66-77 | In an acyclic graph every non-empty set of nodes has a member without edges into it |
| Termination.SetupEndsExactly | setup/terraform/resources/labs/__init__.py:204-231 | The setup of one workshop ends if and only if every workshop it calls is registered and none calls itself; if all are registered but there is a cycle it is still under way at every depth, and if there is no cycle but one is not registered it raises |
| Termination.TeardownEndsLikeSetup | setup/terraform/resources/labs/__init__.py:216-254 | A teardown ends, raises or goes on exactly as the setup does, at every depth |
| Termination.EndedSetupFollowsPlan | setup/terraform/resources/labs/__init__.py:204-254 | A setup or teardown that ends does what the plan for the workshops it calls says, whatever else is registered |
| Termination.ReadyExactlyWhenAllSetupsEnd | setup/terraform/resources/labs/__init__.py:204-231 | A catalog is ready, as the results below ask, if and only if the setup of each of its workshops ends |
| Termination.DoneBoundsCalls | setup/terraform/resources/labs/__init__.py:204-231 | A setup that ends has called only registered workshops, and none deeper than its cut-off |
| Termination.StuckInCalls | setup/terraform/resources/labs/__init__.py:204-231 | A setup that does not end is inside calls that lead to an unregistered workshop or go deeper than the cut-off |
| Orchestrator.ReadyMeansAcyclic | setup/terraform/resources/labs/__init__.py:204-225 | A rank that falls along prerequisites exists if and only if runnable workshops require registered ones only and not each other in a cycle |
| Orchestrator.SetupRunsWhatIsReachable | setup/terraform/resources/labs/__init__.py:204-247 | Setup runs exactly the workshops reachable through runnable ones |
| Orchestrator.SetupPutsPrereqsFirst | setup/terraform/resources/labs/__init__.py:204-231 | Every run in a setup comes after a run of each runnable prerequisite: up to lab 99 for a name, up to the given lab for a pair |
| Orchestrator.PlanFollowsListing | setup/terraform/resources/labs/__init__.py:204-231 | The runs for the prerequisites come in the order in which they are listed, each ending with the run of the prerequisite itself, up to lab 99 or the lab it names; the workshop comes last |
| Orchestrator.TeardownPutsPrereqsLast | setup/terraform/resources/labs/__init__.py:216-254 | Every teardown is followed by a teardown of each runnable prerequisite |
| Orchestrator.TeardownMirrorsSetup | setup/terraform/resources/labs/__init__.py:204-254 | Setup and teardown cover the same multiset of workshops, diamonds included |
| Orchestrator.DiamondPlans | setup/terraform/resources/labs/__init__.py:204-254 | With two prerequisites that share a third, the shared workshop is set up before each of them, up to the lab that each asks for, so twice in all; the teardown removes the workshop first and the shared one after each of the two |
| Labs.LabsRunInOrder | setup/terraform/resources/labs/__init__.py:22-245 | The labs run are exactly those numbered below the cut-off, once for each member, in numeric order, and by name where numbers are equal |
| Labs.StepNumberReads | setup/terraform/resources/labs/__init__.py:22-39 | "lab" followed by zeros and a number in decimal, and then by no digit, reads as that number |
| Labs.NoStepNumber | setup/terraform/resources/labs/__init__.py:35-39 | A member is no lab exactly if it does not begin with "lab" and a digit |
| Labs.SmallerNumberRunsFirst | setup/terraform/resources/labs/__init__.py:233-236 | Of two labs to run, the one with the smaller number in decimal comes first: lab 2 before lab 10 |
| Labs.LabsDoNotDependOnMemberOrder | setup/terraform/resources/labs/__init__.py:233-237 | The order in which members are found does not matter |
| Session.TestSession.ExecuteSetup | setup/terraform/resources/labs/__init__.py:227-247 | The recursion does what the setup plan says, lab by lab |
| Session.TestSession.SetupPrereqs | setup/terraform/resources/labs/__init__.py:204-214 | The prerequisites are set up in turn, each up to its lab or to lab 99 |
| Session.TestSession.RunLabs | setup/terraform/resources/labs/__init__.py:232-246 | Before-setup, the labs below the cut-off in order, after-setup |
| Session.TestSession.ExecuteTeardown | setup/terraform/resources/labs/__init__.py:249-254 | The recursion does what the teardown plan says |
| Session.TestSession.TeardownPrereqs | setup/terraform/resources/labs/__init__.py:216-225 | The prerequisites are torn down in turn |
| Session.TestSession.WorkshopTeardown | setup/terraform/resources/labs/__init__.py:286-297 | Tears down one workshop with its runnable prerequisites, every registered workshop in any order, or nothing for an unknown one |
| Session.TestSession.SetupAll | setup/terraform/resources/tests/conftest.py:34-49 | Skips exactly the modules of workshops that are not runnable; does nothing for the workshop it remembers; otherwise tears down what it remembers, or everything, and then sets up once, with all labs below 99 |
| Session.TestSession.RunModule | setup/terraform/resources/tests/conftest.py:34-49 | Adds to the log what the setup does and then the tests of the module, unless it is skipped; remembers its workshop if it was set up |
| Session.TestSession.FinalTeardown | setup/terraform/resources/tests/conftest.py:52-58 | With teardown enabled, tears down the remembered workshop, if there is one; otherwise nothing |
| Session.TestSession.RunSession | setup/terraform/resources/tests/conftest.py:34-58 | The log of a session over any sequence of modules is known event by event, up to the orders in which all workshops are torn down, and keeps the promises of SessionKeepsPromises; without setup it is the tests and nothing else |
| Session.TestSession.RunModules | setup/terraform/resources/tests/conftest.py:34-49 | The modules in turn: each one finds remembered what the ones before it left |
| Session.SessionKeepsPromises | setup/terraform/resources/tests/conftest.py:34-58 | With setup enabled: every test runs with exactly its workshop and runnable prerequisites set up if and only if no module returns to a workshop torn down before a skip, and then its workshop was run before it with before_setup, all labs below 99 and after_setup, and only tests came since; every run is complete and follows complete runs of its runnable prerequisites; there is one setup for each change of workshop and it starts from nothing; with teardown enabled nothing is left at the end; the tests run are those of the runnable modules |
| Session.SetupIsThorough | setup/terraform/resources/labs/__init__.py:204-247 | In the log of a setup, every run is complete up to some lab, and complete runs of its runnable prerequisites precede it |
| Session.RunIsComplete | setup/terraform/resources/labs/__init__.py:232-246 | A run of a workshop is before_setup, its labs below the cut-off in order, and after_setup |
| Session.SafeExactlyWithoutStaleReturn | setup/terraform/resources/tests/conftest.py:40-49 | The condition under which a session is safe, for all sequences of modules |
| Session.TrackRemembers | setup/terraform/resources/tests/conftest.py:36-49 | What the session remembers is the last runnable module, torn down if an unrunnable one came since |
| Session.GroupedModulesAreSafe | setup/terraform/resources/tests/conftest.py:34-49 | Modules grouped by workshop always meet the condition |
| Session.ReturnAfterSkipIsUnsafe | setup/terraform/resources/tests/conftest.py:40-49 | Workshop a, an unrunnable one, and a again: the second round of tests of a finds nothing set up |
| Session.UpAfterSetup | setup/terraform/resources/labs/__init__.py:227-247 | What a setup plan adds to the workshops that are set up |
| Session.UpAfterTeardown | setup/terraform/resources/labs/__init__.py:249-254 | What a teardown plan takes away |
| Session.SetupPlanCovers | setup/terraform/resources/labs/__init__.py:204-254 | Setup and teardown of a workshop cover the same set, for any cut-off |
| Portal.StepKeepsInv | setup/terraform/web/app/routes.py:39-258 | Every request keeps the invariant: no cluster held twice, every held cluster exists, emails and addresses unique |
| Portal.ReachableStatesAreSafe | setup/terraform/web/app/routes.py:39-258 | The invariant holds in every state of every run |
| Portal.ClustersAreConserved | setup/terraform/web/app/routes.py:64-68 | Users with a cluster and free clusters together are as many as all clusters |
| Portal.OnlyAFullPortalTurnsAway | setup/terraform/web/app/routes.py:64-66 | A login or registration leaves its user without a cluster if and only if as many other users hold clusters as there are clusters |
| Portal.HoldingEndsOnlyByDeletion | setup/terraform/web/app/routes.py:158-189 | A user keeps its cluster through a request if and only if the request does not delete the user or the cluster |
| Portal.HoldingLastsThroughRun | setup/terraform/web/app/routes.py:39-258 | The same over any stretch of a run |
| Portal.ReleaseKeepsInv | setup/terraform/web/app/models.py:57 | Deleting a cluster takes it from its users and keeps the invariant |
| Portal.FreedExactly | setup/terraform/web/app/routes.py:64-252 | A request makes a cluster free if and only if it adds it or deletes the user that holds it |
| Portal.TakenExactly | setup/terraform/web/app/routes.py:64-189 | A request takes a free cluster if and only if it deletes it or signs in a user who then holds it |
| Portal.AdminsAreExactly | setup/terraform/web/app/routes.py:113-218 | Who is an administrator after a request was one and is not deleted, or has just been made the first one by a granted request for its email; nobody else |
| Portal.NoAdminUnasked | setup/terraform/web/app/routes.py:99-220 | In any run without a granted request for an administrator there is none |
| Portal.OneAdminAtMost | setup/terraform/web/app/routes.py:207-218 | In any run there is never more than one administrator |
| Portal.ResetsAreExactly | setup/terraform/web/app/routes.py:62-170 | A user has to reset the password exactly from the reset by an administrator to its own |
| Portal.AddressesAreExactly | setup/terraform/web/app/routes.py:67-113 | The address of a user is the one it last signed in from, and changes at no other request |
| Portal.UsersChangeExactly | setup/terraform/web/app/routes.py:111-219 | Users come by a registration or as first administrator with a new email, go exactly when deleted, and keep their email |
| Portal.HoldingBeginsAtSignIn | setup/terraform/web/app/routes.py:64-119 | A user comes to hold a cluster only by signing in, and only a free one |
| Portal.ClustersChangeExactly | setup/terraform/web/app/routes.py:184-252 | Clusters come exactly by an addition that clashes with none, go exactly by deletion, and keep their data |
| Portal.Server.LoginPage | setup/terraform/web/app/routes.py:39-73 | A login step: unknown, wrong or reset-pending users change nothing; the others get a free cluster if they have none |
| Portal.Server.RegisterPage | setup/terraform/web/app/routes.py:99-125 | A registration step: a new user with a free cluster, if there is one |
| Portal.Server.PasswordResetPage | setup/terraform/web/app/routes.py:76-96 | A password reset clears the reset mark only |
| Portal.Server.UsersPageDelete | setup/terraform/web/app/routes.py:156-171 | Deletes one user; what becomes free is exactly the cluster the user held |
| Portal.Server.UsersPageReset | setup/terraform/web/app/routes.py:165-171 | Marks one user for a password reset, if there is a registration code, and leaves every cluster with its user |
| Portal.Server.AddClusterApi | setup/terraform/web/app/routes.py:223-258 | Stores a cluster unless its address, or its namespace and instance number, are taken |
| Portal.Server.ClustersPageDelete | setup/terraform/web/app/routes.py:177-189 | Deletes a cluster and releases it |
| Portal.Server.CreateAdminApi | setup/terraform/web/app/routes.py:196-220 | Creates the first administrator, or promotes a user, and refuses invalid payloads and all requests once there is one |
| Portal.Server.FirstFree | setup/terraform/web/app/routes.py:65-66 | Any cluster that no user holds, and none only if there is none |
| FraudGenerator.FraudRate | setup/terraform/resources/labs/workshop_fraud.py:130-150 | After K ticks with F frauds, F * (min + 1) <= K < (F + 1) * (max + 1); K + F transactions leave if and only if no tick is rolled back |
| FraudGenerator.NextFraud | setup/terraform/resources/labs/workshop_fraud.py:202-211 | The next fraud comes exactly one tick later than the number drawn, so frauds are min + 1 to max + 1 ticks apart |
| FraudGenerator.StaysBounded | setup/terraform/resources/labs/workshop_fraud.py:202-211 | The bounds that hold after each tick |
| FraudGenerator.EmittedIs | setup/terraform/resources/labs/workshop_fraud.py:130-144 | Rolled back ticks are exactly what is missing from K + F |
| FraudGenerator.GapKeepsRateExactly | setup/terraform/resources/labs/workshop_fraud.py:130-150 | Between consecutive frauds, at least min ticks are committed if and only if no more are rolled back than the number drawn exceeds min |
| FraudGenerator.RateKeptExactlyWhenShortestGapsCommit | setup/terraform/resources/labs/workshop_fraud.py:130-150 | For any commit pattern: at least min committed ticks precede every fraud, whatever is drawn, if and only if no rolled back tick lies where a gap of the least length can put it (min ticks from a position between n * (min + 1) and n * (max + 1), with a tick left for the fraud) |
| FraudGenerator.FraudsAreNotDense | setup/terraform/resources/labs/workshop_fraud.py:130-150 | If at least m committed ticks precede every fraud, at most one in m + 1 committed ticks brings one |
| FraudGenerator.DrawsUpTo | setup/terraform/resources/labs/workshop_fraud.py:202-208 | Any position between n * (min + 1) and n * (max + 1) is where n frauds can end |
| FraudGenerator.RollbacksMakeFraudsDenser | setup/terraform/resources/labs/workshop_fraud.py:133-144 | The least witness against the rate: with min = max = 1, one rollback lets the only committed tick bring a fraud |
| FraudGenerator.Processor.OnTrigger | setup/terraform/resources/labs/workshop_fraud.py:130-150 | One trigger: one transaction, two with a fraud, none if rolled back or if the range to draw from is empty |
| FraudGenerator.Processor.UpdateFraudCountdown | setup/terraform/resources/labs/workshop_fraud.py:202-208 | Draws anew when the countdown is unset or run out, counts down otherwise, and raises exactly for an empty range |
| FraudGenerator.Processor.Run | setup/terraform/resources/labs/workshop_fraud.py:130-150 | A run of triggers does what the functions that count say |
| Endpoints.GetApiEndpoint | setup/terraform/resources/labs/utils/ssb.py:152-167 | For any table: the entry of the greatest version not above the requested one that supports the method; raises exactly if the name is unknown or no version qualifies |
| Endpoints.BestIsUnique | setup/terraform/resources/labs/utils/ssb.py:160-165 | With distinct versions the result does not depend on the order of the table |
| Endpoints.SortedRows | setup/terraform/resources/labs/utils/ssb.py:160-161 | Versions are tried from the newest to the oldest under numeric lexicographic order, none left out |
| Polling.WaitForGoodHealth | setup/terraform/resources/create_cluster.py:304-324 | Returns at the first poll whose last five observations are all good, raises at the first poll past the deadline that is not such, and leaves at no other poll |
| Polling.WaitForCommands | setup/terraform/resources/labs/utils/cm.py:55-66 | Never sleeps longer than the budget; otherwise every command was seen inactive; commands are waited for in turn, each as long as polls find it active |
| Polling.WaitIsDetermined | setup/terraform/resources/labs/utils/cm.py:55-66 | The time each wait ends follows from the commands, the polls and the budget alone |
| Polling.UploadFile | setup/terraform/resources/cdsw_setup.py:544-576 | The chunks concatenate to the file, are numbered from 1, all but the last are full, none is empty, and their number is the one announced |
| Polling.CeilDivIs | setup/terraform/resources/cdsw_setup.py:549 | The announced number is the least that covers the file |

## Left out

- MergeInPlace.MergeAll: says nothing about the heap after an error, and takes templates that are trees without shared objects, as a JSON parser makes them; templates with aliases are not modelled.
- Session.TestSession.RunSession: starts from a catalog in which every setup ends, because the session begins by tearing down all registered workshops; and no lab, setup or teardown step raises, so that the skip of a module is the only way it ends early.
- Portal.Server.FirstFree: any free cluster may be chosen, because the query has no ordering.
- Polling.WaitForGoodHealth: the stream of observations is finite; a loop that is still waiting at its end says so. The 5 seconds of sleep between polls are part of the clock readings.
- Polling.UploadFile: takes positive chunk sizes, a file that does not change and reads that are full until its end; the announced number is an integer division rounded up instead of a floating-point one.
- Controllers.Canvas.StopAll: other errors than the conflict are excluded; the original swallows them, leaves the controller running and may count the pass as a success.
- Python's notion of equality across types (1 == True == 1.0) and its re-spelling of numbers: JSON scalars are typed and numbers are compared as they are written, so NaN and Infinity do not occur.
- Lone surrogates in JSON strings: characters are Unicode scalar values.
- Unicode digits and the limit on digits in `int`; log messages and breadcrumb texts, except for the error they can raise.
- Reading templates, Jinja2 rendering, YAML, command lines and the parsing of the dependencies file: the model starts from parsed values.
- Sessions, password hashes, forms, redirects, pages, downloads and the configuration endpoints of the portal, and the interleaving of concurrent requests.
- The tables of `API_ENDPOINT_MAPPINGS` and the base URL of an endpoint: any table, with versions as lists of numbers, and the path and kind of its entry. The method is taken in capitals.
- The REST, SQL, Kafka, NiFi, EFM and CDSW calls made by labs and teardowns; the context object that workshops share.
- The positions and amounts of generated transactions, the haversine join, presigned URLs, simulators, Spark and Flink jobs and shell scripts.
