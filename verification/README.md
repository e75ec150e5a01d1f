# A verified model of the resolvo solver

resolvo resolves package dependencies with a conflict-driven SAT search. This project models its core in Dafny and proves
what the search, its data structures and its encoder are for: a run that ends with a solution has satisfied every clause, a run that ends
without one names original clauses that no assignment satisfies together, every run ends, the incremental decide queue decides what a full
rescan would decide, and a selection of packages obeys the dependency rules exactly when it extends to a model of the emitted clauses.

`dafny verify dfyconfig.toml` checks the whole project.

## How it is organised

- **The engine over a fixed set of clauses.** `Sat`, `Clauses`, `Trails` and `DecisionTracker` hold literals, clause kinds and the trail;
  `WatchMap` the intrusive watch lists; `Watching`, `Learning`, `Progress`, `Database`, `Explaining`, `Models` and `SearchSteps` the theory;
  `Solver` the class that propagates, learns, explains and searches. `Solver.Solve` is total: it terminates for every set of clauses because the
  per-level counts of trail entries grow lexicographically, and it returns either an assignment or an unsatisfiable core.
- **The decide queue.** `Selection` is the naive rule, a fold over all eligible clauses by position; `Walks` the walk over candidates;
  `QueueIndex` what the queue keeps; `DecideQueue` the class with its occurrence lists, caches and hot sub-queue; `Deciding` puts it beside the
  decision tracker, where assignments, undos, new clauses and conflicts come in any order.
- **The encoder as a compiler.** `Problems` reads a dependency problem directly: solvables, version sets, rules. `Conditions` brings conditions into
  disjunctive normal form. `AtMostOne` is the binary encoding. `Encoding` says what variables and clauses stand for, `EncodingSteps` what each
  step keeps, `Encoder` is the class with one method per handler, and `Compilation` proves that meaning is preserved. `Resolving` joins encoder and
  engine: what the search chooses obeys every rule as it is written, conditional requirements included, and if it chooses nothing no selection
  obeys the clauses' reading of the rules. `Support` shows that a search makes true only what some clause names positively, which is why every
  chosen solvable is tracked.
- **The dynamic layer.** `Gates` covers shared-requires gates while clauses are added during the search and undone by backjumps, `Deferred` the
  conditional requirements that wait for their condition, `Finishing` what follows when nothing is left to decide. `RootSolve` is the object that owns
  all of them and the decide queue over one trail: items are encoded when they are chosen, conditions fire and are drained, gates are stranded and
  repaired, and after any sequence of steps from the beginning an accepted solution meets every requirement of every chosen item.
- **The candidate cache.** `Cache` interleaves the tasks of `get_or_cache_candidates` between their await points.

A decision carries the requires clause it was taken from, which is no proper reason for it. The trail invariant therefore exempts the entry that opens
a level, and conflict analysis is shown never to resolve on it: as long as another literal of the current level is open, the entry
reached was forced.

Where a property is not true of the code, the exact condition is proved beside a counterexample.

- A search that has nothing left to decide satisfies exactly the clauses that are not *waiting* (a conditional clause with an unassigned complement
  literal). `WaitingIsPossible` is a finished search with such a clause, and `NoComplementNoWaiting` shows that only complements cause it.
  `ConditionalNeedIsMet` shows that a clause whose condition is met by the selection is never waiting.
- The clauses of a condition with a non-empty complement ask for more than the condition does: `ConditionIsReadOneWay` encodes such a requirement and shows
  a selection that does not meet the condition and that no model agrees with; `UnrefutedExactly` says when the two readings agree. The solver reaches
  this only after the alternative has fired and the matching solvable was undone: until then the requirement stays deferred, which is what
  the test at tests/solver/main.rs:1659-1684 pins.
- A walk cache that says a requirement is satisfied may name another installed candidate than a fresh walk: `CacheCanLag` is such a history, and
  `CachedExactly` says that the cache equals the fresh walk if and only if it is a frontier or no candidate before the one it names is installed.

## Model

| member | source | states |
|---|---|---|
| `Clauses.InitialWatchesAreLiterals` | src/solver/clause.rs:166-342 | a clause starts out watching two different literals of its own, unless it is a single (negative) literal; binary kinds have exactly two literals |
| `Clauses.LiteralsExtend` | src/solver/clause.rs:353-406 | learning another clause changes the literals of no clause that exists |
| `DecisionTrackers.PackRoundTrip` | src/solver/decision_map.rs:17-44 | packing value and level in one signed number loses nothing exactly at levels of at least one |
| `DecisionTrackers.MapSet` | src/solver/decision_map.rs:61-75 | setting a variable beyond the end grows the map and changes no other variable |
| `DecisionTrackers.MapReset` | src/solver/decision_map.rs:52-59 | resetting makes one variable undecided and changes no other |
| `DecisionTrackers.DecisionTracker.Clear` | src/solver/decision_tracker.rs:32-35 | nothing is left, and the floor is zero |
| `DecisionTrackers.DecisionTracker.AssignedValue` | src/solver/decision_tracker.rs:42-45 | the map answers as the trail does: true, false, or unassigned |
| `DecisionTrackers.DecisionTracker.Level` | src/solver/decision_tracker.rs:70-73 | the level in the map is that of the variable's trail entry |
| `DecisionTrackers.DecisionTracker.Eval` | src/solver/clause.rs:704-712 | a literal is true, false or open as its variable on the trail says |
| `DecisionTrackers.DecisionTracker.TryAddDecision` | src/solver/decision_tracker.rs:89-99 | a new variable is appended to the trail; an assigned one leaves everything as it is and reports agreement or conflict |
| `DecisionTrackers.DecisionTracker.UndoLast` | src/solver/decision_tracker.rs:116-127 | exactly the last entry is gone, map and stack agree, the level below is returned and the floor does not exceed the new length |
| `DecisionTrackers.DecisionTracker.UndoUntil` | src/solver/decision_tracker.rs:101-114 | exactly the entries at or below the level are left; level zero clears everything |
| `DecisionTrackers.DecisionTracker.TakeSyncFloor` | src/solver/decision_tracker.rs:66-68 | up to the returned floor the stack is the one at the previous call |
| `DecisionTrackers.DecisionTracker.NextUnpropagated` | src/solver/decision_tracker.rs:131-135 | hands out each entry in order, and nothing when all were handed out |
| `Trails.PrefixKeepsReasons` | src/solver/decision_tracker.rs:101-127 | undoing keeps the proper reason of every entry that stays |
| `Trails.UpToIsExact` | src/solver/decision_tracker.rs:101-114 | after undoing to a level, exactly the variables at or below it are assigned, with their values and levels |
| `WatchMaps.WatchMap.StartWatching` | src/solver/watch_map.rs:29-42 | the clause is first in the lists of both its literals; every list is acyclic and holds exactly the clauses that watch its literal |
| `WatchMaps.WatchMap.Start` | src/solver/watch_map.rs:44-73 | the cursor stands on the first node of the literal's list, if there is one |
| `WatchMaps.WatchMap.Next` | src/solver/watch_map.rs:114-146 | the cursor moves to the following node and remembers the one it left |
| `WatchMaps.WatchMap.Update` | src/solver/watch_map.rs:208-253 | the node leaves its list, is first in that of the new literal, no other list changes, and the cursor stands on the node after it |
| `WatchMaps.WatchMap.VisitNode` | src/solver/mod.rs:1212-1316 | a node is moved when another literal is given for its clause and passed otherwise |
| `WatchMaps.WatchMap.Traverse` | src/solver/watch_map.rs:114-253 | a full traversal visits each clause that watched the literal at the start once, in order, whatever is moved meanwhile; those not moved stay in order |
| `WatchMaps.UpdateKeepsLists` | src/solver/watch_map.rs:208-253 | relinking one node leaves every list exact |
| `Solvers.Solver.AddClause` | src/solver/mod.rs:1673-1686 | a clause is allocated, watched or listed as an assertion, and nothing that held is lost |
| `Solvers.Solver.DecideAssertions` | src/solver/mod.rs:1326-1345 | every negative assertion holds, or one that is false is reported |
| `Solvers.Solver.DecideLearned` | src/solver/mod.rs:1347-1387 | every learnt clause of one literal holds, or one that is false is reported |
| `Solvers.Solver.NextUnwatched` | src/solver/clause.rs:604-644 | a literal that is not false and not the other watch, or all others are false |
| `Solvers.Solver.VisitClause` | src/solver/mod.rs:1212-1316 | one node of the watch list is skipped, moved, forces its other literal, or is a clause all of whose literals are false |
| `Solvers.Solver.PropagateEntry` | src/solver/mod.rs:1194-1318 | after an entry is propagated the watch invariant holds up to and including it; a conflict clause is false and contains the entry's literal |
| `Solvers.Solver.Propagate` | src/solver/mod.rs:1151-1321 | everything is propagated with proper reasons and all assertions hold, or every literal of the reported clause is false and one is of the current level |
| `Watching.PropagatedIsSettled` | src/solver/mod.rs:1169-1387 | when everything is propagated no clause is unit or falsified |
| `Watching.BackjumpKeepsWatches` | src/solver/mod.rs:1628-1630 | the watch invariant survives any backjump |
| `Solvers.Solver.VisitLiterals` | src/solver/mod.rs:1520-1556 | every literal of the clause is seen; those of the current level are counted, those below are collected with the highest kept in place |
| `Solvers.Solver.UndoToSeen` | src/solver/mod.rs:1560-1575 | pops the trail to the last seen entry of the current level; nothing that is open is passed over |
| `Learning.OpenMeansForced` | src/solver/mod.rs:1017-1017 | while another literal of the level is open the entry reached has a proper reason, so the decision is never resolved on |
| `Learning.Resolve` | src/solver/mod.rs:1517-1581 | one resolution step: the clauses used, with the entry's reason, entail the literals still open |
| `Learning.LearntIsAsserting` | src/solver/mod.rs:1583-1630 | the learnt clause is entailed and, after the backjump, its last literal is unassigned, all others are false and the first is at exactly the target level |
| `Solvers.Solver.Analyze` | src/solver/mod.rs:1499-1635 | returns a clause that the listed causes entail, and leaves the trail at a lower level where the clause is asserting |
| `Solvers.Solver.AddLearnt` | src/solver/mod.rs:1609-1616 | the learnt clause is recorded with its causes and watches its first and last literals |
| `Solvers.Solver.LearnFromConflict` | src/solver/mod.rs:1048-1140 | the learnt clause is entailed by its causes, its last literal is assigned at the target level with the clause as its reason, and the progress measure grows |
| `Progress.BackjumpGains` | src/solver/mod.rs:1628-1634 | giving up all entries above a level for one more entry at that level is progress |
| `Progress.WeightBounded` | src/solver/mod.rs:1006-1140 | progress is bounded by the number of variables |
| `SearchSteps.LearningGains` | src/solver/mod.rs:1110-1140 | every round of learning grows the per-level counts of trail entries lexicographically |
| `Solvers.Solver.PropagateAndLearn` | src/solver/mod.rs:1023-1046 | ends with everything propagated, or with a core that has no model |
| `Solvers.Solver.ReportClause` | src/solver/mod.rs:1393-1418 | an original clause is listed once; for a learnt one everything it was learnt from is accounted for, transitively; and nothing is listed that is not reached that way |
| `Explaining.ReportedHolds` | src/solver/mod.rs:1393-1418 | every assignment that satisfies the core satisfies each reported clause, learnt or not |
| `Explaining.InvolvedHolds` | src/solver/mod.rs:1448-1484 | every assignment that satisfies the core and installs the root agrees with each involved entry of the trail |
| `Explaining.CoreRefutes` | src/solver/mod.rs:1420-1484 | no assignment that installs the root satisfies the core |
| `Explaining.CoreIsLeast` | src/solver/mod.rs:1390-1475 | what was reported and expanded is itself such a set, so a core whose every clause is needed is exactly the least one |
| `Explaining.EntryNeeds` | src/solver/mod.rs:1440-1475 | an involved entry needs its reason and the variables of its reason |
| `Solvers.Solver.AnalyzeUnsolvable` | src/solver/mod.rs:1420-1484 | the core has no model, and it is the least account of the conflict: exactly the original clauses that are in every set which holds the conflicting clause, the causes of its learnt clauses, and the reason of each trail entry whose variable the set leads to |
| `Models.LearntsHold` | src/solver/mod.rs:1609-1612 | whatever satisfies the original clauses satisfies every learnt clause |
| `Models.OriginalsHold` | src/solver/mod.rs:868-912 | when nothing is left to decide, setting all unassigned variables to false satisfies an original clause exactly when it is not waiting |
| `Models.FinishedIsModel` | src/solver/mod.rs:868-912 | it satisfies all clauses exactly when none is waiting |
| `Models.NoComplementNoWaiting` | src/solver/conditions.rs:23-55 | a clause without positive condition literals is never waiting |
| `Models.WaitingIsPossible` | src/solver/conditions.rs:23-55 | a search can finish on the root alone with a conditional clause waiting, and its completion does not satisfy that clause |
| `Solvers.Solver.Decide` | src/solver/mod.rs:868-912 | the first undecided candidate, in the order of the requirement, of an eligible clause, or nothing is eligible |
| `Solvers.Solver.Solve` | src/solver/mod.rs:580-749 | terminates; a solution satisfies all clauses that are not waiting, leaves none unit or falsified and makes true only what a clause names positively; otherwise a core of original clauses has no model; without complements it is solved if and only if the clauses are satisfiable |
| `SearchSteps.SolvedIsModel` | src/solver/mod.rs:734-747 | what a finished search means for the clauses it was given |
| `SearchSteps.RefutedIsUnsatisfiable` | src/solver/mod.rs:823-837 | a refuting core means that the clauses are unsatisfiable |
| `Walks.WalkMeaning` | src/solver/decide_queue.rs:494-531 | a walk finds an installed candidate if there is one, otherwise the first undecided one and how many of its version set are undecided |
| `Walks.WalkDepends` | src/solver/decide_queue.rs:494-531 | a walk depends on the values of its candidates only |
| `Selection.FoldSkips` | src/solver/decide_queue.rs:650-684 | clauses whose offer cannot replace the best may be passed over |
| `Selection.FoldStops` | src/solver/decide_queue.rs:613-618 | once no offer can replace the best the scan may stop |
| `Selection.Activities.Bump` | src/solver/mod.rs:1594-1607 | one activity grows and the kept maximum stays exactly the largest |
| `Selection.Activities.Decay` | src/solver/mod.rs:1639-1646 | every activity and the kept maximum is multiplied by the factor, and the maximum stays exactly the largest |
| `Selection.DecayShrinks` | src/solver/mod.rs:1639-1646 | a factor between zero and one makes every activity smaller but not zero, and keeps the order of the packages |
| `Selection.NaiveFollows` | src/solver/decide_queue.rs:596-732 | the naive scan starts at the first offer and goes on to the next one that is more active, has fewer candidates and belongs to the root if the one before does, until there is none |
| `QueueIndex.PackedOrder` | src/solver/decide_queue.rs:68-76 | packed positions are ordered by parent first and then by clause |
| `QueueIndex.RegistrationOrder` | src/solver/decide_queue.rs:256-324 | positions order the clauses by when the first clause of their parent was registered, and those of one parent by when they were |
| `QueueIndex.ExcusedIsIneligible` | src/solver/decide_queue.rs:753-776 | a clause with a reason not to be queued is not eligible |
| `QueueIndex.CacheFollows` | src/solver/decide_queue.rs:349-371 | after a change of the assignment only walks that mention a changed variable are in doubt |
| `QueueIndex.ExcusesFollow` | src/solver/decide_queue.rs:349-371 | after a change only clauses that a changed variable will wake may lack a reason not to be queued |
| `QueueIndex.OffersHas` | src/solver/decide_queue.rs:596-732 | every eligible clause makes its offer at its position |
| `QueueIndex.OffersOnly` | src/solver/decide_queue.rs:596-732 | nothing else makes an offer |
| `DecideQueues.DecideQueue.EnqueueAll` | src/solver/decide_queue.rs:229-244 | the listed clauses whose parent is installed are queued, and the hot queue stays the hot part of the queue |
| `DecideQueues.DecideQueue.WakeParent` | src/solver/decide_queue.rs:408-416 | an installed parent is no longer a reason for its clauses to be missing |
| `DecideQueues.DecideQueue.WakeConditions` | src/solver/decide_queue.rs:448-456 | a changed condition variable is no longer a reason for a clause to be missing |
| `DecideQueues.DecideQueue.WakeCandidates` | src/solver/decide_queue.rs:418-446 | every walk that rests on the changed candidate is dropped unless its winner is still installed, and the clauses of a broken one are woken |
| `DecideQueues.DecideQueue.RouteTouched` | src/solver/decide_queue.rs:387-457 | one changed variable fewer is pending, in caches and in queue |
| `DecideQueues.DecideQueue.Sync` | src/solver/decide_queue.rs:372-382 | caches and queue are up to date with the assignment, and the mirror is the trail |
| `DecideQueues.DecideQueue.EvalRequirement` | src/solver/decide_queue.rs:463-532 | the cached or fresh result agrees with a fresh walk: the same frontier, or satisfied |
| `DecideQueues.DecideQueue.WalkCandidates` | src/solver/decide_queue.rs:494-517 | the loop computes the walk |
| `DecideQueues.DecideQueue.RegisterOccurrences` | src/solver/decide_queue.rs:484-492 | the requirement is listed with each of its candidates |
| `DecideQueues.DecideQueue.Inspect` | src/solver/decide_queue.rs:537-584 | answers exactly when the clause is eligible, with its frontier |
| `DecideQueues.DecideQueue.FirstEligible` | src/solver/decide_queue.rs:620-648 | the eligible clause of the lowest position, or there is none |
| `DecideQueues.DecideQueue.TryReplace` | src/solver/decide_queue.rs:672-720 | the better of the best so far and the clause's offer |
| `DecideQueues.DecideQueue.NextDecision` | src/solver/decide_queue.rs:596-732 | exactly the decision of a fold over all registered clauses by position, despite cached walks, hot-only visiting and both early stops; in terms of clauses, activities and candidates it is the first undecided candidate of the last clause of a decision chain, and there is none if and only if no clause is eligible |
| `DecideQueues.NaiveDecides` | src/solver/decide_queue.rs:596-732 | the naive decision belongs to a chain that starts at the eligible clause of lowest position and goes on to the next one that is more active, has fewer candidates and is the root's if the one before is |
| `DecideQueues.ChainEnds` | src/solver/decide_queue.rs:650-684 | the root's first clause is given up only for another of the root's; the answer is the first clause or more active with fewer candidates; no later clause improves on it in both |
| `DecideQueues.DecideQueue.RegisterClause` | src/solver/decide_queue.rs:256-324 | the clause follows all others of its parent, is listed in every index, and is queued if its parent is installed |
| `DecideQueues.DecideQueue.MarkNameHot` | src/solver/decide_queue.rs:329-347 | exactly the clauses that name the package become hot, and the hot queue follows |
| `DecideQueues.EligibleAreQueued` | src/solver/decide_queue.rs:753-776 | every eligible clause is queued |
| `DecideQueues.CachedState` | src/solver/decide_queue.rs:472-477 | what is cached answers as a fresh walk would |
| `DecideQueues.CachedExactly` | src/solver/decide_queue.rs:418-446 | the cache equals a fresh walk if and only if it is a frontier or no candidate before the one it names is installed |
| `DecideQueues.CacheCanLag` | src/solver/decide_queue.rs:430-438 | a history after which routing leaves a cached winner that a fresh walk would not find first |
| `DecideQueues.NotVisited` | src/solver/decide_queue.rs:650-668 | a clause that is not looked at could not replace the best |
| `DecideQueues.UnfalsifiedIsWalkable` | src/solver/decide_queue.rs:519-525 | an eligible clause has a candidate to propose exactly when the clause is not falsified |
| `Deciding.Decider.Assign` | src/solver/decision_tracker.rs:89-99 | assigning keeps the queue's invariant |
| `Deciding.Decider.UndoLast` | src/solver/decision_tracker.rs:116-127 | so does undoing one entry |
| `Deciding.Decider.UndoUntil` | src/solver/decision_tracker.rs:101-114 | and undoing to a level |
| `Deciding.Decider.Clear` | src/solver/decision_tracker.rs:32-35 | and clearing everything |
| `Deciding.Decider.Register` | src/solver/mod.rs:1652-1669 | and registering a clause at any time: one whose parent is not installed waits for it to be |
| `Deciding.Decider.Bump` | src/solver/mod.rs:1594-1607 | and a conflict: only hot packages are active |
| `Deciding.Decider.Decay` | src/solver/mod.rs:1639-1646 | and the decay of all activities |
| `Deciding.Decider.Decide` | src/solver/mod.rs:939-985 | after any interleaving of the others the decision is that of the naive scan and ends a decision chain, there is none if and only if no clause is eligible, and the queue is up to date |
| `Deciding.OnlyTouchedDiffer` | src/solver/decide_queue.rs:349-371 | only variables of the mirror and the trail beyond the floor can have changed since the last decision |
| `Deciding.NewcomersAreTouched` | src/solver/decide_queue.rs:256-324 | a clause registered since then and not queued is woken if its parent was installed meanwhile |
| `AtMostOne.AtMostOnceTracker.Add` | src/solver/binary_encoding.rs:29-74 | after any adds there are ceil(log2 n) helpers and exactly n * ceil(log2 n) implications, one per variable and bit; a tracked variable changes nothing |
| `AtMostOne.AtMostOnceTracker.GrowHelpers` | src/solver/binary_encoding.rs:52-64 | helpers are added until one more number fits, each with the implications of all existing variables |
| `AtMostOne.BitsDiffer` | src/solver/binary_encoding.rs:61-71 | different numbers differ in one of the bits |
| `AtMostOne.ImplicationsExclude` | src/solver/binary_encoding.rs:29-74 | two true variables falsify an implication |
| `AtMostOne.HelpersExtend` | src/solver/binary_encoding.rs:29-74 | with at most one variable true, spelling its number satisfies all implications |
| `AtMostOne.AtMostOneIsExact` | src/solver/binary_encoding.rs:29-74 | an assignment extends to the helpers if and only if at most one variable is true |
| `Conditions.ConvertToDnf` | src/solver/conditions.rs:109-137 | the nested loops compute the disjunctive normal form |
| `Conditions.DnfIsEquivalent` | src/solver/conditions.rs:109-137 | the normal form is true exactly when the condition is, whatever the version sets mean |
| `Conditions.DnfNoneEmpty` | src/solver/conditions.rs:109-137 | there is an alternative, and none is vacuous |
| `Encoders.Encoder.Intern` | src/solver/encoding.rs:377-386 | an item has one variable, allocated when it is first met |
| `Encoders.Encoder.AddExclusion` | src/solver/encoding.rs:745-769 | the item is ruled out |
| `Encoders.Encoder.AddLocked` | src/solver/encoding.rs:724-743 | in every solution of the rules no candidate but the locked one is selected, and no new rule rules out the locked one |
| `Encoders.Encoder.OnCandidates` | src/solver/encoding.rs:322-351 | locks, exclusions and the permission to select several are recorded: in every solution the rivals of a locked solvable and the excluded solvables are not selected, and no other kind of rule is added |
| `Encoders.LocksMean` | src/solver/encoding.rs:724-743 | what the lock rules mean for every solution |
| `Encoders.Encoder.OnConstraint` | src/solver/encoding.rs:624-721 | the restriction is encoded, with one clause per solvable below the threshold of four; from there on one clause, after those that define the shared variable the first time |
| `Encoders.Encoder.ViolationOf` | src/solver/encoding.rs:664-707 | the shared variable is implied by every solvable that does not match, once per version set |
| `Encoders.Encoder.RegisterRival` | src/solver/encoding.rs:1078-1088 | a solvable that can be selected is a rival of the others of its package, unless the package allows several |
| `Encoders.Encoder.OnRequirement` | src/solver/encoding.rs:354-529 | the requirement, or each alternative of its condition, is encoded and its candidates become rivals: in every solution a selected parent has a candidate selected, each alternative of a condition becomes a rule, at most one solvable of a package is selected among those offered unless it allows several, and every new rule is about this requirement |
| `Encoders.RequirementMeans` | src/solver/encoding.rs:354-529 | what the rules of a requirement mean for every solution |
| `Encoders.Encoder.AddRequires` | src/solver/encoding.rs:471-529 | a gate is used from four candidates on and never for the root; its candidate clause is emitted the first time only |
| `Encoders.Encoder.GateOf` | src/solver/encoding.rs:548-586 | the gate's candidate clause is emitted once per requirement |
| `Encoders.Encoder.AddConditional` | src/solver/encoding.rs:424-469 | a clause holds exactly the literals that refute the alternative |
| `Encoders.Encoder.SelectedOf` | src/solver/encoding.rs:440-456 | one variable per package tells whether it is selected |
| `Encoders.Encoder.TrackFirst` | src/solver/encoding.rs:1096-1180 | a pending rival is tracked, with the clauses of the binary encoding and of the package variable |
| `Encoders.Encoder.AddPendingForbid` | src/solver/encoding.rs:1096-1180 | no rival is left pending |
| `Encoders.Encoder.AddPendingSelected` | src/solver/encoding.rs:1197-1233 | every package variable is implied by the tracked solvables of its package |
| `Encoders.Encoder.FinishRound` | src/solver/encoding.rs:211-246 | after any sequence of handlers the encoding is complete: every rule has its clauses and every clause is justified by a rule |
| `Compilation.JustifiedHolds` | src/solver/encoding.rs:471-766 | under a solution, with auxiliary variables set to their definitions, every clause holds |
| `Compilation.SolutionsExtend` | src/solver/encoding.rs:354-766 | every solution extends to a model |
| `Compilation.ModelsAreSolutions` | src/solver/encoding.rs:354-766 | every selection that agrees with a model is a solution |
| `Compilation.EncodingPreservesMeaning` | src/solver/encoding.rs:354-766 | a selection is a solution if and only if it extends to a model of the emitted clauses, on either side of every threshold |
| `Compilation.UnrefutedExactly` | src/solver/conditions.rs:23-55 | when the clauses read a version set as matched: when it is, and also when nothing of a package is selected that has solvables which do not match |
| `Compilation.ConditionalSoundness` | src/solver/conditions.rs:1-72 | in every model a selected parent whose condition is true of the selection has a candidate selected |
| `Encoders.ConditionIsReadOneWay` | src/solver/encoding.rs:424-469 | the converse fails: after the handlers encoded an alternative, a selection that obeys every unconditional rule and does not meet the condition agrees with no model of the clauses |
| `Resolving.JustifiedIsAdmissible` | src/solver/clause.rs:166-350 | every emitted clause has the shape the engine expects |
| `Support.FinishOccurs` | src/solver/mod.rs:1583-1592 | a learnt clause consists of literals that occur in the clauses it was derived from |
| `Support.TrailIsSupported` | src/solver/mod.rs:1006-1140 | every variable that is true is named positively by one of the clauses the search was given |
| `Resolving.RivalIsFalse` | src/solver/binary_encoding.rs:29-74 | at a fixpoint with one tracked variable true, propagation through the helpers has made every other one false |
| `Resolving.ChosenIsSelectable` | src/solver/encoding.rs:1078-1095 | every chosen solvable is tracked, unless its package allows several |
| `Resolving.ConditionalNeedIsMet` | src/solver/conditions.rs:1-72 | a conditional requirement whose version sets are matched by the selection and whose parent is chosen has a chosen candidate |
| `Resolving.FoundIsSolution` | src/solver/mod.rs:734-747 | what a finished search chose obeys every rule as it is written |
| `Resolving.Resolve` | src/solver/mod.rs:495-545 | for an encoded problem the chosen items obey every rule as it is written, and nothing is returned only if no selection obeys the clauses; without conditions, if and only if none obeys the rules |
| `Gates.Gatekeeper.Decide` | src/solver/mod.rs:1006-1021 | a decision opens a level once everything is propagated |
| `Gates.Gatekeeper.Force` | src/solver/mod.rs:1729-1737 | a forced variable has a proper reason even if it is assigned above the level of its cause |
| `Gates.Gatekeeper.AddGate` | src/solver/encoding.rs:548-586 | a new gate is false if all its candidates are, with the candidate clause as its reason |
| `Gates.Gatekeeper.AddRequirer` | src/solver/encoding.rs:588-621 | the implication honours what is assigned at either end; an installed requirer of a false gate demands a restart |
| `Gates.Gatekeeper.PropagateNext` | src/solver/mod.rs:1194-1321 | propagating an entry settles every implication it is part of, or some implication has an installed requirer and a false gate |
| `Gates.Gatekeeper.Backjump` | src/solver/mod.rs:1628-1630 | after a backjump no implication is violated, even if gates are stranded |
| `Gates.Gatekeeper.Restart` | src/solver/mod.rs:809-812 | after starting over no implication is violated |
| `Gates.Gatekeeper.ForceStuckGates` | src/solver/mod.rs:1717-1740 | no unassigned gate has an installed requirer, all reasons are proper, one pass suffices, and something is forced if and only if a gate was stuck |
| `Gates.GatesFollow` | src/solver/mod.rs:1710-1716 | every installed requirer has its gate true |
| `Finishing.AllNeedsAreMet` | src/solver/mod.rs:696-747 | without a decision left and without stuck gates every encoded requirement of an installed parent has an installed candidate |
| `Finishing.DecisionIsCandidate` | src/solver/decide_queue.rs:596-732 | a decision is the first undecided candidate of an eligible clause |
| `RootSolves.RootSolve.constructor` | src/solver/mod.rs:495-530 | tracker, queue, gates and deferred requirements start out empty and share one trail |
| `RootSolves.RootSolve.InstallRootItem` | src/solver/mod.rs:606-632 | the root opens the first level |
| `RootSolves.RootSolve.Decide` | src/solver/mod.rs:868-912 | if and only if a clause is eligible, the decision of the queue is assigned true at the next level with its clause as the reason; otherwise nothing changes |
| `RootSolves.RootSolve.AskQueue` | src/solver/mod.rs:939-985 | the offer is the one the scan of all clauses chooses, an undecided variable that exists; there is none if and only if no clause is eligible |
| `RootSolves.EligibleAsks` | src/solver/decide_queue.rs:537-584 | on the trail, a clause is eligible exactly when its parent is installed, the literals of its condition are false and no candidate is installed |
| `RootSolves.RootSolve.ImplyLiteral` | src/solver/mod.rs:1270-1295 | what any clause forces is assigned at the current level and keeps every invariant |
| `RootSolves.RootSolve.PropagateNextEntry` | src/solver/mod.rs:1194-1321 | propagating through the implications of gates settles the entry or finds a violated implication, and keeps every invariant |
| `RootSolves.RootSolve.BackjumpTo` | src/solver/mod.rs:1628-1630 | so does a backjump, after which no implication is violated |
| `RootSolves.RootSolve.RestartAll` | src/solver/mod.rs:809-812 | and starting over |
| `RootSolves.RootSolve.BumpName` | src/solver/mod.rs:1594-1607 | and a conflict that makes a package hot |
| `RootSolves.RootSolve.EncodeDirectly` | src/solver/encoding.rs:494-529 | a requires clause is added and registered; if all its literals but the parent's are false and the parent is not, the search has to start over |
| `RootSolves.RequiresMeans` | src/solver/clause.rs:166-230 | an assignment satisfies the stored clause if and only if, when the parent is true, a candidate or a literal of the condition is |
| `RootSolves.ViolatedMeans` | src/solver/clause.rs:166-230 | the search starts over exactly when the clause has other literals than the parent's, all its candidates and the literals of its condition are false, and the parent is not |
| `RootSolves.RootSolve.AllocateGate` | src/solver/encoding.rs:548-586 | a new gate with its candidate clause, registered with the queue as the parent of that clause, and false at once if all candidates are |
| `RootSolves.RootSolve.AddRequirerOf` | src/solver/encoding.rs:588-621 | the item implies the gate, whose clause offers the candidates |
| `RootSolves.RootSolve.EncodeNeed` | src/solver/encoding.rs:471-529 | an unconditional requirement is encoded: from four candidates on, unless it is the root's, the item implies the gate, whose clause is registered the first time only; otherwise with a clause of its own |
| `RootSolves.RootSolve.HandleAlternative` | src/solver/encoding.rs:932-985 | an alternative that holds is encoded and does not wait; one that does not waits and is not encoded |
| `RootSolves.RootSolve.EncodeItemNow` | src/solver/encoding.rs:270-319 | all requirements of the item are encoded and every alternative is encoded or waits |
| `RootSolves.RootSolve.DrainAndEncode` | src/solver/mod.rs:783-797 | every alternative that fired is encoded, and nothing that waits holds |
| `RootSolves.RootSolve.ForceGates` | src/solver/mod.rs:729-732 | no gate is stuck, every invariant is kept, and something is forced if and only if a gate was stuck |
| `RootSolves.RootSolve.TryFinish` | src/solver/mod.rs:696-747 | a solution is accepted if and only if nothing can be decided, every chosen item was encoded, no condition that waits has fired and no gate was stuck; then every requirement of the root and of every chosen item has a chosen candidate |
| `RootSolves.Accepted` | src/solver/mod.rs:696-747 | why: a chosen item is encoded, directly or through a gate that is true, and no clause is eligible |
| `RootSolves.ConditionIsServed` | src/solver/mod.rs:696-747 | in a solution a conditional requirement of a chosen item whose condition is true of the chosen solvables has a chosen candidate, unless a literal of one of its alternatives is not false |
| `RootSolves.RootSolve.Take` | src/solver/mod.rs:580-813 | each step has its effect if it is possible, and a solution is accepted exactly by the last one when nothing is left to do |
| `RootSolves.RootSolve.Run` | src/solver/mod.rs:580-813 | over every sequence of steps the invariants hold and what is accepted is a solution |
| `RootSolves.SolveAlong` | src/solver/mod.rs:495-545 | the same from the constructor: for every schedule, each requirement of each chosen item has a chosen candidate |
| `Deferred.DeferredRequirements.Push` | src/solver/mod.rs:1808-1813 | the entry waits after all others of its condition |
| `Deferred.DeferredRequirements.FiredConditions` | src/solver/mod.rs:1745-1755 | exactly the conditions for which an entry holds |
| `Deferred.DeferredRequirements.DrainFired` | src/solver/mod.rs:1760-1804 | takes exactly the entries that hold in the order they were pushed, keeps the rest in order, and everything ever pushed is waiting or was drained once |
| `Deferred.DeferredRequirements.Split` | src/solver/mod.rs:1783-1803 | removing from the back by a mask and reversing splits the list in order |
| `Deferred.DeferredRequirements.DrainAll` | src/solver/mod.rs:783-787 | takes all entries that hold, condition by condition and in the order they were pushed, closes exactly those, and nothing that is still waiting holds |
| `Deferred.PickIsOpen` | src/solver/mod.rs:1760-1804 | a drain closes exactly the open entries that hold |
| `Deferred.PickConcat` | src/solver/mod.rs:1783-1803 | what is taken from a list, and what is left of it, keeps the order of the list |
| `Deferred.FiresWhenMet` | src/solver/conditions.rs:207-221 | an entry holds exactly when each version set of its alternative has a matching solvable selected |
| `Deferred.ConditionFires` | src/solver/conditions.rs:109-221 | some entry of a condition holds exactly when the condition is true of what is selected |
| `Cache.SolverCache.Start` | src/solver/cache.rs:83-116 | a cached entry, or cancellation, or waiting for a request under way, or one new request |
| `Cache.SolverCache.Receive` | src/solver/cache.rs:117-158 | the answer is stored, the request is over, everybody who listens is notified |
| `Cache.SolverCache.Resume` | src/solver/cache.rs:102-109 | a task that is notified finds the result |
| `Cache.SolverCache.Take` | src/solver/cache.rs:79-161 | what every step does to tasks, requests and answers, and that a step which is not possible changes none of them |
| `Cache.SolverCache.Run` | src/solver/cache.rs:79-161 | under every schedule the provider is asked at most once per package, finished tasks share an entry exactly when they asked for the same package, and every entry is an answer of the provider to a task that asked for that package |
| `Cache.NoDeadlock` | src/solver/cache.rs:101-158 | a task that is not finished can be polled, or waits for a task that is asking |

## Left out

- Soft requirements: a run that starts above level zero can backjump below where it started, so all run-level claims are about the root solve.
- Solvers.Solver.Decide: takes any eligible clause, so that what holds of the search holds of every decision rule; the rule itself is the decide queue's.
- Solvers.Solver.Solve: the set of clauses is fixed; clauses added during the search are covered by the root solve, which takes conflict analysis as given.
- Solvers.Solver.Analyze: the activities it bumps are modelled in the decide queue and not in the engine.
- Gates.Gatekeeper.Backjump: takes the target level as given; that learning always returns to a lower level is proved in the engine.
- Deciding.Decider.Decide: asks that no eligible clause has all its candidates false, a state the original declares unreachable.
- Resolving.Resolve: all clauses are emitted before the search; no solvable rules itself out, conditions are on packages that do not allow several
  solvables, and there are at most 2^31 - 1 variables, the range of the packed levels.
- RootSolves.RootSolve.TryFinish: asks, as the decide queue does, that no eligible clause has all its candidates false.
- Gates.Gatekeeper.PropagateNext: propagates the implications of gates; what other clauses force is assigned by separate steps with a proper reason.
- Compilation.ConditionalSoundness: for packages that do not allow several solvables, with the selected solvables of the condition's packages tracked.
- Encoders.Encoder.AddPendingForbid: pending variables are kept in one list in the order they were met instead of one list per package; a package
  that is found to allow several solvables after some of its solvables were recorded keeps those tracked, as the original does.
- Encoders.Encoder.OnRequirement: the encoder is about clauses; what a handler forces or reports under existing assignments is modelled in the root solve.
- Encoders.Encoder.AddExclusion: does not report an exclusion of an installed item.
- Encoders.Encoder.OnConstraint: does not report conflicts with existing assignments.
- Encoders.Encoder.ViolationOf: does not force the shared variable when an excluded solvable is installed already.
- Encoders.Encoder.TrackFirst: does not force helpers or report conflicts under existing assignments.
- Encoders.Encoder.AddPendingSelected: does not force the package variable when a solvable is installed already.
- Clauses.InitialWatchesAreLiterals: the watches chosen while nothing is assigned; those of a clause added under assignments are left out.
- At-least-one and shared-constraint variables over dynamic runs: they are not repaired after a backjump, so their correctness is stated for clauses.
- The watch links live in the watch map's object instead of beside the clauses; the walk over sorted candidates is one list per requirement.
- Activities are reals; rounding of the original's 32-bit floats is not modelled.
- Cancellation outside the cache, asynchronous runtimes and the queueing of futures: the encoder is a sequence of handler calls in any order.
- A task that is dropped between two await points: the cache is modelled for tasks that run to completion.
- Conflict graphs and messages, snapshots, tracing, diagnostics, prefetching, the C++ bindings and the arena and mapping utilities, which would only add
  easy members.
