/**
 The decide queue beside the decision tracker: assignments, undos, new clauses and conflicts
 in any order, and decisions taken in between.  Every operation keeps the invariant, and every
 decision is the one a scan of all registered clauses would take.
 */
module Deciding {
  import opened Sat
  import opened Trails
  import opened Clauses
  import opened DecisionTrackers
  import opened Walks
  import opened Selection
  import opened QueueIndex
  import opened DecideQueues

  class Decider {
    const tracker: DecisionTracker
    const queue: DecideQueue
    const activities: Activities

    /** The assignment the queue was last brought up to date with. */
    ghost var base: DecisionMap
    ghost var baseTrail: Trail
    /** The clauses registered since. */
    ghost var waived: set<TrackedId>

    ghost predicate Valid()
      reads this, tracker, queue, activities
    {
      && tracker.Valid() && queue.Valid() && activities.Valid()
      && CacheOk(queue.env, queue.requirementStates, base, {})
      && AllExcused(queue.env, queue.clauses, queue.queue, queue.requirementStates, base, {}, {}, waived)
      && Mirrors(queue.mirror, tracker.observed) && Snapshot(base, baseTrail, tracker.observed)
      && WaitsForParent(waived, queue.clauses, queue.queue, tracker.observed, tracker.syncFloor)
      && queue.hotOnly == activities.Standard()
      && (activities.Standard() ==> OnlyHotActive(activities.activity, queue.hotNames))
    }

    constructor (env: Provider, add: real, decay: real, tracker: DecisionTracker)
      requires env.Valid() && tracker.Valid() && tracker.trail == EMPTY_TRAIL && tracker.observed == []
      ensures Valid() && this.tracker == tracker && fresh(queue) && fresh(activities)
      ensures queue.clauses == [] && queue.clausesByParent == [] && queue.env == env
    {
      this.tracker := tracker;
      queue := new DecideQueue(env, add > 0.0 && decay >= 0.0);
      activities := new Activities(add, decay);
      base, baseTrail, waived := [], EMPTY_TRAIL, {};
      new;
      hide Wf, LevelsOk, StackAgrees, MapAgrees, CacheOk, AllExcused, PositionsOk, NamesOk, ConditionsOk,
           RequirementsOk, QueueOk, HotPart, MaxIsExact;
      assert queue.Synced([]);
      EmptySnapshot();
    }

    /** Changes of the tracker that leave what was observed and do not raise the floor keep the invariant. */
    twostate lemma TrackerMoved()
      requires old(Valid()) && tracker.Valid() && unchanged(this) && unchanged(queue) && unchanged(activities)
      requires tracker.observed == old(tracker.observed) && tracker.syncFloor <= old(tracker.syncFloor)
      ensures Valid()
    {
      hide Wf, StackAgrees, MapAgrees, CacheOk, AllExcused, Mirrors, Snapshot, WaitsForParent, OnlyHotActive,
           PositionsOk, NamesOk, ConditionsOk, RequirementsOk, QueueOk, HotPart, MaxIsExact;
      LowerFloor(waived, queue.clauses, queue.queue, tracker.observed, old(tracker.syncFloor), tracker.syncFloor);
    }

    method Assign(d: Decision, level: nat) returns (r: Attempt)
      requires Valid() && 1 <= level <= MAX_LEVEL
      modifies tracker
      ensures Valid()
      ensures tracker.trail ==
        if r == Added then Push(old(tracker.trail), Entry(d.variable, d.value, level, d.reason))
        else old(tracker.trail)
    {
      hide Wf, LevelsOk, StackAgrees, MapAgrees, CacheOk, AllExcused, Mirrors, Snapshot, WaitsForParent,
           OnlyHotActive, PositionsOk, NamesOk, ConditionsOk, RequirementsOk, QueueOk, HotPart, MaxIsExact;
      r := tracker.TryAddDecision(d, level);
    }

    method UndoLast() returns (d: Decision, level: nat)
      requires Valid() && |tracker.stack| >= 2
      modifies tracker
      ensures Valid() && tracker.trail == Prefix(old(tracker.trail), |old(tracker.trail).entries| - 1)
    {
      hide Wf, LevelsOk, StackAgrees, MapAgrees, CacheOk, AllExcused, Mirrors, Snapshot, WaitsForParent,
           OnlyHotActive, PositionsOk, NamesOk, ConditionsOk, RequirementsOk, QueueOk, HotPart, MaxIsExact;
      ghost var floor := tracker.syncFloor;
      d, level := tracker.UndoLast();
      LowerFloor(waived, queue.clauses, queue.queue, tracker.observed, floor, tracker.syncFloor);
    }

    method UndoUntil(level: nat)
      requires Valid() && LevelsOk(tracker.trail)
      modifies tracker
      ensures Valid() && tracker.trail == UpTo(old(tracker.trail), level)
    {
      hide Wf, LevelsOk, StackAgrees, MapAgrees, CacheOk, AllExcused, Mirrors, Snapshot, WaitsForParent,
           OnlyHotActive, PositionsOk, NamesOk, ConditionsOk, RequirementsOk, QueueOk, HotPart, MaxIsExact, UpTo;
      ghost var floor := tracker.syncFloor;
      tracker.UndoUntil(level);
      LowerFloor(waived, queue.clauses, queue.queue, tracker.observed, floor, tracker.syncFloor);
    }

    method Clear()
      requires Valid()
      modifies tracker
      ensures Valid() && tracker.trail == EMPTY_TRAIL
    {
      hide Wf, LevelsOk, StackAgrees, MapAgrees, CacheOk, AllExcused, Mirrors, Snapshot, WaitsForParent,
           OnlyHotActive, PositionsOk, NamesOk, ConditionsOk, RequirementsOk, QueueOk, HotPart, MaxIsExact;
      ghost var floor := tracker.syncFloor;
      tracker.Clear();
      LowerFloor(waived, queue.clauses, queue.queue, tracker.observed, floor, tracker.syncFloor);
    }

    /** A package was involved in a conflict: it is more active, and hot from now on. */
    method Bump(name: Name)
      requires Valid()
      modifies queue, activities
      ensures Valid() && queue.hotNames == old(queue.hotNames) + {name} && SameButHot(queue.clauses, old(queue.clauses))
      ensures activities.activity == old(activities.activity)[name := old(activities.Of(name)) + activities.add]
    {
      hide Wf, LevelsOk, StackAgrees, MapAgrees, CacheOk, AllExcused, Mirrors, Snapshot, WaitsForParent,
           OnlyHotActive, PositionsOk, NamesOk, ConditionsOk, RequirementsOk, QueueOk, HotPart, MaxIsExact,
           SameButHot;
      BumpedIsHot(activities.activity, queue.hotNames, name, activities.Of(name) + activities.add);
      activities.Bump(name);
      ghost var before := queue.clauses;
      queue.MarkNameHot(name, base, waived);
      StillWaits(waived, before, queue.clauses, queue.queue, tracker.observed, tracker.syncFloor);
    }

    /** After every conflict all activities shrink. */
    method Decay()
      requires Valid()
      modifies activities
      ensures Valid() && activities.activity == Decayed(old(activities.activity), activities.decay)
    {
      hide Wf, LevelsOk, StackAgrees, MapAgrees, CacheOk, AllExcused, Mirrors, Snapshot, WaitsForParent,
           OnlyHotActive, PositionsOk, NamesOk, ConditionsOk, RequirementsOk, QueueOk, HotPart, MaxIsExact,
           Decayed;
      DecayedIsHot(activities.activity, queue.hotNames, activities.decay);
      activities.Decay();
    }

    /** Registers a requires clause that was encoded just now. */
    method Register(parent: Var, requirement: Requirement, condition: Option<DisjunctionId>, clauseId: ClauseId)
      requires Valid() && Room(queue.clausesByParent, 1)
      modifies this, queue
      ensures Valid() && |queue.clauses| == |old(queue.clauses)| + 1 &&
              queue.clauses[..|old(queue.clauses)|] == old(queue.clauses)
      ensures forall k: nat :: Room(old(queue.clausesByParent), k + 1) ==> Room(queue.clausesByParent, k)
      ensures var c := queue.clauses[|old(queue.clauses)|];
        c.parent == parent && c.requirement == requirement && c.condition == condition && c.clauseId == clauseId
    {
      hide Wf, LevelsOk, StackAgrees, MapAgrees, CacheOk, AllExcused, Mirrors, Snapshot, WaitsForParent,
           OnlyHotActive, PositionsOk, NamesOk, ConditionsOk, RequirementsOk, QueueOk, HotPart, MaxIsExact;
      var parentTrue := tracker.AssignedValue(parent) == Some(true);
      ghost var before, queued := queue.clauses, queue.queue;
      FloorIsAssigned(tracker.stack, tracker.trail, tracker.observed, tracker.syncFloor, parent);
      var id := queue.RegisterClause(parent, requirement, condition, clauseId, parentTrue, base, waived);
      NewcomerWaits(waived, before, queue.clauses, queued, queue.queue, tracker.observed, tracker.syncFloor,
                    parentTrue);
      waived := waived + {id};
    }

    /** Takes the next decision: the queue is brought up to date and chooses what a scan of all clauses would. */
    method Decide() returns (r: Option<Offer>)
      requires Valid() && queue.Walkable(tracker.map_)
      modifies this, tracker, queue
      ensures Valid() && tracker.Valid() && queue.Synced(tracker.map_) && waived == {}
      ensures tracker.trail == old(tracker.trail) && tracker.stack == old(tracker.stack) &&
              tracker.map_ == old(tracker.map_)
      ensures tracker.propagateIndex == old(tracker.propagateIndex) && queue.clauses == old(queue.clauses)
      ensures r == Naive(Offers(queue.env, queue.clauses, tracker.map_, activities.activity, |queue.clauses|))
      ensures if r.Some? then IsDecision(queue.env, queue.clauses, tracker.map_, activities.activity, r.value)
              else !SomeEligible(queue.env, queue.clauses, tracker.map_)
    {
      hide Wf, LevelsOk, StackAgrees, MapAgrees, CacheOk, AllExcused, Mirrors, Snapshot, WaitsForParent,
           OnlyHotActive, PositionsOk, NamesOk, ConditionsOk, RequirementsOk, QueueOk, HotPart, MaxIsExact,
           StandardActivities, Naive, Offers, IsEligible, Walk, IsDecision, SomeEligible;
      ghost var observed := tracker.observed;
      var floor := tracker.TakeSyncFloor();
      NowSnapshot(tracker.stack, tracker.map_, tracker.trail);
      MirrorAgrees(queue.mirror, observed, tracker.stack, floor);
      OnlyTouchedDiffer(base, baseTrail, observed, tracker.map_, tracker.trail, tracker.stack, floor, queue.mirror);
      NewcomersAreTouched(waived, queue.clauses, queue.queue, observed, tracker.map_, tracker.trail, tracker.stack,
                          floor, queue.mirror);
      queue.Sync(floor, tracker.stack, tracker.map_, base, waived);
      base, baseTrail, waived := tracker.map_, tracker.trail, {};
      if activities.Standard() {
        StandardHolds(activities.activity, activities.max, queue.hotNames);
      }
      r := queue.NextDecision(tracker.map_, activities.activity, activities.max);
      FreshMirror(tracker.stack, queue.mirror, queue.clauses, queue.queue);
    }
  }

  /** The mirror holds the variables of the stack it was copied from. */
  ghost predicate Mirrors(mirror: seq<Var>, observed: seq<Decision>) {
    |mirror| == |observed| && forall i :: 0 <= i < |mirror| ==> mirror[i] == observed[i].variable
  }

  /** `base` is the assignment of the observed stack. */
  ghost predicate Snapshot(base: DecisionMap, baseTrail: Trail, observed: seq<Decision>) {
    Wf(baseTrail) && |observed| == |baseTrail.entries| && StackAgrees(observed, baseTrail) && MapAgrees(base, baseTrail)
  }

  /** A clause registered since the last decision and not queued: its parent is not among the assignments that
      have lasted since then, so the next decision will see it being installed. */
  ghost predicate WaitsForParent(waived: set<TrackedId>, clauses: seq<TrackedClause>, queue: Queue,
                                 observed: seq<Decision>, floor: nat) {
    forall id, i :: id in waived && id < |clauses| && clauses[id].position !in queue && 0 <= i < floor &&
                    i < |observed| ==>
      !(observed[i].variable == clauses[id].parent && observed[i].value)
  }

  ghost predicate OnlyHotActive(activity: map<Name, real>, hotNames: set<Name>) {
    forall name :: name in activity ==> name in hotNames || activity[name] == 0.0
  }

  lemma LowerFloor(waived: set<TrackedId>, clauses: seq<TrackedClause>, queue: Queue, observed: seq<Decision>,
                   floor: nat, floor': nat)
    requires WaitsForParent(waived, clauses, queue, observed, floor) && floor' <= floor
    ensures WaitsForParent(waived, clauses, queue, observed, floor')
  {
  }

  lemma StillWaits(waived: set<TrackedId>, clauses: seq<TrackedClause>, clauses': seq<TrackedClause>, queue: Queue,
                   observed: seq<Decision>, floor: nat)
    requires WaitsForParent(waived, clauses, queue, observed, floor) && SameButHot(clauses', clauses)
    ensures WaitsForParent(waived, clauses', queue, observed, floor)
  {
    forall id, i | id in waived && id < |clauses| && clauses'[id].position !in queue && 0 <= i < floor && i < |observed|
      ensures !(observed[i].variable == clauses'[id].parent && observed[i].value)
    {
      assert clauses[id].position !in queue;
    }
  }

  lemma BumpedIsHot(activity: map<Name, real>, hotNames: set<Name>, name: Name, a: real)
    ensures OnlyHotActive(activity, hotNames) ==> OnlyHotActive(activity[name := a], hotNames + {name})
  {
  }

  lemma DecayedIsHot(activity: map<Name, real>, hotNames: set<Name>, decay: real)
    ensures OnlyHotActive(activity, hotNames) ==> OnlyHotActive(Decayed(activity, decay), hotNames)
  {
  }

  lemma StandardHolds(activity: map<Name, real>, max: real, hotNames: set<Name>)
    requires MaxIsExact(activity, max) && OnlyHotActive(activity, hotNames)
    ensures StandardActivities(activity, max, hotNames)
  {
  }

  /** An entry of the stack below the floor is an assignment that holds now. */
  lemma FloorIsAssigned(stack: seq<Decision>, t: Trail, observed: seq<Decision>, floor: nat, v: Var)
    requires Wf(t) && |stack| == |t.entries| && StackAgrees(stack, t) && floor <= |stack| && floor <= |observed| &&
             stack[..floor] == observed[..floor]
    ensures !IsTrue(t, Positive(v)) ==> forall i :: 0 <= i < floor ==> !(observed[i].variable == v && observed[i].value)
  {
    forall i | 0 <= i < floor ensures observed[i] == stack[i] && stack[i].variable == t.entries[i].variable &&
    stack[i].value == t.entries[i].value {
      assert stack[..floor][i] == observed[..floor][i];
    }
  }

  lemma NewcomerWaits(waived: set<TrackedId>, clauses: seq<TrackedClause>, clauses': seq<TrackedClause>, queue: Queue,
                      queue': Queue,
                      observed: seq<Decision>, floor: nat, parentTrue: bool)
    requires WaitsForParent(waived, clauses, queue, observed, floor) && |clauses'| == |clauses| + 1 &&
             clauses'[..|clauses|] == clauses
    requires if parentTrue then clauses'[|clauses|].position in queue' && queue.Keys <= queue'.Keys else queue' == queue
    requires !parentTrue ==> forall i :: 0 <= i < floor && i < |observed| ==>
                               !(observed[i].variable == clauses'[|clauses|].parent && observed[i].value)
    ensures WaitsForParent(waived + {|clauses|}, clauses', queue', observed, floor)
  {
    forall id, i | id in waived + {|clauses|} && id < |clauses'| && clauses'[id].position !in queue' &&
    0 <= i < floor && i < |observed|
      ensures !(observed[i].variable == clauses'[id].parent && observed[i].value)
    {
      if id < |clauses| {
        assert clauses'[..|clauses|][id] == clauses[id];
      }
    }
  }

  lemma SamePrefix(observed: seq<Decision>, stack: seq<Decision>, floor: nat)
    requires floor <= |stack| && floor <= |observed| && observed[..floor] == stack[..floor]
    ensures forall i :: 0 <= i < floor ==> observed[i] == stack[i]
  {
    forall i | 0 <= i < floor ensures observed[i] == stack[i] {
      assert observed[..floor][i] == stack[..floor][i];
    }
  }

  lemma MirrorAgrees(mirror: seq<Var>, observed: seq<Decision>, stack: seq<Decision>, floor: nat)
    requires Mirrors(mirror, observed) && floor <= |stack| && floor <= |observed| && observed[..floor] == stack[..floor]
    ensures floor <= |mirror| && forall i :: 0 <= i < floor ==> mirror[i] == stack[i].variable
  {
    SamePrefix(observed, stack, floor);
  }

  /** The value of a variable is that of its entry on the stack. */
  lemma ValueOnStack(m: DecisionMap, t: Trail, stack: seq<Decision>, v: Var)
    requires Wf(t) && |stack| == |t.entries| && StackAgrees(stack, t) && MapAgrees(m, t)
    ensures forall i :: 0 <= i < |stack| && stack[i].variable == v ==> ValueIn(m, v) == Some(stack[i].value)
    ensures ValueIn(m, v) == None || exists i :: 0 <= i < |stack| && stack[i].variable == v
    ensures ValueIn(m, v) == Some(true) <==> IsTrue(t, Positive(v))
    ensures ValueIn(m, v) == None <==> v !in t.pos
  {
    assert MapGet(m, v) == Packed(t, v);
    if Assigned(t, v) {
      assert stack[t.pos[v]].variable == v;
    }
  }

  lemma OnlyTouchedDiffer(base: DecisionMap, baseTrail: Trail, observed: seq<Decision>, m: DecisionMap, t: Trail,
                          stack: seq<Decision>,
                          floor: nat, mirror: seq<Var>)
    requires Snapshot(base, baseTrail, observed) && Snapshot(m, t, stack) && Mirrors(mirror, observed)
    requires floor <= |stack| && floor <= |observed| && observed[..floor] == stack[..floor]
    ensures Differs(base, m, ChangedSince(mirror, stack, floor))
  {
    hide Wf, StackAgrees, MapAgrees, ValueIn;
    forall v: Var | v !in ChangedSince(mirror, stack, floor) ensures ValueIn(base, v) == ValueIn(m, v) {
      ValueOnStack(base, baseTrail, observed, v);
      ValueOnStack(m, t, stack, v);
      if i :| 0 <= i < |stack| && stack[i].variable == v {
        assert i < floor && observed[..floor][i] == stack[..floor][i];
      }
      if i :| 0 <= i < |observed| && observed[i].variable == v {
        assert mirror[i] == v;
        assert i < floor && observed[..floor][i] == stack[..floor][i];
      }
    }
  }

  lemma NewcomersAreTouched(waived: set<TrackedId>, clauses: seq<TrackedClause>, queue: Queue, observed: seq<Decision>,
                            m: DecisionMap, t: Trail, stack: seq<Decision>, floor: nat, mirror: seq<Var>)
    requires WaitsForParent(waived, clauses, queue, observed, floor) && Snapshot(m, t, stack)
    requires floor <= |stack| && floor <= |observed| && observed[..floor] == stack[..floor]
    ensures forall id :: id in waived && id < |clauses| && clauses[id].position !in queue ==>
              (ValueIn(m, clauses[id].parent) == Some(true) ==>
                 clauses[id].parent in ChangedSince(mirror, stack, floor))
  {
    hide Wf, StackAgrees, MapAgrees, ValueIn;
    forall id | id in waived && id < |clauses| && clauses[id].position !in queue &&
    ValueIn(m, clauses[id].parent) == Some(true)
      ensures clauses[id].parent in ChangedSince(mirror, stack, floor)
    {
      ValueOnStack(m, t, stack, clauses[id].parent);
      SamePrefix(observed, stack, floor);
      var i :| 0 <= i < |stack| && stack[i].variable == clauses[id].parent;
    }
  }

  lemma EmptySnapshot()
    ensures Snapshot([], EMPTY_TRAIL, [])
  {
  }

  lemma NowSnapshot(stack: seq<Decision>, m: DecisionMap, t: Trail)
    requires Wf(t) && |stack| == |t.entries| && StackAgrees(stack, t) && MapAgrees(m, t)
    ensures Snapshot(m, t, stack)
  {
  }

  lemma FreshMirror(stack: seq<Decision>, mirror: seq<Var>, clauses: seq<TrackedClause>, queue: Queue)
    requires |mirror| == |stack| && forall i :: 0 <= i < |stack| ==> mirror[i] == stack[i].variable
    ensures Mirrors(mirror, stack) && WaitsForParent({}, clauses, queue, stack, |stack|)
  {
  }
}
