/**
 The incremental decide queue.  It holds a superset of the clauses a decision can be taken
 from; changes of the assignment are routed through occurrence lists, walks are cached per
 requirement, and only hot clauses are looked at once a first best is known.
 */
module DecideQueues {
  import opened Sat
  import opened Clauses
  import opened DecisionTrackers
  import opened Walks
  import opened Selection
  import opened QueueIndex

  class DecideQueue {
    const env: Provider
    const hotOnly: bool

    var clauses: seq<TrackedClause>
    var parentPositions: map<Var, nat>
    var clausesByParent: seq<seq<TrackedId>>
    var queue: Queue
    var hotQueue: Queue
    var hotNames: set<Name>
    var clausesByName: map<Name, seq<TrackedId>>
    var requirementsByCandidate: map<Var, seq<Requirement>>
    var clausesByCondition: map<Var, seq<TrackedId>>
    var requirementStates: map<Requirement, CacheEntry>
    var clausesByRequirement: map<Requirement, seq<TrackedId>>
    var mirror: seq<Var>

    /** The index structures agree with the registered clauses. */
    ghost predicate Valid()
      reads this
    {
      && env.Valid()
      && PositionsOk(clauses, parentPositions, clausesByParent)
      && QueueOk(clauses, queue) && hotQueue == HotPart(clauses, queue)
      && NamesOk(env, clauses, hotNames, clausesByName)
      && ConditionsOk(env, clauses, clausesByCondition)
      && RequirementsOk(env, clauses, requirementStates, requirementsByCandidate, clausesByRequirement)
    }

    /** The queue is up to date with assignment `m`. */
    ghost predicate Synced(m: DecisionMap)
      reads this
    {
      Valid() && CacheOk(env, requirementStates, m, {}) &&
      AllExcused(env, clauses, queue, requirementStates, m, {}, {}, {})
    }

    constructor (env: Provider, hotOnly: bool)
      requires env.Valid()
      ensures this.env == env && this.hotOnly == hotOnly && clauses == [] && clausesByParent == [] && mirror == [] &&
              hotNames == {} && queue == map[] && forall m: DecisionMap :: Synced(m)
    {
      this.env, this.hotOnly := env, hotOnly;
      clauses, parentPositions, clausesByParent, queue, hotQueue := [], map[], [], map[], map[];
      hotNames, clausesByName, requirementsByCandidate, clausesByCondition := {}, map[], map[], map[];
      requirementStates, clausesByRequirement, mirror := map[], map[], [];
    }

    /** Queues those of the given clauses whose parent is installed. */
    method EnqueueAll(ids: seq<TrackedId>, m: DecisionMap)
      requires QueueOk(clauses, queue) && hotQueue == HotPart(clauses, queue) && DistinctPositions(clauses)
      requires forall k :: 0 <= k < |ids| ==> ids[k] < |clauses|
      modifies this`queue, this`hotQueue
      ensures QueueOk(clauses, queue) && hotQueue == HotPart(clauses, queue)
      ensures old(queue.Keys) <= queue.Keys
      ensures forall k :: 0 <= k < |ids| && ValueIn(m, clauses[ids[k]].parent) == Some(true) ==>
                clauses[ids[k]].position in queue
    {
      for i := 0 to |ids|
        invariant QueueOk(clauses, queue) && hotQueue == HotPart(clauses, queue) && old(queue.Keys) <= queue.Keys
        invariant forall k :: 0 <= k < i && ValueIn(m, clauses[ids[k]].parent) == Some(true) ==>
                    clauses[ids[k]].position in queue
      {
        var c := clauses[ids[i]];
        if ValueIn(m, c.parent) == Some(true) {
          HotPartAdds(clauses, queue, ids[i]);
          queue := queue[c.position := ids[i]];
          if c.hot {
            hotQueue := hotQueue[c.position := ids[i]];
          }
        }
      }
    }

    /** A parent that was installed may make its clauses eligible. */
    method WakeParent(v: Var, m: DecisionMap, ghost parents: set<Var>, ghost conditions: set<Var>)
      requires Valid() && AllExcused(env, clauses, queue, requirementStates, m, parents, conditions, {})
      modifies this`queue, this`hotQueue
      ensures Valid() && AllExcused(env, clauses, queue, requirementStates, m, parents - {v}, conditions, {})
    {
      hide PositionsOk, NamesOk, ConditionsOk, RequirementsOk, QueueOk, HotPart, AllExcused, ValueIn,
           DistinctPositions;
      ghost var before := queue;
      if ValueIn(m, v) == Some(true) && v in parentPositions {
        PositionsAreDistinct(clauses, parentPositions, clausesByParent);
        ListedByParent(clauses, parentPositions, clausesByParent, v);
        EnqueueAll(clausesByParent[parentPositions[v]], m);
      }
      ParentsWoken(env, clauses, before, queue, requirementStates, m, parents, conditions, v, parentPositions,
                   clausesByParent);
    }

    /** Any change of a condition variable may complete a condition. */
    method WakeConditions(v: Var, m: DecisionMap, ghost parents: set<Var>, ghost conditions: set<Var>)
      requires Valid() && AllExcused(env, clauses, queue, requirementStates, m, parents, conditions, {})
      modifies this`queue, this`hotQueue
      ensures Valid() && AllExcused(env, clauses, queue, requirementStates, m, parents, conditions - {v}, {})
    {
      hide PositionsOk, NamesOk, ConditionsOk, RequirementsOk, QueueOk, HotPart, AllExcused, ValueIn,
           DistinctPositions;
      ghost var before := queue;
      if v in clausesByCondition {
        PositionsAreDistinct(clauses, parentPositions, clausesByParent);
        ListedByCondition(env, clauses, clausesByCondition, v);
        EnqueueAll(clausesByCondition[v], m);
      }
      ConditionsWoken(env, clauses, before, queue, requirementStates, m, parents, conditions, v, clausesByCondition);
    }

    /** Drops what is cached for a requirement unless the candidate that satisfies it is still installed,
        and wakes its clauses if it was satisfied. */
    method Invalidate(r: Requirement, m: DecisionMap, ghost parents: set<Var>, ghost conditions: set<Var>)
      requires Valid() && r in requirementStates
      requires AllExcused(env, clauses, queue, requirementStates, m, parents, conditions, {})
      modifies this`queue, this`hotQueue, this`requirementStates
      ensures Valid() && AllExcused(env, clauses, queue, requirementStates, m, parents, conditions, {})
      ensures requirementStates.Keys == old(requirementStates.Keys)
      ensures IsDroppedOrCertain(requirementStates[r], m)
      ensures requirementStates[r] == Routed(old(requirementStates)[r], m)
      ensures forall q :: q in requirementStates ==> Weaker(requirementStates[q], old(requirementStates)[q])
    {
      hide PositionsOk, NamesOk, ConditionsOk, RequirementsOk, QueueOk, HotPart, AllExcused, DistinctPositions;
      var entry := requirementStates[r];
      if IsDroppedOrCertain(entry, m) {
        return;
      }
      PositionsAreDistinct(clauses, parentPositions, clausesByParent);
      ghost var before := queue;
      requirementStates := requirementStates[r := entry.(state := Dirty)];
      DirtyKeepsRequirements(env, clauses, old(requirementStates), requirementsByCandidate, clausesByRequirement, r);
      if entry.state.SatisfiedBy? && r in clausesByRequirement {
        ListedByRequirement(env, clauses, requirementStates, requirementsByCandidate, clausesByRequirement, r);
        EnqueueAll(clausesByRequirement[r], m);
      }
      RequirementWoken(env, clauses, before, queue, old(requirementStates), requirementStates, m, parents, conditions,
                       r,
                       requirementsByCandidate, clausesByRequirement);
    }

    /** A candidate that changed invalidates the walks that inspected it. */
    method WakeCandidates(v: Var, m: DecisionMap, ghost parents: set<Var>, ghost conditions: set<Var>,
                          ghost candidates: set<Var>)
      requires Valid() && AllExcused(env, clauses, queue, requirementStates, m, parents, conditions, {})
      requires CacheOk(env, requirementStates, m, candidates)
      modifies this`queue, this`hotQueue, this`requirementStates
      ensures Valid() && AllExcused(env, clauses, queue, requirementStates, m, parents, conditions, {})
      ensures CacheOk(env, requirementStates, m, candidates - {v})
    {
      hide PositionsOk, NamesOk, ConditionsOk, RequirementsOk, QueueOk, HotPart, AllExcused, DistinctPositions,
           Routed;
      var rs := if v in requirementsByCandidate then requirementsByCandidate[v] else [];
      ListedByCandidate(env, clauses, requirementStates, requirementsByCandidate, clausesByRequirement, v);
      for i := 0 to |rs|
        invariant Valid() && AllExcused(env, clauses, queue, requirementStates, m, parents, conditions, {})
        invariant requirementStates.Keys == old(requirementStates.Keys)
        invariant forall r :: r in requirementStates ==> Weaker(requirementStates[r], old(requirementStates)[r])
        invariant forall j :: 0 <= j < i ==>
                    rs[j] in requirementStates && IsDroppedOrCertain(requirementStates[rs[j]], m)
      {
        Invalidate(rs[i], m, parents, conditions);
      }
      CandidatesWoken(env, clauses, old(requirementStates), requirementStates, m, candidates, v,
                      requirementsByCandidate, clausesByRequirement);
    }

    /** Routes one variable whose value may have changed through all three occurrence lists. */
    method RouteTouched(v: Var, m: DecisionMap, ghost pending: set<Var>)
      requires Valid() && CacheOk(env, requirementStates, m, pending)
      requires AllExcused(env, clauses, queue, requirementStates, m, pending, pending, {})
      modifies this`queue, this`hotQueue, this`requirementStates
      ensures Valid() && CacheOk(env, requirementStates, m, pending - {v})
      ensures AllExcused(env, clauses, queue, requirementStates, m, pending - {v}, pending - {v}, {})
    {
      hide PositionsOk, NamesOk, ConditionsOk, RequirementsOk, QueueOk, HotPart, AllExcused, DistinctPositions,
           CacheOk;
      WakeParent(v, m, pending, pending);
      WakeCandidates(v, m, pending - {v}, pending, pending);
      WakeConditions(v, m, pending - {v}, pending);
    }

    /** Brings the queue up to date: the variables of the mirror and of the trail beyond the floor are routed,
        and the mirror becomes the trail. `waived` are the clauses registered since the last time. */
    method Sync(floor: nat, trail: seq<Decision>, m: DecisionMap, ghost before: DecisionMap,
                ghost waived: set<TrackedId>)
      requires Valid() && CacheOk(env, requirementStates, before, {})
      requires AllExcused(env, clauses, queue, requirementStates, before, {}, {}, waived)
      requires floor <= |mirror| && floor <= |trail|
      requires forall i :: 0 <= i < floor ==> mirror[i] == trail[i].variable
      requires Differs(before, m, ChangedSince(mirror, trail, floor))
      requires forall id :: id in waived && id < |clauses| && clauses[id].position !in queue ==>
                 (ValueIn(m, clauses[id].parent) == Some(true) ==>
                    clauses[id].parent in ChangedSince(mirror, trail, floor))
      modifies this`queue, this`hotQueue, this`requirementStates, this`mirror
      ensures Synced(m)
      ensures |mirror| == |trail| && forall i :: 0 <= i < |trail| ==> mirror[i] == trail[i].variable
    {
      hide PositionsOk, NamesOk, ConditionsOk, RequirementsOk, QueueOk, HotPart, AllExcused, DistinctPositions,
           CacheOk, ValueIn, Differs;
      ghost var changed, mirror0 := ChangedSince(mirror, trail, floor), mirror;
      CacheFollows(env, requirementStates, before, m, changed);
      ExcusesFollow(env, clauses, queue, requirementStates, before, m, changed, waived);
      ghost var pending := changed;
      for i := floor to |mirror|
        invariant Valid() && CacheOk(env, requirementStates, m, pending) && mirror == mirror0
        invariant AllExcused(env, clauses, queue, requirementStates, m, pending, pending, {})
        invariant pending <= changed && forall j :: floor <= j < i ==> mirror0[j] !in pending
      {
        RouteTouched(mirror[i], m, pending);
        pending := pending - {mirror[i]};
      }
      mirror := mirror[..floor];
      for i := floor to |trail|
        invariant Valid() && CacheOk(env, requirementStates, m, pending)
        invariant AllExcused(env, clauses, queue, requirementStates, m, pending, pending, {})
        invariant pending <= changed && (forall j :: floor <= j < |mirror0| ==> mirror0[j] !in pending)
        invariant forall j :: floor <= j < i ==> trail[j].variable !in pending
        invariant |mirror| == i && forall j :: 0 <= j < i ==> mirror[j] == trail[j].variable
      {
        mirror := mirror + [trail[i].variable];
        RouteTouched(trail[i].variable, m, pending);
        pending := pending - {trail[i].variable};
      }
      assert pending == {};
    }

    /** Walks the candidates of a requirement unless the result is cached; the first walk registers their
        occurrences. */
    method EvalRequirement(r: Requirement, m: DecisionMap) returns (state: RequirementState)
      requires Synced(m) && r in requirementStates && Walk(env.walk(r), m) != Dirty
      modifies this`requirementStates, this`requirementsByCandidate
      ensures Synced(m) && requirementStates.Keys == old(requirementStates.Keys)
      ensures if Walk(env.walk(r), m).SatisfiedBy? then state.SatisfiedBy? else state == Walk(env.walk(r), m)
      ensures requirementStates[r].state == state
    {
      hide PositionsOk, NamesOk, ConditionsOk, RequirementsOk, QueueOk, HotPart, AllExcused, CacheOk, Walk,
           WalkOn;
      var entry := requirementStates[r];
      if entry.state != Dirty {
        CachedState(env, requirementStates, m, r);
        return entry.state;
      }
      if !entry.registered {
        NothingCached(env, clauses, requirementStates, requirementsByCandidate, clausesByRequirement, r);
        RegisterOccurrences(r);
        FlagKeepsCache(env, clauses, queue, old(requirementStates), m, r);
      }
      state := WalkCandidates(r, m);
      FreshState(env, clauses, requirementStates, requirementsByCandidate, clausesByRequirement, m, r, state);
      FreshKeepsExcuses(env, clauses, queue, requirementStates, m, r, state);
      requirementStates := requirementStates[r := requirementStates[r].(state := state)];
    }

    /** Lists the requirement with each of its candidates. */
    method RegisterOccurrences(r: Requirement)
      requires RequirementsOk(env, clauses, requirementStates, requirementsByCandidate, clausesByRequirement)
      requires r in requirementStates && requirementStates[r] == CacheEntry(Dirty, false)
      modifies this`requirementStates, this`requirementsByCandidate
      ensures RequirementsOk(env, clauses, requirementStates, requirementsByCandidate, clausesByRequirement)
      ensures requirementStates == old(requirementStates)[r := CacheEntry(Dirty, true)]
    {
      hide Mentions;
      var w := env.walk(r);
      for i := 0 to |w|
        invariant requirementStates == old(requirementStates)
        invariant forall v, k :: v in requirementsByCandidate && 0 <= k < |requirementsByCandidate[v]| ==>
                    requirementsByCandidate[v][k] in requirementStates
        invariant forall v :: v in old(requirementsByCandidate) ==>
                    v in requirementsByCandidate &&
                    (forall q :: q in old(requirementsByCandidate)[v] ==> q in requirementsByCandidate[v])
        invariant forall j :: 0 <= j < i ==> w[j].1 in requirementsByCandidate && r in requirementsByCandidate[w[j].1]
      {
        requirementsByCandidate := AppendTo(requirementsByCandidate, w[i].1, r);
      }
      AllMentioned(w, requirementsByCandidate, r);
      ghost var states := requirementStates;
      requirementStates := requirementStates[r := CacheEntry(Dirty, true)];
      forall q | q in requirementStates ensures OccurrencesOk(env, q, requirementStates[q], requirementsByCandidate) {
        assert OccurrencesOk(env, q, states[q], old(requirementsByCandidate));
      }
    }

    /** The walk itself: candidates in order, up to the first one that is installed. */
    method WalkCandidates(r: Requirement, m: DecisionMap) returns (state: RequirementState)
      ensures state == Walk(env.walk(r), m)
    {
      var w := env.walk(r);
      var first: Option<(Var, VersionSet, nat)> := None;
      assert w[0..] == w;
      for i := 0 to |w|
        invariant WalkOn(w[i..], m, first) == Walk(w, m)
      {
        WalkAppend(w, i, m, first);
        var (versionSet, candidate) := w[i];
        match ValueIn(m, candidate) {
          case Some(true) => return SatisfiedBy(candidate);
          case Some(false) =>
          case None => first := Note(first, candidate, versionSet);
        }
      }
      match first {
        case None => state := Dirty;
        case Some((candidate, versionSet, count)) => state := Frontier(candidate, versionSet, count);
      }
    }

    /** Whether a clause is eligible, and if so what it proposes. */
    method Inspect(c: TrackedClause, m: DecisionMap) returns (r: Option<(Var, VersionSet, nat)>)
      requires Synced(m) && c.requirement in requirementStates
      requires IsEligible(env, c, m) ==> Walk(env.walk(c.requirement), m) != Dirty
      modifies this`requirementStates, this`requirementsByCandidate
      ensures Synced(m) && requirementStates.Keys == old(requirementStates.Keys)
      ensures r.Some? <==> IsEligible(env, c, m)
      ensures r.Some? ==> Walk(env.walk(c.requirement), m) == Frontier(r.value.0, r.value.1, r.value.2)
      ensures r.None? ==> Excused(env, c, requirementStates, m, {}, {})
    {
      hide PositionsOk, NamesOk, ConditionsOk, RequirementsOk, QueueOk, HotPart, AllExcused, CacheOk, Walk,
           WalkOn, AnyTrue;
      if ValueIn(m, c.parent) != Some(true) {
        return None;
      }
      if c.condition.Some? {
        var literals := env.condition(c.condition.value);
        for i := 0 to |literals|
          invariant forall j :: 0 <= j < i ==> EvalIn(m, literals[j]) == Some(false)
        {
          if EvalIn(m, literals[i]) != Some(false) {
            assert literals[i] in literals;
            return None;
          }
        }
      }
      WalkMeaning(env.walk(c.requirement), m);
      var state := EvalRequirement(c.requirement, m);
      match state {
        case SatisfiedBy(_) => r := None;
        case Frontier(candidate, versionSet, count) => r := Some((candidate, versionSet, count));
      }
    }

    /** Removes a clause that turned out not to be eligible. */
    method Dequeue(p: Position, m: DecisionMap)
      requires Synced(m) && p in queue && queue[p] < |clauses| &&
               Excused(env, clauses[queue[p]], requirementStates, m, {}, {})
      modifies this`queue, this`hotQueue
      ensures Synced(m) && queue == old(queue) - {p}
    {
      hide PositionsOk, NamesOk, ConditionsOk, RequirementsOk, CacheOk, Excused;
      DequeueKeeps(env, clauses, queue, requirementStates, m, p, parentPositions, clausesByParent);
      queue := queue - {p};
      hotQueue := hotQueue - {p};
    }

    /** Every eligible clause can be walked to an undecided candidate: propagation has seen to the others. */
    predicate Walkable(m: DecisionMap)
      reads this
    {
      forall id :: 0 <= id < |clauses| && IsEligible(env, clauses[id], m) ==>
        Walk(env.walk(clauses[id].requirement), m) != Dirty
    }

    /** Inspects a queued clause: its offer if it is eligible, otherwise it is dequeued. */
    method Consider(p: Position, m: DecisionMap, activity: map<Name, real>) returns (o: Option<Offer>)
      requires Synced(m) && p in queue && Walkable(m)
      modifies this`queue, this`hotQueue, this`requirementStates, this`requirementsByCandidate
      ensures Synced(m)
      ensures var e := Offers(env, clauses, m, activity, |clauses|); if p in e then o == Some(e[p]) else o == None
      ensures queue == if o.Some? then old(queue) else old(queue) - {p}
    {
      hide PositionsOk, NamesOk, ConditionsOk, RequirementsOk, CacheOk, Excused, AllExcused, HotPart,
           IsEligible, Walk, Offers;
      var id := queue[p];
      var c := clauses[id];
      assert id < |clauses| && c.position == p;
      HasCacheEntry(env, clauses, requirementStates, requirementsByCandidate, clausesByRequirement, id);
      var r := Inspect(c, m);
      OfferOfClause(env, clauses, m, activity, parentPositions, clausesByParent, id);
      match r {
        case None =>
          Dequeue(p, m);
          o := None;
        case Some((candidate, versionSet, count)) =>
          o := Some(Offer(c.parent == ROOT, ActivityOf(activity, env.nameOf(versionSet)), count, candidate, c.parent,
                          c.clauseId));
      }
    }

    /** The first eligible clause by position; the ineligible ones before it are dequeued. */
    method FirstEligible(m: DecisionMap, activity: map<Name, real>) returns (best: Option<(Position, Offer)>)
      requires Synced(m) && Walkable(m)
      modifies this`queue, this`hotQueue, this`requirementStates, this`requirementsByCandidate
      ensures Synced(m)
      ensures var e := Offers(env, clauses, m, activity, |clauses|);
        match best
        case None => e == map[]
        case Some((p, o)) => p in e && o == e[p] && forall q :: q in e ==> p <= q
    {
      hide PositionsOk, NamesOk, ConditionsOk, RequirementsOk, CacheOk, AllExcused, HotPart, IsEligible, Walk,
           Offers, QueueOk;
      while true
        invariant Synced(m) && Walkable(m)
        decreases |queue|
      {
        EligibleAreQueued(env, clauses, queue, requirementStates, m, activity);
        var p := LeastAfter(queue.Keys, -1);
        if p == None {
          return None;
        }
        var o := Consider(p.value, m, activity);
        if o.Some? {
          return Some((p.value, o.value));
        }
      }
    }

    /** Gives up the best offer so far for that of a queued clause, if the clause is eligible and its offer is
        better. */
    method TryReplace(p: Position, best: Offer, m: DecisionMap, activity: map<Name, real>) returns (r: Offer)
      requires Synced(m) && p in queue && Walkable(m)
      modifies this`queue, this`hotQueue, this`requirementStates, this`requirementsByCandidate
      ensures Synced(m) && queue.Keys <= old(queue.Keys) && hotQueue.Keys <= old(hotQueue.Keys)
      ensures var e := Offers(env, clauses, m, activity, |clauses|);
              r == if p in e && Replaces(best, e[p]) then e[p] else best
    {
      hide PositionsOk, NamesOk, ConditionsOk, RequirementsOk, CacheOk, AllExcused, IsEligible, Walk, Offers;
      ExplicitOffer(env, clauses, m, activity, parentPositions, clausesByParent, queue, p);
      if best.explicit && clauses[queue[p]].parent != ROOT {
        return best;
      }
      var o := Consider(p, m, activity);
      r := best;
      if o.Some? && !(best.activity >= o.value.activity) && !(best.count <= o.value.count) {
        r := o.value;
      }
    }

    /** Chooses the next decision: what a scan of all registered clauses by position would choose. */
    method NextDecision(m: DecisionMap, activity: map<Name, real>, max: real) returns (r: Option<Offer>)
      requires Synced(m) && Walkable(m)
      requires hotOnly ==> StandardActivities(activity, max, hotNames)
      modifies this`queue, this`hotQueue, this`requirementStates, this`requirementsByCandidate
      ensures Synced(m)
      ensures r == Naive(Offers(env, clauses, m, activity, |clauses|))
      ensures if r.Some? then IsDecision(env, clauses, m, activity, r.value) else !SomeEligible(env, clauses, m)
    {
      hide IsDecision, SomeEligible, PositionsOk, NamesOk, ConditionsOk, RequirementsOk, CacheOk, AllExcused,
           HotPart, IsEligible, Walk, Offers, QueueOk, Naive, Fold, After, StandardActivities, Replaces,
           OffersJudged, DistinctPositions;
      ghost var e := Offers(env, clauses, m, activity, |clauses|);
      PositionsAreDistinct(clauses, parentPositions, clausesByParent);
      JudgeOffers(env, clauses, m, activity, max, hotNames, hotOnly);
      NaiveDecides(env, clauses, m, activity);
      var first := FirstEligible(m, activity);
      if first == None {
        NaiveOfNone(e);
        return None;
      }
      var (cursor, best) := first.value;
      NaiveStarts(e, cursor);
      while !(best.count == 1 || (hotOnly && best.activity == max))
        invariant Synced(m) && Walkable(m) && exists p :: p in e && e[p] == best
        invariant Fold(e, After(e.Keys, cursor), Some(best)) == Naive(e)
        decreases |After((if hotOnly then hotQueue else queue).Keys, cursor)|
      {
        ghost var visited := (if hotOnly then hotQueue else queue).Keys;
        NotVisited(env, clauses, queue, requirementStates, hotNames, clausesByName, hotOnly, m, activity, max, best);
        var next := LeastAfter((if hotOnly then hotQueue else queue).Keys, cursor);
        if next == None {
          FoldEnds(e, cursor, best, visited);
          return Some(best);
        }
        assert next.value in queue by { HotIsQueued(clauses, queue, hotQueue, next.value); }
        var replaced := TryReplace(next.value, best, m, activity);
        FoldStep(e, cursor, next.value, best, replaced, visited);
        AfterShrinks(visited, (if hotOnly then hotQueue else queue).Keys, cursor, next.value);
        best, cursor := replaced, next.value;
      }
      FoldUnbeatable(e, cursor, best, max, hotOnly);
      r := Some(best);
    }

    /** Lists a new clause under every package its requirement names, once each, and tells whether one of them is
        hot. */
    method ListNames(id: TrackedId, r: Requirement) returns (hot: bool, byName: map<Name, seq<TrackedId>>)
      ensures hot <==> exists name :: name in hotNames && env.Names(r, name)
      ensures ListedUnder(env, r, clausesByName, byName, id)
    {
      hide GetList, AppendTo;
      var sets := env.versionSets(r);
      var seen: set<Name> := {};
      hot, byName := false, clausesByName;
      for i := 0 to |sets|
        invariant forall name: Name :: name in seen <==> exists j :: 0 <= j < i && env.nameOf(sets[j]) == name
        invariant hot <==> exists name :: name in hotNames && name in seen
        invariant forall name: Name ::
                    GetList(byName, name) == GetList(clausesByName, name) + if name in seen then [id] else []
      {
        var name := env.nameOf(sets[i]);
        if name !in seen {
          seen := seen + {name};
          hot := hot || name in hotNames;
          AppendedTo(byName, name, id);
          byName := AppendTo(byName, name, id);
        }
      }
      assert forall name: Name :: name in seen <==> env.Names(r, name);
    }

    /** Lists a new clause under every variable of its condition. */
    method ListCondition(id: TrackedId,
                         condition: Option<DisjunctionId>) returns (byCondition: map<Var, seq<TrackedId>>)
      ensures forall v: Var, x :: x in GetList(clausesByCondition, v) ==> x in GetList(byCondition, v)
      ensures forall v: Var, x :: x in GetList(byCondition, v) ==> x == id || x in GetList(clausesByCondition, v)
      ensures condition.Some? ==> forall l :: l in env.condition(condition.value) ==>
                                    id in GetList(byCondition, l.variable)
    {
      byCondition := clausesByCondition;
      if condition.Some? {
        var literals := env.condition(condition.value);
        for i := 0 to |literals|
          invariant forall v: Var, x :: x in GetList(clausesByCondition, v) ==> x in GetList(byCondition, v)
          invariant forall v: Var, x :: x in GetList(byCondition, v) ==> x == id || x in GetList(clausesByCondition, v)
          invariant forall j :: 0 <= j < i ==> id in GetList(byCondition, literals[j].variable)
        {
          byCondition := AppendTo(byCondition, literals[i].variable, id);
        }
      }
    }

    /** Registers a new requires clause, after all others of its parent. `parentTrue` tells whether its parent is
        installed now. */
    method RegisterClause(parent: Var, requirement: Requirement, condition: Option<DisjunctionId>, clauseId: ClauseId,
                          parentTrue: bool, ghost m: DecisionMap, ghost waived: set<TrackedId>) returns (id: TrackedId)
      requires Valid() && Room(clausesByParent, 1)
      requires CacheOk(env, requirementStates, m, {}) &&
               AllExcused(env, clauses, queue, requirementStates, m, {}, {}, waived)
      modifies this`clauses, this`parentPositions, this`clausesByParent, this`queue, this`hotQueue, this`clausesByName,
               this`clausesByCondition, this`requirementStates, this`clausesByRequirement
      ensures Valid() && id == |old(clauses)| && |clauses| == id + 1 && clauses[..id] == old(clauses)
      ensures clauses[id].parent == parent && clauses[id].requirement == requirement &&
              clauses[id].condition == condition
      ensures clauses[id].clauseId == clauseId
      ensures forall i :: 0 <= i < id && clauses[i].parent == parent ==> clauses[i].position < clauses[id].position
      ensures forall k: nat :: Room(old(clausesByParent), k + 1) ==> Room(clausesByParent, k)
      ensures CacheOk(env, requirementStates, m, {})
      ensures AllExcused(env, clauses, queue, requirementStates, m, {}, {}, waived + {id})
      ensures if parentTrue then clauses[id].position in queue && old(queue.Keys) <= queue.Keys else queue == old(queue)
    {
      hide PositionsOk, NamesOk, ConditionsOk, RequirementsOk, QueueOk, HotPart, CacheOk, AllExcused,
           ListedUnder, GetList, AppendTo, ParentsWith, ListsWith, PositionFor, WithEntry, ValueIn, Room;
      id := |clauses|;
      RoomShrinks(parentPositions, clausesByParent, parent, id);
      var hot, byName := ListNames(id, requirement);
      var byCondition := ListCondition(id, condition);
      var position := PositionFor(parentPositions, clausesByParent, parent);
      var c := TrackedClause(position, parent, requirement, condition, clauseId, hot);
      RegisteredPositions(clauses, parentPositions, clausesByParent, c);
      RegisteredNames(env, clauses, hotNames, clausesByName, byName, c);
      RegisteredConditions(env, clauses, clausesByCondition, byCondition, c);
      RegisteredRequirements(env, clauses, requirementStates, requirementsByCandidate, clausesByRequirement, c);
      RegisteredQueue(clauses, queue, c, ParentsWith(parentPositions, clausesByParent, parent),
                      ListsWith(parentPositions, clausesByParent, parent, id));
      RegisteredCache(env, requirementStates, requirement, m);
      RegisteredExcuses(env, clauses, queue, if parentTrue then queue[position := id] else queue, requirementStates,
                        WithEntry(requirementStates, requirement), m, waived, c);
      var queue' := if parentTrue then queue[position := id] else queue;
      var hotQueue' := if parentTrue && hot then hotQueue[position := id] else hotQueue;
      Commit(c, byName, byCondition, queue', hotQueue');
    }

    /** A package was involved in a conflict: its clauses become hot, and those in the queue are hot there too. */
    method MarkNameHot(name: Name, ghost m: DecisionMap, ghost waived: set<TrackedId>)
      requires Valid() && AllExcused(env, clauses, queue, requirementStates, m, {}, {}, waived)
      modifies this`clauses, this`hotQueue, this`hotNames
      ensures Valid() && AllExcused(env, clauses, queue, requirementStates, m, {}, {}, waived)
      ensures hotNames == old(hotNames) + {name} && SameButHot(clauses, old(clauses))
    {
      hide PositionsOk, NamesOk, ConditionsOk, RequirementsOk, QueueOk, HotPart, AllExcused, SameButHot,
           HotAlso, DistinctPositions;
      SameAsItself(clauses);
      if name in hotNames {
        assert hotNames == hotNames + {name};
        return;
      }
      hotNames := hotNames + {name};
      var ids := GetList<Name, TrackedId>(clausesByName, name);
      ListedByName(env, clauses, old(hotNames), clausesByName, name);
      assert (forall k :: 0 <= k < |ids| ==> ids[k] < |old(clauses)|) && ids[..0] == [];
      PositionsAreDistinct(clauses, parentPositions, clausesByParent);
      for i := 0 to |ids|
        invariant SameButHot(clauses, old(clauses)) && HotAlso(clauses, old(clauses), ids[..i])
        invariant hotQueue == HotPart(clauses, queue) && QueueOk(clauses, queue) && DistinctPositions(clauses)
        invariant hotNames == old(hotNames) + {name}
      {
        var id := ids[i];
        MakeHot(clauses, old(clauses), ids, i, queue);
        if !clauses[id].hot {
          var p := clauses[id].position;
          clauses := clauses[id := clauses[id].(hot := true)];
          if p in queue {
            hotQueue := hotQueue[p := queue[p]];
          }
        }
      }
      assert ids[..|ids|] == ids;
      HotKeepsIndex(env, old(clauses), clauses, parentPositions, clausesByParent, clausesByCondition, requirementStates,
                    requirementsByCandidate, clausesByRequirement);
      HotKeepsExcuses(env, old(clauses), clauses, queue, requirementStates, m, waived);
      HotKeepsNames(env, old(clauses), clauses, old(hotNames), clausesByName, name);
    }

    /** Stores a new clause in every index. */
    method Commit(c: TrackedClause, byName: map<Name, seq<TrackedId>>, byCondition: map<Var, seq<TrackedId>>,
                  queue': Queue, hotQueue': Queue)
      requires env.Valid()
      requires PositionsOk(clauses + [c], ParentsWith(parentPositions, clausesByParent, c.parent),
                           ListsWith(parentPositions, clausesByParent, c.parent, |clauses|))
      requires NamesOk(env, clauses + [c], hotNames, byName) && ConditionsOk(env, clauses + [c], byCondition)
      requires RequirementsOk(env, clauses + [c], WithEntry(requirementStates, c.requirement), requirementsByCandidate,
                              AppendTo<Requirement, TrackedId>(clausesByRequirement, c.requirement, |clauses|))
      requires QueueOk(clauses + [c], queue') && hotQueue' == HotPart(clauses + [c], queue')
      modifies this`clauses, this`parentPositions, this`clausesByParent, this`queue, this`hotQueue, this`clausesByName,
               this`clausesByCondition, this`requirementStates, this`clausesByRequirement
      ensures Valid() && clauses == old(clauses) + [c] && queue == queue'
      ensures clausesByParent == ListsWith(old(parentPositions), old(clausesByParent), c.parent, |old(clauses)|)
      ensures requirementStates == WithEntry(old(requirementStates), c.requirement)
    {
      hide PositionsOk, NamesOk, ConditionsOk, RequirementsOk, QueueOk, HotPart, AppendTo, ParentsWith,
           ListsWith, WithEntry;
      parentPositions, clausesByParent, clausesByName, clausesByCondition, requirementStates, clausesByRequirement,
      clauses, queue, hotQueue :=
        ParentsWith(parentPositions, clausesByParent, c.parent),
        ListsWith(parentPositions, clausesByParent, c.parent, |clauses|),
        byName, byCondition,
        WithEntry(requirementStates, c.requirement),
        AppendTo<Requirement, TrackedId>(clausesByRequirement, c.requirement, |clauses|),
        clauses + [c], queue', hotQueue';
    }
  }

  /** The same clauses, except that some may have become hot. */
  ghost predicate SameButHot(clauses': seq<TrackedClause>, clauses: seq<TrackedClause>) {
    |clauses'| == |clauses| &&
    forall id :: 0 <= id < |clauses| ==> clauses'[id] == clauses[id].(hot := clauses'[id].hot)
  }

  /** The hot clauses are those that were and the ones listed. */
  ghost predicate HotAlso(clauses': seq<TrackedClause>, clauses: seq<TrackedClause>, ids: seq<TrackedId>) {
    |clauses'| == |clauses| && forall id :: 0 <= id < |clauses| ==> (clauses'[id].hot <==> clauses[id].hot || id in ids)
  }

  lemma SameAsItself(clauses: seq<TrackedClause>)
    ensures SameButHot(clauses, clauses) && HotAlso(clauses, clauses, [])
  {
  }

  lemma ListedByName(env: Provider, clauses: seq<TrackedClause>, hotNames: set<Name>,
                     byName: map<Name, seq<TrackedId>>, name: Name)
    requires NamesOk(env, clauses, hotNames, byName)
    ensures forall k :: 0 <= k < |GetList<Name, TrackedId>(byName, name)| ==>
              GetList<Name, TrackedId>(byName, name)[k] < |clauses|
  {
  }

  /** One more clause made hot. */
  lemma MakeHot(clauses: seq<TrackedClause>, before: seq<TrackedClause>, ids: seq<TrackedId>, i: nat, queue: Queue)
    requires SameButHot(clauses, before) && i < |ids| && ids[i] < |before| && HotAlso(clauses, before, ids[..i])
    requires QueueOk(clauses, queue) && DistinctPositions(clauses)
    ensures ids[i] < |clauses| && ids[..i + 1] == ids[..i] + [ids[i]]
    ensures clauses[ids[i]].hot ==> HotAlso(clauses, before, ids[..i + 1])
    ensures var clauses' := clauses[ids[i] := clauses[ids[i]].(hot := true)]; var p := clauses[ids[i]].position;
      && SameButHot(clauses', before) && HotAlso(clauses', before, ids[..i + 1])
      && QueueOk(clauses', queue) && DistinctPositions(clauses')
      && HotPart(clauses', queue) == if p in queue then HotPart(clauses, queue)[p := queue[p]]
                                     else HotPart(clauses, queue)
  {
  }

  lemma HotKeepsIndex(env: Provider, clauses: seq<TrackedClause>, clauses': seq<TrackedClause>,
                      parents: map<Var, nat>, byParent: seq<seq<TrackedId>>,
                      byCondition: map<Var, seq<TrackedId>>, states: map<Requirement, CacheEntry>,
                      byCandidate: map<Var, seq<Requirement>>, byRequirement: map<Requirement, seq<TrackedId>>)
    requires SameButHot(clauses', clauses) && PositionsOk(clauses, parents, byParent) &&
             ConditionsOk(env, clauses, byCondition)
    requires RequirementsOk(env, clauses, states, byCandidate, byRequirement)
    ensures PositionsOk(clauses', parents, byParent) && ConditionsOk(env, clauses', byCondition)
    ensures RequirementsOk(env, clauses', states, byCandidate, byRequirement)
  {
    hide OccurrencesOk, ListsOk;
    forall id | 0 <= id < |clauses| ensures PositionOk(clauses'[id], parents, byParent, id) {
      assert PositionOk(clauses[id], parents, byParent, id);
    }
    HotKeepsLists(clauses, clauses', parents, byParent);
  }

  lemma HotKeepsLists(clauses: seq<TrackedClause>, clauses': seq<TrackedClause>, parents: map<Var, nat>,
                      byParent: seq<seq<TrackedId>>)
    requires SameButHot(clauses', clauses) && ListsOk(clauses, parents, byParent)
    ensures ListsOk(clauses', parents, byParent)
  {
    forall p: nat | p < |byParent| ensures ListOk(clauses', parents, byParent[p], p) {
      assert ListOk(clauses, parents, byParent[p], p);
    }
    forall v | v in parents ensures HeadedBy(clauses', byParent, parents[v], v) {
      assert HeadedBy(clauses, byParent, parents[v], v);
    }
  }

  lemma RegisteredLists(clauses: seq<TrackedClause>, parents: map<Var, nat>, byParent: seq<seq<TrackedId>>,
                        c: TrackedClause)
    requires PositionsOk(clauses, parents, byParent)
    ensures ListsOk(clauses + [c], ParentsWith(parents, byParent, c.parent),
                    ListsWith(parents, byParent, c.parent, |clauses|))
  {
    hide PositionOk, ListOk;
    var parents', lists' := ParentsWith(parents, byParent, c.parent), ListsWith(parents, byParent, c.parent, |clauses|);
    forall p: nat | p < |lists'| ensures ListOk(clauses + [c], parents', lists'[p], p) {
      RegisteredList(clauses, parents, byParent, c, p);
    }
    forall p: nat, q: nat | p < q < |lists'| ensures StartsBefore(lists', p, q) {
      ListStart(clauses, parents, byParent, c, p);
      ListStart(clauses, parents, byParent, c, q);
      if q < |byParent| {
        assert StartsBefore(byParent, p, q);
      }
    }
    forall v | v in parents' ensures HeadedBy(clauses + [c], lists', parents'[v], v) {
      ListStart(clauses, parents, byParent, c, parents'[v]);
      assert v in parents ==> HeadedBy(clauses, byParent, parents[v], v);
    }
  }

  lemma RegisteredList(clauses: seq<TrackedClause>, parents: map<Var, nat>, byParent: seq<seq<TrackedId>>,
                       c: TrackedClause, p: nat)
    requires PositionsOk(clauses, parents, byParent)
    ensures var lists' := ListsWith(parents, byParent, c.parent, |clauses|);
      p < |lists'| ==> ListOk(clauses + [c], ParentsWith(parents, byParent, c.parent), lists'[p], p)
  {
    hide PositionOk;
    if p < |byParent| {
      assert ListOk(clauses, parents, byParent[p], p);
      assert c.parent in parents ==> HeadedBy(clauses, byParent, parents[c.parent], c.parent);
    }
  }

  /** The lists that exist keep their first clause; that of a new list is the newest one. */
  lemma ListStart(clauses: seq<TrackedClause>, parents: map<Var, nat>, byParent: seq<seq<TrackedId>>,
                  c: TrackedClause, p: nat)
    requires PositionsOk(clauses, parents, byParent)
    ensures var lists' := ListsWith(parents, byParent, c.parent, |clauses|);
      p < |lists'| ==>
        && lists'[p] != []
        && if p < |byParent| then byParent[p] != [] && lists'[p][0] == byParent[p][0] < |clauses|
           else lists'[p][0] == |clauses|
  {
    hide PositionOk;
    if p < |byParent| {
      assert ListOk(clauses, parents, byParent[p], p);
    }
  }

  lemma HotKeepsExcuses(env: Provider, clauses: seq<TrackedClause>, clauses': seq<TrackedClause>, queue: Queue,
                        states: map<Requirement, CacheEntry>, m: DecisionMap, waived: set<TrackedId>)
    requires SameButHot(clauses', clauses) && AllExcused(env, clauses, queue, states, m, {}, {}, waived)
    ensures AllExcused(env, clauses', queue, states, m, {}, {}, waived)
  {
    forall id | 0 <= id < |clauses'| && id !in waived &&
    clauses'[id].position !in queue ensures Excused(env, clauses'[id], states, m, {}, {}) {
      assert Excused(env, clauses[id], states, m, {}, {});
    }
  }

  lemma HotKeepsNames(env: Provider, clauses: seq<TrackedClause>, clauses': seq<TrackedClause>, hotNames: set<Name>,
                      byName: map<Name, seq<TrackedId>>, name: Name)
    requires NamesOk(env, clauses, hotNames, byName) && SameButHot(clauses', clauses)
    requires HotAlso(clauses', clauses, GetList<Name, TrackedId>(byName, name))
    ensures NamesOk(env, clauses', hotNames + {name}, byName)
  {
    forall id | 0 <= id < |clauses'|
      ensures clauses'[id].hot <==> exists n :: n in hotNames + {name} && env.Names(clauses'[id].requirement, n)
    {
      var r := clauses[id].requirement;
      assert env.Names(r, name) <==> id in GetList(byName, name);
      if clauses[id].hot {
        var n :| n in hotNames && env.Names(r, n);
        assert n in hotNames + {name};
      }
    }
  }

  /** How active the package is that an eligible clause would decide on, and how many candidates are left. */
  ghost function ActivityAt(env: Provider, c: TrackedClause, m: DecisionMap, activity: map<Name, real>): real {
    match Walk(env.walk(c.requirement), m)
    case Frontier(_, versionSet, _) => ActivityOf(activity, env.nameOf(versionSet))
    case _ => 0.0
  }

  ghost function CountAt(env: Provider, c: TrackedClause, m: DecisionMap): nat {
    match Walk(env.walk(c.requirement), m)
    case Frontier(_, _, count) => count
    case _ => 0
  }

  /** Clause `d` is preferred to clause `c`: more active, with fewer candidates, and the root's if `c` is. */
  ghost predicate Preferred(env: Provider, c: TrackedClause, d: TrackedClause, m: DecisionMap,
                            activity: map<Name, real>) {
    && ActivityAt(env, c, m, activity) < ActivityAt(env, d, m, activity) && CountAt(env, d, m) < CountAt(env, c, m)
    && (c.parent == ROOT ==> d.parent == ROOT)
  }

  /** Eligible clause `j` is the first after `i` that is preferred to it. */
  ghost predicate NextPreferred(env: Provider, clauses: seq<TrackedClause>, m: DecisionMap, activity: map<Name, real>,
                                i: TrackedId, j: TrackedId) {
    && i < |clauses| && j < |clauses| && clauses[i].position < clauses[j].position
    && Preferred(env, clauses[i], clauses[j], m, activity)
    && forall x :: 0 <= x < |clauses| && IsEligible(env, clauses[x], m)
                   && clauses[i].position < clauses[x].position < clauses[j].position ==>
         !Preferred(env, clauses[i], clauses[x], m, activity)
  }

  /** From the eligible clause of the lowest position, always on to the next one that is preferred, until there is
      none. */
  ghost predicate DecisionChain(env: Provider, clauses: seq<TrackedClause>, m: DecisionMap, activity: map<Name, real>,
                                chain: seq<TrackedId>) {
    && chain != [] && (forall k :: 0 <= k < |chain| ==> chain[k] < |clauses| && IsEligible(env, clauses[chain[k]], m))
    && (forall x :: 0 <= x < |clauses| && IsEligible(env, clauses[x], m) ==>
          clauses[chain[0]].position <= clauses[x].position)
    && (forall k :: 0 <= k < |chain| - 1 ==> NextPreferred(env, clauses, m, activity, chain[k], chain[k + 1]))
    && (forall x :: 0 <= x < |clauses| && IsEligible(env, clauses[x], m)
                    && clauses[chain[|chain| - 1]].position < clauses[x].position ==>
          !Preferred(env, clauses[chain[|chain| - 1]], clauses[x], m, activity))
  }

  /** The offer proposes the first undecided candidate of the clause's requirement. */
  ghost predicate Proposes(env: Provider, c: TrackedClause, m: DecisionMap, o: Offer) {
    && o.clauseId == c.clauseId && o.requiredBy == c.parent
    && exists i: nat :: FirstUndecided(env.walk(c.requirement), m, i) && o.candidate == env.walk(c.requirement)[i].1
  }

  /** What a decision is, in terms of the clauses: the offer of the last clause of the chain. */
  ghost predicate IsDecision(env: Provider, clauses: seq<TrackedClause>, m: DecisionMap, activity: map<Name, real>,
                             o: Offer) {
    exists chain :: DecisionChain(env, clauses, m, activity, chain) && Proposes(env, clauses[chain[|chain| - 1]], m, o)
  }

  ghost predicate SomeEligible(env: Provider, clauses: seq<TrackedClause>, m: DecisionMap) {
    exists i :: 0 <= i < |clauses| && IsEligible(env, clauses[i], m)
  }

  lemma DecisionIsEligible(env: Provider, clauses: seq<TrackedClause>, m: DecisionMap, activity: map<Name, real>,
                           o: Offer)
    requires IsDecision(env, clauses, m, activity, o)
    ensures SomeEligible(env, clauses, m)
  {
    hide IsEligible, NextPreferred, Preferred, Proposes;
    var chain :| DecisionChain(env, clauses, m, activity, chain);
    assert IsEligible(env, clauses[chain[0]], m);
  }

  /** The clause behind an offer. */
  lemma OfferBehind(env: Provider, clauses: seq<TrackedClause>, m: DecisionMap, activity: map<Name, real>, p: Position)
    returns (id: TrackedId)
    requires DistinctPositions(clauses) && p in Offers(env, clauses, m, activity, |clauses|)
    requires forall i :: 0 <= i < |clauses| && IsEligible(env, clauses[i], m) ==>
               Walk(env.walk(clauses[i].requirement), m) != Dirty
    ensures id < |clauses| && clauses[id].position == p && IsEligible(env, clauses[id], m)
    ensures OfferIs(env, clauses[id], m, activity, Offers(env, clauses, m, activity, |clauses|)[p])
  {
    hide Offers, DistinctPositions, Walk, IsEligible;
    OffersOnly(env, clauses, m, activity, |clauses|, p);
    id :| 0 <= id < |clauses| && clauses[id].position == p && IsEligible(env, clauses[id], m);
    OffersHas(env, clauses, m, activity, |clauses|, id);
    OfferDescribes(env, clauses[id], m, activity);
  }

  ghost predicate OfferIs(env: Provider, c: TrackedClause, m: DecisionMap, activity: map<Name, real>, o: Offer) {
    && (o.explicit <==> c.parent == ROOT) && o.activity == ActivityAt(env, c, m, activity) &&
       o.count == CountAt(env, c, m)
    && Proposes(env, c, m, o)
  }

  lemma OfferDescribes(env: Provider, c: TrackedClause, m: DecisionMap, activity: map<Name, real>)
    requires IsEligible(env, c, m) && Walk(env.walk(c.requirement), m) != Dirty
    ensures OfferIs(env, c, m, activity, OfferOf(env, c, m, activity))
  {
    hide Walk;
    EligibleWalk(env, c, m);
    var w := env.walk(c.requirement);
    WalkMeaning(w, m);
    var i: nat :| FirstUndecided(w, m, i) && Walk(w, m) == Frontier(w[i].1, w[i].0, Undecided(w, m, w[i].0));
  }

  /** The naive scan takes the decision. */
  lemma NaiveDecides(env: Provider, clauses: seq<TrackedClause>, m: DecisionMap, activity: map<Name, real>)
    requires DistinctPositions(clauses)
    requires forall i :: 0 <= i < |clauses| && IsEligible(env, clauses[i], m) ==>
               Walk(env.walk(clauses[i].requirement), m) != Dirty
    ensures match Naive(Offers(env, clauses, m, activity, |clauses|))
            case None => !SomeEligible(env, clauses, m)
            case Some(o) => IsDecision(env, clauses, m, activity, o)
  {
    hide Offers, Naive, Walk, IsEligible, DistinctPositions, BetterChain, DecisionChain, Proposes, OfferIs,
         OfferOf;
    var e := Offers(env, clauses, m, activity, |clauses|);
    match Naive(e)
    case None =>
      NaiveIsNone(e);
      forall i | 0 <= i < |clauses| ensures !IsEligible(env, clauses[i], m) {
        if IsEligible(env, clauses[i], m) {
          OffersHas(env, clauses, m, activity, |clauses|, i);
        }
      }
    case Some(o) =>
      var positions := NaiveFollows(e, o);
      var chain := ChainBehind(env, clauses, m, activity, positions);
  }

  /** The chain of offers is a chain of clauses. */
  lemma ChainBehind(env: Provider, clauses: seq<TrackedClause>, m: DecisionMap, activity: map<Name, real>,
                    positions: seq<Position>)
    returns (chain: seq<TrackedId>)
    requires DistinctPositions(clauses)
    requires forall i :: 0 <= i < |clauses| && IsEligible(env, clauses[i], m) ==>
               Walk(env.walk(clauses[i].requirement), m) != Dirty
    requires var e := Offers(env, clauses, m, activity, |clauses|);
             BetterChain(e, positions) && forall p :: p in e ==> positions[0] <= p
    ensures DecisionChain(env, clauses, m, activity, chain) && |chain| == |positions|
    ensures Proposes(env, clauses[chain[|chain| - 1]], m,
                     Offers(env, clauses, m, activity, |clauses|)[positions[|positions| - 1]])
  {
    hide Offers, Walk, IsEligible, DistinctPositions, NextBetter, OfferIs, NextPreferred, Preferred, IsBetter,
         Proposes;
    var e := Offers(env, clauses, m, activity, |clauses|);
    chain := IdsBehind(env, clauses, m, activity, positions);
    forall x | 0 <= x < |clauses| && IsEligible(env, clauses[x], m) ensures clauses[x].position in e {
      OffersHas(env, clauses, m, activity, |clauses|, x);
    }
    forall k | 0 <= k < |chain| - 1 ensures NextPreferred(env, clauses, m, activity, chain[k], chain[k + 1]) {
      NextBehind(env, clauses, m, activity, chain[k], chain[k + 1]);
    }
    var last := chain[|chain| - 1];
    forall x | 0 <= x < |clauses| && IsEligible(env, clauses[x], m) && clauses[last].position < clauses[x].position
      ensures !Preferred(env, clauses[last], clauses[x], m, activity)
    {
      BetterIsPreferred(env, clauses, m, activity, last, x);
    }
    OfferIsOf(env, clauses, m, activity, last);
  }

  lemma IdsBehind(env: Provider, clauses: seq<TrackedClause>, m: DecisionMap, activity: map<Name, real>,
                  positions: seq<Position>)
    returns (chain: seq<TrackedId>)
    requires DistinctPositions(clauses)
    requires forall i :: 0 <= i < |clauses| && IsEligible(env, clauses[i], m) ==>
               Walk(env.walk(clauses[i].requirement), m) != Dirty
    requires forall k :: 0 <= k < |positions| ==> positions[k] in Offers(env, clauses, m, activity, |clauses|)
    ensures |chain| == |positions|
    ensures forall k :: 0 <= k < |chain| ==>
              chain[k] < |clauses| && clauses[chain[k]].position == positions[k] &&
              IsEligible(env, clauses[chain[k]], m)
  {
    hide Offers, Walk, IsEligible, DistinctPositions, OfferIs;
    if positions == [] {
      chain := [];
    } else {
      var n := |positions| - 1;
      var before := IdsBehind(env, clauses, m, activity, positions[..n]);
      var id := OfferBehind(env, clauses, m, activity, positions[n]);
      chain := before + [id];
    }
  }

  /** The offer at an eligible clause's position is that clause's. */
  lemma OfferIsOf(env: Provider, clauses: seq<TrackedClause>, m: DecisionMap, activity: map<Name, real>, i: TrackedId)
    requires DistinctPositions(clauses) && i < |clauses| && IsEligible(env, clauses[i], m)
    requires Walk(env.walk(clauses[i].requirement), m) != Dirty
    ensures var e := Offers(env, clauses, m, activity, |clauses|);
      && clauses[i].position in e && OfferIs(env, clauses[i], m, activity, e[clauses[i].position])
      && Proposes(env, clauses[i], m, e[clauses[i].position])
  {
    hide Offers, Walk, IsEligible, DistinctPositions, Proposes, OfferOf;
    OffersHas(env, clauses, m, activity, |clauses|, i);
    OfferDescribes(env, clauses[i], m, activity);
  }

  lemma BetterIsPreferred(env: Provider, clauses: seq<TrackedClause>, m: DecisionMap, activity: map<Name, real>,
                          i: TrackedId, j: TrackedId)
    requires DistinctPositions(clauses) && i < |clauses| && IsEligible(env, clauses[i], m) && j < |clauses| &&
             IsEligible(env, clauses[j], m)
    requires Walk(env.walk(clauses[i].requirement), m) != Dirty && Walk(env.walk(clauses[j].requirement), m) != Dirty
    ensures var e := Offers(env, clauses, m, activity, |clauses|);
      && clauses[i].position in e && clauses[j].position in e
      && (IsBetter(e[clauses[i].position], e[clauses[j].position]) <==>
            Preferred(env, clauses[i], clauses[j], m, activity))
  {
    hide Offers, Walk, IsEligible, DistinctPositions, Proposes, ActivityAt, CountAt;
    OfferIsOf(env, clauses, m, activity, i);
    OfferIsOf(env, clauses, m, activity, j);
  }

  lemma NextBehind(env: Provider, clauses: seq<TrackedClause>, m: DecisionMap, activity: map<Name, real>,
                   i: TrackedId, j: TrackedId)
    requires DistinctPositions(clauses) && i < |clauses| && IsEligible(env, clauses[i], m) && j < |clauses| &&
             IsEligible(env, clauses[j], m)
    requires forall x :: 0 <= x < |clauses| && IsEligible(env, clauses[x], m) ==>
               Walk(env.walk(clauses[x].requirement), m) != Dirty
    requires NextBetter(Offers(env, clauses, m, activity, |clauses|), clauses[i].position, clauses[j].position)
    ensures NextPreferred(env, clauses, m, activity, i, j)
  {
    hide Offers, Walk, IsEligible, DistinctPositions, Preferred, IsBetter;
    BetterIsPreferred(env, clauses, m, activity, i, j);
    forall x | 0 <= x < |clauses| && IsEligible(env, clauses[x], m)
               && clauses[i].position < clauses[x].position < clauses[j].position
      ensures !Preferred(env, clauses[i], clauses[x], m, activity)
    {
      BetterIsPreferred(env, clauses, m, activity, i, x);
    }
  }

  /** What a decision chain means for its two ends: the root's clause is given up only for another of the root's,
      the answer is the first clause or more active with fewer candidates, and no later clause improves on it in
      both. */
  lemma ChainEnds(env: Provider, clauses: seq<TrackedClause>, m: DecisionMap, activity: map<Name, real>,
                  chain: seq<TrackedId>)
    requires DecisionChain(env, clauses, m, activity, chain)
    ensures var first, last := clauses[chain[0]], clauses[chain[|chain| - 1]];
      && (first.parent == ROOT ==> last.parent == ROOT)
      && (|chain| > 1 ==> ActivityAt(env, first, m, activity) < ActivityAt(env, last, m, activity)
                          && CountAt(env, last, m) < CountAt(env, first, m))
      && forall x :: 0 <= x < |clauses| && IsEligible(env, clauses[x], m) && last.position < clauses[x].position
                     && (last.parent == ROOT ==> clauses[x].parent == ROOT) ==>
           !(ActivityAt(env, last, m, activity) < ActivityAt(env, clauses[x], m, activity)
             && CountAt(env, clauses[x], m) < CountAt(env, last, m))
  {
    hide IsEligible, ActivityAt, CountAt;
    ChainImproves(env, clauses, m, activity, chain, |chain| - 1);
  }

  lemma {:induction false} ChainImproves(env: Provider, clauses: seq<TrackedClause>, m: DecisionMap,
                                         activity: map<Name, real>,
                                         chain: seq<TrackedId>, k: nat)
    requires DecisionChain(env, clauses, m, activity, chain) && k < |chain|
    ensures var first, c := clauses[chain[0]], clauses[chain[k]];
      && (first.parent == ROOT ==> c.parent == ROOT)
      && (k > 0 ==> ActivityAt(env, first, m, activity) < ActivityAt(env, c, m, activity)
                    && CountAt(env, c, m) < CountAt(env, first, m))
  {
    hide IsEligible, ActivityAt, CountAt;
    if k > 0 {
      ChainImproves(env, clauses, m, activity, chain, k - 1);
      assert NextPreferred(env, clauses, m, activity, chain[k - 1], chain[k - 1 + 1]);
    }
  }

  /** Some literal of the clause is not false. */
  ghost predicate NotFalsified(env: Provider, c: TrackedClause, m: DecisionMap) {
    || ValueIn(m, c.parent) != Some(true)
    || (c.condition.Some? && exists l :: l in env.condition(c.condition.value) && EvalIn(m, l) != Some(false))
    || exists i :: 0 <= i < |env.walk(c.requirement)| && ValueIn(m, env.walk(c.requirement)[i].1) != Some(false)
  }

  /** What propagation leaves behind can be walked: an eligible clause has a candidate to propose unless the
      clause is falsified. */
  lemma UnfalsifiedIsWalkable(env: Provider, c: TrackedClause, m: DecisionMap)
    requires IsEligible(env, c, m)
    ensures Walk(env.walk(c.requirement), m) != Dirty <==> NotFalsified(env, c, m)
  {
    hide Walk, ValueIn, EvalIn;
    WalkMeaning(env.walk(c.requirement), m);
  }

  /** A new parent is numbered next. */
  function ParentsWith(parents: map<Var, nat>, byParent: seq<seq<TrackedId>>, v: Var): map<Var, nat> {
    if v in parents then parents else parents[v := |byParent|]
  }

  /** The clause lists with `id` appended to that of `v`, which is created if there is none. */
  function ListsWith(parents: map<Var, nat>, byParent: seq<seq<TrackedId>>, v: Var,
                     id: TrackedId): seq<seq<TrackedId>> {
    if v !in parents then byParent + [[id]]
    else if parents[v] < |byParent| then byParent[parents[v] := byParent[parents[v]] + [id]]
    else byParent
  }

  /** The packed positions have room for `k` more clauses. */
  predicate Room(byParent: seq<seq<TrackedId>>, k: nat) {
    |byParent| + k <= LIMIT && forall p :: 0 <= p < |byParent| ==> |byParent[p]| + k <= LIMIT
  }

  lemma RoomShrinks(parents: map<Var, nat>, byParent: seq<seq<TrackedId>>, v: Var, id: TrackedId)
    ensures forall k: nat :: Room(byParent, k + 1) ==> Room(ListsWith(parents, byParent, v, id), k)
    ensures Room(byParent, 1) ==> forall p :: 0 <= p < |byParent| ==> |byParent[p]| < LIMIT
  {
  }

  /** The position of the next clause of `v`. */
  function PositionFor(parents: map<Var, nat>, byParent: seq<seq<TrackedId>>, v: Var): Position {
    if v !in parents then PackPosition(|byParent|, 0)
    else PackPosition(parents[v], if parents[v] < |byParent| then |byParent[parents[v]]| else 0)
  }

  function WithEntry(states: map<Requirement, CacheEntry>, r: Requirement): map<Requirement, CacheEntry> {
    if r in states then states else states[r := CacheEntry(Dirty, false)]
  }

  function GetList<K, V>(lists: map<K, seq<V>>, k: K): seq<V> {
    if k in lists then lists[k] else []
  }

  lemma AppendedTo<K(!new), V>(lists: map<K, seq<V>>, k: K, v: V)
    ensures forall q: K :: GetList(AppendTo(lists, k, v), q) == GetList(lists, q) + if q == k then [v] else []
  {
  }

  /** Clause `id` was appended to the list of every package the requirement names, and to no other. */
  ghost predicate ListedUnder(env: Provider, r: Requirement, byName: map<Name, seq<TrackedId>>,
                              byName': map<Name, seq<TrackedId>>, id: TrackedId) {
    forall name: Name :: GetList(byName', name) == GetList(byName, name) + if env.Names(r, name) then [id] else []
  }

  lemma RegisteredPositions(clauses: seq<TrackedClause>, parents: map<Var, nat>, byParent: seq<seq<TrackedId>>,
                            c: TrackedClause)
    requires PositionsOk(clauses, parents, byParent)
    requires forall p :: 0 <= p < |byParent| ==> |byParent[p]| < LIMIT
    requires c.position == PositionFor(parents, byParent, c.parent)
    ensures PositionsOk(clauses + [c], ParentsWith(parents, byParent, c.parent),
                        ListsWith(parents, byParent, c.parent, |clauses|))
    ensures forall i :: 0 <= i < |clauses| && clauses[i].parent == c.parent ==> clauses[i].position < c.position
  {
    var parents', lists' := ParentsWith(parents, byParent, c.parent), ListsWith(parents, byParent, c.parent, |clauses|);
    RegisteredLists(clauses, parents, byParent, c);
    hide ListsOk, PositionOk;
    forall i | 0 <= i < |clauses|
      ensures PositionOk(clauses[i], parents', lists', i)
      ensures clauses[i].parent == c.parent ==> clauses[i].position < c.position
    {
      assert PositionOk(clauses[i], parents, byParent, i);
      PositionStays(clauses[i], parents, byParent, i, c, |clauses|);
    }
    forall q, k | 0 <= q < |lists'| && 0 <= k < |lists'[q]| ensures lists'[q][k] < |clauses + [c]| {
      if q < |byParent| && k < |byParent[q]| {
        assert lists'[q][k] == byParent[q][k];
      }
    }
    assert PositionOk(c, parents', lists', |clauses|) by { NewestPosition(parents, byParent, c, |clauses|); }
  }

  lemma PositionStays(d: TrackedClause, parents: map<Var, nat>, byParent: seq<seq<TrackedId>>, i: TrackedId,
                      c: TrackedClause, id: TrackedId)
    requires PositionOk(d, parents, byParent, i) && c.position == PositionFor(parents, byParent, c.parent)
    requires forall p :: 0 <= p < |byParent| ==> |byParent[p]| < LIMIT
    ensures PositionOk(d, ParentsWith(parents, byParent, c.parent), ListsWith(parents, byParent, c.parent, id), i)
    ensures d.parent == c.parent ==> d.position < c.position
  {
  }

  lemma NewestPosition(parents: map<Var, nat>, byParent: seq<seq<TrackedId>>, c: TrackedClause, id: TrackedId)
    requires c.position == PositionFor(parents, byParent, c.parent)
    requires forall v :: v in parents ==> parents[v] < |byParent|
    requires forall p :: 0 <= p < |byParent| ==> |byParent[p]| < LIMIT
    ensures PositionOk(c, ParentsWith(parents, byParent, c.parent), ListsWith(parents, byParent, c.parent, id), id)
  {
    var p := ParentsWith(parents, byParent, c.parent)[c.parent];
    var n := if c.parent in parents then |byParent[p]| else 0;
    PackedOrder(p, n, p, n);
  }

  lemma RegisteredNames(env: Provider, clauses: seq<TrackedClause>, hotNames: set<Name>,
                        byName: map<Name, seq<TrackedId>>,
                        byName': map<Name, seq<TrackedId>>, c: TrackedClause)
    requires NamesOk(env, clauses, hotNames, byName) && ListedUnder(env, c.requirement, byName, byName', |clauses|)
    requires c.hot <==> exists name :: name in hotNames && env.Names(c.requirement, name)
    ensures NamesOk(env, clauses + [c], hotNames, byName')
  {
    var cs, id := clauses + [c], |clauses|;
    forall i, name: Name | 0 <= i < |cs| ensures env.Names(cs[i].requirement, name) <==>
      name in byName' && i in byName'[name] {
      assert GetList(byName', name) == GetList(byName, name) + if env.Names(c.requirement, name) then [id] else [];
      assert i < id ==> (env.Names(clauses[i].requirement, name) <==> name in byName && i in byName[name]);
      assert id !in GetList(byName, name);
    }
    forall name, k | name in byName' && 0 <= k < |byName'[name]| ensures byName'[name][k] < |cs| {
      assert GetList(byName', name) == GetList(byName, name) + if env.Names(c.requirement, name) then [id] else [];
      if k < |GetList(byName, name)| {
        assert byName'[name][k] == byName[name][k];
      }
    }
  }

  lemma RegisteredConditions(env: Provider, clauses: seq<TrackedClause>, byCondition: map<Var, seq<TrackedId>>,
                             byCondition': map<Var, seq<TrackedId>>, c: TrackedClause)
    requires ConditionsOk(env, clauses, byCondition)
    requires forall v: Var, x :: x in GetList(byCondition, v) ==> x in GetList(byCondition', v)
    requires forall v: Var, x :: x in GetList(byCondition', v) ==> x == |clauses| || x in GetList(byCondition, v)
    requires c.condition.Some? ==> forall l :: l in env.condition(c.condition.value) ==>
                                     |clauses| in GetList(byCondition', l.variable)
    ensures ConditionsOk(env, clauses + [c], byCondition')
  {
    var cs := clauses + [c];
    forall i, l | 0 <= i < |cs| && cs[i].condition.Some? && l in env.condition(cs[i].condition.value)
      ensures l.variable in byCondition' && i in byCondition'[l.variable]
    {
      assert i in GetList(byCondition', l.variable) by {
        if i < |clauses| {
          assert i in GetList(byCondition, l.variable);
        }
      }
    }
    forall v, k | v in byCondition' && 0 <= k < |byCondition'[v]| ensures byCondition'[v][k] < |cs| {
      assert byCondition'[v][k] in GetList(byCondition', v);
    }
  }

  lemma RegisteredRequirements(env: Provider, clauses: seq<TrackedClause>, states: map<Requirement, CacheEntry>,
                               byCandidate: map<Var, seq<Requirement>>,
                               byRequirement: map<Requirement, seq<TrackedId>>, c: TrackedClause)
    requires RequirementsOk(env, clauses, states, byCandidate, byRequirement)
    ensures RequirementsOk(env, clauses + [c], WithEntry(states, c.requirement), byCandidate,
                           AppendTo<Requirement, TrackedId>(byRequirement, c.requirement, |clauses|))
  {
    hide Mentions;
    var lists := AppendTo<Requirement, TrackedId>(byRequirement, c.requirement, |clauses|);
    forall r, k | r in lists && 0 <= k < |lists[r]| ensures lists[r][k] < |clauses + [c]| {
      if r in byRequirement && k < |byRequirement[r]| {
        assert lists[r][k] == byRequirement[r][k];
      }
    }
    assert lists[c.requirement][|lists[c.requirement]| - 1] == |clauses|;
  }

  lemma RegisteredQueue(clauses: seq<TrackedClause>, queue: Queue, c: TrackedClause, parents: map<Var, nat>,
                        byParent: seq<seq<TrackedId>>)
    requires QueueOk(clauses, queue) && PositionsOk(clauses + [c], parents, byParent)
    ensures QueueOk(clauses + [c], queue) && HotPart(clauses + [c], queue) == HotPart(clauses, queue)
    ensures QueueOk(clauses + [c], queue[c.position := |clauses|])
    ensures HotPart(clauses + [c], queue[c.position := |clauses|]) ==
              if c.hot then HotPart(clauses, queue)[c.position := |clauses|] else HotPart(clauses, queue)
  {
    hide PositionsOk;
    PositionsAreDistinct(clauses + [c], parents, byParent);
    HotPartAdds(clauses + [c], queue, |clauses|);
  }

  lemma RegisteredCache(env: Provider, states: map<Requirement, CacheEntry>, r: Requirement, m: DecisionMap)
    requires CacheOk(env, states, m, {})
    ensures CacheOk(env, WithEntry(states, r), m, {})
  {
    hide Walk, Mentions;
  }

  lemma RegisteredExcuses(env: Provider, clauses: seq<TrackedClause>, queue: Queue, queue': Queue,
                          states: map<Requirement, CacheEntry>, states': map<Requirement, CacheEntry>,
                          m: DecisionMap, waived: set<TrackedId>, c: TrackedClause)
    requires AllExcused(env, clauses, queue, states, m, {}, {}, waived) && queue.Keys <= queue'.Keys
    requires states' == WithEntry(states, c.requirement)
    ensures AllExcused(env, clauses + [c], queue', states', m, {}, {}, waived + {|clauses|})
  {
    hide ConditionOpen;
    var cs := clauses + [c];
    forall id | 0 <= id < |cs| && id !in waived + {|clauses|} &&
    cs[id].position !in queue' ensures Excused(env, cs[id], states', m, {}, {}) {
      assert cs[id] == clauses[id] && Excused(env, clauses[id], states, m, {}, {});
    }
  }

  /** The lowest key above the cursor, as an ordered map yields it. */
  method LeastAfter(keys: set<Position>, cursor: int) returns (r: Option<Position>)
    ensures r == None <==> forall p :: p in keys ==> p <= cursor
    ensures r.Some? ==> r.value in keys && cursor < r.value && forall p :: p in keys && cursor < p ==> r.value <= p
  {
    r := None;
    var rest := keys;
    while rest != {}
      invariant rest <= keys && (r.Some? ==> r.value in keys && cursor < r.value)
      invariant forall p :: p in keys ==> p in rest || p <= cursor || (r.Some? && r.value <= p)
      decreases |rest|
    {
      var p :| p in rest;
      rest := rest - {p};
      if cursor < p && (r == None || p < r.value) {
        r := Some(p);
      }
    }
  }

  /** Every offer counts at least one candidate and, with standard parameters, is at most as active as the most
      active package. */
  ghost predicate OffersJudged(e: map<Position, Offer>, max: real, hotOnly: bool) {
    forall p :: p in e ==> e[p].count >= 1 && (hotOnly ==> 0.0 <= e[p].activity <= max)
  }

  lemma JudgeOffers(env: Provider, clauses: seq<TrackedClause>, m: DecisionMap, activity: map<Name, real>, max: real,
                    hotNames: set<Name>, hotOnly: bool)
    requires DistinctPositions(clauses) && (hotOnly ==> StandardActivities(activity, max, hotNames))
    requires forall id :: 0 <= id < |clauses| && IsEligible(env, clauses[id], m) ==>
               Walk(env.walk(clauses[id].requirement), m) != Dirty
    ensures OffersJudged(Offers(env, clauses, m, activity, |clauses|), max, hotOnly)
  {
    hide Walk, Offers;
    var e := Offers(env, clauses, m, activity, |clauses|);
    forall p | p in e ensures e[p].count >= 1 && (hotOnly ==> 0.0 <= e[p].activity <= max) {
      OffersOnly(env, clauses, m, activity, |clauses|, p);
      var id :| 0 <= id < |clauses| && clauses[id].position == p && IsEligible(env, clauses[id], m);
      OffersHas(env, clauses, m, activity, |clauses|, id);
      EligibleWalk(env, clauses[id], m);
    }
  }

  /** The walk of an eligible clause ends at a candidate of one of its version sets, and counts it. */
  lemma EligibleWalk(env: Provider, c: TrackedClause, m: DecisionMap)
    requires IsEligible(env, c, m) && Walk(env.walk(c.requirement), m) != Dirty
    ensures var s := Walk(env.walk(c.requirement), m); s.Frontier? && s.count >= 1
    ensures env.Valid() ==> Walk(env.walk(c.requirement), m).versionSet in env.versionSets(c.requirement)
  {
    hide Walk;
    var w := env.walk(c.requirement);
    WalkMeaning(w, m);
    var i: nat :| FirstUndecided(w, m, i) && Walk(w, m) == Frontier(w[i].1, w[i].0, Undecided(w, m, w[i].0));
    FrontierCounts(w, m, i);
  }

  lemma NaiveOfNone(e: map<Position, Offer>)
    requires e == map[]
    ensures Naive(e) == None
  {
  }

  lemma HasCacheEntry(env: Provider, clauses: seq<TrackedClause>, states: map<Requirement, CacheEntry>,
                      byCandidate: map<Var, seq<Requirement>>, byRequirement: map<Requirement, seq<TrackedId>>,
                      id: TrackedId)
    requires RequirementsOk(env, clauses, states, byCandidate, byRequirement) && id < |clauses|
    ensures clauses[id].requirement in states
  {
  }

  /** A clause offers at its position exactly when it is eligible. */
  lemma OfferOfClause(env: Provider, clauses: seq<TrackedClause>, m: DecisionMap, activity: map<Name, real>,
                      parents: map<Var, nat>, byParent: seq<seq<TrackedId>>, id: TrackedId)
    requires PositionsOk(clauses, parents, byParent) && id < |clauses|
    ensures var e := Offers(env, clauses, m, activity, |clauses|);
      && (clauses[id].position in e <==> IsEligible(env, clauses[id], m))
      && (clauses[id].position in e ==> e[clauses[id].position] == OfferOf(env, clauses[id], m, activity))
  {
    hide IsEligible, Offers, OfferOf, PositionsOk;
    PositionsAreDistinct(clauses, parents, byParent);
    var e, p := Offers(env, clauses, m, activity, |clauses|), clauses[id].position;
    if p in e {
      OffersOnly(env, clauses, m, activity, |clauses|, p);
    }
    if IsEligible(env, clauses[id], m) {
      OffersHas(env, clauses, m, activity, |clauses|, id);
    }
  }

  lemma ExplicitOffer(env: Provider, clauses: seq<TrackedClause>, m: DecisionMap, activity: map<Name, real>,
                      parents: map<Var, nat>, byParent: seq<seq<TrackedId>>, queue: Queue, p: Position)
    requires PositionsOk(clauses, parents, byParent) && QueueOk(clauses, queue) && p in queue
    requires forall id :: 0 <= id < |clauses| && IsEligible(env, clauses[id], m) ==>
               Walk(env.walk(clauses[id].requirement), m) != Dirty
    ensures var e := Offers(env, clauses, m, activity, |clauses|);
      p in e ==> (e[p].explicit <==> clauses[queue[p]].parent == ROOT)
  {
    hide Offers, PositionsOk, Walk;
    OfferOfClause(env, clauses, m, activity, parents, byParent, queue[p]);
    if p in Offers(env, clauses, m, activity, |clauses|) {
      EligibleWalk(env, clauses[queue[p]], m);
    }
  }

  lemma EligibleAreQueued(env: Provider, clauses: seq<TrackedClause>, queue: Queue,
                          states: map<Requirement, CacheEntry>,
                          m: DecisionMap, activity: map<Name, real>)
    requires CacheOk(env, states, m, {}) && AllExcused(env, clauses, queue, states, m, {}, {}, {})
    ensures Offers(env, clauses, m, activity, |clauses|).Keys <= queue.Keys
  {
    hide CacheOk, IsEligible, Excused, Offers;
    forall p | p in Offers(env, clauses, m, activity, |clauses|) ensures p in queue {
      OffersOnly(env, clauses, m, activity, |clauses|, p);
      var id :| 0 <= id < |clauses| && clauses[id].position == p && IsEligible(env, clauses[id], m);
      if p !in queue {
        ExcusedIsIneligible(env, clauses[id], states, m);
      }
    }
  }

  /** An offer that is not looked at could not win: it is not there, or its package was never active. */
  lemma NotVisited(env: Provider, clauses: seq<TrackedClause>, queue: Queue, states: map<Requirement, CacheEntry>,
                   hotNames: set<Name>, byName: map<Name, seq<TrackedId>>, hotOnly: bool,
                   m: DecisionMap, activity: map<Name, real>, max: real, best: Offer)
    requires env.Valid() && DistinctPositions(clauses) && QueueOk(clauses, queue) &&
             NamesOk(env, clauses, hotNames, byName)
    requires CacheOk(env, states, m, {}) && AllExcused(env, clauses, queue, states, m, {}, {}, {})
    requires hotOnly ==> StandardActivities(activity, max, hotNames)
    requires forall id :: 0 <= id < |clauses| && IsEligible(env, clauses[id], m) ==>
               Walk(env.walk(clauses[id].requirement), m) != Dirty
    requires var e := Offers(env, clauses, m, activity, |clauses|);
             OffersJudged(e, max, hotOnly) && exists p :: p in e && e[p] == best
    ensures var e := Offers(env, clauses, m, activity, |clauses|);
      var visited := (if hotOnly then HotPart(clauses, queue) else queue).Keys;
      forall p :: p in e && p !in visited ==> !Replaces(best, e[p])
  {
    hide CacheOk, AllExcused, IsEligible, Walk, Offers, NamesOk, StandardActivities;
    EligibleAreQueued(env, clauses, queue, states, m, activity);
    var e := Offers(env, clauses, m, activity, |clauses|);
    forall p | p in e && hotOnly && p !in HotPart(clauses, queue) ensures e[p].activity == 0.0 {
      OffersOnly(env, clauses, m, activity, |clauses|, p);
      var id :| 0 <= id < |clauses| && clauses[id].position == p && IsEligible(env, clauses[id], m);
      OffersHas(env, clauses, m, activity, |clauses|, id);
      assert queue[p] == id && !clauses[id].hot;
      EligibleWalk(env, clauses[id], m);
      ColdActivity(env, clauses, hotNames, byName, activity, max, id,
                   Walk(env.walk(clauses[id].requirement), m).versionSet);
    }
  }

  lemma ColdActivity(env: Provider, clauses: seq<TrackedClause>, hotNames: set<Name>, byName: map<Name, seq<TrackedId>>,
                     activity: map<Name, real>, max: real, id: TrackedId, versionSet: VersionSet)
    requires NamesOk(env, clauses, hotNames, byName) && StandardActivities(activity, max, hotNames)
    requires id < |clauses| && !clauses[id].hot && versionSet in env.versionSets(clauses[id].requirement)
    ensures ActivityOf(activity, env.nameOf(versionSet)) == 0.0
  {
    var r := clauses[id].requirement;
    var i :| 0 <= i < |env.versionSets(r)| && env.versionSets(r)[i] == versionSet;
    assert env.Names(r, env.nameOf(versionSet));
  }

  lemma HotIsQueued(clauses: seq<TrackedClause>, queue: Queue, hotQueue: Queue, p: Position)
    requires hotQueue == HotPart(clauses, queue) && (p in hotQueue || p in queue)
    ensures p in queue
  {
  }

  lemma FoldEnds(e: map<Position, Offer>, cursor: Position, best: Offer, visited: set<Position>)
    requires forall p :: p in e && p !in visited ==> !Replaces(best, e[p])
    requires forall p :: p in visited ==> p <= cursor
    ensures Fold(e, After(e.Keys, cursor), Some(best)) == Some(best)
  {
    FoldStops(e, After(e.Keys, cursor), best);
  }

  /** Going on from the next clause looked at changes nothing about where the scan ends. */
  lemma FoldStep(e: map<Position, Offer>, cursor: Position, next: Position, best: Offer, replaced: Offer,
                 visited: set<Position>)
    requires cursor < next && forall p :: p in visited && cursor < p ==> next <= p
    requires forall p :: p in e && p !in visited ==> !Replaces(best, e[p])
    requires replaced == if next in e && Replaces(best, e[next]) then e[next] else best
    requires exists p :: p in e && e[p] == best
    ensures Fold(e, After(e.Keys, next), Some(replaced)) == Fold(e, After(e.Keys, cursor), Some(best))
    ensures exists p :: p in e && e[p] == replaced
  {
    hide Replaces;
    if next in e {
      FoldSkips(e, After(e.Keys, cursor), best, next);
      assert After(After(e.Keys, cursor), next) == After(e.Keys, next);
    } else {
      FoldPasses(e, cursor, next, best);
    }
  }

  /** A single candidate left, or the highest activity there is: no later offer is better on both counts. */
  lemma FoldUnbeatable(e: map<Position, Offer>, cursor: Position, best: Offer, max: real, hotOnly: bool)
    requires OffersJudged(e, max, hotOnly) && (best.count == 1 || (hotOnly && best.activity == max))
    ensures Fold(e, After(e.Keys, cursor), Some(best)) == Some(best)
  {
    FoldStops(e, After(e.Keys, cursor), best);
  }

  lemma AfterShrinks(keys: set<Position>, keys': set<Position>, cursor: Position, next: Position)
    requires keys' <= keys && next in keys && cursor < next
    ensures |After(keys', next)| < |After(keys, cursor)|
  {
    SmallerSubset(After(keys', next), After(keys, cursor) - {next});
  }

  lemma DequeueKeeps(env: Provider, clauses: seq<TrackedClause>, queue: Queue, states: map<Requirement, CacheEntry>,
                     m: DecisionMap, p: Position,
                     parents: map<Var, nat>, byParent: seq<seq<TrackedId>>)
    requires QueueOk(clauses, queue) && AllExcused(env, clauses, queue, states, m, {}, {}, {}) &&
             PositionsOk(clauses, parents, byParent)
    requires p in queue && queue[p] < |clauses| && Excused(env, clauses[queue[p]], states, m, {}, {})
    ensures QueueOk(clauses, queue - {p}) && HotPart(clauses, queue - {p}) == HotPart(clauses, queue) - {p}
    ensures AllExcused(env, clauses, queue - {p}, states, m, {}, {}, {})
  {
    hide Excused, PositionsOk;
    PositionsAreDistinct(clauses, parents, byParent);
    forall id | 0 <= id < |clauses| &&
    clauses[id].position !in queue - {p} ensures Excused(env, clauses[id], states, m, {}, {}) {
      if clauses[id].position == p {
        assert id == queue[p];
      }
    }
  }

  function AppendTo<K, V>(lists: map<K, seq<V>>, k: K, v: V): map<K, seq<V>> {
    lists[k := (if k in lists then lists[k] else []) + [v]]
  }

  lemma AllMentioned(w: seq<(VersionSet, Var)>, byCandidate: map<Var, seq<Requirement>>, r: Requirement)
    requires forall j :: 0 <= j < |w| ==> w[j].1 in byCandidate && r in byCandidate[w[j].1]
    ensures forall v :: Mentions(w, v) ==> v in byCandidate && r in byCandidate[v]
  {
  }

  /** A cached state answers as a fresh walk would: the same frontier, or satisfied when it is. */
  lemma CachedState(env: Provider, states: map<Requirement, CacheEntry>, m: DecisionMap, r: Requirement)
    requires CacheOk(env, states, m, {}) && r in states && states[r].state != Dirty
    ensures if Walk(env.walk(r), m).SatisfiedBy? then states[r].state.SatisfiedBy?
            else states[r].state == Walk(env.walk(r), m)
  {
    hide Walk;
    assert EntryOk(env, r, states[r].state, m, {});
    WalkMeaning(env.walk(r), m);
    if states[r].state.SatisfiedBy? {
      var w, v := env.walk(r), states[r].state.winner;
      var i :| 0 <= i < |w| && w[i].1 == v;
      assert AnyTrue(w, m);
    }
  }

  /** No candidate before the first place of `v` is installed. */
  ghost predicate NoneBefore(w: seq<(VersionSet, Var)>, m: DecisionMap, v: Var) {
    exists i: nat ::
      i < |w| && w[i].1 == v && forall j :: 0 <= j < i ==> w[j].1 != v && ValueIn(m, w[j].1) != Some(true)
  }

  /** When the cache is exactly what a fresh walk would find: always, unless it names a candidate behind another
      that is installed. */
  lemma CachedExactly(env: Provider, states: map<Requirement, CacheEntry>, m: DecisionMap, r: Requirement)
    requires CacheOk(env, states, m, {}) && r in states && states[r].state != Dirty
    ensures states[r].state == Walk(env.walk(r), m) <==>
      states[r].state.Frontier? || NoneBefore(env.walk(r), m, states[r].state.winner)
  {
    hide WalkOn, ValueIn;
    var w, state := env.walk(r), states[r].state;
    assert EntryOk(env, r, state, m, {});
    if state.SatisfiedBy? {
      var i: nat :| i < |w| && w[i].1 == state.winner;
      var k := FirstInstalled(w, m, i);
      WalkStopsAt(w, m, k, None);
      if w[k].1 == state.winner {
        assert NoneBefore(w, m, state.winner);
      }
    }
  }

  /** The cache can lag: candidate 2 was installed and found, then candidate 1, which is walked first, is
      installed as well. Routing that change leaves the entry, and a fresh walk finds the other candidate. */
  lemma CacheCanLag() returns (env: Provider, entry: CacheEntry, m: DecisionMap, m': DecisionMap)
    ensures env.Valid() && entry.state == Walk(env.walk(0), m) && Differs(m, m', {1}) && Routed(entry, m') == entry
    ensures CacheOk(env, map[0 := entry], m, {}) && CacheOk(env, map[0 := entry], m', {})
    ensures entry.state != Walk(env.walk(0), m') && Walk(env.walk(0), m').SatisfiedBy?
  {
    env := Provider((r: Requirement) => [(r, 1), (r, 2)], (r: Requirement) => [r], (v: VersionSet) => v,
                    (d: DisjunctionId) => []);
    entry := CacheEntry(SatisfiedBy(2), true);
    m, m' := [1, 0, 2], [1, 3, 2];
    var w := env.walk(0);
    assert ValueIn(m, w[0].1) == None && ValueIn(m, w[1].1) == Some(true);
    assert ValueIn(m', w[0].1) == Some(true) && ValueIn(m', w[1].1) == Some(true);
    assert Mentions(w, w[1].1);
    WalkStopsAt(w, m, 1, None);
    WalkStopsAt(w, m', 0, None);
  }

  lemma NothingCached(env: Provider, clauses: seq<TrackedClause>, states: map<Requirement, CacheEntry>,
                      byCandidate: map<Var, seq<Requirement>>, byRequirement: map<Requirement, seq<TrackedId>>,
                      r: Requirement)
    requires RequirementsOk(env, clauses, states, byCandidate, byRequirement) && r in states && !states[r].registered
    ensures states[r].state == Dirty
  {
    assert OccurrencesOk(env, r, states[r], byCandidate);
  }

  lemma FlagKeepsCache(env: Provider, clauses: seq<TrackedClause>, queue: Queue, states: map<Requirement, CacheEntry>,
                       m: DecisionMap, r: Requirement)
    requires r in states && states[r].state == Dirty
    requires CacheOk(env, states, m, {}) && AllExcused(env, clauses, queue, states, m, {}, {}, {})
    ensures CacheOk(env, states[r := CacheEntry(Dirty, true)], m, {})
    ensures AllExcused(env, clauses, queue, states[r := CacheEntry(Dirty, true)], m, {}, {}, {})
  {
    hide ConditionOpen, Walk, Mentions;
    var states' := states[r := CacheEntry(Dirty, true)];
    forall id | 0 <= id < |clauses| &&
    clauses[id].position !in queue ensures Excused(env, clauses[id], states', m, {}, {}) {
      assert Excused(env, clauses[id], states, m, {}, {});
    }
  }

  lemma FreshState(env: Provider, clauses: seq<TrackedClause>, states: map<Requirement, CacheEntry>,
                   byCandidate: map<Var, seq<Requirement>>, byRequirement: map<Requirement, seq<TrackedId>>,
                   m: DecisionMap, r: Requirement, state: RequirementState)
    requires RequirementsOk(env, clauses, states, byCandidate, byRequirement) && CacheOk(env, states, m, {})
    requires r in states && states[r].registered && state == Walk(env.walk(r), m)
    ensures RequirementsOk(env, clauses, states[r := states[r].(state := state)], byCandidate, byRequirement)
    ensures CacheOk(env, states[r := states[r].(state := state)], m, {})
  {
    hide Walk, Mentions;
    WalkMeaning(env.walk(r), m);
    assert OccurrencesOk(env, r, states[r], byCandidate);
  }

  lemma FreshKeepsExcuses(env: Provider, clauses: seq<TrackedClause>, queue: Queue,
                          states: map<Requirement, CacheEntry>,
                          m: DecisionMap, r: Requirement, state: RequirementState)
    requires AllExcused(env, clauses, queue, states, m, {}, {}, {}) && r in states && states[r].state == Dirty
    ensures AllExcused(env, clauses, queue, states[r := states[r].(state := state)], m, {}, {}, {})
  {
    hide ConditionOpen;
    forall id | 0 <= id < |clauses| && clauses[id].position !in queue
      ensures Excused(env, clauses[id], states[r := states[r].(state := state)], m, {}, {})
    {
      assert Excused(env, clauses[id], states, m, {}, {});
    }
  }

  /** The variables of the mirror and of the trail beyond the floor. */
  ghost function ChangedSince(mirror: seq<Var>, trail: seq<Decision>, floor: nat): set<Var> {
    (set i | floor <= i < |mirror| :: mirror[i]) + (set i | floor <= i < |trail| :: trail[i].variable)
  }

  /** Known to be satisfied, by a candidate that is installed. */
  predicate Certain(state: RequirementState, m: DecisionMap) {
    state.SatisfiedBy? && ValueIn(m, state.winner) == Some(true)
  }

  /** What routing a candidate leaves of a cached walk. */
  function Routed(e: CacheEntry, m: DecisionMap): CacheEntry {
    if IsDroppedOrCertain(e, m) then e else e.(state := Dirty)
  }

  predicate IsDroppedOrCertain(e: CacheEntry, m: DecisionMap) { e.state == Dirty || Certain(e.state, m) }

  /** The entry is as it was, or was dropped. */
  ghost predicate Weaker(e: CacheEntry, before: CacheEntry) {
    e == before || e == before.(state := Dirty)
  }

  lemma DirtyKeepsRequirements(env: Provider, clauses: seq<TrackedClause>, states: map<Requirement, CacheEntry>,
                               byCandidate: map<Var, seq<Requirement>>,
                               byRequirement: map<Requirement, seq<TrackedId>>, r: Requirement)
    requires RequirementsOk(env, clauses, states, byCandidate, byRequirement) && r in states
    ensures RequirementsOk(env, clauses, states[r := states[r].(state := Dirty)], byCandidate, byRequirement)
  {
    hide Mentions;
    assert OccurrencesOk(env, r, states[r], byCandidate);
  }

  lemma ListedByRequirement(env: Provider, clauses: seq<TrackedClause>, states: map<Requirement, CacheEntry>,
                            byCandidate: map<Var, seq<Requirement>>, byRequirement: map<Requirement, seq<TrackedId>>,
                            r: Requirement)
    requires RequirementsOk(env, clauses, states, byCandidate, byRequirement) && r in byRequirement
    ensures forall k :: 0 <= k < |byRequirement[r]| ==> byRequirement[r][k] < |clauses|
  {
  }

  lemma ListedByCandidate(env: Provider, clauses: seq<TrackedClause>, states: map<Requirement, CacheEntry>,
                          byCandidate: map<Var, seq<Requirement>>, byRequirement: map<Requirement, seq<TrackedId>>,
                          v: Var)
    requires RequirementsOk(env, clauses, states, byCandidate, byRequirement)
    ensures v in byCandidate ==> forall k :: 0 <= k < |byCandidate[v]| ==> byCandidate[v][k] in states
  {
  }

  lemma RequirementWoken(env: Provider, clauses: seq<TrackedClause>, queue: Queue, queue': Queue,
                         states: map<Requirement, CacheEntry>, states': map<Requirement, CacheEntry>,
                         m: DecisionMap, parents: set<Var>, conditions: set<Var>, r: Requirement,
                         byCandidate: map<Var, seq<Requirement>>, byRequirement: map<Requirement, seq<TrackedId>>)
    requires AllExcused(env, clauses, queue, states, m, parents, conditions, {}) && queue.Keys <= queue'.Keys
    requires RequirementsOk(env, clauses, states', byCandidate, byRequirement)
    requires r in states && states' == states[r := states[r].(state := Dirty)]
    requires states[r].state.SatisfiedBy? && r in byRequirement ==> forall k :: 0 <= k < |byRequirement[r]| ==>
               var id := byRequirement[r][k];
                         ValueIn(m, clauses[id].parent) == Some(true) ==> clauses[id].position in queue'
    ensures AllExcused(env, clauses, queue', states', m, parents, conditions, {})
  {
    hide ConditionOpen, OccurrencesOk;
    forall id | 0 <= id < |clauses| && clauses[id].position !in queue'
      ensures Excused(env, clauses[id], states', m, parents, conditions)
    {
      assert Excused(env, clauses[id], states, m, parents, conditions);
      assert clauses[id].requirement == r ==> id in byRequirement[r];
    }
  }

  lemma CandidatesWoken(env: Provider, clauses: seq<TrackedClause>, states: map<Requirement, CacheEntry>,
                        states': map<Requirement, CacheEntry>,
                        m: DecisionMap, candidates: set<Var>, v: Var,
                        byCandidate: map<Var, seq<Requirement>>, byRequirement: map<Requirement, seq<TrackedId>>)
    requires CacheOk(env, states, m, candidates) && states'.Keys == states.Keys
    requires RequirementsOk(env, clauses, states', byCandidate, byRequirement)
    requires forall r :: r in states' ==> Weaker(states'[r], states[r])
    requires v in byCandidate ==> forall k :: 0 <= k < |byCandidate[v]| ==>
               byCandidate[v][k] in states' && IsDroppedOrCertain(states'[byCandidate[v][k]], m)
    ensures CacheOk(env, states', m, candidates - {v})
  {
    forall r | r in states' ensures EntryOk(env, r, states'[r].state, m, candidates - {v}) {
      CandidateWoken(env, r, states[r], states'[r], m, candidates, v, byCandidate);
    }
  }

  lemma CandidateWoken(env: Provider, r: Requirement, entry: CacheEntry, entry': CacheEntry, m: DecisionMap,
                       candidates: set<Var>, v: Var, byCandidate: map<Var, seq<Requirement>>)
    requires EntryOk(env, r, entry.state, m, candidates) && Weaker(entry', entry) &&
             OccurrencesOk(env, r, entry', byCandidate)
    requires v in byCandidate && r in byCandidate[v] ==> IsDroppedOrCertain(entry', m)
    ensures EntryOk(env, r, entry'.state, m, candidates - {v})
  {
    hide Mentions, Walk;
  }

  lemma HotPartAdds(clauses: seq<TrackedClause>, queue: Queue, id: TrackedId)
    requires QueueOk(clauses, queue) && DistinctPositions(clauses) && id < |clauses|
    ensures QueueOk(clauses, queue[clauses[id].position := id])
    ensures HotPart(clauses, queue[clauses[id].position := id]) ==
              if clauses[id].hot then HotPart(clauses, queue)[clauses[id].position := id] else HotPart(clauses, queue)
  {
  }

  lemma ListedByParent(clauses: seq<TrackedClause>, parents: map<Var, nat>, byParent: seq<seq<TrackedId>>, v: Var)
    requires PositionsOk(clauses, parents, byParent) && v in parents
    ensures parents[v] < |byParent|
    ensures forall k :: 0 <= k < |byParent[parents[v]]| ==> byParent[parents[v]][k] < |clauses|
  {
  }

  lemma ListedByCondition(env: Provider, clauses: seq<TrackedClause>, byCondition: map<Var, seq<TrackedId>>, v: Var)
    requires ConditionsOk(env, clauses, byCondition) && v in byCondition
    ensures forall k :: 0 <= k < |byCondition[v]| ==> byCondition[v][k] < |clauses|
  {
  }

  lemma ParentsWoken(env: Provider, clauses: seq<TrackedClause>, queue: Queue, queue': Queue,
                     states: map<Requirement, CacheEntry>,
                     m: DecisionMap, parents: set<Var>, conditions: set<Var>, v: Var, positions: map<Var, nat>,
                     byParent: seq<seq<TrackedId>>)
    requires AllExcused(env, clauses, queue, states, m, parents, conditions, {}) && queue.Keys <= queue'.Keys
    requires PositionsOk(clauses, positions, byParent)
    requires ValueIn(m, v) == Some(true) && v in positions ==>
               forall k :: 0 <= k < |byParent[positions[v]]| ==>
                 var id := byParent[positions[v]][k];
                           ValueIn(m, clauses[id].parent) == Some(true) ==> clauses[id].position in queue'
    ensures AllExcused(env, clauses, queue', states, m, parents - {v}, conditions, {})
  {
    hide ConditionOpen;
    forall id | 0 <= id < |clauses| && clauses[id].position !in queue'
      ensures Excused(env, clauses[id], states, m, parents - {v}, conditions)
    {
      assert Excused(env, clauses[id], states, m, parents, conditions);
      assert PositionOk(clauses[id], positions, byParent, id);
    }
  }

  lemma ConditionsWoken(env: Provider, clauses: seq<TrackedClause>, queue: Queue, queue': Queue,
                        states: map<Requirement, CacheEntry>,
                        m: DecisionMap, parents: set<Var>, conditions: set<Var>, v: Var,
                        byCondition: map<Var, seq<TrackedId>>)
    requires AllExcused(env, clauses, queue, states, m, parents, conditions, {}) && queue.Keys <= queue'.Keys
    requires ConditionsOk(env, clauses, byCondition)
    requires v in byCondition ==> forall k :: 0 <= k < |byCondition[v]| ==>
               var id := byCondition[v][k];
                         ValueIn(m, clauses[id].parent) == Some(true) ==> clauses[id].position in queue'
    ensures AllExcused(env, clauses, queue', states, m, parents, conditions - {v}, {})
  {
    forall id | 0 <= id < |clauses| && clauses[id].position !in queue'
      ensures Excused(env, clauses[id], states, m, parents, conditions - {v})
    {
      var c := clauses[id];
      assert Excused(env, c, states, m, parents, conditions);
      if ConditionOpen(env, c, m, conditions) {
        var l :| l in env.condition(c.condition.value) && (EvalIn(m, l) != Some(false) || l.variable in conditions);
        if l.variable == v && EvalIn(m, l) == Some(false) {
          assert id in byCondition[v];
          assert ValueIn(m, c.parent) != Some(true);
        }
      }
    }
  }
}
