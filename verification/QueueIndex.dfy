/**
 What the decide queue keeps: its index structures, the walk cache, and the reason every
 clause that is not queued has for not being queued.
 */
module QueueIndex {
  import opened Sat
  import opened Clauses
  import opened DecisionTrackers
  import opened Walks
  import opened Selection

  type TrackedId = nat

  datatype TrackedClause = TrackedClause(
    position: Position, parent: Var, requirement: Requirement, condition: Option<DisjunctionId>, clauseId: ClauseId,
    hot: bool)

  datatype CacheEntry = CacheEntry(state: RequirementState, registered: bool)

  type Queue = map<Position, TrackedId>

  const WIDTH: nat := 0x1_0000_0000
  const LIMIT: nat := 0xffff_ffff

  /** The parent's registration index in the high half, the clause's index with its parent in the low half. */
  function PackPosition(parentPos: nat, clausePos: nat): Position { parentPos * WIDTH + clausePos }

  /** Packed positions are ordered by parent first, and both halves can be read back. */
  lemma PackedOrder(a: nat, b: nat, c: nat, d: nat)
    requires b < LIMIT && d < LIMIT
    ensures PackPosition(a, b) < PackPosition(c, d) <==> a < c || (a == c && b < d)
    ensures PackPosition(a, b) / WIDTH == a && PackPosition(a, b) % WIDTH == b
  {
  }

  /** Parents and clauses are numbered in the order they were registered. */
  ghost predicate PositionsOk(clauses: seq<TrackedClause>, parents: map<Var, nat>, byParent: seq<seq<TrackedId>>) {
    && (forall v :: v in parents ==> parents[v] < |byParent|)
    && (forall p, k :: 0 <= p < |byParent| && 0 <= k < |byParent[p]| ==> byParent[p][k] < |clauses|)
    && (forall id :: 0 <= id < |clauses| ==> PositionOk(clauses[id], parents, byParent, id))
    && ListsOk(clauses, parents, byParent)
  }

  /** The list of a parent holds its clauses in the order they were registered. */
  ghost predicate ListOk(clauses: seq<TrackedClause>, parents: map<Var, nat>, list: seq<TrackedId>, p: nat) {
    && list != [] && (forall k :: 0 <= k < |list| ==> list[k] < |clauses|)
    && clauses[list[0]].parent in parents && parents[clauses[list[0]].parent] == p
    && (forall k :: 0 <= k < |list| ==> clauses[list[k]].parent == clauses[list[0]].parent)
    && (forall k, l :: 0 <= k < l < |list| ==> list[k] < list[l])
  }

  /** Each parent has its list, and the lists are in the order of their first clauses. */
  ghost predicate ListsOk(clauses: seq<TrackedClause>, parents: map<Var, nat>, byParent: seq<seq<TrackedId>>) {
    && (forall p: nat :: p < |byParent| ==> ListOk(clauses, parents, byParent[p], p))
    && (forall p: nat, q: nat :: p < q < |byParent| ==> StartsBefore(byParent, p, q))
    && (forall v :: v in parents ==> HeadedBy(clauses, byParent, parents[v], v))
  }

  ghost predicate HeadedBy(clauses: seq<TrackedClause>, byParent: seq<seq<TrackedId>>, p: nat, v: Var) {
    p < |byParent| && byParent[p] != [] && byParent[p][0] < |clauses| && clauses[byParent[p][0]].parent == v
  }

  ghost predicate StartsBefore(byParent: seq<seq<TrackedId>>, p: nat, q: nat)
    requires p < |byParent| && q < |byParent|
  {
    byParent[p] != [] && byParent[q] != [] && byParent[p][0] < byParent[q][0]
  }

  /** The first clause that was registered for a parent. */
  ghost predicate IsFirst(clauses: seq<TrackedClause>, first: TrackedId, parent: Var) {
    && first < |clauses| && clauses[first].parent == parent
    && forall i :: 0 <= i < first ==> clauses[i].parent != parent
  }

  /** The positions order the clauses by when the first clause of their parent was registered, and those of one
      parent by when they were themselves. */
  lemma RegistrationOrder(clauses: seq<TrackedClause>, parents: map<Var, nat>, byParent: seq<seq<TrackedId>>,
                          i: TrackedId, first: TrackedId, j: TrackedId, first': TrackedId)
    requires PositionsOk(clauses, parents, byParent) && i < |clauses| && j < |clauses|
    requires IsFirst(clauses, first, clauses[i].parent) && IsFirst(clauses, first', clauses[j].parent)
    ensures clauses[i].position < clauses[j].position <==> first < first' || (first == first' && i < j)
  {
    hide ListOk, ListsOk, PositionOk;
    FirstListed(clauses, parents, byParent, i, first);
    FirstListed(clauses, parents, byParent, j, first');
    var p, q := parents[clauses[i].parent], parents[clauses[j].parent];
    assert p < q ==> StartsBefore(byParent, p, q) by { ListsInOrder(clauses, parents, byParent, p, q); }
    assert q < p ==> StartsBefore(byParent, q, p) by { ListsInOrder(clauses, parents, byParent, q, p); }
    PositionOfClause(clauses, parents, byParent, i);
    PositionOfClause(clauses, parents, byParent, j);
    if p == q {
      OrderInList(clauses, parents, byParent, i, j);
    }
  }

  lemma ListsInOrder(clauses: seq<TrackedClause>, parents: map<Var, nat>, byParent: seq<seq<TrackedId>>, p: nat, q: nat)
    requires PositionsOk(clauses, parents, byParent)
    ensures p < q < |byParent| ==> StartsBefore(byParent, p, q)
  {
    hide ListOk, PositionOk, StartsBefore;
  }

  lemma PositionOfClause(clauses: seq<TrackedClause>, parents: map<Var, nat>, byParent: seq<seq<TrackedId>>,
                         i: TrackedId)
    requires PositionsOk(clauses, parents, byParent) && i < |clauses|
    ensures PositionOk(clauses[i], parents, byParent, i)
    ensures clauses[i].position == clauses[i].position / WIDTH * WIDTH + clauses[i].position % WIDTH
    ensures clauses[i].position / WIDTH == parents[clauses[i].parent] && 0 <= clauses[i].position % WIDTH < WIDTH
  {
    hide ListsOk;
  }

  /** The list of a clause's parent begins with the first clause of that parent. */
  lemma FirstListed(clauses: seq<TrackedClause>, parents: map<Var, nat>, byParent: seq<seq<TrackedId>>, i: TrackedId,
                    first: TrackedId)
    requires PositionsOk(clauses, parents, byParent) && i < |clauses| && IsFirst(clauses, first, clauses[i].parent)
    ensures clauses[i].parent in parents && parents[clauses[i].parent] < |byParent|
    ensures byParent[parents[clauses[i].parent]] != [] && byParent[parents[clauses[i].parent]][0] == first
  {
    assert PositionOk(clauses[i], parents, byParent, i) && PositionOk(clauses[first], parents, byParent, first);
    var p: nat := parents[clauses[i].parent];
    var list := byParent[p];
    assert ListOk(clauses, parents, list, p);
    assert list[clauses[i].position % WIDTH] == i && list[clauses[first].position % WIDTH] == first;
  }

  lemma OrderInList(clauses: seq<TrackedClause>, parents: map<Var, nat>, byParent: seq<seq<TrackedId>>,
                    i: TrackedId, j: TrackedId)
    requires PositionsOk(clauses, parents, byParent) && i < |clauses| && j < |clauses|
    requires PositionOk(clauses[i], parents, byParent, i) && PositionOk(clauses[j], parents, byParent, j)
    requires parents[clauses[i].parent] == parents[clauses[j].parent]
    ensures clauses[i].position % WIDTH < clauses[j].position % WIDTH <==> i < j
    ensures clauses[i].parent == clauses[j].parent
  {
    var p: nat := parents[clauses[i].parent];
    var list := byParent[p];
    assert ListOk(clauses, parents, list, p);
    var k, l := clauses[i].position % WIDTH, clauses[j].position % WIDTH;
    assert list[k] == i && list[l] == j;
  }

  ghost predicate PositionOk(c: TrackedClause, parents: map<Var, nat>, byParent: seq<seq<TrackedId>>, id: TrackedId) {
    && c.parent in parents && parents[c.parent] < |byParent|
    && c.position / WIDTH == parents[c.parent]
    && c.position % WIDTH < |byParent[parents[c.parent]]|
    && byParent[parents[c.parent]][c.position % WIDTH] == id
  }

  /** No two clauses share a position. */
  lemma PositionsDiffer(clauses: seq<TrackedClause>, parents: map<Var, nat>, byParent: seq<seq<TrackedId>>,
                        i: TrackedId, j: TrackedId)
    requires PositionsOk(clauses, parents, byParent) && i < |clauses| && j < |clauses|
    requires clauses[i].position == clauses[j].position
    ensures i == j
  {
    assert PositionOk(clauses[i], parents, byParent, i) && PositionOk(clauses[j], parents, byParent, j);
  }

  lemma PositionsAreDistinct(clauses: seq<TrackedClause>, parents: map<Var, nat>, byParent: seq<seq<TrackedId>>)
    requires PositionsOk(clauses, parents, byParent)
    ensures DistinctPositions(clauses)
  {
    forall i, j | 0 <= i < |clauses| && 0 <= j < |clauses| &&
    clauses[i].position == clauses[j].position ensures i == j {
      PositionsDiffer(clauses, parents, byParent, i, j);
    }
  }

  ghost predicate QueueOk(clauses: seq<TrackedClause>, queue: Queue) {
    forall p :: p in queue ==> queue[p] < |clauses| && clauses[queue[p]].position == p
  }

  /** The hot clauses of the queue. */
  ghost function HotPart(clauses: seq<TrackedClause>, queue: Queue): Queue {
    map p | p in queue && queue[p] < |clauses| && clauses[queue[p]].hot :: queue[p]
  }

  /** A clause is hot exactly when its requirement names a hot package. */
  ghost predicate NamesOk(env: Provider, clauses: seq<TrackedClause>, hotNames: set<Name>,
                          byName: map<Name, seq<TrackedId>>) {
    && (forall id, name: Name :: 0 <= id < |clauses| ==>
          (env.Names(clauses[id].requirement, name) <==> name in byName && id in byName[name]))
    && (forall name, k :: name in byName && 0 <= k < |byName[name]| ==> byName[name][k] < |clauses|)
    && (forall id :: 0 <= id < |clauses| ==>
          (clauses[id].hot <==> exists name :: name in hotNames && env.Names(clauses[id].requirement, name)))
  }

  ghost predicate ConditionsOk(env: Provider, clauses: seq<TrackedClause>, byCondition: map<Var, seq<TrackedId>>) {
    && (forall v, k :: v in byCondition && 0 <= k < |byCondition[v]| ==> byCondition[v][k] < |clauses|)
    && (forall id, l :: 0 <= id < |clauses| && clauses[id].condition.Some? &&
                        l in env.condition(clauses[id].condition.value) ==>
          l.variable in byCondition && id in byCondition[l.variable])
  }

  ghost predicate RequirementsOk(env: Provider, clauses: seq<TrackedClause>, states: map<Requirement, CacheEntry>,
                                 byCandidate: map<Var, seq<Requirement>>,
                                 byRequirement: map<Requirement, seq<TrackedId>>) {
    && (forall id :: 0 <= id < |clauses| ==>
          var r := clauses[id].requirement; r in states && r in byRequirement && id in byRequirement[r])
    && (forall r, k :: r in byRequirement && 0 <= k < |byRequirement[r]| ==> byRequirement[r][k] < |clauses|)
    && (forall v, k :: v in byCandidate && 0 <= k < |byCandidate[v]| ==> byCandidate[v][k] in states)
    && (forall r :: r in states ==> OccurrencesOk(env, r, states[r], byCandidate))
  }

  /** A requirement that was ever walked is woken by each of its candidates; one that was not has nothing cached. */
  ghost predicate OccurrencesOk(env: Provider, r: Requirement, entry: CacheEntry,
                                byCandidate: map<Var, seq<Requirement>>) {
    if entry.registered then forall v :: Mentions(env.walk(r), v) ==> v in byCandidate && r in byCandidate[v]
    else entry.state == Dirty
  }

  /** What is cached for a requirement holds of the assignment `m`, unless a candidate it rests on is in `pending`. */
  ghost predicate EntryOk(env: Provider, r: Requirement, state: RequirementState, m: DecisionMap, pending: set<Var>) {
    match state
    case Dirty => true
    case SatisfiedBy(v) => Mentions(env.walk(r), v) && (v in pending || ValueIn(m, v) == Some(true))
    case Frontier(_, _, _) => (exists v :: v in pending && Mentions(env.walk(r), v)) || state == Walk(env.walk(r), m)
  }

  ghost predicate CacheOk(env: Provider, states: map<Requirement, CacheEntry>, m: DecisionMap, pending: set<Var>) {
    forall r :: r in states ==> EntryOk(env, r, states[r].state, m, pending)
  }

  predicate ConditionHolds(env: Provider, c: TrackedClause, m: DecisionMap) {
    c.condition.Some? ==> forall l :: l in env.condition(c.condition.value) ==> EvalIn(m, l) == Some(false)
  }

  /** A decision can be taken from the clause. */
  predicate IsEligible(env: Provider, c: TrackedClause, m: DecisionMap) {
    ValueIn(m, c.parent) == Some(true) && ConditionHolds(env, c, m) && !AnyTrue(env.walk(c.requirement), m)
  }

  /** A literal of the condition that is not false, or may not be. */
  ghost predicate ConditionOpen(env: Provider, c: TrackedClause, m: DecisionMap, pending: set<Var>) {
    c.condition.Some? && exists l :: l in env.condition(c.condition.value) &&
                                     (EvalIn(m, l) != Some(false) || l.variable in pending)
  }

  /** Why a clause need not be queued: its parent is not installed, its condition is open, or its requirement
      is known to be satisfied; or one of the variables still to be routed will wake it. */
  ghost predicate Excused(env: Provider, c: TrackedClause, states: map<Requirement, CacheEntry>, m: DecisionMap,
                          parents: set<Var>, conditions: set<Var>) {
    || ValueIn(m, c.parent) != Some(true) || c.parent in parents
    || ConditionOpen(env, c, m, conditions)
    || (c.requirement in states && states[c.requirement].state.SatisfiedBy?)
  }

  ghost predicate AllExcused(env: Provider, clauses: seq<TrackedClause>, queue: Queue,
                             states: map<Requirement, CacheEntry>,
                             m: DecisionMap, parents: set<Var>, conditions: set<Var>, waived: set<TrackedId>) {
    forall id :: 0 <= id < |clauses| && id !in waived && clauses[id].position !in queue ==>
      Excused(env, clauses[id], states, m, parents, conditions)
  }

  /** When nothing is pending, an excused clause is not eligible: every eligible clause is queued. */
  lemma ExcusedIsIneligible(env: Provider, c: TrackedClause, states: map<Requirement, CacheEntry>, m: DecisionMap)
    requires CacheOk(env, states, m, {}) && Excused(env, c, states, m, {}, {})
    ensures !IsEligible(env, c, m)
  {
    if c.requirement in states && states[c.requirement].state.SatisfiedBy? {
      assert EntryOk(env, c.requirement, states[c.requirement].state, m, {});
      var w, v := env.walk(c.requirement), states[c.requirement].state.winner;
      var i :| 0 <= i < |w| && w[i].1 == v;
      assert ValueIn(m, w[i].1) == Some(true);
    }
  }

  /** The assignment moved on, and only the variables in `changed` have a different value. */
  ghost predicate Differs(m: DecisionMap, m': DecisionMap, changed: set<Var>) {
    forall v: Var :: v !in changed ==> ValueIn(m, v) == ValueIn(m', v)
  }

  lemma CacheFollows(env: Provider, states: map<Requirement, CacheEntry>, m: DecisionMap, m': DecisionMap,
                     changed: set<Var>)
    requires CacheOk(env, states, m, {}) && Differs(m, m', changed)
    ensures CacheOk(env, states, m', changed)
  {
    forall r | r in states ensures EntryOk(env, r, states[r].state, m', changed) {
      assert EntryOk(env, r, states[r].state, m, {});
      if states[r].state.Frontier? && !exists v :: v in changed && Mentions(env.walk(r), v) {
        var w := env.walk(r);
        forall i | 0 <= i < |w| ensures ValueIn(m, w[i].1) == ValueIn(m', w[i].1) {
          assert Mentions(w, w[i].1);
        }
        WalkDepends(w, m, m', None);
      }
    }
  }

  lemma ExcusesFollow(env: Provider, clauses: seq<TrackedClause>, queue: Queue, states: map<Requirement, CacheEntry>,
                      m: DecisionMap, m': DecisionMap, changed: set<Var>, waived: set<TrackedId>)
    requires AllExcused(env, clauses, queue, states, m, {}, {}, waived) && Differs(m, m', changed)
    requires forall id :: id in waived && id < |clauses| && clauses[id].position !in queue ==>
               (ValueIn(m', clauses[id].parent) == Some(true) ==> clauses[id].parent in changed)
    ensures AllExcused(env, clauses, queue, states, m', changed, changed, {})
  {
    forall id | 0 <= id < |clauses| && clauses[id].position !in queue
      ensures Excused(env, clauses[id], states, m', changed, changed)
    {
      var c := clauses[id];
      if id !in waived {
        assert Excused(env, c, states, m, {}, {});
        if ConditionOpen(env, c, m, {}) {
          var l :| l in env.condition(c.condition.value) && EvalIn(m, l) != Some(false);
          assert l.variable in changed || EvalIn(m', l) == EvalIn(m, l);
          assert ConditionOpen(env, c, m', changed);
        }
      }
    }
  }

  /** The offers of the clauses registered before `n`. */
  ghost function OfferOf(env: Provider, c: TrackedClause, m: DecisionMap, activity: map<Name, real>): Offer {
    match Walk(env.walk(c.requirement), m)
    case Frontier(candidate, versionSet, count) =>
      Offer(c.parent == ROOT, ActivityOf(activity, env.nameOf(versionSet)), count, candidate, c.parent, c.clauseId)
    case _ => Offer(false, 0.0, 0, 0, 0, 0)
  }

  function ActivityOf(activity: map<Name, real>, name: Name): real {
    if name in activity then activity[name] else 0.0
  }

  ghost function Offers(env: Provider, clauses: seq<TrackedClause>, m: DecisionMap, activity: map<Name, real>,
                        n: nat): map<Position, Offer>
    requires n <= |clauses|
  {
    if n == 0 then map[] else
      var e := Offers(env, clauses, m, activity, n - 1);
      var c := clauses[n - 1];
      if IsEligible(env, c, m) then e[c.position := OfferOf(env, c, m, activity)] else e
  }

  /** An eligible clause registered before `n` has position `p`. */
  ghost predicate OfferedAt(env: Provider, clauses: seq<TrackedClause>, m: DecisionMap, n: nat, p: Position)
    requires n <= |clauses|
  {
    exists id :: 0 <= id < n && clauses[id].position == p && IsEligible(env, clauses[id], m)
  }

  ghost predicate DistinctPositions(clauses: seq<TrackedClause>) {
    forall i, j :: 0 <= i < |clauses| && 0 <= j < |clauses| && clauses[i].position == clauses[j].position ==> i == j
  }

  /** Every eligible clause offers at its position. */
  lemma {:induction false} OffersHas(env: Provider, clauses: seq<TrackedClause>, m: DecisionMap,
                                     activity: map<Name, real>, n: nat, id: TrackedId)
    requires id < n <= |clauses| && DistinctPositions(clauses) && IsEligible(env, clauses[id], m)
    ensures var e := Offers(env, clauses, m, activity, n);
      clauses[id].position in e && e[clauses[id].position] == OfferOf(env, clauses[id], m, activity)
  {
    hide IsEligible, OfferOf;
    if id < n - 1 {
      OffersHas(env, clauses, m, activity, n - 1, id);
    }
  }

  /** Nothing else offers. */
  lemma {:induction false} OffersOnly(env: Provider, clauses: seq<TrackedClause>, m: DecisionMap,
                                      activity: map<Name, real>, n: nat, p: Position)
    requires n <= |clauses| && p in Offers(env, clauses, m, activity, n)
    ensures OfferedAt(env, clauses, m, n, p)
  {
    hide IsEligible, OfferOf;
    if p in Offers(env, clauses, m, activity, n - 1) {
      OffersOnly(env, clauses, m, activity, n - 1, p);
      OfferedLater(env, clauses, m, n - 1, n, p);
    } else {
      assert clauses[n - 1].position == p && IsEligible(env, clauses[n - 1], m);
    }
  }

  lemma OfferedLater(env: Provider, clauses: seq<TrackedClause>, m: DecisionMap, n: nat, n': nat, p: Position)
    requires n <= n' <= |clauses| && OfferedAt(env, clauses, m, n, p)
    ensures OfferedAt(env, clauses, m, n', p)
  {
    hide IsEligible;
    var id :| 0 <= id < n && clauses[id].position == p && IsEligible(env, clauses[id], m);
    assert 0 <= id < n' && clauses[id].position == p && IsEligible(env, clauses[id], m);
  }

  /** The conditions under which the selection may stop early and pass over cold clauses. */
  ghost predicate StandardActivities(activity: map<Name, real>, max: real, hotNames: set<Name>) {
    forall name: Name :: 0.0 <= ActivityOf(activity, name) <= max &&
                         (name !in hotNames ==> ActivityOf(activity, name) == 0.0)
  }
}
