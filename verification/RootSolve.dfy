/**
 The root solve as one object: the decision tracker, the decide queue, the gates and the deferred
 requirements, which all look at the same trail.  Solvables are encoded when they are first chosen,
 gates are forced late and stranded by backjumps, conditions fire and are drained, and a solution is
 accepted when nothing is left to do.
 */
module RootSolves {
  import opened Sat
  import opened Trails
  import opened Clauses
  import opened DecisionTrackers
  import opened Walks
  import opened Selection
  import opened QueueIndex
  import opened DecideQueues
  import opened Deciding
  import opened Gates
  import opened Finishing
  import opened Deferred
  import C = Conditions
  import P = Problems

  /** What a variable stands for: the root or a solvable, the gate of a requirement, or another helper. */
  datatype VarKind = ItemVar | GateVar(requirement: Requirement) | HelperVar

  /** What the provider and the variable map answer: the kind of each variable, the gate of each requirement, and
      the unconditional and conditional requirements of each item, one entry per alternative of a condition, which
      lists the solvables that match its version sets. */
  datatype Packages = Packages(
    env: Provider,
    problem: P.Problem,
    kindOf: Var -> VarKind,
    gateOf: Requirement -> Var,
    needs: Var -> seq<Requirement>,
    conditionals: Var -> seq<DeferredRequirement>,
    disjunctionOf: DeferredRequirement -> DisjunctionId)
  {
    ghost predicate Valid() {
      && env.Valid() && kindOf(ROOT) == ItemVar
      && (forall r: Requirement :: kindOf(gateOf(r)) == GateVar(r))
      && (forall r: Requirement, v: Var :: Mentions(env.walk(r), v) ==> kindOf(v) == ItemVar)
      && (forall v: Var, e :: e in conditionals(v) ==> VarOfItem(e.solvable) == v && WaitsFor(problem, e, SetsOf(e)))
    }

    /** The candidates of a requirement, in the order they are walked. */
    function CandidatesOf(r: Requirement): (c: seq<Var>)
      ensures |c| == |env.walk(r)| && forall i :: 0 <= i < |c| ==> c[i] == env.walk(r)[i].1
    {
      seq(|env.walk(r)|, i requires 0 <= i < |env.walk(r)| => env.walk(r)[i].1)
    }
  }

  /** The version sets an alternative asks for. */
  function SetsOf(e: DeferredRequirement): (c: C.Conjunction)
    ensures |c| == |e.disjunct| && forall i :: 0 <= i < |c| ==> c[i] == e.disjunct[i].versionSet
  {
    seq(|e.disjunct|, i requires 0 <= i < |e.disjunct| => e.disjunct[i].versionSet)
  }

  /** The variable of an item: solvables are named by theirs. */
  function VarOfItem(i: P.Item): Var {
    match i
    case Root => ROOT
    case Solvable(v) => v
  }

  /** The variable exists: a gate does once it was allocated. */
  predicate Known(pk: Packages, index: map<Requirement, nat>, v: Var) {
    match pk.kindOf(v)
    case GateVar(r) => r in index
    case _ => true
  }

  ghost predicate TrailKnown(pk: Packages, index: map<Requirement, nat>, t: Trail) {
    forall v :: v in t.pos ==> Known(pk, index, v)
  }

  /** A gate is a gate, and its requirers are items. */
  ghost predicate GateKnown(pk: Packages, index: map<Requirement, nat>, g: GateEntry) {
    && pk.kindOf(g.gate).GateVar? && Known(pk, index, g.gate)
    && forall j :: 0 <= j < |g.requirers| ==> pk.kindOf(g.requirers[j].0) == ItemVar
  }

  /** Every gate that was allocated offers the candidates of its requirement. */
  ghost predicate GatesLinked(pk: Packages, index: map<Requirement, nat>, gates: seq<GateEntry>,
                              clauses: seq<TrackedClause>) {
    && (forall r :: r in index ==>
          index[r] < |gates| && gates[index[r]].gate == pk.gateOf(r) && OfferedTo(clauses, pk.gateOf(r), r))
    && (forall i :: 0 <= i < |gates| ==> GateKnown(pk, index, gates[i]))
  }

  /** A registered clause is in the database: it has the literals of the requirement. */
  ghost predicate StoredIn(pk: Packages, c: TrackedClause, db: seq<Clause>) {
    c.clauseId < |db| && db[c.clauseId] == RequiresLiterals(pk, c.parent, c.requirement, c.condition)
  }

  ghost predicate ClausesStored(pk: Packages, clauses: seq<TrackedClause>, db: seq<Clause>) {
    forall i :: 0 <= i < |clauses| ==> StoredIn(pk, clauses[i], db)
  }

  /** The alternative was encoded. */
  ghost predicate AlternativeEncoded(pk: Packages, clauses: seq<TrackedClause>, parent: Var, e: DeferredRequirement) {
    exists i :: 0 <= i < |clauses| && clauses[i].parent == parent && clauses[i].requirement == e.requirement
      && clauses[i].condition == Some(pk.disjunctionOf(e))
  }

  /** All requirements of the item are encoded; an alternative of a condition may wait, or be on its way. */
  ghost predicate ItemEncoded(pk: Packages, clauses: seq<TrackedClause>, gates: seq<GateEntry>, waiting: Lists,
                              onTheWay: set<DeferredRequirement>, v: Var) {
    && (forall r :: r in pk.needs(v) ==> Encoded(clauses, gates, v, r))
    && (forall e :: e in pk.conditionals(v) ==>
          e in ListFor(waiting, e.condition) || e in onTheWay || AlternativeEncoded(pk, clauses, v, e))
  }

  ghost predicate AllEncoded(pk: Packages, clauses: seq<TrackedClause>, gates: seq<GateEntry>, waiting: Lists,
                             onTheWay: set<DeferredRequirement>, added: set<Var>) {
    forall v :: v in added ==> ItemEncoded(pk, clauses, gates, waiting, onTheWay, v)
  }

  /** The requirements of every chosen item were encoded. */
  ghost predicate AllAdded(pk: Packages, stack: seq<Decision>, added: set<Var>) {
    forall i :: 0 <= i < |stack| && stack[i].value && pk.kindOf(stack[i].variable) == ItemVar ==>
      stack[i].variable in added
  }

  /** The root opens the trail. */
  ghost predicate RootFirst(t: Trail) {
    |t.entries| > 0 ==> t.entries[0].variable == ROOT && t.entries[0].value
  }

  /** The items that are chosen. */
  ghost predicate Chosen(pk: Packages, m: DecisionMap, v: Var) {
    pk.kindOf(v) == ItemVar && ValueIn(m, v) == Some(true)
  }

  /** The solvables that are chosen. */
  ghost function ChoiceOf(pk: Packages, m: DecisionMap): P.Choice {
    iset v: Var | v != ROOT && Chosen(pk, m, v) :: P.Solvable(v)
  }

  /** Every version set of the alternative has a matching solvable among the chosen ones. */
  ghost predicate IsMet(pk: Packages, m: DecisionMap, e: DeferredRequirement) {
    forall i :: 0 <= i < |e.disjunct| ==> P.SomeMatching(pk.problem, e.disjunct[i].versionSet, ChoiceOf(pk, m))
  }

  /** Every requirement of every chosen item has a chosen candidate, and every alternative of a condition that
      is met has one unless a literal of its condition is not false. */
  ghost predicate Solution(pk: Packages, m: DecisionMap) {
    && Chosen(pk, m, ROOT)
    && (forall v: Var, r :: Chosen(pk, m, v) && r in pk.needs(v) ==> AnyTrue(pk.env.walk(r), m))
    && (forall v: Var, e :: Chosen(pk, m, v) && e in pk.conditionals(v) && IsMet(pk, m, e) ==>
          AnyTrue(pk.env.walk(e.requirement), m) || LiteralOpen(pk.env, pk.disjunctionOf(e), m))
  }

  ghost predicate LiteralOpen(env: Provider, d: DisjunctionId, m: DecisionMap) {
    exists l :: l in env.condition(d) && EvalIn(m, l) != Some(false)
  }

  /** One thing that can happen; a step that is not possible has no effect. */
  datatype Step =
    | InstallRoot
    | TakeDecision
    | Imply(literal: Literal, reason: ClauseId)
    | NewClause(clause: Clause)
    | EncodeItem(item: Var)
    | DrainFired
    | PropagateNext
    | Backjump(target: nat)
    | Restart
    | Bump(name: Name)
    | Decay
    | Finish

  class RootSolve {
    const pk: Packages
    const tracker: DecisionTracker
    const decider: Decider
    const keeper: Gatekeeper
    const deferred: DeferredRequirements

    /** The items whose requirements were encoded, and the place of each requirement's gate. */
    var added: set<Var>
    var index: map<Requirement, nat>

    ghost predicate Valid()
      reads this, tracker, decider, decider.tracker, decider.queue, decider.activities, keeper, keeper.tracker, deferred
    {
      ValidBut({})
    }

    /** As valid, while some drained alternatives are on their way to being encoded. */
    ghost predicate ValidBut(onTheWay: set<DeferredRequirement>)
      reads this, tracker, decider, decider.tracker, decider.queue, decider.activities, keeper, keeper.tracker, deferred
    {
      && pk.Valid() && decider.tracker == tracker && keeper.tracker == tracker && decider.queue.env == pk.env
      && decider.Valid() && keeper.Valid() && deferred.Valid()
      && Linked(onTheWay)
    }

    /** What ties the parts together. */
    ghost predicate Linked(onTheWay: set<DeferredRequirement>)
      reads this, tracker, decider, decider.queue, keeper, deferred
    {
      && TrailKnown(pk, index, tracker.trail) && RootFirst(tracker.trail) && 0 < |keeper.db|
      && GatesLinked(pk, index, keeper.gates, decider.queue.clauses) &&
         ClausesStored(pk, decider.queue.clauses, keeper.db)
      && AllEncoded(pk, decider.queue.clauses, keeper.gates, deferred.entries, onTheWay, added)
    }

    constructor (pk: Packages, add: real, decay: real)
      requires pk.Valid()
      ensures Valid() && this.pk == pk && added == {} && tracker.trail == EMPTY_TRAIL
      ensures fresh(tracker) && fresh(decider) && fresh(decider.queue) && fresh(decider.activities) &&
              fresh(keeper) && fresh(deferred)
    {
      hide Wf, LevelsOk, ReasonsOk, StackAgrees, MapAgrees, ClausesOk, GatesApart, Decider.Valid,
           Gatekeeper.Valid, DeferredRequirements.Valid, Tolerates, GatesLinked, AllEncoded, ClausesStored,
           TrailKnown;
      this.pk := pk;
      var t := new DecisionTracker();
      tracker := t;
      decider := new Decider(pk.env, add, decay, t);
      keeper := new Gatekeeper(t);
      deferred := new DeferredRequirements();
      added, index := {}, map[];
      NothingLinked(pk);
    }

    /** Installs the root, which opens the first level. */
    method InstallRootItem()
      requires Valid() && keeper.mode == Clean && tracker.trail == EMPTY_TRAIL
      modifies tracker, keeper`level
      ensures Valid() && tracker.trail == Push(EMPTY_TRAIL, Entry(ROOT, true, 1, 0)) && keeper.level == 1
    {
      hide Wf, LevelsOk, ReasonsOk, StackAgrees, MapAgrees, ClausesOk, GatesApart, Decider.Valid,
           DeferredRequirements.Valid, GatesLinked, ClausesStored, AllEncoded, Tolerates;
      keeper.Decide(ROOT, true, 0);
      decider.TrackerMoved();
    }

    /** Assigns what some clause forces: propagation through clauses other than the implications of gates, and
        learnt clauses. */
    method ImplyLiteral(l: Literal, reason: ClauseId)
      requires Valid() && keeper.level >= 1 && Known(pk, index, l.variable)
      requires l.variable !in tracker.trail.pos && reason < |keeper.db| && Forces(tracker.trail, keeper.db[reason], l)
      modifies tracker
      ensures Valid() && tracker.trail == Push(old(tracker.trail), Entry(l.variable, !l.negate, keeper.level, reason))
    {
      hide Wf, LevelsOk, ReasonsOk, StackAgrees, MapAgrees, ClausesOk, GatesApart, Decider.Valid,
           DeferredRequirements.Valid, GatesLinked, ClausesStored, AllEncoded, Tolerates, LevelOk, TrailKnown,
           RootFirst, Forces, Known;
      keeper.Force(l, reason);
      decider.TrackerMoved();
      PushedKnown(pk, index, old(tracker.trail), Entry(l.variable, !l.negate, keeper.level, reason), keeper.level,
                  tracker.propagateIndex);
    }

    /** Any clause that is neither a requirement's nor an implication's. */
    method AddOtherClause(c: Clause)
      requires Valid()
      modifies keeper`db
      ensures Valid() && keeper.db == old(keeper.db) + [c]
    {
      hide Wf, LevelsOk, ReasonsOk, StackAgrees, MapAgrees, ClausesOk, GatesApart, Decider.Valid,
           DeferredRequirements.Valid, GatesLinked, ClausesStored, AllEncoded, Tolerates, LevelOk, TrailKnown,
           RootFirst;
      var id := keeper.AddClause(c);
      StoredStays(pk, decider.queue.clauses, old(keeper.db), keeper.db);
    }

    /** Propagates the next assignment through the implications of gates. */
    method PropagateNextEntry() returns (conflict: bool)
      requires Valid() && keeper.mode == Clean && tracker.propagateIndex < |tracker.stack|
      modifies tracker, keeper`mode
      ensures Valid() && keeper.mode == if conflict then Conflicting else Clean
      ensures Later(old(tracker.trail), tracker.trail) &&
              tracker.propagateIndex == old(tracker.propagateIndex) + 1
      ensures if conflict then SomeBroken(tracker.trail, keeper.gates)
              else forall x :: 0 <= x < |keeper.gates| ==>
                     GateSettled(tracker.trail, old(tracker.stack[tracker.propagateIndex]), keeper.gates[x])
    {
      hide Wf, LevelsOk, ReasonsOk, StackAgrees, MapAgrees, ClausesOk, GatesApart, Decider.Valid,
           DeferredRequirements.Valid, GatesLinked, ClausesStored, AllEncoded, Tolerates, LevelOk, TrailKnown,
           RootFirst, Later, GrewBy, SomeBroken, GateSettled;
      conflict := keeper.PropagateNext();
      decider.TrackerMoved();
      GrewKnown(pk, index, old(tracker.trail), tracker.trail, keeper.gates, decider.queue.clauses);
      LaterRoot(old(tracker.trail), tracker.trail);
    }

    /** Returns to a lower level, as learning from a conflict does. */
    method BackjumpTo(target: nat)
      requires Valid() && keeper.mode != MustRestart && 1 <= target < keeper.level
      modifies tracker, keeper`mode, keeper`level
      ensures Valid() && keeper.mode == Clean && tracker.trail == UpTo(old(tracker.trail), target)
    {
      hide Wf, LevelsOk, ReasonsOk, StackAgrees, MapAgrees, ClausesOk, GatesApart, Decider.Valid,
           DeferredRequirements.Valid, GatesLinked, ClausesStored, AllEncoded, Tolerates, LevelOk, TrailKnown,
           RootFirst, UpTo;
      keeper.Backjump(target);
      decider.TrackerMoved();
      UndoneKnown(pk, index, old(tracker.trail), target);
    }

    /** Starts over after a clause was added that is violated. */
    method RestartAll()
      requires Valid()
      modifies tracker, keeper`mode, keeper`level
      ensures Valid() && keeper.mode == Clean && tracker.trail == EMPTY_TRAIL
    {
      hide Wf, LevelsOk, ReasonsOk, StackAgrees, MapAgrees, ClausesOk, GatesApart, Decider.Valid,
           DeferredRequirements.Valid, GatesLinked, ClausesStored, AllEncoded, Tolerates, LevelOk;
      keeper.Restart();
      decider.TrackerMoved();
    }

    /** A package was involved in a conflict. */
    method BumpName(name: Name)
      requires Valid()
      modifies decider.queue, decider.activities
      ensures Valid()
    {
      hide Wf, LevelsOk, ReasonsOk, StackAgrees, MapAgrees, ClausesOk, GatesApart, Decider.Valid,
           DeferredRequirements.Valid, GatesLinked, ClausesStored, AllEncoded, Tolerates, LevelOk, TrailKnown,
           RootFirst, Gatekeeper.Valid, SameButHot;
      decider.Bump(name);
      HotLinked(pk, index, keeper.gates, old(decider.queue.clauses), decider.queue.clauses, deferred.entries, added,
                keeper.db);
    }

    method DecayAll()
      requires Valid()
      modifies decider.activities
      ensures Valid()
    {
      hide Wf, LevelsOk, ReasonsOk, StackAgrees, MapAgrees, ClausesOk, GatesApart, Decider.Valid,
           DeferredRequirements.Valid, GatesLinked, ClausesStored, AllEncoded, Tolerates, LevelOk, TrailKnown,
           RootFirst, Gatekeeper.Valid, Decayed;
      decider.Decay();
    }

    /** Asks the queue for a decision. */
    method AskQueue() returns (offer: Option<Offer>)
      requires Valid() && Ready()
      modifies tracker, decider, decider.queue
      ensures Valid() && tracker.trail == old(tracker.trail) && tracker.propagateIndex == old(tracker.propagateIndex)
      ensures tracker.map_ == old(tracker.map_) && tracker.stack == old(tracker.stack) &&
              decider.queue.clauses == old(decider.queue.clauses)
      ensures offer == Naive(Offers(pk.env, decider.queue.clauses, tracker.map_, decider.activities.activity,
                                    |decider.queue.clauses|))
      ensures if offer.Some? then IsDecision(pk.env, decider.queue.clauses, tracker.map_, decider.activities.activity,
                                             offer.value)
              else !SomeEligible(pk.env, decider.queue.clauses, tracker.map_)
      ensures offer.Some? ==> offer.value.candidate !in tracker.trail.pos && offer.value.clauseId < |keeper.db|
      ensures offer.Some? ==> Known(pk, index, offer.value.candidate)
    {
      hide Wf, LevelsOk, ReasonsOk, StackAgrees, MapAgrees, ClausesOk, GatesApart, Decider.Valid,
           DeferredRequirements.Valid, GatesLinked, ClausesStored, AllEncoded, Tolerates, LevelOk, TrailKnown,
           RootFirst, Naive, Offers, IsEligible, Walk, PositionsOk, Known, DecideQueue.Valid,
           DecideQueue.Synced, IsDecision, SomeEligible;
      PositionsHold(decider);
      offer := decider.Decide();
      keeper.TrailStayed();
      PositionsHold(decider);
      if offer.Some? {
        DecisionFits(pk, decider.queue.clauses, tracker.map_, tracker.trail, tracker.stack,
                     decider.activities.activity, offer.value, keeper.db,
                     index, decider.queue.parentPositions, decider.queue.clausesByParent);
      }
    }

    /** Asks the queue for a decision and takes it at the next level. */
    method Decide() returns (taken: bool)
      requires Valid() && Ready() && keeper.level < MAX_LEVEL
      modifies tracker, decider, decider.queue, keeper`level
      ensures Valid()
      ensures decider.queue.clauses == old(decider.queue.clauses)
      ensures taken <==> SomeEligible(pk.env, decider.queue.clauses, old(tracker.map_))
      ensures taken ==> keeper.level == old(keeper.level) + 1
      ensures taken ==>
                exists o: Offer ::
                  && IsDecision(pk.env, decider.queue.clauses, old(tracker.map_), decider.activities.activity, o)
                  && tracker.trail == Push(old(tracker.trail), Entry(o.candidate, true, keeper.level, o.clauseId))
      ensures !taken ==> tracker.trail == old(tracker.trail) && tracker.map_ == old(tracker.map_)
    {
      hide Wf, LevelsOk, ReasonsOk, StackAgrees, MapAgrees, ClausesOk, GatesApart, Decider.Valid,
           DeferredRequirements.Valid, GatesLinked, ClausesStored, AllEncoded, Tolerates, LevelOk, TrailKnown,
           RootFirst, Known, IsDecision, SomeEligible, Naive, Offers;
      var offer := AskQueue();
      taken := offer.Some?;
      if taken {
        var o := offer.value;
        DecisionIsEligible(pk.env, decider.queue.clauses, tracker.map_, decider.activities.activity, o);
        label before:
        keeper.Decide(o.candidate, true, o.clauseId);
        decider.TrackerMoved@before();
        PushedKnown(pk, index, old(tracker.trail), Entry(o.candidate, true, keeper.level, o.clauseId),
                    old(keeper.level), old(tracker.propagateIndex));
      }
    }

    /** Registers a clause with the queue. */
    method RegisterClause(parent: Var, r: Requirement, condition: Option<DisjunctionId>, id: ClauseId,
                          ghost onTheWay: set<DeferredRequirement>)
      requires ValidBut(onTheWay) && Room(decider.queue.clausesByParent, 1)
      requires id < |keeper.db| && keeper.db[id] == RequiresLiterals(pk, parent, r, condition)
      modifies decider, decider.queue
      ensures ValidBut(onTheWay) && ClausesGrow(old(decider.queue.clauses), decider.queue.clauses)
      ensures forall k: nat :: Room(old(decider.queue.clausesByParent), k + 1) ==>
                Room(decider.queue.clausesByParent, k)
      ensures |decider.queue.clauses| == |old(decider.queue.clauses)| + 1
      ensures var c := decider.queue.clauses[|old(decider.queue.clauses)|];
              c.parent == parent && c.requirement == r && c.condition == condition && c.clauseId == id
    {
      hide Wf, LevelsOk, ReasonsOk, StackAgrees, MapAgrees, ClausesOk, GatesApart, Decider.Valid,
           DeferredRequirements.Valid, GatesLinked, ClausesStored, AllEncoded, Tolerates, LevelOk, TrailKnown,
           RootFirst, Gatekeeper.Valid, Room, ClausesGrow;
      ghost var before := decider.queue.clauses;
      decider.Register(parent, r, condition, id);
      Appended(pk, before, decider.queue.clauses, keeper.db);
      LinksKept(pk, index, keeper.gates, before, decider.queue.clauses);
      AllEncodedKept(pk, before, decider.queue.clauses, keeper.gates, keeper.gates, deferred.entries,
                     deferred.entries, onTheWay, onTheWay, added);
    }

    /** A requirement with a clause of its own; if the clause is violated the search has to start over. */
    method EncodeDirectly(v: Var, r: Requirement, condition: Option<DisjunctionId>,
                          ghost onTheWay: set<DeferredRequirement>)
      requires ValidBut(onTheWay) && Room(decider.queue.clausesByParent, 1)
      modifies decider, decider.queue, keeper`db, keeper`mode
      ensures ValidBut(onTheWay) && ClausesGrow(old(decider.queue.clauses), decider.queue.clauses)
      ensures forall k: nat :: Room(old(decider.queue.clausesByParent), k + 1) ==>
                Room(decider.queue.clausesByParent, k)
      ensures |decider.queue.clauses| == |old(decider.queue.clauses)| + 1
      ensures var c := decider.queue.clauses[|old(decider.queue.clauses)|];
              c.parent == v && c.requirement == r && c.condition == condition && c.clauseId == |old(keeper.db)|
      ensures keeper.db == old(keeper.db) + [RequiresLiterals(pk, v, r, condition)]
      ensures keeper.mode == if Violated(tracker.map_, v,
                                         RequiresLiterals(pk, v, r, condition)) then MustRestart else old(keeper.mode)
    {
      hide Wf, LevelsOk, ReasonsOk, StackAgrees, MapAgrees, ClausesOk, GatesApart, Decider.Valid,
           DeferredRequirements.Valid, GatesLinked, ClausesStored, AllEncoded, Tolerates, LevelOk, TrailKnown,
           RootFirst, ClausesGrow, Room, Violated;
      var clause := RequiresLiterals(pk, v, r, condition);
      var id := keeper.AddClause(clause);
      StoredStays(pk, decider.queue.clauses, old(keeper.db), keeper.db);
      RegisterClause(v, r, condition, id, onTheWay);
      if Violated(tracker.map_, v, clause) {
        keeper.ReportConflict();
      }
    }

    /** The gate of a requirement is allocated with its candidate clause. */
    method AllocateGate(r: Requirement, ghost onTheWay: set<DeferredRequirement>)
      requires ValidBut(onTheWay) && Room(decider.queue.clausesByParent, 1) && r !in index && pk.env.walk(r) != []
      modifies this`index, tracker, decider, decider.queue, keeper`db, keeper`gates
      ensures ValidBut(onTheWay) && index == old(index)[r := |old(keeper.gates)|]
      ensures keeper.gates == old(keeper.gates) + [GateEntry(pk.gateOf(r), [])]
      ensures keeper.db == old(keeper.db) + [RequiresLiterals(pk, pk.gateOf(r), r, None)]
      ensures tracker.trail ==
        if AllCandidatesFalse(old(tracker.trail), pk.CandidatesOf(r)) then
          Push(old(tracker.trail), Entry(pk.gateOf(r), false, keeper.level, |old(keeper.db)|))
        else old(tracker.trail)
      ensures |decider.queue.clauses| == |old(decider.queue.clauses)| + 1
      ensures var c := decider.queue.clauses[|old(decider.queue.clauses)|];
              c.parent == pk.gateOf(r) && c.requirement == r && c.condition == None && c.clauseId == |old(keeper.db)|
      ensures ClausesGrow(old(decider.queue.clauses), decider.queue.clauses) &&
              GatesGrow(old(keeper.gates), keeper.gates)
      ensures forall k: nat :: Room(old(decider.queue.clausesByParent), k + 1) ==>
                Room(decider.queue.clausesByParent, k)
    {
      hide Wf, LevelsOk, ReasonsOk, StackAgrees, MapAgrees, ClausesOk, GatesApart, Decider.Valid,
           DeferredRequirements.Valid, GatesLinked, ClausesStored, AllEncoded, Tolerates, LevelOk, TrailKnown,
           RootFirst, ClausesGrow, GatesGrow, Room, Implication, Known, AllCandidatesFalse;
      ghost var clauses, gates := decider.queue.clauses, keeper.gates;
      GateIsNew(pk, index, gates, clauses, tracker.trail, r);
      var id := keeper.AddGate(pk.gateOf(r), pk.CandidatesOf(r));
      decider.TrackerMoved();
      decider.Register(pk.gateOf(r), r, None, id);
      index := index[r := |keeper.gates| - 1];
      GateClause(pk, r);
      StoredStays(pk, clauses, old(keeper.db), keeper.db);
      Appended(pk, clauses, decider.queue.clauses, keeper.db);
      GateAdded(pk, old(index), r, gates, clauses, decider.queue.clauses, old(tracker.trail), tracker.trail,
                keeper.level, id);
      AllEncodedKept(pk, clauses, decider.queue.clauses, gates, keeper.gates, deferred.entries, deferred.entries,
                     onTheWay, onTheWay, added);
    }

    /** An unconditional requirement of an item: through the gate if it has four candidates or more and the item
        is not the root. */
    method EncodeNeed(v: Var, r: Requirement, ghost onTheWay: set<DeferredRequirement>)
      requires ValidBut(onTheWay) && pk.kindOf(v) == ItemVar && Room(decider.queue.clausesByParent, 1)
      modifies this`index, tracker, decider, decider.queue, keeper
      ensures ValidBut(onTheWay) && Encoded(decider.queue.clauses, keeper.gates, v, r)
      ensures if v != ROOT && |pk.CandidatesOf(r)| >= 4 then
                && (exists id :: Implication(keeper.gates, pk.gateOf(r), v, id))
                && OfferedTo(decider.queue.clauses, pk.gateOf(r), r)
                && |decider.queue.clauses| == |old(decider.queue.clauses)| + if r in old(index) then 0 else 1
              else
                && keeper.gates == old(keeper.gates) && index == old(index) && tracker.trail == old(tracker.trail)
                && OfferedTo(decider.queue.clauses, v, r)
                && keeper.db == old(keeper.db) + [RequiresLiterals(pk, v, r, None)]
      ensures ClausesGrow(old(decider.queue.clauses), decider.queue.clauses) &&
              GatesGrow(old(keeper.gates), keeper.gates)
      ensures forall k: nat :: Room(old(decider.queue.clausesByParent), k + 1) ==>
                Room(decider.queue.clausesByParent, k)
    {
      hide Linked, Decider.Valid, Gatekeeper.Valid, DeferredRequirements.Valid, ClausesGrow, GatesGrow, Room,
           Encoded;
      GrowSame(decider.queue.clauses, keeper.gates, decider.queue.clausesByParent);
      if v != ROOT && |pk.CandidatesOf(r)| >= 4 {
        if r !in index {
          AllocateGate(r, onTheWay);
        }
        ghost var clauses, gates := decider.queue.clauses, keeper.gates;
        AddRequirerOf(v, r, onTheWay);
        GrowOn(old(decider.queue.clauses), clauses, decider.queue.clauses, old(keeper.gates), gates, keeper.gates);
      } else {
        EncodeDirectly(v, r, None, onTheWay);
        NewestOffers(decider.queue.clauses, keeper.gates, v, r);
      }
    }

    /** The item implies the gate of its requirement. */
    method AddRequirerOf(v: Var, r: Requirement, ghost onTheWay: set<DeferredRequirement>)
      requires ValidBut(onTheWay) && pk.kindOf(v) == ItemVar && r in index
      modifies tracker, keeper`db, keeper`gates, keeper`mode
      ensures ValidBut(onTheWay) && Encoded(decider.queue.clauses, keeper.gates, v, r) &&
              GatesGrow(old(keeper.gates), keeper.gates)
      ensures decider.queue.clauses == old(decider.queue.clauses)
      ensures keeper.db == old(keeper.db) + [[Positive(pk.gateOf(r)), Negative(v)]]
      ensures Implication(keeper.gates, pk.gateOf(r), v, |old(keeper.db)|)
      ensures OfferedTo(decider.queue.clauses, pk.gateOf(r), r)
    {
      hide Wf, LevelsOk, ReasonsOk, StackAgrees, MapAgrees, ClausesOk, GatesApart, Decider.Valid,
           DeferredRequirements.Valid, GatesLinked, ClausesStored, AllEncoded, Tolerates, LevelOk, TrailKnown,
           RootFirst, GatesGrow, Implication, Known, Encoded;
      ghost var gates := keeper.gates;
      RequirerFits(pk, index, gates, decider.queue.clauses, v, r);
      var id := keeper.AddRequirer(index[r], v);
      decider.TrackerMoved();
      StoredStays(pk, decider.queue.clauses, old(keeper.db), keeper.db);
      RequirerAdded(pk, index, gates, decider.queue.clauses, v, r, id, old(tracker.trail), tracker.trail,
                    keeper.level, old(tracker.propagateIndex));
      AllEncodedKept(pk, decider.queue.clauses, decider.queue.clauses, gates, keeper.gates, deferred.entries,
                     deferred.entries, onTheWay, onTheWay, added);
    }

    /** The solvables that are decided to be selected. */
    function Decided(): (r: set<P.SolvableId>)
      requires tracker.Valid()
      reads this, tracker
      ensures forall v: Var :: v in r <==> v != ROOT && Chosen(pk, tracker.map_, v)
    {
      ChosenItems() - {ROOT}
    }

    /** The items that are chosen. */
    function ChosenItems(): (r: set<Var>)
      requires tracker.Valid()
      reads this, tracker
      ensures forall v: Var :: v in r <==> Chosen(pk, tracker.map_, v)
    {
      var r := set i | 0 <= i < |tracker.stack| && tracker.stack[i].value &&
               pk.kindOf(tracker.stack[i].variable) == ItemVar :: tracker.stack[i].variable;
      assert forall v: Var :: v in r <==> Chosen(pk, tracker.map_, v) by {
        StackChooses(pk, tracker.map_, tracker.trail, tracker.stack, r);
      }
      r
    }

    /** Encodes one alternative of a conditional requirement. */
    method EncodeAlternative(v: Var, e: DeferredRequirement, ghost onTheWay: set<DeferredRequirement>)
      requires ValidBut(onTheWay) && Room(decider.queue.clausesByParent, 1)
      modifies decider, decider.queue, keeper`db, keeper`mode
      ensures ValidBut(onTheWay) && AlternativeEncoded(pk, decider.queue.clauses, v, e)
      ensures keeper.db == old(keeper.db) + [RequiresLiterals(pk, v, e.requirement, Some(pk.disjunctionOf(e)))]
      ensures ClausesGrow(old(decider.queue.clauses), decider.queue.clauses)
      ensures forall k: nat :: Room(old(decider.queue.clausesByParent), k + 1) ==>
                Room(decider.queue.clausesByParent, k)
    {
      hide Linked, Decider.Valid, Gatekeeper.Valid, DeferredRequirements.Valid, ClausesGrow, Room;
      EncodeDirectly(v, e.requirement, Some(pk.disjunctionOf(e)), onTheWay);
      ghost var n := |decider.queue.clauses| - 1;
      assert decider.queue.clauses[n].parent == v;
    }

    /** An alternative of a condition is encoded if it holds; otherwise it waits. */
    method HandleAlternative(v: Var, e: DeferredRequirement)
      requires Valid() && Room(decider.queue.clausesByParent, 1)
      modifies decider, decider.queue, keeper`db, keeper`mode, deferred
      ensures Valid() && tracker.Valid()
      ensures if Fires(e, Decided()) then
                && AlternativeEncoded(pk, decider.queue.clauses, v, e) && deferred.entries == old(deferred.entries)
                && keeper.db == old(keeper.db) + [RequiresLiterals(pk, v, e.requirement, Some(pk.disjunctionOf(e)))]
              else
                && decider.queue.clauses == old(decider.queue.clauses) && keeper.db == old(keeper.db)
                && deferred.entries ==
                   old(deferred.entries)[e.condition := old(ListFor(deferred.entries, e.condition)) + [e]]
      ensures ClausesGrow(old(decider.queue.clauses), decider.queue.clauses) &&
              WaitingGrows(old(deferred.entries), deferred.entries)
      ensures forall k: nat :: Room(old(decider.queue.clausesByParent), k + 1) ==>
                Room(decider.queue.clausesByParent, k)
    {
      hide Wf, LevelsOk, ReasonsOk, StackAgrees, MapAgrees, ClausesOk, GatesApart, Decider.Valid,
           DeferredRequirements.Valid, GatesLinked, ClausesStored, AllEncoded, Tolerates, LevelOk, TrailKnown,
           RootFirst, Gatekeeper.Valid, ClausesGrow, Room, AlternativeEncoded, WaitingGrows, Fires;
      GrowSame(decider.queue.clauses, keeper.gates, decider.queue.clausesByParent);
      WaitsMore(deferred.entries, e);
      KeeperParts(keeper);
      if Fires(e, Decided()) {
        EncodeAlternative(v, e, {});
      } else {
        deferred.Push(e);
        MoreWaiting(pk, decider.queue.clauses, keeper.gates, old(deferred.entries), deferred.entries, added);
      }
    }

    /** Encodes an item: all its requirements, and those alternatives of its conditions that hold; the others wait. */
    method EncodeItemNow(v: Var)
      requires Valid() && pk.kindOf(v) == ItemVar &&
               Room(decider.queue.clausesByParent, |pk.needs(v)| + |pk.conditionals(v)|)
      modifies this, tracker, decider, decider.queue, keeper, deferred
      ensures Valid() && added == old(added) + {v}
    {
      hide Linked, Decider.Valid, Gatekeeper.Valid, DeferredRequirements.Valid, Room, Encoded;
      EncodeNeeds(v);
      HandleConditionals(v);
      MarkAdded(v);
    }

    method EncodeNeeds(v: Var)
      requires Valid() && pk.kindOf(v) == ItemVar &&
               Room(decider.queue.clausesByParent, |pk.needs(v)| + |pk.conditionals(v)|)
      modifies this`index, tracker, decider, decider.queue, keeper
      ensures Valid() && Room(decider.queue.clausesByParent, |pk.conditionals(v)|)
      ensures forall j :: 0 <= j < |pk.needs(v)| ==> Encoded(decider.queue.clauses, keeper.gates, v, pk.needs(v)[j])
    {
      hide Linked, Decider.Valid, Gatekeeper.Valid, DeferredRequirements.Valid, ClausesGrow, GatesGrow, Room,
           Encoded, Implication, OfferedTo, RequiresLiterals;
      var needs, rest := pk.needs(v), |pk.conditionals(v)|;
      for i := 0 to |needs|
        invariant Valid() && Room(decider.queue.clausesByParent, |needs| - i + rest)
        invariant forall j :: 0 <= j < i ==> Encoded(decider.queue.clauses, keeper.gates, v, needs[j])
      {
        ghost var clauses, gates, byParent := decider.queue.clauses, keeper.gates, decider.queue.clausesByParent;
        RoomFor(byParent, |needs| - i + rest);
        EncodeNeed(v, needs[i], {});
        assert Room(byParent, (|needs| - i - 1 + rest) + 1);
        forall j | 0 <= j < i ensures Encoded(decider.queue.clauses, keeper.gates, v, needs[j]) {
          EncodedKept(clauses, decider.queue.clauses, gates, keeper.gates, v, needs[j]);
        }
      }
    }

    method HandleConditionals(v: Var)
      requires Valid() && Room(decider.queue.clausesByParent, |pk.conditionals(v)|)
      requires forall j :: 0 <= j < |pk.needs(v)| ==> Encoded(decider.queue.clauses, keeper.gates, v, pk.needs(v)[j])
      modifies decider, decider.queue, keeper`db, keeper`mode, deferred
      ensures Valid()
      ensures forall j :: 0 <= j < |pk.needs(v)| ==> Encoded(decider.queue.clauses, keeper.gates, v, pk.needs(v)[j])
      ensures forall j :: 0 <= j < |pk.conditionals(v)| ==> AlternativeHandled(v, pk.conditionals(v)[j])
    {
      hide Linked, Decider.Valid, Gatekeeper.Valid, DeferredRequirements.Valid, ClausesGrow, GatesGrow, Room,
           Encoded, WaitingGrows, AlternativeEncoded, Fires, RequiresLiterals, Chosen;
      var needs, conditionals := pk.needs(v), pk.conditionals(v);
      ghost var gates := keeper.gates;
      for i := 0 to |conditionals|
        invariant Valid() && Room(decider.queue.clausesByParent, |conditionals| - i)
        invariant forall j :: 0 <= j < |needs| ==> Encoded(decider.queue.clauses, gates, v, needs[j])
        invariant forall j :: 0 <= j < i ==> AlternativeHandled(v, conditionals[j])
      {
        ghost var clauses, byParent, waiting := decider.queue.clauses, decider.queue.clausesByParent, deferred.entries;
        RoomFor(byParent, |conditionals| - i);
        HandleAlternative(v, conditionals[i]);
        assert Room(byParent, (|conditionals| - i - 1) + 1);
        GrowSame(clauses, gates, byParent);
        forall j | 0 <= j < |needs| ensures Encoded(decider.queue.clauses, gates, v, needs[j]) {
          EncodedKept(clauses, decider.queue.clauses, gates, gates, v, needs[j]);
        }
        forall j | 0 <= j < i ensures AlternativeHandled(v, conditionals[j]) {
          HandledKept(pk, clauses, decider.queue.clauses, waiting, deferred.entries, v, conditionals[j]);
        }
      }
    }

    method MarkAdded(v: Var)
      requires Valid() && forall j :: 0 <= j < |pk.needs(v)| ==>
                            Encoded(decider.queue.clauses, keeper.gates, v, pk.needs(v)[j])
      requires forall j :: 0 <= j < |pk.conditionals(v)| ==> AlternativeHandled(v, pk.conditionals(v)[j])
      modifies this`added
      ensures Valid() && added == old(added) + {v}
    {
      hide Decider.Valid, Gatekeeper.Valid, DeferredRequirements.Valid, AllEncoded, GatesLinked, TrailKnown,
           ClausesStored, Encoded, AlternativeEncoded;
      ItemAdded(pk, decider.queue.clauses, keeper.gates, deferred.entries, added, v);
      added := added + {v};
    }

    ghost predicate AlternativeHandled(v: Var, e: DeferredRequirement)
      reads this, decider, decider.queue, deferred
    {
      e in ListFor(deferred.entries, e.condition) || AlternativeEncoded(pk, decider.queue.clauses, v, e)
    }

    /** Drains every condition that has fired and encodes what was drained. */
    method DrainAndEncode()
      requires Valid() && Room(decider.queue.clausesByParent, deferred.Count())
      modifies decider, decider.queue, keeper`db, keeper`mode, deferred
      ensures Valid() && NoneReady(deferred.entries, Decided())
    {
      hide Wf, LevelsOk, ReasonsOk, StackAgrees, MapAgrees, ClausesOk, GatesApart, Decider.Valid,
           DeferredRequirements.Valid, GatesLinked, ClausesStored, AllEncoded, Tolerates, LevelOk, TrailKnown,
           RootFirst, Gatekeeper.Valid, ClausesGrow, Room, AlternativeEncoded, Fires, Close, Gather, Pick,
           NoneReady;
      KeeperParts(keeper);
      GatherIsShorter(deferred.keys, deferred.entries, Decided());
      ghost var byParent, keys, waiting := decider.queue.clausesByParent, deferred.keys, deferred.entries;
      ghost var room := deferred.Count();
      assert KeysOk(keys, waiting) by { WaitingKeys(deferred); }
      var drained := deferred.DrainAll(Decided());
      OnTheirWay(pk, decider.queue.clauses, keeper.gates, keys, waiting, deferred.entries, Decided(), drained, added);
      MuchRoom(byParent, room, |drained|);
      EncodeDrainedAll(drained);
    }

    method EncodeDrainedAll(drained: seq<DeferredRequirement>)
      requires ValidBut(Elements(drained)) && Room(decider.queue.clausesByParent, |drained|)
      modifies decider, decider.queue, keeper`db, keeper`mode
      ensures Valid()
    {
      hide Linked, Decider.Valid, Gatekeeper.Valid, DeferredRequirements.Valid, ClausesGrow, Room,
           AlternativeEncoded;
      assert drained[0..] == drained;
      for i := 0 to |drained|
        invariant ValidBut(Elements(drained[i..])) && Room(decider.queue.clausesByParent, |drained| - i)
      {
        ghost var lists := decider.queue.clausesByParent;
        RoomFor(lists, |drained| - i);
        EncodeDrained(drained, i);
        assert Room(lists, (|drained| - i - 1) + 1);
      }
      assert drained[|drained|..] == [];
      assert Elements<DeferredRequirement>(drained[|drained|..]) == {};
    }

    /** Encodes a drained alternative for its item. */
    method EncodeDrained(drained: seq<DeferredRequirement>, i: nat)
      requires i < |drained| && ValidBut(Elements(drained[i..])) && Room(decider.queue.clausesByParent, 1)
      modifies decider, decider.queue, keeper`db, keeper`mode
      ensures ValidBut(Elements(drained[i + 1..]))
      ensures forall k: nat :: Room(old(decider.queue.clausesByParent), k + 1) ==>
                Room(decider.queue.clausesByParent, k)
    {
      hide Wf, LevelsOk, ReasonsOk, StackAgrees, MapAgrees, ClausesOk, GatesApart, Decider.Valid,
           DeferredRequirements.Valid, GatesLinked, ClausesStored, AllEncoded, Tolerates, LevelOk, TrailKnown,
           RootFirst, Gatekeeper.Valid, ClausesGrow, Room, AlternativeEncoded;
      var e := drained[i];
      EncodeAlternative(VarOfItem(e.solvable), e, Elements(drained[i..]));
      Arrived(pk, decider.queue.clauses, keeper.gates, deferred.entries, drained, i, added);
    }

    /** A chosen item whose requirements were not encoded yet. */
    method FindNewItem() returns (v: Option<Var>)
      requires tracker.Valid()
      ensures v == None <==> AllAdded(pk, tracker.stack, added)
      ensures v.Some? ==> pk.kindOf(v.value) == ItemVar && v.value !in added &&
                          exists i :: 0 <= i < |tracker.stack| && tracker.stack[i].value &&
                                      tracker.stack[i].variable == v.value
    {
      for i := 0 to |tracker.stack|
        invariant AllAdded(pk, tracker.stack[..i], added)
      {
        var d := tracker.stack[i];
        if d.value && pk.kindOf(d.variable) == ItemVar && d.variable !in added {
          return Some(d.variable);
        }
      }
      v := None;
    }

    /** Tries to accept the solution.  It is complete when there is nothing to decide, every chosen item was
        encoded, no condition that waits has fired, and no gate was stuck. */
    method TryFinish() returns (accepted: bool)
      requires Valid() && tracker.Valid() && Ready()
      modifies tracker, decider, decider.queue
      ensures Valid()
      ensures accepted <==> old(Complete())
      ensures accepted ==> tracker.trail == old(tracker.trail) && Solution(pk, tracker.map_)
    {
      hide Wf, LevelsOk, ReasonsOk, StackAgrees, MapAgrees, ClausesOk, GatesApart, Decider.Valid,
           DeferredRequirements.Valid, GatesLinked, ClausesStored, AllEncoded, Tolerates, LevelOk, TrailKnown,
           RootFirst, Gatekeeper.Valid, Naive, Offers, Solution, NoneMissed, NoneStuck, Later, GrewBy, Fires,
           SomeEligible, IsDecision, KeysOk, NoneReady, AllAdded;
      KeeperParts(keeper);
      var offer := AskQueue();
      if offer.Some? {
        DecisionIsEligible(pk.env, decider.queue.clauses, tracker.map_, decider.activities.activity, offer.value);
        return false;
      }
      KeeperParts(keeper);
      var item := FindNewItem();
      var fired := deferred.FiredConditions(Decided());
      var forced := ForceGates();
      accepted := item == None && fired == [] && !forced;
      if accepted {
        KeeperParts(keeper);
        Accepted(pk, decider.queue.clauses, keeper.gates, deferred.entries, added, tracker.map_, tracker.trail,
                 tracker.stack, Decided(), keeper.level, tracker.propagateIndex);
      }
    }

    /** Repairs the gates that a backjump left stuck. */
    method ForceGates() returns (forced: bool)
      requires Valid() && keeper.level >= 1
      modifies tracker
      ensures Valid() && NoneStuck(tracker.trail, keeper.gates) && tracker.propagateIndex == old(tracker.propagateIndex)
      ensures !forced ==> tracker.trail == old(tracker.trail) && tracker.map_ == old(tracker.map_) &&
                          tracker.stack == old(tracker.stack)
      ensures forced <==> !NoneStuck(old(tracker.trail), keeper.gates)
    {
      hide Wf, LevelsOk, ReasonsOk, StackAgrees, MapAgrees, ClausesOk, GatesApart, Decider.Valid,
           DeferredRequirements.Valid, GatesLinked, ClausesStored, AllEncoded, Tolerates, LevelOk, TrailKnown,
           RootFirst, Later, GrewBy, NoneStuck;
      forced := keeper.ForceStuckGates();
      decider.TrackerMoved();
      GrewKnown(pk, index, old(tracker.trail), tracker.trail, keeper.gates, decider.queue.clauses);
      OpenTrail(old(tracker.trail), keeper.level, old(tracker.propagateIndex));
      LaterRoot(old(tracker.trail), tracker.trail);
    }

    /** Whether a clause forces a literal now. */
    method CanImply(l: Literal, reason: ClauseId) returns (r: bool)
      requires Valid()
      ensures r <==> CouldImply(l, reason)
    {
      hide Wf, LevelsOk, ReasonsOk, StackAgrees, MapAgrees, ClausesOk, GatesApart, Decider.Valid,
           DeferredRequirements.Valid, Linked, Tolerates, LevelOk, IsFalse, IsTrue, Known;
      if !(keeper.level >= 1 && Known(pk, index, l.variable) && reason < |keeper.db| && tracker.Eval(l) == None &&
           l in keeper.db[reason]) {
        return false;
      }
      var c := keeper.db[reason];
      for i := 0 to |c|
        invariant forall j :: 0 <= j < i && c[j] != l ==> IsFalse(tracker.trail, c[j])
      {
        assert c[i] in c;
        if c[i] != l && tracker.Eval(c[i]) != Some(false) {
          return false;
        }
      }
      r := true;
    }

    ghost predicate CouldImply(l: Literal, reason: ClauseId)
      reads this, tracker, keeper
    {
      && keeper.level >= 1 && Known(pk, index, l.variable) && l.variable !in tracker.trail.pos
      && reason < |keeper.db| && Forces(tracker.trail, keeper.db[reason], l)
    }

    /** Nothing is left to do. */
    ghost predicate Complete()
      requires tracker.Valid()
      reads this, tracker, decider, decider.queue, keeper, deferred
    {
      && !SomeEligible(pk.env, decider.queue.clauses, tracker.map_) && AllAdded(pk, tracker.stack, added)
      && NoneReady(deferred.entries, Decided()) && NoneStuck(tracker.trail, keeper.gates)
    }

    /** One step; it has no effect if it is not possible now. */
    method Take(step: Step) returns (accepted: bool)
      requires Valid() && tracker.Valid()
      modifies this, tracker, decider, decider.queue, decider.activities, keeper, deferred
      ensures Valid() && tracker.Valid()
      ensures accepted <==> step == Finish && old(Ready()) && old(Complete())
      ensures accepted ==> tracker.trail == old(tracker.trail) && Solution(pk, tracker.map_)
      ensures step.InstallRoot? && old(keeper.mode) == Clean && old(tracker.stack) == [] ==>
                tracker.trail == Push(EMPTY_TRAIL, Entry(ROOT, true, 1, 0))
      ensures step == TakeDecision && old(Ready()) && old(keeper.level) < MAX_LEVEL ==>
                && decider.queue.clauses == old(decider.queue.clauses)
                && if SomeEligible(pk.env, decider.queue.clauses, old(tracker.map_)) then
                     exists o: Offer ::
                       && IsDecision(pk.env, decider.queue.clauses, old(tracker.map_), decider.activities.activity, o)
                       && tracker.trail == Push(old(tracker.trail), Entry(o.candidate, true, keeper.level, o.clauseId))
                   else tracker.trail == old(tracker.trail)
      ensures step.Imply? && old(CouldImply(step.literal, step.reason)) ==>
                tracker.trail ==
                Push(old(tracker.trail), Entry(step.literal.variable, !step.literal.negate, keeper.level, step.reason))
      ensures step.NewClause? ==> keeper.db == old(keeper.db) + [step.clause]
      ensures step.EncodeItem? && pk.kindOf(step.item) == ItemVar &&
              old(Room(decider.queue.clausesByParent, |pk.needs(step.item)| + |pk.conditionals(step.item)|)) ==>
                added == old(added) + {step.item}
      ensures step == DrainFired && old(Room(decider.queue.clausesByParent, deferred.Count())) ==>
                NoneReady(deferred.entries, Decided())
      ensures step.Backjump? && old(keeper.mode) != MustRestart && 1 <= step.target < old(keeper.level) ==>
                tracker.trail == UpTo(old(tracker.trail), step.target)
      ensures step == Restart ==> tracker.trail == EMPTY_TRAIL
    {
      hide Linked, Decider.Valid, Gatekeeper.Valid, DeferredRequirements.Valid, Room, Known, Forces, IsDecision,
           SomeEligible, Solution, AllAdded, NoneReady, NoneStuck, DecisionTracker.Valid, Push, UpTo, Chosen,
           DecideQueue.Walkable;
      accepted := false;
      match step {
        case InstallRoot =>
          EmptyStack(keeper);
          if keeper.mode == Clean && tracker.stack == [] {
            InstallRootItem();
          }
        case TakeDecision =>
          if Ready() && keeper.level < MAX_LEVEL {
            var _ := Decide();
          }
        case Imply(l, reason) =>
          var possible := CanImply(l, reason);
          if possible {
            ImplyLiteral(l, reason);
          }
        case NewClause(c) =>
          AddOtherClause(c);
        case EncodeItem(v) =>
          if pk.kindOf(v) == ItemVar && v !in added &&
             Room(decider.queue.clausesByParent, |pk.needs(v)| + |pk.conditionals(v)|) {
            EncodeItemNow(v);
          }
        case DrainFired =>
          if Room(decider.queue.clausesByParent, deferred.Count()) {
            DrainAndEncode();
          }
        case PropagateNext =>
          if keeper.mode == Clean && tracker.propagateIndex < |tracker.stack| {
            var _ := PropagateNextEntry();
          }
        case Backjump(target) =>
          if keeper.mode != MustRestart && 1 <= target < keeper.level {
            BackjumpTo(target);
          }
        case Restart =>
          RestartAll();
        case Bump(name) =>
          BumpName(name);
        case Decay =>
          DecayAll();
        case Finish =>
          if Ready() {
            accepted := TryFinish();
          }
      }
      TrackerHolds();
    }

    lemma TrackerHolds()
      requires Valid()
      ensures tracker.Valid()
    {
      hide Linked, Decider.Valid, DeferredRequirements.Valid, LevelsOk, ReasonsOk, ClausesOk, GatesApart,
           LevelOk, Tolerates, DecisionTracker.Valid;
    }

    /** Any sequence of steps, up to the first at which a solution is accepted: it then meets every requirement of
        every chosen item. */
    method Run(schedule: seq<Step>) returns (accepted: bool)
      requires Valid()
      modifies this, tracker, decider, decider.queue, decider.activities, keeper, deferred
      ensures Valid() && (accepted ==> Finish in schedule && Solution(pk, tracker.map_))
    {
      hide ValidBut, Solution;
      TrackerHolds();
      for i := 0 to |schedule|
        invariant Valid() && tracker.Valid()
      {
        accepted := Take(schedule[i]);
        if accepted {
          return;
        }
      }
      accepted := false;
    }

    /** Everything is propagated, and no eligible clause is without an undecided candidate. */
    predicate Ready()
      reads this, tracker, decider, decider.queue, keeper
    {
      && keeper.mode == Clean && keeper.level >= 1 && tracker.propagateIndex == |tracker.stack|
      && decider.queue.Walkable(tracker.map_)
    }
  }

  /** Another assignment of a variable that exists. */
  lemma PushedKnown(pk: Packages, index: map<Requirement, nat>, t: Trail, e: Entry, level: nat, k: nat)
    requires TrailKnown(pk, index, t) && RootFirst(t) && Known(pk, index, e.variable) && LevelOk(t, level, k) &&
             level >= 1
    ensures TrailKnown(pk, index, Push(t, e)) && RootFirst(Push(t, e))
  {
  }

  lemma StoredStays(pk: Packages, clauses: seq<TrackedClause>, db: seq<Clause>, db': seq<Clause>)
    requires ClausesStored(pk, clauses, db) && db <= db'
    ensures ClausesStored(pk, clauses, db')
  {
    hide RequiresLiterals;
    assert forall i :: 0 <= i < |clauses| ==> StoredIn(pk, clauses[i], db);
  }

  lemma GrewKnown(pk: Packages, index: map<Requirement, nat>, t: Trail, t': Trail, gates: seq<GateEntry>,
                  clauses: seq<TrackedClause>)
    requires TrailKnown(pk, index, t) && GrewBy(t, t', gates) && GatesLinked(pk, index, gates, clauses)
    ensures TrailKnown(pk, index, t')
  {
    forall v | v in t'.pos ensures Known(pk, index, v) {
      if v !in t.pos {
        var i :| 0 <= i < |gates| && (gates[i].gate == v || exists id: ClauseId :: (v, id) in gates[i].requirers);
        assert GateKnown(pk, index, gates[i]);
        if gates[i].gate != v {
          var id: ClauseId :| (v, id) in gates[i].requirers;
          var j :| 0 <= j < |gates[i].requirers| && gates[i].requirers[j] == (v, id);
        }
      }
    }
  }

  lemma LaterRoot(t: Trail, t': Trail)
    requires Later(t, t') && RootFirst(t) && |t.entries| > 0
    ensures RootFirst(t')
  {
  }

  lemma UndoneKnown(pk: Packages, index: map<Requirement, nat>, t: Trail, target: nat)
    requires TrailKnown(pk, index, t) && RootFirst(t)
    ensures TrailKnown(pk, index, UpTo(t, target)) && RootFirst(UpTo(t, target))
  {
  }

  /** The literals of a requires clause: not the parent, the condition's, or a candidate. */
  function RequiresLiterals(pk: Packages, v: Var, r: Requirement, condition: Option<DisjunctionId>): Clause {
    [Negative(v)] + (if condition.Some? then pk.env.condition(condition.value) else []) + Positives(pk.CandidatesOf(r))
  }

  /** The clause has literals besides that of its parent, all of them false, and the parent is not. */
  predicate Violated(m: DecisionMap, v: Var, c: Clause) {
    |c| > 1 && ValueIn(m, v) != Some(false) && forall l :: l in c[1..] ==> EvalIn(m, l) == Some(false)
  }

  /** What the clause of a requirement says: if the parent is true, a candidate or a literal of the condition is. */
  lemma RequiresMeans(pk: Packages, v: Var, r: Requirement, condition: Option<DisjunctionId>, a: Assignment)
    ensures Satisfies(a, RequiresLiterals(pk, v, r, condition)) <==>
              (v in a ==> || (exists i :: 0 <= i < |pk.CandidatesOf(r)| && pk.CandidatesOf(r)[i] in a)
                          || (condition.Some? && exists l :: l in pk.env.condition(condition.value) && Holds(a, l)))
  {
    var c, candidates := RequiresLiterals(pk, v, r, condition), pk.CandidatesOf(r);
    var literals := if condition.Some? then pk.env.condition(condition.value) else [];
    assert forall l :: l in c <==> l == Negative(v) || l in literals || l in Positives(candidates);
    if i :| 0 <= i < |candidates| && candidates[i] in a {
      assert Positives(candidates)[i] in c && Holds(a, Positives(candidates)[i]);
    }
    if v !in a {
      assert Negative(v) in c && Holds(a, Negative(v));
    }
    if condition.Some? {
      if l :| l in pk.env.condition(condition.value) && Holds(a, l) {
        assert l in c;
      }
    }
    if l :| l in c && Holds(a, l) {
      if l in Positives(candidates) {
        var i :| 0 <= i < |candidates| && Positives(candidates)[i] == l;
        assert candidates[i] in a;
      }
    }
  }

  /** When adding the clause of a requirement means starting over: it has literals beside the parent's, each of
      its candidates and the literals of its condition is false, and the parent is not. */
  lemma ViolatedMeans(pk: Packages, m: DecisionMap, v: Var, r: Requirement, condition: Option<DisjunctionId>)
    ensures var literals, candidates := if condition.Some? then pk.env.condition(condition.value) else [],
                                        pk.CandidatesOf(r);
            Violated(m, v, RequiresLiterals(pk, v, r, condition)) <==>
              && (literals != [] || candidates != []) && ValueIn(m, v) != Some(false)
              && (forall l :: l in literals ==> EvalIn(m, l) == Some(false))
              && (forall i :: 0 <= i < |candidates| ==> ValueIn(m, candidates[i]) == Some(false))
  {
    hide ValueIn;
    var c, candidates := RequiresLiterals(pk, v, r, condition), pk.CandidatesOf(r);
    var literals := if condition.Some? then pk.env.condition(condition.value) else [];
    assert c[1..] == literals + Positives(candidates);
    hide RequiresLiterals, EvalIn;
    AllFalseIn(m, literals, candidates);
  }

  lemma AllFalseIn(m: DecisionMap, literals: seq<Literal>, candidates: seq<Var>)
    ensures (forall l :: l in literals + Positives(candidates) ==> EvalIn(m, l) == Some(false)) <==>
              && (forall l :: l in literals ==> EvalIn(m, l) == Some(false))
              && (forall i :: 0 <= i < |candidates| ==> ValueIn(m, candidates[i]) == Some(false))
  {
    hide ValueIn;
    var c := literals + Positives(candidates);
    if forall l :: l in c ==> EvalIn(m, l) == Some(false) {
      forall i | 0 <= i < |candidates| ensures ValueIn(m, candidates[i]) == Some(false) {
        assert Positives(candidates)[i] in c && EvalIn(m, Positives(candidates)[i]) == Some(false);
      }
    }
  }

  /** The candidate clause of a gate is that of its requirement. */
  lemma GateClause(pk: Packages, r: Requirement)
    ensures RequiresLiterals(pk, pk.gateOf(r), r, None) == [Negative(pk.gateOf(r))] + Positives(pk.CandidatesOf(r))
  {
  }

  lemma Appended(pk: Packages, clauses: seq<TrackedClause>, clauses': seq<TrackedClause>, db: seq<Clause>)
    requires |clauses'| == |clauses| + 1 && clauses'[..|clauses|] == clauses && StoredIn(pk, clauses'[|clauses|], db)
    ensures ClausesGrow(clauses, clauses')
    ensures ClausesStored(pk, clauses, db) ==> ClausesStored(pk, clauses', db)
  {
    hide StoredIn;
    forall i | 0 <= i < |clauses| ensures clauses'[i] == clauses[i] {
      assert clauses'[..|clauses|][i] == clauses[i];
    }
  }

  lemma GrowSame(clauses: seq<TrackedClause>, gates: seq<GateEntry>, byParent: seq<seq<TrackedId>>)
    ensures ClausesGrow(clauses, clauses) && GatesGrow(gates, gates)
    ensures forall k: nat :: Room(byParent, k + 1) ==> Room(byParent, k)
  {
  }

  lemma GrowOn(a: seq<TrackedClause>, b: seq<TrackedClause>, c: seq<TrackedClause>, g: seq<GateEntry>,
               h: seq<GateEntry>, i: seq<GateEntry>)
    requires ClausesGrow(a, b) && ClausesGrow(b, c) && GatesGrow(g, h) && GatesGrow(h, i)
    ensures ClausesGrow(a, c) && GatesGrow(g, i)
  {
  }

  lemma NewestOffers(clauses: seq<TrackedClause>, gates: seq<GateEntry>, v: Var, r: Requirement)
    requires |clauses| > 0 && clauses[|clauses| - 1].parent == v && clauses[|clauses| - 1].requirement == r &&
             clauses[|clauses| - 1].condition == None
    ensures OfferedTo(clauses, v, r) && Encoded(clauses, gates, v, r)
  {
    assert OfferedTo(clauses, v, r);
  }

  lemma GateIsNew(pk: Packages, index: map<Requirement, nat>, gates: seq<GateEntry>, clauses: seq<TrackedClause>,
                  t: Trail, r: Requirement)
    requires pk.Valid() && GatesLinked(pk, index, gates, clauses) && TrailKnown(pk, index, t) && r !in index
    ensures pk.gateOf(r) !in t.pos && pk.gateOf(r) !in pk.CandidatesOf(r)
    ensures forall g: Var, p: Var, id: ClauseId :: Implication(gates, g, p, id) ==> p != pk.gateOf(r)
  {
    assert pk.kindOf(pk.gateOf(r)) == GateVar(r);
    forall v | v in pk.CandidatesOf(r) ensures pk.kindOf(v) == ItemVar {
      assert Mentions(pk.env.walk(r), v);
    }
    forall g: Var, p: Var, id: ClauseId | Implication(gates, g, p, id) ensures pk.kindOf(p) == ItemVar {
      RequirersAreItems(pk, index, gates, clauses, g, p, id);
    }
  }

  lemma RequirersAreItems(pk: Packages, index: map<Requirement, nat>, gates: seq<GateEntry>,
                          clauses: seq<TrackedClause>, g: Var, p: Var, id: ClauseId)
    requires GatesLinked(pk, index, gates, clauses) && Implication(gates, g, p, id)
    ensures pk.kindOf(p) == ItemVar
  {
    var i :| 0 <= i < |gates| && gates[i].gate == g && (p, id) in gates[i].requirers;
    assert GateKnown(pk, index, gates[i]);
    var j :| 0 <= j < |gates[i].requirers| && gates[i].requirers[j] == (p, id);
  }

  /** A gate with its clause, which may have been forced false at once. */
  lemma GateAdded(pk: Packages, index: map<Requirement, nat>, r: Requirement, gates: seq<GateEntry>,
                  clauses: seq<TrackedClause>, clauses': seq<TrackedClause>,
                  t: Trail, t': Trail, level: nat, id: ClauseId)
    requires pk.Valid() && GatesLinked(pk, index, gates, clauses) && TrailKnown(pk, index, t) && r !in index &&
             RootFirst(t)
    requires ClausesGrow(clauses, clauses') && |clauses'| == |clauses| + 1
    requires var c := clauses'[|clauses|]; c.parent == pk.gateOf(r) && c.requirement == r && c.condition == None
    requires pk.env.walk(r) != []
    requires t' == if AllCandidatesFalse(t,
                                         pk.CandidatesOf(r)) then Push(t, Entry(pk.gateOf(r), false, level, id)) else t
    ensures var gates', index' := gates + [GateEntry(pk.gateOf(r), [])], index[r := |gates|];
      GatesLinked(pk, index', gates', clauses') && TrailKnown(pk, index', t') && RootFirst(t') &&
      GatesGrow(gates, gates')
  {
    hide ClausesGrow;
    var gates', index' := gates + [GateEntry(pk.gateOf(r), [])], index[r := |gates|];
    assert OfferedTo(clauses', pk.gateOf(r), r);
    assert AllCandidatesFalse(t, pk.CandidatesOf(r)) ==> IsFalse(t, Positive(pk.CandidatesOf(r)[0]));
    forall q | q in index ensures OfferedTo(clauses', pk.gateOf(q), q) {
      OfferedKept(clauses, clauses', pk.gateOf(q), q);
    }
    forall i | 0 <= i < |gates'| ensures GateKnown(pk, index', gates'[i]) {
      assert i < |gates| ==> GateKnown(pk, index, gates[i]);
    }
    forall g: Var, p: Var, x: ClauseId | Implication(gates, g, p, x) ensures Implication(gates', g, p, x) {
      var i :| 0 <= i < |gates| && gates[i].gate == g && (p, x) in gates[i].requirers;
      assert gates'[i] == gates[i];
    }
  }

  lemma RequirerFits(pk: Packages, index: map<Requirement, nat>, gates: seq<GateEntry>, clauses: seq<TrackedClause>,
                     v: Var, r: Requirement)
    requires GatesLinked(pk, index, gates, clauses) && pk.kindOf(v) == ItemVar && r in index
    ensures index[r] < |gates| && gates[index[r]].gate == pk.gateOf(r) && OfferedTo(clauses, pk.gateOf(r), r)
    ensures forall j :: 0 <= j < |gates| ==> gates[j].gate != v
  {
    forall j | 0 <= j < |gates| ensures gates[j].gate != v {
      assert GateKnown(pk, index, gates[j]);
    }
  }

  /** A requirer of a gate, with what the implication forces. */
  lemma RequirerAdded(pk: Packages, index: map<Requirement, nat>, gates: seq<GateEntry>, clauses: seq<TrackedClause>,
                      v: Var, r: Requirement, id: ClauseId,
                      t: Trail, t': Trail, level: nat, k: nat)
    requires GatesLinked(pk, index, gates, clauses) && pk.kindOf(v) == ItemVar && r in index && index[r] < |gates|
    requires TrailKnown(pk, index, t) && RootFirst(t)
    requires t' == t || (|t.entries| > 0 &&
                         exists e: Entry :: t' == Push(t, e) && (e.variable == v || e.variable == gates[index[r]].gate))
    ensures var g := gates[index[r]]; var gates' := gates[index[r] := GateEntry(g.gate, g.requirers + [(v, id)])];
      && GatesLinked(pk, index, gates', clauses) && TrailKnown(pk, index, t') && RootFirst(t') &&
         GatesGrow(gates, gates')
      && Encoded(clauses, gates', v, r) && Implication(gates', g.gate, v, id)
  {
    var x, g := index[r], gates[index[r]];
    var gates' := gates[x := GateEntry(g.gate, g.requirers + [(v, id)])];
    assert GateKnown(pk, index, g) && OfferedTo(clauses, g.gate, r);
    forall i | 0 <= i < |gates'| ensures GateKnown(pk, index, gates'[i]) {
      assert GateKnown(pk, index, gates[i]);
    }
    forall a: Var, p: Var, y: ClauseId | Implication(gates, a, p, y) ensures Implication(gates', a, p, y) {
      var i :| 0 <= i < |gates| && gates[i].gate == a && (p, y) in gates[i].requirers;
      assert gates'[i].gate == a && (p, y) in gates'[i].requirers;
    }
    assert gates'[x].gate == g.gate && (v, id) in gates'[x].requirers;
    assert Implication(gates', g.gate, v, id);
  }

  /** What waits still does. */
  ghost predicate WaitingGrows(waiting: Lists, waiting': Lists) {
    forall c: ConditionId, e :: e in ListFor(waiting, c) ==> e in ListFor(waiting', c)
  }

  lemma WaitsMore(waiting: Lists, e: DeferredRequirement)
    ensures WaitingGrows(waiting, waiting)
    ensures var waiting' := waiting[e.condition := ListFor(waiting, e.condition) + [e]];
      WaitingGrows(waiting, waiting') && e in ListFor(waiting', e.condition)
  {
  }

  lemma MoreWaiting(pk: Packages, clauses: seq<TrackedClause>, gates: seq<GateEntry>, waiting: Lists, waiting': Lists,
                    added: set<Var>)
    requires AllEncoded(pk, clauses, gates, waiting, {}, added) && WaitingGrows(waiting, waiting')
    ensures AllEncoded(pk, clauses, gates, waiting', {}, added)
  {
    hide AllEncoded, AlternativeEncoded;
    AllEncodedKept(pk, clauses, clauses, gates, gates, waiting, waiting', {}, {}, added);
  }

  lemma RoomFor(byParent: seq<seq<TrackedId>>, k: nat)
    requires k >= 1 && Room(byParent, k)
    ensures Room(byParent, 1)
  {
  }

  lemma HandledKept(pk: Packages, clauses: seq<TrackedClause>, clauses': seq<TrackedClause>, waiting: Lists,
                    waiting': Lists, v: Var, e: DeferredRequirement)
    requires ClausesGrow(clauses, clauses') && WaitingGrows(waiting, waiting')
    requires e in ListFor(waiting, e.condition) || AlternativeEncoded(pk, clauses, v, e)
    ensures e in ListFor(waiting', e.condition) || AlternativeEncoded(pk, clauses', v, e)
  {
    hide ClausesGrow, AlternativeEncoded;
    if AlternativeEncoded(pk, clauses, v, e) {
      AlternativeKept(pk, clauses, clauses', v, e);
    }
  }

  lemma ItemAdded(pk: Packages, clauses: seq<TrackedClause>, gates: seq<GateEntry>, waiting: Lists, added: set<Var>,
                  v: Var)
    requires forall j :: 0 <= j < |pk.needs(v)| ==> Encoded(clauses, gates, v, pk.needs(v)[j])
    requires forall j :: 0 <= j < |pk.conditionals(v)| ==>
               var e := pk.conditionals(v)[j];
                        e in ListFor(waiting, e.condition) || AlternativeEncoded(pk, clauses, v, e)
    ensures AllEncoded(pk, clauses, gates, waiting, {}, added) ==>
              AllEncoded(pk, clauses, gates, waiting, {}, added + {v})
  {
    hide Encoded, AlternativeEncoded;
  }

  lemma OpenTrail(t: Trail, level: nat, k: nat)
    requires LevelOk(t, level, k) && level >= 1
    ensures |t.entries| > 0
  {
  }

  lemma StackChooses(pk: Packages, m: DecisionMap, t: Trail, stack: seq<Decision>, chosen: set<Var>)
    requires Wf(t) && |stack| == |t.entries| && StackAgrees(stack, t) && MapAgrees(m, t)
    requires chosen == set i | 0 <= i < |stack| && stack[i].value &&
             pk.kindOf(stack[i].variable) == ItemVar :: stack[i].variable
    ensures forall v: Var :: v in chosen <==> Chosen(pk, m, v)
  {
    hide Wf, StackAgrees, MapAgrees, ValueIn;
    forall v: Var ensures v in chosen <==> Chosen(pk, m, v) {
      ValueOnStack(m, t, stack, v);
    }
  }

  lemma EmptyStack(k: Gatekeeper)
    requires k.Valid()
    ensures k.tracker.stack == [] ==> k.tracker.trail == EMPTY_TRAIL
  {
    hide LevelsOk, ReasonsOk, MapAgrees, ClausesOk, GatesApart, LevelOk, Tolerates;
    if k.tracker.stack == [] {
      assert k.tracker.trail.pos == map[];
    }
  }

  lemma WaitingKeys(d: DeferredRequirements)
    requires d.Valid()
    ensures KeysOk(d.keys, d.entries)
  {
  }

  /** What the gates' invariant says when everything is propagated. */
  lemma KeeperParts(k: Gatekeeper)
    requires k.Valid()
    ensures k.tracker.Valid() && LevelOk(k.tracker.trail, k.level, k.tracker.propagateIndex)
    ensures k.mode == Clean ==> NoneMissed(k.tracker.trail, k.tracker.propagateIndex, k.gates)
  {
    hide Wf, LevelsOk, ReasonsOk, StackAgrees, MapAgrees, ClausesOk, GatesApart, LevelOk, NoneMissed;
  }

  lemma MuchRoom(byParent: seq<seq<TrackedId>>, k: nat, n: nat)
    requires Room(byParent, k) && n <= k
    ensures Room(byParent, n)
  {
  }

  /** What was drained is on its way; everything else still waits. */
  lemma OnTheirWay(pk: Packages, clauses: seq<TrackedClause>, gates: seq<GateEntry>, keys: seq<ConditionId>,
                   waiting: Lists, waiting': Lists,
                   decided: set<P.SolvableId>, drained: seq<DeferredRequirement>, added: set<Var>)
    requires AllEncoded(pk, clauses, gates, waiting, {}, added) && KeysOk(keys, waiting)
    requires drained == Gather(keys, waiting, decided)
    requires forall c: ConditionId :: ListFor(waiting', c) == Pick(ListFor(waiting, c), decided, false)
    ensures AllEncoded(pk, clauses, gates, waiting', Elements(drained), added)
  {
    hide AllEncoded, AlternativeEncoded, Fires, Gather, Pick;
    forall v: Var, e | v in added && e in pk.conditionals(v) && e in ListFor(waiting, e.condition)
      ensures e in ListFor(waiting', e.condition) || e in Elements(drained)
    {
      GatherMembers(keys, waiting, decided, e);
      PickMembers(ListFor(waiting, e.condition), decided, false);
    }
    GrowSame(clauses, gates, []);
    AllEncodedKept(pk, clauses, clauses, gates, gates, waiting, waiting', {}, Elements(drained), added);
  }

  /** A drained alternative that was encoded is no longer on its way. */
  lemma Arrived(pk: Packages, clauses: seq<TrackedClause>, gates: seq<GateEntry>, waiting: Lists,
                drained: seq<DeferredRequirement>, i: nat, added: set<Var>)
    requires pk.Valid() && i < |drained| && AllEncoded(pk, clauses, gates, waiting, Elements(drained[i..]), added)
    requires AlternativeEncoded(pk, clauses, VarOfItem(drained[i].solvable), drained[i])
    ensures AllEncoded(pk, clauses, gates, waiting, Elements(drained[i + 1..]), added)
  {
    hide AllEncoded, AlternativeEncoded;
    assert drained[i..] == [drained[i]] + drained[i + 1..];
    GrowSame(clauses, gates, []);
    AllEncodedKept(pk, clauses, clauses, gates, gates, waiting, waiting, Elements(drained[i..]),
                   Elements(drained[i + 1..]), added);
  }

  /** An eligible clause in terms of the trail: its parent is installed, the literals of its condition are false and
      no candidate is installed. */
  ghost predicate AsksNow(pk: Packages, c: TrackedClause, t: Trail) {
    && IsTrue(t, Positive(c.parent))
    && (c.condition.Some? ==> forall l :: l in pk.env.condition(c.condition.value) ==> IsFalse(t, l))
    && forall i :: 0 <= i < |pk.CandidatesOf(c.requirement)| ==> !IsTrue(t, Positive(pk.CandidatesOf(c.requirement)[i]))
  }

  lemma EligibleAsks(pk: Packages, c: TrackedClause, m: DecisionMap, t: Trail, stack: seq<Decision>)
    requires Wf(t) && |stack| == |t.entries| && StackAgrees(stack, t) && MapAgrees(m, t)
    ensures IsEligible(pk.env, c, m) <==> AsksNow(pk, c, t)
  {
    hide Wf, StackAgrees, MapAgrees, ValueIn, IsTrue, IsFalse;
    var w, candidates := pk.env.walk(c.requirement), pk.CandidatesOf(c.requirement);
    ValueOnStack(m, t, stack, c.parent);
    assert AnyTrue(w, m) <==> exists i :: 0 <= i < |candidates| && IsTrue(t, Positive(candidates[i])) by {
      forall i | 0 <= i < |candidates|
        ensures candidates[i] == w[i].1 && (ValueIn(m, w[i].1) == Some(true) <==> IsTrue(t, Positive(candidates[i])))
      {
        ValueOnStack(m, t, stack, candidates[i]);
      }
    }
    if c.condition.Some? {
      forall l | l in pk.env.condition(c.condition.value) ensures EvalIn(m, l) == Some(false) <==> IsFalse(t, l) {
        LiteralOnStack(m, t, stack, l);
      }
    }
  }

  lemma LiteralOnStack(m: DecisionMap, t: Trail, stack: seq<Decision>, l: Literal)
    requires Wf(t) && |stack| == |t.entries| && StackAgrees(stack, t) && MapAgrees(m, t)
    ensures EvalIn(m, l) == Some(false) <==> IsFalse(t, l)
  {
    hide Wf, StackAgrees, MapAgrees, ValueIn;
    ValueOnStack(m, t, stack, l.variable);
    ValueIsFalse(m, t, stack, l.variable);
  }

  lemma ValueIsFalse(m: DecisionMap, t: Trail, stack: seq<Decision>, v: Var)
    requires Wf(t) && |stack| == |t.entries| && StackAgrees(stack, t) && MapAgrees(m, t)
    ensures ValueIn(m, v) == Some(false) <==> IsTrue(t, Negative(v))
  {
    hide MapAgrees, ValueIn;
    ValueOnStack(m, t, stack, v);
    if v in t.pos {
      assert stack[t.pos[v]].variable == v;
    }
  }

  /** Nothing is left to decide, to encode, to drain or to repair: the chosen items are a solution. */
  lemma Accepted(pk: Packages, clauses: seq<TrackedClause>, gates: seq<GateEntry>, waiting: Lists, added: set<Var>,
                 m: DecisionMap, t: Trail, stack: seq<Decision>, decided: set<P.SolvableId>, level: nat, k: nat)
    requires pk.Valid() && RootFirst(t) && LevelOk(t, level, k) && level >= 1 && k == |t.entries|
    requires Wf(t) && |stack| == |t.entries| && StackAgrees(stack, t) && MapAgrees(m, t)
    requires NoneMissed(t, k, gates) && NoneStuck(t, gates) && !SomeEligible(pk.env, clauses, m)
    requires AllEncoded(pk, clauses, gates, waiting, {}, added)
    requires AllAdded(pk, stack, added)
    requires NoneReady(waiting, decided) && forall v: Var :: v in decided <==> v != ROOT && Chosen(pk, m, v)
    ensures Solution(pk, m)
  {
    hide Wf, StackAgrees, MapAgrees, NoneMissed, NoneStuck, SomeEligible, AnyTrue, ValueIn, Fires,
         AlternativeEncoded, Encoded, Mentions, LiteralOpen, IsTrue;
    AllNeedsAreMet(pk.env, clauses, gates, m, t, stack);
    RootIsChosen(t, stack, m);
    forall v: Var | Chosen(pk, m, v) ensures ItemEncoded(pk, clauses, gates, waiting, {}, v) {
      ValueOnStack(m, t, stack, v);
      var i :| 0 <= i < |stack| && stack[i].variable == v;
    }
    forall v: Var, e | Chosen(pk, m, v) && e in pk.conditionals(v) && IsMet(pk, m, e)
      ensures AnyTrue(pk.env.walk(e.requirement), m) || LiteralOpen(pk.env, pk.disjunctionOf(e), m)
    {
      assert ItemEncoded(pk, clauses, gates, waiting, {}, v);
      MetAlternativeFires(pk, m, decided, v, e);
      AlternativeIsMet(pk, clauses, m, v, e);
    }
  }

  /** A waiting alternative that is met fires. */
  lemma MetAlternativeFires(pk: Packages, m: DecisionMap, decided: set<P.SolvableId>, v: Var, e: DeferredRequirement)
    requires pk.Valid() && e in pk.conditionals(v)
    requires forall v: Var :: v in decided <==> v != ROOT && Chosen(pk, m, v)
    ensures Fires(e, decided) <==> IsMet(pk, m, e)
  {
    hide Fires, Chosen, WaitsFor, Mentions;
    FiresWhenMet(pk.problem, e, SetsOf(e), decided);
    assert Selected(decided) == ChoiceOf(pk, m);
    assert C.AllHold(SetsOf(e), P.Met(pk.problem, ChoiceOf(pk, m))) <==> IsMet(pk, m, e);
  }

  /** In a solution, a conditional requirement of a chosen item whose condition is true of what is chosen has a
      chosen candidate, unless a literal of one of its alternatives is not false. */
  lemma ConditionIsServed(pk: Packages, m: DecisionMap, v: Var, r: Requirement, condition: C.Condition,
                          entries: seq<DeferredRequirement>)
    requires pk.Valid() && Solution(pk, m) && Chosen(pk, m, v)
    requires |entries| == |C.Dnf(condition)|
    requires forall i :: 0 <= i < |entries| ==>
               entries[i] in pk.conditionals(v) && entries[i].requirement == r &&
               SetsOf(entries[i]) == C.Dnf(condition)[i]
    requires C.Eval(condition, P.Met(pk.problem, ChoiceOf(pk, m)))
    ensures AnyTrue(pk.env.walk(r), m) ||
            exists i :: 0 <= i < |entries| && LiteralOpen(pk.env, pk.disjunctionOf(entries[i]), m)
  {
    hide Chosen, AnyTrue, LiteralOpen, Mentions, C.Dnf, C.Eval, P.SomeMatching;
    var holds := P.Met(pk.problem, ChoiceOf(pk, m));
    C.DnfIsEquivalent(condition, holds);
    var i :| 0 <= i < |C.Dnf(condition)| && C.AllHold(C.Dnf(condition)[i], holds);
    assert IsMet(pk, m, entries[i]) by {
      forall j | 0 <= j < |entries[i].disjunct|
        ensures P.SomeMatching(pk.problem, entries[i].disjunct[j].versionSet, ChoiceOf(pk, m))
      {
        assert SetsOf(entries[i])[j] == entries[i].disjunct[j].versionSet && holds(C.Dnf(condition)[i][j]);
      }
    }
  }

  lemma RootIsChosen(t: Trail, stack: seq<Decision>, m: DecisionMap)
    requires RootFirst(t) && |t.entries| > 0 && Wf(t) && |stack| == |t.entries| && StackAgrees(stack, t) &&
             MapAgrees(m, t)
    ensures ValueIn(m, ROOT) == Some(true)
  {
    hide Wf, MapAgrees, ValueIn, IsTrue;
    ValueOnStack(m, t, stack, ROOT);
    assert stack[0].variable == ROOT;
  }

  lemma AlternativeIsMet(pk: Packages, clauses: seq<TrackedClause>, m: DecisionMap, v: Var, e: DeferredRequirement)
    requires !SomeEligible(pk.env, clauses, m)
    requires AlternativeEncoded(pk, clauses, v, e) && ValueIn(m, v) == Some(true)
    ensures AnyTrue(pk.env.walk(e.requirement), m) || LiteralOpen(pk.env, pk.disjunctionOf(e), m)
  {
    hide AnyTrue, ValueIn, EvalIn;
    var i :| 0 <= i < |clauses| && clauses[i].parent == v && clauses[i].requirement == e.requirement
             && clauses[i].condition == Some(pk.disjunctionOf(e));
    assert !IsEligible(pk.env, clauses[i], m);
  }

  lemma PositionsHold(d: Decider)
    requires d.Valid()
    ensures PositionsOk(d.queue.clauses, d.queue.parentPositions, d.queue.clausesByParent)
  {
  }

  /** Clauses are only added, and may become hot. */
  ghost predicate ClausesGrow(clauses: seq<TrackedClause>, clauses': seq<TrackedClause>) {
    |clauses| <= |clauses'| && forall i :: 0 <= i < |clauses| ==> clauses'[i] == clauses[i].(hot := clauses'[i].hot)
  }

  ghost predicate GatesGrow(gates: seq<GateEntry>, gates': seq<GateEntry>) {
    forall g: Var, p: Var, id: ClauseId :: Implication(gates, g, p, id) ==> Implication(gates', g, p, id)
  }

  lemma OfferedKept(clauses: seq<TrackedClause>, clauses': seq<TrackedClause>, parent: Var, r: Requirement)
    requires ClausesGrow(clauses, clauses') && OfferedTo(clauses, parent, r)
    ensures OfferedTo(clauses', parent, r)
  {
    var i :| 0 <= i < |clauses| && clauses[i].parent == parent && clauses[i].requirement == r &&
    clauses[i].condition == None;
    assert clauses'[i].parent == parent && clauses'[i].requirement == r && clauses'[i].condition == None;
  }

  lemma AlternativeKept(pk: Packages, clauses: seq<TrackedClause>, clauses': seq<TrackedClause>, parent: Var,
                        e: DeferredRequirement)
    requires ClausesGrow(clauses, clauses') && AlternativeEncoded(pk, clauses, parent, e)
    ensures AlternativeEncoded(pk, clauses', parent, e)
  {
    var i :| 0 <= i < |clauses| && clauses[i].parent == parent && clauses[i].requirement == e.requirement
             && clauses[i].condition == Some(pk.disjunctionOf(e));
    assert clauses'[i].parent == parent && clauses'[i].requirement == e.requirement &&
           clauses'[i].condition == Some(pk.disjunctionOf(e));
  }

  lemma EncodedKept(clauses: seq<TrackedClause>, clauses': seq<TrackedClause>, gates: seq<GateEntry>,
                    gates': seq<GateEntry>, parent: Var, r: Requirement)
    requires ClausesGrow(clauses, clauses') && GatesGrow(gates, gates') && Encoded(clauses, gates, parent, r)
    ensures Encoded(clauses', gates', parent, r)
  {
    hide ClausesGrow, OfferedTo, Implication;
    if OfferedTo(clauses, parent, r) {
      OfferedKept(clauses, clauses', parent, r);
    } else {
      var gate: Var, id: ClauseId :| Implication(gates, gate, parent, id) && OfferedTo(clauses, gate, r);
      OfferedKept(clauses, clauses', gate, r);
    }
  }

  /** More clauses and gates, and alternatives that started to wait, keep every item encoded. */
  lemma AllEncodedKept(pk: Packages, clauses: seq<TrackedClause>, clauses': seq<TrackedClause>, gates: seq<GateEntry>,
                       gates': seq<GateEntry>,
                       waiting: Lists, waiting': Lists, onTheWay: set<DeferredRequirement>,
                       onTheWay': set<DeferredRequirement>, added: set<Var>)
    requires ClausesGrow(clauses, clauses') && GatesGrow(gates, gates') &&
             AllEncoded(pk, clauses, gates, waiting, onTheWay, added)
    requires forall v: Var, e :: v in added && e in pk.conditionals(v) &&
                                 (e in ListFor(waiting, e.condition) || e in onTheWay) ==>
               e in ListFor(waiting', e.condition) || e in onTheWay' || AlternativeEncoded(pk, clauses', v, e)
    ensures AllEncoded(pk, clauses', gates', waiting', onTheWay', added)
  {
    hide ClausesGrow, GatesGrow, Encoded, AlternativeEncoded;
    forall v | v in added ensures ItemEncoded(pk, clauses', gates', waiting', onTheWay', v) {
      assert ItemEncoded(pk, clauses, gates, waiting, onTheWay, v);
      forall r | r in pk.needs(v) ensures Encoded(clauses', gates', v, r) {
        EncodedKept(clauses, clauses', gates, gates', v, r);
      }
      forall e | e in pk.conditionals(v) ensures e in ListFor(waiting', e.condition) || e in onTheWay' ||
      AlternativeEncoded(pk, clauses', v, e) {
        if AlternativeEncoded(pk, clauses, v, e) {
          AlternativeKept(pk, clauses, clauses', v, e);
        }
      }
    }
  }

  lemma LinksKept(pk: Packages, index: map<Requirement, nat>, gates: seq<GateEntry>, clauses: seq<TrackedClause>,
                  clauses': seq<TrackedClause>)
    requires GatesLinked(pk, index, gates, clauses) && ClausesGrow(clauses, clauses')
    ensures GatesLinked(pk, index, gates, clauses')
  {
    hide ClausesGrow, OfferedTo, GateKnown;
    forall r | r in index ensures OfferedTo(clauses', pk.gateOf(r), r) {
      OfferedKept(clauses, clauses', pk.gateOf(r), r);
    }
  }

  lemma HotLinked(pk: Packages, index: map<Requirement, nat>, gates: seq<GateEntry>, clauses: seq<TrackedClause>,
                  clauses': seq<TrackedClause>,
                  waiting: Lists, added: set<Var>, db: seq<Clause>)
    requires SameButHot(clauses', clauses) && GatesLinked(pk, index, gates, clauses) && ClausesStored(pk, clauses, db)
    requires AllEncoded(pk, clauses, gates, waiting, {}, added)
    ensures GatesLinked(pk, index, gates, clauses') && ClausesStored(pk, clauses', db) &&
            AllEncoded(pk, clauses', gates, waiting, {}, added)
  {
    hide GatesLinked, AllEncoded, RequiresLiterals;
    assert forall i :: 0 <= i < |clauses| ==> StoredIn(pk, clauses[i], db);
    LinksKept(pk, index, gates, clauses, clauses');
    AllEncodedKept(pk, clauses, clauses', gates, gates, waiting, waiting, {}, {}, added);
  }

  /** A decision is an undecided candidate, and its clause exists. */
  lemma DecisionFits(pk: Packages, clauses: seq<TrackedClause>, m: DecisionMap, t: Trail, stack: seq<Decision>,
                     activity: map<Name, real>, o: Offer,
                     db: seq<Clause>, index: map<Requirement, nat>, parents: map<Var, nat>,
                     byParent: seq<seq<TrackedId>>)
    requires pk.Valid() && PositionsOk(clauses, parents, byParent) &&
             Naive(Offers(pk.env, clauses, m, activity, |clauses|)) == Some(o)
    requires forall i :: 0 <= i < |clauses| && IsEligible(pk.env, clauses[i], m) ==>
               Walk(pk.env.walk(clauses[i].requirement), m) != Dirty
    requires Wf(t) && |stack| == |t.entries| && StackAgrees(stack, t) && MapAgrees(m, t) &&
             ClausesStored(pk, clauses, db)
    ensures o.candidate !in t.pos && o.clauseId < |db| && Known(pk, index, o.candidate)
  {
    hide PositionsOk, Naive, Offers, Wf, StackAgrees, MapAgrees, IsEligible, Walk, Mentions, DistinctPositions;
    PositionsAreDistinct(clauses, parents, byParent);
    var id := DecisionIsCandidate(pk.env, clauses, m, activity, o);
    ValueOnStack(m, t, stack, o.candidate);
  }

  lemma NothingLinked(pk: Packages)
    ensures TrailKnown(pk, map[], EMPTY_TRAIL) && GatesLinked(pk, map[], [], []) &&
            ClausesStored(pk, [], [[Positive(ROOT)]])
    ensures AllEncoded(pk, [], [], map[], {}, {})
  {
  }

  function SampleWalk(r: Requirement): seq<(VersionSet, Var)> { [(0, 2), (0, 4), (0, 6), (0, 8)] }

  function SampleKind(v: Var): VarKind { if v % 2 == 1 then GateVar(v / 2) else ItemVar }

  function SampleNeeds(v: Var): seq<Requirement> { if v == ROOT then [] else [0] }

  function SampleMatching(x: VersionSet): seq<P.SolvableId> { [4] }

  function SampleConditionals(v: Var): seq<DeferredRequirement> {
    if v == 2 then [DeferredRequirement(P.Solvable(2), 0, 0, [SomeMatch(0, [4])])] else []
  }

  lemma ConditionalWaits(problem: P.Problem, v: Var, e: DeferredRequirement)
    requires problem.matching == SampleMatching && e in SampleConditionals(v)
    ensures VarOfItem(e.solvable) == v && WaitsFor(problem, e, SetsOf(e))
  {
  }

  function SampleGate(r: Requirement): Var { 2 * r + 1 }

  lemma OddIsGate(r: Requirement)
    ensures SampleKind(ROOT) == ItemVar && SampleKind(SampleGate(r)) == GateVar(r)
  {
  }

  lemma WalkIsEven(r: Requirement, v: Var)
    requires Mentions(SampleWalk(r), v)
    ensures SampleKind(v) == ItemVar
  {
    var w := SampleWalk(r);
    var i :| 0 <= i < |w| && w[i].1 == v;
  }

  ghost function SamplePackages(): Packages {
    Packages(Provider(SampleWalk, (r: Requirement) => [0], (v: VersionSet) => v, (d: DisjunctionId) => []),
             P.Problem((r: Requirement) => [], SampleMatching, (x: VersionSet) => [],
                       (s: P.SolvableId) => s, (x: VersionSet) => 0),
             SampleKind, SampleGate, SampleNeeds, SampleConditionals,
             (e: DeferredRequirement) => 0)
  }

  lemma SampleIsGated()
    ensures |SamplePackages().CandidatesOf(0)| == 4 && SamplePackages().needs(2) == [0]
  {
  }

  /** Such packages exist: items are even, gates are odd, every item but the first needs one of four others, and
      one of them needs it also under a condition. */
  lemma PackagesExist()
    ensures SamplePackages().Valid() && |SamplePackages().CandidatesOf(0)| == 4
    ensures SamplePackages().needs(2) == [0] && |SamplePackages().conditionals(2)| == 1
  {
    SampleIsGated();
    var pk := SamplePackages();
    assert pk.env.Valid();
    hide SampleKind, SampleGate, SampleWalk, Mentions, WaitsFor, SetsOf, Provider.Valid;
    OddIsGate(0);
    forall r: Requirement ensures pk.kindOf(pk.gateOf(r)) == GateVar(r) {
      OddIsGate(r);
    }
    forall r: Requirement, v: Var | Mentions(pk.env.walk(r), v) ensures pk.kindOf(v) == ItemVar {
      WalkIsEven(r, v);
    }
    forall v: Var, e | e in pk.conditionals(v)
      ensures VarOfItem(e.solvable) == v && WaitsFor(pk.problem, e, SetsOf(e))
    {
      ConditionalWaits(pk.problem, v, e);
    }
  }

  /** A run from the beginning: whatever happened, and in whatever order, an accepted solution is one. */
  method SolveAlong(pk: Packages, add: real, decay: real, schedule: seq<Step>) returns (chosen: Option<set<Var>>)
    requires pk.Valid()
    ensures chosen.Some? ==> ROOT in chosen.value && forall v :: v in chosen.value ==> pk.kindOf(v) == ItemVar
    ensures chosen.Some? ==> forall v, r :: v in chosen.value && r in pk.needs(v) ==>
                               exists c :: c in pk.CandidatesOf(r) && c in chosen.value
  {
    hide Decider.Valid, Gatekeeper.Valid, DeferredRequirements.Valid, RootSolve.Linked;
    var solve := new RootSolve(pk, add, decay);
    var accepted := solve.Run(schedule);
    chosen := None;
    if accepted {
      KeeperParts(solve.keeper);
      chosen := Some(solve.ChosenItems());
      ChosenIsSolution(pk, solve.tracker.map_, chosen.value);
    }
  }

  lemma ChosenIsSolution(pk: Packages, m: DecisionMap, chosen: set<Var>)
    requires pk.Valid() && Solution(pk, m) && forall v: Var :: v in chosen <==> Chosen(pk, m, v)
    ensures ROOT in chosen
    ensures forall v, r :: v in chosen && r in pk.needs(v) ==> exists c :: c in pk.CandidatesOf(r) && c in chosen
  {
    hide ValueIn;
    forall v, r | v in chosen && r in pk.needs(v) ensures exists c :: c in pk.CandidatesOf(r) && c in chosen {
      var w := pk.env.walk(r);
      var i :| 0 <= i < |w| && ValueIn(m, w[i].1) == Some(true);
      assert Mentions(w, w[i].1);
      assert pk.CandidatesOf(r)[i] in chosen;
    }
  }
}
