/**
 Shared-requires gates while clauses are added during the search.  A gate is forced at the level
 the search has reached, which may be above that of the requirer that implies it; a backjump can
 then strand it, and the solver repairs it before it accepts a solution.
 */
module Gates {
  import opened Sat
  import opened Trails
  import opened Clauses
  import opened DecisionTrackers

  /** A gate with the requirers that imply it, each with the clause that says so. */
  datatype GateEntry = GateEntry(gate: Var, requirers: seq<(Var, ClauseId)>)

  /** Whether an implication may be violated: not at all, only by assignments of the current level, or anywhere. */
  datatype Mode = Clean | Conflicting | MustRestart

  ghost predicate Implication(gates: seq<GateEntry>, gate: Var, requirer: Var, id: ClauseId) {
    exists i :: 0 <= i < |gates| && gates[i].gate == gate && (requirer, id) in gates[i].requirers
  }

  /** Each implication has its clause. */
  ghost predicate ClausesOk(gates: seq<GateEntry>, db: seq<Clause>) {
    forall g: Var, p: Var, id: ClauseId :: Implication(gates, g, p, id) ==>
      id < |db| && db[id] == [Positive(g), Negative(p)] && g != p
  }

  /** No gate is a requirer: requirers are solvables. */
  ghost predicate GatesApart(gates: seq<GateEntry>) {
    forall g: Var, p: Var, id: ClauseId, i :: Implication(gates, g, p, id) && 0 <= i < |gates| ==> gates[i].gate != p
  }

  /** The requirer is installed and the gate is false, both since before position `k`. */
  ghost predicate Missed(t: Trail, k: nat, gate: Var, requirer: Var) {
    FalseBefore(t, k, Positive(gate)) && FalseBefore(t, k, Negative(requirer))
  }

  ghost predicate NoneMissed(t: Trail, k: nat, gates: seq<GateEntry>) {
    forall g: Var, p: Var, id: ClauseId :: Implication(gates, g, p, id) ==> !Missed(t, k, g, p)
  }

  /** The trail ends at the current level, and so does everything that has not been propagated. */
  ghost predicate LevelOk(t: Trail, level: nat, k: nat) {
    && k <= |t.entries|
    && (if |t.entries| == 0 then level == 0 else t.entries[|t.entries| - 1].level == level)
    && (forall i :: k <= i < |t.entries| ==> t.entries[i].level == level)
  }

  /** An unassigned gate with an installed requirer. */
  ghost predicate Stuck(t: Trail, gate: Var, requirer: Var) {
    gate !in t.pos && IsTrue(t, Positive(requirer))
  }

  ghost predicate NoneStuck(t: Trail, gates: seq<GateEntry>) {
    forall g: Var, p: Var, id: ClauseId :: Implication(gates, g, p, id) ==> !Stuck(t, g, p)
  }

  /** The requirer is installed and the gate is false. */
  ghost predicate Broken(t: Trail, gate: Var, requirer: Var) {
    IsTrue(t, Positive(requirer)) && IsFalse(t, Positive(gate))
  }

  ghost predicate SomeBroken(t: Trail, gates: seq<GateEntry>) {
    exists g: Var, p: Var, id: ClauseId :: Implication(gates, g, p, id) && Broken(t, g, p)
  }

  class Gatekeeper {
    const tracker: DecisionTracker
    var db: seq<Clause>
    var gates: seq<GateEntry>
    var level: nat
    /** Which violated implications the current state allows. */
    var mode: Mode

    ghost predicate Valid()
      reads this, tracker
    {
      && tracker.Valid() && LevelsOk(tracker.trail) && ReasonsOk(tracker.trail, db)
      && LevelOk(tracker.trail, level, tracker.propagateIndex) && level <= MAX_LEVEL
      && ClausesOk(gates, db) && GatesApart(gates) &&
         Tolerates(mode, tracker.trail, level, tracker.propagateIndex, gates)
    }

    constructor (tracker: DecisionTracker)
      requires tracker.Valid() && tracker.trail == EMPTY_TRAIL
      ensures Valid() && this.tracker == tracker && db == [[Positive(ROOT)]] && gates == [] && level == 0 &&
              mode == Clean
    {
      this.tracker := tracker;
      db, gates, level, mode := [[Positive(ROOT)]], [], 0, Clean;
    }

    /** What does not touch the trail keeps the invariant. */
    twostate lemma TrailStayed()
      requires old(Valid()) && tracker.Valid() && unchanged(this)
      requires tracker.trail == old(tracker.trail) && tracker.propagateIndex == old(tracker.propagateIndex)
      ensures Valid()
    {
    }

    /** A clause that was just added is violated by the assignments. */
    method ReportConflict()
      requires Valid()
      modifies this`mode
      ensures Valid() && mode == MustRestart
    {
      mode := MustRestart;
    }

    /** Any other clause. */
    method AddClause(c: Clause) returns (id: ClauseId)
      requires Valid()
      modifies this`db
      ensures Valid() && id == |old(db)| && db == old(db) + [c]
    {
      id := |db|;
      ReasonsExtend(tracker.trail, db, [c]);
      db := db + [c];
    }

    /** Takes a decision, which opens a level once everything is propagated. */
    method Decide(v: Var, value: bool, reason: ClauseId)
      requires Valid() && mode == Clean && tracker.propagateIndex == |tracker.stack| && level < MAX_LEVEL
      requires v !in tracker.trail.pos && reason < |db|
      modifies this`level, tracker
      ensures Valid() && level == old(level) + 1 &&
              tracker.trail == Push(old(tracker.trail), Entry(v, value, level, reason))
      ensures tracker.propagateIndex == old(tracker.propagateIndex)
      ensures FloorFell(old(tracker.observed), old(tracker.syncFloor), tracker)
    {
      hide Wf, LevelsOk, ReasonsOk, StackAgrees, MapAgrees, ClausesOk, LevelOk, NoneMissed, IsFalse, IsTrue,
           GatesApart;
      ghost var e := Entry(v, value, level + 1, reason);
      DecisionKeeps(tracker.trail, e, db, level, tracker.propagateIndex, gates);
      level := level + 1;
      var r := tracker.TryAddDecision(Decision(v, value, reason), level);
    }

    /** Assigns what a clause forces, at the current level whatever the levels of its other literals are. */
    method Force(l: Literal, reason: ClauseId)
      requires Valid() && level >= 1
      requires l.variable !in tracker.trail.pos && reason < |db| && Forces(tracker.trail, db[reason], l)
      modifies tracker
      ensures Valid() && tracker.trail == Push(old(tracker.trail), Entry(l.variable, !l.negate, level, reason))
      ensures tracker.propagateIndex == old(tracker.propagateIndex)
      ensures FloorFell(old(tracker.observed), old(tracker.syncFloor), tracker)
    {
      hide Wf, LevelsOk, ReasonsOk, StackAgrees, MapAgrees, ClausesOk, LevelOk, IsFalse, IsTrue, Forces,
           Tolerates, GatesApart;
      ForceKeeps(tracker.trail, l, db, reason, level, tracker.propagateIndex, gates, mode);
      var r := tracker.TryAddDecision(Decision(l.variable, !l.negate, reason), level);
    }

    method AllFalse(candidates: seq<Var>) returns (r: bool)
      requires tracker.Valid()
      ensures r <==> AllCandidatesFalse(tracker.trail, candidates)
    {
      hide Wf, StackAgrees, MapAgrees, IsFalse, IsTrue;
      for i := 0 to |candidates|
        invariant forall j :: 0 <= j < i ==> IsFalse(tracker.trail, Positive(candidates[j]))
      {
        Opposites(tracker.trail, candidates[i]);
        if tracker.AssignedValue(candidates[i]) != Some(false) {
          return false;
        }
      }
      r := true;
    }

    /** A new gate: its candidate clause, and the gate false if all candidates are. */
    method AddGate(gate: Var, candidates: seq<Var>) returns (id: ClauseId)
      requires Valid() && gate !in tracker.trail.pos && gate !in candidates && candidates != []
      requires forall g: Var, p: Var, id: ClauseId :: Implication(gates, g, p, id) ==> p != gate
      modifies this`db, this`gates, tracker
      ensures Valid() && id == |old(db)| && db == old(db) + [[Negative(gate)] + Positives(candidates)]
      ensures gates == old(gates) + [GateEntry(gate, [])]
      ensures FloorFell(old(tracker.observed), old(tracker.syncFloor), tracker)
      ensures tracker.trail ==
        if AllCandidatesFalse(old(tracker.trail), candidates) then
          Push(old(tracker.trail), Entry(gate, false, level, id))
        else old(tracker.trail)
    {
      hide Wf, LevelsOk, ReasonsOk, StackAgrees, MapAgrees, ClausesOk, LevelOk, IsFalse, IsTrue, NoneMissed,
           Forces, Tolerates, GatesApart;
      var conflict := AllFalse(candidates);
      EmptyGate(gates, db, gate, tracker.trail, level, tracker.propagateIndex, mode);
      id := AddClause([Negative(gate)] + Positives(candidates));
      gates := gates + [GateEntry(gate, [])];
      if conflict {
        GateIsForced(tracker.trail, gate, candidates, level, tracker.propagateIndex);
        Force(Negative(gate), id);
      }
    }

    /** A requirer of a gate: the implication, and what it forces now. */
    method AddRequirer(i: nat, parent: Var) returns (id: ClauseId)
      requires Valid() && i < |gates| && forall j :: 0 <= j < |gates| ==> gates[j].gate != parent
      modifies this`db, this`gates, this`mode, tracker
      ensures Valid() && id == |old(db)| && db == old(db) + [[Positive(old(gates)[i].gate), Negative(parent)]]
      ensures gates == old(gates)[i := GateEntry(old(gates)[i].gate, old(gates)[i].requirers + [(parent, id)])]
      ensures FloorFell(old(tracker.observed), old(tracker.syncFloor), tracker)
      ensures var g, t := old(gates)[i].gate, old(tracker.trail);
        && mode == (if IsTrue(t, Positive(parent)) && IsFalse(t, Positive(g)) then MustRestart else old(mode))
        && tracker.trail == (if IsTrue(t, Positive(parent)) && g !in t.pos then Push(t, Entry(g, true, level, id))
                             else if IsFalse(t, Positive(g)) &&
                                  parent !in t.pos then Push(t, Entry(parent, false, level, id)) else t)
    {
      hide Wf, LevelsOk, ReasonsOk, StackAgrees, MapAgrees, ClausesOk, LevelOk, IsFalse, IsTrue, NoneMissed,
           Forces, Tolerates, Implication, GatesApart;
      var gate := gates[i].gate;
      id := AddClause([Positive(gate), Negative(parent)]);
      RequirerAdds(gates, db, i, parent, id, tracker.trail, level, tracker.propagateIndex, mode);
      ImplicationForces(tracker.trail, gate, parent, level, tracker.propagateIndex);
      Opposites(tracker.trail, gate);
      Opposites(tracker.trail, parent);
      gates := gates[i := GateEntry(gate, gates[i].requirers + [(parent, id)])];
      match (tracker.AssignedValue(parent), tracker.AssignedValue(gate)) {
        case (Some(true), Some(false)) => mode := MustRestart;
        case (Some(true), None) => Force(Positive(gate), id);
        case (None, Some(false)) => Force(Negative(parent), id);
        case _ =>
      }
    }

    /** Visits an implication: if its requirer was just installed the gate must be true, and if its gate was just
        made false the requirer must be. `k` is where the assignment is on the trail. */
    method Visit(gate: Var, requirer: Var, id: ClauseId, d: Decision, ghost k: nat) returns (conflict: bool)
      requires Valid() && Implication(gates, gate, requirer, id) && DecisionAt(tracker.trail, k, d)
      modifies tracker
      ensures Valid() && Later(old(tracker.trail), tracker.trail) &&
              tracker.propagateIndex == old(tracker.propagateIndex)
      ensures GrewBy(old(tracker.trail), tracker.trail, gates)
      ensures FloorFell(old(tracker.observed), old(tracker.syncFloor), tracker)
      ensures !conflict ==> Settled(tracker.trail, d, gate, requirer)
      ensures conflict ==> tracker.trail == old(tracker.trail) && IsTrue(tracker.trail, Positive(requirer)) &&
                           IsFalse(tracker.trail, Positive(gate))
    {
      hide Wf, LevelsOk, ReasonsOk, StackAgrees, MapAgrees, LevelOk, IsFalse, IsTrue, NoneMissed, Forces,
           Implication, Later, Settled, Tolerates, GatesApart, DecisionAt;
      ghost var t := tracker.trail;
      ImplicationInvolves(gates, gate, requirer, id);
      ImplicationForces(t, gate, requirer, level, tracker.propagateIndex);
      Opposites(t, gate);
      Opposites(t, requirer);
      TrailGrows(t, level, tracker.propagateIndex, d, k);
      conflict := false;
      if d.variable == requirer && d.value {
        match tracker.AssignedValue(gate) {
          case None => Force(Positive(gate), id);
          case Some(value) => conflict := !value;
        }
      } else if d.variable == gate && !d.value {
        match tracker.AssignedValue(requirer) {
          case None => Force(Negative(requirer), id);
          case Some(value) => conflict := value;
        }
      }
      if !conflict {
        VisitedIsSettled(t, tracker.trail, d, gate, requirer);
      }
    }

    /** Visits all requirers of one gate. */
    method VisitGate(i: nat, d: Decision, ghost k: nat) returns (conflict: bool)
      requires Valid() && i < |gates| && DecisionAt(tracker.trail, k, d)
      modifies tracker
      ensures Valid() && Later(old(tracker.trail), tracker.trail) &&
              tracker.propagateIndex == old(tracker.propagateIndex)
      ensures GrewBy(old(tracker.trail), tracker.trail, gates)
      ensures FloorFell(old(tracker.observed), old(tracker.syncFloor), tracker)
      ensures !conflict ==> GateSettled(tracker.trail, d, gates[i])
      ensures conflict ==> SomeBroken(tracker.trail, gates)
    {
      hide Wf, LevelsOk, ReasonsOk, StackAgrees, MapAgrees, ClausesOk, LevelOk, NoneMissed, Tolerates,
           Implication, Later, Settled, GatesApart, DecisionAt;
      var requirers := gates[i].requirers;
      SameIsLater(tracker.trail);
      for j := 0 to |requirers|
        invariant Valid() && Later(old(tracker.trail), tracker.trail) && DecisionAt(tracker.trail, k, d)
        invariant tracker.propagateIndex == old(tracker.propagateIndex) &&
                  GrewBy(old(tracker.trail), tracker.trail, gates)
        invariant FloorFell(old(tracker.observed), old(tracker.syncFloor), tracker)
        invariant forall x :: 0 <= x < j ==> Settled(tracker.trail, d, gates[i].gate, requirers[x].0)
      {
        var (requirer, id) := requirers[j];
        Listed(gates, i, j);
        ghost var t := tracker.trail;
        conflict := Visit(gates[i].gate, requirer, id, d, k);
        LaterOn(old(tracker.trail), t, tracker.trail, d, k);
        if conflict {
          assert Broken(tracker.trail, gates[i].gate, requirer);
          return;
        }
        forall x | 0 <= x < j ensures Settled(tracker.trail, d, gates[i].gate, requirers[x].0) {
          StaysSettled(t, tracker.trail, d, gates[i].gate, requirers[x].0);
        }
      }
      conflict := false;
    }

    /** Propagates the next assignment through the implications. */
    method PropagateNext() returns (conflict: bool)
      requires Valid() && mode == Clean && tracker.propagateIndex < |tracker.stack|
      modifies this`mode, tracker
      ensures Valid() && Later(old(tracker.trail), tracker.trail) &&
              tracker.propagateIndex == old(tracker.propagateIndex) + 1
      ensures mode == if conflict then Conflicting else Clean
      ensures if conflict then SomeBroken(tracker.trail, gates)
              else forall x :: 0 <= x < |gates| ==>
                     GateSettled(tracker.trail, old(tracker.stack[tracker.propagateIndex]), gates[x])
      ensures GrewBy(old(tracker.trail), tracker.trail, gates)
      ensures FloorFell(old(tracker.observed), old(tracker.syncFloor), tracker)
    {
      hide Wf, LevelsOk, ReasonsOk, StackAgrees, MapAgrees, ClausesOk, LevelOk, NoneMissed, Implication, Later,
           Settled, GateSettled, GatesApart, DecisionAt, CountUpTo, SomeBroken;
      ghost var k := tracker.propagateIndex;
      NextEntry(tracker.stack, tracker.trail, level, k, gates);
      mode := Conflicting;
      var d := tracker.NextUnpropagated();
      SameIsLater(tracker.trail);
      for i := 0 to |gates|
        invariant Valid() && mode == Conflicting && Later(old(tracker.trail), tracker.trail) &&
                  DecisionAt(tracker.trail, k, d.value)
        invariant tracker.propagateIndex == k + 1 && GrewBy(old(tracker.trail), tracker.trail, gates)
        invariant FloorFell(old(tracker.observed), old(tracker.syncFloor), tracker)
        invariant forall x :: 0 <= x < i ==> GateSettled(tracker.trail, d.value, gates[x])
      {
        ghost var t := tracker.trail;
        conflict := VisitGate(i, d.value, k);
        LaterOn(old(tracker.trail), t, tracker.trail, d.value, k);
        if conflict {
          return;
        }
        forall x | 0 <= x < i ensures GateSettled(tracker.trail, d.value, gates[x]) {
          GateStaysSettled(t, tracker.trail, d.value, gates[x]);
        }
      }
      conflict := false;
      AllSettled(old(tracker.trail), tracker.trail, k, d.value, gates);
      mode := Clean;
    }

    /** Returns to a lower level, as learning does: whatever has not been propagated is undone. */
    method Backjump(target: nat)
      requires Valid() && mode != MustRestart && 1 <= target < level
      modifies this`mode, this`level, tracker
      ensures Valid() && mode == Clean && level == target && tracker.trail == UpTo(old(tracker.trail), target)
      ensures tracker.propagateIndex == |tracker.trail.entries|
      ensures FloorFell(old(tracker.observed), old(tracker.syncFloor), tracker)
    {
      hide Wf, LevelsOk, ReasonsOk, StackAgrees, MapAgrees, ClausesOk, LevelOk, NoneMissed, Implication,
           GatesApart, CountUpTo, UpTo;
      BackjumpKeeps(tracker.trail, db, level, tracker.propagateIndex, gates, mode, target);
      tracker.UndoUntil(target);
      level := target;
      mode := Clean;
    }

    /** Starts over: a clause that was just added is violated. */
    method Restart()
      requires Valid()
      modifies this`mode, this`level, tracker
      ensures Valid() && mode == Clean && level == 0 && tracker.trail == EMPTY_TRAIL
      ensures FloorFell(old(tracker.observed), old(tracker.syncFloor), tracker)
    {
      hide Wf, StackAgrees, MapAgrees, ClausesOk, GatesApart;
      tracker.Clear();
      level := 0;
      mode := Clean;
    }

    /** Forces every unassigned gate that has an installed requirer, with the implication as its reason. */
    method ForceStuckGates() returns (forced: bool)
      requires Valid()
      modifies tracker
      ensures Valid() && NoneStuck(tracker.trail, gates) && Later(old(tracker.trail), tracker.trail)
      ensures GrewBy(old(tracker.trail), tracker.trail, gates)
      ensures !forced ==> tracker.trail == old(tracker.trail) && tracker.map_ == old(tracker.map_) &&
                          tracker.stack == old(tracker.stack)
      ensures forced <==> !NoneStuck(old(tracker.trail), gates)
      ensures tracker.propagateIndex == old(tracker.propagateIndex)
      ensures FloorFell(old(tracker.observed), old(tracker.syncFloor), tracker)
    {
      hide Wf, LevelsOk, ReasonsOk, StackAgrees, MapAgrees, ClausesOk, LevelOk, NoneMissed, Implication, Later,
           GatesApart, Tolerates, GateFree, NoneStuck;
      forced := false;
      SameIsLater(tracker.trail);
      for i := 0 to |gates|
        invariant Valid() && Later(old(tracker.trail), tracker.trail) &&
                  tracker.propagateIndex == old(tracker.propagateIndex)
        invariant GrewBy(old(tracker.trail), tracker.trail, gates)
        invariant !forced ==> tracker.trail == old(tracker.trail) && tracker.map_ == old(tracker.map_) &&
                              tracker.stack == old(tracker.stack)
        invariant FloorFell(old(tracker.observed), old(tracker.syncFloor), tracker)
        invariant forced ==> !NoneStuck(old(tracker.trail), gates)
        invariant forall x :: 0 <= x < i ==> GateFree(tracker.trail, gates[x])
      {
        ghost var t := tracker.trail;
        SameIsLater(t);
        var here := ForceGate(i);
        forced := forced || here;
        LaterTrail(old(tracker.trail), t, tracker.trail);
        forall x | 0 <= x < i ensures GateFree(tracker.trail, gates[x]) {
          StaysFree(t, tracker.trail, gates, x, i);
        }
      }
      AllFree(tracker.trail, gates);
    }

    /** Forces one gate if it is stuck. */
    method ForceGate(i: nat) returns (forced: bool)
      requires Valid() && i < |gates|
      modifies tracker
      ensures Valid() && GateFree(tracker.trail, gates[i]) && tracker.propagateIndex == old(tracker.propagateIndex)
      ensures FloorFell(old(tracker.observed), old(tracker.syncFloor), tracker)
      ensures forced ==> !NoneStuck(old(tracker.trail), gates)
      ensures if forced then ForcedGate(old(tracker.trail), tracker.trail, gates[i].gate)
              else tracker.trail == old(tracker.trail) && tracker.map_ == old(tracker.map_) &&
                   tracker.stack == old(tracker.stack)
    {
      hide Wf, LevelsOk, ReasonsOk, StackAgrees, MapAgrees, LevelOk, NoneMissed, Implication, GatesApart,
           Tolerates, IsTrue, IsFalse, Forces;
      var gate := gates[i].gate;
      if tracker.AssignedValue(gate) != None {
        return false;
      }
      var requirers := gates[i].requirers;
      for j := 0 to |requirers|
        invariant forall x :: 0 <= x < j ==> !IsTrue(tracker.trail, Positive(requirers[x].0))
      {
        var (requirer, reason) := requirers[j];
        if tracker.AssignedValue(requirer) == Some(true) {
          Listed(gates, i, j);
          assert Implication(gates, gate, requirer, reason) && Stuck(tracker.trail, gate, requirer);
          ImplicationForces(tracker.trail, gate, requirer, level, tracker.propagateIndex);
          Force(Positive(gate), reason);
          return true;
        }
      }
      forced := false;
    }
  }

  /** What was observed last is kept, and the floor did not rise. */
  ghost predicate FloorFell(observed: seq<Decision>, floor: nat, tracker: DecisionTracker)
    reads tracker
  {
    tracker.observed == observed && tracker.syncFloor <= floor
  }

  /** The variable is a gate or requires one. */
  ghost predicate Involved(gates: seq<GateEntry>, v: Var) {
    exists i :: 0 <= i < |gates| && (gates[i].gate == v || exists id: ClauseId :: (v, id) in gates[i].requirers)
  }

  /** Only variables of implications were assigned. */
  ghost predicate GrewBy(t: Trail, t': Trail, gates: seq<GateEntry>) {
    forall v :: v in t'.pos ==> v in t.pos || Involved(gates, v)
  }

  lemma ImplicationInvolves(gates: seq<GateEntry>, gate: Var, requirer: Var, id: ClauseId)
    requires Implication(gates, gate, requirer, id)
    ensures Involved(gates, gate) && Involved(gates, requirer)
  {
  }

  /** The assignment at position `k`. */
  ghost predicate DecisionAt(t: Trail, k: nat, d: Decision) {
    k < |t.entries| && t.entries[k].variable == d.variable && t.entries[k].value == d.value
  }

  /** More was assigned, and nothing undone. */
  ghost predicate Later(t: Trail, t': Trail) {
    t.entries <= t'.entries && forall v :: v in t.pos ==> v in t'.pos && t'.pos[v] == t.pos[v]
  }

  /** The assignment does not violate the implication. */
  ghost predicate Settled(t: Trail, d: Decision, gate: Var, requirer: Var) {
    && (d.variable == requirer && d.value ==> IsTrue(t, Positive(gate)))
    && (d.variable == gate && !d.value ==> IsFalse(t, Positive(requirer)))
  }

  ghost predicate GateSettled(t: Trail, d: Decision, g: GateEntry) {
    forall x :: 0 <= x < |g.requirers| ==> Settled(t, d, g.gate, g.requirers[x].0)
  }

  /** The gate is assigned, or none of its requirers is installed. */
  ghost predicate GateFree(t: Trail, g: GateEntry) {
    g.gate in t.pos || forall x :: 0 <= x < |g.requirers| ==> !IsTrue(t, Positive(g.requirers[x].0))
  }

  ghost predicate ForcedGate(t: Trail, t': Trail, gate: Var) {
    exists level, reason :: gate !in t.pos && t' == Push(t, Entry(gate, true, level, reason))
  }

  lemma Opposites(t: Trail, v: Var)
    ensures IsTrue(t, Negative(v)) <==> IsFalse(t, Positive(v))
    ensures IsTrue(t, Positive(v)) <==> IsFalse(t, Negative(v))
    ensures IsTrue(t, Positive(v)) ==> v in t.pos && !IsFalse(t, Positive(v))
    ensures IsFalse(t, Positive(v)) ==> v in t.pos
  {
  }

  lemma PushedPart(t: Trail, e: Entry, k: nat, l: Literal)
    requires Wf(t) && e.variable !in t.pos && k <= |t.entries|
    ensures FalseBefore(Push(t, e), k, l) <==> FalseBefore(t, k, l)
  {
  }

  lemma PushKeepsMissed(t: Trail, e: Entry, k: nat, gates: seq<GateEntry>)
    requires Wf(t) && e.variable !in t.pos && k <= |t.entries| && NoneMissed(t, k, gates)
    ensures NoneMissed(Push(t, e), k, gates)
  {
    hide Implication, FalseBefore;
    forall g: Var, p: Var, id: ClauseId | Implication(gates, g, p, id) ensures !Missed(Push(t, e), k, g, p) {
      PushedPart(t, e, k, Positive(g));
      PushedPart(t, e, k, Negative(p));
      assert !Missed(t, k, g, p);
    }
  }

  lemma DecisionKeeps(t: Trail, e: Entry, db: seq<Clause>, level: nat, k: nat, gates: seq<GateEntry>)
    requires Wf(t) && LevelsOk(t) && ReasonsOk(t, db) && LevelOk(t, level, k) && k == |t.entries| &&
             NoneMissed(t, k, gates)
    requires e.variable !in t.pos && e.reason < |db| && e.level == level + 1
    ensures LevelsOk(Push(t, e)) && ReasonsOk(Push(t, e), db) && LevelOk(Push(t, e), level + 1, k) &&
            NoneMissed(Push(t, e), k, gates)
  {
    hide NoneMissed, ReasonsOk;
    PushKeepsLevels(t, e);
    PushKeepsReasons(t, e, db);
    PushKeepsMissed(t, e, k, gates);
  }

  lemma {:induction false} CountAppend(es: seq<Entry>, e: Entry, level: nat)
    requires e.level > level
    ensures CountUpTo(es + [e], level) == CountUpTo(es, level)
  {
    if es != [] {
      CountAppend(es[1..], e, level);
      assert (es + [e])[1..] == es[1..] + [e];
    }
  }

  lemma ForceKeeps(t: Trail, l: Literal, db: seq<Clause>, reason: ClauseId, level: nat, k: nat, gates: seq<GateEntry>,
                   mode: Mode)
    requires Wf(t) && LevelsOk(t) && ReasonsOk(t, db) && LevelOk(t, level, k) && level >= 1 &&
             Tolerates(mode, t, level, k, gates)
    requires l.variable !in t.pos && reason < |db| && Forces(t, db[reason], l)
    ensures var t' := Push(t, Entry(l.variable, !l.negate, level, reason));
      LevelsOk(t') && ReasonsOk(t', db) && LevelOk(t', level, k) && Tolerates(mode, t', level, k, gates)
  {
    hide NoneMissed, ReasonsOk, CountUpTo, IsReason, IsFalse;
    var e := Entry(l.variable, !l.negate, level, reason);
    assert e.TrueLiteral() == l;
    PushKeepsLevels(t, e);
    UnitForces(t, e, db[reason]);
    PushKeepsReasons(t, e, db);
    CountAppend(t.entries, e, level - 1);
    match mode
    case Clean => PushKeepsMissed(t, e, k, gates);
    case Conflicting => PushKeepsMissed(t, e, CountUpTo(t.entries, level - 1), gates);
    case MustRestart =>
  }

  lemma EmptyGate(gates: seq<GateEntry>, db: seq<Clause>, gate: Var, t: Trail, level: nat, k: nat, mode: Mode)
    requires ClausesOk(gates, db) && GatesApart(gates) && Tolerates(mode, t, level, k, gates)
    requires forall g: Var, p: Var, id: ClauseId :: Implication(gates, g, p, id) ==> p != gate
    ensures var gates' := gates + [GateEntry(gate, [])]; GatesApart(gates') && Tolerates(mode, t, level, k, gates')
    ensures forall c: Clause :: ClausesOk(gates + [GateEntry(gate, [])], db + [c])
  {
    hide CountUpTo, Missed;
    var gates' := gates + [GateEntry(gate, [])];
    forall g: Var, p: Var, id: ClauseId ensures Implication(gates', g, p, id) <==> Implication(gates, g, p, id) {
      if Implication(gates, g, p, id) {
        var i :| 0 <= i < |gates| && gates[i].gate == g && (p, id) in gates[i].requirers;
        assert gates'[i] == gates[i];
      }
    }
  }

  lemma GateIsForced(t: Trail, gate: Var, candidates: seq<Var>, level: nat, k: nat)
    requires candidates != [] && AllCandidatesFalse(t, candidates) && gate !in candidates && LevelOk(t, level, k) &&
             LevelsOk(t)
    ensures Forces(t, [Negative(gate)] + Positives(candidates), Negative(gate)) && level >= 1
  {
    var c := [Negative(gate)] + Positives(candidates);
    assert c[0] == Negative(gate);
    assert IsFalse(t, Positive(candidates[0]));
    forall x | x in c && x != Negative(gate) ensures IsFalse(t, x) {
      assert x in Positives(candidates);
    }
  }

  lemma Listed(gates: seq<GateEntry>, i: nat, j: nat)
    requires i < |gates| && j < |gates[i].requirers|
    ensures Implication(gates, gates[i].gate, gates[i].requirers[j].0, gates[i].requirers[j].1)
  {
    assert (gates[i].requirers[j].0, gates[i].requirers[j].1) == gates[i].requirers[j];
  }

  lemma RequirerAdds(gates: seq<GateEntry>, db: seq<Clause>, i: nat, parent: Var, id: ClauseId, t: Trail, level: nat,
                     k: nat, mode: Mode)
    requires i < |gates| && ClausesOk(gates, db) && GatesApart(gates) && Tolerates(mode, t, level, k, gates)
    requires id < |db| && db[id] == [Positive(gates[i].gate), Negative(parent)] &&
             forall j :: 0 <= j < |gates| ==> gates[j].gate != parent
    ensures var gates' := gates[i := GateEntry(gates[i].gate, gates[i].requirers + [(parent, id)])];
      && ClausesOk(gates', db) && GatesApart(gates') && Tolerates(MustRestart, t, level, k, gates')
      && (!(IsTrue(t, Positive(parent)) && IsFalse(t, Positive(gates[i].gate))) ==>
            Tolerates(mode, t, level, k, gates'))
  {
    hide CountUpTo;
    var gates' := gates[i := GateEntry(gates[i].gate, gates[i].requirers + [(parent, id)])];
    forall g: Var, p: Var, x: ClauseId ensures Implication(gates', g, p, x) ==>
      Implication(gates, g, p, x) || (g == gates[i].gate && p == parent && x == id) {
      if Implication(gates', g, p, x) {
        var j :| 0 <= j < |gates'| && gates'[j].gate == g && (p, x) in gates'[j].requirers;
        assert j != i ==> gates'[j] == gates[j];
      }
    }
  }

  /** What the clause of an implication forces. */
  lemma ImplicationForces(t: Trail, gate: Var, requirer: Var, level: nat, k: nat)
    requires Wf(t) && LevelsOk(t) && LevelOk(t, level, k)
    ensures IsTrue(t, Positive(requirer)) ==>
              Forces(t, [Positive(gate), Negative(requirer)], Positive(gate)) && level >= 1
    ensures IsFalse(t, Positive(gate)) ==>
              Forces(t, [Positive(gate), Negative(requirer)], Negative(requirer)) && level >= 1
  {
    var c := [Positive(gate), Negative(requirer)];
    assert c[0] == Positive(gate) && c[1] == Negative(requirer);
    assert |t.entries| > 0 ==> t.entries[0].level <= t.entries[|t.entries| - 1].level;
  }

  lemma SameIsLater(t: Trail)
    ensures Later(t, t)
  {
  }

  lemma TrailGrows(t: Trail, level: nat, k: nat, d: Decision, i: nat)
    requires Wf(t) && DecisionAt(t, i, d)
    ensures Later(t, t) && (if d.value then IsTrue(t, Positive(d.variable)) else IsFalse(t, Positive(d.variable)))
    ensures forall e: Entry :: e.variable !in t.pos ==> Later(t, Push(t, e))
  {
    assert t.pos[t.entries[i].variable] == i;
  }

  lemma LaterTrail(a: Trail, b: Trail, c: Trail)
    requires Later(a, b)
    ensures Later(b, c) ==> Later(a, c)
    ensures (exists gate :: ForcedGate(b, c, gate)) ==> Later(a, c)
  {
  }

  lemma LaterOn(a: Trail, b: Trail, c: Trail, d: Decision, k: nat)
    requires Later(a, b) && Later(b, c) && DecisionAt(b, k, d)
    ensures Later(a, c) && DecisionAt(c, k, d)
  {
  }

  lemma LaterKeeps(t: Trail, t': Trail, l: Literal)
    requires Wf(t) && Later(t, t')
    ensures IsTrue(t, l) ==> IsTrue(t', l)
    ensures IsFalse(t, l) ==> IsFalse(t', l)
  {
  }

  lemma StaysSettled(t: Trail, t': Trail, d: Decision, gate: Var, requirer: Var)
    requires Wf(t) && Later(t, t') && Settled(t, d, gate, requirer)
    ensures Settled(t', d, gate, requirer)
  {
    LaterKeeps(t, t', Positive(gate));
    LaterKeeps(t, t', Positive(requirer));
  }

  lemma GateStaysSettled(t: Trail, t': Trail, d: Decision, g: GateEntry)
    requires Wf(t) && Later(t, t') && GateSettled(t, d, g)
    ensures GateSettled(t', d, g)
  {
    hide Settled, Later, Wf;
    forall x | 0 <= x < |g.requirers| ensures Settled(t', d, g.gate, g.requirers[x].0) {
      StaysSettled(t, t', d, g.gate, g.requirers[x].0);
    }
  }

  lemma VisitedIsSettled(t: Trail, t': Trail, d: Decision, gate: Var, requirer: Var)
    requires Wf(t') && gate != requirer
    requires if d.variable == requirer && d.value then
               IsTrue(t', Positive(gate)) ||
               exists level, reason :: gate !in t.pos && t' == Push(t, Entry(gate, true, level, reason))
             else if d.variable == gate && !d.value then
               IsFalse(t', Positive(requirer)) ||
               exists level, reason :: requirer !in t.pos && t' == Push(t, Entry(requirer, false, level, reason))
             else true
    ensures Settled(t', d, gate, requirer)
  {
  }

  lemma NextEntry(stack: seq<Decision>, t: Trail, level: nat, k: nat, gates: seq<GateEntry>)
    requires Wf(t) && |stack| == |t.entries| && StackAgrees(stack, t) && k < |stack| && LevelsOk(t) &&
             LevelOk(t, level, k) && NoneMissed(t, k, gates)
    ensures DecisionAt(t, k, stack[k]) && LevelOk(t, level, k + 1) && level >= 1
    ensures NoneMissed(t, CountUpTo(t.entries, level - 1), gates)
  {
    assert t.entries[0].level <= t.entries[|t.entries| - 1].level;
    CountBelow(t, level - 1, k);
    FewerMissed(t, k, CountUpTo(t.entries, level - 1), gates);
  }

  lemma FewerMissed(t: Trail, k: nat, n: nat, gates: seq<GateEntry>)
    requires NoneMissed(t, k, gates) && n <= k
    ensures NoneMissed(t, n, gates)
  {
    hide Implication;
    forall g: Var, p: Var, id: ClauseId | Implication(gates, g, p, id) ensures !Missed(t, n, g, p) {
      assert !Missed(t, k, g, p);
    }
  }

  /** When no implication is violated by the assignment at `k`, none is violated up to and including it. */
  lemma AllSettled(t: Trail, t': Trail, k: nat, d: Decision, gates: seq<GateEntry>)
    requires Wf(t) && Wf(t') && Later(t, t') && NoneMissed(t, k, gates) && DecisionAt(t', k, d) && k < |t.entries|
    requires forall x :: 0 <= x < |gates| ==> GateSettled(t', d, gates[x])
    ensures NoneMissed(t', k + 1, gates)
  {
    forall g: Var, p: Var, id: ClauseId | Implication(gates, g, p, id) ensures !Missed(t', k + 1, g, p) {
      var i :| 0 <= i < |gates| && gates[i].gate == g && (p, id) in gates[i].requirers;
      var x :| 0 <= x < |gates[i].requirers| && gates[i].requirers[x] == (p, id);
      assert GateSettled(t', d, gates[i]);
      assert Settled(t', d, g, p);
      assert !Missed(t, k, g, p);
      LaterBefore(t, t', k, Positive(g));
      LaterBefore(t, t', k, Negative(p));
    }
  }

  lemma LaterBefore(t: Trail, t': Trail, k: nat, l: Literal)
    requires Wf(t) && Wf(t') && Later(t, t') && k < |t.entries|
    ensures FalseBefore(t', k + 1, l) ==> FalseBefore(t, k, l) || t'.entries[k].variable == l.variable
  {
    if FalseBefore(t', k + 1, l) {
      var i := t'.pos[l.variable];
      assert t.entries[i] == t'.entries[i];
    }
  }

  lemma BackjumpKeeps(t: Trail, db: seq<Clause>, level: nat, k: nat, gates: seq<GateEntry>, mode: Mode, target: nat)
    requires Wf(t) && LevelsOk(t) && ReasonsOk(t, db) && LevelOk(t, level, k) &&
             Tolerates(mode, t, level, k, gates) && mode != MustRestart && 1 <= target < level
    ensures var t' := UpTo(t, target);
      && LevelsOk(t') && ReasonsOk(t', db) && LevelOk(t', target, |t'.entries|) &&
         NoneMissed(t', |t'.entries|, gates) && t' != t
  {
    hide NoneMissed, ReasonsOk, CountUpTo, LevelsOk, Wf;
    var n := CountUpTo(t.entries, target);
    PrefixKeepsReasons(t, n, db);
    PrefixKeepsLevels(t, n);
    LowerCount(t, target, level - 1);
    CountBelow(t, target, k);
    TopOfPrefix(t, target);
    FewerMissed(t, if mode == Clean then k else CountUpTo(t.entries, level - 1), n, gates);
    PrefixMissed(t, n, gates);
  }

  lemma CountBelow(t: Trail, level: nat, k: nat)
    requires k <= |t.entries| && (k < |t.entries| ==> t.entries[k].level > level)
    ensures CountUpTo(t.entries, level) <= k
  {
  }

  lemma LowerCount(t: Trail, a: nat, b: nat)
    requires a <= b
    ensures CountUpTo(t.entries, a) <= CountUpTo(t.entries, b)
  {
    CountBelow(t, a, CountUpTo(t.entries, b));
  }

  lemma TopOfPrefix(t: Trail, target: nat)
    requires LevelsOk(t) && target >= 1 && |t.entries| > 0 && t.entries[|t.entries| - 1].level > target
    ensures var n := CountUpTo(t.entries, target); 0 < n < |t.entries| && t.entries[n - 1].level == target
  {
  }

  lemma PrefixMissed(t: Trail, n: nat, gates: seq<GateEntry>)
    requires Wf(t) && n <= |t.entries| && NoneMissed(t, n, gates)
    ensures NoneMissed(Prefix(t, n), n, gates)
  {
    hide Implication;
    forall g: Var, p: Var, id: ClauseId | Implication(gates, g, p, id) ensures !Missed(Prefix(t, n), n, g, p) {
      assert !Missed(t, n, g, p);
    }
  }

  lemma StaysFree(t: Trail, t': Trail, gates: seq<GateEntry>, x: nat, i: nat)
    requires GatesApart(gates) && x < |gates| && i < |gates| && GateFree(t, gates[x]) &&
             (t' == t || ForcedGate(t, t', gates[i].gate))
    requires Wf(t)
    ensures GateFree(t', gates[x])
  {
    forall j | 0 <= j < |gates[x].requirers| ensures gates[i].gate != gates[x].requirers[j].0 {
      Listed(gates, x, j);
    }
  }

  lemma AllFree(t: Trail, gates: seq<GateEntry>)
    requires forall x :: 0 <= x < |gates| ==> GateFree(t, gates[x])
    ensures NoneStuck(t, gates)
  {
    forall g: Var, p: Var, id: ClauseId | Implication(gates, g, p, id) ensures !Stuck(t, g, p) {
      var i :| 0 <= i < |gates| && gates[i].gate == g && (p, id) in gates[i].requirers;
      assert GateFree(t, gates[i]);
      var x :| 0 <= x < |gates[i].requirers| && gates[i].requirers[x] == (p, id);
    }
  }

  /** With everything propagated and no gate stuck, every installed requirer has its gate true. */
  lemma GatesFollow(t: Trail, gates: seq<GateEntry>, gate: Var, requirer: Var, id: ClauseId)
    requires Wf(t) && NoneMissed(t, |t.entries|, gates) && NoneStuck(t, gates) && Implication(gates, gate, requirer, id)
    ensures IsTrue(t, Positive(requirer)) ==> IsTrue(t, Positive(gate))
  {
    hide Implication;
    assert !Missed(t, |t.entries|, gate, requirer) && !Stuck(t, gate, requirer);
  }

  ghost predicate Tolerates(mode: Mode, t: Trail, level: nat, k: nat, gates: seq<GateEntry>) {
    match mode
    case Clean => NoneMissed(t, k, gates)
    case Conflicting => level >= 1 && NoneMissed(t, CountUpTo(t.entries, level - 1), gates)
    case MustRestart => true
  }

  ghost predicate AllCandidatesFalse(t: Trail, candidates: seq<Var>) {
    forall j :: 0 <= j < |candidates| ==> IsFalse(t, Positive(candidates[j]))
  }

  /** All literals of the clause but `l` are false. */
  ghost predicate Forces(t: Trail, c: Clause, l: Literal) {
    l in c && forall x :: x in c && x != l ==> IsFalse(t, x)
  }
}
