/**
 The solver: unit propagation over watch lists, conflict analysis with backjumping, and
 the search that combines them, over a fixed set of clauses.
 */
module Solvers {
  import opened Sat
  import opened Clauses
  import opened Trails
  import opened DecisionTrackers
  import opened WatchMaps
  import opened Watching
  import opened Learning
  import opened Database
  import opened Progress
  import opened SearchSteps
  import opened Explaining
  import opened Models
  import opened Support

  /** The clause a propagation could not satisfy. */
  datatype Propagation = Done | Conflict(clause: ClauseId)

  /** The outcome of a search: an assignment, or the clauses that make the problem unsolvable. */
  datatype Verdict = Solved | Unsolvable(core: seq<ClauseId>)

  class Solver {
    const variables: nat
    const tracker: DecisionTracker
    const watchMap: WatchMap

    var kinds: seq<Kind>
    var tables: Tables
    var learntWhy: seq<seq<ClauseId>>
    var negativeAssertions: seq<(Var, ClauseId)>
    var learntClauseIds: seq<ClauseId>

    /** The literals of every clause. */
    ghost var db: seq<Clause>

    /** A solver that knows only that the root must be installed. */
    constructor (candidates: map<Requirement, seq<seq<Var>>>, disjunctions: seq<seq<Literal>>, variables: nat)
      requires 1 <= variables <= MAX_LEVEL
      ensures Valid() && fresh(tracker) && fresh(watchMap)
      ensures this.variables == variables && tracker.trail == EMPTY_TRAIL && tracker.propagateIndex == 0
      ensures kinds == [InstallRoot] && tables == Tables([], candidates, disjunctions)
    {
      this.variables := variables;
      tracker := new DecisionTracker();
      watchMap := new WatchMap();
      kinds, tables := [InstallRoot], Tables([], candidates, disjunctions);
      learntWhy, negativeAssertions, learntClauseIds := [], [], [];
      db := [[Positive(ROOT)]];
      new;
      watchMap.AddUnwatched();
      RootOnly(tables, variables);
    }

    /** Adds the clauses of a problem. */
    method Load(clauses: seq<Kind>)
      requires Valid() && forall k :: k in clauses ==> Admissible(k, tables, variables)
      modifies this, watchMap
      ensures Valid() && kinds == old(kinds) + clauses && tables == old(tables)
    {
      hide KindsOk, AssertionsListed, WhysOk, WatchesFit, ListsExact, DistinctWatches, Wf, StackAgrees,
           MapAgrees, Admissible, Literals;
      for i := 0 to |clauses|
        invariant Valid() && kinds == old(kinds) + clauses[..i] && tables == old(tables)
      {
        assert clauses[i] in clauses;
        AddClause(clauses[i]);
      }
    }

    /** Allocates an original clause and starts watching two of its literals, or lists it as an assertion. */
    method AddClause(k: Kind)
      requires Valid() && Admissible(k, tables, variables)
      modifies this, watchMap
      ensures Valid() && kinds == old(kinds) + [k] && db == old(db) + [Literals(k, tables)]
      ensures tables == old(tables) && learntWhy == old(learntWhy) && learntClauseIds == old(learntClauseIds)
    {
      hide KindsOk, AssertionsListed, WhysOk, WatchesFit, ListsExact, DistinctWatches, Wf, StackAgrees,
           MapAgrees, Literals;
      var c := Literals(k, tables);
      AddWatches(k);
      assert |db| == |kinds| >= 1 by { KindsSize(kinds, tables, db, variables); }
      if |c| == 1 {
        negativeAssertions := negativeAssertions + [(c[0].variable, |kinds|)];
      }
      kinds := kinds + [k];
      db := db + [c];
      InitialWatchesAreLiterals(k, tables);
      AddedKindsOk(old(kinds), old(db), tables, variables, k);
      AddedAssertionsListed(old(db), old(kinds), c, k, old(negativeAssertions), negativeAssertions, learntClauseIds);
      WhysKept(old(db), old(kinds), learntWhy, c, k);
    }

    method AddWatches(k: Kind)
      requires watchMap.Valid() && WatchesFit(db, watchMap.watches) && WellFormed(k, tables)
      modifies watchMap
      ensures watchMap.Valid() && WatchesFit(db + [Literals(k, tables)], watchMap.watches)
    {
      InitialWatchesAreLiterals(k, tables);
      match InitialWatches(k, tables) {
        case Some((first, second)) =>
          watchMap.StartWatching(first, second);
        case None =>
          watchMap.AddUnwatched();
      }
      assert forall c :: 0 <= c < |db| ==> FitsClause(db[c], old(watchMap.watches)[c]);
    }

    ghost predicate Valid()
      reads this, tracker, watchMap
    {
      Static() && tracker.Valid() && Watched()
    }

    /** The clauses, the assertions among them and the derivations of the learnt ones. */
    ghost predicate Static()
      reads this
    {
      && variables <= MAX_LEVEL
      && KindsOk(kinds, tables, db, variables)
      && AssertionsListed(db, kinds, negativeAssertions, learntClauseIds)
      && |learntWhy| == |tables.learnts| && WhysOk(db, kinds, learntWhy)
    }

    ghost predicate Watched()
      reads this, watchMap
    {
      watchMap.Valid() && WatchesFit(db, watchMap.watches)
    }

    /** What every step of the search keeps at `level`, with the watches checked for the first `propagated` entries. */
    ghost predicate Searching(level: nat, propagated: nat)
      reads this, tracker, watchMap
    {
      && Valid() && OnTrail(level)
      && propagated <= |tracker.trail.entries|
      && WatchesOk(tracker.trail, propagated, watchMap.watches)
    }

    /** The state between two steps: everything below the current level is propagated. */
    ghost predicate Steady(level: nat)
      reads this, tracker, watchMap
    {
      Searching(level, tracker.propagateIndex) && Below(tracker.trail, level) <= tracker.propagateIndex
    }

    /** The trail of a search at `level`. */
    ghost predicate OnTrail(level: nat)
      reads this, tracker
    {
      tracker.Valid() && TrailOk(tracker.trail, db, variables, level) && UnitsOk(tracker.trail, db, level)
    }

    /** Records that clause `c` forces its literal `l`, all others being false. */
    method Force(l: Literal, level: nat, c: ClauseId) returns (r: Attempt)
      requires OnTrail(level) && variables <= MAX_LEVEL
      requires 0 < c < |db| && l in db[c] && l.variable < variables
      requires forall m :: m in db[c] && m != l ==> IsFalse(tracker.trail, m)
      modifies tracker
      ensures OnTrail(level)
      ensures r == Added <==> l.variable !in old(tracker.trail.pos)
      ensures r == Contradicted <==> IsFalse(old(tracker.trail), l)
      ensures r != Contradicted ==> IsTrue(tracker.trail, l)
      ensures tracker.trail == if r == Added then Push(old(tracker.trail), Entry(l.variable, !l.negate, level, c))
                               else old(tracker.trail)
      ensures tracker.propagateIndex == old(tracker.propagateIndex)
    {
      hide Wf, LevelsOk, ReasonsOk, ShapeOk, StackAgrees, MapAgrees, UnitsOk;
      ghost var t := tracker.trail;
      TrailBounds(t, db, variables, level);
      r := tracker.TryAddDecision(Decision(l.variable, !l.negate, c), level);
      if r == Added {
        ghost var e := Entry(l.variable, !l.negate, level, c);
        PushKeepsWf(t, e);
        ForcedKeepsTrail(t, db, variables, level, l, c);
        PushKeepsUnits(t, e, db, level);
        assert e.TrueLiteral() == l;
      }
    }

    /** Asserts the negative assertions. */
    method DecideAssertions(level: nat) returns (r: Propagation)
      requires Static() && OnTrail(level)
      modifies tracker
      ensures OnTrail(level) && Extends(old(tracker.trail), tracker.trail)
      ensures tracker.propagateIndex == old(tracker.propagateIndex)
      ensures r.Done? ==> forall i :: 0 <= i < |negativeAssertions| ==>
                            IsTrue(tracker.trail, Negative(negativeAssertions[i].0))
      ensures r.Conflict? ==> 0 < r.clause < |db| && |db[r.clause]| == 1 && AllFalse(tracker.trail, db[r.clause])
    {
      hide Wf, LevelsOk, ReasonsOk, ShapeOk, MapAgrees, StackAgrees, UnitsOk, WhysOk;
      for i := 0 to |negativeAssertions|
        invariant OnTrail(level) && Extends(old(tracker.trail), tracker.trail)
        invariant tracker.propagateIndex == old(tracker.propagateIndex)
        invariant forall j :: 0 <= j < i ==> IsTrue(tracker.trail, Negative(negativeAssertions[j].0))
      {
        var (v, c) := negativeAssertions[i];
        ghost var t := tracker.trail;
        assert db[c] == [Negative(v)] && db[c][0] in db[c] && ClauseOk(kinds[c], tables, db[c], variables);
        var decided := Force(Negative(v), level, c);
        if decided == Contradicted {
          return Conflict(c);
        }
        ExtendsKeepsValues(t, tracker.trail);
      }
      r := Done;
    }

    /** Asserts the learnt clauses of a single literal. */
    method DecideLearned(level: nat) returns (r: Propagation)
      requires Static() && OnTrail(level)
      modifies tracker
      ensures OnTrail(level) && Extends(old(tracker.trail), tracker.trail)
      ensures tracker.propagateIndex == old(tracker.propagateIndex)
      ensures r.Done? ==> forall i :: 0 <= i < |learntClauseIds| && |db[learntClauseIds[i]]| == 1 ==>
                            IsTrue(tracker.trail, db[learntClauseIds[i]][0])
      ensures r.Conflict? ==> 0 < r.clause < |db| && |db[r.clause]| == 1 && AllFalse(tracker.trail, db[r.clause])
    {
      hide Wf, LevelsOk, ReasonsOk, ShapeOk, MapAgrees, StackAgrees, UnitsOk, WhysOk;
      for i := 0 to |learntClauseIds|
        invariant OnTrail(level) && Extends(old(tracker.trail), tracker.trail)
        invariant tracker.propagateIndex == old(tracker.propagateIndex)
        invariant forall j :: 0 <= j < i && |db[learntClauseIds[j]]| == 1 ==>
                    IsTrue(tracker.trail, db[learntClauseIds[j]][0])
      {
        var c := learntClauseIds[i];
        assert ClauseOk(kinds[c], tables, db[c], variables);
        var literals := Literals(kinds[c], tables);
        if |literals| == 1 {
          ghost var t := tracker.trail;
          assert literals[0] in db[c];
          var decided := Force(literals[0], level, c);
          if decided == Contradicted {
            return Conflict(c);
          }
          ExtendsKeepsValues(t, tracker.trail);
        }
      }
      r := Done;
    }

    /** The first literal of a clause that is not false and is not its other watch. */
    method NextUnwatched(c: ClauseId, other: Literal) returns (r: Option<Literal>)
      requires Static() && tracker.Valid() && c < |db|
      ensures r.Some? ==> r.value in db[c] && r.value != other && !IsFalse(tracker.trail, r.value)
      ensures r.None? ==> forall l :: l in db[c] && l != other ==> IsFalse(tracker.trail, l)
    {
      assert ClauseOk(kinds[c], tables, db[c], variables);
      var literals := Literals(kinds[c], tables);
      for i := 0 to |literals|
        invariant forall j :: 0 <= j < i && literals[j] != other ==> IsFalse(tracker.trail, literals[j])
      {
        if literals[i] != other && tracker.Eval(literals[i]) != Some(false) {
          return Some(literals[i]);
        }
      }
      r := None;
    }

    ghost function ClauseAt(c: ClauseId): Clause
      reads this
    {
      if c < |db| then db[c] else []
    }

    /** The clauses of the list of entry `q` that are still to be visited when the cursor stands on node `i`. */
    ghost predicate VisitingFrom(level: nat, q: nat, literal: Literal, i: nat)
      reads this, tracker, watchMap
    {
      && Watched() && OnTrail(level)
      && q < |tracker.trail.entries| && tracker.trail.entries[q].level == level
      && tracker.trail.entries[q].FalseLiteral() == literal
      && i <= |ListOf(watchMap.lists, literal)|
      && Visiting(tracker.trail, q, watchMap.watches, ListOf(watchMap.lists, literal)[i..])
    }

    /** The literal the current clause watches besides the cursor's. */
    function OtherWatch(cur: Cursor): Literal
      reads watchMap
    {
      if cur.clause < |watchMap.watches| && watchMap.watches[cur.clause].Some? && cur.index <= 1
      then watchMap.watches[cur.clause].value.Lit(1 - cur.index) else cur.literal
    }

    /** Steps over a clause whose other watch is true. */
    method SkipClause(cur: Cursor, level: nat, ghost q: nat, ghost i: nat) returns (next: Option<Cursor>)
      requires VisitingFrom(level, q, cur.literal, i) && watchMap.Stands(cur, i)
      requires WatchOk(tracker.trail, q + 1, watchMap.watches[cur.clause])
      ensures VisitingFrom(level, q, cur.literal, i + 1)
      ensures watchMap.Reaches(next, cur.literal, i + 1)
    {
      hide Wf, LevelsOk, ReasonsOk, ShapeOk, MapAgrees, StackAgrees, UnitsOk, WatchesFit, ListsExact,
           DistinctWatches, WatchOk;
      ghost var s := ListOf(watchMap.lists, cur.literal);
      NodeIsOnce(watchMap.heads, watchMap.watches, watchMap.lists, cur.literal, i);
      assert s[i..] == [cur.clause] + s[i + 1..];
      VisitedOne(tracker.trail, q, watchMap.watches, watchMap.watches, cur.clause, s[i + 1..]);
      next := watchMap.Next(cur, i);
    }

    /** Moves the watch of the current clause to another of its literals. */
    method MoveWatch(cur: Cursor, watch: Literal, level: nat, ghost q: nat, ghost i: nat) returns (next: Option<Cursor>)
      requires VisitingFrom(level, q, cur.literal, i) && watchMap.Stands(cur, i) && cur.clause < |db|
      requires !IsTrue(tracker.trail, OtherWatch(cur)) && watch != OtherWatch(cur)
      requires watch in db[cur.clause] && !IsFalse(tracker.trail, watch)
      modifies watchMap
      ensures VisitingFrom(level, q, cur.literal, i)
      ensures ListOf(watchMap.lists, cur.literal) == Without(old(ListOf(watchMap.lists, cur.literal)), i)
      ensures watchMap.Reaches(next, cur.literal, i)
    {
      hide LevelsOk, ReasonsOk, ShapeOk, MapAgrees, StackAgrees, UnitsOk, ListsExact, DistinctWatches,
           WatchesFit, WatchOk, Wf, Visiting;
      ghost var s, ws, t := ListOf(watchMap.lists, cur.literal), watchMap.watches, tracker.trail;
      NodeIsOnce(watchMap.heads, ws, watchMap.lists, cur.literal, i);
      WatchedFalse(t, q);
      assert s[i..] == [cur.clause] + s[i + 1..];
      VisitingFirst(t, q, ws, cur.clause, s[i + 1..]);
      FitsTwo(db, ws, cur.clause);
      next := watchMap.Update(cur, watch, i);
      MovedWatchOk(t, q, ws[cur.clause].value, cur.index, watch, watchMap.watches[cur.clause]);
      VisitedOne(t, q, ws, watchMap.watches, cur.clause, s[i + 1..]);
      FitsAfterMove(db, ws, watchMap.watches, cur.clause, cur.index, watch);
      assert Without(s, i)[i..] == s[i + 1..];
    }

    /** Makes the other watch of the current clause true, all its other literals being false. */
    method ForceOther(cur: Cursor, level: nat, ghost q: nat,
                      ghost i: nat) returns (r: Propagation, next: Option<Cursor>)
      requires Static() && VisitingFrom(level, q, cur.literal, i) && watchMap.Stands(cur, i) && 0 < cur.clause < |db|
      requires !IsTrue(tracker.trail, OtherWatch(cur))
      requires forall l :: l in ClauseAt(cur.clause) && l != OtherWatch(cur) ==> IsFalse(tracker.trail, l)
      modifies tracker
      ensures OnTrail(level) && Extends(old(tracker.trail), tracker.trail)
      ensures tracker.propagateIndex == old(tracker.propagateIndex)
      ensures r.Done? ==> VisitingFrom(level, q, cur.literal, i + 1) && watchMap.Reaches(next, cur.literal, i + 1)
      ensures r.Conflict? ==> tracker.trail == old(tracker.trail) && r.clause == cur.clause &&
                              AllFalse(tracker.trail, ClauseAt(cur.clause))
    {
      hide LevelsOk, ReasonsOk, ShapeOk, MapAgrees, StackAgrees, UnitsOk, ListsExact, DistinctWatches,
           WatchesFit, WatchOk, Wf, Visiting, WhysOk, AssertionsListed;
      ghost var s, ws, t := ListOf(watchMap.lists, cur.literal), watchMap.watches, tracker.trail;
      var other := OtherWatch(cur);
      FitsTwo(db, ws, cur.clause);
      assert ClauseOk(kinds[cur.clause], tables, db[cur.clause], variables);
      var decided := Force(other, level, cur.clause);
      if decided == Contradicted {
        return Conflict(cur.clause), None;
      }
      NodeIsOnce(watchMap.heads, ws, watchMap.lists, cur.literal, i);
      assert s[i..] == [cur.clause] + s[i + 1..];
      VisitingFirst(t, q, ws, cur.clause, s[i + 1..]);
      ForcedWatchOk(t, q, ws[cur.clause].value, cur.index, Entry(other.variable, !other.negate, level, cur.clause));
      ExtendsKeepsVisiting(t, tracker.trail, q, ws, s[i..]);
      next := SkipClause(cur, level, q, i);
      r := Done;
    }

    /** The literal the watch of the current clause can move to; a clause of two literals has none. */
    method Replacement(cur: Cursor) returns (watch: Option<Literal>)
      requires Static() && tracker.Valid() && cur.clause < |kinds|
      requires OtherWatch(cur) in ClauseAt(cur.clause) && cur.literal in ClauseAt(cur.clause)
      requires OtherWatch(cur) != cur.literal && IsFalse(tracker.trail, cur.literal)
      ensures watch.Some? ==> watch.value in ClauseAt(cur.clause) && watch.value != OtherWatch(cur) &&
                              !IsFalse(tracker.trail, watch.value)
      ensures watch.None? ==> forall l :: l in ClauseAt(cur.clause) && l != OtherWatch(cur) ==>
                                IsFalse(tracker.trail, l)
    {
      hide Wf, MapAgrees, StackAgrees, WhysOk, AssertionsListed, IsFalse;
      assert ClauseOk(kinds[cur.clause], tables, db[cur.clause], variables);
      if kinds[cur.clause].IsBinary() {
        TwoLiterals(db[cur.clause], cur.literal, OtherWatch(cur));
        watch := None;
      } else {
        watch := NextUnwatched(cur.clause, OtherWatch(cur));
      }
    }

    /** Visits the clause under the cursor: skips it, moves its watch, or forces its other watch. */
    method VisitClause(cur: Cursor, level: nat, ghost q: nat, ghost i: nat)
      returns (r: Propagation, next: Option<Cursor>, ghost j: nat)
      requires Static() && VisitingFrom(level, q, cur.literal, i) && watchMap.Stands(cur, i)
      modifies tracker, watchMap
      ensures Watched() && OnTrail(level) && Extends(old(tracker.trail), tracker.trail)
      ensures tracker.propagateIndex == old(tracker.propagateIndex)
      ensures r.Done? ==> VisitingFrom(level, q, cur.literal, j) && watchMap.Reaches(next, cur.literal, j)
      ensures r.Done? ==> |ListOf(watchMap.lists,
                                  cur.literal)| - j == old(|ListOf(watchMap.lists, cur.literal)|) - i - 1
      ensures r.Conflict? ==> 0 < r.clause < |db| && AllFalse(tracker.trail, ClauseAt(r.clause)) &&
                              cur.literal in ClauseAt(r.clause)
      ensures r.Conflict? ==> WatchesOk(tracker.trail, q, watchMap.watches)
    {
      hide LevelsOk, ReasonsOk, ShapeOk, MapAgrees, StackAgrees, UnitsOk, ListsExact, DistinctWatches,
           WatchesFit, WatchOk, Wf, Visiting, WhysOk, AssertionsListed, KindsOk, IsFalse, IsTrue, WatchesOk;
      r, j := Done, i;
      var other := OtherWatch(cur);
      assert IsFalse(tracker.trail, cur.literal) by { WatchedFalse(tracker.trail, q); }
      NodeIsOnce(watchMap.heads, watchMap.watches, watchMap.lists, cur.literal, i);
      FitsTwo(db, watchMap.watches, cur.clause);
      KindsSize(kinds, tables, db, variables);
      if tracker.Eval(other) == Some(true) {
        assert WatchOk(tracker.trail, q + 1, watchMap.watches[cur.clause]) by { TrueOther(cur, level, q, i); }
        next := SkipClause(cur, level, q, i);
        j := i + 1;
        return;
      }
      var watch := Replacement(cur);
      if watch.Some? {
        next := MoveWatch(cur, watch.value, level, q, i);
      } else {
        RootIsUnwatched(kinds, tables, db, variables, watchMap.watches, cur.clause);
        FewerPropagated(tracker.trail, q, q, watchMap.watches, ListOf(watchMap.lists, cur.literal)[i..]);
        r, next := ForceOther(cur, level, q, i);
        j := i + 1;
      }
    }

    lemma TrueOther(cur: Cursor, level: nat, q: nat, i: nat)
      requires VisitingFrom(level, q, cur.literal, i) && watchMap.Stands(cur, i) &&
               IsTrue(tracker.trail, OtherWatch(cur))
      requires IsWatching(watchMap.watches, cur.clause, cur.literal)
      ensures WatchOk(tracker.trail, q + 1, watchMap.watches[cur.clause])
    {
      hide ReasonsOk, MapAgrees, StackAgrees, UnitsOk, ListsExact, DistinctWatches, WatchesFit, WatchOk, Wf,
           Visiting, IsTrue;
      var s := ListOf(watchMap.lists, cur.literal);
      assert s[i..] == [cur.clause] + s[i + 1..];
      VisitingFirst(tracker.trail, q, watchMap.watches, cur.clause, s[i + 1..]);
      SkippedWatchOk(tracker.trail, q, watchMap.watches[cur.clause].value, cur.index);
    }

    /** Propagates the entry that made `literal` false through every clause that watches it. */
    method PropagateEntry(literal: Literal, level: nat, ghost q: nat) returns (r: Propagation)
      requires Static() && Watched() && OnTrail(level)
      requires q < |tracker.trail.entries| && tracker.trail.entries[q].level == level
      requires tracker.trail.entries[q].FalseLiteral() == literal
      requires WatchesOk(tracker.trail, q, watchMap.watches)
      modifies tracker, watchMap
      ensures Watched() && OnTrail(level) && Extends(old(tracker.trail), tracker.trail)
      ensures tracker.propagateIndex == old(tracker.propagateIndex)
      ensures r.Done? ==> WatchesOk(tracker.trail, q + 1, watchMap.watches)
      ensures r.Conflict? ==> 0 < r.clause < |db| && AllFalse(tracker.trail, ClauseAt(r.clause)) &&
                              literal in ClauseAt(r.clause)
      ensures r.Conflict? ==> WatchesOk(tracker.trail, q, watchMap.watches)
    {
      hide LevelsOk, ReasonsOk, ShapeOk, MapAgrees, StackAgrees, UnitsOk, DistinctWatches, WatchesFit, WatchOk,
           Wf, Visiting, WhysOk, AssertionsListed, KindsOk, IsFalse, IsListOf, WatchesOk;
      ghost var i: nat := 0;
      var next := watchMap.Start(literal);
      assert IsListOf(watchMap.heads, watchMap.watches, literal, ListOf(watchMap.lists, literal));
      StartVisiting(tracker.trail, q, watchMap.heads, watchMap.watches, ListOf(watchMap.lists, literal));
      assert ListOf(watchMap.lists, literal)[0..] == ListOf(watchMap.lists, literal);
      while next.Some?
        invariant VisitingFrom(level, q, literal, i) && watchMap.Reaches(next, literal, i)
        invariant Extends(old(tracker.trail), tracker.trail) && tracker.propagateIndex == old(tracker.propagateIndex)
        decreases |ListOf(watchMap.lists, literal)| - i
      {
        ghost var before := tracker.trail;
        r, next, i := VisitClause(next.value, level, q, i);
        if r.Conflict? {
          return;
        }
      }
      assert ListOf(watchMap.lists, literal)[i..] == [];
      DoneVisiting(tracker.trail, q, watchMap.watches);
      r := Done;
    }

    /** Unit propagation at `level`: to a fixpoint, or to a clause all of whose literals are false. */
    method Propagate(level: nat) returns (r: Propagation)
      requires Steady(level)
      modifies tracker, watchMap
      ensures Searching(level, Below(tracker.trail, level)) && Extends(old(tracker.trail), tracker.trail)
      ensures r.Done? ==> Steady(level) && tracker.propagateIndex == |tracker.trail.entries| &&
                          UnitsTrue(tracker.trail, db)
      ensures r.Conflict? ==> 0 < r.clause < |db| && Conflicting(tracker.trail, level, db[r.clause])
    {
      hide LevelsOk, ReasonsOk, ShapeOk, MapAgrees, StackAgrees, UnitsOk, ListsExact, DistinctWatches,
           WatchesFit, WatchOk, Wf, WhysOk, AssertionsListed, KindsOk, IsFalse, WatchesOk, Conflicting,
           AllFalse, Below, UnitsTrue, Extends;
      r := DecideAll(level);
      if r.Conflict? {
        return;
      }
      while true
        invariant Steady(level) && Extends(old(tracker.trail), tracker.trail) && UnitsTrue(tracker.trail, db)
        decreases variables - tracker.propagateIndex
      {
        ghost var q, t := tracker.propagateIndex, tracker.trail;
        var d := tracker.NextUnpropagated();
        if d == None {
          BelowShrinks(t, db, variables, level, q, watchMap.watches);
          return Done;
        }
        TrailBounds(t, db, variables, level);
        UnpropagatedAtLevel(t, db, variables, level, q, tracker.stack);
        var literal := Literal(d.value.variable, d.value.value);
        r := PropagateEntry(literal, level, q);
        AfterEntry(old(tracker.trail), t, tracker.trail, db, variables, level);
        if r.Conflict? {
          ConflictAtLevel(t, tracker.trail, q, db[r.clause], literal, level);
          FewerWatched(tracker.trail, q, Below(tracker.trail, level), watchMap.watches);
          return;
        }
      }
    }

    /** The assertions, negative and learnt, at the start of a propagation. */
    method DecideAll(level: nat) returns (r: Propagation)
      requires Steady(level)
      modifies tracker
      ensures Steady(level) && Searching(level, Below(tracker.trail, level)) &&
              Extends(old(tracker.trail), tracker.trail)
      ensures r.Done? ==> UnitsTrue(tracker.trail, db)
      ensures r.Conflict? ==> 0 < r.clause < |db| && Conflicting(tracker.trail, level, db[r.clause])
    {
      hide LevelsOk, ReasonsOk, ShapeOk, MapAgrees, StackAgrees, UnitsOk, ListsExact, DistinctWatches,
           WatchesFit, WatchOk, Wf, WhysOk, AssertionsListed, KindsOk, IsTrue, WatchesOk, Conflicting, AllFalse,
           Below, UnitsTrue, Extends;
      ghost var t := tracker.trail;
      r := DecideAssertions(level);
      AfterAssertions(t, tracker.trail, db, variables, level, tracker.propagateIndex, watchMap.watches);
      if r.Conflict? {
        AssertionConflict(tracker.trail, db, variables, level, r.clause);
        return;
      }
      ghost var u := tracker.trail;
      r := DecideLearned(level);
      AfterAssertions(u, tracker.trail, db, variables, level, tracker.propagateIndex, watchMap.watches);
      ExtendsTransitive(t, u, tracker.trail);
      if r.Conflict? {
        AssertionConflict(tracker.trail, db, variables, level, r.clause);
        return;
      }
      ExtendsKeepsValues(u, tracker.trail);
      KindsSize(kinds, tables, db, variables);
      AssertionsHold(tracker.trail, db, kinds, tables, variables, level, negativeAssertions, learntClauseIds);
    }

    /** Notes every literal of a clause except the one that was resolved on. */
    method VisitLiterals(c: ClauseId, skip: Option<Var>, current: nat, s: Analysis, ghost t: Trail, ghost k: nat)
      returns (r: Analysis)
      requires Static() && tracker.Valid() && c < |kinds|
      requires Wf(t) && k <= |t.entries| && tracker.trail == Prefix(t, k)
      requires forall i :: 0 <= i < |t.entries| ==> 1 <= t.entries[i].level <= current
      requires forall l :: l in ClauseAt(c) && Some(l.variable) != skip ==> l.variable in t.pos && t.pos[l.variable] < k
      requires AnalysisOk(t, current, k, s)
      ensures AnalysisOk(t, current, k, r) && s.seen <= r.seen
      ensures forall l :: l in ClauseAt(c) && Some(l.variable) != skip ==> l.variable in r.seen
      ensures forall v :: v in r.seen ==> v in s.seen || v in Variables(ClauseAt(c))
    {
      hide AnalysisOk, MapAgrees, StackAgrees, WhysOk, AssertionsListed, Prefix, Variables;
      assert ClauseOk(kinds[c], tables, db[c], variables);
      var literals := Literals(kinds[c], tables);
      r := s;
      for i := 0 to |literals|
        invariant AnalysisOk(t, current, k, r) && s.seen <= r.seen
        invariant forall j :: 0 <= j < i && Some(literals[j].variable) != skip ==> literals[j].variable in r.seen
        invariant forall v :: v in r.seen ==> v in s.seen || v in Variables(ClauseAt(c))
      {
        var v := literals[i].variable;
        if Some(v) != skip {
          assert literals[i] in ClauseAt(c);
          PrefixAgrees(t, k, v);
          SeeOk(t, current, k, r, v);
          assert v in Variables(ClauseAt(c)) by { InVariables(ClauseAt(c), literals[i]); }
          r := See(r, Literal(v, tracker.AssignedValue(v).value), tracker.Level(v), current);
        }
      }
    }

    /** Undoes decisions until one is undone that was seen. */
    method UndoToSeen(seen: set<Var>, ghost t: Trail, ghost k0: nat, ghost level: nat)
      returns (d: Decision, current: nat, ghost k: nat)
      requires tracker.Valid() && Wf(t) && LevelsOk(t) && TopLevel(t, level) && level >= 2
      requires k0 <= |t.entries| && tracker.trail == Prefix(t, k0) && |Open(t, level, k0, seen)| > 0
      modifies tracker
      ensures tracker.Valid() && 1 <= k < k0 && tracker.trail == Prefix(t, k) && tracker.propagateIndex == k
      ensures d == Decision(t.entries[k].variable, t.entries[k].value, t.entries[k].reason)
      ensures d.variable in seen && t.entries[k].level == level && current == t.entries[k - 1].level
      ensures Open(t, level, k + 1, seen) == Open(t, level, k0, seen)
      ensures Resolvent(t, level, k + 1, seen) == Resolvent(t, level, k0, seen)
    {
      hide MapAgrees, Wf, LevelsOk, TopLevel, Open, Resolvent;
      k := k0;
      while true
        invariant tracker.Valid() && k <= k0 && tracker.trail == Prefix(t, k)
        invariant Open(t, level, k, seen) == Open(t, level, k0, seen) &&
                  Resolvent(t, level, k, seen) == Resolvent(t, level, k0, seen)
        decreases k
      {
        OpenIsBelow(t, level, k, seen);
        PrefixOfPrefix(t, k, k - 1);
        ghost var stack := tracker.stack;
        assert stack[k - 1] == Decision(t.entries[k - 1].variable, t.entries[k - 1].value, t.entries[k - 1].reason);
        d, current := tracker.UndoLast();
        k := k - 1;
        if d.variable in seen {
          return;
        }
        SkipEntry(t, level, k, seen);
      }
    }

    /** Derives an asserting clause from a conflict and jumps back to the level at which it asserts. */
    method Analyze(level: nat, clause: ClauseId) returns (target: nat, learnt: Clause, why: seq<ClauseId>)
      requires Static() && OnTrail(level) && level >= 2
      requires 0 < clause < |db| && Conflicting(tracker.trail, level, db[clause])
      modifies tracker
      ensures tracker.Valid() && tracker.trail == UpTo(old(tracker.trail), target)
      ensures tracker.propagateIndex == |tracker.trail.entries|
      ensures 1 <= target < level && Asserting(tracker.trail, target, learnt)
      ensures forall i :: 0 <= i < |why| ==> 0 < why[i] < |db|
      ensures Entails(db, Elements(why), Elements(learnt))
      ensures (forall l :: l in learnt ==> l.variable < variables) && AllOccur(db, learnt)
    {
      hide LevelsOk, ReasonsOk, ShapeOk, MapAgrees, StackAgrees, UnitsOk, Wf, WhysOk, AssertionsListed, KindsOk,
           Entails, SeenOccurs, AllOccur, AnalysisOk, Open, Resolvent, Asserting, TopLevel, Finish, LevelOf,
           UpTo, CountUpTo, IsFalse, IsTrue, Assigned;
      ghost var t := tracker.trail;
      ghost var k: nat := |t.entries|;
      AnalyzedTrail(t, db, variables, level);
      WholePrefix(t);
      KindsSize(kinds, tables, db, variables);
      EmptyAnalysis(t, level, k);
      why := [clause];
      AllAssigned(t, db[clause]);
      var s := VisitLiterals(clause, None, level, EMPTY_ANALYSIS, t, k);
      assert s.seen == Variables(db[clause]);
      AnalysisStarts(t, db, variables, level, clause, s);
      ConflictOccurs(t, db, clause);
      var current := level;
      var d;
      while true
        invariant tracker.Valid() && k <= |t.entries| && tracker.trail == Prefix(t, k) && current == level
        invariant AnalysisOk(t, level, k, s) && s.causes > 0 && SeenOccurs(t, db, s.seen)
        invariant forall i :: 0 <= i < |why| ==> 0 < why[i] < |db|
        invariant Entails(db, Elements(why), Resolvent(t, level, k, s.seen))
        decreases k
      {
        ghost var k0 := k;
        CausesAreOpen(t, level, k, s);
        d, current, k := UndoToSeen(s.seen, t, k0, level);
        AnalysisCloses(t, level, k0, k, s);
        s := s.(causes := s.causes - 1);
        if s.causes == 0 {
          break;
        }
        CausesAreOpen(t, level, k, s);
        ReasonIsBelow(t, db, variables, level, k, s.seen);
        ghost var seen := s.seen;
        s := VisitLiterals(d.reason, Some(d.variable), current, s, t, k);
        ResolveStep(t, level, db, why, k, seen, s);
        ReasonOccurs(t, db, k, seen, s.seen);
        why := why + [d.reason];
      }
      target, learnt := FinishAnalysis(s, d, t, k, level, Elements(why));
    }

    /** The learnt clause, once the entry reached is the only one of the conflict's level, and the jump it asks for. */
    method FinishAnalysis(s: Analysis, d: Decision, ghost t: Trail, ghost k: nat, ghost level: nat,
                          ghost why: set<ClauseId>) returns (target: nat, learnt: Clause)
      requires tracker.Valid() && TrailOk(t, db, variables, level) && level >= 2
      requires k < |t.entries| && tracker.trail == Prefix(t, k) && tracker.propagateIndex == k
      requires d == Decision(t.entries[k].variable, t.entries[k].value, t.entries[k].reason)
      requires AnalysisOk(t, level, k, s) && s.causes == 0 && SeenOccurs(t, db, s.seen)
      requires d.variable in s.seen && t.entries[k].level == level
      requires Entails(db, why, Resolvent(t, level, k + 1, s.seen))
      modifies tracker
      ensures tracker.Valid() && tracker.trail == UpTo(t, target)
      ensures tracker.propagateIndex == |tracker.trail.entries|
      ensures 1 <= target < level && Asserting(tracker.trail, target, learnt)
      ensures Entails(db, why, Elements(learnt))
      ensures (forall l :: l in learnt ==> l.variable < variables) && AllOccur(db, learnt)
    {
      hide LevelsOk, ReasonsOk, ShapeOk, MapAgrees, StackAgrees, Wf, Entails, SeenOccurs, AllOccur, AnalysisOk, Open,
           Resolvent, Asserting, Finish, LevelOf, UpTo, CountUpTo, IsFalse, IsTrue, Assigned;
      HighestIsLearnt(t, level, k, s);
      learnt := Finish(s, Literal(d.variable, d.value));
      target := Target(s);
      LearntIsAsserting(t, level, k, s, db, why);
      FinishOccurs(t, level, k, s, db);
      UndoAfterAnalysis(t, k, target);
      PrefixKeepsLevels(t, k);
      tracker.UndoUntil(target);
      LastOfFinish(s, Literal(d.variable, d.value));
      OnTrailAt(t, k);
      LearntVariables(t, tracker.trail, db, variables, level, target, learnt, d.variable);
    }

    /** Records a learnt clause with the clauses it was derived from, and starts watching its first and last
        literals. */
    method AddLearnt(c: Clause, why: seq<ClauseId>)
      requires Static() && Watched() && |c| >= 1 && (|c| > 1 ==> c[0] != c[|c| - 1])
      requires forall l :: l in c ==> l.variable < variables
      requires forall i :: 0 <= i < |why| ==> 0 < why[i] < |db|
      requires Entails(db, Elements(why), Elements(c))
      modifies this, watchMap
      ensures Static() && Watched() && db == old(db) + [c] && kinds == old(kinds) + [Learnt(|old(tables).learnts|)]
      ensures tables == old(tables).(learnts := old(tables).learnts + [c])
      ensures |watchMap.watches| == |old(watchMap.watches)| + 1
      ensures watchMap.watches[..|old(watchMap.watches)|] == old(watchMap.watches)
      ensures var w := watchMap.watches[|old(watchMap.watches)|];
        if |c| == 1 then w == None else w.Some? && w.value.first == c[0] && w.value.second == c[|c| - 1]
    {
      hide KindsOk, AssertionsListed, WhysOk, WatchesFit, ListsExact, DistinctWatches, Entails;
      KindsSize(kinds, tables, db, variables);
      LearntKindsOk(kinds, tables, db, variables, c);
      LearntListed(db, kinds, c, Learnt(|tables.learnts|), negativeAssertions, learntClauseIds);
      WhysExtend(db, kinds, learntWhy, c, why);
      if |c| == 1 {
        watchMap.AddUnwatched();
      } else {
        watchMap.StartWatching(c[0], c[|c| - 1]);
      }
      FitsExtend(db, old(watchMap.watches), c, watchMap.watches);
      learntClauseIds := learntClauseIds + [|kinds|];
      kinds := kinds + [Learnt(|tables.learnts|)];
      tables := tables.(learnts := tables.learnts + [c]);
      learntWhy := learntWhy + [why];
      db := db + [c];
    }

    /** Learns from a conflict above level one: the search goes on at a lower level, with the learnt literal
        asserted. */
    method LearnFromConflict(level: nat, clause: ClauseId) returns (target: nat)
      requires Searching(level, Below(tracker.trail, level)) && level >= 2
      requires 0 < clause < |db| && Conflicting(tracker.trail, level, db[clause])
      modifies this, tracker, watchMap
      ensures 1 <= target < level && Steady(target)
      ensures |db| == |old(db)| + 1 && JumpsTo(old(tracker.trail), tracker.trail, target, db, |old(db)|)
      ensures Weight(old(tracker.trail).entries, variables) < Weight(tracker.trail.entries, variables)
      ensures Grows(old(kinds), kinds, old(db), db) && tables == old(tables).(learnts := tables.learnts)
    {
      hide LevelsOk, ReasonsOk, ShapeOk, MapAgrees, StackAgrees, UnitsOk, ListsExact, DistinctWatches,
           WatchesFit, WatchOk, Wf, WhysOk, AssertionsListed, KindsOk, WatchesOk, Conflicting, Below, Entails,
           Weight, UpTo, Asserting, JumpsTo, AllOccur, NoNewLiterals;
      ghost var t, db0, ws := tracker.trail, db, watchMap.watches;
      var learnt, why;
      target, learnt, why := Analyze(level, clause);
      ghost var u := tracker.trail;
      AssertingShape(u, target, learnt);
      KindsSize(kinds, tables, db, variables);
      AddLearnt(learnt, why);
      LearntOccurs(db0, learnt);
      var l := learnt[|learnt| - 1];
      ghost var e := Entry(l.variable, !l.negate, target, |db0|);
      LearntKeepsTrail(t, db0, variables, level, target, learnt);
      LearntKeepsUnits(t, db0, variables, level, target, learnt);
      JumpKeepsWatches(t, level, target, ws);
      TrailBounds(u, db, variables, target);
      var decided := tracker.TryAddDecision(Decision(l.variable, !l.negate, |kinds| - 1), target);
      PushKeepsUnits(u, e, db, target);
      assert watchMap.watches == ws + [watchMap.watches[|ws|]];
      LearntKeepsWatches(u, target, learnt, e, ws, watchMap.watches[|ws|]);
      LearntBelow(u, e, target);
      LearningGains(t, db0, variables, level, target, e);
      Jumped(t, tracker.trail, target, db, |db0|);
    }

    /** Reports a clause; a learnt one by reporting, once, everything it was learnt from. */
    method ReportClause(c: ClauseId, core: seq<ClauseId>, expanded: set<ClauseId>)
      returns (core': seq<ClauseId>, expanded': set<ClauseId>)
      requires Static() && 0 < c < |kinds| && CoreOk(kinds, core)
      ensures CoreOk(kinds, core') && Expands(kinds, learntWhy, expanded, core, expanded', core')
      ensures Reported(kinds, expanded', Elements(core'), c)
      ensures OnlyReachable(kinds, learntWhy, core, c, core')
      decreases c
    {
      hide KindsOk, AssertionsListed, WhysOk, CoreOk, Closed, AddToCore, OnlyReachable;
      KindsSize(kinds, tables, db, variables);
      ReachesItself(kinds, learntWhy, core, c);
      if !kinds[c].Learnt? {
        core', expanded' := AddToCore(core, c), expanded;
        AddedToCore(kinds, learntWhy, expanded, core, c);
        return;
      }
      if c in expanded {
        return core, expanded;
      }
      CausesBounds(db, kinds, learntWhy, c);
      var why := learntWhy[kinds[c].id];
      core', expanded' := core, expanded + {c};
      hide Expands;
      for i := 0 to |why|
        invariant CoreOk(kinds, core') && Expands(kinds, learntWhy, expanded + {c}, core, expanded', core') &&
                  c in expanded'
        invariant OnlyReachable(kinds, learntWhy, core, c, core')
        invariant forall j :: 0 <= j < i ==> Reported(kinds, expanded', Elements(core'), why[j])
      {
        ghost var e, k := expanded', core';
        core', expanded' := ReportClause(why[i], core', expanded');
        ReachesMore(kinds, learntWhy, core, c, k, i, core');
        ExpandsThen(kinds, learntWhy, expanded + {c}, core, e, k, expanded', core');
        ExpandsGrows(kinds, learntWhy, e, k, expanded', core');
        forall j | 0 <= j < i ensures Reported(kinds, expanded', Elements(core'), why[j]) {
          ReportedGrows(kinds, e, k, expanded', core', why[j]);
        }
      }
      ExpandedClause(kinds, learntWhy, expanded, core, expanded', core', c);
    }

    /** Traces a conflict at level one back to the clauses that make the problem unsolvable. */
    method AnalyzeUnsolvable(clause: ClauseId) returns (core: seq<ClauseId>)
      requires Static() && tracker.Valid() && TrailOk(tracker.trail, db, variables, 1)
      requires 0 < clause < |db| && AllFalse(tracker.trail, db[clause])
      ensures CoreOk(kinds, core) && Refutes(db, Elements(core))
      ensures LeastCore(tracker.trail, db, kinds, learntWhy, clause, core)
    {
      hide KindsOk, AssertionsListed, WhysOk, Closed, Expands, Traced, LevelsOk, ReasonsOk, ShapeOk, Wf,
           MapAgrees, AllFalse, Refutes, AllClosed, TrailOk, Reported, OnlyReachable, NothingMore, LeastCore,
           CoreOk;
      ghost var t := tracker.trail;
      KindsSize(kinds, tables, db, variables);
      var expanded := {};
      NothingClosed(kinds, learntWhy);
      core, expanded := ReportClause(clause, [], {});
      ExpandsCloses(kinds, learntWhy, {}, [], expanded, core);
      var involved := LiteralVariables(clause);
      ConflictNeeds(t, db, kinds, learntWhy, clause, core);
      TracedNothing(t, db, kinds, expanded, Elements(core), involved);
      var i: nat := |tracker.stack|;
      while i > 0
        invariant i <= |tracker.stack| && CoreOk(kinds, core) && AllClosed(kinds, learntWhy, expanded, Elements(core))
        invariant Reported(kinds, expanded, Elements(core), clause) && Variables(db[clause]) <= involved
        invariant Traced(t, db, kinds, expanded, Elements(core), involved, i)
        invariant NothingMore(t, db, kinds, learntWhy, clause, core, involved)
      {
        i := i - 1;
        var d := tracker.stack[i];
        RootIsFirst(t, db, variables, i);
        if d.variable == ROOT || d.variable !in involved {
          TracedSkips(t, db, kinds, expanded, Elements(core), involved, i);
          continue;
        }
        ForcedAtLevelOne(t, db, variables, i);
        assert d.reason != INSTALL_ROOT;
        ghost var e, k, inv := expanded, core, involved;
        core, expanded := ReportClause(d.reason, core, expanded);
        ExpandsGrows(kinds, learntWhy, e, k, expanded, core);
        ExpandsCloses(kinds, learntWhy, e, k, expanded, core);
        ReportedGrows(kinds, e, k, expanded, core, clause);
        var more := ReasonVariables(d.reason, i);
        involved := involved + more;
        assert involved == inv + Variables(db[d.reason]);
        EntryNeeds(t, db, kinds, learntWhy, clause, k, core, inv, i);
        TraceEntry(t, db, kinds, variables, e, Elements(k), expanded, Elements(core), inv, involved, i);
      }
      CoreIsLeast(t, db, kinds, learntWhy, expanded, core, involved, clause);
      CoreRefutes(t, db, kinds, learntWhy, variables, expanded, Elements(core), involved, clause);
    }

    method LiteralVariables(c: ClauseId) returns (vars: set<Var>)
      requires Static() && c < |kinds|
      ensures vars == Variables(ClauseAt(c))
    {
      assert ClauseOk(kinds[c], tables, db[c], variables);
      var literals := Literals(kinds[c], tables);
      vars := set l | l in literals :: l.variable;
    }

    /** The variables of a reason besides that of the entry it forced; no other literal of it is true. */
    method ReasonVariables(c: ClauseId, i: nat) returns (vars: set<Var>)
      requires Static() && tracker.Valid() && c < |kinds| && i < |tracker.stack|
      requires IsReason(tracker.trail, i, ClauseAt(c))
      ensures vars <= Variables(ClauseAt(c)) <= vars + {tracker.stack[i].variable}
    {
      hide KindsOk, AssertionsListed, WhysOk, MapAgrees;
      KindsAt(kinds, tables, db, variables, c);
      var literals := Literals(kinds[c], tables);
      vars := {};
      for j := 0 to |literals|
        invariant vars <= Variables(literals)
        invariant forall m :: 0 <= m < j ==> literals[m].variable in vars + {tracker.stack[i].variable}
      {
        var l := literals[j];
        InVariables(literals, l);
        if tracker.Eval(l) == Some(true) {
          assert l == tracker.trail.entries[i].TrueLiteral() || FalseBefore(tracker.trail, i, l);
          assert l.variable == tracker.stack[i].variable;
        } else {
          vars := vars + {l.variable};
        }
      }
    }

    /** Whether a decision can be taken from clause `c`. */
    predicate IsEligible(c: ClauseId)
      requires tracker.Valid()
      reads this, tracker
    {
      && c < |kinds| && kinds[c].Requires?
      && tracker.AssignedValue(kinds[c].parent) == Some(true)
      && (forall l | l in ConditionOf(tables, kinds[c].condition) :: tracker.Eval(l) == Some(false))
      && (forall v | v in CandidatesOf(tables, kinds[c].requirement) :: tracker.AssignedValue(v) != Some(true))
    }

    /** Takes the first undecided candidate of some eligible clause, whichever the heuristic prefers. */
    method Decide() returns (r: Option<(Var, ClauseId)>)
      requires Static() && tracker.Valid()
      requires forall c :: 0 <= c < |db| ==> Settled(tracker.trail, db[c])
      ensures r == None ==> |kinds| == |db| && Finished(tracker.trail, tables, kinds, db)
      ensures r.Some? ==> 0 < r.value.1 < |db| && r.value.0 !in tracker.trail.pos && r.value.0 < variables
      ensures r.Some? ==> r.value.1 < |kinds| && Eligible(tracker.trail, tables, kinds[r.value.1])
      ensures r.Some? ==> FirstOpen(tracker.trail, CandidatesOf(tables, kinds[r.value.1].requirement), r.value.0)
    {
      hide AssertionsListed, WhysOk, MapAgrees, StackAgrees, Settled, KindsOk;
      KindsSize(kinds, tables, db, variables);
      if c: ClauseId :| 0 <= c < |kinds| && IsEligible(c) {
        assert Eligible(tracker.trail, tables, kinds[c]);
        EligibleHasCandidate(tracker.trail, tables, kinds, db, variables, c);
        var candidates := CandidatesOf(tables, kinds[c].requirement);
        for i := 0 to |candidates|
          invariant forall j :: 0 <= j < i ==> candidates[j] in tracker.trail.pos
        {
          assert candidates[i] in candidates;
          if tracker.AssignedValue(candidates[i]) == None {
            return Some((candidates[i], c));
          }
        }
        assert false;
      }
      forall c | 0 <= c < |db| ensures !Eligible(tracker.trail, tables, kinds[c]) {
        assert !IsEligible(c);
      }
      r := None;
    }

    /** Everything is propagated at `level`, and every assertion holds. */
    ghost predicate AtFixpoint(level: nat)
      reads this, tracker, watchMap
    {
      Steady(level) && tracker.propagateIndex == |tracker.trail.entries| && UnitsTrue(tracker.trail, db)
    }

    /** Propagates, and learns from every conflict, until nothing is left to propagate at some level. */
    method PropagateAndLearn(level: nat) returns (r: Verdict, target: nat)
      requires Steady(level) && OpenersOk(tracker.trail, db)
      modifies this, tracker, watchMap
      ensures Static() && Grows(old(kinds), kinds, old(db), db) && tables == old(tables).(learnts := tables.learnts)
      ensures r.Solved? ==> AtFixpoint(target) && OpenersOk(tracker.trail, db)
      ensures r.Solved? ==> Weight(old(tracker.trail).entries, variables) <= Weight(tracker.trail.entries, variables)
      ensures r.Unsolvable? ==> CoreOk(kinds, r.core) && Refutes(db, Elements(r.core))
    {
      hide LevelsOk, ReasonsOk, ShapeOk, MapAgrees, StackAgrees, UnitsOk, ListsExact, DistinctWatches,
           WatchesFit, WatchOk, Wf, WhysOk, AssertionsListed, KindsOk, WatchesOk, Below, Weight, Refutes,
           UnitsTrue, CoreOk, Extends, Budget, Entails, Grows, OpenersOk, JumpsTo;
      target := level;
      GrowsNothing(kinds, db);
      while true
        invariant Steady(target) && OpenersOk(tracker.trail, db)
        invariant Grows(old(kinds), kinds, old(db), db) && tables == old(tables).(learnts := tables.learnts)
        invariant Weight(old(tracker.trail).entries, variables) <= Weight(tracker.trail.entries, variables)
        decreases Budget(variables) - Weight(tracker.trail.entries, variables)
      {
        ghost var t, kinds0, db0 := tracker.trail, kinds, db;
        TrailFits(t, db, variables, target);
        var p := Propagate(target);
        ExtendsWeighsMore(t, tracker.trail, variables);
        SteadyKeepsOpeners(t, tracker.trail, db, variables, target);
        if p.Done? {
          return Solved, target;
        }
        TrailBounds(tracker.trail, db, variables, target);
        if target == 1 {
          var core := AnalyzeUnsolvable(p.clause);
          return Unsolvable(core), target;
        }
        ghost var u := tracker.trail;
        target := LearnFromConflict(target, p.clause);
        GrownBy(kinds0, kinds, db0, db);
        JumpKeepsOpeners(u, tracker.trail, target, db0, db);
        GrowsThen(old(kinds), kinds0, kinds, old(db), db0, db);
      }
    }

    /** Installs the root and searches until the clauses are satisfied or refuted. */
    method Solve() returns (r: Verdict)
      requires Valid() && tracker.trail == EMPTY_TRAIL && tracker.propagateIndex == 0 && variables >= 1
      modifies this, tracker, watchMap
      ensures |old(kinds)| == |old(db)| && Grows(old(kinds), kinds, old(db), db)
      ensures r.Solved? ==> tracker.Valid() && Answers(tracker.trail, old(tables), old(kinds), old(db))
      ensures r.Solved? ==> Wf(tracker.trail) && Supported(tracker.trail, old(db)) &&
                            forall c :: 0 <= c < |old(db)| ==> Settled(tracker.trail, old(db)[c])
      ensures r.Unsolvable? ==> CoreOk(old(kinds), r.core) && Refutes(old(db), Elements(r.core))
      ensures NoComplements(old(kinds), old(tables)) ==> (r.Solved? <==> Satisfiable(old(db)))
    {
      hide LevelsOk, ReasonsOk, ShapeOk, MapAgrees, StackAgrees, UnitsOk, ListsExact, DistinctWatches,
           WatchesFit, WatchOk, Finished, Settled, Answers, Satisfiable, NoComplements, Wf, WhysOk,
           AssertionsListed, KindsOk, WatchesOk, Below, Weight, Refutes, UnitsTrue, CoreOk, Extends, Budget,
           Entails, Grows, Completion, OpenersOk, Supported, Eligible;
      KindsSize(kinds, tables, db, variables);
      GrowsNothing(kinds, db);
      RootTrail(db, variables, watchMap.watches);
      RootOpens(kinds, tables, db, variables);
      var decided := tracker.TryAddDecision(Decision(ROOT, true, INSTALL_ROOT), 1);
      var level;
      r, level := PropagateAndLearn(1);
      if r.Unsolvable? {
        CoreOfOriginals(old(kinds), kinds, old(db), db, r.core);
        RefutedIsUnsatisfiable(old(db), Elements(r.core));
        return;
      }
      while true
        invariant AtFixpoint(level) && OpenersOk(tracker.trail, db)
        invariant Grows(old(kinds), kinds, old(db), db) && tables == old(tables).(learnts := tables.learnts)
        decreases Budget(variables) - Weight(tracker.trail.entries, variables)
      {
        ghost var t, kinds0, db0 := tracker.trail, kinds, db;
        AllSettled(t, db, watchMap.watches);
        TrailFits(t, db, variables, level);
        var d := Decide();
        if d == None {
          SolvedIsModel(t, tables, kinds, db, learntWhy, variables, level, old(tables), old(kinds), old(db));
          SolvedIsSupported(t, kinds, db, variables, level, old(kinds), old(db));
          if NoComplements(old(kinds), old(tables)) {
            AnsweredIsSatisfiable(t, old(tables), old(kinds), old(db));
          }
          return Solved;
        }
        DecisionSteps(t, db, variables, level, watchMap.watches, d.value.0, d.value.1);
        EligibleRequires(t, tables, kinds[d.value.1]);
        CandidateOpens(t, kinds, tables, db, variables, level + 1, d.value.0, d.value.1);
        decided := tracker.TryAddDecision(Decision(d.value.0, true, d.value.1), level + 1);
        r, level := PropagateAndLearn(level + 1);
        GrowsThen(old(kinds), kinds0, kinds, old(db), db0, db);
        if r.Unsolvable? {
          CoreOfOriginals(old(kinds), kinds, old(db), db, r.core);
          RefutedIsUnsatisfiable(old(db), Elements(r.core));
          return;
        }
      }
    }
  }
}
