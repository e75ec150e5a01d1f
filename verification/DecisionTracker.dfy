/**
 The decision tracker: a stack of decisions, a map from variables to signed levels, the
 index of the next decision to propagate, and the floor below which the stack has not
 changed since it was last observed.
 */
module DecisionTrackers {
  import opened Sat
  import opened Trails

  const MAX_LEVEL: nat := 0x7fff_ffff

  datatype Decision = Decision(variable: Var, value: bool, reason: ClauseId)

  /** The outcome of adding a decision: new, already made, or in conflict with an earlier one. */
  datatype Attempt = Added | Repeated | Contradicted

  /** A packed value and level: zero is undecided, the sign is the value. */
  type DecisionAndLevel = int

  function Pack(value: bool, level: int): DecisionAndLevel {
    if value then level else -level
  }

  function PackedValue(d: DecisionAndLevel): Option<bool> {
    if d < 0 then Some(false) else if d == 0 then None else Some(true)
  }

  function PackedLevel(d: DecisionAndLevel): nat {
    if d < 0 then -d else d
  }

  /** The packing is lossless exactly at the levels a decision can have: level zero reads as undecided. */
  lemma PackRoundTrip(value: bool, level: nat)
    ensures PackedLevel(Pack(value, level)) == level
    ensures PackedValue(Pack(value, level)) == Some(value) <==> level >= 1
  {
  }

  /** Entry `v` of the map; a variable beyond its end is undecided. */
  function MapGet(m: seq<DecisionAndLevel>, v: Var): DecisionAndLevel {
    if v < |m| then m[v] else 0
  }

  /** Sets entry `v`, growing the map with undecided entries if it is too short. */
  function MapSet(m: seq<DecisionAndLevel>, v: Var, d: DecisionAndLevel): (r: seq<DecisionAndLevel>)
    ensures forall w: Var :: MapGet(r, w) == if w == v then d else MapGet(m, w)
  {
    (if v < |m| then m else m + seq(v + 1 - |m|, i => 0))[v := d]
  }

  function MapReset(m: seq<DecisionAndLevel>, v: Var): (r: seq<DecisionAndLevel>)
    ensures forall w: Var :: MapGet(r, w) == if w == v then 0 else MapGet(m, w)
  {
    if v < |m| then m[v := 0] else m
  }

  ghost function Packed(t: Trail, v: Var): DecisionAndLevel {
    if Assigned(t, v) then Pack(t.entries[t.pos[v]].value, t.entries[t.pos[v]].level) else 0
  }

  /** The map holds the value and level of exactly the variables on the trail. */
  ghost predicate MapAgrees(m: seq<DecisionAndLevel>, t: Trail) {
    forall v: Var :: MapGet(m, v) == Packed(t, v)
  }

  /** The stack is the trail without its levels, all of which are positive. */
  ghost predicate StackAgrees(stack: seq<Decision>, t: Trail) {
    && |stack| == |t.entries|
    && forall i :: 0 <= i < |stack| ==>
         && stack[i] == Decision(t.entries[i].variable, t.entries[i].value, t.entries[i].reason)
         && t.entries[i].level >= 1
  }

  lemma SetAgrees(m: seq<DecisionAndLevel>, t: Trail, e: Entry)
    requires Wf(t) && e.variable !in t.pos && MapAgrees(m, t)
    ensures MapAgrees(MapSet(m, e.variable, Pack(e.value, e.level)), Push(t, e))
  {
    PushKeepsWf(t, e);
    forall v: Var ensures v != e.variable ==> Packed(Push(t, e), v) == Packed(t, v) {
    }
  }

  lemma ResetAgrees(m: seq<DecisionAndLevel>, t: Trail)
    requires Wf(t) && |t.entries| > 0 && MapAgrees(m, t)
    ensures MapAgrees(MapReset(m, t.entries[|t.entries| - 1].variable), Prefix(t, |t.entries| - 1))
  {
    var n := |t.entries| - 1;
    forall v: Var ensures Packed(Prefix(t, n), v) == if v == t.entries[n].variable then 0 else Packed(t, v) {
    }
  }

  class DecisionTracker {
    var map_: seq<DecisionAndLevel>
    var stack: seq<Decision>
    var propagateIndex: nat
    var syncFloor: nat

    /** The stack with the level of each decision. */
    ghost var trail: Trail
    /** The stack as it was at the last call of TakeSyncFloor. */
    ghost var observed: seq<Decision>

    ghost predicate Valid()
      reads this
    {
      && Wf(trail) && |stack| == |trail.entries| && StackAgrees(stack, trail) && MapAgrees(map_, trail)
      && propagateIndex <= |stack|
      && syncFloor <= |stack| && syncFloor <= |observed|
      && stack[..syncFloor] == observed[..syncFloor]
    }

    constructor ()
      ensures Valid() && trail == EMPTY_TRAIL && propagateIndex == 0 && observed == []
    {
      map_, stack, propagateIndex, syncFloor := [], [], 0, 0;
      trail, observed := EMPTY_TRAIL, [];
    }

    method Clear()
      modifies this
      ensures Valid() && trail == EMPTY_TRAIL && propagateIndex == 0 && observed == old(observed) && syncFloor == 0
    {
      map_, stack, propagateIndex, syncFloor := [], [], 0, 0;
      trail := EMPTY_TRAIL;
    }

    function AssignedValue(v: Var): (r: Option<bool>)
      requires Valid()
      reads this
      ensures r == Some(true) <==> IsTrue(trail, Positive(v))
      ensures r == Some(false) <==> IsTrue(trail, Negative(v))
      ensures r == None <==> v !in trail.pos
    {
      PackedValue(MapGet(map_, v))
    }

    function Level(v: Var): (level: nat)
      requires Valid()
      reads this
      ensures level == LevelOf(trail, v)
    {
      PackedLevel(MapGet(map_, v))
    }

    /** The value of a literal: true, false, or nothing while its variable is unassigned. */
    function Eval(l: Literal): (r: Option<bool>)
      requires Valid()
      reads this
      ensures r == Some(true) <==> IsTrue(trail, l)
      ensures r == Some(false) <==> IsFalse(trail, l)
      ensures r == None <==> l.variable !in trail.pos
    {
      match AssignedValue(l.variable)
      case None => None
      case Some(value) => Some(value != l.negate)
    }

    /** Assigns the variable unless it already has a value, and tells whether that value agrees. */
    method TryAddDecision(d: Decision, level: nat) returns (r: Attempt)
      requires Valid() && 1 <= level <= MAX_LEVEL
      modifies this
      ensures Valid() && propagateIndex == old(propagateIndex) && observed == old(observed)
      ensures syncFloor == old(syncFloor)
      ensures r == Added <==> d.variable !in old(trail.pos)
      ensures r == Repeated <==> IsTrue(old(trail), Literal(d.variable, !d.value))
      ensures r == Contradicted <==> IsFalse(old(trail), Literal(d.variable, !d.value))
      ensures trail == if r == Added then Push(old(trail), Entry(d.variable, d.value, level, d.reason))
                       else old(trail)
    {
      match AssignedValue(d.variable) {
        case None =>
          ghost var e := Entry(d.variable, d.value, level, d.reason);
          PushKeepsWf(trail, e);
          SetAgrees(map_, trail, e);
          map_ := MapSet(map_, d.variable, Pack(d.value, level));
          stack := stack + [d];
          trail := Push(trail, e);
          r := Added;
        case Some(value) =>
          r := if value == d.value then Repeated else Contradicted;
      }
    }

    /** Undoes the last decision; there must be one below it, whose level is returned. */
    method UndoLast() returns (d: Decision, level: nat)
      requires Valid() && |stack| >= 2
      modifies this
      ensures Valid() && observed == old(observed)
      ensures trail == Prefix(old(trail), |old(trail).entries| - 1)
      ensures d == old(stack)[|old(stack)| - 1]
      ensures level == old(trail).entries[|old(trail).entries| - 2].level
      ensures propagateIndex == |trail.entries|
      ensures syncFloor <= old(syncFloor)
    {
      var n := |stack| - 1;
      d := stack[n];
      stack := stack[..n];
      ResetAgrees(map_, trail);
      map_ := MapReset(map_, d.variable);
      propagateIndex := |stack|;
      syncFloor := if syncFloor < |stack| then syncFloor else |stack|;
      PrefixKeepsWf(trail, n);
      trail := Prefix(trail, n);
      level := Level(stack[n - 1].variable);
    }

    /** Undoes every decision above `level`, and everything if it is zero. */
    method UndoUntil(level: nat)
      requires Valid() && LevelsOk(trail)
      modifies this
      ensures Valid() && observed == old(observed) && syncFloor <= old(syncFloor)
      ensures trail == UpTo(old(trail), level)
      ensures propagateIndex == if level > 0 && trail == old(trail) then old(propagateIndex) else |trail.entries|
    {
      hide Wf, LevelsOk, StackAgrees, MapAgrees, CountUpTo;
      if level == 0 {
        ZeroLevelIsEmpty(trail);
        Clear();
        return;
      }
      ghost var t := trail;
      StackTop(stack, t);
      WholePrefix(t);
      while |stack| > 0 && Level(stack[|stack| - 1].variable) > level
        invariant Valid() && observed == old(observed) && syncFloor <= old(syncFloor)
        invariant CountUpTo(t.entries, level) <= |stack| <= |t.entries|
        invariant trail == Prefix(t, |stack|) && LevelsOk(t) && Wf(t)
        invariant propagateIndex == if trail == t then old(propagateIndex) else |stack|
        decreases |stack|
      {
        StackTop(stack, trail);
        TopIsAbove(t, |stack|, level);
        PrefixOfPrefix(t, |stack|, |stack| - 1);
        var d, l := UndoLast();
        StackTop(stack, trail);
      }
      if |stack| > 0 {
        StackTop(stack, trail);
      }
      UndoneExactly(t, |stack|, level);
    }

    /** The length of the prefix unchanged since the last call; the floor restarts at the current length. */
    method TakeSyncFloor() returns (floor: nat)
      requires Valid()
      modifies this`syncFloor, this`observed
      ensures Valid() && observed == stack && syncFloor == |stack|
      ensures floor == old(syncFloor) && floor <= |stack| && floor <= |old(observed)|
      ensures old(observed)[..floor] == stack[..floor]
    {
      floor := syncFloor;
      syncFloor := |stack|;
      observed := stack;
    }

    method NextUnpropagated() returns (d: Option<Decision>)
      requires Valid()
      modifies this`propagateIndex
      ensures Valid()
      ensures d == None <==> old(propagateIndex) == |stack|
      ensures d == None ==> propagateIndex == old(propagateIndex)
      ensures d != None ==> propagateIndex == old(propagateIndex) + 1 <= |stack| &&
                            d.value == stack[old(propagateIndex)]
    {
      if propagateIndex < |stack| {
        d := Some(stack[propagateIndex]);
        propagateIndex := propagateIndex + 1;
      } else {
        d := None;
      }
    }
  }

  lemma StackTop(stack: seq<Decision>, t: Trail)
    requires Wf(t) && StackAgrees(stack, t)
    ensures |stack| == |t.entries|
    ensures |stack| > 0 ==> LevelOf(t, stack[|stack| - 1].variable) == t.entries[|stack| - 1].level
  {
  }

  /** An entry above the level lies beyond those to be kept, and above another entry. */
  lemma TopIsAbove(t: Trail, n: nat, level: nat)
    requires LevelsOk(t) && 1 <= n <= |t.entries| && t.entries[n - 1].level > level >= 1
    ensures CountUpTo(t.entries, level) <= n - 1 && n >= 2
  {
  }

  lemma UndoneExactly(t: Trail, n: nat, level: nat)
    requires LevelsOk(t) && CountUpTo(t.entries, level) <= n <= |t.entries|
    requires n > 0 ==> t.entries[n - 1].level <= level
    ensures n == CountUpTo(t.entries, level)
  {
  }

  lemma ZeroLevelIsEmpty(t: Trail)
    requires Wf(t) && LevelsOk(t)
    ensures UpTo(t, 0) == EMPTY_TRAIL
  {
    assert CountUpTo(t.entries, 0) == 0;
    assert UpTo(t, 0).pos == map[];
  }

  lemma WholePrefix(t: Trail)
    requires Wf(t)
    ensures Prefix(t, |t.entries|) == t
  {
    assert Prefix(t, |t.entries|).pos == t.pos;
  }

  lemma PrefixOfPrefix(t: Trail, n: nat, m: nat)
    requires m <= n <= |t.entries|
    ensures Prefix(Prefix(t, n), m) == Prefix(t, m)
  {
    assert Prefix(Prefix(t, n), m).pos == Prefix(t, m).pos;
    assert Prefix(Prefix(t, n), m).entries == Prefix(t, m).entries;
  }
}
