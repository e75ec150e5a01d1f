/**
 The kinds of clause the solver emits, the literals each stands for, and the two
 literals each watches first.
 */
module Clauses {
  import opened Sat

  type Requirement = nat
  type VersionSet = nat
  type Name = nat
  type DisjunctionId = nat
  type LearntId = nat

  datatype Kind =
    | InstallRoot
    | Requires(parent: Var, condition: Option<DisjunctionId>, requirement: Requirement)
    | ForbidMultipleInstances(candidate: Var, other: Literal, name: Name)
    | Constrains(parent: Var, forbidden: Var, via: VersionSet)
    | ConstrainsExcluded(excluded: Var, aux: Var, via: VersionSet)
    | ConstrainsParent(parent: Var, aux: Var, via: VersionSet)
    | Lock(locked: Var, rival: Var)
    | Learnt(id: LearntId)
    | Excluded(excluded: Var)
    | AnyOf(selected: Var, member: Var)
  {
    /** The kinds that always have exactly two literals. */
    predicate IsBinary() {
      ForbidMultipleInstances? || Constrains? || ConstrainsExcluded? || ConstrainsParent? || Lock? || AnyOf?
    }
  }

  /** Where the literals of requires and learnt clauses are stored. */
  datatype Tables = Tables(
    learnts: seq<Clause>,
    candidates: map<Requirement, seq<seq<Var>>>,
    disjunctions: seq<seq<Literal>>)

  function Flatten<T>(s: seq<seq<T>>): seq<T> {
    if s == [] then [] else s[0] + Flatten(s[1..])
  }

  function Positives(vs: seq<Var>): (c: Clause)
    ensures |c| == |vs| && forall i :: 0 <= i < |c| ==> c[i] == Positive(vs[i])
  {
    seq(|vs|, i requires 0 <= i < |vs| => Positive(vs[i]))
  }

  function CandidatesOf(tb: Tables, r: Requirement): seq<Var> {
    if r in tb.candidates then Flatten(tb.candidates[r]) else []
  }

  function ConditionOf(tb: Tables, d: Option<DisjunctionId>): seq<Literal> {
    if d.Some? && d.value < |tb.disjunctions| then tb.disjunctions[d.value] else []
  }

  /** The literals of a clause, in the order they are visited. */
  function Literals(k: Kind, tb: Tables): Clause {
    match k
    case InstallRoot => [Positive(ROOT)]
    case Excluded(v) => [Negative(v)]
    case Learnt(id) => if id < |tb.learnts| then tb.learnts[id] else []
    case Requires(parent, condition, r) =>
      [Negative(parent)] + ConditionOf(tb, condition) + Positives(CandidatesOf(tb, r))
    case Constrains(parent, forbidden, _) => [Negative(parent), Negative(forbidden)]
    case ConstrainsExcluded(excluded, aux, _) => [Negative(excluded), Positive(aux)]
    case ConstrainsParent(parent, aux, _) => [Negative(parent), Negative(aux)]
    case ForbidMultipleInstances(candidate, other, _) => [Negative(candidate), other]
    case Lock(_, rival) => [Negative(rival), Negative(ROOT)]
    case AnyOf(selected, member) => [Positive(selected), Negative(member)]
  }

  /** The two literals a clause watches while nothing is assigned; assertions watch none. */
  function InitialWatches(k: Kind, tb: Tables): Option<(Literal, Literal)> {
    match k
    case InstallRoot => None
    case Excluded(_) => None
    case Requires(parent, _, _) =>
      var c := Literals(k, tb);
      if |c| == 1 then None else Some((c[0], c[1]))
    case Learnt(_) =>
      var c := Literals(k, tb);
      if |c| <= 1 then None else Some((c[0], c[|c| - 1]))
    case Lock(_, rival) => Some((Negative(ROOT), Negative(rival)))
    case ForbidMultipleInstances(candidate, other, _) => Some((Negative(candidate), other))
    case Constrains(parent, forbidden, _) => Some((Negative(parent), Negative(forbidden)))
    case ConstrainsExcluded(excluded, aux, _) => Some((Negative(excluded), Positive(aux)))
    case ConstrainsParent(parent, aux, _) => Some((Negative(parent), Negative(aux)))
    case AnyOf(selected, member) => Some((Positive(selected), Negative(member)))
  }

  /** A clause the encoder may add: its two watches differ and the tables name its literals. */
  predicate WellFormed(k: Kind, tb: Tables) {
    match k
    case InstallRoot => false
    case Learnt(_) => false
    case Excluded(v) => true
    case Requires(parent, condition, r) =>
      && r in tb.candidates
      && (condition.Some? ==> condition.value < |tb.disjunctions| && tb.disjunctions[condition.value] != [])
      && Negative(parent) !in ConditionOf(tb, condition)
    case Constrains(parent, forbidden, _) => parent != forbidden
    case ConstrainsExcluded(_, _, _) => true
    case ConstrainsParent(parent, aux, _) => parent != aux
    case ForbidMultipleInstances(candidate, other, _) => other != Negative(candidate)
    case Lock(_, rival) => rival != ROOT
    case AnyOf(_, _) => true
  }

  lemma InitialWatchesAreLiterals(k: Kind, tb: Tables)
    requires WellFormed(k, tb)
    ensures |Literals(k, tb)| >= 1
    ensures InitialWatches(k, tb) == None <==> |Literals(k, tb)| == 1
    ensures |Literals(k, tb)| == 1 ==> Literals(k, tb)[0].negate
    ensures InitialWatches(k, tb).Some? ==>
              var w := InitialWatches(k, tb).value;
              w.0 in Literals(k, tb) && w.1 in Literals(k, tb) && w.0 != w.1
    ensures k.IsBinary() ==> |Literals(k, tb)| == 2
  {
    if k.Requires? && |Literals(k, tb)| > 1 {
      var c := Literals(k, tb);
      var d := ConditionOf(tb, k.condition);
      if d != [] {
        assert c[1] == d[0];
      }
    }
  }

  /** Learning appends to the table of learnt clauses, which changes no other clause. */
  lemma LiteralsExtend(k: Kind, tb: Tables, c: Clause)
    requires k.Learnt? ==> k.id < |tb.learnts|
    ensures Literals(k, tb.(learnts := tb.learnts + [c])) == Literals(k, tb)
  {
  }
}
