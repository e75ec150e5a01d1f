/**
 Walking the candidates of a requirement: which one satisfies it, or which is the first
 that could, and how many of its version set are left.
 */
module Walks {
  import opened Sat
  import opened Clauses
  import opened DecisionTrackers

  type DecisionMap = seq<DecisionAndLevel>

  function ValueIn(m: DecisionMap, v: Var): Option<bool> { PackedValue(MapGet(m, v)) }

  function EvalIn(m: DecisionMap, l: Literal): Option<bool> {
    match ValueIn(m, l.variable)
    case None => None
    case Some(value) => Some(value != l.negate)
  }

  /** What the queue reads from the solver: the candidates of a requirement in the order they are walked, each
      with its version set, the version sets a requirement names, their packages, and the literals of conditions. */
  datatype Provider = Provider(
    walk: Requirement -> seq<(VersionSet, Var)>,
    versionSets: Requirement -> seq<VersionSet>,
    nameOf: VersionSet -> Name,
    condition: DisjunctionId -> seq<Literal>)
  {
    ghost predicate Valid() {
      forall r: Requirement, i :: 0 <= i < |walk(r)| ==> walk(r)[i].0 in versionSets(r)
    }

    ghost predicate Names(r: Requirement, name: Name) {
      exists i :: 0 <= i < |versionSets(r)| && nameOf(versionSets(r)[i]) == name
    }
  }

  datatype RequirementState =
    | Dirty
    | SatisfiedBy(winner: Var)
    | Frontier(candidate: Var, versionSet: VersionSet, count: nat)

  /** The walk over the remaining candidates `w`, given the first undecided one so far and the count of its
      version set. */
  function WalkOn(w: seq<(VersionSet, Var)>, m: DecisionMap, first: Option<(Var, VersionSet, nat)>): RequirementState {
    if w == [] then
      (match first
       case None => Dirty
       case Some((candidate, versionSet, count)) => Frontier(candidate, versionSet, count))
    else
      var (versionSet, candidate) := w[0];
      match ValueIn(m, candidate)
      case Some(true) => SatisfiedBy(candidate)
      case Some(false) => WalkOn(w[1..], m, first)
      case None => WalkOn(w[1..], m, Note(first, candidate, versionSet))
  }

  /** The first undecided candidate stays first; later ones of its version set are counted. */
  function Note(first: Option<(Var, VersionSet, nat)>, candidate: Var,
                versionSet: VersionSet): Option<(Var, VersionSet, nat)> {
    match first
    case None => Some((candidate, versionSet, 1))
    case Some((c, v, n)) => Some((c, v, if v == versionSet then n + 1 else n))
  }

  /** A fresh walk; it is dirty only if every candidate is false. */
  function Walk(w: seq<(VersionSet, Var)>, m: DecisionMap): RequirementState { WalkOn(w, m, None) }

  /** How many undecided candidates of a version set there are. */
  function Undecided(w: seq<(VersionSet, Var)>, m: DecisionMap, versionSet: VersionSet): nat {
    if w == [] then 0 else
    (if w[0].0 == versionSet && ValueIn(m, w[0].1) == None then 1 else 0) + Undecided(w[1..], m, versionSet)
  }

  ghost predicate Mentions(w: seq<(VersionSet, Var)>, v: Var) {
    exists i :: 0 <= i < |w| && w[i].1 == v
  }

  predicate AnyTrue(w: seq<(VersionSet, Var)>, m: DecisionMap) {
    exists i :: 0 <= i < |w| && ValueIn(m, w[i].1) == Some(true)
  }

  /** `i` is the first undecided candidate. */
  ghost predicate FirstUndecided(w: seq<(VersionSet, Var)>, m: DecisionMap, i: nat) {
    i < |w| && ValueIn(m, w[i].1) == None && forall j :: 0 <= j < i ==> ValueIn(m, w[j].1) != None
  }

  /** The first undecided candidate, with the number of undecided candidates of its version set. */
  ghost predicate IsFrontier(w: seq<(VersionSet, Var)>, m: DecisionMap, s: RequirementState) {
    exists i: nat :: FirstUndecided(w, m, i) && s == Frontier(w[i].1, w[i].0, Undecided(w, m, w[i].0))
  }

  /** A walk that started before `w` with `first` noted. */
  lemma {:induction false} WalkOnMeaning(w: seq<(VersionSet, Var)>, m: DecisionMap,
                                         first: Option<(Var, VersionSet, nat)>)
    ensures var s := WalkOn(w, m, first);
      && (s.SatisfiedBy? <==> AnyTrue(w, m))
      && (s.SatisfiedBy? ==> Mentions(w, s.winner) && ValueIn(m, s.winner) == Some(true))
      && (!s.SatisfiedBy? && first.Some? ==>
            s == Frontier(first.value.0, first.value.1, first.value.2 + Undecided(w, m, first.value.1)))
      && (s.Dirty? <==> first.None? && forall i :: 0 <= i < |w| ==> ValueIn(m, w[i].1) == Some(false))
      && (s.Frontier? && first.None? ==> IsFrontier(w, m, s))
  {
    if w != [] {
      var value := ValueIn(m, w[0].1);
      var first' := if value == None then Note(first, w[0].1, w[0].0) else first;
      WalkOnMeaning(w[1..], m, first');
      TrueTail(w, m);
      assert value == Some(true) ==> Mentions(w, w[0].1);
      if value == Some(false) {
        TailMeaning(w, m, first);
      } else if value == None {
        NoneMeaning(w, m, first);
      }
    }
  }

  lemma TrueTail(w: seq<(VersionSet, Var)>, m: DecisionMap)
    requires w != []
    ensures AnyTrue(w, m) <==> ValueIn(m, w[0].1) == Some(true) || AnyTrue(w[1..], m)
    ensures forall v :: Mentions(w[1..], v) ==> Mentions(w, v)
  {
    if i :| 0 <= i < |w| && ValueIn(m, w[i].1) == Some(true) {
      assert i > 0 ==> ValueIn(m, w[1..][i - 1].1) == Some(true);
    }
    if AnyTrue(w[1..], m) {
      var i :| 0 <= i < |w[1..]| && ValueIn(m, w[1..][i].1) == Some(true);
      assert ValueIn(m, w[i + 1].1) == Some(true);
    }
    forall v | Mentions(w[1..], v) ensures Mentions(w, v) {
      var i :| 0 <= i < |w[1..]| && w[1..][i].1 == v;
      assert w[i + 1].1 == v;
    }
  }

  lemma TailMeaning(w: seq<(VersionSet, Var)>, m: DecisionMap, first: Option<(Var, VersionSet, nat)>)
    requires w != [] && ValueIn(m, w[0].1) == Some(false)
    ensures (forall i :: 0 <= i < |w| ==> ValueIn(m, w[i].1) == Some(false)) <==>
            (forall i :: 0 <= i < |w[1..]| ==> ValueIn(m, w[1..][i].1) == Some(false))
    ensures forall versionSet: VersionSet :: Undecided(w, m, versionSet) == Undecided(w[1..], m, versionSet)
    ensures forall s :: IsFrontier(w[1..], m, s) ==> IsFrontier(w, m, s)
  {
    if forall i :: 0 <= i < |w[1..]| ==> ValueIn(m, w[1..][i].1) == Some(false) {
      forall i | 0 <= i < |w| ensures ValueIn(m, w[i].1) == Some(false) {
        assert i > 0 ==> w[i] == w[1..][i - 1];
      }
    }
    forall s | IsFrontier(w[1..], m, s) ensures IsFrontier(w, m, s) {
      var i: nat :| FirstUndecided(w[1..], m, i) &&
      s == Frontier(w[1..][i].1, w[1..][i].0, Undecided(w[1..], m, w[1..][i].0));
      assert w[i + 1] == w[1..][i];
      forall j | 0 <= j < i + 1 ensures ValueIn(m, w[j].1) != None {
        assert j > 0 ==> w[j] == w[1..][j - 1];
      }
      assert FirstUndecided(w, m, i + 1);
    }
  }

  lemma NoneMeaning(w: seq<(VersionSet, Var)>, m: DecisionMap, first: Option<(Var, VersionSet, nat)>)
    requires w != [] && ValueIn(m, w[0].1) == None
    ensures FirstUndecided(w, m, 0)
    ensures forall versionSet: VersionSet ::
      Undecided(w, m, versionSet) == Undecided(w[1..], m, versionSet) + if w[0].0 == versionSet then 1 else 0
  {
  }

  /** What a walk finds: a true candidate if there is one; otherwise the first undecided candidate
      and the number of undecided candidates of its version set, unless all are false. */
  lemma WalkMeaning(w: seq<(VersionSet, Var)>, m: DecisionMap)
    ensures var s := Walk(w, m);
      && (s.SatisfiedBy? <==> AnyTrue(w, m))
      && (s.SatisfiedBy? ==> Mentions(w, s.winner) && ValueIn(m, s.winner) == Some(true))
      && (s.Frontier? ==> IsFrontier(w, m, s))
      && (s.Dirty? <==> forall i :: 0 <= i < |w| ==> ValueIn(m, w[i].1) == Some(false))
  {
    WalkOnMeaning(w, m, None);
  }

  /** A walk stops at the first installed candidate. */
  lemma {:induction false} WalkStopsAt(w: seq<(VersionSet, Var)>, m: DecisionMap, i: nat,
                                       first: Option<(Var, VersionSet, nat)>)
    requires i < |w| && ValueIn(m, w[i].1) == Some(true) && forall j :: 0 <= j < i ==> ValueIn(m, w[j].1) != Some(true)
    ensures WalkOn(w, m, first) == SatisfiedBy(w[i].1)
  {
    hide ValueIn;
    if i > 0 {
      WalkStopsAt(w[1..], m, i - 1, if ValueIn(m, w[0].1) == None then Note(first, w[0].1, w[0].0) else first);
    }
  }

  lemma FirstInstalled(w: seq<(VersionSet, Var)>, m: DecisionMap, i: nat) returns (k: nat)
    requires i < |w| && ValueIn(m, w[i].1) == Some(true)
    ensures k <= i && ValueIn(m, w[k].1) == Some(true) && forall j :: 0 <= j < k ==> ValueIn(m, w[j].1) != Some(true)
  {
    hide ValueIn;
    if j: nat :| j < i && ValueIn(m, w[j].1) == Some(true) {
      k := FirstInstalled(w, m, j);
    } else {
      k := i;
    }
  }

  /** A frontier proposes at least its own candidate. */
  lemma FrontierCounts(w: seq<(VersionSet, Var)>, m: DecisionMap, i: nat)
    requires i < |w| && ValueIn(m, w[i].1) == None
    ensures Undecided(w, m, w[i].0) >= 1
  {
    if i > 0 {
      FrontierCounts(w[1..], m, i - 1);
    }
  }

  /** A walk depends on the values of the candidates it mentions and on nothing else. */
  lemma {:induction false} WalkDepends(w: seq<(VersionSet, Var)>, m: DecisionMap, m': DecisionMap,
                                       first: Option<(Var, VersionSet, nat)>)
    requires forall i :: 0 <= i < |w| ==> ValueIn(m, w[i].1) == ValueIn(m', w[i].1)
    ensures WalkOn(w, m, first) == WalkOn(w, m', first)
  {
    if w != [] {
      var value := ValueIn(m, w[0].1);
      WalkDepends(w[1..], m, m', if value == None then Note(first, w[0].1, w[0].0) else first);
    }
  }

  /** One more candidate walked. */
  lemma {:induction false} WalkAppend(w: seq<(VersionSet, Var)>, i: nat, m: DecisionMap,
                                      first: Option<(Var, VersionSet, nat)>)
    requires i < |w|
    ensures WalkOn(w[i..], m, first) ==
      match ValueIn(m, w[i].1)
      case Some(true) => SatisfiedBy(w[i].1)
      case Some(false) => WalkOn(w[i + 1..], m, first)
      case None => WalkOn(w[i + 1..], m, Note(first, w[i].1, w[i].0))
  {
    assert w[i..][0] == w[i] && w[i..][1..] == w[i + 1..];
  }
}
