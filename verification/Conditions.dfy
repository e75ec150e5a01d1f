/**
 Conditions of conditional requirements: boolean expressions over version sets, brought into
 disjunctive normal form.
 */
module Conditions {
  import opened Clauses

  datatype Condition =
    | Matches(versionSet: VersionSet)
    | And(left: Condition, right: Condition)
    | Or(left: Condition, right: Condition)

  /** Version sets that must all match. */
  type Conjunction = seq<VersionSet>

  /** A condition is true of what `holds` says about version sets. */
  ghost predicate Eval(c: Condition, holds: VersionSet -> bool) {
    match c
    case Matches(v) => holds(v)
    case And(l, r) => Eval(l, holds) && Eval(r, holds)
    case Or(l, r) => Eval(l, holds) || Eval(r, holds)
  }

  ghost predicate AllHold(conjunction: Conjunction, holds: VersionSet -> bool) {
    forall i :: 0 <= i < |conjunction| ==> holds(conjunction[i])
  }

  ghost predicate SomeHolds(dnf: seq<Conjunction>, holds: VersionSet -> bool) {
    exists i :: 0 <= i < |dnf| && AllHold(dnf[i], holds)
  }

  ghost function MergeEach(l: Conjunction, right: seq<Conjunction>): (r: seq<Conjunction>)
    ensures |r| == |right| && forall i :: 0 <= i < |r| ==> r[i] == l + right[i]
  {
    seq(|right|, i requires 0 <= i < |right| => l + right[i])
  }

  ghost function Distribute(left: seq<Conjunction>, right: seq<Conjunction>): seq<Conjunction> {
    if left == [] then [] else Distribute(left[..|left| - 1], right) + MergeEach(left[|left| - 1], right)
  }

  /** The disjunctive normal form: alternatives of a disjunction follow each other, those of a conjunction are
      combined. */
  ghost function Dnf(c: Condition): seq<Conjunction> {
    match c
    case Matches(v) => [[v]]
    case Or(l, r) => Dnf(l) + Dnf(r)
    case And(l, r) => Distribute(Dnf(l), Dnf(r))
  }

  method ConvertToDnf(c: Condition) returns (dnf: seq<Conjunction>)
    ensures dnf == Dnf(c)
    decreases c
  {
    match c {
      case Matches(v) => dnf := [[v]];
      case Or(l, r) =>
        var left := ConvertToDnf(l);
        var right := ConvertToDnf(r);
        dnf := left + right;
      case And(l, r) =>
        var left := ConvertToDnf(l);
        var right := ConvertToDnf(r);
        dnf := DistributeOver(left, right);
    }
  }

  /** Combines every alternative on the left with every one on the right. */
  method DistributeOver(left: seq<Conjunction>, right: seq<Conjunction>) returns (result: seq<Conjunction>)
    ensures result == Distribute(left, right)
  {
    result := [];
    for i := 0 to |left|
      invariant result == Distribute(left[..i], right)
    {
      ghost var done := result;
      for j := 0 to |right|
        invariant result == done + MergeEach(left[i], right)[..j]
      {
        var merged := left[i] + right[j];
        result := result + [merged];
      }
      assert left[..i + 1][..i] == left[..i];
    }
    assert left[..|left|] == left;
  }

  lemma ConcatHolds(a: seq<Conjunction>, b: seq<Conjunction>, holds: VersionSet -> bool)
    ensures SomeHolds(a + b, holds) <==> SomeHolds(a, holds) || SomeHolds(b, holds)
  {
    if i :| 0 <= i < |a| && AllHold(a[i], holds) {
      assert AllHold((a + b)[i], holds);
    }
    if i :| 0 <= i < |b| && AllHold(b[i], holds) {
      assert AllHold((a + b)[|a| + i], holds);
    }
  }

  lemma MergeHolds(l: Conjunction, r: Conjunction, holds: VersionSet -> bool)
    ensures AllHold(l + r, holds) <==> AllHold(l, holds) && AllHold(r, holds)
  {
    if AllHold(l + r, holds) {
      assert forall i :: 0 <= i < |l| ==> (l + r)[i] == l[i];
      assert forall i :: 0 <= i < |r| ==> (l + r)[|l| + i] == r[i];
    }
  }

  lemma MergeEachHolds(l: Conjunction, right: seq<Conjunction>, holds: VersionSet -> bool)
    ensures SomeHolds(MergeEach(l, right), holds) <==> AllHold(l, holds) && SomeHolds(right, holds)
  {
    hide AllHold;
    forall i | 0 <= i < |right| ensures AllHold(MergeEach(l, right)[i], holds) <==>
      AllHold(l, holds) && AllHold(right[i], holds) {
      MergeHolds(l, right[i], holds);
    }
  }

  lemma {:induction false} DistributeHolds(left: seq<Conjunction>, right: seq<Conjunction>, holds: VersionSet -> bool)
    ensures SomeHolds(Distribute(left, right), holds) <==> SomeHolds(left, holds) && SomeHolds(right, holds)
  {
    hide SomeHolds;
    if left == [] {
      NothingHolds(holds);
    } else {
      var n := |left| - 1;
      DistributeHolds(left[..n], right, holds);
      MergeEachHolds(left[n], right, holds);
      ConcatHolds(Distribute(left[..n], right), MergeEach(left[n], right), holds);
      ConcatHolds(left[..n], [left[n]], holds);
      SingleHolds(left[n], holds);
      assert left == left[..n] + [left[n]];
    }
  }

  lemma NothingHolds(holds: VersionSet -> bool)
    ensures !SomeHolds([], holds)
  {
  }

  lemma SingleHolds(c: Conjunction, holds: VersionSet -> bool)
    ensures SomeHolds([c], holds) <==> AllHold(c, holds)
  {
    assert [c][0] == c;
  }

  /** The normal form means the same as the condition, whatever the version sets mean. */
  lemma {:induction false} DnfIsEquivalent(c: Condition, holds: VersionSet -> bool)
    ensures Eval(c, holds) <==> SomeHolds(Dnf(c), holds)
  {
    hide SomeHolds;
    match c
    case Matches(v) =>
      SingleHolds([v], holds);
      assert [v][0] == v;
    case Or(l, r) =>
      DnfIsEquivalent(l, holds);
      DnfIsEquivalent(r, holds);
      ConcatHolds(Dnf(l), Dnf(r), holds);
    case And(l, r) =>
      DnfIsEquivalent(l, holds);
      DnfIsEquivalent(r, holds);
      DistributeHolds(Dnf(l), Dnf(r), holds);
  }

  ghost predicate NoneEmpty(dnf: seq<Conjunction>) {
    dnf != [] && forall i :: 0 <= i < |dnf| ==> dnf[i] != []
  }

  lemma {:induction false} DistributeNoneEmpty(left: seq<Conjunction>, right: seq<Conjunction>)
    requires NoneEmpty(left) && NoneEmpty(right)
    ensures NoneEmpty(Distribute(left, right))
  {
    var n := |left| - 1;
    if n > 0 {
      DistributeNoneEmpty(left[..n], right);
    } else {
      assert Distribute(left[..n], right) == [];
    }
  }

  /** A condition has at least one alternative, and no alternative is vacuous. */
  lemma {:induction false} DnfNoneEmpty(c: Condition)
    ensures NoneEmpty(Dnf(c))
  {
    match c
    case Matches(v) =>
    case Or(l, r) =>
      DnfNoneEmpty(l);
      DnfNoneEmpty(r);
    case And(l, r) =>
      DnfNoneEmpty(l);
      DnfNoneEmpty(r);
      DistributeNoneEmpty(Dnf(l), Dnf(r));
  }
}
