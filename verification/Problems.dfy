/**
 The dependency problem in its own terms: solvables grouped in packages, the requirements and
 constraints that were looked at, and when a selection of solvables obeys them.
 */
module Problems {
  import opened Clauses
  import opened Conditions

  type SolvableId = nat

  /** The root stands for what the caller asked for. */
  datatype Item = Root | Solvable(id: SolvableId)

  type Choice = iset<Item>

  /** What the provider knows: the version sets a requirement accepts, and which solvables of its package match each. */
  datatype Problem = Problem(
    versionSets: Requirement -> seq<VersionSet>,
    matching: VersionSet -> seq<SolvableId>,
    nonMatching: VersionSet -> seq<SolvableId>,
    nameOf: SolvableId -> Name,
    packageOf: VersionSet -> Name)
  {
    /** A version set divides the solvables of its package into those that match and those that do not. */
    ghost predicate Valid() {
      && (forall v: VersionSet, s :: s in matching(v) ==> nameOf(s) == packageOf(v) && s !in nonMatching(v))
      && (forall v: VersionSet, s :: s in nonMatching(v) ==> nameOf(s) == packageOf(v))
    }

    /** The candidates of a requirement, per version set. */
    function Candidates(r: Requirement): (c: seq<seq<SolvableId>>)
      ensures |c| == |versionSets(r)|
    {
      seq(|versionSets(r)|, i requires 0 <= i < |versionSets(r)| => matching(versionSets(r)[i]))
    }

    ghost predicate Offers(r: Requirement, s: SolvableId) {
      exists v :: v in versionSets(r) && s in matching(v)
    }
  }

  /** One thing the encoder was told. */
  datatype Rule =
    | Needs(parent: Item, requirement: Requirement)
    | NeedsIf(parent: Item, requirement: Requirement, conjunction: Conjunction)
    | Restricts(parent: Item, versionSet: VersionSet)
    | Locks(locked: SolvableId, rival: SolvableId)
    | Excludes(item: Item)
    | Rivals(name: Name, solvable: SolvableId)

  ghost predicate SomeCandidate(p: Problem, r: Requirement, s: Choice) {
    exists c: SolvableId :: p.Offers(r, c) && Solvable(c) in s
  }

  ghost predicate SomeNonMatching(p: Problem, v: VersionSet, s: Choice) {
    exists c: SolvableId :: c in p.nonMatching(v) && Solvable(c) in s
  }

  ghost predicate SomeMatching(p: Problem, v: VersionSet, s: Choice) {
    exists c: SolvableId :: c in p.matching(v) && Solvable(c) in s
  }

  /** What the selection says of version sets. */
  ghost function Met(p: Problem, s: Choice): VersionSet -> bool {
    (x: VersionSet) => SomeMatching(p, x, s)
  }

  ghost predicate SomeRival(s: Choice, rules: set<Rule>, name: Name) {
    exists c: SolvableId :: Rivals(name, c) in rules && Solvable(c) in s
  }

  /** How a condition on a version set is read: no solvable that does not match is selected or, if all match, one
      that can be selected is. */
  ghost predicate Unrefuted(p: Problem, s: Choice, rules: set<Rule>, x: VersionSet) {
    if p.nonMatching(x) != [] then !SomeNonMatching(p, x, s) else SomeRival(s, rules, p.packageOf(x))
  }

  ghost predicate AllUnrefuted(p: Problem, s: Choice, rules: set<Rule>, conjunction: Conjunction) {
    forall x :: x in conjunction ==> Unrefuted(p, s, rules, x)
  }

  /** A selection obeys a rule. */
  ghost predicate Obeys(p: Problem, s: Choice, rules: set<Rule>, rule: Rule) {
    match rule
    case Needs(parent, r) => parent in s ==> SomeCandidate(p, r, s)
    case Restricts(parent, v) => parent in s ==> !SomeNonMatching(p, v, s)
    case Locks(_, rival) => Solvable(rival) !in s
    case Excludes(item) => item !in s
    case NeedsIf(parent, r, conjunction) =>
      parent in s && AllUnrefuted(p, s, rules, conjunction) ==> SomeCandidate(p, r, s)
    case Rivals(_, _) => true
  }

  /** At most one solvable of a package, among those that can be selected. */
  ghost predicate OnePerPackage(s: Choice, rules: set<Rule>) {
    forall name, c, d ::
      Rivals(name, c) in rules && Rivals(name, d) in rules && Solvable(c) in s && Solvable(d) in s ==> c == d
  }

  /** The direct reading of the problem: the root and everything the rules ask for. */
  ghost predicate IsSolution(p: Problem, s: Choice, rules: set<Rule>) {
    && Root in s
    && OnePerPackage(s, rules)
    && forall rule :: rule in rules ==> Obeys(p, s, rules, rule)
  }
}
