/**
 What the encoder has emitted so far and what each variable and clause stands for.
 */
module Encoding {
  import opened Sat
  import opened Clauses
  import opened AtMostOne
  import opened Conditions
  import opened Problems

  /** What a variable was allocated for. */
  datatype Origin =
    | OfItem(item: Item)
    | Gate(requirement: Requirement)
    | Violation(versionSet: VersionSet)
    | AtLeastOne(name: Name)
    | Helper(name: Name)

  datatype Tracker = Tracker(variables: seq<Var>, helpers: seq<Var>)

  /** The variables: each is numbered by its place in `origins`. */
  datatype Variables = Variables(
    origins: seq<Origin>,
    items: map<Item, Var>,
    gates: map<Requirement, Var>,
    violations: map<VersionSet, Var>,
    trackers: map<Name, Tracker>,
    selected: map<Name, Var>,
    newSelected: map<Name, Var>)
  {
    predicate Is(v: Var, o: Origin) { v < |origins| && origins[v] == o }

    predicate IsItem(v: Var) { v < |origins| && origins[v].OfItem? }

    function ItemOf(v: Var): Item { if IsItem(v) then origins[v].item else Root }

    /** The variable of an item; items get theirs when they are first met. */
    function VarOf(i: Item): Var { if i in items then items[i] else ROOT }

    /** The variable that tells whether a package is selected, if one was allocated. */
    function SelectedVar(name: Name): Option<Var> {
      if name in selected then Some(selected[name]) else if name in newSelected then Some(newSelected[name]) else None
    }

    function TrackerOf(name: Name): Tracker { if name in trackers then trackers[name] else Tracker([], []) }
  }

  predicate Stands(origins: seq<Origin>, v: Var, o: Origin) { v < |origins| && origins[v] == o }

  /** Items and their variables name each other. */
  ghost predicate ItemsOk(origins: seq<Origin>, items: map<Item, Var>) {
    && Root in items && items[Root] == ROOT
    && (forall i :: i in items ==> Stands(origins, items[i], OfItem(i)))
    && (forall v :: 0 <= v < |origins| && origins[v].OfItem? ==>
          origins[v].item in items && items[origins[v].item] == v)
  }

  ghost predicate GatesOk(origins: seq<Origin>, gates: map<Requirement, Var>) {
    forall r :: r in gates ==> Stands(origins, gates[r], Gate(r))
  }

  ghost predicate ViolationsOk(origins: seq<Origin>, violations: map<VersionSet, Var>) {
    forall x :: x in violations ==> Stands(origins, violations[x], Violation(x))
  }

  ghost predicate PackagesOk(origins: seq<Origin>, packages: map<Name, Var>) {
    forall n :: n in packages ==> Stands(origins, packages[n], AtLeastOne(n))
  }

  /** Every variable stands for what it was allocated for. */
  ghost predicate VariablesOk(vs: Variables) {
    && ItemsOk(vs.origins, vs.items) && GatesOk(vs.origins, vs.gates) && ViolationsOk(vs.origins, vs.violations)
    && PackagesOk(vs.origins, vs.selected) && PackagesOk(vs.origins, vs.newSelected)
  }

  ghost predicate TrackerGrows(t: Tracker, t': Tracker) { t.variables <= t'.variables && t.helpers <= t'.helpers }

  ghost predicate ItemsGrow(items: map<Item, Var>, items': map<Item, Var>) {
    forall i :: i in items ==> i in items' && items'[i] == items[i]
  }

  ghost predicate SharedGrow(shared: map<nat, Var>, shared': map<nat, Var>) {
    forall i :: i in shared ==> i in shared' && shared'[i] == shared[i]
  }

  ghost predicate PackagesGrow(vs: Variables, vs': Variables) {
    forall n: Name :: vs.SelectedVar(n).Some? ==> vs'.SelectedVar(n) == vs.SelectedVar(n)
  }

  ghost predicate TrackersGrow(trackers: map<Name, Tracker>, trackers': map<Name, Tracker>) {
    forall n :: n in trackers ==> n in trackers' && TrackerGrows(trackers[n], trackers'[n])
  }

  ghost predicate VariablesGrow(vs: Variables, vs': Variables) {
    && vs.origins <= vs'.origins && ItemsGrow(vs.items, vs'.items)
    && SharedGrow(vs.gates, vs'.gates) && SharedGrow(vs.violations, vs'.violations)
    && PackagesGrow(vs, vs') && TrackersGrow(vs.trackers, vs'.trackers)
  }

  /** The stored candidates of a requirement are the variables of the solvables it offers. */
  ghost predicate CandidatesOk(p: Problem, vs: Variables, tb: Tables, r: Requirement) {
    var c := CandidatesOf(tb, r);
    && (forall v :: v in c ==> vs.IsItem(v) && vs.ItemOf(v).Solvable? && p.Offers(r, vs.ItemOf(v).id))
    && (forall s: SolvableId :: p.Offers(r, s) ==> Solvable(s) in vs.items && vs.items[Solvable(s)] in c)
  }

  /** The variables of the given solvables, per version set. */
  ghost function VarsOf(vs: Variables, candidates: seq<seq<SolvableId>>): (r: seq<seq<Var>>)
    ensures |r| == |candidates|
    ensures forall i :: 0 <= i < |r| ==>
      |r[i]| == |candidates[i]| && forall j :: 0 <= j < |r[i]| ==> r[i][j] == vs.VarOf(Solvable(candidates[i][j]))
  {
    seq(|candidates|, i requires 0 <= i < |candidates| =>
      seq(|candidates[i]|, j requires 0 <= j < |candidates[i]| => vs.VarOf(Solvable(candidates[i][j]))))
  }

  ghost predicate AllInterned(vs: Variables, candidates: seq<seq<SolvableId>>) {
    forall i, j :: 0 <= i < |candidates| && 0 <= j < |candidates[i]| ==> Solvable(candidates[i][j]) in vs.items
  }

  /** The candidates are stored in the order the provider sorted them, per version set. */
  ghost predicate StoredOk(p: Problem, vs: Variables, tb: Tables, r: Requirement) {
    r in tb.candidates && AllInterned(vs, p.Candidates(r)) && tb.candidates[r] == VarsOf(vs, p.Candidates(r))
  }

  ghost predicate TablesOk(p: Problem, vs: Variables, tb: Tables) {
    forall r :: r in tb.candidates ==> CandidatesOk(p, vs, tb, r) && StoredOk(p, vs, tb, r)
  }

  ghost predicate TablesGrow(tb: Tables, tb': Tables) {
    && (forall r :: r in tb.candidates ==> r in tb'.candidates && tb'.candidates[r] == tb.candidates[r])
    && tb.disjunctions <= tb'.disjunctions
  }

  /** The solvable behind a variable does not match the version set. */
  ghost predicate IsNonMatching(p: Problem, vs: Variables, x: VersionSet, v: Var) {
    vs.IsItem(v) && vs.ItemOf(v).Solvable? && vs.ItemOf(v).id in p.nonMatching(x)
  }

  /** The literals hold every one that refutes the version set. */
  ghost predicate Covers(p: Problem, vs: Variables, literals: seq<Literal>, x: VersionSet) {
    if p.nonMatching(x) != [] then
      forall s: SolvableId :: s in p.nonMatching(x) ==>
        Solvable(s) in vs.items && Positive(vs.VarOf(Solvable(s))) in literals
    else vs.SelectedVar(p.packageOf(x)).Some? && Negative(vs.SelectedVar(p.packageOf(x)).value) in literals
  }

  ghost predicate CoversAll(p: Problem, vs: Variables, literals: seq<Literal>, conjunction: Conjunction) {
    forall x :: x in conjunction ==> Covers(p, vs, literals, x)
  }

  ghost predicate RefutesExactly(p: Problem, vs: Variables, literals: seq<Literal>, conjunction: Conjunction) {
    CoversAll(p, vs, literals, conjunction) && ConditionOk(p, vs, conjunction, literals)
  }

  /** The literals of the condition are exactly those that refute a version set of the alternative. */
  ghost predicate ConditionJustified(p: Problem, vs: Variables, tb: Tables, rules: set<Rule>, parent: Item,
                                     r: Requirement, d: DisjunctionId) {
    d < |tb.disjunctions| && exists c :: NeedsIf(parent, r, c) in rules && RefutesExactly(p, vs, tb.disjunctions[d], c)
  }

  /** A clause says no more than the rules and the definitions of the auxiliary variables do. */
  ghost predicate Justified(p: Problem, vs: Variables, tb: Tables, rules: set<Rule>, k: Kind) {
    match k
    case InstallRoot => true
    case Requires(parent, condition, r) =>
      && r in tb.candidates
      && (if condition.Some? then vs.IsItem(parent) &&
                                  ConditionJustified(p, vs, tb, rules, vs.ItemOf(parent), r, condition.value)
          else vs.Is(parent, Gate(r)) || (vs.IsItem(parent) && Needs(vs.ItemOf(parent), r) in rules))
    case AnyOf(x, m) =>
      x < |vs.origins| &&
      (match vs.origins[x]
       case Gate(r) => vs.IsItem(m) && Needs(vs.ItemOf(m), r) in rules
       case AtLeastOne(name) => m in vs.TrackerOf(name).variables
       case _ => false)
    case Constrains(parent, f, x) => vs.IsItem(parent) && Restricts(vs.ItemOf(parent), x) in rules &&
    IsNonMatching(p, vs, x, f)
    case ConstrainsExcluded(f, aux, x) => vs.Is(aux, Violation(x)) && IsNonMatching(p, vs, x, f)
    case ConstrainsParent(parent, aux, x) => vs.Is(aux, Violation(x)) && vs.IsItem(parent) &&
    Restricts(vs.ItemOf(parent), x) in rules
    case Lock(l, rival) => vs.IsItem(rival) && vs.ItemOf(rival).Solvable? &&
    exists c :: Locks(c, vs.ItemOf(rival).id) in rules
    case Excluded(v) => vs.IsItem(v) && Excludes(vs.ItemOf(v)) in rules
    case ForbidMultipleInstances(c, l, name) => IsForced(vs.TrackerOf(name).variables, vs.TrackerOf(name).helpers,
                                                         (c, l))
    case Learnt(_) => false
  }

  ghost predicate AllJustified(p: Problem, vs: Variables, tb: Tables, rules: set<Rule>, clauses: seq<Kind>) {
    forall id :: 0 <= id < |clauses| ==> Justified(p, vs, tb, rules, clauses[id])
  }

  /** The literal is false whenever the version set is matched: a solvable that does not match, or that the
      package is not selected. */
  ghost predicate Refutes(p: Problem, vs: Variables, x: VersionSet, l: Literal) {
    if p.nonMatching(x) != [] then !l.negate && IsNonMatching(p, vs, x, l.variable)
    else l.negate && vs.SelectedVar(p.packageOf(x)) == Some(l.variable)
  }

  /** Each literal of a condition refutes one of its version sets. */
  ghost predicate ConditionOk(p: Problem, vs: Variables, conjunction: Conjunction, literals: seq<Literal>) {
    forall l :: l in literals ==> exists x :: x in conjunction && Refutes(p, vs, x, l)
  }

  /** The clause for one alternative of a condition. */
  ghost predicate ConditionPresent(p: Problem, vs: Variables, tb: Tables, clauses: seq<Kind>, parent: Var,
                                   r: Requirement, conjunction: Conjunction, d: DisjunctionId) {
    Requires(parent, Some(d), r) in clauses && d < |tb.disjunctions| &&
    ConditionOk(p, vs, conjunction, tb.disjunctions[d])
  }

  /** Clauses for the restriction, one per solvable that does not match or through the shared variable. */
  ghost predicate RestrictionPresent(p: Problem, vs: Variables, clauses: seq<Kind>, parent: Item, x: VersionSet) {
    || (forall s: SolvableId :: s in p.nonMatching(x) ==>
          Solvable(s) in vs.items && Constrains(vs.VarOf(parent), vs.VarOf(Solvable(s)), x) in clauses)
    || (x in vs.violations && ConstrainsParent(vs.VarOf(parent), vs.violations[x], x) in clauses)
  }

  /** What a rule asks for is in the clauses. */
  ghost predicate Present(p: Problem, vs: Variables, tb: Tables, clauses: seq<Kind>, pendingForbid: seq<(Name, Var)>,
                          rule: Rule) {
    match rule
    case Needs(parent, r) =>
      && parent in vs.items && r in tb.candidates
      && (Requires(vs.items[parent], None, r) in clauses ||
          (r in vs.gates && AnyOf(vs.gates[r], vs.items[parent]) in clauses))
    case NeedsIf(parent, r, conjunction) =>
      && parent in vs.items && r in tb.candidates
      && exists d: DisjunctionId :: ConditionPresent(p, vs, tb, clauses, vs.items[parent], r, conjunction, d)
    case Restricts(parent, x) => parent in vs.items && RestrictionPresent(p, vs, clauses, parent, x)
    case Locks(locked, rival) =>
      && Solvable(locked) in vs.items && Solvable(rival) in vs.items
      && Lock(vs.items[Solvable(locked)], vs.items[Solvable(rival)]) in clauses
    case Excludes(item) => item in vs.items && Excluded(vs.items[item]) in clauses
    case Rivals(name, s) =>
      Solvable(s) in vs.items &&
      (vs.items[Solvable(s)] in vs.TrackerOf(name).variables || (name, vs.items[Solvable(s)]) in pendingForbid)
  }

  ghost predicate AllPresent(p: Problem, vs: Variables, tb: Tables, clauses: seq<Kind>,
                             pendingForbid: seq<(Name, Var)>, rules: set<Rule>) {
    forall rule :: rule in rules ==> Present(p, vs, tb, clauses, pendingForbid, rule)
  }

  /** The clauses that define the shared variables are there. */
  ghost predicate SharedOk(p: Problem, vs: Variables, tb: Tables, clauses: seq<Kind>) {
    && (forall r :: r in vs.gates ==> r in tb.candidates && Requires(vs.gates[r], None, r) in clauses)
    && (forall x, s: SolvableId :: x in vs.violations && s in p.nonMatching(x) ==>
          Solvable(s) in vs.items && ConstrainsExcluded(vs.VarOf(Solvable(s)), vs.violations[x], x) in clauses)
  }

  /** A tracker's variables are rivals of one package, and all its implications are there. */
  ghost predicate TrackerOk(vs: Variables, rules: set<Rule>, clauses: seq<Kind>, name: Name, t: Tracker) {
    && Distinct(t.variables) && Distinct(t.helpers) && Apart(t.variables, t.helpers) &&
       IsCeilLog2(|t.variables|, |t.helpers|)
    && (forall v :: v in t.variables ==>
          vs.IsItem(v) && vs.ItemOf(v).Solvable? && Rivals(name, vs.ItemOf(v).id) in rules)
    && (forall v :: v in t.helpers ==> vs.Is(v, Helper(name)))
    && (forall c: Implication :: IsForced(t.variables, t.helpers, c) ==>
          ForbidMultipleInstances(c.0, c.1, name) in clauses)
  }

  ghost predicate TrackersOk(vs: Variables, rules: set<Rule>, clauses: seq<Kind>) {
    forall n :: n in vs.trackers ==> TrackerOk(vs, rules, clauses, n, vs.trackers[n])
  }

  /** A package that is tracked as selected is selected when any of its solvables is. */
  ghost predicate SelectedOk(vs: Variables, clauses: seq<Kind>) {
    forall n, v :: n in vs.selected && v in vs.TrackerOf(n).variables ==> AnyOf(vs.selected[n], v) in clauses
  }

  /** What waits to be tracked are rivals. */
  ghost predicate PendingOk(vs: Variables, rules: set<Rule>, pendingForbid: seq<(Name, Var)>) {
    forall n, v :: (n, v) in pendingForbid ==>
      vs.IsItem(v) && vs.ItemOf(v).Solvable? && Rivals(n, vs.ItemOf(v).id) in rules
  }

  /** A solvable that can be selected is a rival, or its package allows several. */
  ghost predicate Selectable(p: Problem, rules: set<Rule>, multiple: set<Name>, c: SolvableId) {
    Rivals(p.nameOf(c), c) in rules || p.nameOf(c) in multiple
  }

  /** So are the solvables that do not match a version set of the alternative. */
  ghost predicate ComplementSelectable(p: Problem, rules: set<Rule>, multiple: set<Name>, conjunction: Conjunction) {
    forall x, c: SolvableId :: x in conjunction && c in p.nonMatching(x) ==> Selectable(p, rules, multiple, c)
  }

  /** Every solvable that a clause names positively can be selected. */
  ghost predicate AllSelectable(p: Problem, tb: Tables, rules: set<Rule>, multiple: set<Name>) {
    && (forall r, c: SolvableId :: r in tb.candidates && p.Offers(r, c) ==> Selectable(p, rules, multiple, c))
    && (forall rule :: rule in rules && rule.NeedsIf? ==> ComplementSelectable(p, rules, multiple, rule.conjunction))
  }
}
