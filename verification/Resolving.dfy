/**
 Encoding and solving together: the search over the emitted clauses finds a selection that obeys
 all rules, conditional ones included, or there is none that obeys the clauses' reading of them.
 */
module Resolving {
  import opened Sat
  import opened Clauses
  import opened Trails
  import opened DecisionTrackers
  import opened AtMostOne
  import opened Conditions
  import opened Problems
  import opened Encoding
  import opened Compilation
  import opened Solvers
  import opened Support
  import opened Watching
  import Models
  import Database
  import SearchSteps

  ghost predicate Unconditional(rules: set<Rule>) {
    forall rule :: rule in rules ==> !rule.NeedsIf?
  }

  /** No alternative of a condition is vacuous, and no version set is of a package that allows several solvables. */
  ghost predicate ConditionsFit(p: Problem, rules: set<Rule>, multiple: set<Name>) {
    forall rule :: rule in rules && rule.NeedsIf? ==>
      rule.conjunction != [] && forall x :: x in rule.conjunction ==> p.packageOf(x) !in multiple
  }

  /** No solvable restricts its own package in a way that rules itself out. */
  ghost predicate NoneExcludesItself(p: Problem, rules: set<Rule>) {
    forall c: SolvableId, x: VersionSet :: Restricts(Solvable(c), x) in rules ==> c !in p.nonMatching(x)
  }

  /** A selection obeys a rule as it is written: a conditional requirement asks for a candidate when its version
      sets are matched. */
  ghost predicate DirectlyObeys(p: Problem, s: Choice, rules: set<Rule>, rule: Rule) {
    match rule
    case NeedsIf(parent, r, conjunction) => parent in s && AllHold(conjunction, Met(p, s)) ==> SomeCandidate(p, r, s)
    case _ => Obeys(p, s, rules, rule)
  }

  ghost predicate IsDirectSolution(p: Problem, s: Choice, rules: set<Rule>) {
    && Root in s && OnePerPackage(s, rules)
    && forall rule :: rule in rules ==> DirectlyObeys(p, s, rules, rule)
  }

  function WithoutRoot(clauses: seq<Kind>): (r: seq<Kind>)
    ensures forall k :: k in r <==> k in clauses && k != InstallRoot
  {
    if clauses == [] then [] else (if clauses[0] == InstallRoot then [] else [clauses[0]]) + WithoutRoot(clauses[1..])
  }

  /** The selection that an assignment stands for. */
  ghost function ChoiceOf(vs: Variables, a: Assignment): Choice {
    iset i: Item | i in vs.items && vs.items[i] in a
  }

  lemma ChoiceAgrees(vs: Variables, a: Assignment)
    requires VariablesOk(vs)
    ensures Agrees(a, vs, ChoiceOf(vs, a))
  {
  }

  ghost function SearchTables(tb: Tables): Tables { Tables([], tb.candidates, tb.disjunctions) }

  /** Every variable of a justified clause exists, and the clause has the shape the search expects. */
  lemma JustifiedIsAdmissible(p: Problem, vs: Variables, tb: Tables, clauses: seq<Kind>, rules: set<Rule>,
                              multiple: set<Name>, k: Kind)
    requires VariablesOk(vs) && TablesOk(p, vs, tb) && TrackersOk(vs, rules, clauses) && Justified(p, vs, tb, rules, k)
    requires ConditionsFit(p, rules, multiple) && NoneExcludesItself(p, rules) && k != InstallRoot
    ensures SearchSteps.Admissible(k, SearchTables(tb), |vs.origins|) &&
            Literals(k, SearchTables(tb)) == Literals(k, tb)
  {
    hide TrackersOk, IsForced, StoredOk, CandidatesOk, ConditionJustified;
    RootVariable(vs);
    match k
    case Requires(parent, condition, r) =>
      if condition.None? {
        RequiresVariables(p, vs, tb, parent, r);
      } else {
        ConditionalIsAdmissible(p, vs, tb, rules, multiple, parent, r, condition.value);
      }
    case AnyOf(x, m) =>
      if vs.origins[x].AtLeastOne? {
        TrackedAreItems(vs, rules, clauses, vs.origins[x].name);
      }
    case ForbidMultipleInstances(v, l, name) =>
      ForcedVariables(vs, clauses, rules, name, (v, l));
    case Constrains(parent, f, x) =>
    case ConstrainsExcluded(f, aux, x) =>
    case ConstrainsParent(parent, aux, x) =>
    case Lock(l, rival) =>
    case Excluded(v) =>
  }

  lemma ConditionalIsAdmissible(p: Problem, vs: Variables, tb: Tables, rules: set<Rule>, multiple: set<Name>,
                                parent: Var, r: Requirement, d: DisjunctionId)
    requires VariablesOk(vs) && r in tb.candidates && CandidatesOk(p, vs, tb, r) && ConditionsFit(p, rules, multiple)
    requires vs.IsItem(parent) && ConditionJustified(p, vs, tb, rules, vs.ItemOf(parent), r, d)
    ensures SearchSteps.Admissible(Requires(parent, Some(d), r), SearchTables(tb), |vs.origins|)
    ensures Literals(Requires(parent, Some(d), r), SearchTables(tb)) == Literals(Requires(parent, Some(d), r), tb)
  {
    hide VariablesOk, CandidatesOk, Covers;
    var literals := tb.disjunctions[d];
    var c :| NeedsIf(vs.ItemOf(parent), r, c) in rules && RefutesExactly(p, vs, literals, c);
    var rule := NeedsIf(vs.ItemOf(parent), r, c);
    assert rule.conjunction != [] && c[0] in c;
    CoversSomething(p, vs, literals, c[0]);
    RequiresVariables(p, vs, tb, parent, r);
    forall l | l in literals ensures l.variable < |vs.origins| && l != Negative(parent) {
      var x :| x in c && Refutes(p, vs, x, l);
      RefutingVariable(p, vs, x, l);
    }
    var k, k' := Requires(parent, Some(d), r), Requires(parent, None, r);
    assert forall l :: l in Literals(k, tb) ==> l in Literals(k', tb) || l in literals;
  }

  lemma CoversSomething(p: Problem, vs: Variables, literals: seq<Literal>, x: VersionSet)
    requires Covers(p, vs, literals, x)
    ensures literals != []
  {
    if p.nonMatching(x) != [] {
      assert p.nonMatching(x)[0] in p.nonMatching(x);
    }
  }

  lemma RefutingVariable(p: Problem, vs: Variables, x: VersionSet, l: Literal)
    requires VariablesOk(vs) && Refutes(p, vs, x, l)
    ensures l.variable < |vs.origins| && (l.negate ==> !vs.IsItem(l.variable))
  {
    hide ItemsOk, GatesOk, ViolationsOk;
  }

  lemma RequiresVariables(p: Problem, vs: Variables, tb: Tables, parent: Var, r: Requirement)
    requires CandidatesOk(p, vs, tb, r) && parent < |vs.origins|
    ensures forall l :: l in Literals(Requires(parent, None, r), tb) ==> l.variable < |vs.origins|
  {
    var vars := CandidatesOf(tb, r);
    forall l | l in Literals(Requires(parent, None, r), tb) ensures l.variable < |vs.origins| {
      if l != Negative(parent) {
        assert l in Positives(vars);
        var i :| 0 <= i < |vars| && l == Positive(vars[i]);
        assert vars[i] in vars;
      }
    }
  }

  lemma ForcedVariables(vs: Variables, clauses: seq<Kind>, rules: set<Rule>, name: Name, c: Implication)
    requires TrackersOk(vs, rules, clauses) && IsForced(vs.TrackerOf(name).variables, vs.TrackerOf(name).helpers, c)
    ensures vs.IsItem(c.0) && vs.Is(c.1.variable, Helper(name))
  {
    var t := vs.TrackerOf(name);
    var i: nat, b: nat :| i < |t.variables| && b < |t.helpers| && c == Forced(t.variables, t.helpers, i, b);
    assert TrackerOk(vs, rules, clauses, name, t);
    assert t.variables[i] in t.variables && t.helpers[b] in t.helpers;
  }

  lemma AllAdmissible(p: Problem, vs: Variables, tb: Tables, clauses: seq<Kind>, rules: set<Rule>, multiple: set<Name>)
    requires Compiled(p, vs, tb, clauses, rules) && ConditionsFit(p, rules, multiple) && NoneExcludesItself(p, rules)
    ensures forall k :: k in WithoutRoot(clauses) ==>
      SearchSteps.Admissible(k, SearchTables(tb), |vs.origins|) && Literals(k, SearchTables(tb)) == Literals(k, tb)
  {
    hide VariablesOk, TablesOk, SharedOk, TrackersOk, SelectedOk, AllPresent, Justified, SearchSteps.Admissible,
         Literals, SearchTables;
    forall k | k in WithoutRoot(clauses)
      ensures SearchSteps.Admissible(k, SearchTables(tb), |vs.origins|) &&
              Literals(k, SearchTables(tb)) == Literals(k, tb)
    {
      assert k in clauses && Justified(p, vs, tb, rules, k);
      JustifiedIsAdmissible(p, vs, tb, clauses, rules, multiple, k);
    }
  }

  lemma CompiledVariables(p: Problem, vs: Variables, tb: Tables, clauses: seq<Kind>, rules: set<Rule>)
    requires Compiled(p, vs, tb, clauses, rules)
    ensures VariablesOk(vs) && InstallRoot in clauses && TrackersOk(vs, rules, clauses)
  {
    hide VariablesOk, TablesOk, AllJustified, SharedOk, TrackersOk, SelectedOk, AllPresent;
  }

  /** What a search has found out about the clauses: none is unit or falsified, what is true was named positively,
      and those that are not satisfied by the completion are waiting. */
  ghost predicate Found(t: Trail, tb: Tables, clauses: seq<Kind>) {
    && Wf(t) && ROOT in Models.Completion(t)
    && (forall k :: k in clauses ==> Settled(t, Literals(k, tb)))
    && (forall k :: k in clauses ==> (Satisfies(Models.Completion(t), Literals(k, tb)) <==> !Models.Waiting(t, tb, k)))
    && (forall v: Var :: IsTrue(t, Positive(v)) ==> exists k :: k in clauses && Positive(v) in Literals(k, tb))
  }

  lemma SolvedIsFound(t: Trail, tb: Tables, clauses: seq<Kind>, kinds: seq<Kind>, db: seq<Clause>)
    requires kinds == [InstallRoot] + WithoutRoot(clauses) && |db| == |kinds| && InstallRoot in clauses
    requires forall c :: 0 <= c < |kinds| ==> db[c] == Literals(kinds[c], tb) && !kinds[c].Learnt?
    requires Wf(t) && SearchSteps.Answers(t, SearchTables(tb), kinds, db) && Supported(t, db) &&
             forall c :: 0 <= c < |db| ==> Settled(t, db[c])
    ensures Found(t, tb, clauses)
  {
    hide Wf, Literals, Satisfies, Settled, Models.Completion, Models.Waiting, IsTrue;
    forall k | k in clauses
      ensures Settled(t, Literals(k, tb)) &&
              (Satisfies(Models.Completion(t), Literals(k, tb)) <==> !Models.Waiting(t, tb, k))
    {
      assert k in kinds;
      var c :| 0 <= c < |kinds| && kinds[c] == k;
      assert db[c] == Literals(k, tb);
      SearchSteps.WaitingIgnoresLearnts(t, tb, SearchTables(tb), k);
    }
    forall v: Var | IsTrue(t, Positive(v)) ensures exists k :: k in clauses && Positive(v) in Literals(k, tb) {
      var c :| 0 <= c < |db| && Positive(v) in db[c];
      assert kinds[c] in clauses;
    }
  }

  /** A literal of a binary clause that is not unit, with the other false, is true. */
  lemma OtherIsTrue(t: Trail, c: Clause, l: Literal, l': Literal)
    requires Wf(t) && c == [l, l'] && Settled(t, c) && IsFalse(t, l)
    ensures IsTrue(t, l')
  {
  }

  /** At most one: with one tracked variable true, propagation has made every other one false through the helpers. */
  lemma RivalIsFalse(t: Trail, tb: Tables, clauses: seq<Kind>, vs: Variables, rules: set<Rule>, name: Name, i: nat,
                     j: nat)
    requires Wf(t) && TrackersOk(vs, rules, clauses) && forall k :: k in clauses ==> Settled(t, Literals(k, tb))
    requires i < |vs.TrackerOf(name).variables| && j < |vs.TrackerOf(name).variables| && i != j
    requires IsTrue(t, Positive(vs.TrackerOf(name).variables[i]))
    ensures IsFalse(t, Positive(vs.TrackerOf(name).variables[j]))
  {
    hide Settled, Bit, Distinct, Apart;
    var w := vs.TrackerOf(name);
    assert TrackerOk(vs, rules, clauses, name, w);
    var b := BitsDiffer(i, j, |w.helpers|);
    var ci, cj := Forced(w.variables, w.helpers, i, b), Forced(w.variables, w.helpers, j, b);
    assert IsForced(w.variables, w.helpers, ci) && IsForced(w.variables, w.helpers, cj);
    var ki, kj := ForbidMultipleInstances(ci.0, ci.1, name), ForbidMultipleInstances(cj.0, cj.1, name);
    assert ki in clauses && kj in clauses && Literals(kj, tb) == [Negative(cj.0), cj.1];
    OtherIsTrue(t, Literals(ki, tb), Negative(ci.0), ci.1);
    OtherFirst(t, Literals(kj, tb), Negative(cj.0), cj.1);
  }

  lemma OtherFirst(t: Trail, c: Clause, l: Literal, l': Literal)
    requires Wf(t) && c == [l, l'] && Settled(t, c) && IsFalse(t, l')
    ensures IsTrue(t, l)
  {
  }

  /** An item that a clause names positively is the root or a solvable that can be selected. */
  lemma NamedIsSelectable(p: Problem, vs: Variables, tb: Tables, clauses: seq<Kind>, rules: set<Rule>,
                          multiple: set<Name>, k: Kind, v: Var)
    requires VariablesOk(vs) && TablesOk(p, vs, tb) && TrackersOk(vs, rules, clauses) &&
             Justified(p, vs, tb, rules, k) && AllSelectable(p, tb, rules, multiple)
    requires Positive(v) in Literals(k, tb) && vs.IsItem(v)
    ensures v == ROOT || (vs.ItemOf(v).Solvable? && Selectable(p, rules, multiple, vs.ItemOf(v).id))
  {
    hide TrackersOk, IsForced, StoredOk, CandidatesOk, ConditionJustified, Selectable, ComplementSelectable;
    match k
    case InstallRoot =>
    case Requires(parent, condition, r) =>
      if Positive(v) in ConditionOf(tb, condition) {
        ComplementIsNamed(p, vs, tb, rules, multiple, vs.ItemOf(parent), r, condition.value, v);
      } else {
        CandidateIsNamed(p, vs, tb, rules, multiple, parent, condition, r, v);
      }
    case ForbidMultipleInstances(c, l, name) =>
      ForcedVariables(vs, clauses, rules, name, (c, l));
    case _ =>
  }

  lemma CandidateIsNamed(p: Problem, vs: Variables, tb: Tables, rules: set<Rule>, multiple: set<Name>, parent: Var,
                         condition: Option<DisjunctionId>,
                         r: Requirement, v: Var)
    requires r in tb.candidates && CandidatesOk(p, vs, tb, r) && AllSelectable(p, tb, rules, multiple)
    requires Positive(v) in Literals(Requires(parent, condition, r), tb) && Positive(v) !in ConditionOf(tb, condition)
    ensures vs.ItemOf(v).Solvable? && Selectable(p, rules, multiple, vs.ItemOf(v).id)
  {
    hide Selectable, Literals, ComplementSelectable;
    Models.RequiresLiterals(Requires(parent, condition, r), tb, Positive(v));
  }

  lemma ComplementIsNamed(p: Problem, vs: Variables, tb: Tables, rules: set<Rule>, multiple: set<Name>, parent: Item,
                          r: Requirement, d: DisjunctionId, v: Var)
    requires ConditionJustified(p, vs, tb, rules, parent, r, d) && AllSelectable(p, tb, rules, multiple) &&
             Positive(v) in tb.disjunctions[d]
    ensures vs.ItemOf(v).Solvable? && Selectable(p, rules, multiple, vs.ItemOf(v).id)
  {
    hide Selectable, CoversAll;
    var c :| NeedsIf(parent, r, c) in rules && RefutesExactly(p, vs, tb.disjunctions[d], c);
    var x :| x in c && Refutes(p, vs, x, Positive(v));
    var rule := NeedsIf(parent, r, c);
    assert ComplementSelectable(p, rules, multiple, rule.conjunction);
  }

  /** Whatever the search chose can be selected: a rival, unless its package allows several. */
  lemma ChosenIsSelectable(p: Problem, vs: Variables, tb: Tables, clauses: seq<Kind>, rules: set<Rule>,
                           multiple: set<Name>, t: Trail, c: SolvableId)
    requires Compiled(p, vs, tb, clauses, rules) && AllSelectable(p, tb, rules, multiple) && Found(t, tb, clauses)
    requires Solvable(c) in ChoiceOf(vs, Models.Completion(t))
    ensures Selectable(p, rules, multiple, c)
  {
    hide VariablesOk, TablesOk, Justified, SharedOk, TrackersOk, SelectedOk, AllPresent, AllSelectable, Settled,
         Satisfies, Literals, Wf, Selectable, Models.Waiting;
    var v := vs.items[Solvable(c)];
    var k :| k in clauses && Positive(v) in Literals(k, tb);
    assert Justified(p, vs, tb, rules, k);
    ItemVariable(vs, Solvable(c));
    RootVariable(vs);
    NamedIsSelectable(p, vs, tb, clauses, rules, multiple, k, v);
  }

  /** The version set is matched by the selection: every literal that would refute it is false. */
  lemma MatchedIsNotRefuted(p: Problem, vs: Variables, tb: Tables, clauses: seq<Kind>, rules: set<Rule>,
                            multiple: set<Name>, t: Trail,
                            conjunction: Conjunction, x: VersionSet, l: Literal)
    requires p.Valid() && Compiled(p, vs, tb, clauses, rules) && AllSelectable(p, tb, rules, multiple) &&
             Found(t, tb, clauses)
    requires x in conjunction && ComplementSelectable(p, rules, multiple, conjunction) && p.packageOf(x) !in multiple
    requires SomeMatching(p, x, ChoiceOf(vs, Models.Completion(t))) && Refutes(p, vs, x, l)
    ensures IsFalse(t, l)
  {
    hide VariablesOk, TablesOk, AllJustified, SharedOk, TrackersOk, AllSelectable, Settled, Satisfies, Literals,
         Wf, Models.Waiting, AllPresent, IsFalse;
    var name, s := p.packageOf(x), ChoiceOf(vs, Models.Completion(t));
    var c: SolvableId :| c in p.matching(x) && Solvable(c) in s;
    ChosenIsSelectable(p, vs, tb, clauses, rules, multiple, t, c);
    RivalIsTracked(p, vs, tb, clauses, rules, name, c);
    var v := vs.items[Solvable(c)];
    if p.nonMatching(x) != [] {
      var d := vs.ItemOf(l.variable).id;
      assert d in p.nonMatching(x) && Selectable(p, rules, multiple, d);
      RivalIsTracked(p, vs, tb, clauses, rules, name, d);
      TrackedApart(p, vs, tb, clauses, rules, t, name, c, d);
      SameVariable(vs, l.variable);
    } else {
      SelectedIsTrue(tb, clauses, t, l.variable, v);
      Opposite(t, l.variable);
    }
  }

  lemma Opposite(t: Trail, v: Var)
    requires IsTrue(t, Positive(v))
    ensures IsFalse(t, Negative(v))
  {
  }

  lemma SameVariable(vs: Variables, v: Var)
    requires VariablesOk(vs) && vs.IsItem(v)
    ensures vs.ItemOf(v) in vs.items && vs.items[vs.ItemOf(v)] == v
  {
  }

  lemma SelectedIsTrue(tb: Tables, clauses: seq<Kind>, t: Trail, selected: Var, v: Var)
    requires Wf(t) && AnyOf(selected, v) in clauses && IsTrue(t, Positive(v)) &&
             forall k :: k in clauses ==> Settled(t, Literals(k, tb))
    ensures IsTrue(t, Positive(selected))
  {
    hide Settled;
    var k := AnyOf(selected, v);
    OtherFirst(t, Literals(k, tb), Positive(selected), Negative(v));
  }

  /** Of two rivals of which one is chosen, the other is false. */
  lemma TrackedApart(p: Problem, vs: Variables, tb: Tables, clauses: seq<Kind>, rules: set<Rule>, t: Trail,
                     name: Name, c: SolvableId, d: SolvableId)
    requires VariablesOk(vs) && TrackersOk(vs, rules, clauses) && Wf(t) &&
             forall k :: k in clauses ==> Settled(t, Literals(k, tb))
    requires c != d && Solvable(c) in vs.items && Solvable(d) in vs.items && IsTrue(t, Positive(vs.items[Solvable(c)]))
    requires vs.items[Solvable(c)] in vs.TrackerOf(name).variables &&
             vs.items[Solvable(d)] in vs.TrackerOf(name).variables
    ensures IsFalse(t, Positive(vs.items[Solvable(d)]))
  {
    hide VariablesOk, TrackersOk, Settled, Literals, Wf, IsTrue, IsFalse;
    ItemVariable(vs, Solvable(c));
    ItemVariable(vs, Solvable(d));
    var ws := vs.TrackerOf(name).variables;
    var i :| 0 <= i < |ws| && ws[i] == vs.items[Solvable(c)];
    var j :| 0 <= j < |ws| && ws[j] == vs.items[Solvable(d)];
    RivalIsFalse(t, tb, clauses, vs, rules, name, i, j);
  }

  /** A conditional requirement whose version sets are matched by the selection, and whose parent is chosen, has a
      chosen candidate: its clause cannot be waiting. */
  lemma ConditionalNeedIsMet(p: Problem, vs: Variables, tb: Tables, clauses: seq<Kind>, rules: set<Rule>,
                             multiple: set<Name>, t: Trail,
                             parent: Item, r: Requirement, conjunction: Conjunction)
    requires p.Valid() && Compiled(p, vs, tb, clauses, rules) && AllSelectable(p, tb, rules, multiple) &&
             Found(t, tb, clauses)
    requires ConditionsFit(p, rules, multiple) && NeedsIf(parent, r, conjunction) in rules
    ensures var s := ChoiceOf(vs, Models.Completion(t));
            parent in s && AllHold(conjunction, Met(p, s)) ==> SomeCandidate(p, r, s)
  {
    hide VariablesOk, AllJustified, SharedOk, TrackersOk, SelectedOk, AllSelectable, Settled, Satisfies,
         Literals, Wf, SomeMatching, ConditionsFit, Agrees, CandidatesOk, SomeCandidate, Refutes,
         ComplementSelectable;
    var a := Models.Completion(t);
    var s := ChoiceOf(vs, a);
    if parent in s && AllHold(conjunction, Met(p, s)) {
      assert Present(p, vs, tb, clauses, [], NeedsIf(parent, r, conjunction));
      var v := vs.items[parent];
      var d: DisjunctionId :| ConditionPresent(p, vs, tb, clauses, v, r, conjunction, d);
      var k := Requires(v, Some(d), r);
      forall l | l in tb.disjunctions[d] ensures IsFalse(t, l) {
        var x :| x in conjunction && Refutes(p, vs, x, l);
        RuleFits(p, tb, rules, multiple, NeedsIf(parent, r, conjunction), x);
        AllHoldsAt(conjunction, Met(p, s), x);
        MatchedIsNotRefuted(p, vs, tb, clauses, rules, multiple, t, conjunction, x, l);
      }
      ChoiceAgrees(vs, a);
      ConditionalClause(p, vs, tb, a, s, v, r, d);
      NoLiteralHolds(t, tb.disjunctions[d]);
      assert !Models.Waiting(t, tb, k);
    }
  }

  lemma AllHoldsAt(conjunction: Conjunction, holds: VersionSet -> bool, x: VersionSet)
    requires AllHold(conjunction, holds) && x in conjunction
    ensures holds(x)
  {
  }

  lemma RuleFits(p: Problem, tb: Tables, rules: set<Rule>, multiple: set<Name>, rule: Rule, x: VersionSet)
    requires AllSelectable(p, tb, rules, multiple) && ConditionsFit(p, rules, multiple) && rule in rules &&
             rule.NeedsIf? && x in rule.conjunction
    ensures ComplementSelectable(p, rules, multiple, rule.conjunction) && p.packageOf(x) !in multiple
  {
    hide ComplementSelectable;
  }

  lemma NoLiteralHolds(t: Trail, literals: seq<Literal>)
    requires forall l :: l in literals ==> IsFalse(t, l)
    ensures !SomeLiteral(Models.Completion(t), literals)
  {
    forall l | l in literals ensures !Holds(Models.Completion(t), l) {
      Models.CompletionHolds(t, l);
    }
  }

  predicate IsConditional(k: Kind) { k.Requires? && k.condition.Some? }

  function Unconditioned(clauses: seq<Kind>): (r: seq<Kind>)
    ensures forall k :: k in r <==> k in clauses && !IsConditional(k)
  {
    if clauses == [] then [] else (if IsConditional(clauses[0]) then [] else [clauses[0]]) + Unconditioned(clauses[1..])
  }

  ghost function UnconditionalPart(rules: set<Rule>): set<Rule> { set rule | rule in rules && !rule.NeedsIf? }

  /** Without the conditional rules and their clauses the encoding is still complete. */
  lemma DropConditions(p: Problem, vs: Variables, tb: Tables, clauses: seq<Kind>, rules: set<Rule>)
    requires Compiled(p, vs, tb, clauses, rules)
    ensures Compiled(p, vs, tb, Unconditioned(clauses), UnconditionalPart(rules))
  {
    hide VariablesOk, TablesOk, Present, Justified, TrackerOk;
    var clauses', rules' := Unconditioned(clauses), UnconditionalPart(rules);
    forall id | 0 <= id < |clauses'| ensures Justified(p, vs, tb, rules', clauses'[id]) {
      assert clauses'[id] in clauses';
      assert Justified(p, vs, tb, rules, clauses'[id]);
      DropJustified(p, vs, tb, rules, clauses'[id]);
    }
    forall n | n in vs.trackers ensures TrackerOk(vs, rules', clauses', n, vs.trackers[n]) {
      DropTracker(vs, rules, clauses, n, vs.trackers[n]);
    }
    forall rule | rule in rules' ensures Present(p, vs, tb, clauses', [], rule) {
      DropPresent(p, vs, tb, clauses, rule);
    }
  }

  lemma DropJustified(p: Problem, vs: Variables, tb: Tables, rules: set<Rule>, k: Kind)
    requires Justified(p, vs, tb, rules, k) && !IsConditional(k)
    ensures Justified(p, vs, tb, UnconditionalPart(rules), k)
  {
    hide IsForced;
    if k.Lock? {
      var c :| Locks(c, vs.ItemOf(k.rival).id) in rules;
      assert Locks(c, vs.ItemOf(k.rival).id) in UnconditionalPart(rules);
    }
  }

  lemma DropTracker(vs: Variables, rules: set<Rule>, clauses: seq<Kind>, name: Name, t: Tracker)
    requires TrackerOk(vs, rules, clauses, name, t)
    ensures TrackerOk(vs, UnconditionalPart(rules), Unconditioned(clauses), name, t)
  {
    hide IsForced, Distinct, Apart, IsCeilLog2;
  }

  lemma DropPresent(p: Problem, vs: Variables, tb: Tables, clauses: seq<Kind>, rule: Rule)
    requires Present(p, vs, tb, clauses, [], rule) && !rule.NeedsIf?
    ensures Present(p, vs, tb, Unconditioned(clauses), [], rule)
  {
  }

  /** What the search chose obeys every rule as it is written. */
  lemma FoundIsSolution(p: Problem, vs: Variables, tb: Tables, clauses: seq<Kind>, rules: set<Rule>,
                        multiple: set<Name>, t: Trail)
    requires p.Valid() && Compiled(p, vs, tb, clauses, rules) && AllSelectable(p, tb, rules, multiple) &&
             Found(t, tb, clauses)
    requires ConditionsFit(p, rules, multiple)
    ensures IsDirectSolution(p, ChoiceOf(vs, Models.Completion(t)), rules)
  {
    hide Compiled, AllSelectable, ConditionsFit, Obeys, Literals, Satisfies, Settled, Wf, Models.Completion,
         Agrees, ChoiceOf, AllHold, SomeCandidate;
    var a := Models.Completion(t);
    var s := ChoiceOf(vs, a);
    var clauses', rules' := Unconditioned(clauses), UnconditionalPart(rules);
    DropConditions(p, vs, tb, clauses, rules);
    CompiledVariables(p, vs, tb, clauses, rules);
    ChoiceAgrees(vs, a);
    forall k | k in clauses' ensures Satisfies(a, Literals(k, tb)) {
      Models.NoComplementNoWaiting(t, tb, k);
    }
    ModelsAreSolutions(p, vs, tb, clauses', rules', a, s);
    forall rule | rule in rules ensures DirectlyObeys(p, s, rules, rule) {
      if rule.NeedsIf? {
        ConditionalNeedIsMet(p, vs, tb, clauses, rules, multiple, t, rule.parent, rule.requirement, rule.conjunction);
      } else {
        assert Obeys(p, s, rules', rule);
        SameObeys(p, s, rules, rules', rule);
      }
    }
  }

  lemma SameObeys(p: Problem, s: Choice, rules: set<Rule>, rules': set<Rule>, rule: Rule)
    requires !rule.NeedsIf? && Obeys(p, s, rules', rule)
    ensures Obeys(p, s, rules, rule)
  {
  }

  /** A solution makes the clauses satisfiable. */
  lemma SolutionSatisfies(p: Problem, vs: Variables, tb: Tables, clauses: seq<Kind>, rules: set<Rule>,
                          kinds: seq<Kind>, db: seq<Clause>, s: Choice)
    requires Compiled(p, vs, tb, clauses, rules) && kinds == [InstallRoot] + WithoutRoot(clauses) && |db| == |kinds|
    requires forall c :: 0 <= c < |kinds| ==> db[c] == Literals(kinds[c], tb)
    requires IsSolution(p, s, rules)
    ensures SearchSteps.Satisfiable(db)
  {
    hide Compiled, Literals, IsSolution, VariablesOk, Meaning;
    var a := Meaning(p, vs, s);
    SolutionsExtend(p, vs, tb, clauses, rules, s);
    CompiledVariables(p, vs, tb, clauses, rules);
    RootOfSolution(p, vs, tb, s, rules, a);
    forall c | 0 <= c < |db| ensures Satisfies(a, db[c]) {
      assert kinds[c] in clauses;
    }
  }

  lemma RootOfSolution(p: Problem, vs: Variables, tb: Tables, s: Choice, rules: set<Rule>, a: Assignment)
    requires VariablesOk(vs) && Agrees(a, vs, s) && IsSolution(p, s, rules)
    ensures ROOT in a
  {
    RootVariable(vs);
  }

  lemma LoadedClauses(kinds: seq<Kind>, tb: Tables, tb': Tables, db: seq<Clause>, variables: nat)
    requires Database.KindsOk(kinds, tb', db, variables)
    requires forall k :: k in kinds && k != InstallRoot ==>
               Literals(k, tb') == Literals(k, tb) && SearchSteps.Admissible(k, tb', variables)
    ensures |db| == |kinds| && forall c :: 0 <= c < |kinds| ==> db[c] == Literals(kinds[c], tb) && !kinds[c].Learnt?
  {
    forall c | 0 <= c < |kinds| ensures db[c] == Literals(kinds[c], tb) && !kinds[c].Learnt? {
      assert Database.ClauseOk(kinds[c], tb', db[c], variables) && kinds[c] in kinds;
    }
  }

  /** Nothing to choose from: the core has no model, so no selection obeys the clauses' reading of the rules. */
  lemma UnsolvableHasNoSolution(p: Problem, vs: Variables, tb: Tables, clauses: seq<Kind>, rules: set<Rule>,
                                kinds: seq<Kind>, db: seq<Clause>)
    requires Compiled(p, vs, tb, clauses, rules) && kinds == [InstallRoot] + WithoutRoot(clauses) && |db| == |kinds|
    requires forall c :: 0 <= c < |kinds| ==> db[c] == Literals(kinds[c], tb)
    requires !SearchSteps.Satisfiable(db)
    ensures forall s: Choice :: !IsSolution(p, s, rules)
  {
    hide Compiled, IsSolution, SearchSteps.Satisfiable, Literals;
    forall s: Choice ensures !IsSolution(p, s, rules) {
      if IsSolution(p, s, rules) {
        SolutionSatisfies(p, vs, tb, clauses, rules, kinds, db, s);
      }
    }
  }

  /** Without conditions the two readings are the same. */
  lemma DirectIsSolution(p: Problem, s: Choice, rules: set<Rule>)
    requires Unconditional(rules)
    ensures IsDirectSolution(p, s, rules) <==> IsSolution(p, s, rules)
  {
    hide OnePerPackage, Obeys;
    if IsSolution(p, s, rules) {
      forall rule | rule in rules ensures DirectlyObeys(p, s, rules, rule) {
      }
    }
    if IsDirectSolution(p, s, rules) {
      forall rule | rule in rules ensures Obeys(p, s, rules, rule) {
        assert DirectlyObeys(p, s, rules, rule);
      }
    }
  }

  /** Runs the search over the clauses. */
  method Search(vs: Variables, tb: Tables, clauses: seq<Kind>, ghost p: Problem, ghost rules: set<Rule>,
                ghost multiple: set<Name>)
    returns (solver: Solver, solved: bool)
    requires Compiled(p, vs, tb, clauses, rules) && ConditionsFit(p, rules, multiple) && NoneExcludesItself(p, rules)
    requires 1 <= |vs.origins| <= MAX_LEVEL
    ensures solved ==> solver.tracker.Valid() && Found(solver.tracker.trail, tb, clauses)
    ensures !solved ==> forall s: Choice :: !IsSolution(p, s, rules)
  {
    hide Compiled, ConditionsFit, NoneExcludesItself, IsSolution, SearchSteps.Admissible, Literals,
         Database.KindsOk, SearchSteps.Satisfiable, SearchSteps.NoComplements, SearchSteps.Answers, Wf,
         StackAgrees, MapAgrees, Satisfies, Found, Settled, Supported, SearchSteps.Grows;
    AllAdmissible(p, vs, tb, clauses, rules, multiple);
    CompiledVariables(p, vs, tb, clauses, rules);
    solver := new Solver(tb.candidates, tb.disjunctions, |vs.origins|);
    solver.Load(WithoutRoot(clauses));
    ghost var kinds, db := solver.kinds, solver.db;
    LoadedClauses(kinds, tb, solver.tables, db, |vs.origins|);
    var verdict := solver.Solve();
    solved := verdict.Solved?;
    if solved {
      SolvedIsFound(solver.tracker.trail, tb, clauses, kinds, db);
    } else {
      SearchSteps.RefutedIsUnsatisfiable(db, Elements(verdict.core));
      UnsolvableHasNoSolution(p, vs, tb, clauses, rules, kinds, db);
    }
  }

  /** Solves an encoded problem.  What is chosen obeys every rule as it is written; if nothing is, no selection
      obeys the clauses' reading of the rules, which for an unconditional problem is the rules as they are written. */
  method Resolve(vs: Variables, tb: Tables, clauses: seq<Kind>, ghost p: Problem, ghost rules: set<Rule>,
                 ghost multiple: set<Name>)
    returns (chosen: Option<set<Item>>)
    requires p.Valid() && Compiled(p, vs, tb, clauses, rules) && AllSelectable(p, tb, rules, multiple)
    requires ConditionsFit(p, rules, multiple) && NoneExcludesItself(p, rules) && 1 <= |vs.origins| <= MAX_LEVEL
    ensures chosen.Some? ==> IsDirectSolution(p, (iset i | i in chosen.value), rules)
    ensures chosen.None? ==> forall s: Choice :: !IsSolution(p, s, rules)
    ensures Unconditional(rules) && chosen.None? ==> forall s: Choice :: !IsDirectSolution(p, s, rules)
  {
    hide Compiled, AllSelectable, ConditionsFit, NoneExcludesItself, IsSolution, IsDirectSolution, Found, Wf,
         StackAgrees, MapAgrees;
    var solver, solved := Search(vs, tb, clauses, p, rules, multiple);
    if solved {
      FoundIsSolution(p, vs, tb, clauses, rules, multiple, solver.tracker.trail);
      chosen := Some(set i | i in vs.items && solver.tracker.AssignedValue(vs.items[i]) == Some(true));
      assert (iset i | i in chosen.value) == ChoiceOf(vs, Models.Completion(solver.tracker.trail));
    } else {
      chosen := None;
      if Unconditional(rules) {
        forall s: Choice ensures !IsDirectSolution(p, s, rules) {
          DirectIsSolution(p, s, rules);
        }
      }
    }
  }
}
