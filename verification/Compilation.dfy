/**
 The encoder preserves meaning: a selection obeys the rules exactly when it extends to a
 model of the emitted clauses.
 */
module Compilation {
  import opened Sat
  import opened Clauses
  import opened AtMostOne
  import opened Conditions
  import opened Problems
  import opened Encoding

  /** `a` is a model of every clause. */
  ghost predicate IsModel(a: Assignment, tb: Tables, clauses: seq<Kind>) {
    forall k :: k in clauses ==> Satisfies(a, Literals(k, tb))
  }

  /** The assignment says of each item what the selection says. */
  ghost predicate Agrees(a: Assignment, vs: Variables, s: Choice) {
    forall v :: vs.IsItem(v) ==> (v in a <==> vs.ItemOf(v) in s)
  }

  ghost function ItemsTrue(vs: Variables, s: Choice): Assignment {
    iset v: Var | vs.IsItem(v) && vs.ItemOf(v) in s
  }

  ghost predicate SomeTracked(vs: Variables, s: Choice, name: Name) {
    exists v :: v in vs.TrackerOf(name).variables && vs.ItemOf(v) in s
  }

  /** The value a selection gives to a variable: auxiliary variables have the value their definition asks for. */
  ghost predicate Means(p: Problem, vs: Variables, s: Choice, v: Var)
    requires v < |vs.origins|
  {
    match vs.origins[v]
    case OfItem(i) => i in s
    case Gate(r) => SomeCandidate(p, r, s)
    case Violation(x) => SomeNonMatching(p, x, s)
    case AtLeastOne(name) => SomeTracked(vs, s, name)
    case Helper(name) => HelperTrue(ItemsTrue(vs, s), vs.TrackerOf(name).variables, vs.TrackerOf(name).helpers, v)
  }

  ghost function Meaning(p: Problem, vs: Variables, s: Choice): Assignment {
    iset v: Var | v < |vs.origins| && Means(p, vs, s, v)
  }

  /** All that the encoder keeps between two rounds. */
  ghost predicate Compiled(p: Problem, vs: Variables, tb: Tables, clauses: seq<Kind>, rules: set<Rule>) {
    && VariablesOk(vs) && TablesOk(p, vs, tb) && AllJustified(p, vs, tb, rules, clauses) && InstallRoot in clauses
    && SharedOk(p, vs, tb, clauses) && TrackersOk(vs, rules, clauses) && SelectedOk(vs, clauses)
    && AllPresent(p, vs, tb, clauses, [], rules) && vs.newSelected == map[]
  }

  lemma LiteralHolds(a: Assignment, c: Clause, l: Literal)
    requires l in c && Holds(a, l)
    ensures Satisfies(a, c)
  {
  }

  /** A clause that offers candidates to its parent. */
  lemma RequiresHolds(p: Problem, vs: Variables, tb: Tables, a: Assignment, s: Choice, parent: Var, r: Requirement)
    requires CandidatesOk(p, vs, tb, r) && Agrees(a, vs, s) && VariablesOk(vs)
    ensures Satisfies(a, Literals(Requires(parent, None, r), tb)) <==> (parent in a ==> SomeCandidate(p, r, s))
  {
    hide VariablesOk;
    var c := Literals(Requires(parent, None, r), tb);
    var vars := CandidatesOf(tb, r);
    assert c == [Negative(parent)] + Positives(vars);
    if Satisfies(a, c) && parent in a {
      var l :| l in c && Holds(a, l);
      assert l in Positives(vars);
      var i :| 0 <= i < |vars| && l == Positive(vars[i]);
      assert vars[i] in vars;
      assert p.Offers(r, vs.ItemOf(vars[i]).id) && Solvable(vs.ItemOf(vars[i]).id) in s;
    }
    if parent !in a {
      LiteralHolds(a, c, Negative(parent));
    } else if SomeCandidate(p, r, s) {
      var t: SolvableId :| p.Offers(r, t) && Solvable(t) in s;
      var v := vs.items[Solvable(t)];
      ItemVariable(vs, Solvable(t));
      var i :| 0 <= i < |vars| && vars[i] == v;
      assert Positives(vars)[i] == Positive(v);
      LiteralHolds(a, c, Positive(v));
    }
  }

  lemma ItemVariable(vs: Variables, i: Item)
    requires VariablesOk(vs) && i in vs.items
    ensures vs.IsItem(vs.items[i]) && vs.ItemOf(vs.items[i]) == i
  {
  }

  lemma BinaryHolds(a: Assignment, c: Clause, l: Literal, l': Literal)
    requires c == [l, l']
    ensures Satisfies(a, c) <==> Holds(a, l) || Holds(a, l')
  {
    assert c[0] == l && c[1] == l';
  }

  lemma UnitHolds(a: Assignment, c: Clause, l: Literal)
    requires c == [l]
    ensures Satisfies(a, c) <==> Holds(a, l)
  {
    assert c[0] == l;
  }

  lemma MeaningAgrees(p: Problem, vs: Variables, s: Choice)
    ensures Agrees(Meaning(p, vs, s), vs, s)
  {
  }

  /** Every clause that is justified holds under the meaning of a solution. */
  lemma JustifiedHolds(p: Problem, vs: Variables, tb: Tables, clauses: seq<Kind>, rules: set<Rule>, s: Choice, k: Kind)
    requires VariablesOk(vs) && TablesOk(p, vs, tb) && TrackersOk(vs, rules, clauses)
    requires IsSolution(p, s, rules) && Justified(p, vs, tb, rules, k)
    ensures Satisfies(Meaning(p, vs, s), Literals(k, tb))
  {
    hide VariablesOk, TrackersOk, IsForced, HelperTrue, SomeCandidate, SomeNonMatching, OnePerPackage,
         CandidatesOk;
    var a, c := Meaning(p, vs, s), Literals(k, tb);
    MeaningAgrees(p, vs, s);
    match k
    case InstallRoot =>
      RootVariable(vs);
      UnitHolds(a, c, Positive(ROOT));
    case Requires(parent, condition, r) =>
      if condition.None? {
        RequiresHolds(p, vs, tb, a, s, parent, r);
      } else {
        ConditionalHolds(p, vs, tb, clauses, rules, s, parent, r, condition.value);
      }
    case AnyOf(x, m) =>
      BinaryHolds(a, c, Positive(x), Negative(m));
      if vs.origins[x].AtLeastOne? {
        TrackedAreItems(vs, rules, clauses, vs.origins[x].name);
      }
    case Constrains(parent, f, x) =>
      BinaryHolds(a, c, Negative(parent), Negative(f));
      Violates(p, vs, s, x, f);
    case ConstrainsExcluded(f, aux, x) =>
      BinaryHolds(a, c, Negative(f), Positive(aux));
      Violates(p, vs, s, x, f);
    case ConstrainsParent(parent, aux, x) =>
      BinaryHolds(a, c, Negative(parent), Negative(aux));
    case Lock(l, rival) =>
      BinaryHolds(a, c, Negative(rival), Negative(ROOT));
    case Excluded(v) =>
      UnitHolds(a, c, Negative(v));
    case ForbidMultipleInstances(v, l, name) =>
      BinaryHolds(a, c, Negative(v), l);
      TrackerHolds(p, vs, clauses, rules, s, name, (v, l));
  }

  /** A conditional clause holds under the meaning of a selection that obeys the rule it stands for. */
  lemma ConditionalHolds(p: Problem, vs: Variables, tb: Tables, clauses: seq<Kind>, rules: set<Rule>, s: Choice,
                         parent: Var, r: Requirement, d: DisjunctionId)
    requires VariablesOk(vs) && CandidatesOk(p, vs, tb, r) && TrackersOk(vs, rules, clauses) && IsSolution(p, s, rules)
    requires vs.IsItem(parent) && ConditionJustified(p, vs, tb, rules, vs.ItemOf(parent), r, d)
    ensures Satisfies(Meaning(p, vs, s), Literals(Requires(parent, Some(d), r), tb))
  {
    hide VariablesOk, CandidatesOk, TrackersOk, Meaning, Covers, SomeCandidate, Unrefuted, Satisfies,
         ConditionOk;
    var a, literals := Meaning(p, vs, s), tb.disjunctions[d];
    var c :| NeedsIf(vs.ItemOf(parent), r, c) in rules && RefutesExactly(p, vs, literals, c);
    MeaningAgrees(p, vs, s);
    ConditionalClause(p, vs, tb, a, s, parent, r, d);
    assert Obeys(p, s, rules, NeedsIf(vs.ItemOf(parent), r, c));
    if x :| x in c && !Unrefuted(p, s, rules, x) {
      RefutedLiteral(p, vs, clauses, rules, s, literals, x);
    }
  }

  ghost predicate SomeLiteral(a: Assignment, literals: seq<Literal>) {
    exists l :: l in literals && Holds(a, l)
  }

  /** What a conditional clause says. */
  lemma ConditionalClause(p: Problem, vs: Variables, tb: Tables, a: Assignment, s: Choice, parent: Var,
                          r: Requirement, d: DisjunctionId)
    requires CandidatesOk(p, vs, tb, r) && Agrees(a, vs, s) && VariablesOk(vs) && d < |tb.disjunctions|
    ensures Satisfies(a, Literals(Requires(parent, Some(d), r), tb)) <==>
      (parent in a ==> SomeLiteral(a, tb.disjunctions[d]) || SomeCandidate(p, r, s))
  {
    hide VariablesOk, CandidatesOk, SomeCandidate;
    RequiresHolds(p, vs, tb, a, s, parent, r);
    var c, c' := Literals(Requires(parent, Some(d), r), tb), Literals(Requires(parent, None, r), tb);
    assert forall l :: l in c <==> l in c' || l in tb.disjunctions[d];
  }

  lemma RefutedLiteral(p: Problem, vs: Variables, clauses: seq<Kind>, rules: set<Rule>, s: Choice,
                       literals: seq<Literal>, x: VersionSet)
    requires VariablesOk(vs) && TrackersOk(vs, rules, clauses) && Covers(p, vs, literals, x) &&
             !Unrefuted(p, s, rules, x)
    ensures SomeLiteral(Meaning(p, vs, s), literals)
  {
    hide TrackersOk;
    var a := Meaning(p, vs, s);
    if p.nonMatching(x) != [] {
      var c: SolvableId :| c in p.nonMatching(x) && Solvable(c) in s;
      ItemVariable(vs, Solvable(c));
      assert Holds(a, Positive(vs.VarOf(Solvable(c))));
    } else {
      var name := p.packageOf(x);
      TrackedRival(vs, clauses, rules, s, name);
      assert Holds(a, Negative(vs.SelectedVar(name).value));
    }
  }

  lemma TrackedRival(vs: Variables, clauses: seq<Kind>, rules: set<Rule>, s: Choice, name: Name)
    requires TrackersOk(vs, rules, clauses)
    ensures SomeTracked(vs, s, name) ==> SomeRival(s, rules, name)
  {
    hide IsForced, IsCeilLog2, Distinct, Apart;
    if v :| v in vs.TrackerOf(name).variables && vs.ItemOf(v) in s {
      assert TrackerOk(vs, rules, clauses, name, vs.TrackerOf(name));
      assert Rivals(name, vs.ItemOf(v).id) in rules && vs.ItemOf(v) == Solvable(vs.ItemOf(v).id);
    }
  }

  lemma RootVariable(vs: Variables)
    requires VariablesOk(vs)
    ensures vs.IsItem(ROOT) && vs.ItemOf(ROOT) == Root
  {
  }

  lemma Violates(p: Problem, vs: Variables, s: Choice, x: VersionSet, f: Var)
    requires IsNonMatching(p, vs, x, f)
    ensures vs.ItemOf(f) in s ==> SomeNonMatching(p, x, s)
  {
    assert vs.ItemOf(f) == Solvable(vs.ItemOf(f).id);
  }

  lemma TrackedAreItems(vs: Variables, rules: set<Rule>, clauses: seq<Kind>, name: Name)
    requires TrackersOk(vs, rules, clauses)
    ensures forall v :: v in vs.TrackerOf(name).variables ==> vs.IsItem(v)
  {
  }

  /** At most one tracked variable is true under a solution. */
  lemma TrackedRivals(vs: Variables, clauses: seq<Kind>, rules: set<Rule>, s: Choice, name: Name)
    requires VariablesOk(vs) && TrackersOk(vs, rules, clauses) && OnePerPackage(s, rules)
    ensures AtMostOneTrue(ItemsTrue(vs, s), vs.TrackerOf(name).variables)
  {
    hide IsForced, IsCeilLog2;
    var t := vs.TrackerOf(name);
    forall i, j | 0 <= i < j < |t.variables|
      ensures !(t.variables[i] in ItemsTrue(vs, s) && t.variables[j] in ItemsTrue(vs, s))
    {
      assert TrackerOk(vs, rules, clauses, name, t);
      assert t.variables[i] in t.variables && t.variables[j] in t.variables;
    }
  }

  lemma TrackerHolds(p: Problem, vs: Variables, clauses: seq<Kind>, rules: set<Rule>, s: Choice, name: Name,
                     c: Implication)
    requires VariablesOk(vs) && TrackersOk(vs, rules, clauses) && OnePerPackage(s, rules)
    requires IsForced(vs.TrackerOf(name).variables, vs.TrackerOf(name).helpers, c)
    ensures c.0 in Meaning(p, vs, s) ==> Holds(Meaning(p, vs, s), c.1)
  {
    hide VariablesOk, IsForced, HelperTrue, OnePerPackage, IsCeilLog2, Apart;
    var t, a := vs.TrackerOf(name), Meaning(p, vs, s);
    TrackedRivals(vs, clauses, rules, s, name);
    EmptyForcesNothing(c);
    assert TrackerOk(vs, rules, clauses, name, t);
    ForcedHolds(t.variables, t.helpers, ItemsTrue(vs, s), a, c);
  }

  lemma EmptyForcesNothing(c: Implication)
    ensures !IsForced([], [], c)
  {
  }

  /** A solution extends to a model of the clauses. */
  lemma SolutionsExtend(p: Problem, vs: Variables, tb: Tables, clauses: seq<Kind>, rules: set<Rule>, s: Choice)
    requires Compiled(p, vs, tb, clauses, rules) && IsSolution(p, s, rules)
    ensures IsModel(Meaning(p, vs, s), tb, clauses) && Agrees(Meaning(p, vs, s), vs, s)
  {
    hide VariablesOk, TablesOk, Justified, SharedOk, TrackersOk, SelectedOk, AllPresent, IsSolution, Meaning,
         Literals, Satisfies, Agrees;
    MeaningAgrees(p, vs, s);
    forall k | k in clauses ensures Satisfies(Meaning(p, vs, s), Literals(k, tb)) {
      assert Justified(p, vs, tb, rules, k);
      JustifiedHolds(p, vs, tb, clauses, rules, s, k);
    }
  }

  /** What a rule asks for holds of a selection that a model agrees with. */
  lemma PresentIsObeyed(p: Problem, vs: Variables, tb: Tables, clauses: seq<Kind>, rules: set<Rule>, a: Assignment,
                        s: Choice, rule: Rule)
    requires Compiled(p, vs, tb, clauses, rules) && IsModel(a, tb, clauses) && Agrees(a, vs, s)
    requires Present(p, vs, tb, clauses, [], rule) && OnePerPackage(s, rules)
    ensures Obeys(p, s, rules, rule)
  {
    hide AllJustified, TrackersOk, SelectedOk, AllPresent, SomeCandidate, SomeNonMatching, CandidatesOk,
         RestrictionPresent, VariablesOk, Literals, Satisfies, SharedOk, IsModel, Agrees, TablesOk;
    match rule
    case Needs(parent, r) =>
      NeedHolds(p, vs, tb, clauses, rules, a, s, parent, r);
    case Restricts(parent, x) =>
      RestrictionHolds(p, vs, tb, clauses, rules, a, s, parent, x);
    case Locks(locked, rival) =>
      LockHolds(p, vs, tb, clauses, rules, a, s, locked, rival);
    case Excludes(item) =>
      ExclusionHolds(p, vs, tb, clauses, rules, a, s, item);
    case NeedsIf(parent, r, conjunction) =>
      ConditionalNeedHolds(p, vs, tb, clauses, rules, a, s, parent, r, conjunction);
    case Rivals(_, _) =>
  }

  lemma ConditionalNeedHolds(p: Problem, vs: Variables, tb: Tables, clauses: seq<Kind>, rules: set<Rule>,
                             a: Assignment, s: Choice,
                             parent: Item, r: Requirement, conjunction: Conjunction)
    requires Compiled(p, vs, tb, clauses, rules) && IsModel(a, tb, clauses) && Agrees(a, vs, s)
    requires Present(p, vs, tb, clauses, [], NeedsIf(parent, r, conjunction))
    ensures parent in s && AllUnrefuted(p, s, rules, conjunction) ==> SomeCandidate(p, r, s)
  {
    hide VariablesOk, AllJustified, TrackersOk, SelectedOk, AllPresent, CandidatesOk, SomeCandidate, Satisfies,
         Literals, Unrefuted, Refutes, SharedOk;
    ItemVariable(vs, parent);
    var d: DisjunctionId :| ConditionPresent(p, vs, tb, clauses, vs.items[parent], r, conjunction, d);
    ConditionalClause(p, vs, tb, a, s, vs.items[parent], r, d);
    if l :| l in tb.disjunctions[d] && Holds(a, l) {
      var x :| x in conjunction && Refutes(p, vs, x, l);
      LiteralRefutes(p, vs, tb, clauses, rules, a, s, x, l);
    }
  }

  /** A true condition literal refutes its version set. */
  lemma LiteralRefutes(p: Problem, vs: Variables, tb: Tables, clauses: seq<Kind>, rules: set<Rule>, a: Assignment,
                       s: Choice, x: VersionSet, l: Literal)
    requires Compiled(p, vs, tb, clauses, rules) && IsModel(a, tb, clauses) && Agrees(a, vs, s)
    requires Refutes(p, vs, x, l) && Holds(a, l)
    ensures !Unrefuted(p, s, rules, x)
  {
    hide AllJustified, TrackersOk, AllPresent, SharedOk, Literals, Satisfies, VariablesOk, TablesOk, IsModel;
    if p.nonMatching(x) != [] {
      Violates(p, vs, s, x, l.variable);
    } else {
      var name := p.packageOf(x);
      forall c: SolvableId | Rivals(name, c) in rules ensures Solvable(c) !in s {
        RivalIsTracked(p, vs, tb, clauses, rules, name, c);
        ItemVariable(vs, Solvable(c));
        SelectedHolds(tb, clauses, a, vs.selected[name], vs.items[Solvable(c)]);
      }
    }
  }

  lemma RivalIsTracked(p: Problem, vs: Variables, tb: Tables, clauses: seq<Kind>, rules: set<Rule>, name: Name,
                       c: SolvableId)
    requires AllPresent(p, vs, tb, clauses, [], rules) && Rivals(name, c) in rules
    ensures Solvable(c) in vs.items && vs.items[Solvable(c)] in vs.TrackerOf(name).variables
  {
    assert Present(p, vs, tb, clauses, [], Rivals(name, c));
  }

  lemma SelectedHolds(tb: Tables, clauses: seq<Kind>, a: Assignment, selected: Var, v: Var)
    requires IsModel(a, tb, clauses) && AnyOf(selected, v) in clauses
    ensures v in a ==> selected in a
  {
    ImpliesGate(a, tb, selected, v);
  }

  lemma ExclusionHolds(p: Problem, vs: Variables, tb: Tables, clauses: seq<Kind>, rules: set<Rule>, a: Assignment,
                       s: Choice, item: Item)
    requires VariablesOk(vs) && IsModel(a, tb, clauses) && Agrees(a, vs, s)
    requires Present(p, vs, tb, clauses, [], Excludes(item))
    ensures item !in s
  {
    hide VariablesOk;
    ItemVariable(vs, item);
    var k := Excluded(vs.items[item]);
    UnitHolds(a, Literals(k, tb), Negative(vs.items[item]));
  }

  lemma LockHolds(p: Problem, vs: Variables, tb: Tables, clauses: seq<Kind>, rules: set<Rule>, a: Assignment,
                  s: Choice, locked: SolvableId, rival: SolvableId)
    requires VariablesOk(vs) && InstallRoot in clauses && IsModel(a, tb, clauses) && Agrees(a, vs, s)
    requires Present(p, vs, tb, clauses, [], Locks(locked, rival))
    ensures Solvable(rival) !in s
  {
    hide VariablesOk;
    ItemVariable(vs, Solvable(rival));
    var v := vs.items[Solvable(rival)];
    var k := Lock(vs.items[Solvable(locked)], v);
    BinaryHolds(a, Literals(k, tb), Negative(v), Negative(ROOT));
    UnitHolds(a, Literals(InstallRoot, tb), Positive(ROOT));
  }

  lemma NeedHolds(p: Problem, vs: Variables, tb: Tables, clauses: seq<Kind>, rules: set<Rule>, a: Assignment,
                  s: Choice, parent: Item, r: Requirement)
    requires Compiled(p, vs, tb, clauses, rules) && IsModel(a, tb, clauses) && Agrees(a, vs, s)
    requires Present(p, vs, tb, clauses, [], Needs(parent, r))
    ensures parent in s ==> SomeCandidate(p, r, s)
  {
    hide VariablesOk, AllJustified, TrackersOk, SelectedOk, AllPresent, CandidatesOk, SomeCandidate, Satisfies,
         Literals;
    ItemVariable(vs, parent);
    var v := vs.items[parent];
    if Requires(v, None, r) in clauses {
      RequiresHolds(p, vs, tb, a, s, v, r);
    } else {
      RequiresHolds(p, vs, tb, a, s, vs.gates[r], r);
      ImpliesGate(a, tb, vs.gates[r], v);
    }
  }

  lemma ImpliesGate(a: Assignment, tb: Tables, gate: Var, v: Var)
    ensures Satisfies(a, Literals(AnyOf(gate, v), tb)) <==> (v in a ==> gate in a)
  {
    BinaryHolds(a, Literals(AnyOf(gate, v), tb), Positive(gate), Negative(v));
  }

  lemma RestrictionHolds(p: Problem, vs: Variables, tb: Tables, clauses: seq<Kind>, rules: set<Rule>, a: Assignment,
                         s: Choice, parent: Item, x: VersionSet)
    requires Compiled(p, vs, tb, clauses, rules) && IsModel(a, tb, clauses) && Agrees(a, vs, s)
    requires Present(p, vs, tb, clauses, [], Restricts(parent, x))
    ensures parent in s ==> !SomeNonMatching(p, x, s)
  {
    hide VariablesOk, AllJustified, TrackersOk, SelectedOk, AllPresent, IsModel;
    ItemVariable(vs, parent);
    var v := vs.items[parent];
    forall c: SolvableId | c in p.nonMatching(x) ensures Solvable(c) in vs.items &&
    (v in a ==> vs.items[Solvable(c)] !in a) {
      var f := vs.VarOf(Solvable(c));
      if x in vs.violations && ConstrainsParent(v, vs.violations[x], x) in clauses {
        SharedHolds(tb, clauses, a, v, f, vs.violations[x], x);
      } else {
        PairHolds(tb, clauses, a, v, f, x);
      }
    }
    forall c: SolvableId | c in p.nonMatching(x) && parent in s ensures Solvable(c) !in s {
      ItemVariable(vs, Solvable(c));
    }
  }

  lemma PairHolds(tb: Tables, clauses: seq<Kind>, a: Assignment, v: Var, f: Var, x: VersionSet)
    requires IsModel(a, tb, clauses) && Constrains(v, f, x) in clauses
    ensures v in a ==> f !in a
  {
    BinaryHolds(a, Literals(Constrains(v, f, x), tb), Negative(v), Negative(f));
  }

  lemma SharedHolds(tb: Tables, clauses: seq<Kind>, a: Assignment, v: Var, f: Var, u: Var, x: VersionSet)
    requires IsModel(a, tb, clauses) && ConstrainsParent(v, u, x) in clauses && ConstrainsExcluded(f, u, x) in clauses
    ensures v in a ==> f !in a
  {
    BinaryHolds(a, Literals(ConstrainsParent(v, u, x), tb), Negative(v), Negative(u));
    BinaryHolds(a, Literals(ConstrainsExcluded(f, u, x), tb), Negative(f), Positive(u));
  }

  /** The implications of a tracker hold in every model. */
  lemma ModelExcludes(vs: Variables, tb: Tables, clauses: seq<Kind>, rules: set<Rule>, a: Assignment, name: Name)
    requires TrackersOk(vs, rules, clauses) && IsModel(a, tb, clauses)
    ensures AtMostOneTrue(a, vs.TrackerOf(name).variables)
  {
    hide Satisfies, IsForced;
    var t := vs.TrackerOf(name);
    if name in vs.trackers {
      assert TrackerOk(vs, rules, clauses, name, t);
      forall c: Implication | IsForced(t.variables, t.helpers, c) && c.0 in a ensures Holds(a, c.1) {
        BinaryHolds(a, Literals(ForbidMultipleInstances(c.0, c.1, name), tb), Negative(c.0), c.1);
      }
      ForcedExclude(t.variables, t.helpers, a);
    }
  }

  lemma ModelIsOnePerPackage(p: Problem, vs: Variables, tb: Tables, clauses: seq<Kind>, rules: set<Rule>,
                             a: Assignment, s: Choice)
    requires Compiled(p, vs, tb, clauses, rules) && IsModel(a, tb, clauses) && Agrees(a, vs, s)
    ensures OnePerPackage(s, rules)
  {
    hide VariablesOk, TablesOk, AllJustified, SharedOk, TrackersOk, SelectedOk, IsModel;
    forall name, c, d | Rivals(name, c) in rules && Rivals(name, d) in rules && Solvable(c) in s &&
    Solvable(d) in s ensures c == d {
      ModelExcludes(vs, tb, clauses, rules, a, name);
      assert Present(p, vs, tb, clauses, [], Rivals(name, c)) && Present(p, vs, tb, clauses, [], Rivals(name, d));
      ItemVariable(vs, Solvable(c));
      ItemVariable(vs, Solvable(d));
      var t := vs.TrackerOf(name);
      var i :| 0 <= i < |t.variables| && t.variables[i] == vs.items[Solvable(c)];
      var j :| 0 <= j < |t.variables| && t.variables[j] == vs.items[Solvable(d)];
      assert !(i < j) && !(j < i);
    }
  }

  /** Every selection that agrees with a model is a solution. */
  lemma ModelsAreSolutions(p: Problem, vs: Variables, tb: Tables, clauses: seq<Kind>, rules: set<Rule>, a: Assignment,
                           s: Choice)
    requires Compiled(p, vs, tb, clauses, rules) && IsModel(a, tb, clauses) && Agrees(a, vs, s)
    ensures IsSolution(p, s, rules)
  {
    hide VariablesOk, TablesOk, AllJustified, SharedOk, TrackersOk, SelectedOk, Present, Satisfies,
         OnePerPackage, Obeys;
    ModelIsOnePerPackage(p, vs, tb, clauses, rules, a, s);
    forall rule | rule in rules ensures Obeys(p, s, rules, rule) {
      PresentIsObeyed(p, vs, tb, clauses, rules, a, s, rule);
    }
    RootVariable(vs);
    UnitHolds(a, Literals(InstallRoot, tb), Positive(ROOT));
    assert Satisfies(a, Literals(InstallRoot, tb));
  }

  /** The meaning of the problem is preserved: a selection is a solution exactly when it extends to a model. */
  lemma EncodingPreservesMeaning(p: Problem, vs: Variables, tb: Tables, clauses: seq<Kind>, rules: set<Rule>, s: Choice)
    requires Compiled(p, vs, tb, clauses, rules)
    ensures IsSolution(p, s, rules) <==> exists a: Assignment :: IsModel(a, tb, clauses) && Agrees(a, vs, s)
  {
    hide Compiled, IsSolution, IsModel, Agrees, Meaning;
    if IsSolution(p, s, rules) {
      SolutionsExtend(p, vs, tb, clauses, rules, s);
    }
    if a: Assignment :| IsModel(a, tb, clauses) && Agrees(a, vs, s) {
      ModelsAreSolutions(p, vs, tb, clauses, rules, a, s);
    }
  }

  /** Every solvable of the version sets' packages that is selected is tracked; a package that allows several is not. */
  ghost predicate SelectedAreTracked(p: Problem, s: Choice, rules: set<Rule>, dnf: seq<Conjunction>) {
    forall i, x, c: SolvableId ::
      0 <= i < |dnf| && x in dnf[i] && Solvable(c) in s && p.nameOf(c) == p.packageOf(x) ==>
        Rivals(p.packageOf(x), c) in rules
  }

  /** How the clauses read a version set: as matched, but also as matched when nothing of a package is selected that has
      solvables which do not match. */
  lemma UnrefutedExactly(p: Problem, s: Choice, rules: set<Rule>, x: VersionSet)
    requires p.Valid() && OnePerPackage(s, rules)
    requires forall c: SolvableId :: Solvable(c) in s && p.nameOf(c) == p.packageOf(x) ==>
               Rivals(p.packageOf(x), c) in rules
    requires forall c: SolvableId :: Rivals(p.packageOf(x), c) in rules ==> c in p.matching(x) || c in p.nonMatching(x)
    ensures Unrefuted(p, s, rules, x) <==>
              SomeMatching(p, x, s) || (p.nonMatching(x) != [] && !SomeNonMatching(p, x, s))
    ensures SomeMatching(p, x, s) ==> Unrefuted(p, s, rules, x)
    ensures Unrefuted(p, s, rules, x) && (p.nonMatching(x) == [] || SomeRival(s, rules, p.packageOf(x))) ==>
              SomeMatching(p, x, s)
  {
    MatchedIsUnrefuted(p, s, rules, x);
    if Unrefuted(p, s, rules, x) && SomeRival(s, rules, p.packageOf(x)) {
      var c: SolvableId :| Rivals(p.packageOf(x), c) in rules && Solvable(c) in s;
      assert c in p.matching(x);
    }
  }

  lemma MatchedIsUnrefuted(p: Problem, s: Choice, rules: set<Rule>, x: VersionSet)
    requires p.Valid() && OnePerPackage(s, rules)
    requires forall c: SolvableId :: Solvable(c) in s && p.nameOf(c) == p.packageOf(x) ==>
               Rivals(p.packageOf(x), c) in rules
    ensures SomeMatching(p, x, s) ==> Unrefuted(p, s, rules, x)
  {
    if c: SolvableId :| c in p.matching(x) && Solvable(c) in s {
      assert Rivals(p.packageOf(x), c) in rules;
      forall d: SolvableId | d in p.nonMatching(x) ensures Solvable(d) !in s {
        assert p.nameOf(d) == p.packageOf(x);
      }
    }
  }

  /** In every model, a selected parent whose condition is true of the selection has a candidate selected, provided each
      alternative of the condition was encoded or is not met. */
  lemma ConditionalSoundness(p: Problem, vs: Variables, tb: Tables, clauses: seq<Kind>, rules: set<Rule>,
                             a: Assignment, s: Choice,
                             parent: Item, r: Requirement, condition: Condition)
    requires p.Valid() && Compiled(p, vs, tb, clauses, rules) && IsModel(a, tb, clauses) && Agrees(a, vs, s)
    requires SelectedAreTracked(p, s, rules, Dnf(condition))
    requires forall i :: 0 <= i < |Dnf(condition)| ==>
      NeedsIf(parent, r, Dnf(condition)[i]) in rules || !AllHold(Dnf(condition)[i], Met(p, s))
    requires parent in s && Eval(condition, Met(p, s))
    ensures SomeCandidate(p, r, s)
  {
    hide Compiled, IsModel, Agrees, SomeCandidate, OnePerPackage, Dnf, Eval, SomeMatching, Unrefuted;
    var holds := Met(p, s);
    ModelsAreSolutions(p, vs, tb, clauses, rules, a, s);
    DnfIsEquivalent(condition, holds);
    var i :| 0 <= i < |Dnf(condition)| && AllHold(Dnf(condition)[i], holds);
    var c := Dnf(condition)[i];
    forall x | x in c ensures Unrefuted(p, s, rules, x) {
      assert holds(x);
      MatchedIsUnrefuted(p, s, rules, x);
    }
    assert Obeys(p, s, rules, NeedsIf(parent, r, c));
  }

  /** A selection that breaks one rule agrees with no model. */
  lemma BrokenRuleHasNoModel(p: Problem, vs: Variables, tb: Tables, clauses: seq<Kind>, rules: set<Rule>, s: Choice,
                             rule: Rule)
    requires Compiled(p, vs, tb, clauses, rules) && rule in rules && !Obeys(p, s, rules, rule)
    ensures forall a: Assignment :: IsModel(a, tb, clauses) ==> !Agrees(a, vs, s)
  {
    hide Compiled, IsModel, Agrees, Obeys, OnePerPackage;
    forall a: Assignment | IsModel(a, tb, clauses) ensures !Agrees(a, vs, s) {
      if Agrees(a, vs, s) {
        ModelsAreSolutions(p, vs, tb, clauses, rules, a, s);
      }
    }
  }
}
