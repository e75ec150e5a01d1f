/**
 What each step of the encoder keeps: a new variable, a new clause, a new rule, and the
 registration of the shared variables, trackers and package variables.
 */
module EncodingSteps {
  import opened Sat
  import opened Clauses
  import opened AtMostOne
  import opened Conditions
  import opened Problems
  import opened Encoding
  import opened Compilation

  /** What holds between any two steps; `done` are the rules whose clauses are complete. */
  ghost predicate Sound(p: Problem, vs: Variables, tb: Tables, clauses: seq<Kind>, rules: set<Rule>, done: set<Rule>,
                        pending: seq<(Name, Var)>) {
    && VariablesOk(vs) && TablesOk(p, vs, tb) && AllJustified(p, vs, tb, rules, clauses) && InstallRoot in clauses
    && SharedOk(p, vs, tb, clauses) && TrackersOk(vs, rules, clauses) && SelectedOk(vs, clauses)
    && AllPresent(p, vs, tb, clauses, pending, done) && PendingOk(vs, rules, pending) && done <= rules
  }

  /** Nothing but origins and items differs. */
  ghost predicate SameShared(vs: Variables, vs': Variables) {
    && vs'.gates == vs.gates && vs'.violations == vs.violations && vs'.trackers == vs.trackers
    && vs'.selected == vs.selected && vs'.newSelected == vs.newSelected
  }

  lemma TrackerKept(vs: Variables, vs': Variables, name: Name)
    requires VariablesGrow(vs, vs')
    ensures TrackerGrows(vs.TrackerOf(name), vs'.TrackerOf(name))
  {
  }

  lemma OriginsKept(vs: Variables, vs': Variables)
    requires VariablesGrow(vs, vs')
    ensures forall v: Var :: vs.IsItem(v) ==> vs'.IsItem(v) && vs'.ItemOf(v) == vs.ItemOf(v)
    ensures forall v: Var, o :: vs.Is(v, o) ==> vs'.Is(v, o)
  {
    assert forall v :: 0 <= v < |vs.origins| ==> vs'.origins[v] == vs.origins[v];
  }

  lemma CoversKept(p: Problem, vs: Variables, vs': Variables, literals: seq<Literal>, conjunction: Conjunction)
    requires VariablesGrow(vs, vs') && CoversAll(p, vs, literals, conjunction)
    ensures CoversAll(p, vs', literals, conjunction)
  {
    forall x | x in conjunction ensures Covers(p, vs', literals, x) {
      assert Covers(p, vs, literals, x);
    }
  }

  lemma ForcedKept(t: Tracker, t': Tracker, c: Implication)
    requires TrackerGrows(t, t') && IsForced(t.variables, t.helpers, c)
    ensures IsForced(t'.variables, t'.helpers, c)
  {
    StillForced(t.variables, t.helpers, c, t'.variables, t'.helpers);
  }

  lemma JustifiedKept(p: Problem, vs: Variables, vs': Variables, tb: Tables, tb': Tables, rules: set<Rule>,
                      rules': set<Rule>, k: Kind)
    requires VariablesGrow(vs, vs') && TablesGrow(tb, tb') && rules <= rules' && Justified(p, vs, tb, rules, k)
    ensures Justified(p, vs', tb', rules', k)
  {
    hide VariablesGrow, CoversAll, ConditionOk, IsForced;
    OriginsKept(vs, vs');
    match k
    case InstallRoot =>
    case Requires(parent, condition, r) =>
      if condition.Some? {
        var d := condition.value;
        var c :| NeedsIf(vs.ItemOf(parent), r, c) in rules && RefutesExactly(p, vs, tb.disjunctions[d], c);
        CoversKept(p, vs, vs', tb.disjunctions[d], c);
        ConditionKept(p, vs, vs', c, tb.disjunctions[d]);
        assert tb'.disjunctions[d] == tb.disjunctions[d];
      }
    case AnyOf(x, m) =>
      assert vs'.Is(x, vs.origins[x]);
      if vs.origins[x].AtLeastOne? {
        TrackerKept(vs, vs', vs.origins[x].name);
      }
    case Constrains(parent, f, x) =>
    case ConstrainsExcluded(f, aux, x) =>
    case ConstrainsParent(parent, aux, x) =>
    case Lock(l, rival) =>
    case Excluded(v) =>
    case ForbidMultipleInstances(c, l, name) =>
      TrackerKept(vs, vs', name);
      ForcedKept(vs.TrackerOf(name), vs'.TrackerOf(name), (c, l));
    case Learnt(_) =>
  }

  lemma AllJustifiedKept(p: Problem, vs: Variables, vs': Variables, tb: Tables, tb': Tables, rules: set<Rule>,
                         rules': set<Rule>,
                         clauses: seq<Kind>, more: seq<Kind>)
    requires VariablesGrow(vs, vs') && TablesGrow(tb, tb') && rules <= rules' && AllJustified(p, vs, tb, rules, clauses)
    requires forall k :: k in more ==> Justified(p, vs', tb', rules', k)
    ensures AllJustified(p, vs', tb', rules', clauses + more)
  {
    hide VariablesGrow, Justified, TablesGrow;
    forall id | 0 <= id < |clauses + more| ensures Justified(p, vs', tb', rules', (clauses + more)[id]) {
      if id < |clauses| {
        JustifiedKept(p, vs, vs', tb, tb', rules, rules', clauses[id]);
      } else {
        assert (clauses + more)[id] in more;
      }
    }
  }

  lemma RefutesKept(p: Problem, vs: Variables, vs': Variables, x: VersionSet, l: Literal)
    requires VariablesGrow(vs, vs') && Refutes(p, vs, x, l)
    ensures Refutes(p, vs', x, l)
  {
    OriginsKept(vs, vs');
  }

  lemma ConditionKept(p: Problem, vs: Variables, vs': Variables, conjunction: Conjunction, literals: seq<Literal>)
    requires VariablesGrow(vs, vs') && ConditionOk(p, vs, conjunction, literals)
    ensures ConditionOk(p, vs', conjunction, literals)
  {
    hide VariablesGrow, Refutes;
    forall l | l in literals ensures exists x :: x in conjunction && Refutes(p, vs', x, l) {
      var x :| x in conjunction && Refutes(p, vs, x, l);
      RefutesKept(p, vs, vs', x, l);
    }
  }

  /** What waited is still waiting or is tracked. */
  ghost predicate PendingKept(vs': Variables, pending: seq<(Name, Var)>, pending': seq<(Name, Var)>) {
    forall n, v :: (n, v) in pending ==> (n, v) in pending' || v in vs'.TrackerOf(n).variables
  }

  ghost predicate ClausesKept(clauses: seq<Kind>, clauses': seq<Kind>) {
    forall k :: k in clauses ==> k in clauses'
  }

  lemma PresentKept(p: Problem, vs: Variables, vs': Variables, tb: Tables, tb': Tables, clauses: seq<Kind>,
                    clauses': seq<Kind>,
                    pending: seq<(Name, Var)>, pending': seq<(Name, Var)>, rule: Rule)
    requires VariablesGrow(vs, vs') && TablesGrow(tb, tb') && ClausesKept(clauses, clauses') &&
             PendingKept(vs', pending, pending')
    requires Present(p, vs, tb, clauses, pending, rule)
    ensures Present(p, vs', tb', clauses', pending', rule)
  {
    hide ConditionOk;
    match rule
    case Needs(parent, r) =>
    case NeedsIf(parent, r, conjunction) =>
      var d: DisjunctionId :| ConditionPresent(p, vs, tb, clauses, vs.items[parent], r, conjunction, d);
      ConditionKept(p, vs, vs', conjunction, tb.disjunctions[d]);
      assert tb'.disjunctions[d] == tb.disjunctions[d];
      assert ConditionPresent(p, vs', tb', clauses', vs'.items[parent], r, conjunction, d);
    case Restricts(parent, x) =>
    case Locks(locked, rival) =>
    case Excludes(item) =>
    case Rivals(name, s) =>
      TrackerKept(vs, vs', name);
  }

  lemma AllPresentKept(p: Problem, vs: Variables, vs': Variables, tb: Tables, tb': Tables, clauses: seq<Kind>,
                       clauses': seq<Kind>,
                       pending: seq<(Name, Var)>, pending': seq<(Name, Var)>, done: set<Rule>)
    requires VariablesGrow(vs, vs') && TablesGrow(tb, tb') && ClausesKept(clauses, clauses') &&
             PendingKept(vs', pending, pending')
    requires AllPresent(p, vs, tb, clauses, pending, done)
    ensures AllPresent(p, vs', tb', clauses', pending', done)
  {
    hide VariablesGrow, TablesGrow, ClausesKept, PendingKept, Present;
    forall rule | rule in done ensures Present(p, vs', tb', clauses', pending', rule) {
      PresentKept(p, vs, vs', tb, tb', clauses, clauses', pending, pending', rule);
    }
  }

  lemma {:induction false} InFlatten<T>(ss: seq<seq<T>>, x: T)
    ensures x in Flatten(ss) <==> exists i :: 0 <= i < |ss| && x in ss[i]
  {
    if ss != [] {
      InFlatten(ss[1..], x);
      if i :| 0 <= i < |ss[1..]| && x in ss[1..][i] {
        assert x in ss[i + 1];
      }
      if i :| 1 <= i < |ss| && x in ss[i] {
        assert x in ss[1..][i - 1];
      }
    }
  }

  lemma OffersMeaning(p: Problem, r: Requirement, s: SolvableId)
    ensures p.Offers(r, s) <==> exists i :: 0 <= i < |p.Candidates(r)| && s in p.Candidates(r)[i]
  {
    if v :| v in p.versionSets(r) && s in p.matching(v) {
      var i :| 0 <= i < |p.versionSets(r)| && p.versionSets(r)[i] == v;
      assert s in p.Candidates(r)[i];
    }
    if i :| 0 <= i < |p.Candidates(r)| && s in p.Candidates(r)[i] {
      assert p.versionSets(r)[i] in p.versionSets(r);
    }
  }

  /** What is stored are the variables of exactly the solvables offered. */
  lemma StoredAreCandidates(p: Problem, vs: Variables, tb: Tables, r: Requirement)
    requires VariablesOk(vs) && StoredOk(p, vs, tb, r)
    ensures CandidatesOk(p, vs, tb, r)
  {
    hide VariablesOk;
    var c, cs, vars := CandidatesOf(tb, r), p.Candidates(r), tb.candidates[r];
    forall v | v in c ensures vs.IsItem(v) && vs.ItemOf(v).Solvable? && p.Offers(r, vs.ItemOf(v).id) {
      InFlatten(vars, v);
      var i :| 0 <= i < |vars| && v in vars[i];
      var j :| 0 <= j < |vars[i]| && vars[i][j] == v;
      ItemVariable(vs, Solvable(cs[i][j]));
      OffersMeaning(p, r, cs[i][j]);
    }
    forall s: SolvableId | p.Offers(r, s) ensures Solvable(s) in vs.items && vs.items[Solvable(s)] in c {
      OffersMeaning(p, r, s);
      var i :| 0 <= i < |cs| && s in cs[i];
      var j :| 0 <= j < |cs[i]| && cs[i][j] == s;
      assert vars[i][j] == vs.items[Solvable(s)];
      InFlatten(vars, vars[i][j]);
    }
  }

  lemma StoredKept(p: Problem, vs: Variables, vs': Variables, tb: Tables, tb': Tables, r: Requirement)
    requires VariablesGrow(vs, vs') && TablesGrow(tb, tb') && StoredOk(p, vs, tb, r)
    ensures StoredOk(p, vs', tb', r)
  {
    var cs := p.Candidates(r);
    forall i | 0 <= i < |cs| ensures VarsOf(vs', cs)[i] == VarsOf(vs, cs)[i] {
      forall j | 0 <= j < |cs[i]| ensures vs'.VarOf(Solvable(cs[i][j])) == vs.VarOf(Solvable(cs[i][j])) {
        assert Solvable(cs[i][j]) in vs.items;
      }
    }
  }

  lemma TablesKept(p: Problem, vs: Variables, vs': Variables, tb: Tables, tb': Tables)
    requires VariablesOk(vs') && VariablesGrow(vs, vs') && TablesGrow(tb, tb') && TablesOk(p, vs, tb)
    requires tb'.candidates == tb.candidates
    ensures TablesOk(p, vs', tb')
  {
    hide VariablesOk, VariablesGrow, StoredOk, CandidatesOk, TablesGrow;
    forall r | r in tb'.candidates ensures CandidatesOk(p, vs', tb', r) && StoredOk(p, vs', tb', r) {
      StoredKept(p, vs, vs', tb, tb', r);
      StoredAreCandidates(p, vs', tb', r);
    }
  }

  lemma SharedKept(p: Problem, vs: Variables, vs': Variables, tb: Tables, tb': Tables, clauses: seq<Kind>,
                   clauses': seq<Kind>)
    requires VariablesGrow(vs, vs') && SameShared(vs, vs') && TablesGrow(tb, tb') && ClausesKept(clauses, clauses') &&
             SharedOk(p, vs, tb, clauses)
    ensures SharedOk(p, vs', tb', clauses')
  {
  }

  lemma TrackerOkKept(vs: Variables, vs': Variables, rules: set<Rule>, rules': set<Rule>, clauses: seq<Kind>,
                      clauses': seq<Kind>, name: Name, t: Tracker)
    requires VariablesGrow(vs, vs') && rules <= rules' && ClausesKept(clauses, clauses') &&
             TrackerOk(vs, rules, clauses, name, t)
    ensures TrackerOk(vs', rules', clauses', name, t)
  {
    hide VariablesGrow, IsForced, Distinct, Apart, IsCeilLog2;
    OriginsKept(vs, vs');
  }

  lemma TrackersKept(vs: Variables, vs': Variables, rules: set<Rule>, rules': set<Rule>, clauses: seq<Kind>,
                     clauses': seq<Kind>)
    requires VariablesGrow(vs, vs') && vs'.trackers == vs.trackers && rules <= rules' &&
             ClausesKept(clauses, clauses') && TrackersOk(vs, rules, clauses)
    ensures TrackersOk(vs', rules', clauses')
  {
    hide VariablesGrow, TrackerOk, ClausesKept;
    forall n | n in vs'.trackers ensures TrackerOk(vs', rules', clauses', n, vs'.trackers[n]) {
      TrackerOkKept(vs, vs', rules, rules', clauses, clauses', n, vs.trackers[n]);
    }
  }

  lemma PendingStays(vs: Variables, vs': Variables, rules: set<Rule>, rules': set<Rule>, pending: seq<(Name, Var)>)
    requires VariablesGrow(vs, vs') && rules <= rules' && PendingOk(vs, rules, pending)
    ensures PendingOk(vs', rules', pending) && PendingKept(vs', pending, pending)
  {
    OriginsKept(vs, vs');
  }

  /** New variables, clauses, rules and table entries keep what holds. */
  lemma Grow(p: Problem, vs: Variables, vs': Variables, tb: Tables, tb': Tables, clauses: seq<Kind>, more: seq<Kind>,
             rules: set<Rule>, rules': set<Rule>, done: set<Rule>, pending: seq<(Name, Var)>)
    requires Sound(p, vs, tb, clauses, rules, done, pending)
    requires VariablesOk(vs') && VariablesGrow(vs, vs') && SameShared(vs, vs')
    requires TablesGrow(tb, tb') && TablesOk(p, vs', tb') && rules <= rules'
    requires forall k :: k in more ==> Justified(p, vs', tb', rules', k)
    ensures Sound(p, vs', tb', clauses + more, rules', done, pending)
  {
    hide VariablesOk, VariablesGrow, TablesOk, TablesGrow, Justified, AllJustified, SharedOk, TrackersOk,
         AllPresent, PendingOk, PendingKept;
    AllJustifiedKept(p, vs, vs', tb, tb', rules, rules', clauses, more);
    SharedKept(p, vs, vs', tb, tb', clauses, clauses + more);
    TrackersKept(vs, vs', rules, rules', clauses, clauses + more);
    PendingStays(vs, vs', rules, rules', pending);
    AllPresentKept(p, vs, vs', tb, tb', clauses, clauses + more, pending, pending, done);
  }

  ghost function WithItem(vs: Variables, i: Item): Variables {
    vs.(origins := vs.origins + [OfItem(i)], items := vs.items[i := |vs.origins|])
  }

  lemma OriginsGrow(vs: Variables, origins: seq<Origin>)
    requires VariablesOk(vs) && vs.origins <= origins
    ensures GatesOk(origins, vs.gates) && ViolationsOk(origins, vs.violations)
    ensures PackagesOk(origins, vs.selected) && PackagesOk(origins, vs.newSelected)
  {
  }

  lemma MapsGrow(vs: Variables)
    ensures ItemsGrow(vs.items, vs.items) && SharedGrow(vs.gates, vs.gates) && SharedGrow(vs.violations, vs.violations)
    ensures PackagesGrow(vs, vs) && TrackersGrow(vs.trackers, vs.trackers)
  {
  }

  lemma SamePackages(vs: Variables, vs': Variables)
    requires vs'.selected == vs.selected && vs'.newSelected == vs.newSelected
    ensures PackagesGrow(vs, vs')
  {
  }

  lemma ItemAdds(origins: seq<Origin>, items: map<Item, Var>, i: Item)
    requires ItemsOk(origins, items) && i !in items
    ensures ItemsOk(origins + [OfItem(i)], items[i := |origins|]) && ItemsGrow(items, items[i := |origins|])
  {
  }

  lemma AuxAdds(origins: seq<Origin>, items: map<Item, Var>, more: seq<Origin>)
    requires ItemsOk(origins, items) && forall j :: 0 <= j < |more| ==> !more[j].OfItem?
    ensures ItemsOk(origins + more, items)
  {
  }

  lemma ItemKeepsVariables(vs: Variables, i: Item)
    requires VariablesOk(vs) && i !in vs.items
    ensures VariablesOk(WithItem(vs, i)) && VariablesGrow(vs, WithItem(vs, i)) && SameShared(vs, WithItem(vs, i))
  {
    hide ItemsOk, GatesOk, ViolationsOk, PackagesOk, ItemsGrow, SharedGrow, PackagesGrow, TrackersGrow;
    ItemAdds(vs.origins, vs.items, i);
    OriginsGrow(vs, vs.origins + [OfItem(i)]);
    MapsGrow(vs);
    SamePackages(vs, WithItem(vs, i));
  }

  ghost function WithAux(vs: Variables, o: Origin): Variables {
    vs.(origins := vs.origins + [o])
  }

  lemma AuxKeepsVariables(vs: Variables, o: Origin)
    requires VariablesOk(vs) && !o.OfItem?
    ensures VariablesOk(WithAux(vs, o)) && VariablesGrow(vs, WithAux(vs, o)) && SameShared(vs, WithAux(vs, o))
    ensures WithAux(vs, o).Is(|vs.origins|, o)
  {
    hide ItemsOk, GatesOk, ViolationsOk, PackagesOk, ItemsGrow, SharedGrow, PackagesGrow, TrackersGrow;
    AuxAdds(vs.origins, vs.items, [o]);
    OriginsGrow(vs, vs.origins + [o]);
    MapsGrow(vs);
    SamePackages(vs, WithAux(vs, o));
  }

  lemma SameGrow(vs: Variables, tb: Tables, clauses: seq<Kind>)
    ensures VariablesGrow(vs, vs) && SameShared(vs, vs) && TablesGrow(tb, tb) && clauses + [] == clauses
  {
  }

  lemma SelectedKept(vs: Variables, vs': Variables, clauses: seq<Kind>)
    requires SelectedOk(vs, clauses) && vs'.selected == vs.selected && vs'.trackers == vs.trackers
    ensures SelectedOk(vs', clauses)
  {
    assert forall n: Name :: vs'.TrackerOf(n) == vs.TrackerOf(n);
  }

  lemma SharedSame(p: Problem, vs: Variables, vs': Variables, tb: Tables, clauses: seq<Kind>)
    requires SharedOk(p, vs, tb, clauses) && vs'.gates == vs.gates && vs'.violations == vs.violations &&
             vs'.items == vs.items
    ensures SharedOk(p, vs', tb, clauses)
  {
    assert forall i: Item :: vs'.VarOf(i) == vs.VarOf(i);
  }

  /** A gate whose candidate clause is there may be shared. */
  lemma RegisterGate(p: Problem, vs: Variables, tb: Tables, clauses: seq<Kind>, rules: set<Rule>, done: set<Rule>,
                     pending: seq<(Name, Var)>,
                     r: Requirement, gate: Var)
    requires Sound(p, vs, tb, clauses, rules, done, pending) && vs.Is(gate, Gate(r)) && r !in vs.gates
    requires r in tb.candidates && Requires(gate, None, r) in clauses
    ensures Sound(p, vs.(gates := vs.gates[r := gate]), tb, clauses, rules, done, pending)
    ensures VariablesGrow(vs, vs.(gates := vs.gates[r := gate]))
  {
    hide Justified, AllJustified, TablesOk, TrackersOk, AllPresent, PendingOk, PendingKept, ItemsOk,
         ViolationsOk, PackagesOk, ItemsGrow, PackagesGrow, TrackersGrow, SelectedOk;
    var vs' := vs.(gates := vs.gates[r := gate]);
    MapsGrow(vs);
    SamePackages(vs, vs');
    assert VariablesOk(vs') && VariablesGrow(vs, vs');
    Reregister(p, vs, vs', tb, clauses, rules, done, pending);
    SelectedKept(vs, vs', clauses);
  }

  /** The parts that do not look at the shared variables. */
  lemma Reregister(p: Problem, vs: Variables, vs': Variables, tb: Tables, clauses: seq<Kind>, rules: set<Rule>,
                   done: set<Rule>, pending: seq<(Name, Var)>)
    requires Sound(p, vs, tb, clauses, rules, done, pending) && VariablesOk(vs') && VariablesGrow(vs, vs') &&
             vs'.trackers == vs.trackers
    ensures TablesOk(p, vs', tb) && AllJustified(p, vs', tb, rules, clauses) && TrackersOk(vs', rules, clauses)
    ensures AllPresent(p, vs', tb, clauses, pending, done) && PendingOk(vs', rules, pending)
  {
    hide VariablesOk, VariablesGrow, TablesOk, TablesGrow, Justified, AllJustified, SharedOk, TrackersOk,
         AllPresent, PendingOk, PendingKept;
    SameGrow(vs, tb, clauses);
    TablesKept(p, vs, vs', tb, tb);
    AllJustifiedKept(p, vs, vs', tb, tb, rules, rules, clauses, []);
    TrackersKept(vs, vs', rules, rules, clauses, clauses);
    PendingStays(vs, vs', rules, rules, pending);
    AllPresentKept(p, vs, vs', tb, tb, clauses, clauses, pending, pending, done);
  }

  /** A violation variable that every solvable which does not match implies may be shared. */
  lemma RegisterViolation(p: Problem, vs: Variables, tb: Tables, clauses: seq<Kind>, rules: set<Rule>,
                          done: set<Rule>, pending: seq<(Name, Var)>,
                          x: VersionSet, aux: Var)
    requires Sound(p, vs, tb, clauses, rules, done, pending) && vs.Is(aux, Violation(x)) && x !in vs.violations
    requires forall s: SolvableId :: s in p.nonMatching(x) ==>
               Solvable(s) in vs.items && ConstrainsExcluded(vs.VarOf(Solvable(s)), aux, x) in clauses
    ensures Sound(p, vs.(violations := vs.violations[x := aux]), tb, clauses, rules, done, pending)
    ensures VariablesGrow(vs, vs.(violations := vs.violations[x := aux]))
  {
    hide Justified, AllJustified, TablesOk, TrackersOk, AllPresent, PendingOk, PendingKept, ItemsOk, GatesOk,
         PackagesOk, ItemsGrow, PackagesGrow, TrackersGrow, SelectedOk;
    var vs' := vs.(violations := vs.violations[x := aux]);
    MapsGrow(vs);
    SamePackages(vs, vs');
    assert VariablesOk(vs') && VariablesGrow(vs, vs');
    Reregister(p, vs, vs', tb, clauses, rules, done, pending);
    SelectedKept(vs, vs', clauses);
  }

  /** A package variable that was just allocated. */
  lemma RegisterNewSelected(p: Problem, vs: Variables, tb: Tables, clauses: seq<Kind>, rules: set<Rule>,
                            done: set<Rule>, pending: seq<(Name, Var)>,
                            name: Name, v: Var)
    requires Sound(p, vs, tb, clauses, rules, done, pending) && vs.Is(v, AtLeastOne(name)) &&
             vs.SelectedVar(name) == None
    ensures Sound(p, vs.(newSelected := vs.newSelected[name := v]), tb, clauses, rules, done, pending)
    ensures VariablesGrow(vs, vs.(newSelected := vs.newSelected[name := v]))
  {
    hide Justified, AllJustified, TablesOk, TrackersOk, AllPresent, PendingOk, PendingKept, ItemsOk,
         ViolationsOk, GatesOk, SharedOk, SharedGrow, ItemsGrow, TrackersGrow, SelectedOk;
    var vs' := vs.(newSelected := vs.newSelected[name := v]);
    MapsGrow(vs);
    assert VariablesOk(vs') && VariablesGrow(vs, vs');
    Reregister(p, vs, vs', tb, clauses, rules, done, pending);
    SharedSame(p, vs, vs', tb, clauses);
    SelectedKept(vs, vs', clauses);
  }

  ghost function Established(vs: Variables, name: Name): Variables
    requires name in vs.newSelected
  {
    vs.(selected := vs.selected[name := vs.newSelected[name]], newSelected := vs.newSelected - {name})
  }

  lemma EstablishedPackages(vs: Variables, name: Name)
    requires name in vs.newSelected && name !in vs.selected && PackagesOk(vs.origins, vs.selected) &&
             PackagesOk(vs.origins, vs.newSelected)
    ensures var vs' := Established(vs, name);
            PackagesOk(vs.origins, vs'.selected) && PackagesOk(vs.origins, vs'.newSelected) && PackagesGrow(vs, vs')
  {
  }

  lemma EstablishedSelected(vs: Variables, clauses: seq<Kind>, name: Name)
    requires name in vs.newSelected && SelectedOk(vs, clauses)
    requires forall v :: v in vs.TrackerOf(name).variables ==> AnyOf(vs.newSelected[name], v) in clauses
    ensures SelectedOk(Established(vs, name), clauses)
  {
    assert forall n: Name :: Established(vs, name).TrackerOf(n) == vs.TrackerOf(n);
  }

  /** A package variable that every tracked solvable implies is established. */
  lemma EstablishSelected(p: Problem, vs: Variables, tb: Tables, clauses: seq<Kind>, rules: set<Rule>,
                          done: set<Rule>, pending: seq<(Name, Var)>,
                          name: Name)
    requires Sound(p, vs, tb, clauses, rules, done, pending) && name in vs.newSelected && name !in vs.selected
    requires forall v :: v in vs.TrackerOf(name).variables ==> AnyOf(vs.newSelected[name], v) in clauses
    ensures Sound(p, Established(vs, name), tb, clauses, rules, done, pending) &&
            VariablesGrow(vs, Established(vs, name))
  {
    hide Justified, AllJustified, TablesOk, TrackersOk, AllPresent, PendingOk, PendingKept, ItemsOk,
         ViolationsOk, GatesOk, SharedOk, SharedGrow, ItemsGrow, TrackersGrow, PackagesOk, PackagesGrow,
         SelectedOk;
    var vs' := Established(vs, name);
    MapsGrow(vs);
    EstablishedPackages(vs, name);
    Reregister(p, vs, vs', tb, clauses, rules, done, pending);
    SharedSame(p, vs, vs', tb, clauses);
    EstablishedSelected(vs, clauses, name);
  }

  /** A rule whose clauses are there is done. */
  lemma Complete(p: Problem, vs: Variables, tb: Tables, clauses: seq<Kind>, rules: set<Rule>, done: set<Rule>,
                 pending: seq<(Name, Var)>, rule: Rule)
    requires Sound(p, vs, tb, clauses, rules, done, pending) && rule in rules &&
             Present(p, vs, tb, clauses, pending, rule)
    ensures Sound(p, vs, tb, clauses, rules, done + {rule}, pending)
  {
    hide VariablesOk, TablesOk, AllJustified, SharedOk, TrackersOk, SelectedOk, Present, PendingOk;
  }

  /** A rival that is to be tracked. */
  lemma Await(p: Problem, vs: Variables, tb: Tables, clauses: seq<Kind>, rules: set<Rule>, done: set<Rule>,
              pending: seq<(Name, Var)>, name: Name, s: SolvableId)
    requires Sound(p, vs, tb, clauses, rules, done, pending) && Solvable(s) in vs.items
    ensures var v := vs.items[Solvable(s)];
            Sound(p, vs, tb, clauses, rules + {Rivals(name, s)}, done + {Rivals(name, s)}, pending + [(name, v)])
  {
    hide VariablesOk, TablesOk, AllJustified, SharedOk, TrackersOk, SelectedOk, AllPresent, VariablesGrow,
         TablesGrow, Present;
    var v, rule := vs.items[Solvable(s)], Rivals(name, s);
    SameGrow(vs, tb, clauses);
    ItemVariable(vs, Solvable(s));
    AllJustifiedKept(p, vs, vs, tb, tb, rules, rules + {rule}, clauses, []);
    TrackersKept(vs, vs, rules, rules + {rule}, clauses, clauses);
    AllPresentKept(p, vs, vs, tb, tb, clauses, clauses, pending, pending + [(name, v)], done);
    RivalPresent(p, vs, tb, clauses, pending, name, s);
    AddPresent(p, vs, tb, clauses, pending + [(name, v)], done, rule);
  }

  lemma AddPresent(p: Problem, vs: Variables, tb: Tables, clauses: seq<Kind>, pending: seq<(Name, Var)>,
                   done: set<Rule>, rule: Rule)
    requires AllPresent(p, vs, tb, clauses, pending, done) && Present(p, vs, tb, clauses, pending, rule)
    ensures AllPresent(p, vs, tb, clauses, pending, done + {rule})
  {
    hide Present;
  }

  lemma RivalPresent(p: Problem, vs: Variables, tb: Tables, clauses: seq<Kind>, pending: seq<(Name, Var)>, name: Name,
                     s: SolvableId)
    requires Solvable(s) in vs.items
    ensures Present(p, vs, tb, clauses, pending + [(name, vs.items[Solvable(s)])], Rivals(name, s))
  {
  }

  ghost function Repeat(o: Origin, n: nat): (r: seq<Origin>)
    ensures |r| == n && forall i :: 0 <= i < n ==> r[i] == o
  {
    seq(n, i => o)
  }

  /** The clauses of a tracker's implications. */
  function Forbids(cs: seq<Implication>, name: Name): (r: seq<Kind>)
    ensures |r| == |cs| && forall i :: 0 <= i < |r| ==> r[i] == ForbidMultipleInstances(cs[i].0, cs[i].1, name)
  {
    seq(|cs|, i requires 0 <= i < |cs| => ForbidMultipleInstances(cs[i].0, cs[i].1, name))
  }

  /** A tracker after a variable was added to it. */
  ghost predicate TrackerAdds(t: Tracker, t': Tracker, v: Var, cs: seq<Implication>, before: seq<Implication>,
                              free: Var, next: Var) {
    && t'.variables == (if v in t.variables then t.variables else t.variables + [v]) && t.helpers <= t'.helpers &&
       free <= next
    && Distinct(t'.variables) && Distinct(t'.helpers) && Apart(t'.variables, t'.helpers) &&
       IsCeilLog2(|t'.variables|, |t'.helpers|)
    && (forall b :: |t.helpers| <= b < |t'.helpers| ==> free <= t'.helpers[b] < next)
    && Exact(t.variables, t.helpers, before) && Exact(t'.variables, t'.helpers, before + cs)
  }

  ghost function WithTracker(vs: Variables, name: Name, t: Tracker, helpers: nat): Variables {
    vs.(origins := vs.origins + Repeat(Helper(name), helpers), trackers := vs.trackers[name := t])
  }

  lemma TrackVariables(vs: Variables, name: Name, t: Tracker, helpers: nat)
    requires VariablesOk(vs) && TrackerGrows(vs.TrackerOf(name), t)
    ensures VariablesOk(WithTracker(vs, name, t, helpers)) && VariablesGrow(vs, WithTracker(vs, name, t, helpers))
    ensures forall v :: |vs.origins| <= v < |vs.origins| + helpers ==>
              WithTracker(vs, name, t, helpers).Is(v, Helper(name))
  {
    hide ItemsOk, GatesOk, ViolationsOk, PackagesOk, ItemsGrow, SharedGrow, PackagesGrow;
    AuxAdds(vs.origins, vs.items, Repeat(Helper(name), helpers));
    OriginsGrow(vs, vs.origins + Repeat(Helper(name), helpers));
    MapsGrow(vs);
    SamePackages(vs, WithTracker(vs, name, t, helpers));
  }

  lemma ForbidPresent(cs: seq<Implication>, name: Name, c: Implication)
    requires c in cs
    ensures ForbidMultipleInstances(c.0, c.1, name) in Forbids(cs, name)
  {
    var i :| 0 <= i < |cs| && cs[i] == c;
    assert Forbids(cs, name)[i] == ForbidMultipleInstances(c.0, c.1, name);
  }

  /** A tracker's implications are among those already emitted for it and the new ones. */
  lemma ForcedIsEmitted(t: Tracker, t': Tracker, v: Var, cs: seq<Implication>, before: seq<Implication>, free: Var,
                        next: Var, c: Implication)
    requires TrackerAdds(t, t', v, cs, before, free, next) && IsForced(t'.variables, t'.helpers, c)
    ensures c in cs || IsForced(t.variables, t.helpers, c)
  {
    hide Distinct, Apart, IsCeilLog2;
    assert c in before + cs;
  }

  lemma TrackedTracker(vs: Variables, vs': Variables, rules: set<Rule>, clauses: seq<Kind>, clauses': seq<Kind>,
                       name: Name, t': Tracker, v: Var,
                       cs: seq<Implication>, before: seq<Implication>, free: Var, next: Var)
    requires VariablesGrow(vs, vs') && TrackerOk(vs, rules, clauses, name, vs.TrackerOf(name)) &&
             free == |vs.origins| && free <= next
    requires TrackerAdds(vs.TrackerOf(name), t', v, cs, before, free, next)
    requires vs.IsItem(v) && vs.ItemOf(v).Solvable? && Rivals(name, vs.ItemOf(v).id) in rules
    requires forall w :: free <= w < next ==> vs'.Is(w, Helper(name))
    requires ClausesKept(clauses, clauses') && ClausesKept(Forbids(cs, name), clauses')
    ensures TrackerOk(vs', rules, clauses', name, t')
  {
    hide VariablesGrow, Distinct, Apart, IsCeilLog2, IsForced, Exact;
    OriginsKept(vs, vs');
    var t := vs.TrackerOf(name);
    forall w | w in t'.helpers ensures vs'.Is(w, Helper(name)) {
      var b :| 0 <= b < |t'.helpers| && t'.helpers[b] == w;
      if b < |t.helpers| {
        assert t.helpers[b] == w && w in t.helpers;
      }
    }
    forall c: Implication | IsForced(t'.variables, t'.helpers,
                                     c) ensures ForbidMultipleInstances(c.0, c.1, name) in clauses' {
      ForcedIsEmitted(t, t', v, cs, before, free, next, c);
      if c in cs {
        ForbidPresent(cs, name, c);
      }
    }
  }

  lemma EmptyTrackerOk(vs: Variables, rules: set<Rule>, clauses: seq<Kind>, name: Name)
    requires TrackersOk(vs, rules, clauses)
    ensures TrackerOk(vs, rules, clauses, name, vs.TrackerOf(name))
  {
    hide IsForced;
    if name !in vs.trackers {
      forall c: Implication ensures !IsForced([], [], c) {
        EmptyForcesNothing(c);
      }
    }
  }

  lemma TrackersWith(vs: Variables, vs': Variables, rules: set<Rule>, clauses: seq<Kind>, clauses': seq<Kind>,
                     name: Name, t': Tracker)
    requires VariablesGrow(vs, vs') && TrackersOk(vs, rules, clauses) && ClausesKept(clauses, clauses')
    requires vs'.trackers == vs.trackers[name := t'] && TrackerOk(vs', rules, clauses', name, t')
    ensures TrackersOk(vs', rules, clauses')
  {
    hide VariablesGrow, TrackerOk, ClausesKept;
    forall n | n in vs'.trackers ensures TrackerOk(vs', rules, clauses', n, vs'.trackers[n]) {
      if n != name {
        TrackerOkKept(vs, vs', rules, rules, clauses, clauses', n, vs.trackers[n]);
      }
    }
  }

  /** The clauses added with a variable: its implications and, if the package has a variable, that it is selected. */
  ghost function TrackClauses(vs: Variables, name: Name, v: Var, cs: seq<Implication>): seq<Kind> {
    Forbids(cs, name) + if v !in vs.TrackerOf(name).variables &&
    name in vs.selected then [AnyOf(vs.selected[name], v)] else []
  }

  lemma TrackJustified(p: Problem, vs: Variables, vs': Variables, tb: Tables, rules: set<Rule>, name: Name,
                       t': Tracker, v: Var,
                       cs: seq<Implication>, before: seq<Implication>, k: Kind)
    requires VariablesOk(vs') && vs'.trackers == vs.trackers[name := t'] && vs'.selected == vs.selected &&
             Exact(t'.variables, t'.helpers, before + cs) && v in t'.variables
    requires k in TrackClauses(vs, name, v, cs)
    ensures Justified(p, vs', tb, rules, k)
  {
    hide IsForced, ItemsOk, GatesOk, ViolationsOk;
    if k in Forbids(cs, name) {
      var i :| 0 <= i < |cs| && k == Forbids(cs, name)[i];
      assert cs[i] in before + cs && IsForced(t'.variables, t'.helpers, cs[i]);
      assert (cs[i].0, cs[i].1) == cs[i];
    }
  }

  lemma TrackSelected(vs: Variables, vs': Variables, clauses: seq<Kind>, name: Name, t': Tracker, v: Var,
                      cs: seq<Implication>)
    requires SelectedOk(vs, clauses) && vs'.selected == vs.selected && vs'.trackers == vs.trackers[name := t']
    requires t'.variables == if v in vs.TrackerOf(name).variables then vs.TrackerOf(name).variables
                             else vs.TrackerOf(name).variables + [v]
    ensures SelectedOk(vs', clauses + TrackClauses(vs, name, v, cs))
  {
    var more := TrackClauses(vs, name, v, cs);
    forall n, w | n in vs'.selected &&
    w in vs'.TrackerOf(n).variables ensures AnyOf(vs'.selected[n], w) in clauses + more {
      if w in vs.TrackerOf(n).variables {
        assert AnyOf(vs.selected[n], w) in clauses;
      }
    }
  }

  /** A pending rival that is tracked. */
  lemma Track(p: Problem, vs: Variables, tb: Tables, clauses: seq<Kind>, rules: set<Rule>, done: set<Rule>,
              pending: seq<(Name, Var)>,
              name: Name, v: Var, t': Tracker, cs: seq<Implication>, before: seq<Implication>, next: Var)
    requires Sound(p, vs, tb, clauses, rules, done, pending) && pending != [] && pending[0] == (name, v)
    requires next >= |vs.origins| && TrackerAdds(vs.TrackerOf(name), t', v, cs, before, |vs.origins|, next)
    ensures Sound(p, WithTracker(vs, name, t', next - |vs.origins|), tb, clauses + TrackClauses(vs, name, v, cs),
                  rules, done, pending[1..])
    ensures VariablesGrow(vs, WithTracker(vs, name, t', next - |vs.origins|))
  {
    hide VariablesOk, VariablesGrow, TablesOk, TablesGrow, Justified, AllJustified, SharedOk, TrackersOk,
         AllPresent, SelectedOk, Distinct, Apart, IsCeilLog2, Exact, TrackClauses, Forbids;
    var vs', more := WithTracker(vs, name, t', next - |vs.origins|), TrackClauses(vs, name, v, cs);
    assert (name, v) in pending && v in t'.variables;
    TrackVariables(vs, name, t', next - |vs.origins|);
    SameGrow(vs, tb, clauses);
    TablesKept(p, vs, vs', tb, tb);
    forall k | k in more ensures Justified(p, vs', tb, rules, k) {
      TrackJustified(p, vs, vs', tb, rules, name, t', v, cs, before, k);
    }
    AllJustifiedKept(p, vs, vs', tb, tb, rules, rules, clauses, more);
    SharedMore(p, vs, vs', tb, clauses, more);
    TrackMore(vs, clauses, name, v, cs);
    EmptyTrackerOk(vs, rules, clauses, name);
    TrackedTracker(vs, vs', rules, clauses, clauses + more, name, t', v, cs, before, |vs.origins|, next);
    TrackersWith(vs, vs', rules, clauses, clauses + more, name, t');
    TrackSelected(vs, vs', clauses, name, t', v, cs);
    TailPending(vs, vs', rules, pending, name, v);
    AllPresentKept(p, vs, vs', tb, tb, clauses, clauses + more, pending, pending[1..], done);
  }

  lemma TrackMore(vs: Variables, clauses: seq<Kind>, name: Name, v: Var, cs: seq<Implication>)
    ensures ClausesKept(clauses, clauses + TrackClauses(vs, name, v, cs)) &&
            ClausesKept(Forbids(cs, name), clauses + TrackClauses(vs, name, v, cs))
  {
  }

  lemma SharedMore(p: Problem, vs: Variables, vs': Variables, tb: Tables, clauses: seq<Kind>, more: seq<Kind>)
    requires SharedOk(p, vs, tb, clauses) && vs'.gates == vs.gates && vs'.violations == vs.violations &&
             vs'.items == vs.items
    ensures SharedOk(p, vs', tb, clauses + more)
  {
    assert forall i: Item :: vs'.VarOf(i) == vs.VarOf(i);
  }

  lemma TailPending(vs: Variables, vs': Variables, rules: set<Rule>, pending: seq<(Name, Var)>, name: Name, v: Var)
    requires VariablesGrow(vs, vs') && PendingOk(vs, rules, pending) && pending != [] && pending[0] == (name, v) &&
             v in vs'.TrackerOf(name).variables
    ensures PendingOk(vs', rules, pending[1..]) && PendingKept(vs', pending, pending[1..])
  {
    OriginsKept(vs, vs');
    assert pending == [pending[0]] + pending[1..];
  }
}
