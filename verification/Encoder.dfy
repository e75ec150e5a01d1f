/**
 The encoder: a sequence of handler calls, in any order, that turn what the provider answers
 into clauses, and a final round that adds the clauses that were put off.
 */
module Encoders {
  import opened Sat
  import opened Clauses
  import opened AtMostOne
  import opened Conditions
  import opened Problems
  import opened Encoding
  import opened Compilation
  import opened EncodingSteps

  const REQUIRES_AUX_THRESHOLD: nat := 4
  const CONSTRAINS_AUX_THRESHOLD: nat := 4

  /** A variable that was registered as a rival stays one. */
  ghost predicate SeenOk(p: Problem, vs: Variables, rules: set<Rule>, seen: set<Var>) {
    forall v :: v in seen ==> vs.IsItem(v) && vs.ItemOf(v).Solvable? &&
                              Rivals(p.nameOf(vs.ItemOf(v).id), vs.ItemOf(v).id) in rules
  }

  /** Every tracker is exact: it has emitted one implication per variable and bit. */
  ghost predicate EmittedOk(vs: Variables, emitted: map<Name, seq<Implication>>) {
    && (forall n :: n in vs.trackers ==>
          n in emitted && Exact(vs.trackers[n].variables, vs.trackers[n].helpers, emitted[n]))
    && (forall n :: n in vs.newSelected ==> n !in vs.selected)
  }

  class Encoder {
    const problem: Problem
    var vars: Variables
    var tables: Tables
    var clauses: seq<Kind>
    var pendingForbid: seq<(Name, Var)>
    var forbidSeen: set<Var>
    var allowMultiple: set<Name>

    /** What the encoder was told, and the part of it whose clauses are complete. */
    ghost var rules: set<Rule>
    ghost var done: set<Rule>
    ghost var emitted: map<Name, seq<Implication>>

    ghost predicate Valid()
      reads this
    {
      && problem.Valid() && Sound(problem, vars, tables, clauses, rules, done, pendingForbid)
      && SeenOk(problem, vars, rules, forbidSeen) && EmittedOk(vars, emitted)
      && AllSelectable(problem, tables, rules, allowMultiple)
    }

    /** Only the root and the clause that installs it. */
    constructor (problem: Problem)
      requires problem.Valid()
      ensures Valid() && this.problem == problem && rules == {} && done == {} && clauses == [InstallRoot] &&
              pendingForbid == []
      ensures allowMultiple == {}
    {
      this.problem := problem;
      vars := Variables([OfItem(Root)], map[Root := ROOT], map[], map[], map[], map[], map[]);
      tables, clauses, pendingForbid := Tables([], map[], []), [InstallRoot], [];
      forbidSeen, allowMultiple := {}, {};
      rules, done, emitted := {}, {}, map[];
    }

    /** The variable of an item, allocated when the item is first met. */
    method Intern(i: Item) returns (v: Var)
      requires Valid()
      modifies this`vars
      ensures Valid() && i in vars.items && v == vars.items[i]
      ensures VariablesGrow(old(vars), vars) && SameShared(old(vars), vars)
    {
      hide Sound, SeenOk, EmittedOk, AllSelectable, VariablesOk, VariablesGrow;
      SameGrow(vars, tables, clauses);
      if i in vars.items {
        return vars.items[i];
      }
      v := |vars.origins|;
      InternKeeps(problem, vars, tables, clauses, rules, done, pendingForbid, forbidSeen, emitted, i);
      vars := vars.(origins := vars.origins + [OfItem(i)], items := vars.items[i := v]);
    }

    /** Allocates an auxiliary variable. */
    method Allocate(o: Origin) returns (v: Var)
      requires Valid() && !o.OfItem?
      modifies this`vars
      ensures Valid() && vars.Is(v, o) && VariablesGrow(old(vars), vars) && SameShared(old(vars), vars) &&
              vars.items == old(vars.items)
    {
      hide Sound, SeenOk, EmittedOk, AllSelectable, VariablesOk, VariablesGrow;
      v := |vars.origins|;
      AllocateKeeps(problem, vars, tables, clauses, rules, done, pendingForbid, forbidSeen, emitted, o);
      vars := vars.(origins := vars.origins + [o]);
    }

    method Emit(k: Kind)
      requires Valid() && Justified(problem, vars, tables, rules, k)
      modifies this`clauses
      ensures Valid() && clauses == old(clauses) + [k]
    {
      hide Sound, SeenOk, EmittedOk, AllSelectable, Justified;
      EmitKeeps(problem, vars, tables, clauses, rules, done, pendingForbid, k);
      clauses := clauses + [k];
    }

    /** A rule whose clauses are about to be emitted. */
    ghost method Announce(rule: Rule)
      requires Valid() && (rule.NeedsIf? ==> ComplementSelectable(problem, rules, allowMultiple, rule.conjunction))
      modifies this`rules
      ensures Valid() && rules == old(rules) + {rule}
    {
      hide Sound, SeenOk, EmittedOk, AllSelectable;
      AnnounceKeeps(problem, vars, tables, clauses, rules, done, pendingForbid, forbidSeen, rule);
      MoreSelectable(problem, tables, rules, rules + {rule}, allowMultiple, allowMultiple);
      rules := rules + {rule};
    }

    /** A rule whose clauses have been emitted. */
    ghost method Finish(rule: Rule)
      requires Valid() && rule in rules && Present(problem, vars, tables, clauses, pendingForbid, rule)
      modifies this`done
      ensures Valid() && done == old(done) + {rule}
    {
      hide Sound, SeenOk, EmittedOk, AllSelectable, Present;
      Complete(problem, vars, tables, clauses, rules, done, pendingForbid, rule);
      done := done + {rule};
    }

    /** The dependencies of an item are unknown, or it is excluded by the provider. */
    method AddExclusion(item: Item) returns (v: Var)
      requires Valid() && done == rules
      modifies this`vars, this`clauses, this`rules, this`done
      ensures Valid() && done == rules && rules == old(rules) + {Excludes(item)}
      ensures forall s: Choice :: IsSolution(problem, s, rules) ==> item !in s
    {
      hide Sound, SeenOk, EmittedOk, AllSelectable, VariablesOk, VariablesGrow, SameShared;
      v := Intern(item);
      Announce(Excludes(item));
      SoundItem(problem, vars, tables, clauses, rules, done, pendingForbid, item);
      Emit(Excluded(v));
      Finish(Excludes(item));
      assert Excludes(item) in rules;
    }

    /** Forbids one candidate of a package that is locked to another. */
    method AddLock(locked: SolvableId, l: Var, c: SolvableId)
      requires Valid() && done == rules && Solvable(locked) in vars.items && vars.items[Solvable(locked)] == l
      modifies this`vars, this`clauses, this`rules, this`done
      ensures Valid() && done == rules && rules == old(rules) + {Locks(locked, c)}
      ensures Solvable(locked) in vars.items && vars.items[Solvable(locked)] == l
    {
      hide Sound, SeenOk, EmittedOk, AllSelectable, VariablesOk, VariablesGrow, SameShared;
      var other := Intern(Solvable(c));
      ItemStays(old(vars), vars, Solvable(locked));
      Announce(Locks(locked, c));
      SoundItem(problem, vars, tables, clauses, rules, done, pendingForbid, Solvable(c));
      Emit(Lock(l, other));
      Finish(Locks(locked, c));
    }

    /** Forbids every candidate of a package but the one it is locked to. */
    method AddLocked(locked: SolvableId, candidates: seq<SolvableId>)
      requires Valid() && done == rules
      modifies this`vars, this`clauses, this`rules, this`done
      ensures Valid() && done == rules && rules == old(rules) + LockRules(locked, candidates)
      ensures OnlyLockedLeft(problem, rules, locked, candidates)
      ensures forall rule :: rule in rules && rule !in old(rules) ==>
                rule.Locks? && rule.rival in candidates && rule.rival != locked
    {
      hide Sound, SeenOk, EmittedOk, AllSelectable, VariablesOk, VariablesGrow, SameShared;
      var l := Intern(Solvable(locked));
      for i := 0 to |candidates|
        invariant Valid() && done == rules && rules == old(rules) + LockRules(locked, candidates[..i])
        invariant Solvable(locked) in vars.items && vars.items[Solvable(locked)] == l
      {
        var c := candidates[i];
        assert candidates[..i + 1] == candidates[..i] + [c];
        if c != locked {
          AddLock(locked, l, c);
          assert LockRules(locked, candidates[..i + 1]) == LockRules(locked, candidates[..i]) + {Locks(locked, c)};
        } else {
          assert LockRules(locked, candidates[..i + 1]) == LockRules(locked, candidates[..i]);
        }
      }
      assert candidates[..|candidates|] == candidates;
      LocksMean(problem, rules, locked, candidates);
    }

    /** The candidates of a package are known. */
    method OnCandidates(name: Name, candidates: seq<SolvableId>, locked: Option<SolvableId>,
                        excluded: seq<SolvableId>, multiple: bool)
      requires Valid() && done == rules
      modifies this`vars, this`clauses, this`rules, this`done, this`allowMultiple
      ensures Valid() && done == rules
      ensures rules == old(rules) + (if locked.Some? then LockRules(locked.value, candidates)
                                     else {}) + ExclusionRules(excluded)
      ensures locked.Some? ==> OnlyLockedLeft(problem, rules, locked.value, candidates)
      ensures NoneLeft(problem, rules, excluded)
      ensures forall rule :: rule in rules && rule !in old(rules) ==>
                || (rule.Locks? && locked.Some? && rule.rival in candidates && rule.rival != locked.value)
                || (rule.Excludes? && rule.item.Solvable? && rule.item.id in excluded)
      ensures allowMultiple == if multiple then old(allowMultiple) + {name} else old(allowMultiple)
    {
      hide Sound, SeenOk, EmittedOk, AllSelectable;
      if multiple {
        MoreSelectable(problem, tables, rules, rules, allowMultiple, allowMultiple + {name});
        allowMultiple := allowMultiple + {name};
      }
      if locked.Some? {
        AddLocked(locked.value, candidates);
      }
      ghost var before := rules;
      for i := 0 to |excluded|
        invariant Valid() && done == rules && rules == before + ExclusionRules(excluded[..i])
        invariant allowMultiple == if multiple then old(allowMultiple) + {name} else old(allowMultiple)
      {
        var _ := AddExclusion(Solvable(excluded[i]));
        assert excluded[..i + 1] == excluded[..i] + [excluded[i]];
        assert ExclusionRules(excluded[..i + 1]) == ExclusionRules(excluded[..i]) + {Excludes(Solvable(excluded[i]))};
      }
      assert excluded[..|excluded|] == excluded;
      if locked.Some? {
        LocksMean(problem, rules, locked.value, candidates);
      }
      ExclusionsMean(problem, rules, excluded);
    }

    /** The solvables that do not match a constraint of `parent` are known. */
    method OnConstraint(parent: Item, x: VersionSet)
      requires Valid() && done == rules
      modifies this`vars, this`clauses, this`rules, this`done
      ensures Valid() && done == rules && rules == old(rules) + {Restricts(parent, x)}
      ensures forall s: Choice, c: SolvableId ::
                IsSolution(problem, s, rules) && parent in s && c in problem.nonMatching(x) ==> Solvable(c) !in s
      ensures |clauses| == |old(clauses)| + if |problem.nonMatching(x)| < 4 then |problem.nonMatching(x)|
                           else if x in old(vars).violations then 1 else |problem.nonMatching(x)| + 1
    {
      hide Sound, SeenOk, EmittedOk, AllSelectable, VariablesOk, VariablesGrow, Justified, RestrictionPresent;
      var v := Intern(parent);
      assert vars.violations == old(vars).violations;
      Announce(Restricts(parent, x));
      if |problem.nonMatching(x)| < CONSTRAINS_AUX_THRESHOLD {
        AddPairwise(parent, v, x);
      } else {
        var aux := ViolationOf(x, parent);
        SoundItem(problem, vars, tables, clauses, rules, done, pendingForbid, parent);
        SoundViolation(problem, vars, tables, clauses, rules, done, pendingForbid, x);
        JustifyParent(problem, vars, tables, rules, v, aux, x);
        Emit(ConstrainsParent(v, aux, x));
        SharedRestriction(problem, vars, clauses, parent, x);
      }
      Finish(Restricts(parent, x));
      RestrictionMeans(problem, rules, parent, x);
    }

    /** One clause per solvable that does not match. */
    method AddPairwise(parent: Item, v: Var, x: VersionSet)
      requires Valid() && Restricts(parent, x) in rules && parent in vars.items && vars.items[parent] == v
      modifies this`vars, this`clauses
      ensures Valid() && parent in vars.items && RestrictionPresent(problem, vars, clauses, parent, x)
      ensures |clauses| == |old(clauses)| + |problem.nonMatching(x)|
    {
      hide Sound, SeenOk, EmittedOk, AllSelectable, VariablesOk, VariablesGrow, SameShared, Justified,
           RestrictionPresent, PairsPresent;
      var forbidden := problem.nonMatching(x);
      NoPairs(vars, clauses, v, x);
      for i := 0 to |forbidden|
        invariant Valid() && parent in vars.items && vars.items[parent] == v && |clauses| == |old(clauses)| + i
        invariant PairsPresent(vars, clauses, v, x, forbidden[..i])
      {
        ghost var before := vars;
        var f := Intern(Solvable(forbidden[i]));
        ItemStays(before, vars, parent);
        SoundItem(problem, vars, tables, clauses, rules, done, pendingForbid, parent);
        SoundItem(problem, vars, tables, clauses, rules, done, pendingForbid, Solvable(forbidden[i]));
        JustifyPair(problem, vars, tables, rules, v, f, x);
        PairAdded(before, vars, clauses, v, f, x, forbidden, i);
        Emit(Constrains(v, f, x));
      }
      assert forbidden[..|forbidden|] == forbidden;
      PairsRestrict(problem, vars, clauses, parent, x);
    }

    /** The variable that is true when a solvable which does not match is selected; its clauses are emitted once. */
    method ViolationOf(x: VersionSet, ghost parent: Item) returns (aux: Var)
      requires Valid() && parent in vars.items
      modifies this`vars, this`clauses
      ensures Valid() && x in vars.violations && vars.violations[x] == aux && ItemsGrow(old(vars).items, vars.items)
      ensures |clauses| == |old(clauses)| + if x in old(vars).violations then 0 else |problem.nonMatching(x)|
    {
      hide Sound, SeenOk, EmittedOk, AllSelectable, VariablesOk, VariablesGrow, Justified, ExcludedPresent;
      if x in vars.violations {
        return vars.violations[x];
      }
      aux := Allocate(Violation(x));
      var forbidden := problem.nonMatching(x);
      NoneExcluded(vars, clauses, aux, x);
      for i := 0 to |forbidden|
        invariant Valid() && vars.Is(aux, Violation(x)) && x !in vars.violations &&
                  ItemsGrow(old(vars).items, vars.items)
        invariant |clauses| == |old(clauses)| + i
        invariant ExcludedPresent(vars, clauses, aux, x, forbidden[..i])
      {
        ghost var before := vars;
        var f := Intern(Solvable(forbidden[i]));
        GrowthTells(old(vars).items, before, vars, aux, Violation(x));
        SoundItem(problem, vars, tables, clauses, rules, done, pendingForbid, Solvable(forbidden[i]));
        JustifyExcluded(problem, vars, tables, rules, f, aux, x);
        ExcludedAdded(before, vars, clauses, aux, f, x, forbidden, i);
        Emit(ConstrainsExcluded(f, aux, x));
      }
      assert forbidden[..|forbidden|] == forbidden;
      ShareViolation(problem, vars, tables, clauses, rules, done, pendingForbid, forbidSeen, emitted, x, aux);
      vars := vars.(violations := vars.violations[x := aux]);
    }

    /** Records a solvable that can be selected as a rival of the others of its package, unless the package allows
        several. */
    method RegisterRival(c: SolvableId, v: Var)
      requires Valid() && done == rules && Solvable(c) in vars.items && vars.items[Solvable(c)] == v
      modifies this`pendingForbid, this`forbidSeen, this`rules, this`done
      ensures Valid() && done == rules && rules == old(rules) + RivalRules(problem, allowMultiple, [c])
    {
      hide Sound, SeenOk, EmittedOk, AllSelectable;
      var name := problem.nameOf(c);
      SoundItem(problem, vars, tables, clauses, rules, done, pendingForbid, Solvable(c));
      OneRival(problem, allowMultiple, c);
      if name in allowMultiple {
        return;
      }
      if v in forbidSeen {
        SeenRival(problem, vars, rules, forbidSeen, v, c);
        assert rules == rules + {Rivals(name, c)};
        return;
      }
      Await(problem, vars, tables, clauses, rules, done, pendingForbid, name, c);
      SeenMore(problem, vars, rules, forbidSeen, v, c);
      MoreSelectable(problem, tables, rules, rules + {Rivals(name, c)}, allowMultiple, allowMultiple);
      forbidSeen := forbidSeen + {v};
      pendingForbid := pendingForbid + [(name, v)];
      rules := rules + {Rivals(name, c)};
      done := rules;
    }

    /** The variables of some solvables. */
    method InternEach(cs: seq<SolvableId>) returns (vs: seq<Var>)
      requires Valid()
      modifies this`vars
      ensures Valid() && VariablesGrow(old(vars), vars) && SameShared(old(vars), vars)
      ensures |vs| == |cs| && forall j :: 0 <= j < |cs| ==>
                                Solvable(cs[j]) in vars.items && vs[j] == vars.items[Solvable(cs[j])]
    {
      hide Sound, SeenOk, EmittedOk, AllSelectable, VariablesGrow;
      vs := [];
      SameGrow(vars, tables, clauses);
      for j := 0 to |cs|
        invariant Valid() && VariablesGrow(old(vars), vars) && SameShared(old(vars), vars)
        invariant |vs| == j && forall k :: 0 <= k < j ==>
                                 Solvable(cs[k]) in vars.items && vs[k] == vars.items[Solvable(cs[k])]
      {
        ghost var before := vars;
        var v := Intern(Solvable(cs[j]));
        GrowsOn(old(vars), before, vars);
        vs := vs + [v];
      }
    }

    /** The variables of all candidates, per version set. */
    method InternAll(css: seq<seq<SolvableId>>) returns (vss: seq<seq<Var>>)
      requires Valid()
      modifies this`vars
      ensures Valid() && VariablesGrow(old(vars), vars) && AllInterned(vars, css) && vss == VarsOf(vars, css)
    {
      hide Sound, SeenOk, EmittedOk, AllSelectable, VariablesGrow, AllInterned, VarsOf;
      vss := [];
      SameGrow(vars, tables, clauses);
      NoneInterned(vars);
      for i := 0 to |css|
        invariant Valid() && VariablesGrow(old(vars), vars) && AllInterned(vars, css[..i]) &&
                  vss == VarsOf(vars, css[..i])
      {
        ghost var before := vars;
        var vs := InternEach(css[i]);
        GrowsOn(old(vars), before, vars);
        InternedMore(before, vars, css, i, vss, vs);
        vss := vss + [vs];
      }
      assert css[..|css|] == css;
    }

    /** Records all candidates of a requirement as rivals. */
    method RegisterRivals(cs: seq<SolvableId>, vs: seq<Var>)
      requires Valid() && done == rules
      requires |vs| == |cs| && forall j :: 0 <= j < |cs| ==>
                                 Solvable(cs[j]) in vars.items && vs[j] == vars.items[Solvable(cs[j])]
      modifies this`pendingForbid, this`forbidSeen, this`rules, this`done
      ensures Valid() && done == rules && rules == old(rules) + RivalRules(problem, allowMultiple, cs)
    {
      hide Sound, SeenOk, EmittedOk, AllSelectable;
      for j := 0 to |cs|
        invariant Valid() && done == rules && rules == old(rules) + RivalRules(problem, allowMultiple, cs[..j])
      {
        RegisterRival(cs[j], vs[j]);
        assert cs[..j + 1] == cs[..j] + [cs[j]];
        assert RivalRules(problem, allowMultiple,
                          cs[..j + 1]) == RivalRules(problem, allowMultiple,
                                                     cs[..j]) + RivalRules(problem, allowMultiple, [cs[j]]);
      }
      assert cs[..|cs|] == cs;
    }

    /** Allocates the variables of a requirement's candidates, records them as rivals and stores them. */
    method StoreCandidates(r: Requirement) returns (variables: seq<seq<Var>>)
      requires Valid() && done == rules
      modifies this`vars, this`tables, this`rules, this`done, this`pendingForbid, this`forbidSeen
      ensures Valid() && done == rules && VariablesGrow(old(vars), vars) && r in tables.candidates &&
              tables.candidates[r] == variables
      ensures rules == old(rules) + CandidateRules(problem, allowMultiple, problem.Candidates(r))
    {
      hide Sound, SeenOk, EmittedOk, AllSelectable, VariablesGrow, AllInterned, VarsOf, RivalRules;
      var candidates := problem.Candidates(r);
      variables := InternAll(candidates);
      ghost var vars0 := vars;
      for i := 0 to |candidates|
        invariant Valid() && done == rules &&
                  rules == old(rules) + CandidateRules(problem, allowMultiple, candidates[..i])
        invariant vars == vars0 && tables == old(tables)
      {
        InternedRow(vars, candidates, i);
        RegisterRivals(candidates[i], variables[i]);
        assert candidates[..i + 1][..i] == candidates[..i];
      }
      assert candidates[..|candidates|] == candidates;
      StoreKeeps(problem, vars, tables, clauses, rules, done, pendingForbid, r);
      StoreSelectable(problem, tables, rules, allowMultiple, r, variables);
      tables := tables.(candidates := tables.candidates[r := variables]);
    }

    /** The candidates of a requirement of `parent` are known. `condition` holds the alternatives of its condition
        that are encoded now. */
    method OnRequirement(parent: Item, r: Requirement, condition: Option<seq<Conjunction>>)
      requires Valid() && done == rules
      modifies this`vars, this`clauses, this`tables, this`rules, this`done, this`pendingForbid, this`forbidSeen
      ensures Valid() && done == rules &&
              rules == old(rules) + RequirementRules(problem, allowMultiple, parent, r, condition)
      ensures condition == None ==> NeedIsAsked(problem, rules, parent, r)
      ensures condition.Some? ==> forall c :: c in condition.value ==> NeedsIf(parent, r, c) in rules
      ensures OneOfTheOffered(problem, rules, allowMultiple, r)
      ensures forall rule :: rule in rules && rule !in old(rules) ==> BelongsTo(problem, parent, r, condition, rule)
    {
      hide Valid, VariablesGrow, RivalRules, ConditionalRules, CandidateRules, NeedIsAsked, OneOfTheOffered,
           BelongsTo;
      var v := Intern(parent);
      ghost var vars0 := vars;
      var variables := StoreCandidates(r);
      ItemStays(vars0, vars, parent);
      match condition {
        case None => AddRequires(parent, v, r, variables);
        case Some(dnf) => AddAlternatives(parent, v, r, dnf);
      }
      RequirementMeans(problem, rules, allowMultiple, parent, r, condition);
    }

    /** One clause for each alternative of a condition. */
    method AddAlternatives(parent: Item, v: Var, r: Requirement, dnf: seq<Conjunction>)
      requires Valid() && done == rules && r in tables.candidates && parent in vars.items && vars.items[parent] == v
      modifies this`vars, this`clauses, this`tables, this`rules, this`done, this`pendingForbid, this`forbidSeen
      ensures Valid() && done == rules && rules == old(rules) + ConditionalRules(problem, allowMultiple, parent, r, dnf)
    {
      hide Valid, ConditionalRules, ComplementRules;
      NoAlternatives(problem, allowMultiple, parent, r);
      for i := 0 to |dnf|
        invariant Valid() && done == rules && r in tables.candidates && parent in vars.items && vars.items[parent] == v
        invariant rules == old(rules) + ConditionalRules(problem, allowMultiple, parent, r, dnf[..i])
      {
        AddConditional(parent, v, r, dnf[i]);
        NextAlternative(problem, allowMultiple, parent, r, dnf, i);
      }
      assert dnf[..|dnf|] == dnf;
    }

    /** An unconditional requirement: through the shared gate if it has enough candidates and is not the root's own. */
    method AddRequires(parent: Item, v: Var, r: Requirement, variables: seq<seq<Var>>)
      requires Valid() && done == rules && r in tables.candidates && parent in vars.items && vars.items[parent] == v
      requires tables.candidates[r] == variables
      modifies this`vars, this`clauses, this`rules, this`done
      ensures Valid() && done == rules && rules == old(rules) + {Needs(parent, r)}
      ensures if parent != Root && CountAll(tables.candidates[r]) >= 4 then
                r in vars.gates &&
                clauses == old(clauses) + GateClauses(old(vars), r, vars.gates[r]) + [AnyOf(vars.gates[r], v)]
              else clauses == old(clauses) + [Requires(v, None, r)]
    {
      hide Sound, SeenOk, EmittedOk, AllSelectable, VariablesGrow, Justified;
      Announce(Needs(parent, r));
      SoundItem(problem, vars, tables, clauses, rules, done, pendingForbid, parent);
      if parent != Root && CountAll(variables) >= REQUIRES_AUX_THRESHOLD {
        var gate := GateOf(r, parent);
        SoundItem(problem, vars, tables, clauses, rules, done, pendingForbid, parent);
        SoundGate(problem, vars, tables, clauses, rules, done, pendingForbid, r);
        JustifyImplication(problem, vars, tables, rules, gate, v, r);
        Emit(AnyOf(gate, v));
      } else {
        JustifyRequires(problem, vars, tables, rules, v, r);
        Emit(Requires(v, None, r));
      }
      Finish(Needs(parent, r));
    }

    /** The gate of a requirement; its candidate clause is emitted once. */
    method GateOf(r: Requirement, ghost parent: Item) returns (gate: Var)
      requires Valid() && r in tables.candidates && parent in vars.items
      modifies this`vars, this`clauses
      ensures Valid() && r in vars.gates && vars.gates[r] == gate && ItemsGrow(old(vars).items, vars.items)
      ensures clauses == old(clauses) + GateClauses(old(vars), r, gate)
    {
      hide Sound, SeenOk, EmittedOk, AllSelectable, VariablesOk, VariablesGrow, Justified;
      if r in vars.gates {
        return vars.gates[r];
      }
      gate := Allocate(Gate(r));
      JustifyGate(problem, vars, tables, rules, gate, r);
      Emit(Requires(gate, None, r));
      ShareGate(problem, vars, tables, clauses, rules, done, pendingForbid, forbidSeen, emitted, r, gate);
      vars := vars.(gates := vars.gates[r := gate]);
    }

    /** One alternative of a conditional requirement: a clause with the literals that refute it. */
    method AddConditional(parent: Item, v: Var, r: Requirement, conjunction: Conjunction)
      requires Valid() && done == rules && r in tables.candidates && parent in vars.items && vars.items[parent] == v
      modifies this`vars, this`clauses, this`tables, this`rules, this`done, this`pendingForbid, this`forbidSeen
      ensures Valid() && done == rules && r in tables.candidates && parent in vars.items && vars.items[parent] == v
      ensures rules ==
        old(rules) + ComplementRules(problem, allowMultiple, conjunction) + {NeedsIf(parent, r, conjunction)}
    {
      hide Sound, SeenOk, EmittedOk, AllSelectable, VariablesGrow, Justified, ComplementRules, ConditionOk,
           CoversAll, TablesGrow;
      var literals := ConditionLiterals(conjunction);
      ItemStays(old(vars), vars, parent);
      var d := |tables.disjunctions|;
      AppendDisjunction(problem, vars, tables, clauses, rules, done, pendingForbid, literals);
      SameCandidates(problem, tables, tables.(disjunctions := tables.disjunctions + [literals]), rules, allowMultiple);
      ComplementIsSelectable(problem, rules, allowMultiple, conjunction);
      tables := tables.(disjunctions := tables.disjunctions + [literals]);
      Announce(NeedsIf(parent, r, conjunction));
      SoundItem(problem, vars, tables, clauses, rules, done, pendingForbid, parent);
      JustifyConditional(problem, vars, tables, rules, v, r, d, conjunction);
      Emit(Requires(v, Some(d), r));
      assert ConditionPresent(problem, vars, tables, clauses, v, r, conjunction, d);
      Finish(NeedsIf(parent, r, conjunction));
    }

    /** The literals that refute an alternative: solvables that do not match or, where all match, that the package
        is not selected. */
    method ConditionLiterals(conjunction: Conjunction) returns (literals: seq<Literal>)
      requires Valid() && done == rules
      modifies this`vars, this`rules, this`done, this`pendingForbid, this`forbidSeen
      ensures Valid() && done == rules && VariablesGrow(old(vars), vars)
      ensures rules == old(rules) + ComplementRules(problem, allowMultiple, conjunction)
      ensures ConditionOk(problem, vars, conjunction, literals) && CoversAll(problem, vars, literals, conjunction)
    {
      hide Sound, SeenOk, EmittedOk, AllSelectable, VariablesGrow, ConditionOk, CoversAll, RivalRules, Refutes,
           Covers;
      literals := [];
      SameGrow(vars, tables, clauses);
      NoLiterals(problem, vars);
      for i := 0 to |conjunction|
        invariant Valid() && done == rules && VariablesGrow(old(vars), vars)
        invariant rules == old(rules) + ComplementRules(problem, allowMultiple, conjunction[..i])
        invariant ConditionOk(problem, vars, conjunction[..i], literals) &&
                  CoversAll(problem, vars, literals, conjunction[..i])
      {
        ghost var before := vars;
        var more := ComplementLiterals(conjunction[i]);
        GrowsOn(old(vars), before, vars);
        MoreLiterals(problem, before, vars, conjunction, i, literals, more);
        assert conjunction[..i + 1][..i] == conjunction[..i];
        literals := literals + more;
      }
      assert conjunction[..|conjunction|] == conjunction;
    }

    /** The literals that refute one version set. */
    method ComplementLiterals(x: VersionSet) returns (literals: seq<Literal>)
      requires Valid() && done == rules
      modifies this`vars, this`rules, this`done, this`pendingForbid, this`forbidSeen
      ensures Valid() && done == rules && VariablesGrow(old(vars), vars)
      ensures rules == old(rules) + RivalRules(problem, allowMultiple, problem.nonMatching(x))
      ensures Covers(problem, vars, literals, x) && forall l :: l in literals ==> Refutes(problem, vars, x, l)
    {
      hide Sound, SeenOk, EmittedOk, AllSelectable, VariablesGrow, RivalRules, Refutes, Covers;
      var complement := problem.nonMatching(x);
      if complement != [] {
        var vs := InternEach(complement);
        RegisterRivals(complement, vs);
        literals := Positives(vs);
        ComplementRefutes(problem, vars, tables, clauses, rules, done, pendingForbid, x, vs);
      } else {
        NoRivals(problem, allowMultiple);
        var selected := SelectedOf(problem.packageOf(x));
        literals := [Negative(selected)];
        PackageRefutes(problem, vars, x, selected);
      }
    }

    /** The variable that is true when a package is selected. */
    method SelectedOf(name: Name) returns (v: Var)
      requires Valid()
      modifies this`vars
      ensures Valid() && VariablesGrow(old(vars), vars) && vars.SelectedVar(name) == Some(v)
    {
      hide Sound, SeenOk, EmittedOk, AllSelectable, VariablesOk, VariablesGrow;
      SameGrow(vars, tables, clauses);
      if name in vars.selected {
        return vars.selected[name];
      }
      if name in vars.newSelected {
        return vars.newSelected[name];
      }
      v := Allocate(AtLeastOne(name));
      ghost var before := vars;
      NewPackage(problem, vars, tables, clauses, rules, done, pendingForbid, forbidSeen, emitted, name, v);
      vars := vars.(newSelected := vars.newSelected[name := v]);
      GrowsOn(old(vars), before, vars);
    }

    /** Tracks the rivals that were recorded: the clauses that allow only one of a package. */
    method AddPendingForbid()
      requires Valid()
      modifies this`vars, this`clauses, this`pendingForbid, this`emitted
      ensures Valid() && pendingForbid == []
    {
      hide Sound, SeenOk, EmittedOk, AllSelectable;
      while pendingForbid != []
        invariant Valid()
        decreases |pendingForbid|
      {
        TrackFirst();
      }
    }

    /** Adds a variable to a tracker that was taken from the map. */
    method AddTo(t: Tracker, v: Var, free: Var,
                 ghost before: seq<Implication>) returns (t': Tracker, isNew: bool, cs: seq<Implication>, next: Var)
      requires Trackable(t, v, free, before)
      ensures TrackerAdds(t, t', v, cs, before, free, next) && next >= free && (isNew <==> v !in t.variables)
    {
      hide Exact, Distinct, Apart, IsCeilLog2, Below;
      var tracker := new AtMostOnceTracker.From(t.variables, t.helpers, before);
      isNew, cs, next := tracker.Add(v, free);
      t' := Tracker(tracker.variables, tracker.helpers);
    }

    /** Adds the first pending variable to the tracker of its package. */
    method TrackFirst()
      requires Valid() && pendingForbid != []
      modifies this`vars, this`clauses, this`pendingForbid, this`emitted
      ensures Valid() && pendingForbid == old(pendingForbid)[1..]
    {
      hide Sound, SeenOk, EmittedOk, AllSelectable, WithTracker, TrackerAdds, TrackClauses, Trackable, Forbids,
           VariablesGrow, Helpers;
      var (name, v) := pendingForbid[0];
      var t := vars.TrackerOf(name);
      ghost var before := if name in emitted && name in vars.trackers then emitted[name] else [];
      ReadyToTrack(problem, vars, tables, clauses, rules, done, pendingForbid, emitted, name, v, before);
      var t', isNew, cs, next := AddTo(t, v, |vars.origins|, before);
      Track(problem, vars, tables, clauses, rules, done, pendingForbid, name, v, t', cs, before, next);
      TrackedRest(problem, vars, rules, forbidSeen, emitted, name, v, t', cs, before, next);
      TrackClausesAre(clauses, vars, name, v, cs);
      clauses := clauses + Forbids(cs, name);
      if isNew && name in vars.selected {
        clauses := clauses + [AnyOf(vars.selected[name], v)];
      }
      vars := vars.(origins := vars.origins + Helpers(name, next - |vars.origins|),
                    trackers := vars.trackers[name := t']);
      emitted := emitted[name := before + cs];
      pendingForbid := pendingForbid[1..];
    }

    /** Ties each new package variable to the tracked solvables of its package. */
    method AddPendingSelected()
      requires Valid()
      modifies this`vars, this`clauses
      ensures Valid() && vars.newSelected == map[]
    {
      hide Sound, SeenOk, EmittedOk, AllSelectable;
      while vars.newSelected != map[]
        invariant Valid()
        decreases |vars.newSelected|
      {
        var name :| name in vars.newSelected;
        Establish(name);
      }
    }

    method Establish(name: Name)
      requires Valid() && name in vars.newSelected
      modifies this`vars, this`clauses
      ensures Valid() && vars.newSelected == old(vars.newSelected) - {name}
    {
      hide Sound, SeenOk, EmittedOk, AllSelectable, Justified;
      var members := vars.TrackerOf(name).variables;
      for i := 0 to |members|
        invariant Valid() && vars == old(vars)
        invariant forall j :: 0 <= j < i ==> AnyOf(vars.newSelected[name], members[j]) in clauses
      {
        JustifyMember(problem, vars, tables, clauses, rules, done, pendingForbid, name, members[i]);
        Emit(AnyOf(vars.newSelected[name], members[i]));
      }
      EstablishKeeps(problem, vars, tables, clauses, rules, done, pendingForbid, forbidSeen, emitted, name);
      vars := vars.(selected := vars.selected[name := vars.newSelected[name]],
                    newSelected := vars.newSelected - {name});
    }

    /** The end of a round of handlers: the clauses that were put off are added, and the encoding is complete. */
    method FinishRound()
      requires Valid() && done == rules
      modifies this`vars, this`clauses, this`pendingForbid, this`emitted
      ensures Valid() && Compiled(problem, vars, tables, clauses, rules) &&
              AllSelectable(problem, tables, rules, allowMultiple)
      ensures pendingForbid == [] && EmittedOk(vars, emitted)
    {
      hide Sound, SeenOk, EmittedOk, AllSelectable, Compiled;
      AddPendingForbid();
      AddPendingSelected();
      SoundIsCompiled(problem, vars, tables, clauses, rules);
    }

    /** A new round forgets which variables were recorded in the last one. */
    method BeginRound()
      requires Valid()
      modifies this`forbidSeen
      ensures Valid() && forbidSeen == {}
    {
      hide Sound, EmittedOk, AllSelectable;
      forbidSeen := {};
    }
  }

  /** Package 0 offers solvable 0, package 2 solvables 1 and 2, of which version set 2 matches the latter, and
      package 3 solvable 3. The root requires solvable 0, which requires solvable 3 if version set 2 is matched;
      solvable 1 is excluded. */
  function OneWayProblem(): (p: Problem)
    ensures p.Valid()
  {
    Problem((r: Requirement) => [r],
            (v: VersionSet) => if v == 0 then [0] else if v == 2 then [2] else if v == 3 then [3] else [],
            (v: VersionSet) => if v == 2 then [1] else [],
            (c: SolvableId) => if c == 0 then 0 else if c == 3 then 3 else 2,
            (v: VersionSet) => if v == 0 then 0 else if v == 3 then 3 else 2)
  }

  ghost function OneWayChoice(): Choice { iset{Root, Solvable(0)} }

  /** The clauses of a condition ask for more than the condition: once the alternative was encoded, the selection
      of the root and solvable 0 alone obeys every unconditional rule and does not meet the condition, and still no
      model of the clauses agrees with it. */
  method ConditionIsReadOneWay() returns (vs: Variables, tb: Tables, clauses: seq<Kind>, ghost rules: set<Rule>)
    ensures Compiled(OneWayProblem(), vs, tb, clauses, rules) && NeedsIf(Solvable(0), 3, [2]) in rules
    ensures Root in OneWayChoice() && OnePerPackage(OneWayChoice(), rules)
    ensures forall rule :: rule in rules && !rule.NeedsIf? ==> Obeys(OneWayProblem(), OneWayChoice(), rules, rule)
    ensures forall parent, r, c :: NeedsIf(parent, r, c) in rules ==> !AllHold(c, Met(OneWayProblem(), OneWayChoice()))
    ensures forall a: Assignment :: IsModel(a, tb, clauses) ==> !Agrees(a, vs, OneWayChoice())
  {
    hide Encoder.Valid, Compiled, RequirementRules, IsModel, Agrees, OneWayProblem, Obeys, OnePerPackage,
         AllHold;
    var encoder := new Encoder(OneWayProblem());
    encoder.OnRequirement(Root, 0, None);
    encoder.OnRequirement(Solvable(0), 3, Some([[2]]));
    var _ := encoder.AddExclusion(Solvable(1));
    ghost var multiple := encoder.allowMultiple;
    encoder.FinishRound();
    vs, tb, clauses, rules := encoder.vars, encoder.tables, encoder.clauses, encoder.rules;
    OneWayRules(rules);
    BrokenRuleHasNoModel(OneWayProblem(), vs, tb, clauses, rules, OneWayChoice(), NeedsIf(Solvable(0), 3, [2]));
  }

  lemma OneWayRules(rules: set<Rule>)
    requires rules == RequirementRules(OneWayProblem(), {}, Root, 0,
                                       None) + RequirementRules(OneWayProblem(), {}, Solvable(0), 3, Some([[2]]))
                      + {Excludes(Solvable(1))}
    ensures NeedsIf(Solvable(0), 3, [2]) in rules &&
            !Obeys(OneWayProblem(), OneWayChoice(), rules, NeedsIf(Solvable(0), 3, [2]))
    ensures OnePerPackage(OneWayChoice(), rules)
    ensures forall rule :: rule in rules && !rule.NeedsIf? ==> Obeys(OneWayProblem(), OneWayChoice(), rules, rule)
    ensures forall parent, r, c :: NeedsIf(parent, r, c) in rules ==> !AllHold(c, Met(OneWayProblem(), OneWayChoice()))
  {
    hide Obeys, OnePerPackage, AllHold;
    OneWayRuleSet();
    OneWayObeys(rules);
  }

  lemma OneWayRuleSet()
    ensures RequirementRules(OneWayProblem(), {}, Root, 0, None) == {Rivals(0, 0), Needs(Root, 0)}
    ensures RequirementRules(OneWayProblem(), {}, Solvable(0), 3,
                             Some([[2]])) == {Rivals(3, 3), Rivals(2, 1), NeedsIf(Solvable(0), 3, [2])}
  {
    hide OneWayProblem, CandidateRules, ConditionalRules, ComplementRules, RivalRules;
    var p := OneWayProblem();
    OneWayCandidates();
    OneCandidate(p, 0);
    OneCandidate(p, 3);
    NoAlternatives(p, {}, Solvable(0), 3);
    NextAlternative(p, {}, Solvable(0), 3, [[2]], 0);
    OneComplement(p, 2, 1);
    assert [[2]][..1] == [[2]] && [[2]][..0] == [];
  }

  lemma OneWayCandidates()
    ensures var p := OneWayProblem();
      && p.Candidates(0) == [[0]] && p.Candidates(3) == [[3]] && p.nonMatching(2) == [1]
      && p.nameOf(0) == 0 && p.nameOf(3) == 3 && p.nameOf(1) == 2
  {
  }

  lemma OneCandidate(p: Problem, c: SolvableId)
    ensures CandidateRules(p, {}, [[c]]) == {Rivals(p.nameOf(c), c)}
  {
    OneRival(p, {}, c);
    assert [[c]][..0] == [];
  }

  lemma OneComplement(p: Problem, x: VersionSet, c: SolvableId)
    requires p.nonMatching(x) == [c]
    ensures ComplementRules(p, {}, [x]) == {Rivals(p.nameOf(c), c)}
  {
    OneRival(p, {}, c);
    assert [x][..0] == [];
  }

  lemma OneWayFacts()
    ensures var p, s := OneWayProblem(), OneWayChoice();
      SomeCandidate(p, 0, s) && !SomeCandidate(p, 3, s) && !SomeNonMatching(p, 2, s) && !SomeMatching(p, 2, s) &&
      p.nonMatching(2) != []
  {
    var p, s := OneWayProblem(), OneWayChoice();
    assert 0 in p.versionSets(0) && p.Offers(0, 0);
  }

  lemma OneWayObeys(rules: set<Rule>)
    requires rules == {Rivals(0, 0), Needs(Root, 0), Rivals(3, 3), Rivals(2, 1), NeedsIf(Solvable(0), 3, [2]),
                       Excludes(Solvable(1))}
    ensures !Obeys(OneWayProblem(), OneWayChoice(), rules, NeedsIf(Solvable(0), 3, [2])) &&
            OnePerPackage(OneWayChoice(), rules)
    ensures forall rule :: rule in rules && !rule.NeedsIf? ==> Obeys(OneWayProblem(), OneWayChoice(), rules, rule)
    ensures forall parent, r, c :: NeedsIf(parent, r, c) in rules ==> !AllHold(c, Met(OneWayProblem(), OneWayChoice()))
  {
    hide OneWayProblem, SomeCandidate, SomeNonMatching, SomeMatching;
    OneWayFacts();
    var p, s := OneWayProblem(), OneWayChoice();
    assert AllUnrefuted(p, s, rules, [2]);
    assert !Met(p, s)([2][0]);
  }

  /** The candidate clause of a gate that is new. */
  ghost function GateClauses(vs: Variables, r: Requirement, gate: Var): seq<Kind> {
    if r in vs.gates then [] else [Requires(gate, None, r)]
  }

  ghost predicate PairsPresent(vs: Variables, clauses: seq<Kind>, v: Var, x: VersionSet, forbidden: seq<SolvableId>) {
    forall s :: s in forbidden ==> Solvable(s) in vs.items && Constrains(v, vs.items[Solvable(s)], x) in clauses
  }

  lemma NoPairs(vs: Variables, clauses: seq<Kind>, v: Var, x: VersionSet)
    ensures PairsPresent(vs, clauses, v, x, [])
  {
  }

  lemma PairAdded(vs: Variables, vs': Variables, clauses: seq<Kind>, v: Var, f: Var, x: VersionSet,
                  forbidden: seq<SolvableId>, i: nat)
    requires i < |forbidden| && PairsPresent(vs, clauses, v, x, forbidden[..i]) && VariablesGrow(vs, vs')
    requires Solvable(forbidden[i]) in vs'.items && f == vs'.items[Solvable(forbidden[i])]
    ensures PairsPresent(vs', clauses + [Constrains(v, f, x)], v, x, forbidden[..i + 1])
  {
    assert forbidden[..i + 1] == forbidden[..i] + [forbidden[i]];
  }

  lemma PairsRestrict(p: Problem, vs: Variables, clauses: seq<Kind>, parent: Item, x: VersionSet)
    requires parent in vs.items && PairsPresent(vs, clauses, vs.items[parent], x, p.nonMatching(x))
    ensures RestrictionPresent(p, vs, clauses, parent, x)
  {
  }

  lemma SharedRestriction(p: Problem, vs: Variables, clauses: seq<Kind>, parent: Item, x: VersionSet)
    requires parent in vs.items && x in vs.violations &&
             ConstrainsParent(vs.items[parent], vs.violations[x], x) in clauses
    ensures RestrictionPresent(p, vs, clauses, parent, x)
  {
  }

  lemma JustifyPair(p: Problem, vs: Variables, tb: Tables, rules: set<Rule>, v: Var, f: Var, x: VersionSet)
    requires vs.IsItem(v) && Restricts(vs.ItemOf(v), x) in rules && IsNonMatching(p, vs, x, f)
    ensures Justified(p, vs, tb, rules, Constrains(v, f, x))
  {
  }

  lemma JustifyParent(p: Problem, vs: Variables, tb: Tables, rules: set<Rule>, v: Var, aux: Var, x: VersionSet)
    requires vs.IsItem(v) && Restricts(vs.ItemOf(v), x) in rules && vs.Is(aux, Violation(x))
    ensures Justified(p, vs, tb, rules, ConstrainsParent(v, aux, x))
  {
  }

  lemma JustifyExcluded(p: Problem, vs: Variables, tb: Tables, rules: set<Rule>, f: Var, aux: Var, x: VersionSet)
    requires vs.Is(aux, Violation(x)) && IsNonMatching(p, vs, x, f)
    ensures Justified(p, vs, tb, rules, ConstrainsExcluded(f, aux, x))
  {
  }

  ghost predicate ExcludedPresent(vs: Variables, clauses: seq<Kind>, aux: Var, x: VersionSet,
                                  forbidden: seq<SolvableId>) {
    forall s :: s in forbidden ==>
      Solvable(s) in vs.items && ConstrainsExcluded(vs.items[Solvable(s)], aux, x) in clauses
  }

  lemma NoneExcluded(vs: Variables, clauses: seq<Kind>, aux: Var, x: VersionSet)
    ensures ExcludedPresent(vs, clauses, aux, x, [])
  {
  }

  lemma ExcludedAdded(vs: Variables, vs': Variables, clauses: seq<Kind>, aux: Var, f: Var, x: VersionSet,
                      forbidden: seq<SolvableId>, i: nat)
    requires i < |forbidden| && ExcludedPresent(vs, clauses, aux, x, forbidden[..i]) && VariablesGrow(vs, vs')
    requires Solvable(forbidden[i]) in vs'.items && f == vs'.items[Solvable(forbidden[i])]
    ensures ExcludedPresent(vs', clauses + [ConstrainsExcluded(f, aux, x)], aux, x, forbidden[..i + 1])
  {
    assert forbidden[..i + 1] == forbidden[..i] + [forbidden[i]];
  }

  lemma GrowthTells(items: map<Item, Var>, vs: Variables, vs': Variables, v: Var, o: Origin)
    requires ItemsGrow(items, vs.items) && VariablesGrow(vs, vs') && vs.Is(v, o)
    ensures ItemsGrow(items, vs'.items) && vs'.Is(v, o)
  {
    OriginsKept(vs, vs');
  }

  lemma SoundViolation(p: Problem, vs: Variables, tb: Tables, clauses: seq<Kind>, rules: set<Rule>, done: set<Rule>,
                       pending: seq<(Name, Var)>, x: VersionSet)
    requires Sound(p, vs, tb, clauses, rules, done, pending) && x in vs.violations
    ensures vs.Is(vs.violations[x], Violation(x))
  {
    hide AllJustified, TablesOk, SharedOk, TrackersOk, SelectedOk, AllPresent, PendingOk;
  }

  lemma ShareViolation(p: Problem, vs: Variables, tb: Tables, clauses: seq<Kind>, rules: set<Rule>, done: set<Rule>,
                       pending: seq<(Name, Var)>,
                       seen: set<Var>, emitted: map<Name, seq<Implication>>, x: VersionSet, aux: Var)
    requires Sound(p, vs, tb, clauses, rules, done, pending) && SeenOk(p, vs, rules, seen) && EmittedOk(vs, emitted)
    requires vs.Is(aux, Violation(x)) && x !in vs.violations && ExcludedPresent(vs, clauses, aux, x, p.nonMatching(x))
    ensures var vs' := vs.(violations := vs.violations[x := aux]);
      Sound(p, vs', tb, clauses, rules, done, pending) && SeenOk(p, vs', rules, seen) && EmittedOk(vs', emitted)
  {
    hide Sound, VariablesGrow, SeenOk;
    RegisterViolation(p, vs, tb, clauses, rules, done, pending, x, aux);
    SeenKept(p, vs, vs.(violations := vs.violations[x := aux]), rules, rules, seen);
  }

  /** The rules for solvables that can be selected: those whose package does not allow several. */
  ghost function RivalRules(p: Problem, multiple: set<Name>, cs: seq<SolvableId>): set<Rule> {
    set c | c in cs && p.nameOf(c) !in multiple :: Rivals(p.nameOf(c), c)
  }

  ghost function CandidateRules(p: Problem, multiple: set<Name>, css: seq<seq<SolvableId>>): set<Rule> {
    if css == [] then {} else CandidateRules(p, multiple, css[..|css| - 1]) + RivalRules(p, multiple, css[|css| - 1])
  }

  ghost function ComplementRules(p: Problem, multiple: set<Name>, conjunction: Conjunction): set<Rule> {
    if conjunction == [] then {} else
      var n := |conjunction| - 1;
      ComplementRules(p, multiple, conjunction[..n]) + RivalRules(p, multiple, p.nonMatching(conjunction[n]))
  }

  ghost function ConditionalRules(p: Problem, multiple: set<Name>, parent: Item, r: Requirement,
                                  dnf: seq<Conjunction>): set<Rule> {
    if dnf == [] then {} else
      var last := dnf[|dnf| - 1];
      ConditionalRules(p, multiple, parent, r,
                       dnf[..|dnf| - 1]) + ComplementRules(p, multiple, last) + {NeedsIf(parent, r, last)}
  }

  /** What a requirement asks for, with the solvables it makes selectable. */
  ghost function RequirementRules(p: Problem, multiple: set<Name>, parent: Item, r: Requirement,
                                  condition: Option<seq<Conjunction>>): set<Rule> {
    CandidateRules(p, multiple, p.Candidates(r)) +
    match condition
    case None => {Needs(parent, r)}
    case Some(dnf) => ConditionalRules(p, multiple, parent, r, dnf)
  }

  /** Of the candidates of a package that is locked, only the locked one is left in any solution. */
  ghost predicate OnlyLockedLeft(p: Problem, rules: set<Rule>, locked: SolvableId, candidates: seq<SolvableId>) {
    forall s: Choice, c: SolvableId :: IsSolution(p, s, rules) && c in candidates && Solvable(c) in s ==> c == locked
  }

  ghost predicate NoneLeft(p: Problem, rules: set<Rule>, excluded: seq<SolvableId>) {
    forall s: Choice, c: SolvableId :: IsSolution(p, s, rules) && c in excluded ==> Solvable(c) !in s
  }

  /** In every solution with the parent, a solvable that matches one of the requirement's version sets is selected. */
  ghost predicate NeedIsAsked(p: Problem, rules: set<Rule>, parent: Item, r: Requirement) {
    forall s: Choice :: IsSolution(p, s, rules) && parent in s ==>
      exists x, c: SolvableId :: x in p.versionSets(r) && c in p.matching(x) && Solvable(c) in s
  }

  /** Of the solvables that a requirement offers, at most one of a package is selected, unless it allows several. */
  ghost predicate OneOfTheOffered(p: Problem, rules: set<Rule>, multiple: set<Name>, r: Requirement) {
    forall s: Choice, c: SolvableId, d: SolvableId ::
      IsSolution(p, s, rules) && BothOffered(p, multiple, r, c, d) && Solvable(c) in s && Solvable(d) in s ==> c == d
  }

  ghost predicate BothOffered(p: Problem, multiple: set<Name>, r: Requirement, c: SolvableId, d: SolvableId) {
    p.Offers(r, c) && p.Offers(r, d) && p.nameOf(c) == p.nameOf(d) && p.nameOf(c) !in multiple
  }

  /** The rule is about the requirement: it asks for it, under an alternative that was given, or names a rival among
      its candidates or among the solvables that do not match the condition. */
  ghost predicate BelongsTo(p: Problem, parent: Item, r: Requirement, condition: Option<seq<Conjunction>>, rule: Rule) {
    match rule
    case Needs(i, q) => condition == None && i == parent && q == r
    case NeedsIf(i, q, c) => condition.Some? && c in condition.value && i == parent && q == r
    case Rivals(n, c) =>
      n == p.nameOf(c) && (p.Offers(r, c) || (condition.Some? && IsComplement(p, condition.value, c)))
    case _ => false
  }

  ghost predicate IsComplement(p: Problem, dnf: seq<Conjunction>, c: SolvableId) {
    exists k, x :: k in dnf && x in k && c in p.nonMatching(x)
  }

  lemma LocksMean(p: Problem, rules: set<Rule>, locked: SolvableId, candidates: seq<SolvableId>)
    requires LockRules(locked, candidates) <= rules
    ensures OnlyLockedLeft(p, rules, locked, candidates)
  {
    forall s: Choice, c: SolvableId | IsSolution(p, s, rules) && c in candidates && c != locked
      ensures Solvable(c) !in s
    {
      assert Locks(locked, c) in LockRules(locked, candidates);
      assert Obeys(p, s, rules, Locks(locked, c));
    }
  }

  lemma ExclusionsMean(p: Problem, rules: set<Rule>, excluded: seq<SolvableId>)
    requires ExclusionRules(excluded) <= rules
    ensures NoneLeft(p, rules, excluded)
  {
    forall s: Choice, c: SolvableId | IsSolution(p, s, rules) && c in excluded ensures Solvable(c) !in s {
      assert Excludes(Solvable(c)) in ExclusionRules(excluded);
      assert Obeys(p, s, rules, Excludes(Solvable(c)));
    }
  }

  lemma RestrictionMeans(p: Problem, rules: set<Rule>, parent: Item, x: VersionSet)
    requires Restricts(parent, x) in rules
    ensures forall s: Choice, c: SolvableId ::
              IsSolution(p, s, rules) && parent in s && c in p.nonMatching(x) ==> Solvable(c) !in s
  {
    forall s: Choice, c: SolvableId | IsSolution(p, s, rules) && parent in s && c in p.nonMatching(x)
      ensures Solvable(c) !in s
    {
      assert Obeys(p, s, rules, Restricts(parent, x));
    }
  }

  /** What the rules of a requirement mean, and that there are no others. */
  lemma RequirementMeans(p: Problem, rules: set<Rule>, multiple: set<Name>, parent: Item, r: Requirement,
                         condition: Option<seq<Conjunction>>)
    requires RequirementRules(p, multiple, parent, r, condition) <= rules
    ensures condition == None ==> NeedIsAsked(p, rules, parent, r)
    ensures condition.Some? ==> forall c :: c in condition.value ==> NeedsIf(parent, r, c) in rules
    ensures OneOfTheOffered(p, rules, multiple, r)
    ensures forall rule :: rule in RequirementRules(p, multiple, parent, r, condition) ==>
              BelongsTo(p, parent, r, condition, rule)
  {
    hide CandidateRules, ConditionalRules, OneOfTheOffered, BelongsTo, NeedIsAsked;
    if condition == None {
      NeedMeans(p, rules, parent, r);
    } else {
      forall c | c in condition.value ensures NeedsIf(parent, r, c) in rules {
        AlternativeListed(p, multiple, parent, r, condition.value, c);
      }
    }
    RivalsMean(p, rules, multiple, r);
    forall rule | rule in RequirementRules(p, multiple, parent, r, condition)
      ensures BelongsTo(p, parent, r, condition, rule)
    {
      RuleBelongs(p, multiple, parent, r, condition, rule);
    }
  }

  lemma NeedMeans(p: Problem, rules: set<Rule>, parent: Item, r: Requirement)
    requires Needs(parent, r) in rules
    ensures NeedIsAsked(p, rules, parent, r)
  {
    forall s: Choice | IsSolution(p, s, rules) && parent in s
      ensures exists x, c: SolvableId :: x in p.versionSets(r) && c in p.matching(x) && Solvable(c) in s
    {
      assert Obeys(p, s, rules, Needs(parent, r));
      var c: SolvableId :| p.Offers(r, c) && Solvable(c) in s;
      var x :| x in p.versionSets(r) && c in p.matching(x);
    }
  }

  lemma OfferedIsRival(p: Problem, multiple: set<Name>, r: Requirement, c: SolvableId)
    requires p.Offers(r, c) && p.nameOf(c) !in multiple
    ensures Rivals(p.nameOf(c), c) in CandidateRules(p, multiple, p.Candidates(r))
  {
    hide CandidateRules;
    OffersMeaning(p, r, c);
    var i :| 0 <= i < |p.Candidates(r)| && c in p.Candidates(r)[i];
    CandidateIsRival(p, multiple, p.Candidates(r), i, c);
  }

  lemma RivalsMean(p: Problem, rules: set<Rule>, multiple: set<Name>, r: Requirement)
    requires CandidateRules(p, multiple, p.Candidates(r)) <= rules
    ensures OneOfTheOffered(p, rules, multiple, r)
  {
    hide CandidateRules, Obeys;
    forall s: Choice, c: SolvableId, d: SolvableId |
      IsSolution(p, s, rules) && BothOffered(p, multiple, r, c, d) && Solvable(c) in s && Solvable(d) in s
      ensures c == d
    {
      OfferedIsRival(p, multiple, r, c);
      OfferedIsRival(p, multiple, r, d);
    }
  }

  lemma {:induction false} AlternativeListed(p: Problem, multiple: set<Name>, parent: Item, r: Requirement,
                                             dnf: seq<Conjunction>,
                                             c: Conjunction)
    requires c in dnf
    ensures NeedsIf(parent, r, c) in ConditionalRules(p, multiple, parent, r, dnf)
  {
    var n := |dnf| - 1;
    if c != dnf[n] {
      AlternativeListed(p, multiple, parent, r, dnf[..n], c);
    }
  }

  lemma RuleBelongs(p: Problem, multiple: set<Name>, parent: Item, r: Requirement,
                    condition: Option<seq<Conjunction>>, rule: Rule)
    requires rule in RequirementRules(p, multiple, parent, r, condition)
    ensures BelongsTo(p, parent, r, condition, rule)
  {
    hide CandidateRules, ConditionalRules, IsComplement;
    if rule in CandidateRules(p, multiple, p.Candidates(r)) {
      var i := CandidateRuleIs(p, multiple, p.Candidates(r), rule);
      OffersMeaning(p, r, rule.solvable);
    } else if condition.Some? {
      ConditionalRuleIs(p, multiple, parent, r, condition.value, rule);
    }
  }

  lemma {:induction false} CandidateRuleIs(p: Problem, multiple: set<Name>, css: seq<seq<SolvableId>>,
                                           rule: Rule) returns (i: nat)
    requires rule in CandidateRules(p, multiple, css)
    ensures i < |css| && rule.Rivals? && rule.name == p.nameOf(rule.solvable) && rule.solvable in css[i]
  {
    var n := |css| - 1;
    if rule in CandidateRules(p, multiple, css[..n]) {
      i := CandidateRuleIs(p, multiple, css[..n], rule);
    } else {
      i := n;
    }
  }

  lemma {:induction false} ConditionalRuleIs(p: Problem, multiple: set<Name>, parent: Item, r: Requirement,
                                             dnf: seq<Conjunction>, rule: Rule)
    requires rule in ConditionalRules(p, multiple, parent, r, dnf)
    ensures || (rule.NeedsIf? && rule.parent == parent && rule.requirement == r && rule.conjunction in dnf)
            || (rule.Rivals? && rule.name == p.nameOf(rule.solvable) && IsComplement(p, dnf, rule.solvable))
  {
    hide ComplementRules;
    var n := |dnf| - 1;
    if rule in ConditionalRules(p, multiple, parent, r, dnf[..n]) {
      ConditionalRuleIs(p, multiple, parent, r, dnf[..n], rule);
      if rule.Rivals? {
        var k, x :| k in dnf[..n] && x in k && rule.solvable in p.nonMatching(x);
        assert k in dnf;
      }
    } else if rule in ComplementRules(p, multiple, dnf[n]) {
      var i := ComplementRuleIs(p, multiple, dnf[n], rule);
      assert dnf[n] in dnf && dnf[n][i] in dnf[n];
    }
  }

  lemma {:induction false} ComplementRuleIs(p: Problem, multiple: set<Name>, c: Conjunction,
                                            rule: Rule) returns (i: nat)
    requires rule in ComplementRules(p, multiple, c)
    ensures i < |c| && rule.Rivals? && rule.name == p.nameOf(rule.solvable) && rule.solvable in p.nonMatching(c[i])
  {
    var n := |c| - 1;
    if rule in ComplementRules(p, multiple, c[..n]) {
      i := ComplementRuleIs(p, multiple, c[..n], rule);
    } else {
      i := n;
    }
  }

  lemma MoreSelectable(p: Problem, tb: Tables, rules: set<Rule>, rules': set<Rule>, multiple: set<Name>,
                       multiple': set<Name>)
    requires AllSelectable(p, tb, rules, multiple) && rules <= rules' && multiple <= multiple'
    requires forall rule :: rule in rules' && rule !in rules && rule.NeedsIf? ==>
               ComplementSelectable(p, rules, multiple, rule.conjunction)
    ensures AllSelectable(p, tb, rules', multiple')
  {
    forall rule | rule in rules' && rule.NeedsIf? ensures ComplementSelectable(p, rules', multiple', rule.conjunction) {
      assert ComplementSelectable(p, rules, multiple, rule.conjunction);
      forall x, c: SolvableId | x in rule.conjunction &&
      c in p.nonMatching(x) ensures Selectable(p, rules', multiple', c) {
        assert Selectable(p, rules, multiple, c);
      }
    }
  }

  lemma SameCandidates(p: Problem, tb: Tables, tb': Tables, rules: set<Rule>, multiple: set<Name>)
    requires AllSelectable(p, tb, rules, multiple) && tb'.candidates == tb.candidates
    ensures AllSelectable(p, tb', rules, multiple)
  {
    hide ComplementSelectable;
  }

  lemma StoreSelectable(p: Problem, tb: Tables, rules: set<Rule>, multiple: set<Name>, r: Requirement,
                        variables: seq<seq<Var>>)
    requires AllSelectable(p, tb, rules, multiple) && CandidateRules(p, multiple, p.Candidates(r)) <= rules
    ensures AllSelectable(p, tb.(candidates := tb.candidates[r := variables]), rules, multiple)
  {
    hide ComplementSelectable, CandidateRules;
    forall c: SolvableId | p.Offers(r, c) ensures Selectable(p, rules, multiple, c) {
      OffersMeaning(p, r, c);
      var i :| 0 <= i < |p.Candidates(r)| && c in p.Candidates(r)[i];
      if p.nameOf(c) !in multiple {
        CandidateIsRival(p, multiple, p.Candidates(r), i, c);
      }
    }
  }

  lemma {:induction false} CandidateIsRival(p: Problem, multiple: set<Name>, css: seq<seq<SolvableId>>, i: nat,
                                            c: SolvableId)
    requires i < |css| && c in css[i] && p.nameOf(c) !in multiple
    ensures Rivals(p.nameOf(c), c) in CandidateRules(p, multiple, css)
  {
    if i < |css| - 1 {
      CandidateIsRival(p, multiple, css[..|css| - 1], i, c);
    }
  }

  lemma ComplementIsSelectable(p: Problem, rules: set<Rule>, multiple: set<Name>, conjunction: Conjunction)
    requires ComplementRules(p, multiple, conjunction) <= rules
    ensures ComplementSelectable(p, rules, multiple, conjunction)
  {
    hide ComplementRules;
    forall x, c: SolvableId | x in conjunction && c in p.nonMatching(x) ensures Selectable(p, rules, multiple, c) {
      var i :| 0 <= i < |conjunction| && conjunction[i] == x;
      if p.nameOf(c) !in multiple {
        ComplementIsRival(p, multiple, conjunction, i, c);
      }
    }
  }

  lemma {:induction false} ComplementIsRival(p: Problem, multiple: set<Name>, conjunction: Conjunction, i: nat,
                                             c: SolvableId)
    requires i < |conjunction| && c in p.nonMatching(conjunction[i]) && p.nameOf(c) !in multiple
    ensures Rivals(p.nameOf(c), c) in ComplementRules(p, multiple, conjunction)
  {
    if i < |conjunction| - 1 {
      ComplementIsRival(p, multiple, conjunction[..|conjunction| - 1], i, c);
    }
  }

  lemma NoAlternatives(p: Problem, multiple: set<Name>, parent: Item, r: Requirement)
    ensures ConditionalRules(p, multiple, parent, r, []) == {}
  {
  }

  lemma NextAlternative(p: Problem, multiple: set<Name>, parent: Item, r: Requirement, dnf: seq<Conjunction>, i: nat)
    requires i < |dnf|
    ensures ConditionalRules(p, multiple, parent, r, dnf[..i + 1]) ==
      ConditionalRules(p, multiple, parent, r,
                       dnf[..i]) + ComplementRules(p, multiple, dnf[i]) + {NeedsIf(parent, r, dnf[i])}
  {
    assert dnf[..i + 1][..i] == dnf[..i];
  }

  function CountAll(vss: seq<seq<Var>>): nat {
    if vss == [] then 0 else |vss[0]| + CountAll(vss[1..])
  }

  function Helpers(name: Name, n: nat): seq<Origin> {
    seq(n, i => Helper(name))
  }

  lemma OneRival(p: Problem, multiple: set<Name>, c: SolvableId)
    ensures RivalRules(p, multiple, [c]) == if p.nameOf(c) in multiple then {} else {Rivals(p.nameOf(c), c)}
  {
  }

  lemma NoRivals(p: Problem, multiple: set<Name>)
    ensures RivalRules(p, multiple, []) == {}
  {
  }

  lemma SeenRival(p: Problem, vs: Variables, rules: set<Rule>, seen: set<Var>, v: Var, c: SolvableId)
    requires SeenOk(p, vs, rules, seen) && v in seen && vs.ItemOf(v) == Solvable(c)
    ensures Rivals(p.nameOf(c), c) in rules
  {
  }

  lemma SeenMore(p: Problem, vs: Variables, rules: set<Rule>, seen: set<Var>, v: Var, c: SolvableId)
    requires SeenOk(p, vs, rules, seen) && vs.IsItem(v) && vs.ItemOf(v) == Solvable(c)
    ensures SeenOk(p, vs, rules + {Rivals(p.nameOf(c), c)}, seen + {v})
  {
  }

  lemma GrowsOn(a: Variables, b: Variables, c: Variables)
    requires VariablesGrow(a, b) && VariablesGrow(b, c)
    ensures VariablesGrow(a, c) && forall i :: i in b.items ==> i in c.items && c.items[i] == b.items[i]
  {
  }

  lemma NoneInterned(vs: Variables)
    ensures AllInterned(vs, []) && VarsOf(vs, []) == []
  {
  }

  lemma InternedMore(vs: Variables, vs': Variables, css: seq<seq<SolvableId>>, i: nat, vss: seq<seq<Var>>,
                     row: seq<Var>)
    requires i < |css| && VariablesGrow(vs, vs') && AllInterned(vs, css[..i]) && vss == VarsOf(vs, css[..i])
    requires |row| == |css[i]| &&
             forall j :: 0 <= j < |row| ==> Solvable(css[i][j]) in vs'.items && row[j] == vs'.items[Solvable(css[i][j])]
    ensures AllInterned(vs', css[..i + 1]) && vss + [row] == VarsOf(vs', css[..i + 1])
  {
    var more := css[..i + 1];
    forall k, j | 0 <= k < |more| && 0 <= j < |more[k]| ensures Solvable(more[k][j]) in vs'.items &&
    (vss + [row])[k][j] == vs'.items[Solvable(more[k][j])] {
      if k < i {
        assert more[k] == css[..i][k] && Solvable(css[..i][k][j]) in vs.items;
      }
    }
    forall k | 0 <= k < |more| ensures (vss + [row])[k] == VarsOf(vs', more)[k] {
      assert more[k] == if k < i then css[..i][k] else css[i];
    }
  }

  lemma InternedRow(vs: Variables, css: seq<seq<SolvableId>>, i: nat)
    requires i < |css| && AllInterned(vs, css)
    ensures var row := VarsOf(vs, css)[i];
      |row| == |css[i]| && forall j :: 0 <= j < |row| ==>
                             Solvable(css[i][j]) in vs.items && row[j] == vs.items[Solvable(css[i][j])]
  {
  }

  /** Storing the candidates of a requirement, again or for the first time. */
  lemma StoreKeeps(p: Problem, vs: Variables, tb: Tables, clauses: seq<Kind>, rules: set<Rule>, done: set<Rule>,
                   pending: seq<(Name, Var)>, r: Requirement)
    requires Sound(p, vs, tb, clauses, rules, done, pending) && AllInterned(vs, p.Candidates(r))
    ensures Sound(p, vs, tb.(candidates := tb.candidates[r := VarsOf(vs, p.Candidates(r))]), clauses, rules, done,
                  pending)
  {
    hide VariablesOk, VariablesGrow, AllJustified, SharedOk, TrackersOk, AllPresent, PendingOk, SelectedOk,
         CandidatesOk, VarsOf;
    var tb' := tb.(candidates := tb.candidates[r := VarsOf(vs, p.Candidates(r))]);
    SameGrow(vs, tb, clauses);
    assert r in tb.candidates ==> StoredOk(p, vs, tb, r);
    forall q | q in tb'.candidates ensures CandidatesOk(p, vs, tb', q) && StoredOk(p, vs, tb', q) {
      assert q != r ==> StoredOk(p, vs, tb, q);
      StoredAreCandidates(p, vs, tb', q);
    }
    Grow(p, vs, vs, tb, tb', clauses, [], rules, rules, done, pending);
  }

  lemma AppendDisjunction(p: Problem, vs: Variables, tb: Tables, clauses: seq<Kind>, rules: set<Rule>,
                          done: set<Rule>, pending: seq<(Name, Var)>, literals: seq<Literal>)
    requires Sound(p, vs, tb, clauses, rules, done, pending)
    ensures Sound(p, vs, tb.(disjunctions := tb.disjunctions + [literals]), clauses, rules, done, pending)
  {
    hide VariablesOk, VariablesGrow, AllJustified, SharedOk, TrackersOk, AllPresent, PendingOk, SelectedOk,
         TablesOk;
    var tb' := tb.(disjunctions := tb.disjunctions + [literals]);
    SameGrow(vs, tb, clauses);
    TablesKept(p, vs, vs, tb, tb');
    Grow(p, vs, vs, tb, tb', clauses, [], rules, rules, done, pending);
  }

  lemma SoundGate(p: Problem, vs: Variables, tb: Tables, clauses: seq<Kind>, rules: set<Rule>, done: set<Rule>,
                  pending: seq<(Name, Var)>, r: Requirement)
    requires Sound(p, vs, tb, clauses, rules, done, pending) && r in vs.gates
    ensures vs.Is(vs.gates[r], Gate(r))
  {
    hide AllJustified, TablesOk, SharedOk, TrackersOk, SelectedOk, AllPresent, PendingOk;
  }

  lemma JustifyImplication(p: Problem, vs: Variables, tb: Tables, rules: set<Rule>, gate: Var, v: Var, r: Requirement)
    requires vs.Is(gate, Gate(r)) && vs.IsItem(v) && Needs(vs.ItemOf(v), r) in rules
    ensures Justified(p, vs, tb, rules, AnyOf(gate, v))
  {
  }

  lemma JustifyRequires(p: Problem, vs: Variables, tb: Tables, rules: set<Rule>, v: Var, r: Requirement)
    requires r in tb.candidates && vs.IsItem(v) && Needs(vs.ItemOf(v), r) in rules
    ensures Justified(p, vs, tb, rules, Requires(v, None, r))
  {
  }

  lemma JustifyGate(p: Problem, vs: Variables, tb: Tables, rules: set<Rule>, gate: Var, r: Requirement)
    requires r in tb.candidates && vs.Is(gate, Gate(r))
    ensures Justified(p, vs, tb, rules, Requires(gate, None, r))
  {
  }

  lemma JustifyConditional(p: Problem, vs: Variables, tb: Tables, rules: set<Rule>, v: Var, r: Requirement,
                           d: DisjunctionId, conjunction: Conjunction)
    requires r in tb.candidates && vs.IsItem(v) && NeedsIf(vs.ItemOf(v), r, conjunction) in rules
    requires d < |tb.disjunctions| && CoversAll(p, vs, tb.disjunctions[d], conjunction) &&
             ConditionOk(p, vs, conjunction, tb.disjunctions[d])
    ensures Justified(p, vs, tb, rules, Requires(v, Some(d), r))
  {
    hide CoversAll, ConditionOk;
  }

  lemma ShareGate(p: Problem, vs: Variables, tb: Tables, clauses: seq<Kind>, rules: set<Rule>, done: set<Rule>,
                  pending: seq<(Name, Var)>,
                  seen: set<Var>, emitted: map<Name, seq<Implication>>, r: Requirement, gate: Var)
    requires Sound(p, vs, tb, clauses, rules, done, pending) && SeenOk(p, vs, rules, seen) && EmittedOk(vs, emitted)
    requires vs.Is(gate, Gate(r)) && r !in vs.gates && r in tb.candidates && Requires(gate, None, r) in clauses
    ensures var vs' := vs.(gates := vs.gates[r := gate]);
      Sound(p, vs', tb, clauses, rules, done, pending) && SeenOk(p, vs', rules, seen) && EmittedOk(vs', emitted)
  {
    hide Sound, VariablesGrow, SeenOk;
    RegisterGate(p, vs, tb, clauses, rules, done, pending, r, gate);
    SeenKept(p, vs, vs.(gates := vs.gates[r := gate]), rules, rules, seen);
  }

  lemma NewPackage(p: Problem, vs: Variables, tb: Tables, clauses: seq<Kind>, rules: set<Rule>, done: set<Rule>,
                   pending: seq<(Name, Var)>,
                   seen: set<Var>, emitted: map<Name, seq<Implication>>, name: Name, v: Var)
    requires Sound(p, vs, tb, clauses, rules, done, pending) && SeenOk(p, vs, rules, seen) && EmittedOk(vs, emitted)
    requires vs.Is(v, AtLeastOne(name)) && vs.SelectedVar(name) == None
    ensures var vs' := vs.(newSelected := vs.newSelected[name := v]);
      Sound(p, vs', tb, clauses, rules, done, pending) && SeenOk(p, vs', rules, seen) && EmittedOk(vs', emitted) &&
      VariablesGrow(vs, vs')
  {
    hide Sound, VariablesGrow, SeenOk;
    RegisterNewSelected(p, vs, tb, clauses, rules, done, pending, name, v);
    SeenKept(p, vs, vs.(newSelected := vs.newSelected[name := v]), rules, rules, seen);
  }

  lemma NoLiterals(p: Problem, vs: Variables)
    ensures ConditionOk(p, vs, [], []) && CoversAll(p, vs, [], [])
  {
  }

  lemma MoreLiterals(p: Problem, vs: Variables, vs': Variables, conjunction: Conjunction, i: nat,
                     literals: seq<Literal>, more: seq<Literal>)
    requires i < |conjunction| && VariablesGrow(vs, vs')
    requires ConditionOk(p, vs, conjunction[..i], literals) && CoversAll(p, vs, literals, conjunction[..i])
    requires Covers(p, vs', more, conjunction[i]) && forall l :: l in more ==> Refutes(p, vs', conjunction[i], l)
    ensures ConditionOk(p, vs', conjunction[..i + 1], literals + more) &&
            CoversAll(p, vs', literals + more, conjunction[..i + 1])
  {
    hide VariablesGrow, Refutes, Covers;
    ConditionKept(p, vs, vs', conjunction[..i], literals);
    CoversKept(p, vs, vs', literals, conjunction[..i]);
    assert conjunction[..i + 1] == conjunction[..i] + [conjunction[i]];
    forall l | l in literals + more ensures exists x :: x in conjunction[..i + 1] && Refutes(p, vs', x, l) {
      if l in more {
        assert conjunction[i] in conjunction[..i + 1];
      } else {
        var x :| x in conjunction[..i] && Refutes(p, vs', x, l);
        assert x in conjunction[..i + 1];
      }
    }
    forall x | x in conjunction[..i + 1] ensures Covers(p, vs', literals + more, x) {
      if x in conjunction[..i] {
        CoversMore(p, vs', literals, literals + more, x);
      } else {
        CoversMore(p, vs', more, literals + more, x);
      }
    }
  }

  lemma CoversMore(p: Problem, vs: Variables, literals: seq<Literal>, literals': seq<Literal>, x: VersionSet)
    requires Covers(p, vs, literals, x) && forall l :: l in literals ==> l in literals'
    ensures Covers(p, vs, literals', x)
  {
  }

  lemma ComplementRefutes(p: Problem, vs: Variables, tb: Tables, clauses: seq<Kind>, rules: set<Rule>,
                          done: set<Rule>, pending: seq<(Name, Var)>,
                          x: VersionSet, vars: seq<Var>)
    requires Sound(p, vs, tb, clauses, rules, done, pending) && p.nonMatching(x) != []
    requires var cs := p.nonMatching(x);
             |vars| == |cs| && forall j :: 0 <= j < |cs| ==>
                                 Solvable(cs[j]) in vs.items && vars[j] == vs.items[Solvable(cs[j])]
    ensures Covers(p, vs, Positives(vars), x) && forall l :: l in Positives(vars) ==> Refutes(p, vs, x, l)
  {
    hide Sound;
    var cs := p.nonMatching(x);
    forall s: SolvableId | s in cs ensures Solvable(s) in vs.items &&
    Positive(vs.VarOf(Solvable(s))) in Positives(vars) {
      var j :| 0 <= j < |cs| && cs[j] == s;
      assert Positives(vars)[j] == Positive(vs.VarOf(Solvable(s)));
    }
    forall l | l in Positives(vars) ensures Refutes(p, vs, x, l) {
      var j :| 0 <= j < |vars| && l == Positive(vars[j]);
      SoundItem(p, vs, tb, clauses, rules, done, pending, Solvable(cs[j]));
    }
  }

  lemma PackageRefutes(p: Problem, vs: Variables, x: VersionSet, v: Var)
    requires p.nonMatching(x) == [] && vs.SelectedVar(p.packageOf(x)) == Some(v)
    ensures Covers(p, vs, [Negative(v)], x) && forall l :: l in [Negative(v)] ==> Refutes(p, vs, x, l)
  {
  }

  /** The tracker is exact and `v` is none of its helpers; everything is numbered below `free`. */
  ghost predicate Trackable(t: Tracker, v: Var, free: Var, before: seq<Implication>) {
    && Distinct(t.variables) && Distinct(t.helpers) && Apart(t.variables, t.helpers)
    && IsCeilLog2(|t.variables|, |t.helpers|) && Exact(t.variables, t.helpers, before)
    && Below(t.variables, free) && Below(t.helpers, free) && v < free && v !in t.helpers
  }

  lemma ReadyToTrack(p: Problem, vs: Variables, tb: Tables, clauses: seq<Kind>, rules: set<Rule>, done: set<Rule>,
                     pending: seq<(Name, Var)>,
                     emitted: map<Name, seq<Implication>>, name: Name, v: Var, before: seq<Implication>)
    requires Sound(p, vs, tb, clauses, rules, done, pending) && EmittedOk(vs, emitted) && pending != [] &&
             pending[0] == (name, v)
    requires before == if name in emitted && name in vs.trackers then emitted[name] else []
    ensures Trackable(vs.TrackerOf(name), v, |vs.origins|, before)
  {
    hide AllJustified, TablesOk, SharedOk, SelectedOk, AllPresent, VariablesOk, IsForced, TrackerOk, Distinct,
         Apart, IsCeilLog2, Exact, Below, TrackersOk;
    EmptyTrackerOk(vs, rules, clauses, name);
    assert (name, v) in pending;
    EmptyExact();
    TrackerBelow(vs, rules, clauses, name, vs.TrackerOf(name), v);
  }

  lemma TrackerBelow(vs: Variables, rules: set<Rule>, clauses: seq<Kind>, name: Name, t: Tracker, v: Var)
    requires TrackerOk(vs, rules, clauses, name, t) && vs.IsItem(v)
    ensures Distinct(t.variables) && Distinct(t.helpers) && Apart(t.variables, t.helpers) &&
            IsCeilLog2(|t.variables|, |t.helpers|)
    ensures Below(t.variables, |vs.origins|) && Below(t.helpers, |vs.origins|) && v !in t.helpers
  {
    hide IsForced, Distinct, Apart, IsCeilLog2;
    forall i | 0 <= i < |t.variables| ensures t.variables[i] < |vs.origins| {
      assert t.variables[i] in t.variables;
    }
    forall i | 0 <= i < |t.helpers| ensures t.helpers[i] < |vs.origins| {
      assert t.helpers[i] in t.helpers;
    }
  }

  lemma EmptyExact()
    ensures Exact([], [], []) && IsCeilLog2(0, 0)
  {
  }

  lemma TrackedRest(p: Problem, vs: Variables, rules: set<Rule>, seen: set<Var>, emitted: map<Name, seq<Implication>>,
                    name: Name, v: Var,
                    t': Tracker, cs: seq<Implication>, before: seq<Implication>, next: Var)
    requires SeenOk(p, vs, rules, seen) && EmittedOk(vs, emitted) && next >= |vs.origins|
    requires TrackerAdds(vs.TrackerOf(name), t', v, cs, before, |vs.origins|, next)
    requires VariablesGrow(vs, WithTracker(vs, name, t', next - |vs.origins|))
    ensures var vs' := WithTracker(vs, name, t', next - |vs.origins|);
            SeenOk(p, vs', rules, seen) && EmittedOk(vs', emitted[name := before + cs])
    ensures WithTracker(vs, name, t', next - |vs.origins|) ==
      vs.(origins := vs.origins + Helpers(name, next - |vs.origins|), trackers := vs.trackers[name := t'])
  {
    hide VariablesGrow, SeenOk, Exact, Distinct, Apart, IsCeilLog2;
    SeenKept(p, vs, WithTracker(vs, name, t', next - |vs.origins|), rules, rules, seen);
    assert Helpers(name, next - |vs.origins|) == Repeat(Helper(name), next - |vs.origins|);
  }

  lemma TrackClausesAre(clauses: seq<Kind>, vs: Variables, name: Name, v: Var, cs: seq<Implication>)
    ensures clauses + TrackClauses(vs, name, v, cs) ==
      if v !in vs.TrackerOf(name).variables &&
         name in vs.selected then clauses + Forbids(cs, name) + [AnyOf(vs.selected[name], v)]
      else clauses + Forbids(cs, name)
  {
  }

  lemma JustifyMember(p: Problem, vs: Variables, tb: Tables, clauses: seq<Kind>, rules: set<Rule>, done: set<Rule>,
                      pending: seq<(Name, Var)>, name: Name, m: Var)
    requires Sound(p, vs, tb, clauses, rules, done, pending) && name in vs.newSelected &&
             m in vs.TrackerOf(name).variables
    ensures Justified(p, vs, tb, rules, AnyOf(vs.newSelected[name], m))
  {
    hide AllJustified, TablesOk, SharedOk, TrackersOk, SelectedOk, AllPresent, PendingOk, ItemsOk, GatesOk,
         ViolationsOk;
  }

  lemma EstablishKeeps(p: Problem, vs: Variables, tb: Tables, clauses: seq<Kind>, rules: set<Rule>, done: set<Rule>,
                       pending: seq<(Name, Var)>,
                       seen: set<Var>, emitted: map<Name, seq<Implication>>, name: Name)
    requires Sound(p, vs, tb, clauses, rules, done, pending) && SeenOk(p, vs, rules, seen) &&
             EmittedOk(vs, emitted) && name in vs.newSelected
    requires var members := vs.TrackerOf(name).variables;
             forall j :: 0 <= j < |members| ==> AnyOf(vs.newSelected[name], members[j]) in clauses
    ensures var vs' := Established(vs, name);
      Sound(p, vs', tb, clauses, rules, done, pending) && SeenOk(p, vs', rules, seen) && EmittedOk(vs', emitted)
  {
    hide Sound, VariablesGrow, SeenOk;
    EstablishSelected(p, vs, tb, clauses, rules, done, pending, name);
    SeenKept(p, vs, Established(vs, name), rules, rules, seen);
  }

  lemma SoundIsCompiled(p: Problem, vs: Variables, tb: Tables, clauses: seq<Kind>, rules: set<Rule>)
    requires Sound(p, vs, tb, clauses, rules, rules, []) && vs.newSelected == map[]
    ensures Compiled(p, vs, tb, clauses, rules)
  {
    hide VariablesOk, TablesOk, AllJustified, SharedOk, TrackersOk, SelectedOk, AllPresent, PendingOk;
  }

  ghost function LockRules(locked: SolvableId, candidates: seq<SolvableId>): set<Rule> {
    set c | c in candidates && c != locked :: Locks(locked, c)
  }

  ghost function ExclusionRules(excluded: seq<SolvableId>): set<Rule> {
    set c | c in excluded :: Excludes(Solvable(c))
  }

  lemma ItemStays(vs: Variables, vs': Variables, i: Item)
    requires VariablesGrow(vs, vs') && i in vs.items
    ensures i in vs'.items && vs'.items[i] == vs.items[i]
  {
  }

  lemma SoundItem(p: Problem, vs: Variables, tb: Tables, clauses: seq<Kind>, rules: set<Rule>, done: set<Rule>,
                  pending: seq<(Name, Var)>, i: Item)
    requires Sound(p, vs, tb, clauses, rules, done, pending) && i in vs.items
    ensures vs.IsItem(vs.items[i]) && vs.ItemOf(vs.items[i]) == i
  {
    hide AllJustified, TablesOk, SharedOk, TrackersOk, SelectedOk, AllPresent, PendingOk, VariablesOk;
    ItemVariable(vs, i);
  }

  lemma SeenKept(p: Problem, vs: Variables, vs': Variables, rules: set<Rule>, rules': set<Rule>, seen: set<Var>)
    requires VariablesGrow(vs, vs') && rules <= rules' && SeenOk(p, vs, rules, seen)
    ensures SeenOk(p, vs', rules', seen)
  {
    hide VariablesGrow;
    OriginsKept(vs, vs');
  }

  lemma EmittedSame(vs: Variables, vs': Variables, emitted: map<Name, seq<Implication>>)
    requires SameShared(vs, vs') && EmittedOk(vs, emitted)
    ensures EmittedOk(vs', emitted)
  {
  }

  lemma InternKeeps(p: Problem, vs: Variables, tb: Tables, clauses: seq<Kind>, rules: set<Rule>, done: set<Rule>,
                    pending: seq<(Name, Var)>,
                    seen: set<Var>, emitted: map<Name, seq<Implication>>, i: Item)
    requires Sound(p, vs, tb, clauses, rules, done, pending) && SeenOk(p, vs, rules, seen) &&
             EmittedOk(vs, emitted) && i !in vs.items
    ensures var vs' := WithItem(vs, i);
            Sound(p, vs', tb, clauses, rules, done, pending) && SeenOk(p, vs', rules, seen) && EmittedOk(vs', emitted)
    ensures VariablesGrow(vs, WithItem(vs, i)) && SameShared(vs, WithItem(vs, i))
  {
    hide VariablesOk, VariablesGrow, TablesOk, TablesGrow, AllJustified, SharedOk, TrackersOk, AllPresent,
         PendingOk, SeenOk, EmittedOk, SelectedOk, WithItem, SameShared;
    var vs' := WithItem(vs, i);
    ItemKeepsVariables(vs, i);
    SameGrow(vs, tb, clauses);
    TablesKept(p, vs, vs', tb, tb);
    Grow(p, vs, vs', tb, tb, clauses, [], rules, rules, done, pending);
    SeenKept(p, vs, vs', rules, rules, seen);
    EmittedSame(vs, vs', emitted);
  }

  lemma AllocateKeeps(p: Problem, vs: Variables, tb: Tables, clauses: seq<Kind>, rules: set<Rule>, done: set<Rule>,
                      pending: seq<(Name, Var)>,
                      seen: set<Var>, emitted: map<Name, seq<Implication>>, o: Origin)
    requires Sound(p, vs, tb, clauses, rules, done, pending) && SeenOk(p, vs, rules, seen) &&
             EmittedOk(vs, emitted) && !o.OfItem?
    ensures var vs' := WithAux(vs, o);
            Sound(p, vs', tb, clauses, rules, done, pending) && SeenOk(p, vs', rules, seen) && EmittedOk(vs', emitted)
    ensures VariablesGrow(vs, WithAux(vs, o)) && SameShared(vs, WithAux(vs, o)) && WithAux(vs, o).Is(|vs.origins|, o)
  {
    hide VariablesOk, VariablesGrow, TablesOk, TablesGrow, AllJustified, SharedOk, TrackersOk, AllPresent,
         PendingOk, SeenOk, EmittedOk, SelectedOk, WithAux, SameShared;
    var vs' := WithAux(vs, o);
    AuxKeepsVariables(vs, o);
    SameGrow(vs, tb, clauses);
    TablesKept(p, vs, vs', tb, tb);
    Grow(p, vs, vs', tb, tb, clauses, [], rules, rules, done, pending);
    SeenKept(p, vs, vs', rules, rules, seen);
    EmittedSame(vs, vs', emitted);
  }

  lemma EmitKeeps(p: Problem, vs: Variables, tb: Tables, clauses: seq<Kind>, rules: set<Rule>, done: set<Rule>,
                  pending: seq<(Name, Var)>, k: Kind)
    requires Sound(p, vs, tb, clauses, rules, done, pending) && Justified(p, vs, tb, rules, k)
    ensures Sound(p, vs, tb, clauses + [k], rules, done, pending)
  {
    hide VariablesOk, VariablesGrow, TablesOk, TablesGrow, AllJustified, SharedOk, TrackersOk, AllPresent,
         PendingOk, SelectedOk, Justified;
    SameGrow(vs, tb, clauses);
    Grow(p, vs, vs, tb, tb, clauses, [k], rules, rules, done, pending);
  }

  lemma AnnounceKeeps(p: Problem, vs: Variables, tb: Tables, clauses: seq<Kind>, rules: set<Rule>, done: set<Rule>,
                      pending: seq<(Name, Var)>,
                      seen: set<Var>, rule: Rule)
    requires Sound(p, vs, tb, clauses, rules, done, pending) && SeenOk(p, vs, rules, seen)
    ensures Sound(p, vs, tb, clauses, rules + {rule}, done, pending) && SeenOk(p, vs, rules + {rule}, seen)
  {
    hide VariablesOk, VariablesGrow, TablesOk, TablesGrow, AllJustified, SharedOk, TrackersOk, AllPresent,
         PendingOk, SelectedOk, SeenOk;
    SameGrow(vs, tb, clauses);
    Grow(p, vs, vs, tb, tb, clauses, [], rules, rules + {rule}, done, pending);
    SeenKept(p, vs, vs, rules, rules + {rule}, seen);
  }
}
