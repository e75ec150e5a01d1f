/**
 Explaining an unsolvable problem: a conflict at level one is traced back along the trail,
 and every learnt clause on the way is replaced by the clauses it was learnt from.
 */
module Explaining {
  import opened Sat
  import opened Clauses
  import opened Trails
  import opened Learning
  import opened Database

  /** A clause is accounted for: an original one by being reported, a learnt one by being expanded. */
  ghost predicate Reported(kinds: seq<Kind>, expanded: set<ClauseId>, core: set<ClauseId>, c: ClauseId) {
    c < |kinds| && if kinds[c].Learnt? then c in expanded else c in core
  }

  /** Everything an expanded clause was learnt from is accounted for. */
  ghost predicate Closed(kinds: seq<Kind>, whys: seq<seq<ClauseId>>, expanded: set<ClauseId>, core: set<ClauseId>,
                         c: ClauseId) {
    && c < |kinds| && kinds[c].Learnt? && kinds[c].id < |whys|
    && forall i :: 0 <= i < |whys[kinds[c].id]| ==> Reported(kinds, expanded, core, whys[kinds[c].id][i])
  }

  ghost predicate AllClosed(kinds: seq<Kind>, whys: seq<seq<ClauseId>>, expanded: set<ClauseId>, core: set<ClauseId>) {
    forall c :: c in expanded ==> Closed(kinds, whys, expanded, core, c)
  }

  /** Reporting more never leaves a clause unaccounted for. */
  lemma ClosedGrows(kinds: seq<Kind>, whys: seq<seq<ClauseId>>, expanded: set<ClauseId>, core: set<ClauseId>,
                    expanded': set<ClauseId>, core': set<ClauseId>, c: ClauseId)
    requires Closed(kinds, whys, expanded, core, c) && expanded <= expanded' && core <= core'
    ensures Closed(kinds, whys, expanded', core', c)
  {
  }

  /** A model of the reported clauses satisfies every clause that is accounted for. */
  lemma {:induction false} ReportedHolds(db: seq<Clause>, kinds: seq<Kind>, whys: seq<seq<ClauseId>>,
                                         expanded: set<ClauseId>, core: set<ClauseId>, a: Assignment, c: ClauseId)
    requires |kinds| == |db| && WhysOk(db, kinds, whys) && AllClosed(kinds, whys, expanded, core)
    requires SatisfiesAll(a, db, core) && Reported(kinds, expanded, core, c)
    ensures Satisfies(a, db[c])
    decreases c
  {
    if kinds[c].Learnt? {
      var why := whys[kinds[c].id];
      assert WhyOk(db, c, why) && Closed(kinds, whys, expanded, core, c);
      forall id | id in Elements(why) ensures Satisfies(a, db[id]) {
        var i :| 0 <= i < |why| && why[i] == id;
        ReportedHolds(db, kinds, whys, expanded, core, a, id);
      }
      assert SatisfiesAll(a, db, Elements(why));
      var l :| l in Elements(db[c]) && Holds(a, l);
    }
  }

  /** From entry `i` on, the reason of every involved entry is accounted for and its variables are involved. */
  ghost predicate Traced(t: Trail, db: seq<Clause>, kinds: seq<Kind>, expanded: set<ClauseId>, core: set<ClauseId>,
                         involved: set<Var>, i: nat) {
    forall p :: i <= p < |t.entries| && 0 < p && t.entries[p].variable in involved ==>
      && t.entries[p].reason < |db|
      && Reported(kinds, expanded, core, t.entries[p].reason)
      && Variables(db[t.entries[p].reason]) <= involved
  }

  /** Every involved entry of a level-one trail holds in every model of the core in which the root is installed. */
  lemma {:induction false} InvolvedHolds(t: Trail, db: seq<Clause>, kinds: seq<Kind>, whys: seq<seq<ClauseId>>,
                                         variables: nat,
                                         expanded: set<ClauseId>, core: set<ClauseId>, involved: set<Var>,
                                         a: Assignment, p: nat)
    requires TrailOk(t, db, variables, 1) && |kinds| == |db| && WhysOk(db, kinds, whys) &&
             AllClosed(kinds, whys, expanded, core)
    requires Traced(t, db, kinds, expanded, core, involved, 0)
    requires ROOT in a && SatisfiesAll(a, db, core)
    requires p < |t.entries| && t.entries[p].variable in involved
    ensures Holds(a, t.entries[p].TrueLiteral())
    decreases p
  {
    hide WhysOk, AllClosed, TrailOk, Reported, SatisfiesAll, IsReason, FalseBefore, Wf, Holds, Traced, Variables;
    var e := t.entries[p];
    if p == 0 {
      RootEntry(t, db, variables, a);
    } else {
      ForcedAtLevelOne(t, db, variables, p);
      TracedAt(t, db, kinds, expanded, core, involved, p);
      ReportedHolds(db, kinds, whys, expanded, core, a, e.reason);
      var m :| m in db[e.reason] && Holds(a, m);
      if m != e.TrueLiteral() {
        OtherOfReason(t, db, variables, p, db[e.reason], m, a);
        InvolvedHolds(t, db, kinds, whys, variables, expanded, core, involved, a, t.pos[m.variable]);
      }
    }
  }

  lemma RootEntry(t: Trail, db: seq<Clause>, variables: nat, a: Assignment)
    requires TrailOk(t, db, variables, 1) && ROOT in a
    ensures |t.entries| > 0 && Holds(a, t.entries[0].TrueLiteral())
  {
  }

  lemma TracedAt(t: Trail, db: seq<Clause>, kinds: seq<Kind>, expanded: set<ClauseId>, core: set<ClauseId>,
                 involved: set<Var>, p: nat)
    requires Traced(t, db, kinds, expanded, core, involved, 0) && 0 < p < |t.entries| &&
             t.entries[p].variable in involved
    ensures t.entries[p].reason < |db| && Reported(kinds, expanded, core, t.entries[p].reason)
    ensures forall m :: m in db[t.entries[p].reason] ==> m.variable in involved
  {
    forall m | m in db[t.entries[p].reason] ensures m.variable in involved {
      assert m.variable in Variables(db[t.entries[p].reason]);
    }
  }

  /** A literal a trail entry makes false does not hold where the entry's own literal does. */
  lemma FalseAtEntry(t: Trail, l: Literal, a: Assignment)
    requires Wf(t) && IsFalse(t, l)
    ensures t.pos[l.variable] < |t.entries| && t.entries[t.pos[l.variable]].variable == l.variable
    ensures Holds(a, t.entries[t.pos[l.variable]].TrueLiteral()) ==> !Holds(a, l)
  {
  }

  lemma OtherOfReason(t: Trail, db: seq<Clause>, variables: nat, p: nat, c: Clause, m: Literal, a: Assignment)
    requires TrailOk(t, db, variables, 1) && p < |t.entries| && IsReason(t, p, c) && m in c &&
             m != t.entries[p].TrueLiteral()
    ensures m.variable in t.pos && t.pos[m.variable] < p && t.entries[t.pos[m.variable]].variable == m.variable
    ensures Holds(a, t.entries[t.pos[m.variable]].TrueLiteral()) ==> !Holds(a, m)
  {
    hide ReasonsOk, LevelsOk;
    assert FalseBefore(t, p, m);
    FalseAtEntry(t, m, a);
  }

  lemma ForcedAtLevelOne(t: Trail, db: seq<Clause>, variables: nat, p: nat)
    requires TrailOk(t, db, variables, 1) && 0 < p < |t.entries|
    ensures 0 < t.entries[p].reason < |db| && IsReason(t, p, db[t.entries[p].reason])
  {
    TrailBounds(t, db, variables, 1);
    assert !OpensLevel(t, p);
  }

  /** The reported clauses have no model in which the root is installed. */
  ghost predicate Refutes(db: seq<Clause>, core: set<ClauseId>) {
    forall a: Assignment :: ROOT in a ==> !SatisfiesAll(a, db, core)
  }

  lemma CoreRefutes(t: Trail, db: seq<Clause>, kinds: seq<Kind>, whys: seq<seq<ClauseId>>, variables: nat,
                    expanded: set<ClauseId>, core: set<ClauseId>, involved: set<Var>, c: ClauseId)
    requires TrailOk(t, db, variables, 1) && |kinds| == |db| && WhysOk(db, kinds, whys) &&
             AllClosed(kinds, whys, expanded, core)
    requires Traced(t, db, kinds, expanded, core, involved, 0)
    requires c < |db| && AllFalse(t, db[c]) && Reported(kinds, expanded, core, c) && Variables(db[c]) <= involved
    ensures Refutes(db, core)
  {
    forall a: Assignment | ROOT in a && SatisfiesAll(a, db, core) ensures false {
      hide WhysOk, AllClosed, ReasonsOk, Reported, SatisfiesAll, LevelsOk, Traced, Wf, Holds, ShapeOk;
      ReportedHolds(db, kinds, whys, expanded, core, a, c);
      var m :| m in db[c] && Holds(a, m);
      assert IsFalse(t, m) && m.variable in Variables(db[c]);
      FalseAtEntry(t, m, a);
      InvolvedHolds(t, db, kinds, whys, variables, expanded, core, involved, a, t.pos[m.variable]);
    }
  }

  /** Tracing one entry adds only variables of earlier entries. */
  lemma TraceEntry(t: Trail, db: seq<Clause>, kinds: seq<Kind>, variables: nat, expanded: set<ClauseId>,
                   core: set<ClauseId>,
                   expanded': set<ClauseId>, core': set<ClauseId>, involved: set<Var>, involved': set<Var>, i: nat)
    requires TrailOk(t, db, variables, 1) && 0 < i < |t.entries| && t.entries[i].variable in involved
    requires Traced(t, db, kinds, expanded, core, involved, i + 1) && expanded <= expanded' && core <= core'
    requires Reported(kinds, expanded', core', t.entries[i].reason)
    requires t.entries[i].reason < |db| && involved' == involved + Variables(db[t.entries[i].reason])
    ensures Traced(t, db, kinds, expanded', core', involved', i)
  {
    hide ReasonsOk, LevelsOk;
    ForcedAtLevelOne(t, db, variables, i);
    var c := db[t.entries[i].reason];
    forall p | i < p < |t.entries| && t.entries[p].variable in involved' ensures t.entries[p].variable in involved {
      if t.entries[p].variable in Variables(c) {
        var l :| l in c && l.variable == t.entries[p].variable;
        assert l == t.entries[i].TrueLiteral() || FalseBefore(t, i, l);
      }
    }
  }

  /** A reported core: original clauses other than the one that installs the root, each once. */
  ghost predicate CoreOk(kinds: seq<Kind>, core: seq<ClauseId>) {
    && (forall i :: 0 <= i < |core| ==> 0 < core[i] < |kinds| && !kinds[core[i]].Learnt?)
    && (forall i, j :: 0 <= i < j < |core| ==> core[i] != core[j])
  }

  /** Adds a clause to the core unless it is there already. */
  function AddToCore(core: seq<ClauseId>, c: ClauseId): seq<ClauseId> {
    if c in core then core else core + [c]
  }

  /** With a learnt clause, everything it was learnt from. */
  ghost predicate ClosedUnder(kinds: seq<Kind>, whys: seq<seq<ClauseId>>, ids: set<ClauseId>) {
    forall c :: c in ids && c < |kinds| && kinds[c].Learnt? && kinds[c].id < |whys| ==>
      Elements(whys[kinds[c].id]) <= ids
  }

  /** Reporting `c` adds to the core only what follows from `c` by going from learnt clauses to their causes. */
  ghost predicate OnlyReachable(kinds: seq<Kind>, whys: seq<seq<ClauseId>>, core: seq<ClauseId>, c: ClauseId,
                                core': seq<ClauseId>) {
    forall ids: set<ClauseId> :: ClosedUnder(kinds, whys, ids) && c in ids && Elements(core) <= ids ==>
      Elements(core') <= ids
  }

  /** Clauses and variables that a conflict on a level-one trail leads to: those of the conflicting clause, the
      causes of learnt clauses, and the reason of each entry of such a variable but the first, with its variables. */
  ghost predicate Leads(t: Trail, db: seq<Clause>, kinds: seq<Kind>, whys: seq<seq<ClauseId>>, clause: ClauseId,
                        ids: set<ClauseId>, vars: set<Var>) {
    && clause in ids && clause < |db| && Variables(db[clause]) <= vars && ClosedUnder(kinds, whys, ids)
    && forall p :: 0 < p < |t.entries| && t.entries[p].variable in vars ==>
         && t.entries[p].reason in ids && t.entries[p].reason < |db|
         && Variables(db[t.entries[p].reason]) <= vars
  }

  /** The clause is in everything the conflict leads to: no smaller account of the conflict leaves it out. */
  ghost predicate Needed(t: Trail, db: seq<Clause>, kinds: seq<Kind>, whys: seq<seq<ClauseId>>, clause: ClauseId,
                         c: ClauseId) {
    forall ids: set<ClauseId>, vars: set<Var> :: Leads(t, db, kinds, whys, clause, ids, vars) ==> c in ids
  }

  /** Only needed clauses were reported, and only variables they need are involved. */
  ghost predicate NothingMore(t: Trail, db: seq<Clause>, kinds: seq<Kind>, whys: seq<seq<ClauseId>>, clause: ClauseId,
                              core: seq<ClauseId>, involved: set<Var>) {
    forall ids: set<ClauseId>, vars: set<Var> :: Leads(t, db, kinds, whys, clause, ids, vars) ==>
      Elements(core) <= ids && involved <= vars
  }

  /** The core is the least account of the conflict: the original clauses that are in every one. */
  ghost predicate LeastCore(t: Trail, db: seq<Clause>, kinds: seq<Kind>, whys: seq<seq<ClauseId>>, clause: ClauseId,
                            core: seq<ClauseId>) {
    forall c: ClauseId :: c in core <==> c < |kinds| && !kinds[c].Learnt? && Needed(t, db, kinds, whys, clause, c)
  }

  lemma ReachesMore(kinds: seq<Kind>, whys: seq<seq<ClauseId>>, core: seq<ClauseId>, c: ClauseId,
                    core': seq<ClauseId>, i: nat, core'': seq<ClauseId>)
    requires c < |kinds| && kinds[c].Learnt? && kinds[c].id < |whys| && i < |whys[kinds[c].id]|
    requires OnlyReachable(kinds, whys, core, c, core')
    requires OnlyReachable(kinds, whys, core', whys[kinds[c].id][i], core'')
    ensures OnlyReachable(kinds, whys, core, c, core'')
  {
    forall ids: set<ClauseId> | ClosedUnder(kinds, whys, ids) && c in ids && Elements(core) <= ids
      ensures Elements(core'') <= ids
    {
      assert whys[kinds[c].id][i] in Elements(whys[kinds[c].id]);
    }
  }

  lemma ReachesItself(kinds: seq<Kind>, whys: seq<seq<ClauseId>>, core: seq<ClauseId>, c: ClauseId)
    ensures OnlyReachable(kinds, whys, core, c, core) && OnlyReachable(kinds, whys, core, c, AddToCore(core, c))
  {
  }

  /** The conflicting clause and its variables are needed. */
  lemma ConflictNeeds(t: Trail, db: seq<Clause>, kinds: seq<Kind>, whys: seq<seq<ClauseId>>, clause: ClauseId,
                      core: seq<ClauseId>)
    requires clause < |db| && OnlyReachable(kinds, whys, [], clause, core)
    ensures NothingMore(t, db, kinds, whys, clause, core, Variables(db[clause]))
  {
    hide ClosedUnder;
    assert Elements<ClauseId>([]) == {};
  }

  /** With an involved entry, its reason and the reason's variables are. */
  lemma EntryNeeds(t: Trail, db: seq<Clause>, kinds: seq<Kind>, whys: seq<seq<ClauseId>>, clause: ClauseId,
                   core: seq<ClauseId>, core': seq<ClauseId>, involved: set<Var>, i: nat)
    requires NothingMore(t, db, kinds, whys, clause, core, involved)
    requires 0 < i < |t.entries| && t.entries[i].variable in involved && t.entries[i].reason < |db|
    requires OnlyReachable(kinds, whys, core, t.entries[i].reason, core')
    ensures NothingMore(t, db, kinds, whys, clause, core', involved + Variables(db[t.entries[i].reason]))
  {
    hide ClosedUnder, Variables;
    forall ids: set<ClauseId>, vars: set<Var> | Leads(t, db, kinds, whys, clause, ids, vars)
      ensures Elements(core') <= ids && involved + Variables(db[t.entries[i].reason]) <= vars
    {
      assert Elements(core) <= ids && involved <= vars;
      assert t.entries[i].reason in ids;
    }
  }

  /** What was reported and expanded is itself something the conflict leads to, so nothing is left out. */
  lemma CoreIsLeast(t: Trail, db: seq<Clause>, kinds: seq<Kind>, whys: seq<seq<ClauseId>>, expanded: set<ClauseId>,
                    core: seq<ClauseId>, involved: set<Var>, clause: ClauseId)
    requires AllClosed(kinds, whys, expanded, Elements(core)) && CoreOk(kinds, core)
    requires Traced(t, db, kinds, expanded, Elements(core), involved, 0)
    requires clause < |db| && Reported(kinds, expanded, Elements(core), clause) && Variables(db[clause]) <= involved
    requires NothingMore(t, db, kinds, whys, clause, core, involved)
    ensures LeastCore(t, db, kinds, whys, clause, core)
  {
    hide Variables, Elements, NothingMore;
    var ids := Elements(core) + expanded;
    assert Leads(t, db, kinds, whys, clause, ids, involved) by {
      ReportedIsClosed(kinds, whys, expanded, core);
    }
    CoreMembers(kinds, expanded, core, whys);
    forall c: ClauseId
      ensures c in core <==> c < |kinds| && !kinds[c].Learnt? && Needed(t, db, kinds, whys, clause, c)
    {
      InCore(core, c);
      if c in core {
        assert Needed(t, db, kinds, whys, clause, c) by { CoreNeeded(t, db, kinds, whys, clause, core, involved, c); }
      }
    }
  }

  lemma CoreNeeded(t: Trail, db: seq<Clause>, kinds: seq<Kind>, whys: seq<seq<ClauseId>>, clause: ClauseId,
                   core: seq<ClauseId>, involved: set<Var>, c: ClauseId)
    requires NothingMore(t, db, kinds, whys, clause, core, involved) && c in core
    ensures Needed(t, db, kinds, whys, clause, c)
  {
    hide Leads;
    InCore(core, c);
  }

  lemma InCore(core: seq<ClauseId>, c: ClauseId)
    ensures c in Elements(core) <==> c in core
  {
  }

  lemma CoreMembers(kinds: seq<Kind>, expanded: set<ClauseId>, core: seq<ClauseId>, whys: seq<seq<ClauseId>>)
    requires CoreOk(kinds, core) && AllClosed(kinds, whys, expanded, Elements(core))
    ensures forall c :: c in core ==> c < |kinds| && !kinds[c].Learnt?
    ensures forall c :: c in expanded ==> c < |kinds| && kinds[c].Learnt?
  {
  }

  lemma ReportedIsClosed(kinds: seq<Kind>, whys: seq<seq<ClauseId>>, expanded: set<ClauseId>, core: seq<ClauseId>)
    requires AllClosed(kinds, whys, expanded, Elements(core)) && CoreOk(kinds, core)
    ensures ClosedUnder(kinds, whys, Elements(core) + expanded)
  {
    forall c | c in Elements(core) + expanded && c < |kinds| && kinds[c].Learnt? && kinds[c].id < |whys|
      ensures Elements(whys[kinds[c].id]) <= Elements(core) + expanded
    {
      assert Closed(kinds, whys, expanded, Elements(core), c);
    }
  }

  /** What one expansion adds is closed, given everything it started with. */
  ghost predicate Expands(kinds: seq<Kind>, whys: seq<seq<ClauseId>>, expanded: set<ClauseId>, core: seq<ClauseId>,
                          expanded': set<ClauseId>, core': seq<ClauseId>) {
    && expanded <= expanded' && Elements(core) <= Elements(core')
    && (forall c :: c in expanded' - expanded ==> Closed(kinds, whys, expanded', Elements(core'), c))
  }

  lemma ExpandsThen(kinds: seq<Kind>, whys: seq<seq<ClauseId>>, e0: set<ClauseId>, c0: seq<ClauseId>,
                    e1: set<ClauseId>, c1: seq<ClauseId>, e2: set<ClauseId>, c2: seq<ClauseId>)
    requires Expands(kinds, whys, e0, c0, e1, c1) && Expands(kinds, whys, e1, c1, e2, c2)
    ensures Expands(kinds, whys, e0, c0, e2, c2)
  {
    forall c | c in e2 - e0 ensures Closed(kinds, whys, e2, Elements(c2), c) {
      if c in e1 {
        ClosedGrows(kinds, whys, e1, Elements(c1), e2, Elements(c2), c);
      }
    }
  }

  lemma ExpandsCloses(kinds: seq<Kind>, whys: seq<seq<ClauseId>>, e0: set<ClauseId>, c0: seq<ClauseId>,
                      e1: set<ClauseId>, c1: seq<ClauseId>)
    requires Expands(kinds, whys, e0, c0, e1, c1) && AllClosed(kinds, whys, e0, Elements(c0))
    ensures AllClosed(kinds, whys, e1, Elements(c1))
  {
    forall c | c in e1 ensures Closed(kinds, whys, e1, Elements(c1), c) {
      if c in e0 {
        ClosedGrows(kinds, whys, e0, Elements(c0), e1, Elements(c1), c);
      }
    }
  }

  lemma AddedToCore(kinds: seq<Kind>, whys: seq<seq<ClauseId>>, expanded: set<ClauseId>, core: seq<ClauseId>,
                    c: ClauseId)
    requires CoreOk(kinds, core) && 0 < c < |kinds| && !kinds[c].Learnt?
    ensures CoreOk(kinds, AddToCore(core, c)) && Reported(kinds, expanded, Elements(AddToCore(core, c)), c)
    ensures Expands(kinds, whys, expanded, core, expanded, AddToCore(core, c))
  {
  }

  /** Once all its causes are reported, the expanded clause itself is closed. */
  lemma ExpandedClause(kinds: seq<Kind>, whys: seq<seq<ClauseId>>, expanded: set<ClauseId>, core: seq<ClauseId>,
                       expanded': set<ClauseId>, core': seq<ClauseId>, c: ClauseId)
    requires c < |kinds| && kinds[c].Learnt? && kinds[c].id < |whys|
    requires Expands(kinds, whys, expanded + {c}, core, expanded', core')
    requires forall i :: 0 <= i < |whys[kinds[c].id]| ==>
               Reported(kinds, expanded', Elements(core'), whys[kinds[c].id][i])
    ensures Expands(kinds, whys, expanded, core, expanded', core')
  {
  }

  lemma ReportedGrows(kinds: seq<Kind>, e0: set<ClauseId>, c0: seq<ClauseId>, e1: set<ClauseId>, c1: seq<ClauseId>,
                      c: ClauseId)
    requires Reported(kinds, e0, Elements(c0), c) && e0 <= e1 && Elements(c0) <= Elements(c1)
    ensures Reported(kinds, e1, Elements(c1), c)
  {
  }

  lemma CausesBounds(db: seq<Clause>, kinds: seq<Kind>, whys: seq<seq<ClauseId>>, c: ClauseId)
    requires |kinds| == |db| && WhysOk(db, kinds, whys) && c < |kinds| && kinds[c].Learnt?
    ensures kinds[c].id < |whys|
    ensures forall i :: 0 <= i < |whys[kinds[c].id]| ==> 0 < whys[kinds[c].id][i] < c
  {
    assert WhyOk(db, c, whys[kinds[c].id]);
  }

  lemma TracedSkips(t: Trail, db: seq<Clause>, kinds: seq<Kind>, expanded: set<ClauseId>, core: set<ClauseId>,
                    involved: set<Var>, i: nat)
    requires Traced(t, db, kinds, expanded, core, involved, i + 1)
    requires i == 0 || (i < |t.entries| && t.entries[i].variable !in involved)
    ensures Traced(t, db, kinds, expanded, core, involved, i)
  {
  }

  lemma TracedNothing(t: Trail, db: seq<Clause>, kinds: seq<Kind>, expanded: set<ClauseId>, core: set<ClauseId>,
                      involved: set<Var>)
    ensures Traced(t, db, kinds, expanded, core, involved, |t.entries|)
  {
  }

  lemma ExpandsGrows(kinds: seq<Kind>, whys: seq<seq<ClauseId>>, e0: set<ClauseId>, c0: seq<ClauseId>,
                     e1: set<ClauseId>, c1: seq<ClauseId>)
    requires Expands(kinds, whys, e0, c0, e1, c1)
    ensures e0 <= e1 && Elements(c0) <= Elements(c1)
  {
  }

  lemma NothingClosed(kinds: seq<Kind>, whys: seq<seq<ClauseId>>)
    ensures AllClosed(kinds, whys, {}, Elements([])) && CoreOk(kinds, [])
  {
  }
}
