/**
 What a finished search has found: setting every unassigned variable to false.
 */
module Models {
  import opened Sat
  import opened Clauses
  import opened Trails
  import opened Watching
  import opened Database

  /** The assignment of the trail, with everything else false. */
  ghost function Completion(t: Trail): Assignment {
    iset v: Var | IsTrue(t, Positive(v))
  }

  /** A requires clause a decision can be taken from: its parent is installed, its condition holds and no
      candidate is installed. */
  ghost predicate Eligible(t: Trail, tb: Tables, k: Kind) {
    && k.Requires?
    && IsTrue(t, Positive(k.parent))
    && (forall l :: l in ConditionOf(tb, k.condition) ==> IsFalse(t, l))
    && (forall v :: v in CandidatesOf(tb, k.requirement) ==> !IsTrue(t, Positive(v)))
  }

  /** The first unassigned variable of a list. */
  ghost predicate FirstOpen(t: Trail, vs: seq<Var>, v: Var) {
    exists i :: 0 <= i < |vs| && vs[i] == v && v !in t.pos && forall j :: 0 <= j < i ==> vs[j] in t.pos
  }

  /** A requires clause that is neither satisfied nor eligible because part of its condition is still open:
      some complement of the condition is unassigned, and none is installed. */
  ghost predicate Waiting(t: Trail, tb: Tables, k: Kind) {
    && k.Requires?
    && IsTrue(t, Positive(k.parent))
    && (forall l :: l in ConditionOf(tb, k.condition) ==> IsFalse(t, l) || (!l.negate && !Assigned(t, l.variable)))
    && (exists l :: l in ConditionOf(tb, k.condition) && !Assigned(t, l.variable))
    && (forall v :: v in CandidatesOf(tb, k.requirement) ==> !IsTrue(t, Positive(v)))
  }

  lemma CompletionHolds(t: Trail, l: Literal)
    ensures Holds(Completion(t), l) <==> IsTrue(t, l) || (l.negate && !Assigned(t, l.variable))
  {
    assert l == Literal(l.variable, l.negate);
  }

  lemma RequiresLiterals(k: Kind, tb: Tables, l: Literal)
    requires k.Requires?
    ensures l in Literals(k, tb) <==>
              || l == Negative(k.parent)
              || l in ConditionOf(tb, k.condition)
              || (!l.negate && l.variable in CandidatesOf(tb, k.requirement))
  {
    var d, v := ConditionOf(tb, k.condition), CandidatesOf(tb, k.requirement);
    assert Literals(k, tb) == [Negative(k.parent)] + d + Positives(v);
    if !l.negate && l.variable in v {
      var i :| 0 <= i < |v| && v[i] == l.variable;
      assert Positives(v)[i] == l;
    }
  }

  /** A requires clause that no decision is needed for is satisfied by the completion exactly when it is not waiting. */
  lemma RequiresCompletion(t: Trail, tb: Tables, k: Kind)
    requires Wf(t) && k.Requires? && !Eligible(t, tb, k)
    ensures Satisfies(Completion(t), Literals(k, tb)) <==> !Waiting(t, tb, k)
  {
    hide Literals, ConditionOf, CandidatesOf, Assigned, Completion;
    var c := Literals(k, tb);
    forall l ensures l in c <==> l == Negative(k.parent) || l in ConditionOf(tb, k.condition)
                                 || (!l.negate && l.variable in CandidatesOf(tb, k.requirement)) {
      RequiresLiterals(k, tb, l);
    }
    forall l ensures Holds(Completion(t), l) <==> IsTrue(t, l) || (l.negate && !Assigned(t, l.variable)) {
      CompletionHolds(t, l);
    }
    if Satisfies(Completion(t), c) {
      var l :| l in c && Holds(Completion(t), l);
    } else {
      NotSatisfied(t, tb, k);
    }
  }

  lemma NotSatisfied(t: Trail, tb: Tables, k: Kind)
    requires Wf(t) && k.Requires? && !Eligible(t, tb, k) && !Satisfies(Completion(t), Literals(k, tb))
    ensures Waiting(t, tb, k)
  {
    hide Literals, ConditionOf, CandidatesOf, Completion;
    var c := Literals(k, tb);
    forall l | l in c ensures !IsTrue(t, l) && (l.negate ==> Assigned(t, l.variable)) {
      CompletionHolds(t, l);
    }
    RequiresLiterals(k, tb, Negative(k.parent));
    forall l | l in ConditionOf(tb, k.condition) ensures l in c { RequiresLiterals(k, tb, l); }
    forall v | v in CandidatesOf(tb, k.requirement) ensures Positive(v) in c { RequiresLiterals(k, tb, Positive(v)); }
  }

  /** Every other clause that is neither unit nor falsified is satisfied: only one of its literals is positive. */
  lemma OtherCompletion(t: Trail, tb: Tables, k: Kind)
    requires Wf(t) && !k.Requires? && !k.Learnt? && Settled(t, Literals(k, tb))
    ensures Satisfies(Completion(t), Literals(k, tb))
  {
    var c := Literals(k, tb);
    if l :| l in c && IsTrue(t, l) {
      CompletionHolds(t, l);
    } else {
      var l, m :| l in c && m in c && l != m && !Assigned(t, l.variable) && !Assigned(t, m.variable);
      assert l.negate || m.negate;
      CompletionHolds(t, l);
      CompletionHolds(t, m);
    }
  }

  /** The search is over: everything is propagated, every assertion holds and there is nothing left to decide. */
  ghost predicate Finished(t: Trail, tb: Tables, kinds: seq<Kind>, db: seq<Clause>)
    requires |kinds| == |db|
  {
    forall c :: 0 <= c < |db| ==> Settled(t, db[c]) && !Eligible(t, tb, kinds[c])
  }

  /** The completion of a finished search satisfies an original clause unless it is a waiting requires clause. */
  lemma OriginalsHold(t: Trail, tb: Tables, kinds: seq<Kind>, db: seq<Clause>, variables: nat, c: ClauseId)
    requires Wf(t) && KindsOk(kinds, tb, db, variables) && Finished(t, tb, kinds, db)
    requires c < |db| && !kinds[c].Learnt?
    ensures Satisfies(Completion(t), db[c]) <==> !Waiting(t, tb, kinds[c])
  {
    hide Settled, Eligible;
    assert ClauseOk(kinds[c], tb, db[c], variables);
    if kinds[c].Requires? {
      RequiresCompletion(t, tb, kinds[c]);
    } else {
      OtherCompletion(t, tb, kinds[c]);
    }
  }

  /** Learnt clauses follow from older ones, so a model of the originals is a model of all. */
  lemma {:induction false} LearntsHold(db: seq<Clause>, kinds: seq<Kind>, whys: seq<seq<ClauseId>>, a: Assignment,
                                       c: ClauseId)
    requires |kinds| == |db| && WhysOk(db, kinds, whys) && c < |db|
    requires forall d :: 0 <= d < |db| && !kinds[d].Learnt? ==> Satisfies(a, db[d])
    ensures Satisfies(a, db[c])
    decreases c
  {
    if kinds[c].Learnt? {
      var why := whys[kinds[c].id];
      assert WhyOk(db, c, why);
      forall id | id in Elements(why) ensures Satisfies(a, db[id]) {
        var i :| 0 <= i < |why| && why[i] == id;
        LearntsHold(db, kinds, whys, a, id);
      }
      assert SatisfiesAll(a, db, Elements(why));
      var l :| l in Elements(db[c]) && Holds(a, l);
    }
  }

  /** The search found a model: of every clause, original or learnt, exactly when no clause is waiting. */
  lemma FinishedIsModel(t: Trail, tb: Tables, kinds: seq<Kind>, db: seq<Clause>, whys: seq<seq<ClauseId>>,
                        variables: nat)
    requires Wf(t) && KindsOk(kinds, tb, db, variables) && WhysOk(db, kinds, whys) && Finished(t, tb, kinds, db)
    ensures (forall c :: 0 <= c < |db| ==> Satisfies(Completion(t), db[c])) <==>
            (forall c :: 0 <= c < |db| ==> !Waiting(t, tb, kinds[c]))
  {
    hide Waiting, Finished, Completion, Satisfies, WhysOk;
    forall c | 0 <= c < |db| && !kinds[c].Learnt?
      ensures Satisfies(Completion(t), db[c]) <==> !Waiting(t, tb, kinds[c])
    {
      OriginalsHold(t, tb, kinds, db, variables, c);
    }
    if forall c :: 0 <= c < |db| ==> !Waiting(t, tb, kinds[c]) {
      forall c | 0 <= c < |db| ensures Satisfies(Completion(t), db[c]) {
        LearntsHold(db, kinds, whys, Completion(t), c);
      }
    } else {
      var c :| 0 <= c < |db| && Waiting(t, tb, kinds[c]);
      OnlyRequiresWait(t, tb, kinds[c]);
    }
  }

  lemma OnlyRequiresWait(t: Trail, tb: Tables, k: Kind)
    requires Waiting(t, tb, k)
    ensures k.Requires?
  {
  }

  /** Conditions that mention no complement never make a clause wait. */
  lemma NoComplementNoWaiting(t: Trail, tb: Tables, k: Kind)
    requires k.Requires? ==> forall l :: l in ConditionOf(tb, k.condition) ==> l.negate
    ensures !Waiting(t, tb, k)
  {
  }

  /** A search can finish with a clause waiting, and its completion is then no model: only the root is installed, and
      neither the complement of its condition nor its candidate has been decided. */
  lemma WaitingIsPossible() returns (t: Trail, tb: Tables, kinds: seq<Kind>, db: seq<Clause>)
    ensures |kinds| == |db| == 2 && KindsOk(kinds, tb, db, 3) && TrailOk(t, db, 3, 1) && Finished(t, tb, kinds, db)
    ensures Waiting(t, tb, kinds[1]) && !Satisfies(Completion(t), db[1])
  {
    hide KindsOk, TrailOk, Settled, Eligible, Waiting, Satisfies, Literals;
    t := Trail([Entry(ROOT, true, 1, INSTALL_ROOT)], map[ROOT := 0]);
    tb := Tables([], map[0 := [[2]]], [[Positive(1)]]);
    kinds := [InstallRoot, Requires(ROOT, Some(0), 0)];
    db := [[Positive(ROOT)], [Negative(ROOT), Positive(1), Positive(2)]];
    OnlyRoot(t, db);
    WaitingClause(t, tb, kinds, db);
    RequiresCompletion(t, tb, kinds[1]);
  }

  lemma OnlyRoot(t: Trail, db: seq<Clause>)
    requires t == Trail([Entry(ROOT, true, 1, INSTALL_ROOT)], map[ROOT := 0]) && |db| >= 1 && db[0] == [Positive(ROOT)]
    ensures TrailOk(t, db, 3, 1) && Settled(t, db[0])
  {
    assert OpensLevel(t, 0);
    assert db[0][0] in db[0] && IsTrue(t, db[0][0]);
  }

  lemma WaitingClause(t: Trail, tb: Tables, kinds: seq<Kind>, db: seq<Clause>)
    requires t == Trail([Entry(ROOT, true, 1, INSTALL_ROOT)], map[ROOT := 0]) &&
             tb == Tables([], map[0 := [[2]]], [[Positive(1)]])
    requires kinds == [InstallRoot, Requires(ROOT, Some(0), 0)]
    requires db == [[Positive(ROOT)], [Negative(ROOT), Positive(1), Positive(2)]]
    ensures KindsOk(kinds, tb, db, 3) && Literals(kinds[1], tb) == db[1] && Settled(t, db[1])
    ensures !Eligible(t, tb, kinds[0]) && !Eligible(t, tb, kinds[1]) && Waiting(t, tb, kinds[1])
  {
    assert Flatten([[2]]) == [2] + Flatten([[2]][1..]) == [2];
    assert CandidatesOf(tb, 0) == [2] && ConditionOf(tb, Some(0)) == [Positive(1)];
    var c := db[1];
    assert Literals(kinds[1], tb) == c && Literals(kinds[0], tb) == db[0];
    assert Positive(1) in ConditionOf(tb, kinds[1].condition) && !Assigned(t, 1);
    assert c[1] in c && c[2] in c && c[1] != c[2] && !Assigned(t, 2);
  }
}
