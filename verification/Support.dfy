/**
 Where literals come from: analysis derives clauses from literals that are there, and every
 assignment makes a literal of its clause true.  So whatever a search makes true was named
 positively by one of the clauses it was given.
 */
module Support {
  import opened Sat
  import opened Trails
  import opened Learning
  import opened Watching

  ghost predicate Occurs(db: seq<Clause>, l: Literal) {
    exists c :: 0 <= c < |db| && l in db[c]
  }

  ghost predicate AllOccur(db: seq<Clause>, c: Clause) {
    forall l :: l in c ==> Occurs(db, l)
  }

  /** Nothing but literals of `db` is in `db'`. */
  ghost predicate NoNewLiterals(db: seq<Clause>, db': seq<Clause>) {
    forall c :: 0 <= c < |db'| ==> AllOccur(db, db'[c])
  }

  /** The false literal of every variable that analysis has seen occurs in a clause. */
  ghost predicate SeenOccurs(t: Trail, db: seq<Clause>, seen: set<Var>) {
    forall v :: v in seen ==> Occurs(db, FalseLit(t, v))
  }

  /** A decision makes a literal of its clause true. */
  ghost predicate OpenersOk(t: Trail, db: seq<Clause>) {
    forall i :: 0 <= i < |t.entries| && OpensLevel(t, i) ==>
      t.entries[i].reason < |db| && t.entries[i].TrueLiteral() in db[t.entries[i].reason]
  }

  /** Everything that is true was named positively. */
  ghost predicate Supported(t: Trail, db: seq<Clause>) {
    forall v: Var :: IsTrue(t, Positive(v)) ==> Occurs(db, Positive(v))
  }

  lemma NoNewInSame(db: seq<Clause>)
    ensures NoNewLiterals(db, db)
  {
  }

  lemma NoNewThen(a: seq<Clause>, b: seq<Clause>, c: seq<Clause>)
    requires NoNewLiterals(a, b) && NoNewLiterals(b, c)
    ensures NoNewLiterals(a, c)
  {
    hide Occurs;
    forall i | 0 <= i < |c| ensures AllOccur(a, c[i]) {
      assert AllOccur(b, c[i]);
      forall l | l in c[i] ensures Occurs(a, l) {
        OccursFrom(a, b, l);
      }
    }
  }

  lemma OccursFrom(a: seq<Clause>, b: seq<Clause>, l: Literal)
    requires NoNewLiterals(a, b) && Occurs(b, l)
    ensures Occurs(a, l)
  {
    var i :| 0 <= i < |b| && l in b[i];
    assert AllOccur(a, b[i]);
  }

  lemma LearntOccurs(db: seq<Clause>, c: Clause)
    requires AllOccur(db, c)
    ensures NoNewLiterals(db, db + [c])
  {
    forall i | 0 <= i < |db + [c]| ensures AllOccur(db, (db + [c])[i]) {
    }
  }

  /** A false literal is the one the trail makes false. */
  lemma FalseIsFalseLit(t: Trail, l: Literal)
    requires IsFalse(t, l)
    ensures l == FalseLit(t, l.variable)
  {
  }

  lemma ConflictOccurs(t: Trail, db: seq<Clause>, c: ClauseId)
    requires c < |db| && AllFalse(t, db[c])
    ensures SeenOccurs(t, db, Variables(db[c]))
  {
    forall v | v in Variables(db[c]) ensures Occurs(db, FalseLit(t, v)) {
      var l :| l in db[c] && l.variable == v;
      FalseIsFalseLit(t, l);
    }
  }

  /** The literals of a reason are seen; the entry it forced was seen before. */
  lemma ReasonOccurs(t: Trail, db: seq<Clause>, k: nat, seen: set<Var>, seen': set<Var>)
    requires k < |t.entries| && t.entries[k].reason < |db| && IsReason(t, k, db[t.entries[k].reason]) &&
             t.entries[k].variable in seen
    requires SeenOccurs(t, db, seen) && forall v :: v in seen' ==> v in seen || v in Variables(db[t.entries[k].reason])
    ensures SeenOccurs(t, db, seen')
  {
    hide Occurs;
    var c := db[t.entries[k].reason];
    forall v | v in seen' ensures Occurs(db, FalseLit(t, v)) {
      if v !in seen {
        var l :| l in c && l.variable == v;
        assert FalseBefore(t, k, l);
        FalseIsFalseLit(t, l);
        InClause(db, t.entries[k].reason, l);
      }
    }
  }

  lemma InClause(db: seq<Clause>, c: ClauseId, l: Literal)
    requires c < |db| && l in db[c]
    ensures Occurs(db, l)
  {
  }

  /** The learnt clause consists of literals that occur. */
  lemma FinishOccurs(t: Trail, level: nat, k: nat, s: Analysis, db: seq<Clause>)
    requires Wf(t) && k < |t.entries| && AnalysisOk(t, level, k, s) && s.causes == 0
    requires t.entries[k].variable in s.seen && t.entries[k].level == level && SeenOccurs(t, db, s.seen)
    ensures AllOccur(db, Finish(s, t.entries[k].FalseLiteral()))
  {
    hide Occurs, Finish, Wf;
    FinishElements(t, level, k, s);
    forall l | l in Finish(s, t.entries[k].FalseLiteral()) ensures Occurs(db, l) {
      assert l in Elements(Finish(s, t.entries[k].FalseLiteral()));
    }
  }

  /** What is appended at the level of the last entry opens no level. */
  lemma ExtendsKeepsOpeners(t: Trail, t': Trail, db: seq<Clause>)
    requires OpenersOk(t, db) && Extends(t, t') && LevelsOk(t') && |t.entries| > 0
    requires t'.entries[|t'.entries| - 1].level == t.entries[|t.entries| - 1].level
    ensures OpenersOk(t', db)
  {
    var n := |t.entries|;
    assert t'.entries[n - 1] == t'.entries[..n][n - 1];
    forall i | 0 <= i < |t'.entries| && OpensLevel(t', i)
      ensures t'.entries[i].reason < |db| && t'.entries[i].TrueLiteral() in db[t'.entries[i].reason]
    {
      if i < n {
        assert t'.entries[i] == t'.entries[..n][i] && (i > 0 ==> t'.entries[i - 1] == t'.entries[..n][i - 1]);
        assert OpensLevel(t, i);
      }
    }
  }

  lemma PrefixKeepsOpeners(t: Trail, n: nat, db: seq<Clause>, more: seq<Clause>)
    requires OpenersOk(t, db) && n <= |t.entries|
    ensures OpenersOk(Prefix(t, n), db + more)
  {
    var p := Prefix(t, n);
    forall i | 0 <= i < n && OpensLevel(p, i) ensures p.entries[i].reason < |db + more| &&
    p.entries[i].TrueLiteral() in (db + more)[p.entries[i].reason] {
      assert OpensLevel(t, i);
    }
  }

  /** A new entry keeps the others, and its own clause names its literal. */
  lemma PushKeepsOpeners(t: Trail, e: Entry, db: seq<Clause>)
    requires OpenersOk(t, db) && e.reason < |db| && e.TrueLiteral() in db[e.reason]
    ensures OpenersOk(Push(t, e), db)
  {
    var p := Push(t, e);
    forall i | 0 <= i < |p.entries| && OpensLevel(p, i) ensures p.entries[i].reason < |db| &&
    p.entries[i].TrueLiteral() in db[p.entries[i].reason] {
      if i < |t.entries| {
        assert OpensLevel(t, i);
      }
    }
  }

  /** Every assignment makes a literal of its clause true. */
  lemma TrailIsSupported(t: Trail, db: seq<Clause>, db0: seq<Clause>)
    requires Wf(t) && ReasonsOk(t, db) && OpenersOk(t, db) && NoNewLiterals(db0, db)
    ensures Supported(t, db0)
  {
    hide Occurs, NoNewLiterals;
    forall v: Var | IsTrue(t, Positive(v)) ensures Occurs(db0, Positive(v)) {
      var i := t.pos[v];
      assert t.entries[i].TrueLiteral() == Positive(v);
      InClause(db, t.entries[i].reason, Positive(v));
      OccursFrom(db0, db, Positive(v));
    }
  }
}
