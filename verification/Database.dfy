/**
 The clause database of a search and what the solver keeps about it and about its trail.
 */
module Database {
  import opened Sat
  import opened Clauses
  import opened Trails
  import opened Progress

  /** Every clause is the list of literals its kind stands for; the first one installs the root. */
  ghost predicate KindsOk(kinds: seq<Kind>, tb: Tables, db: seq<Clause>, variables: nat) {
    && |db| == |kinds| >= 1 && kinds[0] == InstallRoot
    && (forall c :: 0 <= c < |db| ==> ClauseOk(kinds[c], tb, db[c], variables))
    && (forall c :: 0 < c < |db| ==> kinds[c] != InstallRoot)
  }

  ghost predicate ClauseOk(k: Kind, tb: Tables, c: Clause, variables: nat) {
    && c == Literals(k, tb) && |c| >= 1
    && (k.IsBinary() ==> |c| == 2)
    && (k.Learnt? ==> k.id < |tb.learnts|)
    && (forall l :: l in c ==> l.variable < variables)
  }

  /** The assertions: the clauses of a single literal, found through one list or the other. */
  ghost predicate AssertionsListed(db: seq<Clause>, kinds: seq<Kind>, negatives: seq<(Var, ClauseId)>,
                                   learnts: seq<ClauseId>)
    requires |kinds| == |db|
  {
    && (forall i :: 0 <= i < |negatives| ==>
          0 < negatives[i].1 < |db| && db[negatives[i].1] == [Negative(negatives[i].0)])
    && (forall i :: 0 <= i < |learnts| ==> 0 < learnts[i] < |db| && kinds[learnts[i]].Learnt?)
    && (forall c :: 0 < c < |db| && |db[c]| == 1 ==> Listed(c, negatives, learnts))
  }

  ghost predicate Listed(c: ClauseId, negatives: seq<(Var, ClauseId)>, learnts: seq<ClauseId>) {
    || (exists i :: 0 <= i < |negatives| && negatives[i].1 == c)
    || (exists i :: 0 <= i < |learnts| && learnts[i] == c)
  }

  /** Every learnt clause follows from the older clauses it was learnt from. */
  ghost predicate WhysOk(db: seq<Clause>, kinds: seq<Kind>, whys: seq<seq<ClauseId>>)
    requires |kinds| == |db|
  {
    forall c :: 0 <= c < |db| && kinds[c].Learnt? ==>
      && kinds[c].id < |whys|
      && WhyOk(db, c, whys[kinds[c].id])
  }

  ghost predicate WhyOk(db: seq<Clause>, c: ClauseId, why: seq<ClauseId>)
    requires c < |db|
  {
    && (forall i :: 0 <= i < |why| ==> 0 < why[i] < c)
    && Entails(db, Elements(why), Elements(db[c]))
  }

  /** The trail of a search that has reached `level`: it starts with the root, and every entry but the decisions
      is forced. */
  ghost predicate TrailOk(t: Trail, db: seq<Clause>, variables: nat, level: nat) {
    Wf(t) && LevelsOk(t) && ReasonsOk(t, db) && ShapeOk(t.entries, variables, level)
  }

  ghost predicate ShapeOk(es: seq<Entry>, variables: nat, level: nat) {
    && |es| >= 1 && es[0] == Entry(ROOT, true, 1, INSTALL_ROOT)
    && es[|es| - 1].level == level
    && (forall i :: 0 <= i < |es| ==> es[i].variable < variables)
    && (forall i :: 0 < i < |es| ==> es[i].reason != INSTALL_ROOT)
  }

  /** Above level one every assertion holds, and has held since level one. */
  ghost predicate UnitsOk(t: Trail, db: seq<Clause>, level: nat) {
    level >= 2 ==> forall c :: 0 <= c < |db| && |db[c]| == 1 ==> UnitOk(t, db[c])
  }

  ghost predicate UnitOk(t: Trail, c: Clause)
    requires |c| == 1
  {
    IsTrue(t, c[0]) && LevelOf(t, c[0].variable) == 1
  }

  /** The number of entries below a level. */
  ghost function Below(t: Trail, level: nat): nat {
    if level == 0 then 0 else CountUpTo(t.entries, level - 1)
  }

  lemma EntailsExtend(db: seq<Clause>, more: seq<Clause>, ids: set<ClauseId>, lits: set<Literal>)
    requires Entails(db, ids, lits) && forall id :: id in ids ==> id < |db|
    ensures Entails(db + more, ids, lits)
  {
    forall a: Assignment | SatisfiesAll(a, db + more, ids)
      ensures exists l :: l in lits && Holds(a, l)
    {
      forall id | id in ids && id < |db| ensures Satisfies(a, db[id]) {
        assert (db + more)[id] == db[id];
      }
      assert SatisfiesAll(a, db, ids);
    }
  }

  lemma WhysExtend(db: seq<Clause>, kinds: seq<Kind>, whys: seq<seq<ClauseId>>, c: Clause, why: seq<ClauseId>)
    requires |kinds| == |db| && WhysOk(db, kinds, whys)
    requires forall i :: 0 <= i < |why| ==> 0 < why[i] < |db|
    requires Entails(db, Elements(why), Elements(c))
    ensures WhysOk(db + [c], kinds + [Learnt(|whys|)], whys + [why])
  {
    var db', kinds', whys' := db + [c], kinds + [Learnt(|whys|)], whys + [why];
    forall d | 0 <= d < |db'| && kinds'[d].Learnt?
      ensures kinds'[d].id < |whys'| && WhyOk(db', d, whys'[kinds'[d].id])
    {
      var w := whys'[kinds'[d].id];
      assert d < |db| ==> WhyOk(db, d, w);
      EntailsExtend(db, [c], Elements(w), Elements(db'[d]));
    }
  }

  /** The variables and the level of a trail are within their bounds. */
  lemma TrailBounds(t: Trail, db: seq<Clause>, variables: nat, level: nat)
    requires TrailOk(t, db, variables, level)
    ensures 1 <= level <= |t.entries| <= variables
    ensures forall i :: 0 <= i < |t.entries| ==> 1 <= t.entries[i].level <= level
    ensures ROOT in t.pos && t.pos[ROOT] == 0
  {
    forall v | v in t.pos ensures v < variables {
      assert t.entries[t.pos[v]].variable == v;
    }
    TrailLength(t, variables);
    LevelBound(t, |t.entries| - 1);
    assert forall i :: 0 <= i < |t.entries| ==>
             t.entries[0].level <= t.entries[i].level <= t.entries[|t.entries| - 1].level;
  }

  /** A forced literal joins the trail at the current level. */
  lemma ForcedKeepsTrail(t: Trail, db: seq<Clause>, variables: nat, level: nat, l: Literal, c: ClauseId)
    requires TrailOk(t, db, variables, level) && 0 < c < |db|
    requires l.variable !in t.pos && l.variable < variables && l in db[c]
    requires forall m :: m in db[c] && m != l ==> IsFalse(t, m)
    ensures TrailOk(Push(t, Entry(l.variable, !l.negate, level, c)), db, variables, level)
  {
    hide Wf, LevelsOk, ReasonsOk, ShapeOk, IsReason, IsFalse, Follows;
    var e := Entry(l.variable, !l.negate, level, c);
    PushKeepsWf(t, e);
    UnitForces(t, e, db[c]);
    PushKeepsReasons(t, e, db);
    PushKeepsShape(t, e, variables, level);
    PushKeepsLevels(t, e);
  }

  lemma PushKeepsShape(t: Trail, e: Entry, variables: nat, level: nat)
    requires ShapeOk(t.entries, variables, level) && e.variable < variables && e.reason != INSTALL_ROOT
    requires level <= e.level <= level + 1
    ensures ShapeOk(Push(t, e).entries, variables, e.level) && Follows(t, e)
    ensures e.level == level + 1 ==> OpensLevel(Push(t, e), |t.entries|)
  {
  }

  /** A decision opens the next level. */
  lemma DecisionKeepsTrail(t: Trail, db: seq<Clause>, variables: nat, level: nat, v: Var, c: ClauseId)
    requires TrailOk(t, db, variables, level) && 0 < c < |db|
    requires v !in t.pos && v < variables
    ensures TrailOk(Push(t, Entry(v, true, level + 1, c)), db, variables, level + 1)
  {
    hide Wf, LevelsOk, ReasonsOk, ShapeOk, IsReason, Follows, OpensLevel;
    var e := Entry(v, true, level + 1, c);
    PushKeepsWf(t, e);
    PushKeepsShape(t, e, variables, level);
    PushKeepsReasons(t, e, db);
    PushKeepsLevels(t, e);
  }

  lemma PushKeepsUnits(t: Trail, e: Entry, db: seq<Clause>, level: nat)
    requires Wf(t) && e.variable !in t.pos && UnitsOk(t, db, level)
    ensures UnitsOk(Push(t, e), db, level)
  {
    PushKeepsWf(t, e);
    forall c | level >= 2 && 0 <= c < |db| && |db[c]| == 1 ensures UnitOk(Push(t, e), db[c]) {
      assert UnitOk(t, db[c]);
    }
  }

  /** A backjump leaves a trail of the level jumped to. */
  lemma BackjumpKeepsTrail(t: Trail, db: seq<Clause>, variables: nat, level: nat, target: nat)
    requires TrailOk(t, db, variables, level) && 1 <= target < level
    ensures TrailOk(UpTo(t, target), db, variables, target)
  {
    hide Wf, LevelsOk, ReasonsOk, ShapeOk, CountUpTo;
    var n := CountUpTo(t.entries, target);
    PrefixKeepsWf(t, n);
    PrefixKeepsLevels(t, n);
    PrefixKeepsReasons(t, n, db);
    BackjumpShape(t, variables, level, target);
  }

  lemma BackjumpShape(t: Trail, variables: nat, level: nat, target: nat)
    requires LevelsOk(t) && ShapeOk(t.entries, variables, level) && 1 <= target < level
    ensures ShapeOk(UpTo(t, target).entries, variables, target)
  {
    var n := CountUpTo(t.entries, target);
    assert 1 <= n < |t.entries|;
    assert t.entries[n].level <= t.entries[n - 1].level + 1;
  }

  lemma BackjumpKeepsUnits(t: Trail, db: seq<Clause>, level: nat, target: nat)
    requires Wf(t) && LevelsOk(t) && UnitsOk(t, db, level) && 1 <= target < level
    ensures UnitsOk(UpTo(t, target), db, target)
  {
    UpToIsExact(t, target);
    forall c | target >= 2 && 0 <= c < |db| && |db[c]| == 1 ensures UnitOk(UpTo(t, target), db[c]) {
      assert UnitOk(t, db[c]);
    }
  }
}
