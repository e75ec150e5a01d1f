/**
 What the steps of the search do to the clause database and to the trail: adding a clause,
 asserting, propagating an entry, and learning.
 */
module SearchSteps {
  import opened Sat
  import opened Clauses
  import opened Trails
  import opened DecisionTrackers
  import opened WatchMaps
  import opened Watching
  import opened Learning
  import opened Database
  import opened Progress
  import opened Models
  import opened Support
  import opened Explaining

  /** A clause the encoder may hand over, all of whose variables exist. */
  ghost predicate Admissible(k: Kind, tb: Tables, variables: nat) {
    WellFormed(k, tb) && forall l :: l in Literals(k, tb) ==> l.variable < variables
  }

  lemma KindsSize(kinds: seq<Kind>, tb: Tables, db: seq<Clause>, variables: nat)
    requires KindsOk(kinds, tb, db, variables)
    ensures |db| == |kinds| >= 1
  {
  }

  lemma AddedKindsOk(kinds: seq<Kind>, db: seq<Clause>, tb: Tables, variables: nat, k: Kind)
    requires KindsOk(kinds, tb, db, variables) && Admissible(k, tb, variables)
    ensures KindsOk(kinds + [k], tb, db + [Literals(k, tb)], variables)
  {
    InitialWatchesAreLiterals(k, tb);
    assert ClauseOk(k, tb, Literals(k, tb), variables);
  }

  lemma AddedAssertionsListed(db: seq<Clause>, kinds: seq<Kind>, c: Clause, k: Kind,
                              negatives: seq<(Var, ClauseId)>, negatives': seq<(Var, ClauseId)>, learnts: seq<ClauseId>)
    requires |kinds| == |db| >= 1 && AssertionsListed(db, kinds, negatives, learnts)
    requires if |c| == 1 then c[0].negate && negatives' == negatives + [(c[0].variable, |db|)]
             else negatives' == negatives
    ensures AssertionsListed(db + [c], kinds + [k], negatives', learnts)
  {
    forall d | 0 < d < |db + [c]| && |(db + [c])[d]| == 1 ensures Listed(d, negatives', learnts) {
      if d < |db| {
        StillListed(d, negatives, negatives', learnts, learnts);
      } else {
        assert negatives'[|negatives|].1 == d;
      }
    }
  }

  lemma WhysKept(db: seq<Clause>, kinds: seq<Kind>, whys: seq<seq<ClauseId>>, c: Clause, k: Kind)
    requires |kinds| == |db| && WhysOk(db, kinds, whys) && !k.Learnt?
    ensures WhysOk(db + [c], kinds + [k], whys)
  {
    forall d | 0 <= d < |db| && kinds[d].Learnt? ensures WhyOk(db + [c], d, whys[kinds[d].id]) {
      EntailsExtend(db, [c], Elements(whys[kinds[d].id]), Elements(db[d]));
    }
  }

  lemma StillListed(c: ClauseId, negatives: seq<(Var, ClauseId)>, negatives': seq<(Var, ClauseId)>,
                    learnts: seq<ClauseId>, learnts': seq<ClauseId>)
    requires Listed(c, negatives, learnts)
    requires |negatives| <= |negatives'| && negatives'[..|negatives|] == negatives
    requires |learnts| <= |learnts'| && learnts'[..|learnts|] == learnts
    ensures Listed(c, negatives', learnts')
  {
    if i :| 0 <= i < |negatives| && negatives[i].1 == c {
      assert negatives'[i].1 == c;
    } else {
      var i :| 0 <= i < |learnts| && learnts[i] == c;
      assert learnts'[i] == c;
    }
  }

  lemma TwoLiterals(c: Clause, a: Literal, b: Literal)
    requires |c| == 2 && a in c && b in c && a != b
    ensures forall l :: l in c ==> l == a || l == b
  {
  }

  /** The clause that installs the root is an assertion, so no list holds it. */
  lemma RootIsUnwatched(kinds: seq<Kind>, tb: Tables, db: seq<Clause>, variables: nat, ws: Watches, c: ClauseId)
    requires KindsOk(kinds, tb, db, variables) && WatchesFit(db, ws) && c < |ws| && ws[c].Some?
    ensures 0 < c < |db|
  {
    assert FitsClause(db[c], ws[c]) && ClauseOk(kinds[0], tb, db[0], variables);
  }

  lemma RootOnly(tb: Tables, variables: nat)
    requires variables >= 1
    ensures KindsOk([InstallRoot], tb, [[Positive(ROOT)]], variables)
    ensures AssertionsListed([[Positive(ROOT)]], [InstallRoot], [], [])
    ensures WhysOk([[Positive(ROOT)]], [InstallRoot], [])
    ensures WatchesFit([[Positive(ROOT)]], [None])
  {
  }

  /** Every assertion holds. */
  ghost predicate UnitsTrue(t: Trail, db: seq<Clause>) {
    forall c :: 0 <= c < |db| && |db[c]| == 1 ==> IsTrue(t, db[c][0])
  }

  lemma ExtendsTransitive(t: Trail, u: Trail, w: Trail)
    requires Extends(t, u) && Extends(u, w)
    ensures Extends(t, w)
  {
    assert w.entries[..|t.entries|] == u.entries[..|t.entries|];
  }

  /** Growing at the current level changes nothing below it. */
  lemma BelowExtends(t: Trail, t': Trail, db: seq<Clause>, variables: nat, level: nat)
    requires TrailOk(t, db, variables, level) && TrailOk(t', db, variables, level) && Extends(t, t')
    ensures Below(t', level) == Below(t, level) <= |t.entries|
  {
    hide ReasonsOk, Wf;
    TrailBounds(t, db, variables, level);
    CountExtends(t.entries, t'.entries, level - 1);
  }

  lemma {:induction false} CountExtends(es: seq<Entry>, es': seq<Entry>, level: nat)
    requires |es| <= |es'| && es'[..|es|] == es && CountUpTo(es, level) < |es|
    ensures CountUpTo(es', level) == CountUpTo(es, level)
  {
    assert es'[0] == es[0];
    if es[0].level <= level {
      assert es'[1..][..|es| - 1] == es[1..];
      CountExtends(es[1..], es'[1..], level);
    }
  }

  lemma AfterAssertions(t: Trail, t': Trail, db: seq<Clause>, variables: nat, level: nat, q: nat, ws: Watches)
    requires TrailOk(t, db, variables, level) && TrailOk(t', db, variables, level) && Extends(t, t')
    requires Below(t, level) <= q <= |t.entries| && WatchesOk(t, q, ws)
    ensures Below(t', level) <= q <= |t'.entries| && WatchesOk(t', q, ws) && WatchesOk(t', Below(t', level), ws)
  {
    hide LevelsOk, ReasonsOk, ShapeOk, Wf, WatchesOk, Below;
    BelowExtends(t, t', db, variables, level);
    ExtendsKeepsWatches(t, t', q, ws);
    FewerWatched(t', q, Below(t', level), ws);
  }

  lemma FewerWatched(t: Trail, q: nat, q': nat, ws: Watches)
    requires WatchesOk(t, q, ws) && q' <= q
    ensures WatchesOk(t, q', ws)
  {
    forall c | 0 <= c < |ws| ensures WatchOk(t, q', ws[c]) {
      assert WatchOk(t, q, ws[c]);
    }
  }

  lemma BelowShrinks(t: Trail, db: seq<Clause>, variables: nat, level: nat, q: nat, ws: Watches)
    requires TrailOk(t, db, variables, level) && Below(t, level) <= q && WatchesOk(t, q, ws)
    ensures Below(t, level) <= |t.entries| && WatchesOk(t, Below(t, level), ws)
  {
    hide LevelsOk, ReasonsOk, ShapeOk, Wf, WatchesOk;
    FewerWatched(t, q, Below(t, level), ws);
  }

  lemma UnpropagatedAtLevel(t: Trail, db: seq<Clause>, variables: nat, level: nat, q: nat, stack: seq<Decision>)
    requires TrailOk(t, db, variables, level) && Below(t, level) <= q < |stack| && StackAgrees(stack, t)
    ensures |stack| == |t.entries| && t.entries[q].level == level
    ensures t.entries[q].FalseLiteral() == Literal(stack[q].variable, stack[q].value)
  {
    TrailBounds(t, db, variables, level);
    assert t.entries[Below(t, level)].level <= t.entries[q].level;
  }

  lemma AfterEntry(first: Trail, t: Trail, t': Trail, db: seq<Clause>, variables: nat, level: nat)
    requires TrailOk(t, db, variables, level) && TrailOk(t', db, variables, level)
    requires Extends(first, t) && Extends(t, t') && UnitsTrue(t, db)
    ensures Below(t', level) == Below(t, level) && Extends(first, t') && UnitsTrue(t', db)
  {
    hide LevelsOk, ReasonsOk, ShapeOk, Wf, Below, Extends;
    BelowExtends(t, t', db, variables, level);
    ExtendsTransitive(first, t, t');
    ExtendsKeepsValues(t, t');
  }

  /** A clause falsified while an entry of the current level is propagated has a literal of that level. */
  lemma ConflictAtLevel(t: Trail, t': Trail, q: nat, c: Clause, literal: Literal, level: nat)
    requires Wf(t) && Wf(t') && Extends(t, t') && q < |t.entries| && t.entries[q].level == level
    requires t.entries[q].FalseLiteral() == literal && AllFalse(t', c) && literal in c
    ensures Conflicting(t', level, c)
  {
    ExtendsKeepsValues(t, t');
    assert LevelOf(t', literal.variable) == level;
  }

  /** An assertion can only be contradicted at level one. */
  lemma AssertionConflict(t: Trail, db: seq<Clause>, variables: nat, level: nat, c: ClauseId)
    requires TrailOk(t, db, variables, level) && UnitsOk(t, db, level)
    requires c < |db| && |db[c]| == 1 && AllFalse(t, db[c])
    ensures level == 1 && Conflicting(t, level, db[c])
  {
    hide LevelsOk, ReasonsOk, Wf, UnitsOk, ShapeOk;
    TrailBounds(t, db, variables, level);
    UnitsAboveOne(t, db, level, c);
    assert db[c][0] in db[c] && IsFalse(t, db[c][0]);
    assert LevelOf(t, db[c][0].variable) == level;
  }

  lemma UnitsAboveOne(t: Trail, db: seq<Clause>, level: nat, c: ClauseId)
    requires UnitsOk(t, db, level) && c < |db| && |db[c]| == 1
    ensures level >= 2 ==> IsTrue(t, db[c][0])
  {
    assert level >= 2 ==> UnitOk(t, db[c]);
  }

  lemma AssertionsHold(t: Trail, db: seq<Clause>, kinds: seq<Kind>, tb: Tables, variables: nat, level: nat,
                       negatives: seq<(Var, ClauseId)>, learnts: seq<ClauseId>)
    requires KindsOk(kinds, tb, db, variables) && AssertionsListed(db, kinds, negatives, learnts)
    requires TrailOk(t, db, variables, level)
    requires forall i :: 0 <= i < |negatives| ==> IsTrue(t, Negative(negatives[i].0))
    requires forall i :: 0 <= i < |learnts| && |db[learnts[i]]| == 1 ==> IsTrue(t, db[learnts[i]][0])
    ensures UnitsTrue(t, db)
  {
    hide LevelsOk, ReasonsOk;
    forall c | 0 <= c < |db| && |db[c]| == 1 ensures IsTrue(t, db[c][0]) {
      if c == 0 {
        assert ClauseOk(kinds[0], tb, db[0], variables);
        TrailBounds(t, db, variables, level);
      } else {
        assert Listed(c, negatives, learnts);
      }
    }
  }

  lemma InVariables(c: Clause, l: Literal)
    requires l in c
    ensures l.variable in Variables(c)
  {
  }

  lemma AnalyzedTrail(t: Trail, db: seq<Clause>, variables: nat, level: nat)
    requires TrailOk(t, db, variables, level)
    ensures Wf(t) && LevelsOk(t) && TopLevel(t, level) && ReasonsOk(t, db)
    ensures forall i :: 0 <= i < |t.entries| ==> 1 <= t.entries[i].level <= level
  {
    TrailBounds(t, db, variables, level);
  }

  /** The first clause of the analysis: all its variables are assigned, and one is open. */
  lemma AnalysisStarts(t: Trail, db: seq<Clause>, variables: nat, level: nat, c: ClauseId, s: Analysis)
    requires TrailOk(t, db, variables, level) && c < |db| && Conflicting(t, level, db[c])
    requires AnalysisOk(t, level, |t.entries|, s) && s.seen == Variables(db[c])
    ensures s.causes > 0 && Entails(db, Elements([c]), Resolvent(t, level, |t.entries|, s.seen))
  {
    hide LevelsOk, ReasonsOk, ShapeOk, Entails, Resolvent;
    AnalyzedTrail(t, db, variables, level);
    StartResolution(t, level, db, c);
    assert Elements([c]) == {c};
    var l :| l in db[c] && LevelOf(t, l.variable) == level;
    assert IsFalse(t, l);
    InVariables(db[c], l);
    assert l.variable in Open(t, level, |t.entries|, s.seen);
  }

  lemma EmptyAnalysis(t: Trail, level: nat, k: nat)
    ensures AnalysisOk(t, level, k, EMPTY_ANALYSIS)
  {
    assert Open(t, level, k, {}) == {};
    assert Lower(t, level, {}) == {};
  }

  /** After an open entry is undone the count of causes is one less. */
  lemma AnalysisCloses(t: Trail, level: nat, k0: nat, k: nat, s: Analysis)
    requires Wf(t) && k < |t.entries| && t.entries[k].variable in s.seen && t.entries[k].level == level
    requires AnalysisOk(t, level, k0, s) && Open(t, level, k + 1, s.seen) == Open(t, level, k0, s.seen)
    ensures s.causes >= 1 && AnalysisOk(t, level, k, s.(causes := s.causes - 1))
  {
    hide Wf;
    CloseEntry(t, level, k, s.seen);
    var v := t.entries[k].variable;
    assert |Open(t, level, k + 1, s.seen)| == |Open(t, level, k, s.seen)| + 1;
  }

  /** The reason of a closed entry below which something is open: its other literals are still on the trail. */
  lemma ReasonIsBelow(t: Trail, db: seq<Clause>, variables: nat, level: nat, k: nat, seen: set<Var>)
    requires TrailOk(t, db, variables, level) && level >= 2 && k < |t.entries| && t.entries[k].level == level
    requires |Open(t, level, k, seen)| > 0
    ensures k >= 1 && t.entries[k - 1].level == level
    ensures 0 < t.entries[k].reason < |db| && IsReason(t, k, db[t.entries[k].reason])
    ensures forall l :: l in db[t.entries[k].reason] && l.variable != t.entries[k].variable ==>
              l.variable in t.pos && t.pos[l.variable] < k
  {
    hide LevelsOk, ReasonsOk, Wf, Open, IsReason, ShapeOk;
    AnalyzedTrail(t, db, variables, level);
    OpenIsBelow(t, level, k, seen);
    OpenMeansForced(t, level, k, seen, db);
    ReasonBounds(t, db, variables, level, k);
    ReasonLiteralsBelow(t, k, db[t.entries[k].reason]);
  }

  lemma ReasonBounds(t: Trail, db: seq<Clause>, variables: nat, level: nat, k: nat)
    requires ReasonsOk(t, db) && ShapeOk(t.entries, variables, level) && 0 < k < |t.entries|
    ensures 0 < t.entries[k].reason < |db|
  {
  }

  lemma ReasonLiteralsBelow(t: Trail, k: nat, c: Clause)
    requires k < |t.entries| && IsReason(t, k, c)
    ensures forall l :: l in c && l.variable != t.entries[k].variable ==> l.variable in t.pos && t.pos[l.variable] < k
  {
    forall l | l in c && l.variable != t.entries[k].variable ensures l.variable in t.pos && t.pos[l.variable] < k {
      assert FalseBefore(t, k, l);
    }
  }

  lemma AllAssigned(t: Trail, c: Clause)
    requires Wf(t) && AllFalse(t, c)
    ensures forall l :: l in c ==> l.variable in t.pos && t.pos[l.variable] < |t.entries|
  {
    forall l | l in c ensures l.variable in t.pos && t.pos[l.variable] < |t.entries| {
      assert IsFalse(t, l);
    }
  }

  lemma CausesAreOpen(t: Trail, level: nat, k: nat, s: Analysis)
    requires AnalysisOk(t, level, k, s)
    ensures |Open(t, level, k, s.seen)| == s.causes
    ensures s.learnt != [] ==> s.highest < |s.learnt|
    ensures forall v :: v in s.seen ==> Assigned(t, v)
  {
  }

  lemma ResolveStep(t: Trail, level: nat, db: seq<Clause>, why: seq<ClauseId>, k: nat, seen: set<Var>, s: Analysis)
    requires Wf(t) && TopLevel(t, level) && k < |t.entries|
    requires t.entries[k].reason < |db| && IsReason(t, k, db[t.entries[k].reason])
    requires Entails(db, Elements(why), Resolvent(t, level, k + 1, seen))
    requires AnalysisOk(t, level, k, s) && seen <= s.seen
    requires forall l :: l in db[t.entries[k].reason] && l.variable != t.entries[k].variable ==> l.variable in s.seen
    ensures Entails(db, Elements(why + [t.entries[k].reason]), Resolvent(t, level, k, s.seen))
    ensures s.causes >= |Open(t, level, k, seen)|
  {
    hide Wf, TopLevel, IsReason, Entails, Resolvent;
    CausesAreOpen(t, level, k, s);
    Resolve(t, level, db, Elements(why), k, seen, s.seen);
    assert Elements(why + [t.entries[k].reason]) == Elements(why) + {t.entries[k].reason};
    SmallerSubset(Open(t, level, k, seen), Open(t, level, k, s.seen));
  }

  lemma LearntKindsOk(kinds: seq<Kind>, tb: Tables, db: seq<Clause>, variables: nat, c: Clause)
    requires KindsOk(kinds, tb, db, variables) && |c| >= 1 && forall l :: l in c ==> l.variable < variables
    ensures KindsOk(kinds + [Learnt(|tb.learnts|)], tb.(learnts := tb.learnts + [c]), db + [c], variables)
  {
    var tb', kinds' := tb.(learnts := tb.learnts + [c]), kinds + [Learnt(|tb.learnts|)];
    forall d | 0 <= d < |kinds'| ensures ClauseOk(kinds'[d], tb', (db + [c])[d], variables) {
      if d < |kinds| {
        assert ClauseOk(kinds[d], tb, db[d], variables);
        LiteralsExtend(kinds[d], tb, c);
      }
    }
  }

  lemma LearntListed(db: seq<Clause>, kinds: seq<Kind>, c: Clause, k: Kind, negatives: seq<(Var, ClauseId)>,
                     learnts: seq<ClauseId>)
    requires |kinds| == |db| >= 1 && AssertionsListed(db, kinds, negatives, learnts) && k.Learnt?
    ensures AssertionsListed(db + [c], kinds + [k], negatives, learnts + [|db|])
  {
    var learnts' := learnts + [|db|];
    forall d | 0 < d < |db + [c]| && |(db + [c])[d]| == 1 ensures Listed(d, negatives, learnts') {
      if d < |db| {
        StillListed(d, negatives, negatives, learnts, learnts');
      } else {
        assert learnts'[|learnts|] == d;
      }
    }
  }

  /** The variables of a learnt clause are variables of the clauses it was learnt from. */
  lemma LearntVariables(t: Trail, t': Trail, db: seq<Clause>, variables: nat, level: nat, target: nat, c: Clause,
                        v: Var)
    requires TrailOk(t, db, variables, level) && t' == UpTo(t, target) && Asserting(t', target, c)
    requires v in t.pos && c[|c| - 1].variable == v
    ensures forall l :: l in c ==> l.variable < variables
  {
    hide LevelsOk, ReasonsOk;
    forall l | l in c ensures l.variable < variables {
      var i :| 0 <= i < |c| && c[i] == l;
      if i < |c| - 1 {
        assert IsFalse(t', c[i]);
        assert l.variable in t.pos;
      }
      assert t.entries[t.pos[l.variable]].variable == l.variable;
    }
  }

  /** Asserting the learnt literal after the jump keeps the trail in order. */
  lemma LearntKeepsTrail(t: Trail, db: seq<Clause>, variables: nat, level: nat, target: nat, c: Clause)
    requires TrailOk(t, db, variables, level) && 1 <= target < level
    requires Asserting(UpTo(t, target), target, c) && c[|c| - 1].variable < variables
    requires |db| > 0
    ensures var u := UpTo(t, target);
      var l := c[|c| - 1];
      && TrailOk(u, db + [c], variables, target) && l.variable !in u.pos
      && TrailOk(Push(u, Entry(l.variable, !l.negate, target, |db|)), db + [c], variables, target)
  {
    hide LevelsOk, ReasonsOk, ShapeOk, UpTo, LevelOf;
    var u, l := UpTo(t, target), c[|c| - 1];
    BackjumpKeepsTrail(t, db, variables, level, target);
    ReasonsExtend(u, db, [c]);
    forall m | m in c && m != l ensures IsFalse(u, m) {
      var i :| 0 <= i < |c| && c[i] == m;
    }
    assert (db + [c])[|db|] == c;
    hide Wf, IsFalse, Asserting;
    ForcedKeepsTrail(u, db + [c], variables, target, l, |db|);
  }

  lemma LearntKeepsUnits(t: Trail, db: seq<Clause>, variables: nat, level: nat, target: nat, c: Clause)
    requires TrailOk(t, db, variables, level) && 1 <= target < level && UnitsOk(t, db, level)
    requires Asserting(UpTo(t, target), target, c)
    ensures UnitsOk(UpTo(t, target), db + [c], target)
  {
    hide LevelsOk, ReasonsOk, ShapeOk, UpTo, Wf, UnitOk;
    BackjumpKeepsUnits(t, db, level, target);
    forall d | target >= 2 && 0 <= d < |db + [c]| &&
    |(db + [c])[d]| == 1 ensures UnitOk(UpTo(t, target), (db + [c])[d]) {
      assert d < |db|;
    }
  }

  /** The two first watches of a learnt clause are in order once its last literal is true. */
  lemma LearntKeepsWatches(t: Trail, target: nat, c: Clause, e: Entry, ws: Watches, w: Option<WatchedLiterals>)
    requires Wf(t) && WatchesOk(t, |t.entries|, ws) && Asserting(t, target, c)
    requires e.variable !in t.pos && e.TrueLiteral() == c[|c| - 1] && e.level == target
    requires if |c| == 1 then w == None else w.Some? && w.value.first == c[0] && w.value.second == c[|c| - 1]
    ensures WatchesOk(Push(t, e), |t.entries|, ws + [w])
  {
    PushKeepsWf(t, e);
    ExtendsKeepsWatches(t, Push(t, e), |t.entries|, ws);
    if |c| > 1 {
      assert LevelOf(Push(t, e), c[0].variable) == target;
    }
  }

  lemma LearntBelow(u: Trail, e: Entry, target: nat)
    requires e.level == target >= 1
    ensures Below(Push(u, e), target) <= |u.entries|
  {
    assert Push(u, e).entries[|u.entries|] == e;
  }

  /** Learning makes the trail heavier, whatever was undone. */
  lemma LearningGains(t: Trail, db: seq<Clause>, variables: nat, level: nat, target: nat, e: Entry)
    requires TrailOk(t, db, variables, level) && 1 <= target < level && e.level == target
    ensures Weight(t.entries, variables) < Weight(Push(UpTo(t, target), e).entries, variables)
  {
    hide ReasonsOk, Wf, LevelsOk, ShapeOk, Weight, CountUpTo;
    TrailBounds(t, db, variables, level);
    AboveCount(t, target);
    var n := CountUpTo(t.entries, target);
    assert t.entries == t.entries[..n] + t.entries[n..];
    BackjumpGains(t.entries[..n], t.entries[n..], e, variables);
  }

  lemma AboveCount(t: Trail, target: nat)
    requires LevelsOk(t)
    ensures forall i :: CountUpTo(t.entries, target) <= i < |t.entries| ==> t.entries[i].level > target
  {
    var n := CountUpTo(t.entries, target);
    forall i | n <= i < |t.entries| ensures t.entries[i].level > target {
      assert t.entries[n].level <= t.entries[i].level;
    }
  }

  /** Clauses are only ever added. */
  ghost predicate Grows(kinds: seq<Kind>, kinds': seq<Kind>, db: seq<Clause>, db': seq<Clause>) {
    && |kinds| <= |kinds'| && kinds'[..|kinds|] == kinds && (forall c :: |kinds| <= c < |kinds'| ==> kinds'[c].Learnt?)
    && |db| <= |db'| && db'[..|db|] == db && NoNewLiterals(db, db')
  }

  /** After a jump every decision that is left still names its literal. */
  lemma JumpKeepsOpeners(t: Trail, t': Trail, target: nat, db: seq<Clause>, db': seq<Clause>)
    requires OpenersOk(t, db) && |db'| == |db| + 1 && db'[..|db|] == db && JumpsTo(t, t', target, db', |db|)
    ensures OpenersOk(t', db')
  {
    hide OpenersOk;
    var c := db'[|db|];
    assert db' == db + [c];
    PrefixKeepsOpeners(t, CountUpTo(t.entries, target), db, [c]);
    PushKeepsOpeners(UpTo(t, target), Entry(c[|c| - 1].variable, !c[|c| - 1].negate, target, |db|), db');
  }

  /** The trail went back to the target level, where the learnt clause forces its last literal. */
  ghost predicate JumpsTo(t: Trail, t': Trail, target: nat, db: seq<Clause>, id: ClauseId) {
    id < |db| && db[id] != [] &&
    var l := db[id][|db[id]| - 1];
    t' == Push(UpTo(t, target), Entry(l.variable, !l.negate, target, id))
  }

  lemma Jumped(t: Trail, t': Trail, target: nat, db: seq<Clause>, id: ClauseId)
    requires id < |db| && db[id] != []
    requires var l := db[id][|db[id]| - 1]; t' == Push(UpTo(t, target), Entry(l.variable, !l.negate, target, id))
    ensures JumpsTo(t, t', target, db, id)
  {
  }

  lemma AssertingShape(t: Trail, level: nat, c: Clause)
    requires Asserting(t, level, c)
    ensures |c| >= 1 && (|c| > 1 ==> c[0] != c[|c| - 1])
  {
  }

  lemma HighestIsLearnt(t: Trail, level: nat, k: nat, s: Analysis)
    requires AnalysisOk(t, level, k, s)
    ensures s.learnt != [] ==> s.highest < |s.learnt|
  {
  }

  lemma LastOfFinish(s: Analysis, last: Literal)
    requires s.learnt != [] ==> s.highest < |s.learnt|
    ensures |Finish(s, last)| >= 1 && Finish(s, last)[|Finish(s, last)| - 1] == last
  {
  }

  lemma OnTrailAt(t: Trail, k: nat)
    requires Wf(t) && k < |t.entries|
    ensures t.entries[k].variable in t.pos
  {
  }

  lemma FitsExtend(db: seq<Clause>, ws: Watches, c: Clause, ws': Watches)
    requires WatchesFit(db, ws) && |ws'| == |ws| + 1 && ws'[..|ws|] == ws && FitsClause(c, ws'[|ws|])
    ensures WatchesFit(db + [c], ws')
  {
    forall d | 0 <= d < |db + [c]| ensures FitsClause((db + [c])[d], ws'[d]) {
      if d < |db| {
        assert ws'[d] == ws[d] && FitsClause(db[d], ws[d]);
      }
    }
  }

  /** A jump below the current level keeps the watches, since everything below it is propagated. */
  lemma JumpKeepsWatches(t: Trail, level: nat, target: nat, ws: Watches)
    requires Wf(t) && LevelsOk(t) && WatchesOk(t, Below(t, level), ws) && 1 <= target < level
    ensures WatchesOk(UpTo(t, target), |UpTo(t, target).entries|, ws)
  {
    hide Wf, WatchesOk;
    assert CountUpTo(t.entries, target) <= Below(t, level);
    BackjumpKeepsWatches(t, target, Below(t, level), ws);
  }

  lemma KindsAt(kinds: seq<Kind>, tb: Tables, db: seq<Clause>, variables: nat, c: ClauseId)
    requires KindsOk(kinds, tb, db, variables) && c < |kinds|
    ensures c < |db| && db[c] == Literals(kinds[c], tb)
  {
    assert ClauseOk(kinds[c], tb, db[c], variables);
  }

  /** The root is the first entry of the trail and no other. */
  lemma RootIsFirst(t: Trail, db: seq<Clause>, variables: nat, i: nat)
    requires TrailOk(t, db, variables, 1) && i < |t.entries|
    ensures t.entries[i].variable == ROOT <==> i == 0
  {
    hide LevelsOk, ReasonsOk;
  }

  lemma ExtendsWeighsMore(t: Trail, t': Trail, variables: nat)
    requires Extends(t, t')
    ensures Weight(t.entries, variables) <= Weight(t'.entries, variables)
  {
    PrefixWeighsLess(t.entries, t'.entries, variables);
  }

  lemma SteadyKeepsOpeners(t: Trail, t': Trail, db: seq<Clause>, variables: nat, level: nat)
    requires TrailOk(t, db, variables, level) && TrailOk(t', db, variables, level) && Extends(t, t') && OpenersOk(t, db)
    ensures OpenersOk(t', db)
  {
    hide Wf, ReasonsOk, OpenersOk, Extends;
    ExtendsKeepsOpeners(t, t', db);
  }

  lemma EligibleRequires(t: Trail, tb: Tables, k: Kind)
    requires Eligible(t, tb, k)
    ensures k.Requires?
  {
  }

  lemma GrownBy(kinds: seq<Kind>, kinds': seq<Kind>, db: seq<Clause>, db': seq<Clause>)
    requires Grows(kinds, kinds', db, db')
    ensures |db| <= |db'| && db'[..|db|] == db
  {
  }

  /** A finished search leaves no clause it was given unit or falsified, and made true only what they name
      positively. */
  lemma SolvedIsSupported(t: Trail, kinds': seq<Kind>, db': seq<Clause>, variables: nat, level: nat, kinds: seq<Kind>,
                          db: seq<Clause>)
    requires TrailOk(t, db', variables, level) && OpenersOk(t, db') && Grows(kinds, kinds', db, db')
    requires forall c :: 0 <= c < |db'| ==> Settled(t, db'[c])
    ensures Wf(t) && Supported(t, db) && forall c :: 0 <= c < |db| ==> Settled(t, db[c])
  {
    hide OpenersOk, NoNewLiterals, LevelsOk, ReasonsOk, ShapeOk, Wf, Supported, Settled;
    TrailIsSupported(t, db', db);
    forall c | 0 <= c < |db| ensures Settled(t, db[c]) {
      assert db'[..|db|][c] == db'[c];
    }
  }

  /** The root is the literal of the first clause. */
  lemma RootOpens(kinds: seq<Kind>, tb: Tables, db: seq<Clause>, variables: nat)
    requires KindsOk(kinds, tb, db, variables)
    ensures OpenersOk(Push(EMPTY_TRAIL, Entry(ROOT, true, 1, INSTALL_ROOT)), db)
  {
    assert ClauseOk(kinds[0], tb, db[0], variables);
  }

  /** A candidate is a literal of the clause it is decided from. */
  lemma CandidateOpens(t: Trail, kinds: seq<Kind>, tb: Tables, db: seq<Clause>, variables: nat, level: nat, v: Var,
                       c: ClauseId)
    requires KindsOk(kinds, tb, db, variables) && OpenersOk(t, db) && c < |db| && c < |kinds| && kinds[c].Requires?
    requires v in CandidatesOf(tb, kinds[c].requirement)
    ensures OpenersOk(Push(t, Entry(v, true, level, c)), db)
  {
    hide OpenersOk, Literals, CandidatesOf;
    assert ClauseOk(kinds[c], tb, db[c], variables);
    RequiresLiterals(kinds[c], tb, Positive(v));
    PushKeepsOpeners(t, Entry(v, true, level, c), db);
  }

  lemma TrailFits(t: Trail, db: seq<Clause>, variables: nat, level: nat)
    requires TrailOk(t, db, variables, level)
    ensures Weight(t.entries, variables) <= Budget(variables)
  {
    TrailBounds(t, db, variables, level);
    WeightBounded(t.entries, variables);
  }

  /** A clause that is eligible, yet neither unit nor falsified, has an undecided candidate. */
  lemma EligibleHasCandidate(t: Trail, tb: Tables, kinds: seq<Kind>, db: seq<Clause>, variables: nat, c: ClauseId)
    requires KindsOk(kinds, tb, db, variables) && c < |db| && Eligible(t, tb, kinds[c]) && Settled(t, db[c])
    ensures 0 < c
    ensures forall v :: v in CandidatesOf(tb, kinds[c].requirement) ==> v < variables
    ensures exists v :: v in CandidatesOf(tb, kinds[c].requirement) && !Assigned(t, v)
  {
    assert ClauseOk(kinds[c], tb, db[c], variables);
    var k := kinds[c];
    forall l ensures l in db[c] <==> l == Negative(k.parent) || l in ConditionOf(tb, k.condition)
                                     || (!l.negate && l.variable in CandidatesOf(tb, k.requirement)) {
      RequiresLiterals(k, tb, l);
    }
    forall v | v in CandidatesOf(tb, k.requirement) ensures v < variables {
      assert Positive(v) in db[c];
    }
    forall l | l in db[c] ensures !IsTrue(t, l) &&
    (Assigned(t, l.variable) || l.variable in CandidatesOf(tb, k.requirement)) {
      assert !l.negate ==> l == Positive(l.variable);
    }
    var l, m :| l in db[c] && m in db[c] && l != m && !Assigned(t, l.variable) && !Assigned(t, m.variable);
  }

  /** The trail of a search that has just installed the root. */
  lemma RootTrail(db: seq<Clause>, variables: nat, ws: Watches)
    requires variables >= 1 && |db| >= 1
    ensures var t := Push(EMPTY_TRAIL, Entry(ROOT, true, 1, INSTALL_ROOT));
      TrailOk(t, db, variables, 1) && UnitsOk(t, db, 1) && WatchesOk(t, 0, ws) && Below(t, 1) == 0
  {
    hide Wf, ReasonsOk, LevelsOk, ShapeOk, Below, WatchesOk;
    var e := Entry(ROOT, true, 1, INSTALL_ROOT);
    EmptyTrailOk(db);
    PushKeepsWf(EMPTY_TRAIL, e);
    PushKeepsReasons(EMPTY_TRAIL, e, db);
    PushKeepsLevels(EMPTY_TRAIL, e);
    LearntBelow(EMPTY_TRAIL, e, 1);
    RootShape(variables);
    NothingPropagated(Push(EMPTY_TRAIL, e), ws);
  }

  lemma EmptyTrailOk(db: seq<Clause>)
    ensures Wf(EMPTY_TRAIL) && ReasonsOk(EMPTY_TRAIL, db) && LevelsOk(EMPTY_TRAIL)
  {
  }

  lemma RootShape(variables: nat)
    requires variables >= 1
    ensures ShapeOk([] + [Entry(ROOT, true, 1, INSTALL_ROOT)], variables, 1)
  {
  }

  lemma NothingPropagated(t: Trail, ws: Watches)
    ensures WatchesOk(t, 0, ws)
  {
  }

  /** A decision taken when everything is propagated keeps the search in order, one level up. */
  lemma DecisionSteps(t: Trail, db: seq<Clause>, variables: nat, level: nat, ws: Watches, v: Var, c: ClauseId)
    requires TrailOk(t, db, variables, level) && UnitsOk(t, db, level) && UnitsTrue(t, db) &&
             WatchesOk(t, |t.entries|, ws)
    requires 0 < c < |db| && v !in t.pos && v < variables
    ensures var t' := Push(t, Entry(v, true, level + 1, c));
      && TrailOk(t', db, variables, level + 1) && UnitsOk(t', db, level + 1) && WatchesOk(t', |t.entries|, ws)
      && Below(t', level + 1) <= |t.entries| && Weight(t.entries, variables) < Weight(t'.entries, variables)
      && level + 1 <= variables
  {
    hide LevelsOk, ReasonsOk, ShapeOk, Wf, WatchesOk, Weight, Below, UnitsOk;
    var e := Entry(v, true, level + 1, c);
    DecisionKeepsTrail(t, db, variables, level, v, c);
    TrailBounds(Push(t, e), db, variables, level + 1);
    ExtendsKeepsWatches(t, Push(t, e), |t.entries|, ws);
    LearntBelow(t, e, level + 1);
    PushGains(t.entries, e, variables);
    DecisionKeepsUnits(t, db, variables, level, e);
  }

  lemma DecisionKeepsUnits(t: Trail, db: seq<Clause>, variables: nat, level: nat, e: Entry)
    requires TrailOk(t, db, variables, level) && UnitsOk(t, db, level) && UnitsTrue(t, db) && e.variable !in t.pos
    ensures UnitsOk(Push(t, e), db, level + 1)
  {
    hide LevelsOk, ReasonsOk, ShapeOk;
    TrailBounds(t, db, variables, level);
    PushKeepsWf(t, e);
    forall c | 0 <= c < |db| && |db[c]| == 1 ensures UnitOk(Push(t, e), db[c]) {
      assert IsTrue(t, db[c][0]);
      assert level >= 2 ==> UnitOk(t, db[c]);
    }
  }

  /** A finished propagation leaves no clause unit or falsified. */
  lemma AllSettled(t: Trail, db: seq<Clause>, ws: Watches)
    requires Wf(t) && WatchesFit(db, ws) && WatchesOk(t, |t.entries|, ws) && UnitsTrue(t, db)
    ensures forall c :: 0 <= c < |db| ==> Settled(t, db[c])
  {
    hide Wf, WatchesFit, WatchesOk, Settled;
    forall c | 0 <= c < |db| ensures Settled(t, db[c]) {
      PropagatedIsSettled(t, db, ws, c);
    }
  }

  lemma GrowsThen(kinds: seq<Kind>, kinds': seq<Kind>, kinds'': seq<Kind>, db: seq<Clause>, db': seq<Clause>,
                  db'': seq<Clause>)
    requires Grows(kinds, kinds', db, db') && Grows(kinds', kinds'', db', db'')
    ensures Grows(kinds, kinds'', db, db'')
  {
    hide NoNewLiterals;
    NoNewThen(db, db', db'');
    assert kinds''[..|kinds|] == kinds'[..|kinds|];
    assert db''[..|db|] == db'[..|db|];
    forall c | |kinds| <= c < |kinds''| ensures kinds''[c].Learnt? {
      if c < |kinds'| {
        assert kinds''[c] == kinds'[c];
      }
    }
  }

  /** A core of original clauses refutes the original problem. */
  lemma CoreOfOriginals(kinds: seq<Kind>, kinds': seq<Kind>, db: seq<Clause>, db': seq<Clause>, core: seq<ClauseId>)
    requires |kinds| == |db| && Grows(kinds, kinds', db, db') && CoreOk(kinds', core) && Refutes(db', Elements(core))
    ensures CoreOk(kinds, core) && Refutes(db, Elements(core))
  {
    forall i | 0 <= i < |core| ensures 0 < core[i] < |kinds| && kinds[core[i]] == kinds'[core[i]] {
      assert kinds'[..|kinds|][0..] == kinds;
    }
    forall a: Assignment | ROOT in a ensures !SatisfiesAll(a, db, Elements(core)) {
      var id :| id in Elements(core) && id < |db'| && !Satisfies(a, db'[id]);
      assert db'[id] == db[id];
    }
  }

  lemma GrowsNothing(kinds: seq<Kind>, db: seq<Clause>)
    ensures Grows(kinds, kinds, db, db)
  {
    hide NoNewLiterals;
    NoNewInSame(db);
  }

  lemma WaitingIgnoresLearnts(t: Trail, tb: Tables, tb': Tables, k: Kind)
    requires tb' == tb.(learnts := tb'.learnts)
    ensures Waiting(t, tb', k) == Waiting(t, tb, k)
  {
    if k.Requires? {
      assert ConditionOf(tb', k.condition) == ConditionOf(tb, k.condition);
      assert CandidatesOf(tb', k.requirement) == CandidatesOf(tb, k.requirement);
    }
  }

  /** Some assignment that installs the root satisfies every clause. */
  ghost predicate Satisfiable(db: seq<Clause>) {
    exists a: Assignment :: ROOT in a && forall c :: 0 <= c < |db| ==> Satisfies(a, db[c])
  }

  /** No condition mentions the candidates that do not match it. */
  ghost predicate NoComplements(kinds: seq<Kind>, tb: Tables) {
    forall k :: k in kinds && k.Requires? ==> forall l :: l in ConditionOf(tb, k.condition) ==> l.negate
  }

  /** What a search that stopped on trail `t` has found out about the clauses it was given: its completion
      satisfies exactly the clauses that are not waiting, and all of them if no condition has a complement. */
  ghost predicate Answers(t: Trail, tb: Tables, kinds: seq<Kind>, db: seq<Clause>)
    requires |kinds| == |db|
  {
    && ROOT in Completion(t)
    && (forall c :: 0 <= c < |db| && !kinds[c].Learnt? ==>
          (Satisfies(Completion(t), db[c]) <==> !Waiting(t, tb, kinds[c])))
    && (NoComplements(kinds, tb) ==> forall c :: 0 <= c < |db| ==> Satisfies(Completion(t), db[c]))
  }

  /** The verdict of a finished search, in terms of the clauses it was given. */
  lemma SolvedIsModel(t: Trail, tb': Tables, kinds': seq<Kind>, db': seq<Clause>, whys: seq<seq<ClauseId>>,
                      variables: nat, level: nat,
                      tb: Tables, kinds: seq<Kind>, db: seq<Clause>)
    requires TrailOk(t, db', variables, level) && KindsOk(kinds', tb', db', variables) && |kinds'| == |db'| &&
             Finished(t, tb', kinds', db')
    requires WhysOk(db', kinds', whys)
    requires |kinds| == |db| && Grows(kinds, kinds', db, db') && tb' == tb.(learnts := tb'.learnts)
    ensures Answers(t, tb, kinds, db)
  {
    hide LevelsOk, ReasonsOk, Finished, Waiting, Satisfies, KindsOk, NoComplements, WhysOk;
    TrailBounds(t, db', variables, level);
    assert IsTrue(t, Positive(ROOT));
    forall c | 0 <= c < |db|
      ensures kinds'[c] == kinds[c] && db'[c] == db[c] && Waiting(t, tb', kinds'[c]) == Waiting(t, tb, kinds[c])
      ensures !kinds[c].Learnt? ==> (Satisfies(Completion(t), db[c]) <==> !Waiting(t, tb, kinds[c]))
    {
      assert kinds'[c] == kinds[c] && db'[c] == db[c];
      WaitingIgnoresLearnts(t, tb, tb', kinds[c]);
      if !kinds[c].Learnt? {
        OriginalsHold(t, tb', kinds', db', variables, c);
      }
    }
    if NoComplements(kinds, tb) {
      forall c | 0 <= c < |db'| ensures !Waiting(t, tb', kinds'[c]) {
        if c < |db| {
          NoComplementsAt(t, kinds, tb, c);
        } else {
          NoComplementNoWaiting(t, tb', kinds'[c]);
        }
      }
      FinishedIsModel(t, tb', kinds', db', whys, variables);
    }
  }

  lemma NoComplementsAt(t: Trail, kinds: seq<Kind>, tb: Tables, c: ClauseId)
    requires NoComplements(kinds, tb) && c < |kinds|
    ensures !Waiting(t, tb, kinds[c])
  {
    assert kinds[c] in kinds;
    NoComplementNoWaiting(t, tb, kinds[c]);
  }

  /** A core that refutes the clauses leaves no assignment to find. */
  lemma RefutedIsUnsatisfiable(db: seq<Clause>, core: set<ClauseId>)
    requires Refutes(db, core)
    ensures !Satisfiable(db)
  {
    forall a: Assignment | ROOT in a ensures exists c :: 0 <= c < |db| && !Satisfies(a, db[c]) {
      var c :| c in core && c < |db| && !Satisfies(a, db[c]);
    }
  }

  lemma AnsweredIsSatisfiable(t: Trail, tb: Tables, kinds: seq<Kind>, db: seq<Clause>)
    requires |kinds| == |db| && NoComplements(kinds, tb) && Answers(t, tb, kinds, db)
    ensures Satisfiable(db)
  {
    assert ROOT in Completion(t) && forall c :: 0 <= c < |db| ==> Satisfies(Completion(t), db[c]);
  }
}
