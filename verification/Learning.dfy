/**
 Conflict analysis by resolution.  The trail is walked backwards from a falsified clause;
 every variable seen at the conflict's level is resolved on, except the last, which
 together with the seen variables of lower levels forms the learnt clause.
 */
module Learning {
  import opened Sat
  import opened Trails

  /** What the analysis has gathered so far. */
  datatype Analysis = Analysis(
    seen: set<Var>, causes: nat, learnt: seq<Literal>, backTrackTo: nat, highest: nat)

  const EMPTY_ANALYSIS := Analysis({}, 0, [], 0, 0)

  /** The literal of an assigned variable that the trail makes false. */
  ghost function FalseLit(t: Trail, v: Var): Literal {
    Literal(v, Assigned(t, v) && t.entries[t.pos[v]].value)
  }

  /** The seen variables of the conflict's level that are still on the first `k` entries. */
  ghost function Open(t: Trail, level: nat, k: nat, seen: set<Var>): set<Var> {
    set v | v in seen && Assigned(t, v) && t.pos[v] < k && LevelOf(t, v) == level
  }

  ghost function Lower(t: Trail, level: nat, seen: set<Var>): set<Var> {
    set v | v in seen && LevelOf(t, v) < level
  }

  /** The clause derived so far. */
  ghost function Resolvent(t: Trail, level: nat, k: nat, seen: set<Var>): set<Literal> {
    set v | v in Open(t, level, k, seen) + Lower(t, level, seen) :: FalseLit(t, v)
  }

  ghost function Variables(c: Clause): set<Var> { set l | l in c :: l.variable }

  /** All literals false, one of them at the given level: what analysis starts from. */
  ghost predicate Conflicting(t: Trail, level: nat, c: Clause) {
    AllFalse(t, c) && exists l :: l in c && LevelOf(t, l.variable) == level
  }

  /** No entry is above the level. */
  ghost predicate TopLevel(t: Trail, level: nat) {
    forall i :: 0 <= i < |t.entries| ==> t.entries[i].level <= level
  }

  lemma StartResolution(t: Trail, level: nat, db: seq<Clause>, id: ClauseId)
    requires Wf(t) && TopLevel(t, level) && id < |db| && AllFalse(t, db[id])
    ensures Entails(db, {id}, Resolvent(t, level, |t.entries|, Variables(db[id])))
  {
    var seen := Variables(db[id]);
    forall a: Assignment | SatisfiesAll(a, db, {id})
      ensures exists l :: l in Resolvent(t, level, |t.entries|, seen) && Holds(a, l)
    {
      assert Satisfies(a, db[id]);
      var l :| l in db[id] && Holds(a, l);
      assert IsFalse(t, l) && l.variable in seen;
      assert FalseLit(t, l.variable) == l;
      InResolvent(t, level, |t.entries|, seen, l.variable);
    }
  }

  lemma InResolvent(t: Trail, level: nat, k: nat, seen: set<Var>, v: Var)
    requires Wf(t) && TopLevel(t, level) && v in seen && Assigned(t, v)
    requires t.pos[v] < k || LevelOf(t, v) < level
    ensures FalseLit(t, v) in Resolvent(t, level, k, seen)
  {
    assert t.entries[t.pos[v]].level <= level;
    assert v in Open(t, level, k, seen) + Lower(t, level, seen);
  }

  /** Resolving on entry `k`, which its reason forced, keeps the derived clause entailed. */
  lemma Resolve(t: Trail, level: nat, db: seq<Clause>, why: set<ClauseId>, k: nat, seen: set<Var>, seen': set<Var>)
    requires Wf(t) && TopLevel(t, level) && k < |t.entries|
    requires t.entries[k].reason < |db| && IsReason(t, k, db[t.entries[k].reason])
    requires Entails(db, why, Resolvent(t, level, k + 1, seen))
    requires forall v :: v in seen ==> Assigned(t, v)
    requires seen <= seen'
    requires forall l :: l in db[t.entries[k].reason] && l.variable != t.entries[k].variable ==> l.variable in seen'
    ensures Entails(db, why + {t.entries[k].reason}, Resolvent(t, level, k, seen'))
  {
    var e := t.entries[k];
    forall a: Assignment | SatisfiesAll(a, db, why + {e.reason})
      ensures exists l :: l in Resolvent(t, level, k, seen') && Holds(a, l)
    {
      assert SatisfiesAll(a, db, why);
      var l :| l in Resolvent(t, level, k + 1, seen) && Holds(a, l);
      var v :| v in Open(t, level, k + 1, seen) + Lower(t, level, seen) && l == FalseLit(t, v);
      if v != e.variable {
        InResolvent(t, level, k, seen', v);
      } else {
        ResolveOn(t, level, db[e.reason], k, seen', a);
      }
    }
  }

  lemma ResolveOn(t: Trail, level: nat, c: Clause, k: nat, seen': set<Var>, a: Assignment)
    requires Wf(t) && TopLevel(t, level) && k < |t.entries| && IsReason(t, k, c)
    requires forall l :: l in c && l.variable != t.entries[k].variable ==> l.variable in seen'
    requires Satisfies(a, c) && Holds(a, t.entries[k].FalseLiteral())
    ensures exists l :: l in Resolvent(t, level, k, seen') && Holds(a, l)
  {
    var m :| m in c && Holds(a, m);
    assert m != t.entries[k].TrueLiteral();
    assert FalseBefore(t, k, m);
    assert FalseLit(t, m.variable) == m;
    InResolvent(t, level, k, seen', m.variable);
  }

  /** Passing an entry that was not seen changes nothing. */
  lemma SkipEntry(t: Trail, level: nat, k: nat, seen: set<Var>)
    requires Wf(t) && k < |t.entries| && t.entries[k].variable !in seen
    ensures Open(t, level, k, seen) == Open(t, level, k + 1, seen)
    ensures Resolvent(t, level, k, seen) == Resolvent(t, level, k + 1, seen)
  {
  }

  /** Passing a seen entry of the level closes it. */
  lemma CloseEntry(t: Trail, level: nat, k: nat, seen: set<Var>)
    requires Wf(t) && k < |t.entries| && t.entries[k].variable in seen && t.entries[k].level == level
    ensures t.entries[k].variable in Open(t, level, k + 1, seen)
    ensures Open(t, level, k, seen) == Open(t, level, k + 1, seen) - {t.entries[k].variable}
  {
  }

  /** While something is open there is an entry to go back to, and it lies above the first entry of the trail. */
  lemma OpenIsBelow(t: Trail, level: nat, k: nat, seen: set<Var>)
    requires Wf(t) && LevelsOk(t) && TopLevel(t, level) && k <= |t.entries| && level >= 2
    requires |Open(t, level, k, seen)| > 0
    ensures k >= 2 && t.entries[k - 1].level == level
  {
    var v :| v in Open(t, level, k, seen);
    assert t.entries[t.pos[v]].level == level;
    assert t.entries[t.pos[v]].level <= t.entries[k - 1].level <= level;
    assert t.pos[v] != 0;
  }

  /** An open variable below entry `k` shows that entry `k` does not open the level, so its clause forced it. */
  lemma OpenMeansForced(t: Trail, level: nat, k: nat, seen: set<Var>, db: seq<Clause>)
    requires Wf(t) && LevelsOk(t) && TopLevel(t, level) && k < |t.entries| && level >= 2 && ReasonsOk(t, db)
    requires t.entries[k].level == level && |Open(t, level, k, seen)| > 0
    ensures t.entries[k - 1].level == level && IsReason(t, k, db[t.entries[k].reason])
  {
    OpenIsBelow(t, level, k, seen);
    assert !OpensLevel(t, k);
  }

  /** The bookkeeping of the analysis agrees with what it has seen. */
  ghost predicate AnalysisOk(t: Trail, level: nat, k: nat, s: Analysis) {
    && (forall v :: v in s.seen ==> Assigned(t, v))
    && s.causes == |Open(t, level, k, s.seen)|
    && LearntOk(t, level, s)
  }

  ghost predicate LearntOk(t: Trail, level: nat, s: Analysis) {
    && (forall i, j :: 0 <= i < j < |s.learnt| ==> s.learnt[i].variable != s.learnt[j].variable)
    && (forall i :: 0 <= i < |s.learnt| ==>
          s.learnt[i].variable in Lower(t, level, s.seen) && s.learnt[i] == FalseLit(t, s.learnt[i].variable))
    && (forall v :: v in Lower(t, level, s.seen) ==> FalseLit(t, v) in s.learnt)
    && (forall i :: 0 <= i < |s.learnt| ==> LevelOf(t, s.learnt[i].variable) <= s.backTrackTo)
    && (if s.learnt == [] then s.backTrackTo == 0 else
          s.highest < |s.learnt| && LevelOf(t, s.learnt[s.highest].variable) == s.backTrackTo >= 1)
  }

  /** One more variable of the conflict's level. */
  lemma SeeOpen(t: Trail, level: nat, k: nat, s: Analysis, v: Var)
    requires AnalysisOk(t, level, k, s) && v !in s.seen && Assigned(t, v) && t.pos[v] < k && LevelOf(t, v) == level
    ensures AnalysisOk(t, level, k, s.(seen := s.seen + {v}, causes := s.causes + 1))
  {
    hide LearntOk;
    var s' := s.(seen := s.seen + {v}, causes := s.causes + 1);
    assert Open(t, level, k, s'.seen) == Open(t, level, k, s.seen) + {v};
    LearntIgnoresLevel(t, level, s, s', v);
  }

  lemma LearntIgnoresLevel(t: Trail, level: nat, s: Analysis, s': Analysis, v: Var)
    requires LearntOk(t, level, s) && LevelOf(t, v) == level
    requires s' == s.(seen := s.seen + {v}, causes := s'.causes)
    ensures LearntOk(t, level, s')
  {
    hide LevelOf;
    assert Lower(t, level, s'.seen) == Lower(t, level, s.seen);
  }

  function AddLearnt(s: Analysis, l: Literal, level: nat): Analysis {
    var s1 := s.(seen := s.seen + {l.variable}, learnt := s.learnt + [l]);
    if level > s.backTrackTo then s1.(backTrackTo := level, highest := |s.learnt|) else s1
  }

  /** One more variable of a lower level, which joins the learnt clause. */
  lemma SeeLower(t: Trail, level: nat, k: nat, s: Analysis, v: Var)
    requires AnalysisOk(t, level, k, s) && v !in s.seen && Assigned(t, v) && 1 <= LevelOf(t, v) < level
    ensures AnalysisOk(t, level, k, AddLearnt(s, FalseLit(t, v), LevelOf(t, v)))
  {
    var s' := AddLearnt(s, FalseLit(t, v), LevelOf(t, v));
    AddLearntOk(t, level, s, v);
    assert Open(t, level, k, s'.seen) == Open(t, level, k, s.seen);
  }

  lemma AddLearntOk(t: Trail, level: nat, s: Analysis, v: Var)
    requires LearntOk(t, level, s) && v !in s.seen && Assigned(t, v) && 1 <= LevelOf(t, v) < level
    ensures LearntOk(t, level, AddLearnt(s, FalseLit(t, v), LevelOf(t, v)))
  {
    hide LevelOf;
    var s' := AddLearnt(s, FalseLit(t, v), LevelOf(t, v));
    assert Lower(t, level, s'.seen) == Lower(t, level, s.seen) + {v};
    forall i | 0 <= i < |s'.learnt|
      ensures s'.learnt[i].variable in Lower(t, level, s'.seen) && s'.learnt[i] == FalseLit(t, s'.learnt[i].variable)
      ensures i < |s.learnt| ==> s'.learnt[i].variable != v
    {
    }
    forall w | w in Lower(t, level, s'.seen) ensures FalseLit(t, w) in s'.learnt {
      assert s'.learnt[|s.learnt|] == FalseLit(t, v);
      assert w != v ==> FalseLit(t, w) in s.learnt;
    }
  }

  function Swap<T>(s: seq<T>, i: nat, j: nat): seq<T>
    requires i < |s| && j < |s|
  {
    s[i := s[j]][j := s[i]]
  }

  /** The learnt clause: the highest of the lower literals first, the asserting literal last. */
  function Finish(s: Analysis, last: Literal): Clause
    requires s.learnt != [] ==> s.highest < |s.learnt|
  {
    (if s.learnt == [] then [] else Swap(s.learnt, 0, s.highest)) + [last]
  }

  /** The level to jump back to, at least the root level. */
  function Target(s: Analysis): nat { if s.backTrackTo > 1 then s.backTrackTo else 1 }

  /** After the jump every literal but the last is false, the first at exactly the level
      jumped to, and the last is unassigned; a single literal is asserted at level one. */
  ghost predicate Asserting(t: Trail, level: nat, c: Clause) {
    && |c| >= 1
    && !Assigned(t, c[|c| - 1].variable)
    && (forall i :: 0 <= i < |c| - 1 ==> IsFalse(t, c[i]))
    && (if |c| == 1 then level == 1 else LevelOf(t, c[0].variable) == level && c[0] != c[|c| - 1])
  }

  lemma FinishElements(t: Trail, level: nat, k: nat, s: Analysis)
    requires Wf(t) && k < |t.entries| && AnalysisOk(t, level, k, s) && s.causes == 0
    requires t.entries[k].variable in s.seen && t.entries[k].level == level
    ensures Elements(Finish(s, t.entries[k].FalseLiteral())) == Resolvent(t, level, k + 1, s.seen)
  {
    var e := t.entries[k];
    var c := Finish(s, e.FalseLiteral());
    assert Open(t, level, k, s.seen) == {};
    CloseEntry(t, level, k, s.seen);
    assert Open(t, level, k + 1, s.seen) == {e.variable};
    SwapElements(s, e.FalseLiteral());
    assert FalseLit(t, e.variable) == e.FalseLiteral();
    forall l | l in c ensures l in Resolvent(t, level, k + 1, s.seen) {
      if l != e.FalseLiteral() {
        assert l in s.learnt && l.variable in Lower(t, level, s.seen);
      } else {
        assert e.variable in Open(t, level, k + 1, s.seen) + Lower(t, level, s.seen);
      }
    }
  }

  lemma SwapElements(s: Analysis, last: Literal)
    requires s.learnt != [] ==> s.highest < |s.learnt|
    ensures forall l :: l in Finish(s, last) <==> l in s.learnt || l == last
    ensures forall l :: l in Finish(s, last)[..|s.learnt|] <==> l in s.learnt
  {
    var c := Finish(s, last);
    assert c[|s.learnt|] == last;
    if s.learnt != [] {
      forall l | l in s.learnt ensures l in c[..|s.learnt|] {
        var i :| 0 <= i < |s.learnt| && s.learnt[i] == l;
        assert c[..|s.learnt|][if i == 0 then s.highest else if i == s.highest then 0 else i] == l;
      }
    }
    assert c[..|s.learnt|] + [last] == c;
  }

  /** What the whole analysis delivers: an asserting clause, derived from the clauses it visited. */
  lemma LearntIsAsserting(t: Trail, level: nat, k: nat, s: Analysis, db: seq<Clause>, why: set<ClauseId>)
    requires Wf(t) && LevelsOk(t) && level >= 2 && k < |t.entries|
    requires AnalysisOk(t, level, k, s) && s.causes == 0
    requires t.entries[k].variable in s.seen && t.entries[k].level == level
    requires Entails(db, why, Resolvent(t, level, k + 1, s.seen))
    ensures Entails(db, why, Elements(Finish(s, t.entries[k].FalseLiteral())))
    ensures 1 <= Target(s) < level
    ensures Asserting(UpTo(t, Target(s)), Target(s), Finish(s, t.entries[k].FalseLiteral()))
  {
    FinishElements(t, level, k, s);
    FinishAsserts(t, level, k, s);
  }

  lemma FinishAsserts(t: Trail, level: nat, k: nat, s: Analysis)
    requires Wf(t) && LevelsOk(t) && level >= 2 && k < |t.entries| && LearntOk(t, level, s)
    requires forall v :: v in s.seen ==> Assigned(t, v)
    requires t.entries[k].level == level
    ensures 1 <= Target(s) < level
    ensures Asserting(UpTo(t, Target(s)), Target(s), Finish(s, t.entries[k].FalseLiteral()))
  {
    hide Wf, LevelsOk, LearntOk, IsFalse, Finish;
    assert LevelOf(t, t.entries[k].variable) == level by { EntryLevel(t, k); }
    FinishOnTrail(t, level, s, t.entries[k].FalseLiteral());
    UpToIsExact(t, Target(s));
  }

  lemma EntryLevel(t: Trail, k: nat)
    requires Wf(t) && k < |t.entries|
    ensures LevelOf(t, t.entries[k].variable) == t.entries[k].level
  {
  }

  lemma FinishOnTrail(t: Trail, level: nat, s: Analysis, last: Literal)
    requires LearntOk(t, level, s) && level >= 2 && LevelOf(t, last.variable) == level
    requires forall v :: v in s.seen ==> Assigned(t, v)
    ensures s.backTrackTo < level
    ensures var c := Finish(s, last);
      && |c| == |s.learnt| + 1 && c[|c| - 1] == last
      && (forall i :: 0 <= i < |c| - 1 ==> IsFalse(t, c[i]) && LevelOf(t, c[i].variable) <= s.backTrackTo)
      && (if |c| == 1 then s.backTrackTo == 0 else
            c[0] != last && LevelOf(t, c[0].variable) == s.backTrackTo >= 1)
  {
    var c := Finish(s, last);
    forall i | 0 <= i < |s.learnt|
      ensures IsFalse(t, s.learnt[i]) && LevelOf(t, s.learnt[i].variable) <= s.backTrackTo
    {
      assert s.learnt[i].variable in s.seen;
    }
    if s.learnt != [] {
      assert s.learnt[s.highest].variable in Lower(t, level, s.seen);
      assert c[0] == s.learnt[s.highest];
    }
  }

  /** Undoing what is left after the analysis reaches the same trail as undoing from the start. */
  lemma UndoAfterAnalysis(t: Trail, k: nat, level: nat)
    requires Wf(t) && LevelsOk(t) && k < |t.entries| && t.entries[k].level > level
    ensures UpTo(Prefix(t, k), level) == UpTo(t, level)
  {
    var n, m := CountUpTo(t.entries, level), CountUpTo(t.entries[..k], level);
    assert n <= k;
    assert n == m;
    assert UpTo(Prefix(t, k), level).pos == UpTo(t, level).pos;
  }

  /** Takes note of one literal of a visited clause. */
  function See(s: Analysis, l: Literal, level: nat, current: nat): Analysis {
    if l.variable in s.seen then s
    else if level == current then s.(seen := s.seen + {l.variable}, causes := s.causes + 1)
    else AddLearnt(s, l, level)
  }

  lemma SeeOk(t: Trail, level: nat, k: nat, s: Analysis, v: Var)
    requires AnalysisOk(t, level, k, s) && Assigned(t, v) && t.pos[v] < k && 1 <= LevelOf(t, v) <= level
    ensures AnalysisOk(t, level, k, See(s, FalseLit(t, v), LevelOf(t, v), level))
    ensures See(s, FalseLit(t, v), LevelOf(t, v), level).seen == s.seen + {v}
  {
    hide AnalysisOk, LevelOf, Assigned;
    if v !in s.seen {
      if LevelOf(t, v) == level {
        SeeOpen(t, level, k, s, v);
      } else {
        SeeLower(t, level, k, s, v);
      }
    }
  }

  /** What the shortened trail tells about a variable it still holds is what the whole trail tells. */
  lemma PrefixAgrees(t: Trail, k: nat, v: Var)
    requires Wf(t) && k <= |t.entries| && v in t.pos && t.pos[v] < k
    ensures v in Prefix(t, k).pos && LevelOf(Prefix(t, k), v) == LevelOf(t, v)
    ensures IsTrue(Prefix(t, k), Positive(v)) <==> t.entries[t.pos[v]].value
    ensures IsTrue(Prefix(t, k), Negative(v)) <==> !t.entries[t.pos[v]].value
  {
  }
}
