/**
 Two watched literals: the invariant that makes unit propagation complete, kept by every
 assignment, by every move of a watch and by every backjump.
 */
module Watching {
  import opened Sat
  import opened Trails
  import opened WatchMaps

  /** Once the entry that made `a` false is propagated, `b` is true, and was so no later than that level. */
  ghost predicate SideOk(t: Trail, propagated: nat, a: Literal, b: Literal) {
    FalseBefore(t, propagated, a) ==> IsTrue(t, b) && LevelOf(t, b.variable) <= LevelOf(t, a.variable)
  }

  ghost predicate WatchOk(t: Trail, propagated: nat, w: Option<WatchedLiterals>) {
    w.Some? ==> SideOk(t, propagated, w.value.first, w.value.second) &&
                SideOk(t, propagated, w.value.second, w.value.first)
  }

  ghost predicate WatchesOk(t: Trail, propagated: nat, ws: Watches) {
    forall c :: 0 <= c < |ws| ==> WatchOk(t, propagated, ws[c])
  }

  /** A clause watches two of its literals; only assertions watch none. */
  ghost predicate WatchesFit(db: seq<Clause>, ws: Watches) {
    && |ws| == |db|
    && forall c :: 0 <= c < |db| ==> FitsClause(db[c], ws[c])
  }

  ghost predicate FitsClause(c: Clause, w: Option<WatchedLiterals>) {
    if w.Some? then w.value.first in c && w.value.second in c && w.value.first != w.value.second else |c| == 1
  }

  /** Neither unit nor falsified: some literal is true, or two different ones are unassigned. */
  ghost predicate Settled(t: Trail, c: Clause) {
    || (exists l :: l in c && IsTrue(t, l))
    || (exists l, m :: l in c && m in c && l != m && !Assigned(t, l.variable) && !Assigned(t, m.variable))
  }

  ghost predicate Extends(t: Trail, t': Trail) {
    |t.entries| <= |t'.entries| && t'.entries[..|t.entries|] == t.entries
  }

  /** Values and levels stay as they are while the trail grows. */
  lemma ExtendsKeepsValues(t: Trail, t': Trail)
    requires Wf(t) && Wf(t') && Extends(t, t')
    ensures forall v :: v in t.pos ==> v in t'.pos && t'.pos[v] == t.pos[v] && LevelOf(t', v) == LevelOf(t, v)
    ensures forall l :: IsTrue(t, l) ==> IsTrue(t', l)
    ensures forall l :: IsFalse(t, l) ==> IsFalse(t', l)
    ensures forall l, q: nat :: q <= |t.entries| ==> (FalseBefore(t', q, l) <==> FalseBefore(t, q, l))
  {
    forall v | v in t.pos ensures v in t'.pos && t'.pos[v] == t.pos[v] && LevelOf(t', v) == LevelOf(t, v) {
      assert t'.entries[t.pos[v]] == t.entries[t.pos[v]];
    }
    forall v | v in t'.pos && t'.pos[v] < |t.entries| ensures v in t.pos && t.pos[v] == t'.pos[v] {
      assert t'.entries[t'.pos[v]] == t.entries[t'.pos[v]];
    }
  }

  lemma ExtendsKeepsWatch(t: Trail, t': Trail, propagated: nat, w: Option<WatchedLiterals>)
    requires Wf(t) && Wf(t') && Extends(t, t') && propagated <= |t.entries| && WatchOk(t, propagated, w)
    ensures WatchOk(t', propagated, w)
  {
    ExtendsKeepsValues(t, t');
  }

  lemma ExtendsKeepsWatches(t: Trail, t': Trail, propagated: nat, ws: Watches)
    requires Wf(t) && Wf(t') && Extends(t, t') && propagated <= |t.entries| && WatchesOk(t, propagated, ws)
    ensures WatchesOk(t', propagated, ws)
  {
    forall c | 0 <= c < |ws| ensures WatchOk(t', propagated, ws[c]) {
      ExtendsKeepsWatch(t, t', propagated, ws[c]);
    }
  }

  /** The invariant survives any backjump to a level whose entries are all propagated. */
  lemma BackjumpKeepsWatches(t: Trail, level: nat, propagated: nat, ws: Watches)
    requires Wf(t) && LevelsOk(t) && WatchesOk(t, propagated, ws)
    requires CountUpTo(t.entries, level) <= propagated
    ensures WatchesOk(UpTo(t, level), |UpTo(t, level).entries|, ws)
  {
    forall c | 0 <= c < |ws| ensures WatchOk(UpTo(t, level), |UpTo(t, level).entries|, ws[c]) {
      UpToIsExact(t, level);
      assert WatchOk(t, propagated, ws[c]);
    }
  }

  /** When everything is propagated no watched clause is unit or falsified. */
  lemma PropagatedIsSettled(t: Trail, db: seq<Clause>, ws: Watches, c: ClauseId)
    requires Wf(t) && WatchesFit(db, ws) && WatchesOk(t, |t.entries|, ws)
    requires c < |db| && (|db[c]| == 1 ==> IsTrue(t, db[c][0]))
    ensures Settled(t, db[c])
  {
    assert FitsClause(db[c], ws[c]) && WatchOk(t, |t.entries|, ws[c]);
    if ws[c].Some? {
      var a, b := ws[c].value.first, ws[c].value.second;
      assert IsFalse(t, a) ==> FalseBefore(t, |t.entries|, a);
      assert IsFalse(t, b) ==> FalseBefore(t, |t.entries|, b);
    }
  }

  /** A watch that does not hold the literal just propagated has nothing new to check. */
  lemma OtherWatchesStayOk(t: Trail, q: nat, w: Option<WatchedLiterals>)
    requires Wf(t) && q < |t.entries| && WatchOk(t, q, w)
    requires w.Some? ==> !w.value.Watches(t.entries[q].FalseLiteral())
    ensures WatchOk(t, q + 1, w)
  {
  }

  /** Visiting a clause whose other watch is true leaves it as it is. */
  lemma SkippedWatchOk(t: Trail, q: nat, w: WatchedLiterals, k: nat)
    requires Wf(t) && q < |t.entries| && WatchOk(t, q, Some(w)) && k <= 1
    requires w.Lit(k) == t.entries[q].FalseLiteral() && IsTrue(t, w.Lit(1 - k))
    requires forall i :: 0 <= i < |t.entries| ==> t.entries[i].level <= t.entries[q].level
    ensures WatchOk(t, q + 1, Some(w))
  {
  }

  /** Moving the watch to a literal that is not false repairs the clause. */
  lemma MovedWatchOk(t: Trail, q: nat, w: WatchedLiterals, k: nat, watch: Literal, moved: Option<WatchedLiterals>)
    requires Wf(t) && q < |t.entries| && WatchOk(t, q, Some(w)) && k <= 1
    requires w.Lit(k) == t.entries[q].FalseLiteral() && !IsTrue(t, w.Lit(1 - k)) && !IsFalse(t, watch)
    requires w.Lit(k) != w.Lit(1 - k)
    requires SameLiterals(moved, Some(w.SetLit(k, watch)))
    ensures WatchOk(t, q + 1, moved)
  {
    var p, other := w.Lit(k), w.Lit(1 - k);
    assert SideOk(t, q, other, p);
    assert IsFalse(t, p);
    assert IsFalse(t, other) ==> t.pos[other.variable] != q;
    assert !FalseBefore(t, q + 1, other);
  }

  /** While the clauses of one list are visited, those still to come are checked only up to the entry before. */
  ghost predicate Visiting(t: Trail, q: nat, ws: Watches, pending: seq<ClauseId>) {
    forall c :: 0 <= c < |ws| ==> WatchOk(t, if c in pending then q else q + 1, ws[c])
  }

  lemma StartVisiting(t: Trail, q: nat, heads: Heads, ws: Watches, s: seq<ClauseId>)
    requires Wf(t) && q < |t.entries| && WatchesOk(t, q, ws)
    requires IsListOf(heads, ws, t.entries[q].FalseLiteral(), s)
    ensures Visiting(t, q, ws, s)
  {
    forall c | 0 <= c < |ws| && c !in s ensures WatchOk(t, q + 1, ws[c]) {
      assert !IsWatching(ws, c, t.entries[q].FalseLiteral());
      OtherWatchesStayOk(t, q, ws[c]);
    }
  }

  /** One clause visited and repaired: the others are as they were. */
  lemma VisitedOne(t: Trail, q: nat, ws: Watches, ws': Watches, c: ClauseId, rest: seq<ClauseId>)
    requires Visiting(t, q, ws, [c] + rest) && c !in rest && c < |ws| == |ws'|
    requires forall d :: 0 <= d < |ws| && d != c ==> SameLiterals(ws'[d], ws[d])
    requires WatchOk(t, q + 1, ws'[c])
    ensures Visiting(t, q, ws', rest)
  {
    forall d | 0 <= d < |ws'| ensures WatchOk(t, if d in rest then q else q + 1, ws'[d]) {
      if d != c {
        assert d in [c] + rest <==> d in rest;
        assert SameLiterals(ws'[d], ws[d]) && WatchOk(t, if d in [c] + rest then q else q + 1, ws[d]);
      }
    }
  }

  lemma ExtendsKeepsVisiting(t: Trail, t': Trail, q: nat, ws: Watches, pending: seq<ClauseId>)
    requires Wf(t) && Wf(t') && Extends(t, t') && q < |t.entries| && Visiting(t, q, ws, pending)
    ensures Visiting(t', q, ws, pending)
  {
    forall c | 0 <= c < |ws| ensures WatchOk(t', if c in pending then q else q + 1, ws[c]) {
      ExtendsKeepsWatch(t, t', if c in pending then q else q + 1, ws[c]);
    }
  }

  /** What holds up to an entry holds up to every earlier one. */
  lemma FewerPropagated(t: Trail, q: nat, q': nat, ws: Watches, pending: seq<ClauseId>)
    requires Visiting(t, q, ws, pending) && q' <= q
    ensures WatchesOk(t, q', ws)
  {
    forall c | 0 <= c < |ws| ensures WatchOk(t, q', ws[c]) {
      assert WatchOk(t, if c in pending then q else q + 1, ws[c]);
    }
  }

  lemma DoneVisiting(t: Trail, q: nat, ws: Watches)
    requires Visiting(t, q, ws, [])
    ensures WatchesOk(t, q + 1, ws)
  {
  }

  /** The forced literal of a visited clause is true from the level of the entry that forced it. */
  lemma ForcedWatchOk(t: Trail, q: nat, w: WatchedLiterals, k: nat, e: Entry)
    requires Wf(t) && q < |t.entries| && WatchOk(t, q, Some(w)) && k <= 1
    requires e.variable !in t.pos && e.level == t.entries[q].level
    requires w.Lit(k) == t.entries[q].FalseLiteral() && w.Lit(1 - k) == e.TrueLiteral()
    ensures WatchOk(Push(t, e), q + 1, Some(w))
  {
    PushKeepsWf(t, e);
  }

  lemma FitsAfterMove(db: seq<Clause>, ws: Watches, ws': Watches, c: ClauseId, k: nat, watch: Literal)
    requires WatchesFit(db, ws) && c < |ws| == |ws'| && ws[c].Some? && k <= 1
    requires watch in db[c] && watch != ws[c].value.Lit(1 - k)
    requires forall d :: 0 <= d < |ws| && d != c ==> SameLiterals(ws'[d], ws[d])
    requires SameLiterals(ws'[c], Some(ws[c].value.SetLit(k, watch)))
    ensures WatchesFit(db, ws')
  {
    forall d | 0 <= d < |db| ensures FitsClause(db[d], ws'[d]) {
      assert FitsClause(db[d], ws[d]);
      if d != c {
        assert SameLiterals(ws'[d], ws[d]);
      }
    }
  }

  /** A node occurs once in the list it is on, and watches that list's literal. */
  lemma NodeIsOnce(heads: Heads, ws: Watches, lists: Lists, l: Literal, i: nat)
    requires ListsExact(heads, ws, lists) && i < |ListOf(lists, l)|
    ensures var s := ListOf(lists, l); IsWatching(ws, s[i], l) && s[i] !in s[i + 1..]
  {
    assert IsListOf(heads, ws, l, ListOf(lists, l));
  }

  lemma WatchedFalse(t: Trail, q: nat)
    requires Wf(t) && q < |t.entries|
    ensures IsFalse(t, t.entries[q].FalseLiteral())
  {
  }

  lemma VisitingFirst(t: Trail, q: nat, ws: Watches, c: ClauseId, rest: seq<ClauseId>)
    requires Visiting(t, q, ws, [c] + rest) && c < |ws|
    ensures WatchOk(t, q, ws[c])
  {
    assert c in [c] + rest;
  }

  lemma FitsTwo(db: seq<Clause>, ws: Watches, c: ClauseId)
    requires WatchesFit(db, ws) && c < |ws| && ws[c].Some?
    ensures c < |db| && ws[c].value.first in db[c] && ws[c].value.second in db[c] &&
            ws[c].value.first != ws[c].value.second
  {
    assert FitsClause(db[c], ws[c]);
  }
}
