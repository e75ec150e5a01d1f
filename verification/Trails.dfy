/**
 The trail as a value: the chronological list of assignments, each with its level and
 the clause it was derived from, together with the position of every assigned variable.
 */
module Trails {
  import opened Sat

  datatype Entry = Entry(variable: Var, value: bool, level: nat, reason: ClauseId) {
    /** The literal of this variable that the entry makes true. */
    function TrueLiteral(): Literal { Literal(variable, !value) }

    /** The literal of this variable that the entry makes false. */
    function FalseLiteral(): Literal { Literal(variable, value) }
  }

  datatype Trail = Trail(entries: seq<Entry>, pos: map<Var, nat>)

  const EMPTY_TRAIL := Trail([], map[])

  /** Positions and entries name each other, so no variable is assigned twice. */
  ghost predicate Wf(t: Trail) {
    && (forall v :: v in t.pos ==> t.pos[v] < |t.entries| && t.entries[t.pos[v]].variable == v)
    && (forall i :: 0 <= i < |t.entries| ==>
          t.entries[i].variable in t.pos && t.pos[t.entries[i].variable] == i)
  }

  ghost predicate Assigned(t: Trail, v: Var) {
    v in t.pos && t.pos[v] < |t.entries|
  }

  ghost predicate IsTrue(t: Trail, l: Literal) {
    Assigned(t, l.variable) && t.entries[t.pos[l.variable]].value != l.negate
  }

  ghost predicate IsFalse(t: Trail, l: Literal) {
    Assigned(t, l.variable) && t.entries[t.pos[l.variable]].value == l.negate
  }

  ghost function LevelOf(t: Trail, v: Var): nat {
    if Assigned(t, v) then t.entries[t.pos[v]].level else 0
  }

  /** `l` is false because of an entry before position `i`. */
  ghost predicate FalseBefore(t: Trail, i: nat, l: Literal) {
    IsFalse(t, l) && t.pos[l.variable] < i
  }

  ghost predicate AllFalse(t: Trail, c: Clause) {
    forall l :: l in c ==> IsFalse(t, l)
  }

  function Push(t: Trail, e: Entry): Trail {
    Trail(t.entries + [e], t.pos[e.variable := |t.entries|])
  }

  ghost function Prefix(t: Trail, n: nat): Trail
    requires n <= |t.entries|
  {
    Trail(t.entries[..n], map v | v in t.pos && t.pos[v] < n :: t.pos[v])
  }

  /** Clause `c` forced entry `i`: it holds the entry's literal and every other literal was false before. */
  ghost predicate IsReason(t: Trail, i: nat, c: Clause)
    requires i < |t.entries|
  {
    && t.entries[i].TrueLiteral() in c
    && forall l :: l in c && l != t.entries[i].TrueLiteral() ==> FalseBefore(t, i, l)
  }

  /** The entry that opened its level: a decision, whose clause is no proper reason. */
  ghost predicate OpensLevel(t: Trail, i: nat)
    requires i < |t.entries|
  {
    i == 0 || t.entries[i - 1].level < t.entries[i].level
  }

  /** Levels start at one, never decrease, and grow one at a time. */
  ghost predicate LevelsOk(t: Trail) {
    && (|t.entries| > 0 ==> t.entries[0].level == 1)
    && (forall i, j :: 0 <= i <= j < |t.entries| ==> t.entries[i].level <= t.entries[j].level)
    && (forall i :: 0 < i < |t.entries| ==> t.entries[i].level <= t.entries[i - 1].level + 1)
  }

  /** Every entry that does not open its level was forced by its clause. */
  ghost predicate ReasonsOk(t: Trail, db: seq<Clause>) {
    forall i :: 0 <= i < |t.entries| ==>
      && t.entries[i].reason < |db|
      && (OpensLevel(t, i) || IsReason(t, i, db[t.entries[i].reason]))
  }

  /** The number of entries at or below a level. */
  ghost function CountUpTo(es: seq<Entry>, level: nat): (n: nat)
    ensures n <= |es|
    ensures n < |es| ==> es[n].level > level
    ensures forall i :: 0 <= i < n ==> es[i].level <= level
  {
    if |es| == 0 || es[0].level > level then 0 else 1 + CountUpTo(es[1..], level)
  }

  /** What is left of the trail after undoing every entry above `level`. */
  ghost function UpTo(t: Trail, level: nat): Trail {
    Prefix(t, CountUpTo(t.entries, level))
  }

  lemma PushKeepsWf(t: Trail, e: Entry)
    requires Wf(t) && e.variable !in t.pos
    ensures Wf(Push(t, e))
    ensures forall l :: IsTrue(t, l) ==> IsTrue(Push(t, e), l)
    ensures forall l :: IsFalse(t, l) ==> IsFalse(Push(t, e), l)
    ensures forall v :: v in t.pos ==> LevelOf(Push(t, e), v) == LevelOf(t, v)
    ensures IsTrue(Push(t, e), e.TrueLiteral()) && LevelOf(Push(t, e), e.variable) == e.level
  {
  }

  lemma PrefixKeepsWf(t: Trail, n: nat)
    requires Wf(t) && n <= |t.entries|
    ensures Wf(Prefix(t, n))
    ensures forall l :: IsTrue(t, l) && t.pos[l.variable] < n ==> IsTrue(Prefix(t, n), l)
    ensures forall l :: IsFalse(t, l) && t.pos[l.variable] < n ==> IsFalse(Prefix(t, n), l)
  {
    forall v | v in Prefix(t, n).pos ensures Prefix(t, n).entries[t.pos[v]] == t.entries[t.pos[v]] { }
  }

  lemma PrefixKeepsReason(t: Trail, n: nat, i: nat, c: Clause)
    requires Wf(t) && i < n <= |t.entries| && IsReason(t, i, c)
    ensures IsReason(Prefix(t, n), i, c)
  {
    PrefixKeepsWf(t, n);
  }

  /** Reasons look only backwards, so an undo keeps those of the entries that stay. */
  lemma PrefixKeepsReasons(t: Trail, n: nat, db: seq<Clause>)
    requires Wf(t) && n <= |t.entries| && ReasonsOk(t, db)
    ensures ReasonsOk(Prefix(t, n), db)
  {
    hide IsReason, Wf;
    var p := Prefix(t, n);
    forall i | 0 <= i < n
      ensures p.entries[i].reason < |db|
      ensures OpensLevel(p, i) || IsReason(p, i, db[p.entries[i].reason])
    {
      assert p.entries[i] == t.entries[i] && OpensLevel(p, i) == OpensLevel(t, i);
      if !OpensLevel(t, i) {
        PrefixKeepsReason(t, n, i, db[t.entries[i].reason]);
      }
    }
  }

  lemma PrefixKeepsLevels(t: Trail, n: nat)
    requires LevelsOk(t) && n <= |t.entries|
    ensures LevelsOk(Prefix(t, n))
  {
  }

  /** `e` may follow `t`: it opens the next level, or it continues the current one. */
  ghost predicate Follows(t: Trail, e: Entry) {
    if |t.entries| == 0 then e.level == 1
    else t.entries[|t.entries| - 1].level <= e.level <= t.entries[|t.entries| - 1].level + 1
  }

  lemma PushKeepsLevels(t: Trail, e: Entry)
    requires LevelsOk(t) && Follows(t, e)
    ensures LevelsOk(Push(t, e))
  {
    var es := Push(t, e).entries;
    forall i, j | 0 <= i <= j < |es| ensures es[i].level <= es[j].level {
      if j == |t.entries| && i < j {
        assert t.entries[i].level <= t.entries[j - 1].level;
      }
    }
  }

  lemma PushKeepsReasons(t: Trail, e: Entry, db: seq<Clause>)
    requires Wf(t) && e.variable !in t.pos && ReasonsOk(t, db) && e.reason < |db|
    requires OpensLevel(Push(t, e), |t.entries|) || IsReason(Push(t, e), |t.entries|, db[e.reason])
    ensures ReasonsOk(Push(t, e), db)
  {
    hide IsReason, Wf, OpensLevel;
    var p := Push(t, e);
    forall i | 0 <= i < |p.entries|
      ensures p.entries[i].reason < |db|
      ensures OpensLevel(p, i) || IsReason(p, i, db[p.entries[i].reason])
    {
      if i < |t.entries| {
        assert p.entries[i] == t.entries[i];
        PushKeepsOpening(t, e, i);
        if !OpensLevel(t, i) {
          PushKeepsReason(t, e, i, db[t.entries[i].reason]);
        }
      }
    }
  }

  lemma PushKeepsOpening(t: Trail, e: Entry, i: nat)
    requires i < |t.entries|
    ensures OpensLevel(Push(t, e), i) == OpensLevel(t, i)
  {
  }

  lemma PushKeepsReason(t: Trail, e: Entry, i: nat, c: Clause)
    requires Wf(t) && e.variable !in t.pos && i < |t.entries| && IsReason(t, i, c)
    ensures IsReason(Push(t, e), i, c)
  {
    PushKeepsWf(t, e);
  }

  /** A clause whose other literals are all false forces the one that is left. */
  lemma UnitForces(t: Trail, e: Entry, c: Clause)
    requires Wf(t) && e.variable !in t.pos
    requires e.TrueLiteral() in c
    requires forall l :: l in c && l != e.TrueLiteral() ==> IsFalse(t, l)
    ensures IsReason(Push(t, e), |t.entries|, c)
  {
    PushKeepsWf(t, e);
  }

  /** More clauses never invalidate a reason. */
  lemma ReasonsExtend(t: Trail, db: seq<Clause>, more: seq<Clause>)
    requires ReasonsOk(t, db)
    ensures ReasonsOk(t, db + more)
  {
  }

  lemma UpToIsExact(t: Trail, level: nat)
    requires Wf(t) && LevelsOk(t)
    ensures Wf(UpTo(t, level))
    ensures forall v :: v in UpTo(t, level).pos <==> Assigned(t, v) && LevelOf(t, v) <= level
    ensures forall v :: v in UpTo(t, level).pos ==> LevelOf(UpTo(t, level), v) == LevelOf(t, v)
    ensures forall l :: IsTrue(UpTo(t, level), l) <==> IsTrue(t, l) && LevelOf(t, l.variable) <= level
    ensures forall l :: IsFalse(UpTo(t, level), l) <==> IsFalse(t, l) && LevelOf(t, l.variable) <= level
  {
    PrefixKeepsWf(t, CountUpTo(t.entries, level));
  }
}
