/**
 Why the search ends: every assignment and every backjump makes the trail heavier, and
 its weight is bounded.  An entry weighs more the lower its level is, so the counts of
 entries per level are compared lexicographically.
 */
module Progress {
  import opened Sat
  import opened Trails

  ghost function Pow(b: nat, e: nat): (p: nat)
    ensures b >= 1 ==> p >= 1
  {
    if e == 0 then 1 else b * Pow(b, e - 1)
  }

  ghost function EntryWeight(level: nat, n: nat): nat {
    if level <= n then Pow(n + 1, n - level) else 0
  }

  /** The weight of a trail over `n` variables. */
  ghost function Weight(es: seq<Entry>, n: nat): nat {
    if es == [] then 0 else Weight(es[..|es| - 1], n) + EntryWeight(es[|es| - 1].level, n)
  }

  ghost function Budget(n: nat): nat { Pow(n + 1, n) }

  lemma {:induction false} PowMonotone(b: nat, d: nat, e: nat)
    requires b >= 1 && d <= e
    ensures Pow(b, d) <= Pow(b, e)
  {
    if d < e {
      PowMonotone(b, d, e - 1);
      Multiples(1, b, Pow(b, e - 1));
    }
  }

  lemma {:induction false} WeightAppend(a: seq<Entry>, b: seq<Entry>, n: nat)
    ensures Weight(a + b, n) == Weight(a, n) + Weight(b, n)
  {
    if b == [] {
      assert a + b == a;
    } else {
      WeightAppend(a, b[..|b| - 1], n);
      assert (a + b)[..|a + b| - 1] == a + b[..|b| - 1];
    }
  }

  /** Entries above a level weigh at most as much as that many entries one level up. */
  lemma {:induction false} WeightAbove(b: seq<Entry>, level: nat, n: nat)
    requires level < n && forall i :: 0 <= i < |b| ==> b[i].level > level
    ensures Weight(b, n) <= |b| * Pow(n + 1, n - level - 1)
  {
    if b != [] {
      var p := Pow(n + 1, n - level - 1);
      WeightAbove(b[..|b| - 1], level, n);
      var l := b[|b| - 1].level;
      if l <= n {
        PowMonotone(n + 1, n - l, n - level - 1);
      }
      assert |b| * p == (|b| - 1) * p + p;
    }
  }

  lemma WeightBounded(es: seq<Entry>, n: nat)
    requires |es| <= n && forall i :: 0 <= i < |es| ==> es[i].level >= 1
    ensures Weight(es, n) <= Budget(n)
  {
    if n > 0 {
      WeightAbove(es, 0, n);
      Multiples(|es|, n + 1, Pow(n + 1, n - 1));
    }
  }

  /** Jumping back and asserting one literal outweighs everything that was undone. */
  lemma BackjumpGains(a: seq<Entry>, b: seq<Entry>, e: Entry, n: nat)
    requires |b| <= n && e.level < n && forall i :: 0 <= i < |b| ==> b[i].level > e.level
    ensures Weight(a + b, n) < Weight(a + [e], n)
  {
    var p := Pow(n + 1, n - e.level - 1);
    WeightAppend(a, b, n);
    WeightAbove(b, e.level, n);
    assert (a + [e])[..|a|] == a;
    assert EntryWeight(e.level, n) == (n + 1) * p;
    Multiples(|b|, n + 1, p);
  }

  lemma Multiples(i: nat, j: nat, p: nat)
    requires i <= j
    ensures i * p <= j * p
    ensures i < j && p >= 1 ==> i * p < j * p
  {
    assert j * p == i * p + (j - i) * p;
    if i < j && p >= 1 {
      assert (j - i) * p == p + (j - i - 1) * p;
    }
  }

  /** Every further assignment adds weight. */
  lemma PushGains(es: seq<Entry>, e: Entry, n: nat)
    requires e.level <= n
    ensures Weight(es, n) < Weight(es + [e], n)
  {
    assert (es + [e])[..|es|] == es;
  }

  lemma PrefixWeighsLess(a: seq<Entry>, es: seq<Entry>, n: nat)
    requires |a| <= |es| && es[..|a|] == a
    ensures Weight(a, n) <= Weight(es, n)
  {
    assert es == a + es[|a|..];
    WeightAppend(a, es[|a|..], n);
  }

  /** No variable is assigned twice, so the trail is no longer than the number of variables. */
  lemma TrailLength(t: Trail, n: nat)
    requires Wf(t) && forall v :: v in t.pos ==> v < n
    ensures |t.entries| <= n
  {
    PositionsSize(t, |t.entries|);
    BoundedSize(t.pos.Keys, n);
  }

  lemma {:induction false} BoundedSize(s: set<Var>, n: nat)
    requires forall v :: v in s ==> v < n
    ensures |s| <= n
  {
    if n == 0 {
      assert s == {};
    } else {
      BoundedSize(s - {n - 1}, n - 1);
    }
  }

  ghost function FirstVariables(t: Trail, k: nat): set<Var> { set v | v in t.pos && t.pos[v] < k }

  lemma {:induction false} PositionsSize(t: Trail, k: nat)
    requires Wf(t) && k <= |t.entries|
    ensures |FirstVariables(t, k)| == k <= |t.pos.Keys|
  {
    if k == 0 {
      assert FirstVariables(t, k) == {};
    } else {
      PositionsSize(t, k - 1);
      var v := t.entries[k - 1].variable;
      assert v !in FirstVariables(t, k - 1);
      assert FirstVariables(t, k) == FirstVariables(t, k - 1) + {v};
    }
    SmallerSubset(FirstVariables(t, k), t.pos.Keys);
  }

  /** A level is never higher than the number of entries up to it. */
  lemma {:induction false} LevelBound(t: Trail, i: nat)
    requires LevelsOk(t) && i < |t.entries|
    ensures t.entries[i].level <= i + 1
  {
    if i > 0 {
      LevelBound(t, i - 1);
    }
  }
}
