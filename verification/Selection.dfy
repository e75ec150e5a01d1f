/**
 Choosing among the clauses a decision can be taken from: the naive rule, which considers
 all of them in the order of their positions, and why considering fewer gives the same.
 */
module Selection {
  import opened Sat

  type Position = nat

  /** What an eligible clause proposes, with what it is judged by. */
  datatype Offer = Offer(explicit: bool, activity: real, count: nat, candidate: Var, requiredBy: Var,
                         clauseId: ClauseId)

  /** Clauses of the root are not given up for others; otherwise both activity and count must improve. */
  predicate Replaces(best: Offer, o: Offer) {
    (best.explicit ==> o.explicit) && best.activity < o.activity && o.count < best.count
  }

  function Step(best: Option<Offer>, o: Offer): Option<Offer> {
    match best
    case None => Some(o)
    case Some(b) => if Replaces(b, o) then Some(o) else best
  }

  ghost function Least(s: set<Position>): (m: Position)
    requires s != {}
    ensures m in s && forall p :: p in s ==> m <= p
  {
    var q :| q in s;
    HasLeast(s, q);
    var m :| m in s && forall p :: p in s ==> m <= p;
    m
  }

  lemma {:induction false} HasLeast(s: set<Position>, q: Position)
    requires q in s
    ensures exists m :: m in s && forall p :: p in s ==> m <= p
    decreases q
  {
    if p :| p in s && p < q {
      HasLeast(s, p);
    } else {
      assert forall p :: p in s ==> q <= p;
    }
  }

  /** Considers the offers at `keys`, lowest position first. */
  ghost function Fold(e: map<Position, Offer>, keys: set<Position>, best: Option<Offer>): Option<Offer>
    requires keys <= e.Keys
    decreases |keys|
  {
    if keys == {} then best else
      var p := Least(keys);
      Fold(e, keys - {p}, Step(best, e[p]))
  }

  /** The decision of a scan over all eligible clauses. */
  ghost function Naive(e: map<Position, Offer>): Option<Offer> {
    Fold(e, e.Keys, None)
  }

  ghost function After(keys: set<Position>, cursor: Position): (r: set<Position>)
    ensures r <= keys
  {
    set p | p in keys && cursor < p
  }

  lemma LeastIsUnique(s: set<Position>, m: Position)
    requires m in s && forall p :: p in s ==> m <= p
    ensures Least(s) == m
  {
  }

  /** The first eligible clause starts the scan. */
  lemma NaiveStarts(e: map<Position, Offer>, p: Position)
    requires p in e && forall q :: q in e.Keys ==> p <= q
    ensures Naive(e) == Fold(e, After(e.Keys, p), Some(e[p]))
  {
    LeastIsUnique(e.Keys, p);
    assert e.Keys - {p} == After(e.Keys, p);
  }

  /** Offers that cannot replace the best may be passed over, up to the next one that is looked at. */
  lemma {:induction false} FoldSkips(e: map<Position, Offer>, keys: set<Position>, best: Offer, next: Position)
    requires keys <= e.Keys && next in keys
    requires forall p :: p in keys && p < next ==> !Replaces(best, e[p])
    ensures Fold(e, keys, Some(best)) == Fold(e, After(keys, next), Step(Some(best), e[next]))
    decreases |keys|
  {
    var p := Least(keys);
    if p == next {
      assert keys - {p} == After(keys, next);
    } else {
      FoldSkips(e, keys - {p}, best, next);
      assert After(keys - {p}, next) == After(keys, next);
    }
  }

  /** When no offer can replace the best, it stays. */
  lemma {:induction false} FoldStops(e: map<Position, Offer>, keys: set<Position>, best: Offer)
    requires keys <= e.Keys
    requires forall p :: p in keys ==> !Replaces(best, e[p])
    ensures Fold(e, keys, Some(best)) == Some(best)
    decreases |keys|
  {
    if keys != {} {
      FoldStops(e, keys - {Least(keys)}, best);
    }
  }

  /** Passing positions at which nothing is eligible changes nothing. */
  lemma FoldPasses(e: map<Position, Offer>, cursor: Position, next: Position, best: Offer)
    requires cursor < next && next !in e
    requires forall p :: p in e && cursor < p < next ==> !Replaces(best, e[p])
    ensures Fold(e, After(e.Keys, cursor), Some(best)) == Fold(e, After(e.Keys, next), Some(best))
  {
    FoldDrops(e, After(e.Keys, cursor), best, next);
    assert After(After(e.Keys, cursor), next) == After(e.Keys, next);
  }

  lemma {:induction false} FoldDrops(e: map<Position, Offer>, keys: set<Position>, best: Offer, next: Position)
    requires keys <= e.Keys && next !in keys
    requires forall p :: p in keys && p < next ==> !Replaces(best, e[p])
    ensures Fold(e, keys, Some(best)) == Fold(e, After(keys, next), Some(best))
    decreases |keys|
  {
    if forall p :: p in keys ==> next < p {
      assert After(keys, next) == keys;
    } else {
      var p := Least(keys);
      FoldDrops(e, keys - {p}, best, next);
      assert After(keys - {p}, next) == After(keys, next);
    }
  }

  lemma {:induction false} FoldKeepsSome(e: map<Position, Offer>, keys: set<Position>, best: Offer)
    requires keys <= e.Keys
    ensures Fold(e, keys, Some(best)).Some?
    decreases |keys|
  {
    if keys != {} {
      var p := Least(keys);
      FoldKeepsSome(e, keys - {p}, if Replaces(best, e[p]) then e[p] else best);
    }
  }

  /** The scan ends without a decision only if no clause is eligible. */
  lemma NaiveIsNone(e: map<Position, Offer>)
    requires Naive(e) == None
    ensures e == map[]
  {
    if e.Keys != {} {
      var p := Least(e.Keys);
      FoldKeepsSome(e, e.Keys - {p}, e[p]);
    }
  }

  /** `q` is more active and has fewer candidates than `p`, and is not a clause of another parent if `p` is the
      root's. */
  ghost predicate IsBetter(p: Offer, q: Offer) {
    p.activity < q.activity && q.count < p.count && (p.explicit ==> q.explicit)
  }

  /** `q` is the first offer after `p` that is better. */
  ghost predicate NextBetter(e: map<Position, Offer>, p: Position, q: Position) {
    && p in e && q in e && p < q && IsBetter(e[p], e[q])
    && forall x :: x in e && p < x < q ==> !IsBetter(e[p], e[x])
  }

  /** Each offer of the chain is the first after the one before it that is better, and none after the last is. */
  ghost predicate BetterChain(e: map<Position, Offer>, chain: seq<Position>) {
    && chain != [] && (forall k :: 0 <= k < |chain| ==> chain[k] in e)
    && (forall k :: 0 <= k < |chain| - 1 ==> NextBetter(e, chain[k], chain[k + 1]))
    && (forall x :: x in e && chain[|chain| - 1] < x ==> !IsBetter(e[chain[|chain| - 1]], e[x]))
  }

  /** The scan follows the chain: what was passed over is no better than the best so far. */
  lemma {:induction false} FoldFollows(e: map<Position, Offer>, keys: set<Position>,
                                       best: Position) returns (chain: seq<Position>)
    requires keys <= e.Keys && best in e && forall p :: p in keys ==> best < p
    requires forall p :: p in e && best < p && p !in keys ==>
               !IsBetter(e[best], e[p]) && forall q :: q in keys ==> p < q
    ensures BetterChain(e, chain) && chain[0] == best && Fold(e, keys, Some(e[best])) == Some(e[chain[|chain| - 1]])
    decreases |keys|
  {
    if keys == {} {
      chain := [best];
    } else {
      var q: Position := Least(keys);
      if IsBetter(e[best], e[q]) {
        var rest := FoldFollows(e, keys - {q}, q);
        chain := [best] + rest;
        assert NextBetter(e, best, q);
        ChainGrows(e, best, rest);
      } else {
        chain := FoldFollows(e, keys - {q}, best);
      }
    }
  }

  lemma ChainGrows(e: map<Position, Offer>, best: Position, rest: seq<Position>)
    requires BetterChain(e, rest) && NextBetter(e, best, rest[0])
    ensures BetterChain(e, [best] + rest)
  {
    hide NextBetter;
    var chain := [best] + rest;
    assert best in e by { NextIsOffered(e, best, rest[0]); }
    forall k | 0 <= k < |chain| - 1 ensures NextBetter(e, chain[k], chain[k + 1]) {
      assert k > 0 ==> NextBetter(e, rest[k - 1], rest[k]);
    }
  }

  lemma NextIsOffered(e: map<Position, Offer>, p: Position, q: Position)
    requires NextBetter(e, p, q)
    ensures p in e && q in e
  {
  }

  /** The naive scan starts at the first offer and takes the next better one as long as there is one. */
  lemma NaiveFollows(e: map<Position, Offer>, o: Offer) returns (chain: seq<Position>)
    requires Naive(e) == Some(o)
    ensures BetterChain(e, chain) && o == e[chain[|chain| - 1]] && forall p :: p in e ==> chain[0] <= p
  {
    var first: Position := Least(e.Keys);
    NaiveStarts(e, first);
    chain := FoldFollows(e, After(e.Keys, first), first);
  }

  /** The activities are exact: nothing is more active than `max`, and something is unless nothing is active. */
  ghost predicate MaxIsExact(activity: map<nat, real>, max: real) {
    && (forall n :: n in activity ==> 0.0 <= activity[n] <= max)
    && (max == 0.0 || exists n :: n in activity && activity[n] == max)
  }

  /** The activity of each package, with the largest kept beside it. */
  class Activities {
    var activity: map<nat, real>
    var max: real
    const add: real
    const decay: real

    /** The parameters for which a package that was never in a conflict has the least activity there is. */
    predicate Standard() { add > 0.0 && decay >= 0.0 }

    ghost predicate Valid()
      reads this
    {
      Standard() ==> MaxIsExact(activity, max)
    }

    constructor (add: real, decay: real)
      ensures Valid() && activity == map[] && max == 0.0 && this.add == add && this.decay == decay
    {
      this.add, this.decay := add, decay;
      activity, max := map[], 0.0;
    }

    function Of(name: nat): (a: real)
      reads this
      ensures Valid() && Standard() ==> 0.0 <= a <= max
    {
      if name in activity then activity[name] else 0.0
    }

    /** A package was involved in a conflict. */
    method Bump(name: nat)
      requires Valid()
      modifies this
      ensures Valid() && activity == old(activity)[name := old(Of(name)) + add]
    {
      var a := Of(name) + add;
      ghost var before := activity;
      activity := activity[name := a];
      if a > max {
        max := a;
        assert activity[name] == max;
      } else if Standard() && max != 0.0 {
        ghost var n :| n in before && before[n] == max;
        assert activity[n] == max;
      }
    }

    /** After every conflict all activities shrink by the same factor. */
    method Decay()
      requires Valid()
      modifies this
      ensures Valid() && activity == Decayed(old(activity), decay)
      ensures activity.Keys == old(activity).Keys &&
              forall n :: n in activity ==> activity[n] == old(activity)[n] * decay
      ensures max == old(max) * decay
    {
      DecayScales(activity, max, decay);
      hide Times, MaxIsExact;
      if Standard() {
        DecayIsExact(activity, max, decay);
      }
      activity := map n | n in activity :: Times(activity[n], decay);
      max := Times(max, decay);
      assert activity == Decayed(old(activity), decay);
    }
  }

  ghost function Decayed(activity: map<nat, real>, decay: real): map<nat, real> {
    map n | n in activity :: Times(activity[n], decay)
  }

  lemma DecayIsExact(activity: map<nat, real>, max: real, decay: real)
    requires MaxIsExact(activity, max) && decay >= 0.0
    ensures MaxIsExact(Decayed(activity, decay), Times(max, decay))
  {
    hide Times;
    forall n | n in activity ensures 0.0 <= Times(activity[n], decay) <= Times(max, decay) {
      Scale(activity[n], max, decay);
    }
    if max == 0.0 {
      Scale(0.0, 0.0, decay);
    } else {
      var n :| n in activity && activity[n] == max;
      assert n in Decayed(activity, decay) && Decayed(activity, decay)[n] == Times(max, decay);
    }
  }

  lemma DecayScales(activity: map<nat, real>, max: real, decay: real)
    ensures forall n :: n in activity ==> Decayed(activity, decay)[n] == activity[n] * decay
    ensures Times(max, decay) == max * decay
  {
  }

  /** With a factor between zero and one, what was active is less active afterwards, but still active, and the
      packages keep their order. */
  lemma DecayShrinks(activity: map<nat, real>, decay: real, n: nat, m: nat)
    requires n in activity && m in activity && 0.0 < decay < 1.0
    ensures var after := Decayed(activity, decay);
      && (activity[n] > 0.0 ==> 0.0 < after[n] < activity[n])
      && (activity[n] < activity[m] <==> after[n] < after[m])
  {
    hide Times;
    OrderKept(0.0, activity[n], decay);
    OrderKept(activity[n], activity[m], decay);
    Shrinks(activity[n], decay);
  }

  lemma Shrinks(x: real, d: real)
    requires 0.0 < d < 1.0
    ensures Times(0.0, d) == 0.0 && (x > 0.0 ==> Times(x, d) < x)
  {
    if x > 0.0 {
      assert x * (1.0 - d) > 0.0;
    }
  }

  lemma OrderKept(x: real, y: real, d: real)
    requires 0.0 < d
    ensures x < y <==> Times(x, d) < Times(y, d)
  {
    assert Times(y, d) - Times(x, d) == (y - x) * d;
    if x < y {
      assert (y - x) * d > 0.0;
    } else {
      assert (x - y) * d >= 0.0;
    }
  }

  function Times(x: real, d: real): real { x * d }

  lemma Scale(x: real, y: real, d: real)
    requires 0.0 <= x <= y && d >= 0.0
    ensures 0.0 <= Times(x, d) <= Times(y, d)
    ensures Times(0.0, d) == 0.0
  {
    assert y * d == x * d + (y - x) * d;
  }
}
