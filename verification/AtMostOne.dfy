/**
 At most one of a growing set of variables, in binary: each variable is numbered in the order
 it is added and, if true, forces one helper variable per bit to spell its number.
 */
module AtMostOne {
  import opened Sat

  /** An implication: if the variable is true, so is the literal. */
  type Implication = (Var, Literal)

  function Pow2(k: nat): (p: nat)
    ensures p > k
  {
    if k == 0 then 1 else 2 * Pow2(k - 1)
  }

  /** Whether bit `b` of `i` is set: its lowest bit, after shifting it right `b` times. */
  predicate Bit(i: nat, b: nat) {
    if b == 0 then i % 2 == 1 else Bit(i / 2, b - 1)
  }

  /** Variable number `i` forces this literal of the helper for bit `b`. */
  function Spells(helper: Var, i: nat, b: nat): Literal { Literal(helper, !Bit(i, b)) }

  /** `h` is the logarithm of `n` to base two, rounded up: the least number of bits that `n` numbers need. */
  predicate IsCeilLog2(n: nat, h: nat) {
    n <= Pow2(h) && (h > 0 ==> Pow2(h - 1) < n)
  }

  ghost predicate Distinct(s: seq<Var>) {
    forall i, j :: 0 <= i < j < |s| ==> s[i] != s[j]
  }

  /** Variable `i` forces the helper of bit `b`. */
  ghost function Forced(variables: seq<Var>, helpers: seq<Var>, i: nat, b: nat): Implication {
    if i < |variables| && b < |helpers| then (variables[i], Spells(helpers[b], i, b)) else (0, Positive(0))
  }

  ghost predicate IsForced(variables: seq<Var>, helpers: seq<Var>, c: Implication) {
    exists i: nat, b: nat :: i < |variables| && b < |helpers| && c == Forced(variables, helpers, i, b)
  }

  /** The implications are those of every variable for every bit, and there are no others. */
  ghost predicate Exact(variables: seq<Var>, helpers: seq<Var>, emitted: seq<Implication>) {
    && (forall i: nat, b: nat :: i < |variables| && b < |helpers| ==> Forced(variables, helpers, i, b) in emitted)
    && (forall c :: c in emitted ==> IsForced(variables, helpers, c))
    && |emitted| == Product(|variables|, |helpers|)
  }

  function Product(n: nat, h: nat): nat { n * h }

  lemma ProductGrows(n: nat, h: nat)
    ensures Product(n, h + 1) == Product(n, h) + n
    ensures Product(n + 1, h) == Product(n, h) + h
    ensures Product(n, 0) == 0 && Product(0, h) == 0
  {
  }

  ghost predicate Below(s: seq<Var>, bound: Var) {
    forall i :: 0 <= i < |s| ==> s[i] < bound
  }

  ghost predicate Apart(variables: seq<Var>, helpers: seq<Var>) {
    forall v :: v in variables ==> v !in helpers
  }

  class AtMostOnceTracker {
    var variables: seq<Var>
    var helpers: seq<Var>
    /** Everything emitted so far. */
    ghost var emitted: seq<Implication>

    ghost predicate Valid()
      reads this
    {
      && Distinct(variables) && Distinct(helpers) && Apart(variables, helpers)
      && IsCeilLog2(|variables|, |helpers|) && Exact(variables, helpers, emitted)
    }

    constructor ()
      ensures Valid() && variables == [] && helpers == [] && emitted == []
    {
      variables, helpers, emitted := [], [], [];
    }

    /** A tracker in the given state. */
    constructor From(variables: seq<Var>, helpers: seq<Var>, ghost emitted: seq<Implication>)
      requires Distinct(variables) && Distinct(helpers) && Apart(variables, helpers)
      requires IsCeilLog2(|variables|, |helpers|) && Exact(variables, helpers, emitted)
      ensures Valid() && this.variables == variables && this.helpers == helpers && this.emitted == emitted
    {
      this.variables, this.helpers, this.emitted := variables, helpers, emitted;
    }

    /** Adds a variable unless it is tracked already.  New helpers are numbered from `free`; `next` is the first
        number left. */
    method Add(variable: Var, free: Var) returns (added: bool, clauses: seq<Implication>, next: Var)
      requires Valid() && Below(variables, free) && Below(helpers, free) && variable < free && variable !in helpers
      modifies this
      ensures Valid() && emitted == old(emitted) + clauses
      ensures added <==> variable !in old(variables)
      ensures variables == if added then old(variables) + [variable] else old(variables)
      ensures old(helpers) <= helpers && next >= free && Below(helpers, next)
      ensures forall b :: |old(helpers)| <= b < |helpers| ==> free <= helpers[b] < next
      ensures !added ==> helpers == old(helpers) && clauses == [] && next == free
    {
      hide Exact, Distinct, Apart, Below, Product;
      next, clauses := free, [];
      if variable in variables {
        return false, [], free;
      }
      added := true;
      AppendKeepsShape(variables, helpers, variable, free);
      if variables == [] {
        FirstIsExact(variable, helpers, emitted);
        assert variables + [variable] == [variable];
        variables := [variable];
        return;
      }
      clauses, next := GrowHelpers(variable, free);
      var cs := Row(variable, |variables|);
      RowIsExact(variables, helpers, emitted, variable, cs);
      AppendKeepsShape(variables, helpers, variable, next);
      variables := variables + [variable];
      clauses := clauses + cs;
      emitted := emitted + cs;
    }

    /** Allocates helpers until one more number fits, with the implications of the variables there are. */
    method GrowHelpers(variable: Var, free: Var) returns (clauses: seq<Implication>, next: Var)
      requires Valid() && variables != [] && Below(variables, free) && Below(helpers, free) && variable < free &&
               variable !in helpers
      modifies this`helpers, this`emitted
      ensures emitted == old(emitted) + clauses && Exact(variables, helpers, emitted)
      ensures Distinct(helpers) && Apart(variables, helpers) && variable !in helpers
      ensures |variables| < Pow2(|helpers|) && |helpers| > 0 && Pow2(|helpers| - 1) <= |variables|
      ensures old(helpers) <= helpers && next >= free && Below(helpers, next)
      ensures forall b :: |old(helpers)| <= b < |helpers| ==> free <= helpers[b] < next
    {
      hide Exact, Distinct, Apart, Below, Product;
      next, clauses := free, [];
      while |variables| > Pow2(|helpers|) - 1
        invariant emitted == old(emitted) + clauses && Exact(variables, helpers, emitted)
        invariant Distinct(helpers) && Apart(variables, helpers) && variable !in helpers
        invariant old(helpers) <= helpers && next >= free && Below(helpers, next)
        invariant forall b :: |old(helpers)| <= b < |helpers| ==> free <= helpers[b] < next
        invariant |helpers| > 0 ==> Pow2(|helpers| - 1) <= |variables|
        decreases |variables| - |helpers|
      {
        HelperIsFresh(variables, helpers, variable, free, next);
        var cs := Column(next, |helpers|);
        ColumnIsExact(variables, helpers, emitted, next, cs);
        helpers := helpers + [next];
        clauses, next := clauses + cs, next + 1;
        emitted := emitted + cs;
      }
    }

    /** The implications of all variables for a new helper. */
    method Column(helper: Var, bit: nat) returns (cs: seq<Implication>)
      ensures |cs| == |variables| && forall i :: 0 <= i < |cs| ==> cs[i] == (variables[i], Spells(helper, i, bit))
    {
      cs := [];
      for i := 0 to |variables|
        invariant |cs| == i && forall j :: 0 <= j < i ==> cs[j] == (variables[j], Spells(helper, j, bit))
      {
        cs := cs + [(variables[i], Spells(helper, i, bit))];
      }
    }

    /** The implications of a new variable for all helpers. */
    method Row(variable: Var, index: nat) returns (cs: seq<Implication>)
      ensures |cs| == |helpers| && forall b :: 0 <= b < |cs| ==> cs[b] == (variable, Spells(helpers[b], index, b))
    {
      cs := [];
      for b := 0 to |helpers|
        invariant |cs| == b && forall j :: 0 <= j < b ==> cs[j] == (variable, Spells(helpers[j], index, j))
      {
        cs := cs + [(variable, Spells(helpers[b], index, b))];
      }
    }
  }

  lemma FirstIsExact(variable: Var, helpers: seq<Var>, emitted: seq<Implication>)
    requires Exact([], helpers, emitted) && IsCeilLog2(0, |helpers|)
    ensures helpers == [] && Exact([variable], helpers, emitted) && IsCeilLog2(1, |helpers|)
  {
  }

  lemma AppendKeepsShape(variables: seq<Var>, helpers: seq<Var>, variable: Var, free: Var)
    requires Distinct(variables) && Apart(variables, helpers) && variable !in variables && variable !in helpers
    ensures Distinct(variables + [variable]) && Apart(variables + [variable], helpers)
  {
  }

  lemma HelperIsFresh(variables: seq<Var>, helpers: seq<Var>, variable: Var, free: Var, helper: Var)
    requires Distinct(helpers) && Apart(variables, helpers) && Below(helpers, helper) && Below(variables, free) &&
             variable < free <= helper
    requires variable !in helpers
    ensures Distinct(helpers + [helper]) && Apart(variables, helpers + [helper]) &&
            Below(helpers + [helper], helper + 1)
    ensures variable !in helpers + [helper]
  {
  }

  lemma ColumnIsExact(variables: seq<Var>, helpers: seq<Var>, emitted: seq<Implication>, helper: Var,
                      cs: seq<Implication>)
    requires Exact(variables, helpers, emitted) && |cs| == |variables|
    requires forall i :: 0 <= i < |cs| ==> cs[i] == (variables[i], Spells(helper, i, |helpers|))
    ensures Exact(variables, helpers + [helper], emitted + cs)
  {
    hide Product;
    ProductGrows(|variables|, |helpers|);
    var helpers' := helpers + [helper];
    forall i: nat, b: nat | i < |variables| &&
    b < |helpers'| ensures Forced(variables, helpers', i, b) in emitted + cs {
      if b < |helpers| {
        assert Forced(variables, helpers', i, b) == Forced(variables, helpers, i, b);
      } else {
        assert cs[i] in cs;
      }
    }
    forall c | c in emitted + cs ensures IsForced(variables, helpers', c) {
      if c in cs {
        var i :| 0 <= i < |cs| && c == cs[i];
        assert c == Forced(variables, helpers', i, |helpers|);
      } else {
        StillForced(variables, helpers, c, variables, helpers');
      }
    }
  }

  lemma StillForced(variables: seq<Var>, helpers: seq<Var>, c: Implication, variables': seq<Var>, helpers': seq<Var>)
    requires IsForced(variables, helpers, c) && variables <= variables' && helpers <= helpers'
    ensures IsForced(variables', helpers', c)
  {
    hide Spells;
    var i: nat, b: nat :| i < |variables| && b < |helpers| && c == Forced(variables, helpers, i, b);
    assert c == Forced(variables', helpers', i, b);
  }

  lemma RowIsExact(variables: seq<Var>, helpers: seq<Var>, emitted: seq<Implication>, variable: Var,
                   cs: seq<Implication>)
    requires Exact(variables, helpers, emitted) && |cs| == |helpers|
    requires forall b :: 0 <= b < |cs| ==> cs[b] == (variable, Spells(helpers[b], |variables|, b))
    ensures Exact(variables + [variable], helpers, emitted + cs)
  {
    hide Product;
    ProductGrows(|variables|, |helpers|);
    var variables' := variables + [variable];
    forall i: nat, b: nat | i < |variables'| &&
    b < |helpers| ensures Forced(variables', helpers, i, b) in emitted + cs {
      if i < |variables| {
        assert Forced(variables', helpers, i, b) == Forced(variables, helpers, i, b);
      } else {
        assert cs[b] in cs;
      }
    }
    forall c | c in emitted + cs ensures IsForced(variables', helpers, c) {
      if c in cs {
        var b :| 0 <= b < |cs| && c == cs[b];
        assert c == Forced(variables', helpers, |variables|, b);
      } else {
        StillForced(variables, helpers, c, variables', helpers);
      }
    }
  }

  /** What the implications mean. */
  ghost predicate Respects(a: Assignment, emitted: seq<Implication>) {
    forall c :: c in emitted && c.0 in a ==> Holds(a, c.1)
  }

  ghost predicate AtMostOneTrue(a: Assignment, variables: seq<Var>) {
    forall i, j :: 0 <= i < j < |variables| ==> !(variables[i] in a && variables[j] in a)
  }

  /** Two numbers of `h` bits that agree on every bit are the same. */
  lemma {:induction false} BitsDiffer(i: nat, j: nat, h: nat) returns (b: nat)
    requires i < Pow2(h) && j < Pow2(h) && i != j
    ensures b < h && Bit(i, b) != Bit(j, b)
  {
    if i % 2 != j % 2 {
      b := 0;
    } else {
      b := BitsDiffer(i / 2, j / 2, h - 1);
      b := b + 1;
    }
  }

  /** Two true variables falsify one of the implications. */
  lemma ForcedExclude(variables: seq<Var>, helpers: seq<Var>, a: Assignment)
    requires IsCeilLog2(|variables|, |helpers|)
    requires forall c: Implication :: IsForced(variables, helpers, c) && c.0 in a ==> Holds(a, c.1)
    ensures AtMostOneTrue(a, variables)
  {
    hide Bit;
    forall i, j | 0 <= i < j < |variables| ensures !(variables[i] in a && variables[j] in a) {
      var b := BitsDiffer(i, j, |helpers|);
      assert IsForced(variables, helpers, Forced(variables, helpers, i, b)) &&
             IsForced(variables, helpers, Forced(variables, helpers, j, b));
    }
  }

  lemma ImplicationsExclude(variables: seq<Var>, helpers: seq<Var>, emitted: seq<Implication>, a: Assignment)
    requires Exact(variables, helpers, emitted) && IsCeilLog2(|variables|, |helpers|) && Respects(a, emitted)
    ensures AtMostOneTrue(a, variables)
  {
    hide Spells, Product;
    forall c: Implication | IsForced(variables, helpers, c) && c.0 in a ensures Holds(a, c.1) {
      assert c in emitted;
    }
    ForcedExclude(variables, helpers, a);
  }

  /** The helpers that spell the number of the true variable; all are false if there is none. */
  ghost predicate HelperTrue(a: Assignment, variables: seq<Var>, helpers: seq<Var>, v: Var) {
    exists i: nat, b: nat :: i < |variables| && b < |helpers| && variables[i] in a && helpers[b] == v && Bit(i, b)
  }

  /** With at most one variable true, setting the helpers to its number satisfies every implication. */
  lemma HelpersExtend(variables: seq<Var>, helpers: seq<Var>, emitted: seq<Implication>, a: Assignment, a': Assignment)
    requires Exact(variables, helpers, emitted) && Distinct(helpers) && AtMostOneTrue(a, variables)
    requires forall v :: v in variables ==> (v in a' <==> v in a)
    requires forall v :: v in helpers ==> (v in a' <==> HelperTrue(a, variables, helpers, v))
    ensures Respects(a', emitted)
  {
    hide Bit, Product, IsForced;
    forall c | c in emitted && c.0 in a' ensures Holds(a', c.1) {
      assert IsForced(variables, helpers, c);
      ForcedHolds(variables, helpers, a, a', c);
    }
  }

  lemma ForcedHolds(variables: seq<Var>, helpers: seq<Var>, a: Assignment, a': Assignment, c: Implication)
    requires IsForced(variables, helpers, c) && Distinct(helpers) && AtMostOneTrue(a, variables)
    requires forall v :: v in variables ==> (v in a' <==> v in a)
    requires forall v :: v in helpers ==> (v in a' <==> HelperTrue(a, variables, helpers, v))
    ensures c.0 in a' ==> Holds(a', c.1)
  {
    hide Bit, HelperTrue;
    var i: nat, b: nat :| i < |variables| && b < |helpers| && c == Forced(variables, helpers, i, b);
    if variables[i] in a {
      HelperSpells(variables, helpers, a, i, b);
      assert helpers[b] in helpers && variables[i] in variables;
    }
  }

  lemma HelperSpells(variables: seq<Var>, helpers: seq<Var>, a: Assignment, i: nat, b: nat)
    requires i < |variables| && b < |helpers| && variables[i] in a && Distinct(helpers) && AtMostOneTrue(a, variables)
    ensures HelperTrue(a, variables, helpers, helpers[b]) <==> Bit(i, b)
  {
    hide Bit;
    if j: nat, d: nat :| j < |variables| && d < |helpers| && variables[j] in a
                         && helpers[d] == helpers[b] && Bit(j, d) {
      assert !(i < j) && !(j < i) && !(b < d) && !(d < b);
    }
  }

  /** The implications are exact: an assignment of the variables extends to the helpers exactly when at most one
      is true. */
  lemma AtMostOneIsExact(variables: seq<Var>, helpers: seq<Var>, emitted: seq<Implication>, a: Assignment)
    requires Exact(variables, helpers, emitted) && IsCeilLog2(|variables|, |helpers|) && Distinct(helpers) &&
             Apart(variables, helpers)
    ensures AtMostOneTrue(a, variables) <==>
              exists a': Assignment :: (forall v :: v !in helpers ==> (v in a' <==> v in a)) && Respects(a', emitted)
  {
    hide Exact, IsCeilLog2, Distinct, HelperTrue, Respects;
    if AtMostOneTrue(a, variables) {
      var a' := iset v: Var | if v in helpers then HelperTrue(a, variables, helpers, v) else v in a;
      HelpersExtend(variables, helpers, emitted, a, a');
    }
    if a': Assignment :| (forall v :: v !in helpers ==> (v in a' <==> v in a)) && Respects(a', emitted) {
      ImplicationsExclude(variables, helpers, emitted, a');
      forall i | 0 <= i < |variables| ensures variables[i] in a' <==> variables[i] in a {
        assert variables[i] in variables;
      }
    }
  }
}
