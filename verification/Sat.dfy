/**
 Literals, clauses and what they mean.

 A total assignment is the set of variables it makes true.  A clause is the list of
 its literals, and a clause database is a list of such lists indexed by clause id.
 */
module Sat {

  datatype Option<+T> = None | Some(value: T)

  type Var = nat
  type ClauseId = nat

  /** The variable of the root solvable. */
  const ROOT: Var := 0

  /** The id of the clause that installs the root; it is always the first clause. */
  const INSTALL_ROOT: ClauseId := 0

  datatype Literal = Literal(variable: Var, negate: bool)

  function Positive(v: Var): Literal { Literal(v, false) }

  function Negative(v: Var): Literal { Literal(v, true) }

  type Assignment = iset<Var>

  type Clause = seq<Literal>

  ghost predicate Holds(a: Assignment, l: Literal) {
    (l.variable in a) != l.negate
  }

  ghost predicate Satisfies(a: Assignment, c: Clause) {
    exists l :: l in c && Holds(a, l)
  }

  /** `a` satisfies each clause of `db` named by `ids`. */
  ghost predicate SatisfiesAll(a: Assignment, db: seq<Clause>, ids: set<ClauseId>) {
    forall id :: id in ids && id < |db| ==> Satisfies(a, db[id])
  }

  /** Every model of the clauses `ids` of `db` makes some literal of `lits` true. */
  ghost predicate Entails(db: seq<Clause>, ids: set<ClauseId>, lits: set<Literal>) {
    forall a: Assignment :: SatisfiesAll(a, db, ids) ==> exists l :: l in lits && Holds(a, l)
  }

  /** The elements of a sequence, as a set. */
  ghost function Elements<T>(s: seq<T>): set<T> { set x | x in s }

  lemma SmallerSubset<T>(a: set<T>, b: set<T>)
    requires a <= b
    ensures |a| <= |b|
  {
    assert b == a + (b - a);
  }
}
