/**
 What it means that no decision is left and no gate is stuck: every requirement that was encoded
 for an installed parent has an installed candidate, whether it is encoded directly or through a
 shared gate, and whatever was undone in between.
 */
module Finishing {
  import opened Sat
  import opened Trails
  import opened Clauses
  import opened DecisionTrackers
  import opened Walks
  import opened Selection
  import opened QueueIndex
  import opened DecideQueues
  import opened Deciding
  import opened Gates

  /** An unconditional clause that offers the candidates of `r` to `parent`. */
  ghost predicate OfferedTo(clauses: seq<TrackedClause>, parent: Var, r: Requirement) {
    exists i :: 0 <= i < |clauses| && clauses[i].parent == parent && clauses[i].requirement == r &&
                clauses[i].condition == None
  }

  /** The requirement of `parent` was encoded: with a clause of its own, or through a gate. */
  ghost predicate Encoded(clauses: seq<TrackedClause>, gates: seq<GateEntry>, parent: Var, r: Requirement) {
    || OfferedTo(clauses, parent, r)
    || exists gate: Var, id: ClauseId :: Implication(gates, gate, parent, id) && OfferedTo(clauses, gate, r)
  }

  /** Every requirement encoded for an installed parent has an installed candidate. */
  ghost predicate Complete(env: Provider, clauses: seq<TrackedClause>, gates: seq<GateEntry>, m: DecisionMap) {
    forall parent: Var, r: Requirement :: Encoded(clauses, gates, parent, r) && ValueIn(m, parent) == Some(true) ==>
      AnyTrue(env.walk(r), m)
  }

  /** Without an eligible clause, every unconditional clause whose parent is installed has an installed candidate. */
  lemma NothingEligible(env: Provider, clauses: seq<TrackedClause>, m: DecisionMap, parent: Var, r: Requirement)
    requires !SomeEligible(env, clauses, m) && OfferedTo(clauses, parent, r) && ValueIn(m, parent) == Some(true)
    ensures AnyTrue(env.walk(r), m)
  {
    hide AnyTrue, ValueIn;
    var i :| 0 <= i < |clauses| && clauses[i].parent == parent && clauses[i].requirement == r &&
    clauses[i].condition == None;
    assert !IsEligible(env, clauses[i], m);
  }

  /** A decision that was taken is an offer of an eligible clause: an undecided candidate of its requirement. */
  lemma DecisionIsCandidate(env: Provider, clauses: seq<TrackedClause>, m: DecisionMap, activity: map<Name, real>,
                            o: Offer)
    returns (id: TrackedId)
    requires DistinctPositions(clauses) && Naive(Offers(env, clauses, m, activity, |clauses|)) == Some(o)
    requires forall i :: 0 <= i < |clauses| && IsEligible(env, clauses[i], m) ==>
               Walk(env.walk(clauses[i].requirement), m) != Dirty
    ensures id < |clauses| && IsEligible(env, clauses[id], m) && o.clauseId == clauses[id].clauseId
    ensures Mentions(env.walk(clauses[id].requirement), o.candidate) && ValueIn(m, o.candidate) == None
    ensures Proposes(env, clauses[id], m, o)
  {
    hide Naive, Offers, DistinctPositions, Walk, IsEligible, NextPreferred, Preferred, ValueIn;
    NaiveDecides(env, clauses, m, activity);
    var chain :| DecisionChain(env, clauses, m, activity, chain) && Proposes(env, clauses[chain[|chain| - 1]], m, o);
    id := chain[|chain| - 1];
  }

  lemma AllNeedsAreMet(env: Provider, clauses: seq<TrackedClause>, gates: seq<GateEntry>, m: DecisionMap, t: Trail,
                       stack: seq<Decision>)
    requires Wf(t) && |stack| == |t.entries| && StackAgrees(stack, t) && MapAgrees(m, t)
    requires !SomeEligible(env, clauses, m) && NoneMissed(t, |t.entries|, gates) && NoneStuck(t, gates)
    ensures Complete(env, clauses, gates, m)
  {
    hide Wf, StackAgrees, MapAgrees, SomeEligible, NoneMissed, NoneStuck, Implication, OfferedTo, AnyTrue,
         ValueIn, IsTrue;
    forall parent: Var, r: Requirement | Encoded(clauses, gates, parent, r) &&
    ValueIn(m, parent) == Some(true) ensures AnyTrue(env.walk(r), m) {
      if OfferedTo(clauses, parent, r) {
        NothingEligible(env, clauses, m, parent, r);
      } else {
        var gate: Var, id: ClauseId :| Implication(gates, gate, parent, id) && OfferedTo(clauses, gate, r);
        ValueOnStack(m, t, stack, parent);
        ValueOnStack(m, t, stack, gate);
        GatesFollow(t, gates, gate, parent, id);
        NothingEligible(env, clauses, m, gate, r);
      }
    }
  }
}
