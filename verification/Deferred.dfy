/**
 Deferred conditional requirements: entries wait, under their condition, until the alternative
 that gates them holds, and are then drained to be encoded.
 */
module Deferred {
  import opened Sat
  import opened Clauses
  import opened Conditions
  import opened Problems

  type ConditionId = nat

  /** One version set of an alternative, with the solvables whose selection makes it hold. */
  datatype Conjunct = SomeMatch(versionSet: VersionSet,
                                matching: seq<SolvableId>) | AllMatch(versionSet: VersionSet, all: seq<SolvableId>)
  {
    function Candidates(): seq<SolvableId> {
      match this
      case SomeMatch(_, matching) => matching
      case AllMatch(_, all) => all
    }
  }

  datatype DeferredRequirement = DeferredRequirement(solvable: Item, requirement: Requirement, condition: ConditionId,
                                                     disjunct: seq<Conjunct>)

  /** A candidate of the conjunct is decided to be selected. */
  predicate ConjunctHolds(conjunct: Conjunct, decided: set<SolvableId>) {
    exists s :: s in conjunct.Candidates() && s in decided
  }

  /** Every conjunct holds; an empty alternative does. */
  predicate DisjunctHolds(disjunct: seq<Conjunct>, decided: set<SolvableId>) {
    forall i :: 0 <= i < |disjunct| ==> ConjunctHolds(disjunct[i], decided)
  }

  predicate Fires(e: DeferredRequirement, decided: set<SolvableId>) { DisjunctHolds(e.disjunct, decided) }

  /** The selection that was decided. */
  ghost function Selected(decided: set<SolvableId>): Choice {
    iset s | s in decided :: Solvable(s)
  }

  /** The entry waits for an alternative of a condition: per version set, the solvables that match it. */
  ghost predicate WaitsFor(p: Problem, e: DeferredRequirement, c: Conjunction) {
    |e.disjunct| == |c| && forall i :: 0 <= i < |c| ==> e.disjunct[i].Candidates() == p.matching(c[i])
  }

  /** An entry fires exactly when the alternative it waits for is true of what is selected. */
  lemma FiresWhenMet(p: Problem, e: DeferredRequirement, c: Conjunction, decided: set<SolvableId>)
    requires WaitsFor(p, e, c)
    ensures Fires(e, decided) <==> AllHold(c, Met(p, Selected(decided)))
  {
    hide ConjunctHolds, SomeMatching;
    forall i | 0 <= i < |c| ensures ConjunctHolds(e.disjunct[i], decided) <==> Met(p, Selected(decided))(c[i]) {
      ConjunctWhenMet(p, e.disjunct[i], c[i], decided);
    }
  }

  lemma ConjunctWhenMet(p: Problem, conjunct: Conjunct, x: VersionSet, decided: set<SolvableId>)
    requires conjunct.Candidates() == p.matching(x)
    ensures ConjunctHolds(conjunct, decided) <==> SomeMatching(p, x, Selected(decided))
  {
    assert forall s: SolvableId :: Solvable(s) in Selected(decided) <==> s in decided;
    if s :| s in conjunct.Candidates() && s in decided {
      assert s in p.matching(x) && Solvable(s) in Selected(decided);
    }
  }

  /** One of the entries of a condition fires exactly when the condition is true of what is selected. */
  lemma ConditionFires(p: Problem, condition: Condition, entries: seq<DeferredRequirement>, decided: set<SolvableId>)
    requires |entries| == |Dnf(condition)|
    requires forall i :: 0 <= i < |entries| ==> WaitsFor(p, entries[i], Dnf(condition)[i])
    ensures (exists i :: 0 <= i < |entries| && Fires(entries[i], decided)) <==>
            Eval(condition, Met(p, Selected(decided)))
  {
    hide Fires, WaitsFor, AllHold, Dnf, Eval;
    var holds := Met(p, Selected(decided));
    DnfIsEquivalent(condition, holds);
    forall i | 0 <= i < |entries| ensures Fires(entries[i], decided) <==> AllHold(Dnf(condition)[i], holds) {
      FiresWhenMet(p, entries[i], Dnf(condition)[i], decided);
    }
    if i :| 0 <= i < |entries| && Fires(entries[i], decided) {
      assert AllHold(Dnf(condition)[i], holds);
    }
    if i :| 0 <= i < |Dnf(condition)| && AllHold(Dnf(condition)[i], holds) {
      assert Fires(entries[i], decided);
    }
  }

  /** No entry that waits fires. */
  ghost predicate NoneReady(entries: Lists, decided: set<SolvableId>) {
    forall c, e :: c in entries && e in entries[c] ==> !Fires(e, decided)
  }

  /** The entries that fire, or those that do not, in order. */
  ghost function Pick(es: seq<DeferredRequirement>, decided: set<SolvableId>, firing: bool): seq<DeferredRequirement> {
    if es == [] then [] else
    (if Fires(es[0], decided) == firing then [es[0]] else []) + Pick(es[1..], decided, firing)
  }

  ghost function Reversed(s: seq<DeferredRequirement>): seq<DeferredRequirement> {
    if s == [] then [] else Reversed(s[1..]) + [s[0]]
  }

  /** The entries of a history that are still open, in order. */
  ghost function Open(history: seq<DeferredRequirement>, open: seq<bool>): seq<DeferredRequirement>
    requires |open| == |history|
  {
    if history == [] then [] else
    (if open[0] then [history[0]] else []) + Open(history[1..], open[1..])
  }

  /** An entry that fires is closed; one that was closed stays so. */
  ghost function Close(history: seq<DeferredRequirement>, open: seq<bool>, decided: set<SolvableId>): (r: seq<bool>)
    requires |open| == |history|
    ensures |r| == |open| && forall i :: 0 <= i < |r| ==> (r[i] <==> open[i] && !Fires(history[i], decided))
  {
    seq(|open|, i requires 0 <= i < |open| => open[i] && !Fires(history[i], decided))
  }

  /** The entries that are drained now: open and firing. */
  ghost function Draining(history: seq<DeferredRequirement>, open: seq<bool>, decided: set<SolvableId>): (r: seq<bool>)
    requires |open| == |history|
    ensures |r| == |open| && forall i :: 0 <= i < |r| ==> (r[i] <==> open[i] && Fires(history[i], decided))
  {
    seq(|open|, i requires 0 <= i < |open| => open[i] && Fires(history[i], decided))
  }

  /** What is waiting splits into what fires now and what is left, each in the order of the pushes. */
  lemma {:induction false} PickIsOpen(history: seq<DeferredRequirement>, open: seq<bool>, decided: set<SolvableId>)
    requires |open| == |history|
    ensures Pick(Open(history, open), decided, true) == Open(history, Draining(history, open, decided))
    ensures Pick(Open(history, open), decided, false) == Open(history, Close(history, open, decided))
  {
    hide Fires;
    if history != [] {
      PickIsOpen(history[1..], open[1..], decided);
      assert Draining(history, open, decided)[1..] == Draining(history[1..], open[1..], decided);
      assert Close(history, open, decided)[1..] == Close(history[1..], open[1..], decided);
      if open[0] {
        assert Open(history, open)[1..] == Open(history[1..], open[1..]);
      } else {
        assert Open(history, open) == Open(history[1..], open[1..]);
      }
    }
  }

  lemma {:induction false} OpenAppend(history: seq<DeferredRequirement>, open: seq<bool>, e: DeferredRequirement)
    requires |open| == |history|
    ensures Open(history + [e], open + [true]) == Open(history, open) + [e]
  {
    if history != [] {
      OpenAppend(history[1..], open[1..], e);
      assert (history + [e])[1..] == history[1..] + [e] && (open + [true])[1..] == open[1..] + [true];
    }
  }

  lemma Grouped(a: seq<DeferredRequirement>, b: seq<DeferredRequirement>, c: seq<DeferredRequirement>)
    ensures a + (b + c) == (a + b) + c
  {
  }

  /** The entries of a list that is put together are picked from each part, in order. */
  lemma {:induction false} PickConcat(es: seq<DeferredRequirement>, more: seq<DeferredRequirement>,
                                      decided: set<SolvableId>, firing: bool)
    ensures Pick(es + more, decided, firing) == Pick(es, decided, firing) + Pick(more, decided, firing)
  {
    hide Fires;
    if es == [] {
      assert es + more == more &&
             Pick(es, decided, firing) + Pick(more, decided, firing) == Pick(more, decided, firing);
    } else {
      PickConcat(es[1..], more, decided, firing);
      assert (es + more)[1..] == es[1..] + more && (es + more)[0] == es[0];
      Grouped(if Fires(es[0], decided) == firing then [es[0]] else [], Pick(es[1..], decided, firing),
              Pick(more, decided, firing));
    }
  }

  lemma {:induction false} PickMembers(es: seq<DeferredRequirement>, decided: set<SolvableId>, firing: bool)
    ensures forall e :: e in Pick(es, decided, firing) <==> e in es && Fires(e, decided) == firing
  {
    hide Fires;
    if es != [] {
      PickMembers(es[1..], decided, firing);
    }
  }

  ghost predicate DistinctKeys(keys: seq<ConditionId>) {
    forall i, j :: 0 <= i < j < |keys| ==> keys[i] != keys[j]
  }

  type Lists = map<ConditionId, seq<DeferredRequirement>>

  /** The entries listed for a condition. */
  function ListFor(lists: Lists, c: ConditionId): seq<DeferredRequirement> {
    if c in lists then lists[c] else []
  }

  ghost function OpenFor(open: map<ConditionId, seq<bool>>, c: ConditionId): seq<bool> {
    if c in open then open[c] else []
  }

  /** Everything ever pushed for a condition is either waiting or was drained. */
  ghost predicate Conserved(entries: Lists, history: Lists, open: map<ConditionId, seq<bool>>) {
    forall c: ConditionId :: |OpenFor(open, c)| == |ListFor(history, c)| &&
                             ListFor(entries, c) == Open(ListFor(history, c), OpenFor(open, c))
  }

  ghost predicate KeysOk(keys: seq<ConditionId>, entries: Lists) {
    && DistinctKeys(keys) && (forall c :: c in keys <==> c in entries)
    && (forall c :: c in entries ==> entries[c] != [] && forall e :: e in entries[c] ==> e.condition == c)
  }

  lemma PushKeeps(keys: seq<ConditionId>, entries: Lists, history: Lists, open: map<ConditionId, seq<bool>>,
                  e: DeferredRequirement)
    requires KeysOk(keys, entries) && Conserved(entries, history, open)
    ensures var c := e.condition; var entries' := entries[c := ListFor(entries, c) + [e]];
      && KeysOk(if c in entries then keys else keys + [c], entries')
      && Conserved(entries', history[c := ListFor(history, c) + [e]], open[c := OpenFor(open, c) + [true]])
  {
    hide Open;
    var c := e.condition;
    var entries', history', open' := entries[c := ListFor(entries, c) + [e]], history[c := ListFor(history, c) + [e]],
                                     open[c := OpenFor(open, c) + [true]];
    OpenAppend(ListFor(history, c), OpenFor(open, c), e);
    forall d: ConditionId
      ensures |OpenFor(open', d)| == |ListFor(history', d)| &&
              ListFor(entries', d) == Open(ListFor(history', d), OpenFor(open', d))
    {
      assert d != c ==> OpenFor(open', d) == OpenFor(open, d) && ListFor(history', d) == ListFor(history, d);
    }
  }

  lemma DrainKeeps(entries: Lists, entries': Lists, history: Lists, open: map<ConditionId, seq<bool>>, c: ConditionId,
                   decided: set<SolvableId>)
    requires Conserved(entries, history, open)
    requires forall d: ConditionId ::
               ListFor(entries', d) == if d == c then Pick(ListFor(entries, c), decided, false) else ListFor(entries, d)
    ensures |OpenFor(open, c)| == |ListFor(history, c)|
    ensures Conserved(entries', history, open[c := Close(ListFor(history, c), OpenFor(open, c), decided)])
    ensures Pick(ListFor(entries, c), decided, true) ==
      Open(ListFor(history, c), Draining(ListFor(history, c), OpenFor(open, c), decided))
  {
    hide Fires, Open, Pick, Close, Draining;
    PickIsOpen(ListFor(history, c), OpenFor(open, c), decided);
  }

  class DeferredRequirements {
    /** The conditions in the order of their slots, and the entries waiting for each. */
    var keys: seq<ConditionId>
    var entries: Lists

    /** Every entry ever pushed, per condition, and which of them have not been drained. */
    ghost var history: Lists
    ghost var open: map<ConditionId, seq<bool>>

    ghost predicate Valid()
      reads this
    {
      KeysOk(keys, entries) && Conserved(entries, history, open)
    }

    constructor ()
      ensures Valid() && keys == [] && entries == map[] && history == map[]
    {
      keys, entries, history, open := [], map[], map[], map[];
    }

    /** An entry starts to wait. */
    method Push(e: DeferredRequirement)
      requires Valid()
      modifies this
      ensures Valid()
      ensures entries == old(entries)[e.condition := old(ListFor(entries, e.condition)) + [e]]
      ensures keys == if e.condition in old(entries) then old(keys) else old(keys) + [e.condition]
      ensures history == old(history)[e.condition := old(ListFor(history, e.condition)) + [e]]
      ensures open == old(open)[e.condition := old(OpenFor(open, e.condition)) + [true]]
    {
      hide KeysOk, Conserved;
      var c := e.condition;
      PushKeeps(keys, entries, history, open, e);
      if c !in entries {
        keys := keys + [c];
      }
      entries := entries[c := ListFor(entries, c) + [e]];
      history := history[c := ListFor(history, c) + [e]];
      open := open[c := OpenFor(open, c) + [true]];
    }

    /** The conditions for which an entry fires, in the order of their slots. */
    method FiredConditions(decided: set<SolvableId>) returns (fired: seq<ConditionId>)
      requires Valid()
      ensures forall c :: c in fired <==> c in entries && exists e :: e in entries[c] && Fires(e, decided)
      ensures DistinctKeys(fired) && fired == FiredKeys(keys, entries, decided)
      ensures fired == [] <==> NoneReady(entries, decided)
    {
      hide Fires, Conserved, NoneReady;
      fired := [];
      for i := 0 to |keys|
        invariant fired == FiredKeys(keys[..i], entries, decided)
      {
        var c := keys[i];
        assert c in keys && keys[..i + 1][..i] == keys[..i];
        if exists e :: e in entries[c] && Fires(e, decided) {
          fired := fired + [c];
        }
      }
      assert keys[..|keys|] == keys;
      FiredKeysAre(keys, entries, decided);
      NoneFired(fired, entries, decided);
    }

    /** Takes the entries of a condition that fire, in the order they were pushed, and leaves the others in order. */
    method DrainFired(c: ConditionId, decided: set<SolvableId>) returns (fired: seq<DeferredRequirement>)
      requires Valid()
      modifies this
      ensures Valid() && history == old(history)
      ensures fired == Pick(old(ListFor(entries, c)), decided, true)
      ensures forall d: ConditionId ::
                ListFor(entries, d) == if d == c then Pick(old(ListFor(entries, c)), decided, false)
                                       else old(ListFor(entries, d))
      ensures |OpenFor(old(open), c)| == |ListFor(history, c)|
      ensures open == old(open)[c := Close(ListFor(history, c), OpenFor(old(open), c), decided)]
      ensures fired == Open(ListFor(history, c), Draining(ListFor(history, c), OpenFor(old(open), c), decided))
    {
      hide Fires, Conserved, KeysOk, Open, Close, Draining;
      if c in entries {
        var rest: seq<DeferredRequirement>;
        var i := SlotOf(c);
        RemovedKey(keys, entries, i);
        KeptKey(keys, entries, c, decided);
        fired, rest := Split(entries[c], decided);
        if rest == [] {
          keys := keys[i := keys[|keys| - 1]][..|keys| - 1];
          entries := entries - {c};
        } else {
          entries := entries[c := rest];
        }
      } else {
        fired := [];
      }
      DrainKeeps(old(entries), entries, history, open, c, decided);
      open := open[c := Close(ListFor(history, c), OpenFor(open, c), decided)];
    }

    /** Which entries fire is settled first; they are then removed from the back, so that no index shifts. */
    method Split(list: seq<DeferredRequirement>,
                 decided: set<SolvableId>) returns (fired: seq<DeferredRequirement>, rest: seq<DeferredRequirement>)
      ensures fired == Pick(list, decided, true) && rest == Pick(list, decided, false)
    {
      hide Fires, Pick, Reversed;
      PickNothing(decided);
      var mask := seq(|list|, i requires 0 <= i < |list| => Fires(list[i], decided));
      rest, fired := list, [];
      assert list[|list|..] == [] && list[..|list|] == list;
      for i := |list| downto 0
        invariant rest == list[..i] + Pick(list[i..], decided, false)
        invariant fired == Reversed(Pick(list[i..], decided, true))
      {
        SplitStep(list, i, decided);
        assert mask[i] == Fires(list[i], decided);
        if mask[i] {
          fired := fired + [rest[i]];
          rest := rest[..i] + rest[i + 1..];
        }
      }
      assert list[0..] == list;
      ReversedTwice(Pick(list, decided, true));
      fired := Reverse(fired);
    }

    method SlotOf(c: ConditionId) returns (i: nat)
      requires KeysOk(keys, entries) && c in entries
      ensures i < |keys| && keys[i] == c
    {
      i := 0;
      assert c in keys && keys[..|keys|] == keys;
      while i < |keys| && keys[i] != c
        invariant i <= |keys| && c !in keys[..i]
      {
        i := i + 1;
      }
    }

    /** The number of entries that wait. */
    function Count(): nat
      reads this
    {
      CountWaiting(keys, entries)
    }

    /** Drains all conditions that have fired: condition by condition in the order of the slots, the entries that
        hold in the order they were pushed.  Afterwards nothing that is waiting holds, and exactly what was drained is
        closed. */
    method DrainAll(decided: set<SolvableId>) returns (drained: seq<DeferredRequirement>)
      requires Valid()
      modifies this
      ensures Valid() && history == old(history)
      ensures drained == Gather(old(keys), old(entries), decided)
      ensures forall c: ConditionId :: ListFor(entries, c) == Pick(old(ListFor(entries, c)), decided, false)
      ensures forall c: ConditionId :: |OpenFor(old(open), c)| == |ListFor(history, c)|
      ensures forall c: ConditionId :: OpenFor(open, c) == Close(ListFor(history, c), OpenFor(old(open), c), decided)
      ensures NoneReady(entries, decided)
    {
      hide Fires, Pick, Conserved, KeysOk, Open, Close, Draining, Gather, FiredKeys, NoneReady, DrainedFor,
           ClosedFor, ListFor, OpenFor;
      var fired := FiredConditions(decided);
      drained := [];
      OpenLengths(entries, history, open);
      NothingDrained(entries, history, open, decided);
      GatherNothing(old(entries), decided);
      for i := 0 to |fired|
        invariant Valid() && history == old(history)
        invariant DrainedFor(fired[..i], old(entries), entries, decided)
        invariant ClosedFor(fired[..i], history, old(open), open, decided)
        invariant drained == Gather(fired[..i], old(entries), decided)
      {
        var c := fired[i];
        assert fired[..i + 1] == fired[..i] + [c] && c !in fired[..i];
        ghost var entriesThen, openThen := entries, open;
        var more := DrainFired(c, decided);
        DrainedMore(fired[..i], c, old(entries), entriesThen, entries, decided);
        ClosedMore(fired[..i], c, history, old(open), openThen, open, decided);
        GatherMore(fired[..i], c, old(entries), decided);
        drained := drained + more;
      }
      assert fired[..|fired|] == fired;
      GatherFired(old(keys), old(entries), decided);
      NothingLeft(old(entries), entries, fired, decided);
      NothingElseCloses(fired, old(entries), history, old(open), open, decided);
    }
  }

  /** The conditions in `done` have lost their firing entries; the others are as before. */
  ghost predicate DrainedFor(done: seq<ConditionId>, before: Lists, now: Lists, decided: set<SolvableId>) {
    forall c: ConditionId ::
      ListFor(now, c) == if c in done then Pick(ListFor(before, c), decided, false) else ListFor(before, c)
  }

  /** The firing entries of the conditions in `done` are closed, and no others. */
  ghost predicate ClosedFor(done: seq<ConditionId>, history: Lists, before: map<ConditionId, seq<bool>>,
                            now: map<ConditionId, seq<bool>>, decided: set<SolvableId>) {
    && (forall c: ConditionId :: |OpenFor(before, c)| == |ListFor(history, c)|)
    && (forall c: ConditionId ::
          OpenFor(now, c) == if c in done then Close(ListFor(history, c), OpenFor(before, c), decided)
                             else OpenFor(before, c))
  }

  lemma NothingDrained(entries: Lists, history: Lists, open: map<ConditionId, seq<bool>>, decided: set<SolvableId>)
    requires forall c: ConditionId :: |OpenFor(open, c)| == |ListFor(history, c)|
    ensures DrainedFor([], entries, entries, decided) && ClosedFor([], history, open, open, decided)
  {
  }

  lemma DrainedMore(done: seq<ConditionId>, c: ConditionId, before: Lists, mid: Lists, now: Lists,
                    decided: set<SolvableId>)
    requires DrainedFor(done, before, mid, decided) && c !in done
    requires forall d: ConditionId ::
               ListFor(now, d) == if d == c then Pick(ListFor(mid, c), decided, false) else ListFor(mid, d)
    ensures DrainedFor(done + [c], before, now, decided) && ListFor(mid, c) == ListFor(before, c)
  {
    hide Pick, ListFor;
  }

  lemma ClosedMore(done: seq<ConditionId>, c: ConditionId, history: Lists, before: map<ConditionId, seq<bool>>,
                   mid: map<ConditionId, seq<bool>>, now: map<ConditionId, seq<bool>>, decided: set<SolvableId>)
    requires ClosedFor(done, history, before, mid, decided) && c !in done
    requires |OpenFor(mid, c)| == |ListFor(history, c)|
    requires now == mid[c := Close(ListFor(history, c), OpenFor(mid, c), decided)]
    ensures ClosedFor(done + [c], history, before, now, decided)
  {
    hide Close, ListFor;
    assert forall d: ConditionId :: d != c ==> OpenFor(now, d) == OpenFor(mid, d);
  }

  lemma NothingElseCloses(fired: seq<ConditionId>, entries: Lists, history: Lists, open: map<ConditionId, seq<bool>>,
                          open': map<ConditionId, seq<bool>>, decided: set<SolvableId>)
    requires Conserved(entries, history, open) && ClosedFor(fired, history, open, open', decided)
    requires forall c :: c in fired <==> c in entries && exists e :: e in entries[c] && Fires(e, decided)
    ensures forall c: ConditionId :: OpenFor(open', c) == Close(ListFor(history, c), OpenFor(open, c), decided)
  {
    hide Fires, Close, Conserved, OpenFor;
    forall c: ConditionId ensures OpenFor(open', c) == Close(ListFor(history, c), OpenFor(open, c), decided) {
      if c !in fired {
        NothingCloses(entries, history, open, c, decided);
      }
    }
  }

  /** The conditions for which an entry fires, in order. */
  ghost function FiredKeys(keys: seq<ConditionId>, entries: Lists, decided: set<SolvableId>): seq<ConditionId> {
    if keys == [] then [] else
      var c := keys[|keys| - 1];
      FiredKeys(keys[..|keys| - 1], entries, decided) +
      if exists e :: e in ListFor(entries, c) && Fires(e, decided) then [c] else []
  }

  /** The entries that fire, condition by condition. */
  ghost function Gather(keys: seq<ConditionId>, entries: Lists, decided: set<SolvableId>): seq<DeferredRequirement> {
    if keys == [] then [] else
      Gather(keys[..|keys| - 1], entries, decided) + Pick(ListFor(entries, keys[|keys| - 1]), decided, true)
  }

  function CountWaiting(keys: seq<ConditionId>, entries: Lists): nat {
    if keys == [] then 0 else CountWaiting(keys[..|keys| - 1], entries) + |ListFor(entries, keys[|keys| - 1])|
  }

  lemma {:induction false} FiredKeysAre(keys: seq<ConditionId>, entries: Lists, decided: set<SolvableId>)
    requires DistinctKeys(keys)
    ensures var fired := FiredKeys(keys, entries, decided);
      && DistinctKeys(fired)
      && forall c :: c in fired <==> c in keys && exists e :: e in ListFor(entries, c) && Fires(e, decided)
  {
    hide Fires;
    if keys != [] {
      FiredKeysAre(keys[..|keys| - 1], entries, decided);
      assert forall c :: c in keys <==> c in keys[..|keys| - 1] || c == keys[|keys| - 1];
    }
  }

  lemma GatherNothing(entries: Lists, decided: set<SolvableId>)
    ensures Gather([], entries, decided) == []
  {
  }

  lemma GatherMore(keys: seq<ConditionId>, c: ConditionId, entries: Lists, decided: set<SolvableId>)
    ensures Gather(keys + [c], entries, decided) ==
      Gather(keys, entries, decided) + Pick(ListFor(entries, c), decided, true)
  {
    assert (keys + [c])[..|keys|] == keys;
  }

  /** Conditions that have not fired contribute nothing. */
  lemma {:induction false} GatherFired(keys: seq<ConditionId>, entries: Lists, decided: set<SolvableId>)
    ensures Gather(FiredKeys(keys, entries, decided), entries, decided) == Gather(keys, entries, decided)
  {
    hide Fires, Pick;
    if keys != [] {
      var n := |keys| - 1;
      var c, fired := keys[n], FiredKeys(keys[..n], entries, decided);
      GatherFired(keys[..n], entries, decided);
      GatherMore(fired, c, entries, decided);
      assert fired + [] == fired;
      if !exists e :: e in ListFor(entries, c) && Fires(e, decided) {
        NonePicked(ListFor(entries, c), decided);
      }
    }
  }

  lemma {:induction false} NonePicked(es: seq<DeferredRequirement>, decided: set<SolvableId>)
    requires forall e :: e in es ==> !Fires(e, decided)
    ensures Pick(es, decided, true) == []
  {
    hide Fires;
    if es != [] {
      NonePicked(es[1..], decided);
    }
  }

  lemma {:induction false} PickIsShorter(es: seq<DeferredRequirement>, decided: set<SolvableId>, firing: bool)
    ensures |Pick(es, decided, firing)| <= |es|
  {
    hide Fires;
    if es != [] {
      PickIsShorter(es[1..], decided, firing);
    }
  }

  /** No more is drained than is waiting. */
  lemma {:induction false} GatherIsShorter(keys: seq<ConditionId>, entries: Lists, decided: set<SolvableId>)
    ensures |Gather(keys, entries, decided)| <= CountWaiting(keys, entries)
  {
    hide Pick;
    if keys != [] {
      GatherIsShorter(keys[..|keys| - 1], entries, decided);
      PickIsShorter(ListFor(entries, keys[|keys| - 1]), decided, true);
    }
  }

  /** What is drained are the entries that were waiting and hold. */
  lemma {:induction false} GatherMembers(keys: seq<ConditionId>, entries: Lists, decided: set<SolvableId>,
                                         e: DeferredRequirement)
    ensures e in Gather(keys, entries, decided) <==>
              Fires(e, decided) && exists c :: c in keys && e in ListFor(entries, c)
  {
    hide Fires, Pick;
    if keys != [] {
      var n := |keys| - 1;
      GatherMembers(keys[..n], entries, decided, e);
      PickMembers(ListFor(entries, keys[n]), decided, true);
      assert forall c :: c in keys <==> c in keys[..n] || c == keys[n];
    }
  }

  lemma OpenLengths(entries: Lists, history: Lists, open: map<ConditionId, seq<bool>>)
    requires Conserved(entries, history, open)
    ensures forall c: ConditionId :: |OpenFor(open, c)| == |ListFor(history, c)|
  {
  }

  /** A condition that has not fired keeps its entries open. */
  lemma NothingCloses(entries: Lists, history: Lists, open: map<ConditionId, seq<bool>>, c: ConditionId,
                      decided: set<SolvableId>)
    requires Conserved(entries, history, open) && forall e :: e in ListFor(entries, c) ==> !Fires(e, decided)
    ensures |OpenFor(open, c)| == |ListFor(history, c)|
    ensures Close(ListFor(history, c), OpenFor(open, c), decided) == OpenFor(open, c)
  {
    hide Fires, Open;
    var h, o := ListFor(history, c), OpenFor(open, c);
    forall i | 0 <= i < |o| && o[i] ensures !Fires(h[i], decided) {
      OpenHas(h, o, i);
    }
  }

  lemma {:induction false} OpenHas(history: seq<DeferredRequirement>, open: seq<bool>, i: nat)
    requires |open| == |history| && i < |open| && open[i]
    ensures history[i] in Open(history, open)
  {
    if i > 0 {
      OpenHas(history[1..], open[1..], i - 1);
    }
  }

  lemma NoneFired(fired: seq<ConditionId>, entries: Lists, decided: set<SolvableId>)
    requires forall c :: c in fired <==> c in entries && exists e :: e in entries[c] && Fires(e, decided)
    ensures fired == [] <==> NoneReady(entries, decided)
  {
    hide Fires;
    assert fired != [] ==> fired[0] in fired;
  }

  lemma PickNothing(decided: set<SolvableId>)
    ensures Pick([], decided, true) == [] && Pick([], decided, false) == [] && Reversed([]) == []
  {
  }

  lemma SplitStep(list: seq<DeferredRequirement>, i: nat, decided: set<SolvableId>)
    requires i < |list|
    ensures list[..i + 1] == list[..i] + [list[i]]
    ensures Pick(list[i..], decided, false) ==
      (if Fires(list[i], decided) then [] else [list[i]]) + Pick(list[i + 1..], decided, false)
    ensures Reversed(Pick(list[i..], decided, true)) ==
      Reversed(Pick(list[i + 1..], decided, true)) + if Fires(list[i], decided) then [list[i]] else []
  {
    hide Fires;
    assert list[i..][0] == list[i] && list[i..][1..] == list[i + 1..];
    ReversedCons(list[i], Pick(list[i + 1..], decided, true));
    assert [] + Pick(list[i + 1..], decided, true) == Pick(list[i + 1..], decided, true);
  }

  lemma KeptKey(keys: seq<ConditionId>, entries: Lists, c: ConditionId, decided: set<SolvableId>)
    requires KeysOk(keys, entries) && c in entries
    ensures var rest := Pick(entries[c], decided, false); rest != [] ==> KeysOk(keys, entries[c := rest])
  {
    hide Fires;
    PickMembers(entries[c], decided, false);
  }

  lemma ReversedCons(x: DeferredRequirement, s: seq<DeferredRequirement>)
    ensures Reversed([x] + s) == Reversed(s) + [x]
  {
    assert ([x] + s)[1..] == s;
  }

  lemma NothingLeft(before: Lists, after: Lists, fired: seq<ConditionId>, decided: set<SolvableId>)
    requires forall c :: c in fired <==> c in before && exists e :: e in before[c] && Fires(e, decided)
    requires DrainedFor(fired, before, after, decided)
    ensures NoneReady(after, decided)
    ensures forall c: ConditionId :: ListFor(after, c) == Pick(ListFor(before, c), decided, false)
  {
    hide Fires, Pick;
    forall c: ConditionId ensures ListFor(after, c) == Pick(ListFor(before, c), decided, false) {
      if c !in fired {
        NoneFires(ListFor(before, c), decided);
      }
    }
    forall c, e | c in after && e in after[c] ensures !Fires(e, decided) {
      assert e in ListFor(after, c);
      PickMembers(ListFor(before, c), decided, false);
    }
  }

  lemma {:induction false} NoneFires(es: seq<DeferredRequirement>, decided: set<SolvableId>)
    requires forall e :: e in es ==> !Fires(e, decided)
    ensures Pick(es, decided, false) == es
  {
    hide Fires;
    if es != [] {
      NoneFires(es[1..], decided);
    }
  }

  /** The last key takes the slot of the one removed. */
  lemma RemovedKey(keys: seq<ConditionId>, entries: Lists, i: nat)
    requires KeysOk(keys, entries) && i < |keys|
    ensures KeysOk(keys[i := keys[|keys| - 1]][..|keys| - 1], entries - {keys[i]})
  {
    var n := |keys| - 1;
    var keys' := keys[i := keys[n]][..n];
    forall c ensures c in keys' <==> c in entries - {keys[i]} {
      if c in entries && c != keys[i] {
        assert c in keys;
        var j :| 0 <= j < |keys| && keys[j] == c;
        assert keys'[if j == n then i else j] == c;
      }
      if c in keys' {
        var j :| 0 <= j < |keys'| && keys'[j] == c;
        assert c == keys[if j == i then n else j];
      }
    }
  }

  method Reverse(s: seq<DeferredRequirement>) returns (r: seq<DeferredRequirement>)
    ensures r == Reversed(s)
  {
    r := [];
    for i := 0 to |s|
      invariant r + [] == Reversed(s[..i])
    {
      ReversedAppend(s[..i], s[i]);
      assert s[..i + 1] == s[..i] + [s[i]];
      r := [s[i]] + r;
    }
    assert s[..|s|] == s;
  }

  lemma {:induction false} ReversedAppend(s: seq<DeferredRequirement>, x: DeferredRequirement)
    ensures Reversed(s + [x]) == [x] + Reversed(s)
  {
    if s != [] {
      ReversedAppend(s[1..], x);
      assert (s + [x])[1..] == s[1..] + [x];
    }
  }

  lemma {:induction false} ReversedTwice(s: seq<DeferredRequirement>)
    ensures Reversed(Reversed(s)) == s
  {
    if s != [] {
      ReversedTwice(s[1..]);
      ReversedAppend(Reversed(s[1..]), s[0]);
    }
  }
}
