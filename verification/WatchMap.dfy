/**
 The watch lists.  Every clause with two or more literals watches two of them, and the
 clauses that watch one literal form an intrusive singly linked list: a clause is a node
 of two lists at once, and a cursor unlinks nodes and pushes them onto other lists while
 it walks.
 */
module WatchMaps {
  import opened Sat

  datatype WatchedLiterals = WatchedLiterals(
    first: Literal, second: Literal,
    nextFirst: Option<ClauseId>, nextSecond: Option<ClauseId>)
  {
    predicate Watches(l: Literal) { first == l || second == l }

    function IndexOf(l: Literal): (k: nat)
      ensures k <= 1
    {
      if first == l then 0 else 1
    }

    function Lit(k: nat): Literal { if k == 0 then first else second }

    function Next(k: nat): Option<ClauseId> { if k == 0 then nextFirst else nextSecond }

    function SetLit(k: nat, l: Literal): WatchedLiterals {
      if k == 0 then this.(first := l) else this.(second := l)
    }

    function SetNext(k: nat, c: Option<ClauseId>): WatchedLiterals {
      if k == 0 then this.(nextFirst := c) else this.(nextSecond := c)
    }
  }

  type Watches = seq<Option<WatchedLiterals>>
  type Heads = map<Literal, ClauseId>
  type Lists = map<Literal, seq<ClauseId>>

  function HeadOf(heads: Heads, l: Literal): Option<ClauseId> {
    if l in heads then Some(heads[l]) else None
  }

  function SetHead(heads: Heads, l: Literal, c: Option<ClauseId>): Heads {
    match c
    case Some(id) => heads[l := id]
    case None => heads - {l}
  }

  ghost predicate IsWatching(ws: Watches, c: ClauseId, l: Literal) {
    c < |ws| && ws[c].Some? && ws[c].value.Watches(l)
  }

  /** The node after clause `c` in the list of `l`. */
  ghost function NextOf(ws: Watches, c: ClauseId, l: Literal): Option<ClauseId> {
    if IsWatching(ws, c, l) then ws[c].value.Next(ws[c].value.IndexOf(l)) else None
  }

  ghost predicate DistinctWatches(ws: Watches) {
    forall c :: 0 <= c < |ws| && ws[c].Some? ==> ws[c].value.first != ws[c].value.second
  }

  ghost function ListOf(lists: Lists, l: Literal): seq<ClauseId> {
    if l in lists then lists[l] else []
  }

  function At<T>(s: seq<T>, i: int): Option<T> {
    if 0 <= i < |s| then Some(s[i]) else None
  }

  /** Following the links from the head of `l` visits exactly `s`. */
  ghost predicate IsChain(heads: Heads, ws: Watches, l: Literal, s: seq<ClauseId>) {
    && HeadOf(heads, l) == At(s, 0)
    && (forall i :: 0 <= i < |s| ==> IsWatching(ws, s[i], l) && NextOf(ws, s[i], l) == At(s, i + 1))
  }

  ghost predicate NoRepeats(s: seq<ClauseId>) {
    forall i, j :: 0 <= i < j < |s| ==> s[i] != s[j]
  }

  /** `s` is the list of `l`: it is acyclic and holds the clauses that watch `l`, once each. */
  ghost predicate IsListOf(heads: Heads, ws: Watches, l: Literal, s: seq<ClauseId>) {
    && IsChain(heads, ws, l, s)
    && NoRepeats(s)
    && (forall c: ClauseId :: IsWatching(ws, c, l) ==> c in s)
  }

  ghost predicate ListsExact(heads: Heads, ws: Watches, lists: Lists) {
    forall l: Literal :: IsListOf(heads, ws, l, ListOf(lists, l))
  }

  datatype Cursor = Cursor(literal: Literal, previous: Option<ClauseId>, clause: ClauseId, index: nat)

  class WatchMap {
    var heads: Heads
    var watches: Watches
    /** The linked lists, as lists. */
    ghost var lists: Lists

    ghost predicate Valid()
      reads this
    {
      DistinctWatches(watches) && ListsExact(heads, watches, lists)
    }

    constructor ()
      ensures Valid() && watches == [] && lists == map[]
    {
      heads, watches, lists := map[], [], map[];
    }

    /** Allocates a clause that watches nothing, as an assertion does. */
    method AddUnwatched()
      requires Valid()
      modifies this
      ensures Valid() && watches == old(watches) + [None] && lists == old(lists)
    {
      watches := watches + [None];
      forall l: Literal ensures IsListOf(heads, watches, l, ListOf(lists, l)) {
        Untouched(heads, old(watches), heads, watches, l, ListOf(lists, l), |old(watches)|);
      }
    }

    /** Allocates a clause and pushes it on the lists of both literals it watches. */
    method StartWatching(first: Literal, second: Literal)
      requires Valid() && first != second
      modifies this
      ensures Valid()
      ensures |watches| == |old(watches)| + 1 && watches[..|old(watches)|] == old(watches)
      ensures watches[|old(watches)|].Some?
      ensures watches[|old(watches)|].value.first == first && watches[|old(watches)|].value.second == second
      ensures forall l: Literal :: ListOf(lists, l) ==
                if l == first || l == second then [|old(watches)|] + ListOf(old(lists), l) else ListOf(old(lists), l)
    {
      hide IsListOf;
      var c := |watches|;
      var nextFirst := HeadOf(heads, first);
      heads := heads[first := c];
      var nextSecond := HeadOf(heads, second);
      heads := heads[second := c];
      var node := WatchedLiterals(first, second, nextFirst, nextSecond);
      watches := watches + [Some(node)];
      lists := lists[first := [c] + ListOf(lists, first)][second := [c] + ListOf(lists, second)];
      forall l: Literal ensures IsListOf(heads, watches, l, ListOf(lists, l)) {
        StartedList(old(heads), old(watches), heads, node, l, ListOf(old(lists), l));
      }
    }

    /** The cursor stands on node `i` of its literal's list and remembers node `i - 1`. */
    ghost predicate Stands(cur: Cursor, i: nat)
      reads this
    {
      var s := ListOf(lists, cur.literal);
      && i < |s| && cur.clause == s[i]
      && cur.clause < |watches| && watches[cur.clause].Some?
      && cur.index == watches[cur.clause].value.IndexOf(cur.literal)
      && cur.previous == At(s, i - 1)
    }

    /** The cursor after a move: on node `i` of the list, or gone if the list ends there. */
    ghost predicate Reaches(next: Option<Cursor>, l: Literal, i: nat)
      reads this
    {
      match next
      case None => i == |ListOf(lists, l)|
      case Some(cur) => cur.literal == l && Stands(cur, i)
    }

    method Start(l: Literal) returns (r: Option<Cursor>)
      requires Valid()
      ensures Reaches(r, l, 0)
    {
      assert IsListOf(heads, watches, l, ListOf(lists, l));
      match HeadOf(heads, l) {
        case None => r := None;
        case Some(c) =>
          assert c == ListOf(lists, l)[0] && IsWatching(watches, c, l);
          r := Some(Cursor(l, None, c, watches[c].value.IndexOf(l)));
      }
    }

    method Next(cur: Cursor, ghost i: nat) returns (r: Option<Cursor>)
      requires Valid() && Stands(cur, i)
      ensures Reaches(r, cur.literal, i + 1)
    {
      ghost var s := ListOf(lists, cur.literal);
      assert IsListOf(heads, watches, cur.literal, s);
      assert NextOf(watches, s[i], cur.literal) == At(s, i + 1);
      match watches[cur.clause].value.Next(cur.index) {
        case None => r := None;
        case Some(c) =>
          assert IsWatching(watches, s[i + 1], cur.literal);
          r := Some(Cursor(cur.literal, Some(cur.clause), c, watches[c].value.IndexOf(cur.literal)));
      }
    }

    /** Unlinks the current node, makes it watch `watch` instead, and moves to the node after it. */
    method Update(cur: Cursor, watch: Literal, ghost i: nat) returns (r: Option<Cursor>)
      requires Valid() && Stands(cur, i)
      requires watch != cur.literal && watch != watches[cur.clause].value.Lit(1 - cur.index)
      modifies this
      ensures Valid() && RelinkKeepsLiterals(old(watches), watches, cur, watch)
      ensures ListOf(lists, cur.literal) == Without(ListOf(old(lists), cur.literal), i)
      ensures ListOf(lists, watch) == [cur.clause] + ListOf(old(lists), watch)
      ensures forall l: Literal :: l != watch && l != cur.literal ==> ListOf(lists, l) == ListOf(old(lists), l)
      ensures Reaches(r, cur.literal, i)
    {
      hide ListsExact, DistinctWatches, Relinked, IsListOf;
      ghost var s := ListOf(lists, cur.literal);
      NodesAround(heads, watches, lists, cur.literal, i);
      var next := watches[cur.clause].value.Next(cur.index);
      MoveNode(cur, watch, next);
      lists := lists[cur.literal := Without(s, i)][watch := [cur.clause] + ListOf(lists, watch)];
      UpdateKeepsLists(old(heads), old(watches), heads, watches, old(lists), lists, cur, watch, next, i);
      r := None;
      if next.Some? {
        assert SameLiterals(watches[s[i + 1]], old(watches)[s[i + 1]]);
        r := Some(Cursor(cur.literal, cur.previous, next.value, watches[next.value].value.IndexOf(cur.literal)));
      }
    }

    /** Moves the node under the cursor if another literal to watch is given for its clause; otherwise passes it. */
    method VisitNode(cur: Cursor, choices: map<ClauseId, Literal>, ghost i: nat) returns (next: Option<Cursor>)
      requires Valid() && Stands(cur, i)
      modifies this
      ensures Valid()
      ensures ListOf(lists, cur.literal) == Left(old(watches), cur.literal, choices, old(ListOf(lists, cur.literal)), i)
      ensures Reaches(next, cur.literal, if Moves(old(watches), cur.literal, choices, cur.clause) then i else i + 1)
      ensures if Moves(old(watches), cur.literal, choices,
                       cur.clause) then RelinkKeepsLiterals(old(watches), watches, cur, choices[cur.clause])
              else watches == old(watches)
    {
      hide ListsExact, DistinctWatches, RelinkKeepsLiterals, NextOf;
      NodesAround(heads, watches, lists, cur.literal, i);
      OtherLiteral(watches, cur.clause, cur.literal);
      if cur.clause in choices && choices[cur.clause] != cur.literal &&
         choices[cur.clause] != watches[cur.clause].value.Lit(1 - cur.index) {
        next := Update(cur, choices[cur.clause], i);
      } else {
        next := Next(cur, i);
      }
    }

    /** Walks the whole list of a literal, moving the clauses for which another literal to watch is given and
        leaving the others where they are.  Whatever is moved meanwhile, each clause that watched the literal at the
        start is visited once. */
    method Traverse(l: Literal, choices: map<ClauseId, Literal>) returns (visited: seq<ClauseId>)
      requires Valid()
      modifies this
      ensures Valid() && visited == old(ListOf(lists, l))
      ensures ListOf(lists, l) == Staying(old(watches), l, choices, visited)
      ensures |watches| == |old(watches)| &&
              forall c :: 0 <= c < |watches| ==> SameLiterals(watches[c], Moved(old(watches), l, choices, c))
    {
      hide ListsExact, DistinctWatches, Moved, SameLiterals, Staying, MovedSoFar, NoRepeats, Moves, NextOf,
           IsWatching, RelinkKeepsLiterals, Left;
      ghost var s, ws := ListOf(lists, l), watches;
      TraverseStarts(heads, watches, lists, l, choices);
      var cursor := Start(l);
      ghost var i: nat := 0;
      visited := [];
      while cursor.Some?
        invariant Valid() && |visited| <= |s| && visited == s[..|visited|] && Reaches(cursor, l, i)
        invariant i == |Staying(ws, l, choices, visited)| &&
                  ListOf(lists, l) == Staying(ws, l, choices, visited) + s[|visited|..]
        invariant MovedSoFar(ws, watches, l, choices, visited)
        decreases |s| - |visited|
      {
        var cur := cursor.value;
        ghost var before, k, list := watches, |visited|, ListOf(lists, l);
        cursor := VisitNode(cur, choices, i);
        TraversedOne(ws, before, watches, l, choices, s, k, cur, list);
        visited := visited + [cur.clause];
        i := if Moves(ws, l, choices, cur.clause) then i else i + 1;
      }
      assert visited == s;
      TraverseEnds(ws, watches, l, choices, s);
    }

    /** The link and head assignments of an update. */
    method MoveNode(cur: Cursor, watch: Literal, next: Option<ClauseId>)
      requires DistinctWatches(watches) && CanRelink(watches, cur, watch)
      modifies this
      ensures lists == old(lists)
      ensures DistinctWatches(watches) && RelinkKeepsLiterals(old(watches), watches, cur, watch)
      ensures Relinked(old(heads), old(watches), heads, watches, cur, watch, next)
    {
      match cur.previous {
        case Some(p) =>
          watches := watches[p := Some(watches[p].value.SetNext(watches[p].value.IndexOf(cur.literal), next))];
        case None =>
          heads := SetHead(heads, cur.literal, next);
      }
      watches := watches[cur.clause :=
        Some(watches[cur.clause].value.SetLit(cur.index, watch).SetNext(cur.index, HeadOf(heads, watch)))];
      heads := heads[watch := cur.clause];
      assert watches == Relink(old(watches), cur, watch, next, HeadOf(old(heads), watch));
      RelinkLiterals(old(watches), cur, watch, next, HeadOf(old(heads), watch));
      RelinkMoves(old(heads), old(watches), cur, watch, next);
    }
  }

  /** Another literal is given for clause `c` to watch in place of `l`, and it does not watch that already. */
  ghost predicate Moves(ws: Watches, l: Literal, choices: map<ClauseId, Literal>, c: ClauseId) {
    IsWatching(ws, c, l) && c in choices && !ws[c].value.Watches(choices[c])
  }

  /** What clause `c` watches after the list of `l` was walked. */
  ghost function Moved(ws: Watches, l: Literal, choices: map<ClauseId, Literal>, c: ClauseId): Option<WatchedLiterals>
    requires c < |ws|
  {
    if Moves(ws, l, choices, c) then Some(ws[c].value.SetLit(ws[c].value.IndexOf(l), choices[c])) else ws[c]
  }

  /** The clauses of `s` that stay on the list of `l`, in order. */
  ghost function Staying(ws: Watches, l: Literal, choices: map<ClauseId, Literal>, s: seq<ClauseId>): seq<ClauseId> {
    if s == [] then [] else
      var n := |s| - 1;
      Staying(ws, l, choices, s[..n]) + if Moves(ws, l, choices, s[n]) then [] else [s[n]]
  }

  /** The list of `l` after its node `i` was visited. */
  ghost function Left(ws: Watches, l: Literal, choices: map<ClauseId, Literal>, s: seq<ClauseId>, i: nat): seq<ClauseId>
    requires i < |s|
  {
    if Moves(ws, l, choices, s[i]) then Without(s, i) else s
  }

  ghost predicate MovedSoFar(ws: Watches, ws': Watches, l: Literal, choices: map<ClauseId, Literal>,
                             visited: seq<ClauseId>) {
    && |ws'| == |ws|
    && forall c :: 0 <= c < |ws| ==> SameLiterals(ws'[c], if c in visited then Moved(ws, l, choices, c) else ws[c])
  }

  lemma TraverseStarts(heads: Heads, ws: Watches, lists: Lists, l: Literal, choices: map<ClauseId, Literal>)
    requires DistinctWatches(ws) && ListsExact(heads, ws, lists)
    ensures NoRepeats(ListOf(lists, l)) && forall c: ClauseId :: c in ListOf(lists, l) <==> IsWatching(ws, c, l)
    ensures MovedSoFar(ws, ws, l, choices, []) && Staying(ws, l, choices, []) == []
  {
    assert IsListOf(heads, ws, l, ListOf(lists, l));
  }

  lemma OtherLiteral(ws: Watches, c: ClauseId, l: Literal)
    requires DistinctWatches(ws) && IsWatching(ws, c, l)
    ensures forall w: Literal :: ws[c].value.Watches(w) <==> w == l || w == ws[c].value.Lit(1 - ws[c].value.IndexOf(l))
  {
  }

  /** One more node of the list visited. */
  lemma TraversedOne(ws: Watches, before: Watches, after: Watches, l: Literal, choices: map<ClauseId, Literal>,
                     s: seq<ClauseId>, k: nat,
                   cur: Cursor, list: seq<ClauseId>)
    requires k <= |s| && MovedSoFar(ws, before, l, choices, s[..k]) && NoRepeats(s) &&
             (forall c: ClauseId :: c in s ==> IsWatching(ws, c, l))
    requires list == Staying(ws, l, choices, s[..k]) + s[k..]
    requires |Staying(ws, l, choices, s[..k])| < |list| && cur.clause == list[|Staying(ws, l, choices, s[..k])|] &&
             cur.literal == l
    requires cur.clause < |before| && before[cur.clause].Some? && cur.index == before[cur.clause].value.IndexOf(l)
    requires if Moves(before, l, choices,
                      cur.clause) then RelinkKeepsLiterals(before, after, cur, choices[cur.clause]) else after == before
    ensures k < |s| && cur.clause == s[k] && s[..k] + [s[k]] == s[..k + 1]
    ensures Moves(before, l, choices, s[k]) == Moves(ws, l, choices, s[k])
    ensures MovedSoFar(ws, after, l, choices, s[..k + 1])
    ensures |Staying(ws, l, choices, s[..k + 1])| ==
      |Staying(ws, l, choices, s[..k])| + if Moves(ws, l, choices, s[k]) then 0 else 1
    ensures Left(before, l, choices, list, |Staying(ws, l, choices, s[..k])|) ==
      Staying(ws, l, choices, s[..k + 1]) + s[k + 1..]
  {
    hide SameLiterals, MovedSoFar, Staying, IsWatching, RelinkKeepsLiterals, NoRepeats;
    assert cur.clause == s[k];
    StayingGrows(ws, l, choices, s, k);
    NotYetMoved(ws, before, l, choices, s, k);
    SameMoves(ws, before, l, choices, s[k]);
    if Moves(ws, l, choices, s[k]) {
      MoveOne(ws, before, after, l, choices, s, k, cur);
    } else {
      LeaveOne(ws, before, l, choices, s, k);
    }
  }

  lemma SameMoves(ws: Watches, ws': Watches, l: Literal, choices: map<ClauseId, Literal>, c: ClauseId)
    requires c < |ws| && c < |ws'| && SameLiterals(ws'[c], ws[c])
    ensures Moves(ws', l, choices, c) == Moves(ws, l, choices, c)
    ensures ws[c].Some? ==> ws'[c].value.IndexOf(l) == ws[c].value.IndexOf(l)
  {
  }

  lemma TraverseEnds(ws: Watches, ws': Watches, l: Literal, choices: map<ClauseId, Literal>, s: seq<ClauseId>)
    requires MovedSoFar(ws, ws', l, choices, s) && forall c: ClauseId :: c in s <==> IsWatching(ws, c, l)
    ensures |ws'| == |ws| && forall c :: 0 <= c < |ws| ==> SameLiterals(ws'[c], Moved(ws, l, choices, c))
  {
    hide SameLiterals;
    forall c | 0 <= c < |ws'| ensures SameLiterals(ws'[c], Moved(ws, l, choices, c)) {
      assert SameLiterals(ws'[c], if c in s then Moved(ws, l, choices, c) else ws[c]);
    }
  }

  lemma StayingGrows(ws: Watches, l: Literal, choices: map<ClauseId, Literal>, s: seq<ClauseId>, k: nat)
    requires k < |s|
    ensures s[..k + 1] == s[..k] + [s[k]]
    ensures Staying(ws, l, choices, s[..k + 1]) == Staying(ws, l, choices,
                                                           s[..k]) + if Moves(ws, l, choices, s[k]) then [] else [s[k]]
  {
    assert s[..k + 1][..k] == s[..k];
  }

  /** A clause that was not visited yet watches what it did at the start. */
  lemma NotYetMoved(ws: Watches, ws': Watches, l: Literal, choices: map<ClauseId, Literal>, s: seq<ClauseId>, k: nat)
    requires k < |s| && MovedSoFar(ws, ws', l, choices, s[..k]) && NoRepeats(s) && IsWatching(ws, s[k], l)
    ensures |ws'| == |ws| && s[k] < |ws| && SameLiterals(ws'[s[k]], ws[s[k]])
  {
  }

  lemma MoveOne(ws: Watches, before: Watches, after: Watches, l: Literal, choices: map<ClauseId, Literal>,
                s: seq<ClauseId>, k: nat, cur: Cursor)
    requires k < |s| && MovedSoFar(ws, before, l, choices, s[..k]) && NoRepeats(s) && Moves(ws, l, choices, s[k])
    requires cur.clause == s[k] && cur.literal == l && s[k] < |before| && SameLiterals(before[s[k]], ws[s[k]]) &&
             cur.index == ws[s[k]].value.IndexOf(l)
    requires RelinkKeepsLiterals(before, after, cur, choices[s[k]])
    ensures MovedSoFar(ws, after, l, choices, s[..k] + [s[k]])
  {
    forall c | 0 <= c < |ws| ensures SameLiterals(after[c],
                                                  if c in s[..k] + [s[k]] then Moved(ws, l, choices, c) else ws[c]) {
      assert SameLiterals(before[c], if c in s[..k] then Moved(ws, l, choices, c) else ws[c]);
    }
  }

  lemma LeaveOne(ws: Watches, now: Watches, l: Literal, choices: map<ClauseId, Literal>, s: seq<ClauseId>, k: nat)
    requires k < |s| && MovedSoFar(ws, now, l, choices, s[..k]) && NoRepeats(s) && !Moves(ws, l, choices, s[k])
    ensures MovedSoFar(ws, now, l, choices, s[..k] + [s[k]])
  {
    forall c | 0 <= c < |ws| ensures SameLiterals(now[c], if c in s[..k] + [s[k]] then Moved(ws, l, choices, c)
                                                          else ws[c]) {
      assert SameLiterals(now[c], if c in s[..k] then Moved(ws, l, choices, c) else ws[c]);
    }
  }

  ghost function Without<T>(s: seq<T>, i: nat): seq<T>
    requires i < |s|
  {
    s[..i] + s[i + 1..]
  }

  ghost predicate SameLiterals(a: Option<WatchedLiterals>, b: Option<WatchedLiterals>) {
    a.Some? == b.Some? && (a.Some? ==> a.value.first == b.value.first && a.value.second == b.value.second)
  }

  /** An update changes one watched literal of one clause. */
  ghost predicate RelinkKeepsLiterals(ws: Watches, ws': Watches, cur: Cursor, watch: Literal)
    requires cur.clause < |ws| && ws[cur.clause].Some?
  {
    && |ws'| == |ws|
    && (forall c :: 0 <= c < |ws| && c != cur.clause ==> SameLiterals(ws'[c], ws[c]))
    && SameLiterals(ws'[cur.clause], Some(ws[cur.clause].value.SetLit(cur.index, watch)))
  }

  /** Clause `d` watches `l` with the same next node in both. */
  ghost predicate SameNode(ws: Watches, ws': Watches, d: ClauseId, l: Literal) {
    IsWatching(ws', d, l) == IsWatching(ws, d, l) && NextOf(ws', d, l) == NextOf(ws, d, l)
  }

  /** What an update does to each node: `cur.clause` watches `watch` in place of the
      cursor's literal, the node before it links to the one after, and nothing else moves. */
  ghost predicate Relinked(heads: Heads, ws: Watches, heads': Heads, ws': Watches,
                           cur: Cursor, watch: Literal, next: Option<ClauseId>) {
    && |ws'| == |ws| && cur.clause < |ws| && ws[cur.clause].Some?
    && (forall d: ClauseId, l: Literal :: d != cur.clause && (Some(d) != cur.previous || l != cur.literal) ==>
          SameNode(ws, ws', d, l))
    && (forall d: ClauseId :: d != cur.clause && Some(d) == cur.previous ==>
          IsWatching(ws', d, cur.literal) == IsWatching(ws, d, cur.literal) && NextOf(ws', d, cur.literal) == next)
    && (forall l: Literal :: l != watch && l != cur.literal ==> SameNode(ws, ws', cur.clause, l))
    && !IsWatching(ws', cur.clause, cur.literal)
    && IsWatching(ws', cur.clause, watch) && NextOf(ws', cur.clause, watch) == HeadOf(heads, watch)
    && HeadOf(heads', watch) == Some(cur.clause)
    && HeadOf(heads', cur.literal) == (if cur.previous == None then next else HeadOf(heads, cur.literal))
    && (forall l: Literal :: l != watch && l != cur.literal ==> HeadOf(heads', l) == HeadOf(heads, l))
  }

  function Relink(ws: Watches, cur: Cursor, watch: Literal, next: Option<ClauseId>, head: Option<ClauseId>): Watches
    requires cur.clause < |ws| && ws[cur.clause].Some?
    requires cur.previous.Some? ==>
               cur.previous.value < |ws| && ws[cur.previous.value].Some? && cur.previous.value != cur.clause
  {
    var node := Some(ws[cur.clause].value.SetLit(cur.index, watch).SetNext(cur.index, head));
    match cur.previous
    case None => ws[cur.clause := node]
    case Some(p) => ws[p := Some(ws[p].value.SetNext(ws[p].value.IndexOf(cur.literal), next))][cur.clause := node]
  }

  /** The cursor is on a node of its literal's list, behind the node it remembers, and `watch` is a new literal
      for it. */
  ghost predicate CanRelink(ws: Watches, cur: Cursor, watch: Literal) {
    && IsWatching(ws, cur.clause, cur.literal)
    && cur.index == ws[cur.clause].value.IndexOf(cur.literal)
    && watch != cur.literal && watch != ws[cur.clause].value.Lit(1 - cur.index)
    && (cur.previous.Some? ==> cur.previous.value != cur.clause && IsWatching(ws, cur.previous.value, cur.literal))
  }

  lemma RelinkLiterals(ws: Watches, cur: Cursor, watch: Literal, next: Option<ClauseId>, head: Option<ClauseId>)
    requires DistinctWatches(ws) && CanRelink(ws, cur, watch)
    ensures RelinkKeepsLiterals(ws, Relink(ws, cur, watch, next, head), cur, watch)
    ensures DistinctWatches(Relink(ws, cur, watch, next, head))
  {
  }

  lemma RelinkMoves(heads: Heads, ws: Watches, cur: Cursor, watch: Literal, next: Option<ClauseId>)
    requires DistinctWatches(ws) && CanRelink(ws, cur, watch)
    ensures var heads1 := if cur.previous == None then SetHead(heads, cur.literal, next) else heads;
      var ws' := Relink(ws, cur, watch, next, HeadOf(heads, watch));
      Relinked(heads, ws, heads1[watch := cur.clause], ws', cur, watch, next)
  {
    hide DistinctWatches, RelinkKeepsLiterals;
    var ws' := Relink(ws, cur, watch, next, HeadOf(heads, watch));
    forall d: ClauseId, l: Literal | d != cur.clause && (Some(d) != cur.previous || l != cur.literal)
      ensures SameNode(ws, ws', d, l)
    {
      RelinkSame(ws, cur, watch, next, HeadOf(heads, watch), d, l);
    }
    RelinkMoved(ws, cur, watch, next, HeadOf(heads, watch));
  }

  lemma RelinkSame(ws: Watches, cur: Cursor, watch: Literal, next: Option<ClauseId>, head: Option<ClauseId>,
                   d: ClauseId, l: Literal)
    requires DistinctWatches(ws) && CanRelink(ws, cur, watch)
    requires d != cur.clause && (Some(d) != cur.previous || l != cur.literal)
    ensures SameNode(ws, Relink(ws, cur, watch, next, head), d, l)
  {
  }

  lemma RelinkMoved(ws: Watches, cur: Cursor, watch: Literal, next: Option<ClauseId>, head: Option<ClauseId>)
    requires DistinctWatches(ws) && CanRelink(ws, cur, watch)
    ensures var ws' := Relink(ws, cur, watch, next, head);
      && (forall l: Literal :: l != watch && l != cur.literal ==> SameNode(ws, ws', cur.clause, l))
      && !IsWatching(ws', cur.clause, cur.literal)
      && IsWatching(ws', cur.clause, watch) && NextOf(ws', cur.clause, watch) == head
  {
  }

  lemma NodesAround(heads: Heads, ws: Watches, lists: Lists, l: Literal, i: nat)
    requires ListsExact(heads, ws, lists) && i < |ListOf(lists, l)|
    ensures var s := ListOf(lists, l);
      && IsWatching(ws, s[i], l) && NextOf(ws, s[i], l) == At(s, i + 1)
      && (i > 0 ==> IsWatching(ws, s[i - 1], l) && s[i - 1] != s[i])
      && (i + 1 < |s| ==> IsWatching(ws, s[i + 1], l) && s[i + 1] != s[i])
  {
    assert IsListOf(heads, ws, l, ListOf(lists, l));
  }

  lemma UpdateKeepsLists(heads: Heads, ws: Watches, heads': Heads, ws': Watches, lists: Lists, lists': Lists,
                         cur: Cursor, watch: Literal, next: Option<ClauseId>, i: nat)
    requires ListsExact(heads, ws, lists)
    requires i < |ListOf(lists, cur.literal)| && cur.clause == ListOf(lists, cur.literal)[i]
    requires cur.previous == At(ListOf(lists, cur.literal), i - 1)
    requires next == At(ListOf(lists, cur.literal), i + 1)
    requires !IsWatching(ws, cur.clause, watch) && watch != cur.literal
    requires Relinked(heads, ws, heads', ws', cur, watch, next)
    requires ListOf(lists', cur.literal) == Without(ListOf(lists, cur.literal), i)
    requires ListOf(lists', watch) == [cur.clause] + ListOf(lists, watch)
    requires forall l: Literal :: l != watch && l != cur.literal ==> ListOf(lists', l) == ListOf(lists, l)
    ensures ListsExact(heads', ws', lists')
  {
    forall l: Literal ensures IsListOf(heads', ws', l, ListOf(lists', l)) {
      var s := ListOf(lists, l);
      assert IsListOf(heads, ws, l, s);
      if l == cur.literal {
        Unlinked(heads, ws, heads', ws', l, s, i);
      } else if l == watch {
        PushedFront(heads, ws, heads', ws', l, s, cur.clause);
      } else {
        SameList(heads, ws, heads', ws', l, s);
      }
    }
  }

  lemma SameList(heads: Heads, ws: Watches, heads': Heads, ws': Watches, l: Literal, s: seq<ClauseId>)
    requires IsListOf(heads, ws, l, s)
    requires HeadOf(heads', l) == HeadOf(heads, l)
    requires forall d: ClauseId :: SameNode(ws, ws', d, l)
    ensures IsListOf(heads', ws', l, s)
  {
    forall i | 0 <= i < |s| ensures IsWatching(ws', s[i], l) && NextOf(ws', s[i], l) == At(s, i + 1) {
      assert SameNode(ws, ws', s[i], l);
    }
    forall c: ClauseId | IsWatching(ws', c, l) ensures c in s {
      assert SameNode(ws, ws', c, l);
    }
  }

  /** A clause that watches `l` in neither state does not disturb its list. */
  lemma Untouched(heads: Heads, ws: Watches, heads': Heads, ws': Watches, l: Literal, s: seq<ClauseId>, c: ClauseId)
    requires IsListOf(heads, ws, l, s)
    requires HeadOf(heads', l) == HeadOf(heads, l)
    requires forall d: ClauseId :: d != c ==> SameNode(ws, ws', d, l)
    requires !IsWatching(ws, c, l) && !IsWatching(ws', c, l)
    ensures IsListOf(heads', ws', l, s)
  {
    assert SameNode(ws, ws', c, l);
    SameList(heads, ws, heads', ws', l, s);
  }

  lemma StartedList(heads: Heads, ws: Watches, heads': Heads, node: WatchedLiterals, l: Literal, s: seq<ClauseId>)
    requires IsListOf(heads, ws, l, s) && node.first != node.second
    requires heads' == heads[node.first := |ws|][node.second := |ws|]
    requires node.nextFirst == HeadOf(heads, node.first) && node.nextSecond == HeadOf(heads, node.second)
    ensures IsListOf(heads', ws + [Some(node)], l, if node.Watches(l) then [|ws|] + s else s)
  {
    var ws' := ws + [Some(node)];
    forall d: ClauseId | d != |ws| ensures SameNode(ws, ws', d, l) {
    }
    if node.Watches(l) {
      PushedFront(heads, ws, heads', ws', l, s, |ws|);
    } else {
      Untouched(heads, ws, heads', ws', l, s, |ws|);
    }
  }

  lemma PushedFront(heads: Heads, ws: Watches, heads': Heads, ws': Watches, l: Literal, s: seq<ClauseId>, c: ClauseId)
    requires IsListOf(heads, ws, l, s)
    requires !IsWatching(ws, c, l) && IsWatching(ws', c, l)
    requires HeadOf(heads', l) == Some(c) && NextOf(ws', c, l) == HeadOf(heads, l)
    requires forall d: ClauseId :: d != c ==> SameNode(ws, ws', d, l)
    ensures IsListOf(heads', ws', l, [c] + s)
  {
    var s' := [c] + s;
    forall i | 0 <= i < |s'| ensures IsWatching(ws', s'[i], l) && NextOf(ws', s'[i], l) == At(s', i + 1) {
      if i > 0 {
        assert IsWatching(ws, s[i - 1], l) && NextOf(ws, s[i - 1], l) == At(s, i);
        assert SameNode(ws, ws', s[i - 1], l);
      }
    }
    forall j | 0 < j < |s'| ensures s'[0] != s'[j] {
      assert IsWatching(ws, s[j - 1], l);
    }
    forall d: ClauseId | IsWatching(ws', d, l) ensures d in s' {
      assert d == c || SameNode(ws, ws', d, l);
    }
  }

  lemma AtWithout(s: seq<ClauseId>, i: nat, j: nat)
    requires i < |s| && j < |s| - 1
    ensures var k := if j < i then j else j + 1;
      && |Without(s, i)| == |s| - 1 && Without(s, i)[j] == s[k]
      && At(Without(s, i), j + 1) == if k == i - 1 then At(s, i + 1) else At(s, k + 1)
  {
  }

  lemma UnlinkedNode(ws: Watches, ws': Watches, l: Literal, s: seq<ClauseId>, i: nat, j: nat)
    requires i < |s| && j < |s| - 1 && NoRepeats(s)
    requires forall k :: 0 <= k < |s| ==> IsWatching(ws, s[k], l) && NextOf(ws, s[k], l) == At(s, k + 1)
    requires forall d: ClauseId :: d != s[i] && Some(d) != At(s, i - 1) ==> SameNode(ws, ws', d, l)
    requires i > 0 ==> IsWatching(ws', s[i - 1], l) && NextOf(ws', s[i - 1], l) == At(s, i + 1)
    ensures IsWatching(ws', Without(s, i)[j], l) && NextOf(ws', Without(s, i)[j], l) == At(Without(s, i), j + 1)
  {
    hide IsWatching, NextOf, Without;
    var k := if j < i then j else j + 1;
    AtWithout(s, i, j);
    if k != i - 1 {
      assert SameNode(ws, ws', s[k], l);
    }
  }

  lemma WithoutNoRepeats(s: seq<ClauseId>, i: nat)
    requires i < |s| && NoRepeats(s)
    ensures NoRepeats(Without(s, i))
    ensures forall d :: d in Without(s, i) <==> d in s && d != s[i]
  {
    var s' := Without(s, i);
    forall d | d in s && d != s[i] ensures d in s' {
      var k :| 0 <= k < |s| && s[k] == d;
      assert d == s'[if k < i then k else k - 1];
    }
  }

  lemma Unlinked(heads: Heads, ws: Watches, heads': Heads, ws': Watches, l: Literal, s: seq<ClauseId>, i: nat)
    requires IsListOf(heads, ws, l, s) && i < |s|
    requires !IsWatching(ws', s[i], l)
    requires HeadOf(heads', l) == if i == 0 then At(s, 1) else HeadOf(heads, l)
    requires forall d: ClauseId :: d != s[i] && Some(d) != At(s, i - 1) ==> SameNode(ws, ws', d, l)
    requires i > 0 ==> IsWatching(ws', s[i - 1], l) && NextOf(ws', s[i - 1], l) == At(s, i + 1)
    ensures IsListOf(heads', ws', l, Without(s, i))
  {
    var s' := Without(s, i);
    forall j | 0 <= j < |s'| ensures IsWatching(ws', s'[j], l) && NextOf(ws', s'[j], l) == At(s', j + 1) {
      UnlinkedNode(ws, ws', l, s, i, j);
    }
    WithoutNoRepeats(s, i);
    forall d: ClauseId | IsWatching(ws', d, l) ensures d in s' {
      assert Some(d) == At(s, i - 1) || SameNode(ws, ws', d, l);
    }
  }
}
