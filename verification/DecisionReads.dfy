/** The read path: get_context collapses what a search fetched to one decision per key. */
module DecisionReads {
  import opened Options
  import opened Text
  import opened Ordering
  import opened Dedup
  import opened Grouping
  import opened Decisions
  import opened DecisionDatabase

  /** The key the read path computes afresh from a fetched row. */
  function ReadKey(d: Decision): (string, string) {
    DecisionDedupKey(d.context, d.choice)
  }

  /** Active rows first, then as the write path ranks them. */
  function ReadRank(d: Decision): Key {
    [Num(if IsActive(d.state) then 1.0 else 0.0)] + Rank(d)
  }

  function EligibleIn(rows: seq<Decision>, includeInactive: bool): (r: seq<Decision>)
    ensures forall d :: d in r <==> d in rows && (includeInactive || Serves(d))
  {
    if rows == [] then []
    else (if includeInactive || IsActive(rows[0].state) then [rows[0]] else []) + EligibleIn(rows[1..], includeInactive)
  }

  /** The winner of every key among the fetched rows, best first. */
  ghost predicate AreWinners(rows: seq<Decision>, winners: seq<Decision>) {
    && OnePerGroup(rows, ReadKey, ReadRank, true, winners)
    && InOrder(winners, ReadRank, true)
  }

  /** Of rows sorted best first, the first of each key. */
  method FirstOfEachKey(sorted: seq<Decision>) returns (winners: seq<Decision>)
    requires InOrder(sorted, ReadRank, true)
    ensures AreWinners(sorted, winners)
  {
    hide ReadRank, ReadKey, Less, IsBest, FirstPositions, InOrder;
    winners := [];
    var seen: map<(string, string), nat> := map[];
    ghost var at: seq<nat> := [];
    FirstPositionsOfNone(sorted);
    for i := 0 to |sorted|
      invariant FirstPositions(sorted, i, winners, at)
      invariant forall k :: k in seen ==> seen[k] < |winners| && ReadKey(winners[seen[k]]) == k
      invariant forall j :: 0 <= j < |winners| ==> ReadKey(winners[j]) in seen && seen[ReadKey(winners[j])] == j
      invariant forall j :: 0 <= j < i ==> ReadKey(sorted[j]) in seen
    {
      var k := ReadKey(sorted[i]);
      FirstPositionsStep(sorted, i, winners, at, k in seen);
      if k !in seen {
        seen := seen[k := |winners|];
        winners := winners + [sorted[i]];
        at := at + [i];
      }
    }
    forall r | r in sorted ensures exists o :: o in winners && ReadKey(o) == ReadKey(r) {
      assert winners[seen[ReadKey(r)]] in winners;
    }
    FirstPositionsWin(sorted, winners, at);
  }

  /** `winners` stand in `sorted` where `at` says, each before every other row of its key. */
  ghost predicate FirstPositions(sorted: seq<Decision>, n: nat, winners: seq<Decision>, at: seq<nat>)
    requires n <= |sorted|
  {
    && |at| == |winners|
    && (forall j :: 0 <= j < |at| ==> at[j] < n && winners[j] == sorted[at[j]])
    && (forall j, l :: 0 <= j < l < |at| ==> at[j] < at[l])
    && (forall j, l :: 0 <= j < |at| && 0 <= l < n && ReadKey(sorted[l]) == ReadKey(winners[j]) ==> at[j] <= l)
  }

  lemma FirstPositionsOfNone(sorted: seq<Decision>)
    ensures FirstPositions(sorted, 0, [], [])
  {
  }

  lemma FirstPositionsStep(sorted: seq<Decision>, i: nat, winners: seq<Decision>, at: seq<nat>, known: bool)
    requires i < |sorted| && FirstPositions(sorted, i, winners, at)
    requires known ==> exists j :: 0 <= j < |winners| && ReadKey(winners[j]) == ReadKey(sorted[i])
    requires !known ==> forall l :: 0 <= l < i ==> ReadKey(sorted[l]) != ReadKey(sorted[i])
    ensures known ==> FirstPositions(sorted, i + 1, winners, at)
    ensures !known ==> FirstPositions(sorted, i + 1, winners + [sorted[i]], at + [i])
  {
    hide ReadKey;
  }

  lemma FirstPositionsWin(sorted: seq<Decision>, winners: seq<Decision>, at: seq<nat>)
    requires InOrder(sorted, ReadRank, true) && FirstPositions(sorted, |sorted|, winners, at)
    ensures forall o :: o in winners ==> IsBest(sorted, ReadKey, ReadRank, true, ReadKey(o), o)
    ensures InOrder(winners, ReadRank, true)
  {
    hide ReadRank, ReadKey, Less;
    forall o | o in winners ensures IsBest(sorted, ReadKey, ReadRank, true, ReadKey(o), o) {
      var j :| 0 <= j < |winners| && winners[j] == o;
      forall r | r in sorted && ReadKey(r) == ReadKey(o) ensures !Precedes(ReadRank(r), ReadRank(o), true) {
        var l :| 0 <= l < |sorted| && sorted[l] == r;
        LessTotal(ReadRank(r), ReadRank(r));
        assert at[j] <= l && sorted[at[j]] == o;
      }
    }
  }

  /** What get_context promises of its decisions. */
  ghost predicate IsTop(rows: seq<Decision>, n: int, top: seq<Decision>) {
    exists winners :: AreWinners(rows, winners) && top == FirstItems(winners, n)
  }

  /** The decisions part of get_context, from the fetched rows on. */
  method CollapseDecisions(fetched: seq<Decision>, includeInactive: bool, maxResults: int) returns (top: seq<Decision>)
    ensures IsTop(EligibleIn(fetched, includeInactive), maxResults, top)
  {
    hide IsBest, ReadRank, ReadKey, InOrder, OnePerGroup;
    var rows := EligibleIn(fetched, includeInactive);
    var sorted := SortBy(rows, ReadRank, true);
    SortBySorts(rows, ReadRank, true);
    var winners := FirstOfEachKey(sorted);
    WinnersOfPermutation(rows, sorted, winners);
    top := FirstItems(winners, maxResults);
  }

  lemma WinnersOfPermutation(rows: seq<Decision>, sorted: seq<Decision>, winners: seq<Decision>)
    requires multiset(rows) == multiset(sorted) && AreWinners(sorted, winners)
    ensures AreWinners(rows, winners)
  {
    assert forall d :: d in rows <==> d in multiset(rows);
    assert forall d :: d in sorted <==> d in multiset(sorted);
  }

  lemma ReadRankIdentifies(rows: seq<Decision>, a: Decision, b: Decision)
    requires DistinctIds(rows) && a in rows && b in rows && ReadRank(a) == ReadRank(b)
    ensures a == b
  {
    assert ReadRank(a)[3] == Str(a.id) && ReadRank(b)[3] == Str(b.id);
    SameIdSameRow(rows, a, b);
  }

  lemma WinnersDescend(rows: seq<Decision>, winners: seq<Decision>)
    requires DistinctIds(rows) && AreWinners(rows, winners)
    ensures forall i, j :: 0 <= i < j < |winners| ==> Less(ReadRank(winners[j]), ReadRank(winners[i]))
  {
    hide ReadRank, ReadKey;
    forall i, j | 0 <= i < j < |winners| ensures Less(ReadRank(winners[j]), ReadRank(winners[i])) {
      assert winners[i] in winners && winners[j] in winners;
      LessTotal(ReadRank(winners[i]), ReadRank(winners[j]));
      if ReadRank(winners[i]) == ReadRank(winners[j]) { ReadRankIdentifies(rows, winners[i], winners[j]); }
    }
  }

  /** Active rows come first, then better ones. */
  predicate Ahead(a: Decision, b: Decision) {
    if Serves(a) != Serves(b) then Serves(a) else Better(a, b)
  }

  lemma AheadIs(a: Decision, b: Decision)
    ensures Less(ReadRank(b), ReadRank(a)) <==> Ahead(a, b)
  {
    LessReadRank(b, a);
    RankMeans(a, b);
  }

  lemma SameDecisionIs(a: Decision, b: Decision)
    ensures ReadKey(a) == ReadKey(b) <==> SameDecision(a, b)
  {
    ShortPhraseIs(a.choice);
    ShortPhraseIs(b.choice);
  }

  predicate Represented(top: seq<Decision>, r: Decision) {
    exists t :: t in top && SameDecision(t, r)
  }

  /** The returned decisions are different ones, come best first, each is the best row of its
      decision, and no row of a decision that was left out is ahead of a returned one. */
  lemma TopIsTheBest(rows: seq<Decision>, n: nat, top: seq<Decision>)
    requires DistinctIds(rows) && IsTop(rows, n, top)
    ensures |top| <= n && forall d :: d in top ==> d in rows
    ensures forall i, j :: 0 <= i < j < |top| ==> !SameDecision(top[i], top[j]) && Ahead(top[i], top[j])
    ensures forall r, d :: r in rows && d in top && SameDecision(r, d) ==> r == d || Ahead(d, r)
    ensures forall r, d :: r in rows && d in top && !Represented(top, r) ==> |top| == n && Ahead(d, r)
  {
    TopInOrder(rows, n, top);
    hide ReadRank, ReadKey, SameDecision, Ahead, IsTop, Less, IsBest, Represented;
    forall d | d in top ensures d in rows { BestIsThere(rows, d); }
    forall i, j | 0 <= i < j < |top| ensures !SameDecision(top[i], top[j]) && Ahead(top[i], top[j]) {
      SameDecisionIs(top[i], top[j]);
      AheadIs(top[i], top[j]);
    }
    forall r, d | r in rows && d in top && SameDecision(r, d) && r != d ensures Ahead(d, r) { BestIsAhead(rows, r, d); }
    forall r, d | r in rows && d in top && !Represented(top, r) ensures |top| == n && Ahead(d, r) { TopLeavesOut(rows, n, top, r, d); }
  }

  lemma TopLeavesOut(rows: seq<Decision>, n: nat, top: seq<Decision>, r: Decision, d: Decision)
    requires DistinctIds(rows) && IsTop(rows, n, top) && r in rows && d in top
    requires !Represented(top, r)
    ensures |top| == n && Ahead(d, r)
  {
    hide ReadRank, ReadKey, SameDecision, Ahead, IsBest, Less;
    var winners :| AreWinners(rows, winners) && top == FirstItems(winners, n);
    forall t | t in top ensures ReadKey(t) != ReadKey(r) { SameDecisionIs(t, r); }
    LeftOutIsWorse(rows, n, winners, r, d);
    AheadIs(d, r);
  }

  lemma BestIsThere(rows: seq<Decision>, d: Decision)
    requires IsBest(rows, ReadKey, ReadRank, true, ReadKey(d), d)
    ensures d in rows
  {
  }

  lemma BestIsAhead(rows: seq<Decision>, r: Decision, d: Decision)
    requires DistinctIds(rows) && r in rows && IsBest(rows, ReadKey, ReadRank, true, ReadKey(d), d) && SameDecision(r, d) && r != d
    ensures Ahead(d, r)
  {
    hide ReadRank, ReadKey, SameDecision, Ahead, Less;
    SameDecisionIs(r, d);
    AheadIs(d, r);
    LessTotal(ReadRank(r), ReadRank(d));
    if ReadRank(r) == ReadRank(d) { ReadRankIdentifies(rows, r, d); }
  }

  lemma TopInOrder(rows: seq<Decision>, n: nat, top: seq<Decision>)
    requires DistinctIds(rows) && IsTop(rows, n, top)
    ensures |top| <= n
    ensures forall i, j :: 0 <= i < j < |top| ==> ReadKey(top[i]) != ReadKey(top[j])
    ensures forall i, j :: 0 <= i < j < |top| ==> Less(ReadRank(top[j]), ReadRank(top[i]))
    ensures forall d :: d in top ==> IsBest(rows, ReadKey, ReadRank, true, ReadKey(d), d)
  {
    hide ReadRank, ReadKey, IsBest;
    var winners :| AreWinners(rows, winners) && top == FirstItems(winners, n);
    WinnersDescend(rows, winners);
    hide InOrder, Less;
    assert top == winners[..|top|];
  }

  lemma LeftOutIsWorse(rows: seq<Decision>, n: nat, winners: seq<Decision>, r: Decision, d: Decision)
    requires DistinctIds(rows) && AreWinners(rows, winners) && r in rows && d in FirstItems(winners, n)
    requires forall t :: t in FirstItems(winners, n) ==> ReadKey(t) != ReadKey(r)
    ensures |FirstItems(winners, n)| == n && Less(ReadRank(r), ReadRank(d))
  {
    hide ReadRank, ReadKey;
    var top := FirstItems(winners, n);
    var o := r;
    if r !in winners { o :| o in winners && ReadKey(o) == ReadKey(r); }
    assert o !in top;
    var j :| 0 <= j < |winners| && winners[j] == o;
    var i :| 0 <= i < |top| && top[i] == d;
    assert top == winners[..|top|];
    assert j >= |top| by { assert forall l :: 0 <= l < |top| ==> winners[l] == top[l] && top[l] != o; }
    assert !Precedes(ReadRank(o), ReadRank(d), true);
    assert !Precedes(ReadRank(r), ReadRank(o), true);
    LessTotal(ReadRank(r), ReadRank(o));
    LessTotal(ReadRank(o), ReadRank(d));
    if ReadRank(o) == ReadRank(d) { ReadRankIdentifies(rows, o, d); }
    if ReadRank(r) != ReadRank(o) { LessTransitive(ReadRank(r), ReadRank(o), ReadRank(d)); }
  }

  lemma LessReadRank(a: Decision, b: Decision)
    ensures Less(ReadRank(a), ReadRank(b)) <==>
      (!IsActive(a.state) && IsActive(b.state)) || (IsActive(a.state) == IsActive(b.state) && Less(Rank(a), Rank(b)))
  {
    assert ReadRank(a)[1..] == Rank(a) && ReadRank(b)[1..] == Rank(b);
    assert ReadRank(a)[0] == Num(if IsActive(a.state) then 1.0 else 0.0);
    assert ReadRank(b)[0] == Num(if IsActive(b.state) then 1.0 else 0.0);
  }

  /** All active rows that either path takes for the key were fetched, and their columns hold
      the key recomputed from context and choice. */
  ghost predicate FullyFetched(stored: seq<Decision>, fetched: seq<Decision>, key: (string, string)) {
    && (forall d :: d in fetched ==> d in stored)
    && forall d :: d in stored && IsActive(d.state) && (ReadKey(d) == key || Matches(d, key)) ==> d in fetched && StoredCanonically(d)
  }

  lemma WinnerIsFound(stored: seq<Decision>, fetched: seq<Decision>, includeInactive: bool,
                      key: (string, string), found: Decision, winner: Decision)
    requires DistinctIds(stored) && FullyFetched(stored, fetched, key)
    requires IsBestMatch(found, stored, key)
    requires IsBest(EligibleIn(fetched, includeInactive), ReadKey, ReadRank, true, key, winner)
    ensures winner == found
  {
    hide ReadRank, Rank, DecisionDedupKey, Less, StoredCanonically;
    var rows := EligibleIn(fetched, includeInactive);
    StoredKey(found);
    assert ReadKey(found) == key;
    assert found in rows;
    LessReadRank(winner, found);
    assert IsActive(winner.state);
    StoredKey(winner);
    assert Matches(winner, key);
    LessTotal(Rank(winner), Rank(found));
    LessTotal(ReadRank(winner), ReadRank(found));
    if Rank(winner) == Rank(found) {
      RankIdentifiesRow(stored, winner, found);
    }
  }

  /** For every key with an active row whose active rows were all fetched: find_existing finds
      a row, the collapse has one winner for the key, and the two are one row. So get_context
      returns that row unless enough better keys fill its budget. */
  lemma ReadAgreesWithWrite(stored: seq<Decision>, fetched: seq<Decision>, includeInactive: bool, n: nat,
                            key: (string, string), active: Decision, found: Option<Decision>, top: seq<Decision>)
    requires DistinctIds(stored) && FullyFetched(stored, fetched, key)
    requires active in stored && IsActive(active.state) && ReadKey(active) == key
    requires IsAnswer(found, stored, key) && IsTop(EligibleIn(fetched, includeInactive), n, top)
    ensures found.Some?
    ensures exists winners :: AreWinners(EligibleIn(fetched, includeInactive), winners) && top == FirstItems(winners, n) && found.value in winners
    ensures forall d :: d in top && ReadKey(d) == key ==> d == found.value
    ensures found.value in top || (|top| == n && forall d :: d in top ==> !Less(ReadRank(d), ReadRank(found.value)))
  {
    var rows := EligibleIn(fetched, includeInactive);
    ActiveIsFound(stored, key, active, found);
    var winners :| AreWinners(rows, winners) && top == FirstItems(winners, n);
    hide ReadRank, Rank, IsActive, DecisionDedupKey, Less, FullyFetched, IsBestMatch, IsAnswer;
    assert active in rows by { ActiveIsEligible(stored, fetched, includeInactive, key, active); }
    var winner := active;
    if active !in winners { winner :| winner in winners && ReadKey(winner) == key; }
    assert IsBest(rows, ReadKey, ReadRank, true, key, winner);
    WinnerIsFound(stored, fetched, includeInactive, key, found.value, winner);
    WinnerInTop(winners, n, winner);
  }

  /** A winner is among the first, or the first are full of winners no worse than it. */
  lemma WinnerInTop(winners: seq<Decision>, n: nat, winner: Decision)
    requires InOrder(winners, ReadRank, true) && winner in winners
    requires forall i, j :: 0 <= i < j < |winners| ==> ReadKey(winners[i]) != ReadKey(winners[j])
    ensures var top := FirstItems(winners, n);
      && (forall d :: d in top && ReadKey(d) == ReadKey(winner) ==> d == winner)
      && (winner in top || (|top| == n && forall d :: d in top ==> !Less(ReadRank(d), ReadRank(winner))))
  {
    hide ReadRank, ReadKey, Less;
    var top := FirstItems(winners, n);
    var j :| 0 <= j < |winners| && winners[j] == winner;
    forall d | d in top ensures (ReadKey(d) == ReadKey(winner) ==> d == winner) && (winner !in top ==> !Less(ReadRank(d), ReadRank(winner))) {
      var i :| 0 <= i < |top| && top[i] == d;
      assert winners[i] == d;
      assert i < j || i == j || j < i;
      if winner !in top { InFront(winners, top, i, j); }
    }
    if j < |top| { assert top[j] == winner; }
  }

  lemma InFront(winners: seq<Decision>, top: seq<Decision>, i: nat, j: nat)
    requires InOrder(winners, ReadRank, true) && top <= winners && i < |top| && j < |winners| && winners[j] !in top
    ensures !Less(ReadRank(winners[i]), ReadRank(winners[j]))
  {
    hide ReadRank, Less;
    assert j >= |top| by { assert forall l :: 0 <= l < |top| ==> winners[l] == top[l]; }
  }

  lemma ActiveIsFound(stored: seq<Decision>, key: (string, string), active: Decision, found: Option<Decision>)
    requires active in stored && IsActive(active.state) && ReadKey(active) == key && StoredCanonically(active)
    requires IsAnswer(found, stored, key)
    ensures found.Some? && IsBestMatch(found.value, stored, key)
  {
    assert Matches(active, key);
  }

  lemma ActiveIsEligible(stored: seq<Decision>, fetched: seq<Decision>, includeInactive: bool, key: (string, string), active: Decision)
    requires FullyFetched(stored, fetched, key) && active in stored && IsActive(active.state) && ReadKey(active) == key
    ensures active in EligibleIn(fetched, includeInactive)
  {
  }

  lemma RankIdentifiesRow(rows: seq<Decision>, a: Decision, b: Decision)
    requires DistinctIds(rows) && a in rows && b in rows && Rank(a) == Rank(b)
    ensures a == b
  {
    assert Rank(a)[2] == Str(a.id) && Rank(b)[2] == Str(b.id);
    SameIdSameRow(rows, a, b);
  }
}
