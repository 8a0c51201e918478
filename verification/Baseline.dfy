/** The built-in baseline: turns as memories, ranked by lexical score. */
module Baseline {
  import opened Options
  import opened Text
  import opened Ordering
  import opened Ndcg

  /** A session is the contents of its turns. */
  datatype Query = Query(id: string, question: string, sessions: seq<seq<string>>, sessionIds: seq<string>)

  datatype Item = Item(memoryId: string, content: string, sessionId: string)

  datatype Retrieved = Retrieved(rank: nat, memoryId: string, score: real)

  /** _turn_id */
  function TurnId(queryId: string, sessionId: string, turn: nat): string {
    queryId + ":" + sessionId + ":" + Decimal(turn)
  }

  function SessionId(q: Query, s: nat): string {
    if s < |q.sessionIds| then q.sessionIds[s] else Decimal(s)
  }

  function SessionItems(q: Query, s: nat, n: nat): (items: seq<Item>)
    requires s < |q.sessions| && n <= |q.sessions[s]|
    ensures |items| == n
    ensures forall t :: 0 <= t < n ==> items[t] == Item(TurnId(q.id, SessionId(q, s), t), q.sessions[s][t], SessionId(q, s))
  {
    seq(n, t requires 0 <= t < n => Item(TurnId(q.id, SessionId(q, s), t), q.sessions[s][t], SessionId(q, s)))
  }

  /** The items of the first `n` sessions. */
  function ItemsOf(q: Query, n: nat): seq<Item>
    requires n <= |q.sessions|
    decreases n
  {
    if n == 0 then [] else ItemsOf(q, n - 1) + SessionItems(q, n - 1, |q.sessions[n - 1]|)
  }

  predicate DistinctItems(items: seq<Item>) {
    forall i, j :: 0 <= i < j < |items| ==> items[i].memoryId != items[j].memoryId
  }

  /** Sessions that hold turns have different ids, given or filled in. */
  predicate DistinctSessions(q: Query, n: nat)
    requires n <= |q.sessions|
  {
    forall i, j :: 0 <= i < j < n && q.sessions[i] != [] && q.sessions[j] != [] ==> SessionId(q, i) != SessionId(q, j)
  }

  // ----- turn ids -----

  /** Digits hold no colon, so the last colon is where the number begins. */
  lemma CutAtLastColon(s: string, x: string, t: string, y: string)
    requires AllDigits(x) && AllDigits(y) && s + ":" + x == t + ":" + y
    ensures s == t && x == y
  {
    var a, b := s + ":" + x, t + ":" + y;
    assert forall k :: |s| < k < |a| ==> a[k] == x[k - |s| - 1] && IsDigit(a[k]);
    assert forall k :: |t| < k < |b| ==> b[k] == y[k - |t| - 1] && IsDigit(b[k]);
    assert b[|s|] == a[|s|] == ':' && a[|t|] == b[|t|] == ':';
    assert s == a[..|s|] && t == b[..|t|] && x == a[|s| + 1..] && y == b[|t| + 1..];
  }

  lemma TurnIdInjective(q: string, s: string, m: nat, t: string, n: nat)
    ensures TurnId(q, s, m) == TurnId(q, t, n) <==> s == t && m == n
  {
    var a, b := s + ":" + Decimal(m), t + ":" + Decimal(n);
    assert TurnId(q, s, m) == (q + ":") + a && TurnId(q, t, n) == (q + ":") + b;
    if TurnId(q, s, m) == TurnId(q, t, n) {
      assert TurnId(q, s, m)[|q| + 1..] == a && TurnId(q, t, n)[|q| + 1..] == b;
      CutAtLastColon(s, Decimal(m), t, Decimal(n));
      DecimalRoundTrip(m);
      DecimalRoundTrip(n);
    }
  }

  lemma {:induction false} ItemOrigin(q: Query, n: nat, i: nat) returns (s: nat, t: nat)
    requires n <= |q.sessions| && i < |ItemsOf(q, n)|
    ensures s < n && t < |q.sessions[s]| && ItemsOf(q, n)[i] == Item(TurnId(q.id, SessionId(q, s), t), q.sessions[s][t], SessionId(q, s))
    decreases n
  {
    hide TurnId, SessionId;
    var front := ItemsOf(q, n - 1);
    if i < |front| {
      s, t := ItemOrigin(q, n - 1, i);
    } else {
      s, t := n - 1, i - |front|;
    }
  }

  /** The item is turn `t` of session `s`, named after query, session and turn. */
  ghost predicate IsTurn(q: Query, item: Item, s: nat, t: nat) {
    && s < |q.sessions| && t < |q.sessions[s]| && item.content == q.sessions[s][t]
    && item.sessionId == (if s < |q.sessionIds| then q.sessionIds[s] else Decimal(s))
    && item.memoryId == q.id + ":" + item.sessionId + ":" + Decimal(t)
  }

  ghost predicate SomeTurn(q: Query, item: Item) {
    exists s: nat, t: nat :: IsTurn(q, item, s, t)
  }

  lemma ItemsAreTurns(q: Query, items: seq<Item>)
    requires items == ItemsOf(q, |q.sessions|)
    ensures forall i :: 0 <= i < |items| ==> SomeTurn(q, items[i])
  {
    forall i | 0 <= i < |items| ensures SomeTurn(q, items[i]) {
      var s, t := ItemOrigin(q, |q.sessions|, i);
      assert IsTurn(q, items[i], s, t);
    }
  }

  lemma {:induction false} ItemsPrefix(q: Query, m: nat, n: nat)
    requires m <= n <= |q.sessions|
    ensures ItemsOf(q, m) <= ItemsOf(q, n)
    decreases n - m, n
  {
    if m < n {
      ItemsPrefix(q, m, n - 1);
    }
  }

  lemma {:induction false} DistinctSessionsGiveDistinctItems(q: Query, n: nat)
    requires n <= |q.sessions| && DistinctSessions(q, n)
    ensures DistinctItems(ItemsOf(q, n))
    decreases n
  {
    hide TurnId, SessionId;
    if n > 0 {
      var front, items := ItemsOf(q, n - 1), ItemsOf(q, n);
      DistinctSessionsGiveDistinctItems(q, n - 1);
      forall i, j | 0 <= i < j < |items| && j >= |front| ensures items[i].memoryId != items[j].memoryId {
        var t := j - |front|;
        if i < |front| {
          var s, u := ItemOrigin(q, n - 1, i);
          TurnIdInjective(q.id, SessionId(q, s), u, SessionId(q, n - 1), t);
        } else {
          TurnIdInjective(q.id, SessionId(q, n - 1), i - |front|, SessionId(q, n - 1), t);
        }
      }
    }
  }

  lemma FirstTurnAt(q: Query, s: nat)
    requires s < |q.sessions| && q.sessions[s] != []
    ensures |ItemsOf(q, s)| < |ItemsOf(q, s + 1)| <= |ItemsOf(q, |q.sessions|)|
    ensures ItemsOf(q, |q.sessions|)[|ItemsOf(q, s)|].memoryId == TurnId(q.id, SessionId(q, s), 0)
  {
    hide TurnId, SessionId;
    ItemsPrefix(q, s + 1, |q.sessions|);
  }

  /** All memory ids of a query differ exactly when its sessions that hold turns go by
      different ids; a filled-in position may coincide with a given id. */
  lemma DistinctItemsIff(q: Query)
    ensures DistinctItems(ItemsOf(q, |q.sessions|)) <==> DistinctSessions(q, |q.sessions|)
  {
    hide TurnId, SessionId, ItemsOf;
    var items := ItemsOf(q, |q.sessions|);
    if DistinctSessions(q, |q.sessions|) {
      DistinctSessionsGiveDistinctItems(q, |q.sessions|);
    }
    forall i, j | 0 <= i < j < |q.sessions| && q.sessions[i] != [] && q.sessions[j] != [] && DistinctItems(items)
      ensures SessionId(q, i) != SessionId(q, j)
    {
      FirstTurnAt(q, i);
      FirstTurnAt(q, j);
      ItemsPrefix(q, i + 1, j);
    }
  }

  // ----- ingest and retrieve -----

  datatype Row = Row(at: nat, score: real, item: Item)

  /** Higher score first, then ingestion order. */
  function RowRank(row: Row): Key {
    [Num(-row.score), Num(row.at as real)]
  }

  function Rows(items: seq<Item>, score: string -> real): (rows: seq<Row>)
    ensures |rows| == |items| && forall i :: 0 <= i < |items| ==> rows[i] == Row(i, score(items[i].content), items[i])
  {
    seq(|items|, i requires 0 <= i < |items| => Row(i, score(items[i].content), items[i]))
  }

  function Numbered(ranked: seq<Row>): (r: seq<Retrieved>)
    ensures |r| == |ranked|
    ensures forall i :: 0 <= i < |ranked| ==> r[i] == Retrieved(i + 1, ranked[i].item.memoryId, ranked[i].score)
  {
    seq(|ranked|, i requires 0 <= i < |ranked| => Retrieved(i + 1, ranked[i].item.memoryId, ranked[i].score))
  }

  function IdsOf(rs: seq<Retrieved>): (ids: seq<string>)
    ensures |ids| == |rs| && forall i :: 0 <= i < |rs| ==> ids[i] == rs[i].memoryId
  {
    seq(|rs|, i requires 0 <= i < |rs| => rs[i].memoryId)
  }

  /** `r` lists the best of `items` by score, earlier items first among equals. */
  ghost predicate IsRanking(items: seq<Item>, score: string -> real, topK: int, r: seq<Retrieved>) {
    exists sorted: seq<Row> :: multiset(sorted) == multiset(Rows(items, score)) && InOrder(sorted, RowRank, false) && r == Numbered(FirstItems(sorted, topK))
  }

  class BuiltInMemoryBaseline {
    var itemsByQuery: map<string, seq<Item>>

    constructor ()
      ensures itemsByQuery == map[]
    {
      itemsByQuery := map[];
    }

    /** ingest */
    method Ingest(q: Query) returns (items: seq<Item>)
      modifies this
      ensures items == ItemsOf(q, |q.sessions|)
      ensures itemsByQuery == old(itemsByQuery)[q.id := items]
      ensures forall i :: 0 <= i < |items| ==> SomeTurn(q, items[i])
    {
      items := [];
      for s := 0 to |q.sessions|
        invariant items == ItemsOf(q, s) && itemsByQuery == old(itemsByQuery)
      {
        ghost var front := items;
        for t := 0 to |q.sessions[s]|
          invariant items == front + SessionItems(q, s, t) && itemsByQuery == old(itemsByQuery)
        {
          var sessionId := SessionId(q, s);
          items := items + [Item(TurnId(q.id, sessionId, t), q.sessions[s][t], sessionId)];
          assert SessionItems(q, s, t + 1) == SessionItems(q, s, t) + [Item(TurnId(q.id, sessionId, t), q.sessions[s][t], sessionId)];
        }
      }
      itemsByQuery := itemsByQuery[q.id := items];
      ItemsAreTurns(q, items);
    }

    /** retrieve; `score` is the lexical score of a content against the question. */
    method Retrieve(q: Query, score: string -> real, topK: int) returns (retrieved: seq<Retrieved>)
      modifies this
      ensures itemsByQuery == if q.id in old(itemsByQuery) then old(itemsByQuery) else old(itemsByQuery)[q.id := ItemsOf(q, |q.sessions|)]
      ensures AreBest(itemsByQuery[q.id], score, topK, retrieved)
      ensures DistinctItems(itemsByQuery[q.id]) ==> DuplicateFree(IdsOf(retrieved))
      ensures q.id !in old(itemsByQuery) && DistinctSessions(q, |q.sessions|) ==> DuplicateFree(IdsOf(retrieved))
    {
      var items: seq<Item>;
      if q.id in itemsByQuery {
        items := itemsByQuery[q.id];
      } else {
        items := Ingest(q);
      }
      DistinctItemsIff(q);
      hide *;
      var sorted := SortBy(Rows(items, score), RowRank, false);
      retrieved := Numbered(FirstItems(sorted, topK));
      SortedIsRanking(items, score, topK);
    }
  }

  lemma SortedIsRanking(items: seq<Item>, score: string -> real, topK: int)
    ensures var r := Numbered(FirstItems(SortBy(Rows(items, score), RowRank, false), topK));
      AreBest(items, score, topK, r) && (DistinctItems(items) ==> DuplicateFree(IdsOf(r)))
  {
    var sorted := SortBy(Rows(items, score), RowRank, false);
    var r := Numbered(FirstItems(sorted, topK));
    SortBySorts(Rows(items, score), RowRank, false);
    assert IsRanking(items, score, topK, r);
    hide InOrder, RowRank;
    RankingMeans(items, score, topK, r);
    hide AreBest, IsRanking, DuplicateFree;
    if DistinctItems(items) {
      RankingDuplicateFree(items, score, topK, r);
    }
  }

  lemma {:induction false} OnceInDistinct(rows: seq<Row>, x: Row)
    requires forall i, j :: 0 <= i < j < |rows| ==> rows[i].item.memoryId != rows[j].item.memoryId
    ensures multiset(rows)[x] <= 1
    decreases |rows|
  {
    if rows != [] {
      OnceInDistinct(rows[1..], x);
      assert rows == [rows[0]] + rows[1..];
      if x == rows[0] {
        assert x !in rows[1..];
      }
    }
  }

  lemma TwiceInSequence(rows: seq<Row>, i: nat, j: nat)
    requires i < j < |rows| && rows[i] == rows[j]
    ensures multiset(rows)[rows[i]] >= 2
  {
    assert rows == rows[..j] + rows[j..];
    assert rows[..j][i] in multiset(rows[..j]) && rows[j..][0] in multiset(rows[j..]);
  }

  predicate Outdoes(items: seq<Item>, score: string -> real, a: nat, b: nat)
    requires a < |items| && b < |items|
  {
    score(items[a].content) > score(items[b].content) || (score(items[a].content) == score(items[b].content) && a < b)
  }

  /** `r` are the items at these places, numbered from 1, as many as are asked for. */
  ghost predicate ListedAt(items: seq<Item>, score: string -> real, topK: int, r: seq<Retrieved>, at: seq<nat>) {
    && |at| == |r| && (forall i :: 0 <= i < |at| ==> at[i] < |items|)
    && |r| == (if topK > |items| then |items| else if topK >= 0 then topK else if |items| + topK >= 0 then |items| + topK else 0)
    && forall i :: 0 <= i < |r| ==> r[i] == Retrieved(i + 1, items[at[i]].memoryId, score(items[at[i]].content))
  }

  /** Each place outdoes the next, and every place that is left out. */
  ghost predicate BestFirst(items: seq<Item>, score: string -> real, at: seq<nat>)
    requires forall i :: 0 <= i < |at| ==> at[i] < |items|
  {
    && (forall i, j :: 0 <= i < j < |at| ==> Outdoes(items, score, at[i], at[j]))
    && (forall i, p :: 0 <= i < |at| && 0 <= p < |items| && p !in at ==> Outdoes(items, score, at[i], p))
  }

  /** The retrieved are the best by score, the earlier ones first among equals. */
  ghost predicate AreBest(items: seq<Item>, score: string -> real, topK: int, r: seq<Retrieved>) {
    exists at: seq<nat> :: ListedAt(items, score, topK, r, at) && BestFirst(items, score, at)
  }

  function PlacesOf(sorted: seq<Row>, n: nat): (at: seq<nat>)
    requires n <= |sorted|
    ensures |at| == n && forall i :: 0 <= i < n ==> at[i] == sorted[i].at
  {
    seq(n, i requires 0 <= i < n => sorted[i].at)
  }

  lemma RowsOnce(items: seq<Item>, score: string -> real, sorted: seq<Row>, i: nat, j: nat)
    requires multiset(sorted) == multiset(Rows(items, score)) && InOrder(sorted, RowRank, false) && i < j < |sorted|
    ensures sorted[i].at < |items| && sorted[i] == Rows(items, score)[sorted[i].at]
    ensures sorted[j].at < |items| && sorted[j] == Rows(items, score)[sorted[j].at]
    ensures Outdoes(items, score, sorted[i].at, sorted[j].at)
  {
    var rows, a, b := Rows(items, score), sorted[i], sorted[j];
    assert a in multiset(sorted) && b in multiset(sorted);
    assert a in rows && b in rows;
    LessNumNum(-b.score, b.at as real, -a.score, a.at as real);
    hide Less;
    if a.at == b.at {
      TwiceInSequence(sorted, i, j);
      RowOnce(items, score, a);
    }
  }

  lemma {:induction false} OnceAtOwnPlace(rows: seq<Row>, x: Row)
    requires forall i, j :: 0 <= i < j < |rows| ==> rows[i].at != rows[j].at
    ensures multiset(rows)[x] <= 1
    decreases |rows|
  {
    if rows != [] {
      OnceAtOwnPlace(rows[1..], x);
      assert rows == [rows[0]] + rows[1..];
      if x == rows[0] {
        assert x !in rows[1..];
      }
    }
  }

  lemma RowOnce(items: seq<Item>, score: string -> real, x: Row)
    ensures multiset(Rows(items, score))[x] <= 1
  {
    OnceAtOwnPlace(Rows(items, score), x);
  }

  lemma PlacesAreBest(items: seq<Item>, score: string -> real, sorted: seq<Row>, n: nat)
    requires multiset(sorted) == multiset(Rows(items, score)) && InOrder(sorted, RowRank, false) && n <= |sorted|
    ensures forall i :: 0 <= i < n ==> PlacesOf(sorted, n)[i] < |items| && sorted[i] == Rows(items, score)[PlacesOf(sorted, n)[i]]
    ensures BestFirst(items, score, PlacesOf(sorted, n))
  {
    hide InOrder, RowRank, Outdoes;
    var at := PlacesOf(sorted, n);
    forall i | 0 <= i < n ensures at[i] < |items| && sorted[i] == Rows(items, score)[at[i]] { RowIsThere(items, score, sorted, i); }
    forall i, j | 0 <= i < j < n ensures Outdoes(items, score, at[i], at[j]) { RowsOnce(items, score, sorted, i, j); }
    forall i, p | 0 <= i < n && 0 <= p < |items| && p !in at ensures Outdoes(items, score, at[i], p) {
      assert forall k :: 0 <= k < n ==> at[k] in at;
      RowLeftOut(items, score, sorted, n, i, p);
    }
  }

  lemma RankingMeans(items: seq<Item>, score: string -> real, topK: int, r: seq<Retrieved>)
    requires IsRanking(items, score, topK, r)
    ensures AreBest(items, score, topK, r)
  {
    var rows := Rows(items, score);
    var sorted: seq<Row> :| multiset(sorted) == multiset(rows) && InOrder(sorted, RowRank, false) && r == Numbered(FirstItems(sorted, topK));
    assert |sorted| == |multiset(sorted)| == |multiset(rows)| == |rows|;
    PlacesAreBest(items, score, sorted, |r|);
    hide InOrder, RowRank, Outdoes, BestFirst;
    assert ListedAt(items, score, topK, r, PlacesOf(sorted, |r|));
  }

  lemma RowIsThere(items: seq<Item>, score: string -> real, sorted: seq<Row>, i: nat)
    requires multiset(sorted) == multiset(Rows(items, score)) && i < |sorted|
    ensures sorted[i].at < |items| && sorted[i] == Rows(items, score)[sorted[i].at]
  {
    assert sorted[i] in multiset(sorted) && sorted[i] in Rows(items, score);
  }

  lemma RowLeftOut(items: seq<Item>, score: string -> real, sorted: seq<Row>, n: nat, i: nat, p: nat)
    requires multiset(sorted) == multiset(Rows(items, score)) && InOrder(sorted, RowRank, false)
    requires i < n <= |sorted| && p < |items| && forall k :: 0 <= k < n ==> sorted[k].at != p
    ensures sorted[i].at < |items| && Outdoes(items, score, sorted[i].at, p)
  {
    hide InOrder, RowRank, Outdoes;
    var row := Rows(items, score)[p];
    assert row in multiset(Rows(items, score)) && row in sorted;
    var j :| 0 <= j < |sorted| && sorted[j] == row;
    RowsOnce(items, score, sorted, i, j);
  }

  /** A ranking lists no memory twice if the ranked items are distinct. */
  lemma RankingDuplicateFree(items: seq<Item>, score: string -> real, topK: int, r: seq<Retrieved>)
    requires DistinctItems(items) && IsRanking(items, score, topK, r)
    ensures DuplicateFree(IdsOf(r))
  {
    hide InOrder;
    var rows := Rows(items, score);
    var sorted: seq<Row> :| multiset(sorted) == multiset(rows) && InOrder(sorted, RowRank, false) && r == Numbered(FirstItems(sorted, topK));
    forall i, j | 0 <= i < j < |r| ensures r[i].memoryId != r[j].memoryId {
      var a, b := sorted[i], sorted[j];
      assert a in multiset(sorted) && b in multiset(sorted);
      assert a in rows && b in rows;
      if a.item.memoryId == b.item.memoryId {
        TwiceInSequence(sorted, i, j);
        OnceInDistinct(rows, a);
      }
    }
  }

  /** The baseline's score: in [0, 1] for every query whose sessions go by distinct ids. */
  method ScoreBaseline(q: Query, score: string -> real, relevant: set<string>, k: int, w: nat -> real) returns (ndcg: real)
    requires DistinctSessions(q, |q.sessions|) && Decreasing(w)
    ensures 0.0 <= ndcg <= 1.0
  {
    var baseline := new BuiltInMemoryBaseline();
    var retrieved := baseline.Retrieve(q, score, k);
    ndcg := NdcgAtK(IdsOf(retrieved), relevant, k, w);
    ScoreBounds(IdsOf(retrieved), relevant, k, w);
  }
}
