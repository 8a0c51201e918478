/** The migration as it runs: one database object whose tables the steps rewrite in place. */
module FactDatabase {
  import opened Options
  import opened Text
  import opened Ordering
  import opened Grouping
  import opened Dedup
  import opened FactTables
  import opened FactChecks
  import opened FactMigration
  import opened FactOutcome

  datatype ChildTable = Receipts | OutboxEntries

  function KeeperIds(ds: seq<Decision>): set<string> {
    if ds == [] then {} else KeeperIds(ds[..|ds| - 1]) + {ds[|ds| - 1].keeper}
  }

  function LoserIds(ds: seq<Decision>): set<string> {
    if ds == [] then {} else LoserIds(ds[..|ds| - 1]) + SetOf(ds[|ds| - 1].losers)
  }

  function RangeIds(rows: seq<Fact>, s: nat, e: nat): set<string>
    requires s <= e <= |rows|
  {
    set k | s <= k < e :: rows[k].id
  }

  ghost predicate AllGood(facts: map<string, Fact>, ds: seq<Decision>) {
    forall d :: d in ds ==> GoodDecision(facts, d)
  }

  /** The decisions split the rows before `s` into keepers and losers. */
  ghost predicate Streamed(facts: map<string, Fact>, rows: seq<Fact>, s: nat, ds: seq<Decision>) {
    && s <= |rows|
    && AllGood(facts, ds)
    && KeeperIds(ds) + LoserIds(ds) == RangeIds(rows, 0, s)
    && KeeperIds(ds) <= facts.Keys - Losers(facts)
    && LoserIds(ds) <= Losers(facts)
    && |KeeperIds(ds)| == |ds|
  }

  lemma StreamedStart(facts: map<string, Fact>, rows: seq<Fact>)
    ensures Streamed(facts, rows, 0, [])
  {
  }

  lemma GroupIds(facts: map<string, Fact>, rows: seq<Fact>, s: nat, e: nat, d: Decision)
    requires WellKeyed(facts) && KeysVerified(facts) && s < e <= |rows|
    requires IsGroup(facts, rows[s..e], Stored(rows[s]))
    requires GoodDecision(facts, d) && KeyOf(facts[d.keeper]) == Stored(rows[s])
    ensures {d.keeper} + SetOf(d.losers) == RangeIds(rows, s, e)
  {
    hide KeyOf, Rank, Less;
    var group := rows[s..e];
    forall id | id in {d.keeper} + SetOf(d.losers) ensures id in RangeIds(rows, s, e) {
      assert Stored(facts[id]) == Stored(rows[s]);
      var m :| 0 <= m < e - s && group[m] == facts[id];
      assert rows[s + m].id == id;
    }
    forall id | id in RangeIds(rows, s, e) ensures id in {d.keeper} + SetOf(d.losers) {
      var k :| s <= k < e && rows[k].id == id;
      assert group[k - s] == rows[k] && rows[k] in group;
    }
  }

  lemma GoodLosersLose(facts: map<string, Fact>, d: Decision)
    requires GoodDecision(facts, d)
    ensures SetOf(d.losers) <= Losers(facts) && {d.keeper} <= facts.Keys - Losers(facts)
  {
    forall id | id in d.losers ensures id in Losers(facts) {
      if IsKeeper(facts, id) { KeeperUnique(facts, id, d.keeper); }
    }
  }

  lemma RangesDisjoint(facts: map<string, Fact>, rows: seq<Fact>, s: nat, e: nat)
    requires GroupOrdered(facts, rows) && s <= e <= |rows|
    ensures RangeIds(rows, 0, s) !! RangeIds(rows, s, e)
    ensures RangeIds(rows, 0, e) == RangeIds(rows, 0, s) + RangeIds(rows, s, e)
  {
    hide GroupOrdered;
    forall j, k | 0 <= j < s <= k < e ensures rows[j].id != rows[k].id {
      KeysAscend(facts, rows, j, k);
    }
  }

  lemma StreamedStep(facts: map<string, Fact>, rows: seq<Fact>, s: nat, e: nat, ds: seq<Decision>, d: Decision)
    requires WellKeyed(facts) && KeysVerified(facts) && GroupOrdered(facts, rows)
    requires Streamed(facts, rows, s, ds) && s < e <= |rows|
    requires IsGroup(facts, rows[s..e], Stored(rows[s]))
    requires GoodDecision(facts, d) && KeyOf(facts[d.keeper]) == Stored(rows[s])
    ensures Streamed(facts, rows, e, ds + [d])
  {
    hide KeyOf, Rank, Less, IsGroup, GoodDecision, IsKeeper, Losers, GroupOrdered, WellKeyed, KeysVerified, RangeIds, SetOf,
      Stored;
    assert (ds + [d])[..|ds|] == ds;
    GroupIds(facts, rows, s, e, d);
    GoodLosersLose(facts, d);
    RangesDisjoint(facts, rows, s, e);
  }

  lemma AllRowsRange(facts: map<string, Fact>, rows: seq<Fact>)
    requires WellKeyed(facts) && GroupOrdered(facts, rows)
    ensures RangeIds(rows, 0, |rows|) == facts.Keys
  {
    hide GroupKey, Less;
    forall id | id in facts ensures id in RangeIds(rows, 0, |rows|) {
      var k :| 0 <= k < |rows| && rows[k] == facts[id];
      assert rows[k].id == id;
    }
    forall k | 0 <= k < |rows| ensures rows[k].id in facts {
      assert rows[k] in rows;
    }
  }

  lemma LosersAreFacts(facts: map<string, Fact>)
    ensures Losers(facts) <= facts.Keys
  {
  }

  /** When the stream ends the decisions are the whole truth about keepers and losers. */
  lemma StreamedAll(facts: map<string, Fact>, rows: seq<Fact>, ds: seq<Decision>)
    requires WellKeyed(facts) && GroupOrdered(facts, rows) && Streamed(facts, rows, |rows|, ds)
    ensures AllGood(facts, ds)
    ensures KeeperIds(ds) == facts.Keys - Losers(facts) && LoserIds(ds) == Losers(facts)
    ensures |ds| == |facts.Keys - Losers(facts)|
  {
    LosersAreFacts(facts);
    hide AllGood, RangeIds, Losers, KeeperIds, LoserIds, GroupOrdered, WellKeyed;
    AllRowsRange(facts, rows);
  }

  /** _stream_keeper_decisions over rows ordered by (dedup_key, id). */
  method StreamKeeperDecisions(rows: seq<Fact>, ghost facts: map<string, Fact>) returns (decisions: seq<Decision>)
    requires WellKeyed(facts) && KeysVerified(facts) && GroupOrdered(facts, rows)
    ensures AllGood(facts, decisions)
    ensures KeeperIds(decisions) == facts.Keys - Losers(facts) && LoserIds(decisions) == Losers(facts)
    ensures |decisions| == |facts.Keys - Losers(facts)|
  {
    hide KeyOf, Rank, Less, IsGroup, GroupOrdered, KeysVerified, WellKeyed, Losers, Streamed, KeeperIds, LoserIds, Decide,
      SortBy, AllGood, GoodDecision;
    decisions := [];
    var group: seq<Fact> := [];
    ghost var s := 0;
    StreamedStart(facts, rows);
    for i := 0 to |rows|
      invariant s <= i && group == rows[s..i]
      invariant i > 0 ==> IsRun(rows, s, i)
      invariant Streamed(facts, rows, s, decisions)
    {
      if group == [] || Stored(rows[i]) != Stored(group[0]) {
        if group != [] {
          RunIsGroup(facts, rows, s, i);
          DecideIsGood(facts, group, Stored(rows[s]));
          NextRunStarts(facts, rows, s, i);
          StreamedStep(facts, rows, s, i, decisions, Decide(group));
          decisions := decisions + [Decide(group)];
        }
        group := [rows[i]];
        s := i;
      } else {
        group := group + [rows[i]];
      }
    }
    if group != [] {
      RunIsGroup(facts, rows, s, |rows|);
      DecideIsGood(facts, group, Stored(rows[s]));
      StreamedStep(facts, rows, s, |rows|, decisions, Decide(group));
      decisions := decisions + [Decide(group)];
    }
    StreamedAll(facts, rows, decisions);
  }

  /** Rows in `seen` were yielded; all but those still in the chunk are updated. */
  ghost predicate Progress(f0: map<string, Fact>, now: map<string, Fact>, seen: set<string>, chunk: seq<Fact>) {
    && seen <= f0.Keys
    && (forall r :: r in chunk ==> r.id in seen && f0[r.id] == r && r.dedupKey == None)
    && now == Backfilled(f0, seen - Ids(chunk))
  }

  lemma ProgressStart(f0: map<string, Fact>)
    ensures Progress(f0, f0, {}, [])
  {
  }

  lemma ProgressFacts(f0: map<string, Fact>, now: map<string, Fact>, seen: set<string>, chunk: seq<Fact>)
    requires Progress(f0, now, seen, chunk)
    ensures now.Keys == f0.Keys
    ensures chunk == [] ==> now == Backfilled(f0, seen)
  {
    if chunk == [] { assert seen - Ids(chunk) == seen; }
  }

  /** A row not yet yielded is still as it was. */
  lemma ProgressPending(f0: map<string, Fact>, now: map<string, Fact>, seen: set<string>, chunk: seq<Fact>, id: string)
    requires Progress(f0, now, seen, chunk) && id in f0 && id !in seen
    ensures id in now && now[id] == f0[id]
  {
  }

  lemma ProgressTake(f0: map<string, Fact>, now: map<string, Fact>, seen: set<string>, chunk: seq<Fact>, row: Fact)
    requires Progress(f0, now, seen, chunk)
    requires row.id in f0 && row.id !in seen && now[row.id] == row && f0[row.id].dedupKey == None
    ensures Progress(f0, now, seen + {row.id}, chunk + [row])
  {
    assert (seen + {row.id}) - Ids(chunk + [row]) == seen - Ids(chunk);
  }

  lemma ProgressFlush(f0: map<string, Fact>, now: map<string, Fact>, seen: set<string>, chunk: seq<Fact>)
    requires Progress(f0, now, seen, chunk)
    ensures forall r :: r in chunk ==> r.id in now && now[r.id] == r && r.dedupKey == None
    ensures Backfilled(now, Ids(chunk)) == Backfilled(f0, seen)
    ensures Progress(f0, Backfilled(now, Ids(chunk)), seen, [])
  {
    BackfilledTwice(f0, seen - Ids(chunk), Ids(chunk));
    assert (seen - Ids(chunk)) + Ids(chunk) == seen;
    assert seen - Ids([]) == seen;
  }

  lemma PageMembers(keys: set<Key>, last: Key, n: nat)
    requires n >= 1 && Page(keys, last, n) != []
    ensures var p := Page(keys, last, n);
      && (forall k :: k in p ==> k in keys)
      && (forall k :: k in After(keys, last) <==> k in p || k in After(keys, p[|p| - 1]))
      && (forall k :: k in p ==> k !in After(keys, p[|p| - 1]))
      && Ascending(p)
  {
    var p, all := Page(keys, last, n), Sorted(After(keys, last));
    PageThenRest(keys, last, n);
    var rest := Sorted(After(keys, p[|p| - 1]));
    assert all == p + rest;
    forall k ensures k in After(keys, last) <==> k in p || k in After(keys, p[|p| - 1]) {
      assert k in all <==> k in p || k in rest;
    }
    forall i, j | 0 <= i < j < |p| ensures Less(p[i], p[j]) {
      assert p[i] == all[i] && p[j] == all[j];
    }
    forall k | k in p ensures k !in After(keys, p[|p| - 1]) {
      LessTotal(k, p[|p| - 1]);
    }
  }

  lemma PageDistinct(page: seq<Key>, i: nat)
    requires Ascending(page) && i < |page|
    ensures page[i] !in page[..i]
  {
    if page[i] in page[..i] {
      var j :| 0 <= j < i && page[..i][j] == page[i];
      LessTotal(page[j], page[i]);
    }
  }

  // ----- keyset paging over ids -----

  /** `seen` is every id up to `last`, except the empty one: `id > ''` never selects it. */
  ghost predicate Visited(ids: set<string>, last: string, seen: set<string>) {
    && seen <= ids
    && forall id :: id in ids ==> (id in seen <==> id != "" && IdKey(id) !in After(IdKeys(ids), IdKey(last)))
  }

  lemma VisitedStart(ids: set<string>)
    ensures Visited(ids, "", {})
  {
    forall id | id in ids ensures IdKey(id) in After(IdKeys(ids), IdKey("")) <==> id != "" {
      IdKeyLess("", id);
    }
  }

  lemma VisitedPage(ids: set<string>, last: string, seen: set<string>, page: seq<Key>)
    requires Visited(ids, last, seen)
    requires page == Page(IdKeys(ids), IdKey(last), PAGE_SIZE) && page != []
    ensures Ascending(page)
    ensures forall k: Key :: k in page ==> |k| == 1 && k[0].Str? && k[0].s in ids - seen - {""}
  {
    hide Less, Page;
    PageMembers(IdKeys(ids), IdKey(last), PAGE_SIZE);
    forall k: Key | k in page ensures |k| == 1 && k[0].Str? && k[0].s in ids - seen - {""} {
      var id :| id in ids && k == IdKey(id);
      IdKeyLess(last, "");
      assert IdKey(id) in After(IdKeys(ids), IdKey(last));
    }
  }

  lemma VisitedNext(ids: set<string>, last: string, seen: set<string>, page: seq<Key>, seen2: set<string>)
    requires Visited(ids, last, seen)
    requires page == Page(IdKeys(ids), IdKey(last), PAGE_SIZE) && page != []
    requires forall id :: id in seen2 <==> id in seen || IdKey(id) in page
    ensures |page[|page| - 1]| == 1 && page[|page| - 1][0].Str?
    ensures var next := page[|page| - 1][0].s;
      Visited(ids, next, seen2) && |After(IdKeys(ids), IdKey(next))| < |After(IdKeys(ids), IdKey(last))|
  {
    hide Less, Page, After;
    VisitedPage(ids, last, seen, page);
    PageMembers(IdKeys(ids), IdKey(last), PAGE_SIZE);
    PageThenRest(IdKeys(ids), IdKey(last), PAGE_SIZE);
    assert page[|page| - 1] in page;
    assert IdKey(page[|page| - 1][0].s) == page[|page| - 1];
    forall id | id in seen2 ensures id in ids {
      if IdKey(id) in page { assert IdKey(id)[0].s in ids; }
    }
  }

  lemma VisitedEnd(ids: set<string>, last: string, seen: set<string>)
    requires Visited(ids, last, seen) && Page(IdKeys(ids), IdKey(last), PAGE_SIZE) == []
    ensures seen == ids - {""}
  {
    PageThenRest(IdKeys(ids), IdKey(last), PAGE_SIZE);
    forall id | id in ids ensures IdKey(id) !in After(IdKeys(ids), IdKey(last)) {
      assert IdKey(id) !in Sorted(After(IdKeys(ids), IdKey(last)));
    }
  }

  // ----- keyset paging over (dedup_key, id) -----

  function GroupKeys(facts: map<string, Fact>): set<Key> {
    set id | id in facts :: GroupKey(facts[id])
  }

  const GROUP_START: Key := [Str(""), Str("")]

  function RowsAt(facts: map<string, Fact>, page: seq<Key>): (rows: seq<Fact>)
    requires forall k: Key :: k in page ==> |k| == 2 && k[1].Str? && k[1].s in facts
  {
    seq(|page|, i requires 0 <= i < |page| => assert page[i] in page; facts[page[i][1].s])
  }

  /** The rows yielded so far are the keys up to `last`, in order. */
  ghost predicate Yielded(facts: map<string, Fact>, rows: seq<Fact>, last: Key) {
    exists visited: seq<Key> :: YieldedKeys(facts, rows, last, visited)
  }

  ghost predicate YieldedKeys(facts: map<string, Fact>, rows: seq<Fact>, last: Key, visited: seq<Key>) {
    && RowsOfKeys(facts, rows, visited)
    && Sorted(After(GroupKeys(facts), GROUP_START)) == visited + Sorted(After(GroupKeys(facts), last))
  }

  lemma YieldedStart(facts: map<string, Fact>)
    ensures Yielded(facts, [], GROUP_START)
  {
    assert Sorted(After(GroupKeys(facts), GROUP_START)) == [] + Sorted(After(GroupKeys(facts), GROUP_START));
    assert YieldedKeys(facts, [], GROUP_START, []);
  }

  lemma GroupPage(facts: map<string, Fact>, last: Key, page: seq<Key>)
    requires WellKeyed(facts) && page == Page(GroupKeys(facts), last, PAGE_SIZE)
    ensures forall k: Key :: k in page ==> |k| == 2 && k[1].Str? && k[1].s in facts && GroupKey(facts[k[1].s]) == k
  {
    if page != [] {
      PageMembers(GroupKeys(facts), last, PAGE_SIZE);
    }
  }

  lemma YieldedNext(facts: map<string, Fact>, rows: seq<Fact>, last: Key, page: seq<Key>)
    requires WellKeyed(facts) && Yielded(facts, rows, last)
    requires page == Page(GroupKeys(facts), last, PAGE_SIZE) && page != []
    requires forall k: Key :: k in page ==> |k| == 2 && k[1].Str? && k[1].s in facts
    ensures Yielded(facts, rows + RowsAt(facts, page), page[|page| - 1])
    ensures |After(GroupKeys(facts), page[|page| - 1])| < |After(GroupKeys(facts), last)|
  {
    hide Less, After, Sorted, Page, GroupKey, GroupKeys, RowsOfKeys, RowsAt;
    var visited :| YieldedKeys(facts, rows, last, visited);
    PageThenRest(GroupKeys(facts), last, PAGE_SIZE);
    GroupPage(facts, last, page);
    var rest := Sorted(After(GroupKeys(facts), page[|page| - 1]));
    assert (visited + page) + rest == visited + (page + rest);
    RowsAtKeys(facts, rows, visited, page);
    assert YieldedKeys(facts, rows + RowsAt(facts, page), page[|page| - 1], visited + page);
  }

  lemma RowsAtKeys(facts: map<string, Fact>, rows: seq<Fact>, visited: seq<Key>, page: seq<Key>)
    requires WellKeyed(facts) && RowsOfKeys(facts, rows, visited)
    requires forall k: Key :: k in page ==> |k| == 2 && k[1].Str? && k[1].s in facts && GroupKey(facts[k[1].s]) == k
    ensures RowsOfKeys(facts, rows + RowsAt(facts, page), visited + page)
  {
    hide GroupKey;
    forall i | 0 <= i < |page| ensures RowsAt(facts, page)[i] == facts[page[i][1].s] && GroupKey(RowsAt(facts, page)[i]) == page[i] {
      assert page[i] in page;
    }
  }

  lemma GroupKeysAfterStart(facts: map<string, Fact>)
    requires KeysVerified(facts)
    ensures After(GroupKeys(facts), GROUP_START) == GroupKeys(facts)
  {
    forall id | id in facts ensures Less(GROUP_START, GroupKey(facts[id])) {
      var f := facts[id];
      FactKeyNonEmpty(Some(f.subject), Some(f.predicat), Some(f.objekt));
      assert Stored(f) == KeyOf(f);
    }
  }

  predicate RowsOfKeys(facts: map<string, Fact>, rows: seq<Fact>, visited: seq<Key>) {
    && |rows| == |visited|
    && forall i :: 0 <= i < |rows| ==>
      rows[i].id in facts && facts[rows[i].id] == rows[i] && GroupKey(rows[i]) == visited[i]
  }

  lemma RowOfId(facts: map<string, Fact>, rows: seq<Fact>, visited: seq<Key>, id: string)
    requires RowsOfKeys(facts, rows, visited) && WellKeyed(facts) && id in facts
    requires GroupKey(facts[id]) in visited
    ensures facts[id] in rows
  {
    var i :| 0 <= i < |visited| && visited[i] == GroupKey(facts[id]);
    assert GroupKey(rows[i])[1] == GroupKey(facts[id])[1] == Str(id);
  }

  lemma OrderedFromKeys(facts: map<string, Fact>, rows: seq<Fact>, visited: seq<Key>)
    requires RowsOfKeys(facts, rows, visited) && visited == Sorted(GroupKeys(facts)) && WellKeyed(facts)
    ensures GroupOrdered(facts, rows)
  {
    hide Less, GroupKey, WellKeyed, RowsOfKeys, GroupKeys, RowsAreFacts, AscendingRows;
    RowsFromKeys(facts, rows, visited);
    forall id | id in facts ensures facts[id] in rows {
      KeyOfFactVisited(facts, id);
      RowOfId(facts, rows, visited, id);
    }
  }

  lemma KeyOfFactVisited(facts: map<string, Fact>, id: string)
    requires id in facts
    ensures GroupKey(facts[id]) in Sorted(GroupKeys(facts))
  {
    hide GroupKey;
  }

  lemma RowsFromKeys(facts: map<string, Fact>, rows: seq<Fact>, visited: seq<Key>)
    requires RowsOfKeys(facts, rows, visited) && Ascending(visited)
    ensures RowsAreFacts(facts, rows) && AscendingRows(rows)
  {
    hide Less, GroupKey;
  }

  lemma YieldedEnd(facts: map<string, Fact>, rows: seq<Fact>, last: Key)
    requires WellKeyed(facts) && KeysVerified(facts) && Yielded(facts, rows, last)
    requires Page(GroupKeys(facts), last, PAGE_SIZE) == []
    ensures GroupOrdered(facts, rows)
  {
    hide Less, After, Page, KeyOf, GroupKey, GroupKeys, GroupOrdered, KeysVerified;
    var visited :| YieldedKeys(facts, rows, last, visited);
    PageThenRest(GroupKeys(facts), last, PAGE_SIZE);
    GroupKeysAfterStart(facts);
    assert visited == Sorted(GroupKeys(facts));
    OrderedFromKeys(facts, rows, visited);
  }

  // ----- chunked deletes -----

  function IdsAt(page: seq<Key>): seq<string>
    requires forall k: Key :: k in page ==> |k| == 1 && k[0].Str?
  {
    seq(|page|, i requires 0 <= i < |page| => assert page[i] in page; page[i][0].s)
  }

  lemma IdsAtMembers(page: seq<Key>, seen: set<string>)
    requires forall k: Key :: k in page ==> |k| == 1 && k[0].Str?
    ensures forall id :: id in seen + SetOf(IdsAt(page)) <==> id in seen || IdKey(id) in page
  {
    var ids := IdsAt(page);
    forall id ensures id in ids <==> IdKey(id) in page {
      if id in ids {
        var i :| 0 <= i < |ids| && ids[i] == id;
        assert page[i] in page && page[i] == IdKey(id);
      }
      if IdKey(id) in page {
        var i :| 0 <= i < |page| && page[i] == IdKey(id);
        assert ids[i] == id;
      }
    }
  }

  lemma SetOfTake(ids: seq<string>, start: nat, end: nat)
    requires start <= end <= |ids|
    ensures SetOf(ids[..end]) == SetOf(ids[..start]) + SetOf(ids[start..end])
    ensures SetOf(ids[..0]) == {}
  {
    assert ids[..end] == ids[..start] + ids[start..end];
  }

  lemma ConcatStart()
    ensures SetOf(Concat([])) == {}
  {
  }

  lemma ConcatNext(chunks: seq<seq<string>>, chunk: seq<string>)
    ensures SetOf(Concat(chunks + [chunk])) == SetOf(Concat(chunks)) + SetOf(chunk)
  {
    assert (chunks + [chunk])[..|chunks|] == chunks;
  }

  lemma OwnedRefsOfRest(rows: seq<Owned>, done: set<string>, more: set<string>)
    ensures OwnedRefs(rows, done) + OwnedRefs(Without(rows, OwnedRefs(rows, done)), more) == OwnedRefs(rows, done + more)
  {
    WithoutMembers(rows, OwnedRefs(rows, done));
  }

  lemma RefsOfFactRows(rows: seq<Owned>, ids: set<string>)
    ensures SetOf(Refs(FactRows(rows, ids))) == OwnedRefs(rows, ids)
  {
    FactRowsMembers(rows, ids);
    var found := FactRows(rows, ids);
    forall x ensures x in Refs(found) <==> x in OwnedRefs(rows, ids) {
      if x in Refs(found) {
        var i :| 0 <= i < |Refs(found)| && Refs(found)[i] == x;
        assert found[i] in found;
      }
      if x in OwnedRefs(rows, ids) {
        var r :| r in rows && r.kind == "fact" && r.ref in ids && r.ref == x;
        var i :| 0 <= i < |found| && found[i] == r;
        assert Refs(found)[i] == x;
      }
    }
  }

  // ----- rebuilding the reference tables -----

  /** The remapped relations that are no self-loops. */
  function KeptRelations(km: map<string, string>, rows: seq<Relation>): seq<Relation> {
    if rows == [] then []
    else
      var kept := KeptRelations(km, rows[..|rows| - 1]);
      var r := RemapRelation(km, rows[|rows| - 1]);
      if r.source == r.target then kept else kept + [r]
  }

  lemma {:induction false} KeptRelationsAre(km: map<string, string>, rows: seq<Relation>)
    ensures forall r :: r in KeptRelations(km, rows) <==> r in RemapRelations(km, rows) && r.source != r.target
    ensures KeptRelations(km, rows) != [] <==> SomeRelationKept(rows, km)
  {
    hide Remap;
    if rows != [] {
      var init, last := rows[..|rows| - 1], rows[|rows| - 1];
      KeptRelationsAre(km, init);
      assert RemapRelations(km, rows) == RemapRelations(km, init) + [RemapRelation(km, last)];
      assert rows == init + [last];
    }
  }

  lemma SameStateId(km: map<string, string>, pre: seq<StateRow>, a: StateRow, b: StateRow)
    requires DistinctStates(pre) && a in RemapStates(km, pre) && b in RemapStates(km, pre) && a.id == b.id
    ensures a == b
  {
    var all := RemapStates(km, pre);
    var i :| 0 <= i < |all| && all[i] == a;
    var j :| 0 <= j < |all| && all[j] == b;
    assert pre[i].id == pre[j].id;
  }

  /** The winner of a group is strictly greater than every other row of it. */
  lemma WinnerSupersedes(km: map<string, string>, pre: seq<StateRow>, p: StateRow, r: StateRow)
    requires DistinctStates(pre) && p in RemapStates(km, pre) && r in RemapStates(km, pre)
    requires StateGroup(p) == StateGroup(r) && !Precedes(StateRank(r), StateRank(p), true)
    ensures Supersedes(p, r)
  {
    LessTotal(StateRank(p), StateRank(r));
    if StateRank(p) == StateRank(r) {
      assert StateRank(p)[2] == StateRank(r)[2];
      SameStateId(km, pre, p, r);
    }
  }

  lemma CollapsedStates(km: map<string, string>, pre: seq<StateRow>, out: seq<StateRow>)
    requires DistinctStates(pre) && OnePerGroup(RemapStates(km, pre), StateGroup, StateRank, true, out)
    ensures StatesRemapped(pre, km, out) && DistinctStates(out)
    ensures out == [] <==> pre == []
  {
    hide Less, StateRank, Supersedes;
    var all := RemapStates(km, pre);
    forall r | r in all && r !in out ensures exists p :: p in out && Supersedes(p, r) {
      var p :| p in out && StateGroup(p) == StateGroup(r);
      assert IsBest(all, StateGroup, StateRank, true, StateGroup(p), p);
      WinnerSupersedes(km, pre, p, r);
    }
    forall p | p in out ensures p in all {
      assert IsBest(all, StateGroup, StateRank, true, StateGroup(p), p);
    }
    forall i, j | 0 <= i < j < |out| ensures out[i].id != out[j].id {
      if out[i].id == out[j].id { SameStateId(km, pre, out[i], out[j]); }
    }
    if pre != [] { assert all[0] in all; }
    if out != [] { assert out[0] in out; }
  }

  lemma CollapsedRelations(km: map<string, string>, pre: seq<Relation>, out: seq<Relation>)
    requires OnePerGroup(KeptRelations(km, pre), RelationKey, RelationRank, false, out)
    ensures RelationsRemapped(pre, km, out) && DistinctRelations(out)
    ensures out != [] <==> SomeRelationKept(pre, km)
  {
    hide KeptRelations, RemapRelations, Before;
    var kept := KeptRelations(km, pre);
    KeptRelationsAre(km, pre);
    forall p | p in out ensures p in kept {
      assert IsBest(kept, RelationKey, RelationRank, false, RelationKey(p), p);
    }
    forall r | r in kept && r !in out ensures exists p :: p in out && Replaces(p, r) {
      var p :| p in out && RelationKey(p) == RelationKey(r);
      assert IsBest(kept, RelationKey, RelationRank, false, RelationKey(p), p);
      assert !Less(RelationRank(r), RelationRank(p));
      assert RelationRank(r)[0] == Num(r.createdAt as real) && RelationRank(p)[0] == Num(p.createdAt as real);
      assert Replaces(p, r);
    }
    if kept != [] { assert kept[0] in kept; }
    if out != [] { assert out[0] in out; }
  }

  // ----- the run as a whole -----

  /** The backfill is invisible to the choice of keepers. */
  lemma BackfillKeepsKeepers(facts: map<string, Fact>, ids: set<string>)
    ensures WellKeyed(facts) ==> WellKeyed(Backfilled(facts, ids))
    ensures Losers(Backfilled(facts, ids)) == Losers(facts)
    ensures KeeperMap(Backfilled(facts, ids)) == KeeperMap(facts)
  {
    hide KeyOf, Rank, Losers, KeeperMap;
    var b := Backfilled(facts, ids);
    forall id | id in facts ensures Rank(b[id]) == Rank(facts[id]) && KeyOf(b[id]) == KeyOf(facts[id]) {
      SameContent(b[id], facts[id]);
    }
    SameChoice(facts, b);
  }

  lemma SameChoice(a: map<string, Fact>, b: map<string, Fact>)
    requires a.Keys == b.Keys
    requires forall id :: id in a ==> Rank(b[id]) == Rank(a[id]) && KeyOf(b[id]) == KeyOf(a[id])
    ensures Losers(a) == Losers(b) && KeeperMap(a) == KeeperMap(b)
  {
    hide Rank, KeyOf, Less;
    forall id | id in a ensures IsKeeper(a, id) == IsKeeper(b, id) && KeeperOf(a, id) == KeeperOf(b, id) {
      SameChoiceAt(a, b, id);
    }
  }

  lemma SameKeepers(a: map<string, Fact>, ids: set<string>)
    ensures forall id :: IsKeeper(Backfilled(a, ids), id) <==> IsKeeper(a, id)
  {
    hide KeyOf, Rank, Less;
    BackfillKeepsKeepers(a, ids);
    var b := Backfilled(a, ids);
    forall id ensures IsKeeper(b, id) <==> IsKeeper(a, id) {
      assert id in a ==> (id in Losers(a) <==> !IsKeeper(a, id));
      assert id in b ==> (id in Losers(b) <==> !IsKeeper(b, id));
    }
  }

  lemma SameChoiceAt(a: map<string, Fact>, b: map<string, Fact>, id: string)
    requires a.Keys == b.Keys && id in a
    requires forall j :: j in a ==> Rank(b[j]) == Rank(a[j]) && KeyOf(b[j]) == KeyOf(a[j])
    ensures IsKeeper(a, id) == IsKeeper(b, id) && KeeperOf(a, id) == KeeperOf(b, id)
  {
    hide Rank, KeyOf, Less;
    assert SameKey(a, id) == SameKey(b, id);
    var ra, rb := set j | j in SameKey(a, id) :: Rank(a[j]), set j | j in SameKey(b, id) :: Rank(b[j]);
    assert ra == rb;
  }

  lemma GoodLoserKeeper(facts: map<string, Fact>, d: Decision, id: string)
    requires WellKeyed(facts) && GoodDecision(facts, d) && id in d.losers
    ensures id in facts && KeeperOf(facts, id) == d.keeper
  {
    KeeperOfKeeps(facts, id);
    KeeperUnique(facts, KeeperOf(facts, id), d.keeper);
  }

  /** The keeper map built so far covers exactly the losers met so far. */
  ghost predicate MapsLosers(facts: map<string, Fact>, km: map<string, string>, losers: set<string>) {
    km.Keys == losers && forall id :: id in km ==> id in facts && km[id] == KeeperOf(facts, id)
  }

  lemma CollectedStep(ds: seq<Decision>, i: nat)
    requires i < |ds|
    ensures KeeperIds(ds[..i + 1]) == KeeperIds(ds[..i]) + {ds[i].keeper}
    ensures LoserIds(ds[..i + 1]) == LoserIds(ds[..i]) + SetOf(ds[i].losers)
  {
    assert ds[..i + 1][..i] == ds[..i];
  }

  /** Records, for every loser of one decision, its keeper. */
  method MapToKeeper(d: Decision, km0: map<string, string>, ghost facts: map<string, Fact>) returns (km: map<string, string>)
    requires WellKeyed(facts) && GoodDecision(facts, d) && MapsLosers(facts, km0, km0.Keys)
    ensures MapsLosers(facts, km, km0.Keys + SetOf(d.losers))
  {
    hide GoodDecision, KeeperOf, WellKeyed;
    km := km0;
    for j := 0 to |d.losers|
      invariant MapsLosers(facts, km, km0.Keys + SetOf(d.losers[..j]))
    {
      GoodLoserKeeper(facts, d, d.losers[j]);
      assert d.losers[..j + 1] == d.losers[..j] + [d.losers[j]];
      km := km[d.losers[j] := d.keeper];
    }
    assert d.losers[..|d.losers|] == d.losers;
  }

  /** Fill keeper_ids, deleted_fact_ids and keeper_map from the decisions. */
  method CollectDecisions(ds: seq<Decision>, ghost facts: map<string, Fact>)
    returns (keepers: seq<string>, deleted: set<string>, km: map<string, string>)
    requires WellKeyed(facts) && AllGood(facts, ds)
    ensures SetOf(keepers) == KeeperIds(ds) && |keepers| == |ds|
    ensures deleted == LoserIds(ds)
    ensures MapsLosers(facts, km, LoserIds(ds))
  {
    hide GoodDecision, KeeperOf, WellKeyed, KeeperIds, LoserIds, MapsLosers;
    MapsNone(facts);
    keepers, deleted, km := [], {}, map[];
    CollectedStart(ds);
    for i := 0 to |ds|
      invariant SetOf(keepers) == KeeperIds(ds[..i]) && |keepers| == i
      invariant deleted == LoserIds(ds[..i]) && km.Keys == deleted
      invariant MapsLosers(facts, km, deleted)
    {
      CollectedStep(ds, i);
      var d := ds[i];
      keepers := keepers + [d.keeper];
      deleted := deleted + SetOf(d.losers);
      km := MapToKeeper(d, km, facts);
      MapsKeys(facts, km, deleted);
    }
    assert ds[..|ds|] == ds;
  }

  lemma MapsNone(facts: map<string, Fact>)
    ensures MapsLosers(facts, map[], {})
  {
  }

  lemma MapsKeys(facts: map<string, Fact>, km: map<string, string>, losers: set<string>)
    requires MapsLosers(facts, km, losers)
    ensures km.Keys == losers
  {
  }

  lemma CollectedStart(ds: seq<Decision>)
    ensures KeeperIds(ds[..0]) == {} && LoserIds(ds[..0]) == {}
  {
  }

  lemma MapsAllLosers(facts: map<string, Fact>, km: map<string, string>)
    requires MapsLosers(facts, km, Losers(facts))
    ensures km == KeeperMap(facts)
  {
  }

  /** The ids in ascending order. */
  function SortedIds(ids: set<string>): seq<string> {
    var ks := Sorted(IdKeys(ids));
    assert forall k: Key :: k in ks ==> |k| == 1 && k[0].Str?;
    IdsAt(ks)
  }

  lemma SortedIdsMembers(ids: set<string>)
    ensures SetOf(SortedIds(ids)) == ids
  {
    IdsAtMembers(Sorted(IdKeys(ids)), {});
    forall id ensures id in SortedIds(ids) <==> id in ids {
      assert id in SetOf(SortedIds(ids)) <==> IdKey(id) in Sorted(IdKeys(ids));
      if IdKey(id) in IdKeys(ids) {
        var j :| j in ids && IdKey(j) == IdKey(id);
      }
    }
  }

  lemma SortKeepsIds(ids: seq<string>)
    ensures SetOf(SortBy(ids, IdKey, false)) == SetOf(ids) && |SortBy(ids, IdKey, false)| == |ids|
    ensures NoneBefore(SortBy(ids, IdKey, false))
  {
    var s := SortBy(ids, IdKey, false);
    SortBySorts(ids, IdKey, false);
    forall i, j | 0 <= i < j < |s| ensures !Before(s[j], s[i]) { IdKeyLess(s[j], s[i]); }
    hide Less, IdKey, SortBy;
    assert |multiset(s)| == |multiset(ids)|;
    forall x ensures x in s <==> x in ids {
      assert x in multiset(s) <==> x in multiset(ids);
    }
  }

  function KeyedIds(facts: map<string, Fact>): set<string> {
    set id | id in facts && facts[id].dedupKey.Some?
  }

  /** Every row has a key after the backfill exactly when no row has the empty id. */
  lemma BackfillCounts(facts: map<string, Fact>)
    requires forall id :: id in facts ==> facts[id].dedupKey == None
    ensures var b := Backfilled(facts, facts.Keys - {""});
      b.Keys == facts.Keys && (|b.Keys| == |KeyedIds(b)| <==> "" !in facts)
  {
    hide KeyOf;
    assert KeyedIds(Backfilled(facts, facts.Keys - {""})) == facts.Keys - {""};
    if "" in facts {
      assert facts.Keys == (facts.Keys - {""}) + {""};
    } else {
      assert facts.Keys == facts.Keys - {""};
    }
  }

  lemma BackfillComplete(facts: map<string, Fact>)
    requires "" !in facts
    ensures var b := Backfilled(facts, facts.Keys - {""}); KeysVerified(b) && b - Losers(facts) == Survivors(facts)
  {
    hide KeyOf, Losers;
    var b := Backfilled(facts, facts.Keys - {""});
    forall id | id in b ensures KeyOf(b[id]) == KeyOf(facts[id]) { SameContent(b[id], facts[id]); }
  }

  lemma SameContent(a: Fact, b: Fact)
    requires a.(dedupKey := None) == b.(dedupKey := None)
    ensures KeyOf(a) == KeyOf(b) && Rank(a) == Rank(b)
  {
    assert a.subject == b.subject && a.predicat == b.predicat && a.objekt == b.objekt;
    assert a.id == b.id && a.confidence == b.confidence && a.createdAt == b.createdAt && a.state == b.state;
  }

  lemma LegalFacts(pre: Tables)
    requires Legal(pre)
    ensures WellKeyed(pre.facts) && forall id :: id in pre.facts ==> pre.facts[id].dedupKey == None
  {
  }

  lemma MigratedParts(pre: Tables, post: Tables)
    requires post.facts == Survivors(pre.facts) && post.decisions == pre.decisions
    requires post.receipts == Without(pre.receipts, OwnedRefs(pre.receipts, Losers(pre.facts)))
    requires post.outbox == Without(pre.outbox, OwnedRefs(pre.outbox, Losers(pre.facts)))
    requires if Losers(pre.facts) == {}
      then post.states == pre.states && post.events == pre.events && post.relations == pre.relations
      else && StatesRemapped(pre.states, KeeperMap(pre.facts), post.states)
           && post.events == RemapEvents(KeeperMap(pre.facts), pre.events)
           && RelationsRemapped(pre.relations, KeeperMap(pre.facts), post.relations)
    ensures Migrated(pre, post)
  {
  }

  lemma NothingOwned(rows: seq<Owned>)
    ensures Without(rows, OwnedRefs(rows, {})) == rows
  {
    assert OwnedRefs(rows, {}) == {};
    WithoutMembers(rows, {});
  }

  /** When nothing is entangled the deleted rows are the rows the deleted facts owned. */
  lemma DeleteCounts(pre: Tables)
    requires Legal(pre) && !Entangled(pre.outbox, Losers(pre.facts))
    ensures var gone := Losers(pre.facts);
      && |pre.receipts| - |Without(pre.receipts, OwnedRefs(pre.receipts, gone))| == |FactRows(pre.receipts, gone)|
      && |pre.outbox| - |Without(pre.outbox, OwnedRefs(pre.outbox, gone))| == |FactRows(pre.outbox, gone)|
  {
    var gone := Losers(pre.facts);
    DistinctRefsDisentangle(pre.receipts, gone);
    OwnedRefsCover(pre.receipts, gone);
    OwnedRefsCover(pre.outbox, gone);
    DeleteEffect(pre.receipts, OwnedRefs(pre.receipts, gone), gone, {});
    DeleteEffect(pre.outbox, OwnedRefs(pre.outbox, gone), gone, {});
  }

  lemma KeepersAre(facts: map<string, Fact>, keepers: seq<string>, sorted: seq<string>)
    requires SetOf(keepers) == facts.Keys - Losers(facts) && SetOf(sorted) == SetOf(keepers)
    ensures forall id :: id in sorted <==> IsKeeper(facts, id)
  {
    hide KeyOf, Rank, Less;
    forall id ensures id in sorted <==> IsKeeper(facts, id) {
      assert id in sorted <==> id in SetOf(sorted);
    }
  }

  function DupeKeys(facts: map<string, Fact>): set<string> {
    set a, b | a in facts && b in facts && a != b && facts[a].dedupKey == facts[b].dedupKey :: Stored(facts[a])
  }

  lemma NoDupeKeys(facts: map<string, Fact>)
    ensures DupeKeys(Survivors(facts)) == {}
  {
    var post := Survivors(facts);
    forall a, b | a in post && b in post && post[a].dedupKey == post[b].dedupKey ensures a == b {
      KeeperUnique(facts, a, b);
    }
  }

  class Database {
    const variableLimit: nat
    var facts: map<string, Fact>
    var receipts: seq<Owned>
    var outbox: seq<Owned>
    var decisions: seq<string>
    var states: seq<StateRow>
    var events: seq<EventRow>
    var relations: seq<Relation>
    /** b2_deleted_fact_ids */
    var pendingDeletes: set<string>

    constructor (tables: Tables, limit: nat)
      ensures Snapshot() == tables && variableLimit == limit && pendingDeletes == {}
    {
      variableLimit := limit;
      facts, receipts, outbox, decisions := tables.facts, tables.receipts, tables.outbox, tables.decisions;
      states, events, relations := tables.states, tables.events, tables.relations;
      pendingDeletes := {};
    }

    /** _full_state_snapshot */
    function Snapshot(): Tables
      reads this
    {
      Tables(facts, receipts, outbox, decisions, states, events, relations)
    }

    /** _effective_variable_limit */
    function Limit(): nat {
      Lesser(MAX_BOUND_PARAMS, variableLimit)
    }

    function Rows(table: ChildTable): seq<Owned>
      reads this
    {
      if table.Receipts? then receipts else outbox
    }

    // ----- backfill -----

    /** Writes the keys of one full batch, to rows that have none yet. */
    method FlushKeys(chunk: seq<Fact>)
      requires forall r :: r in chunk ==> r.id in facts && facts[r.id] == r && r.dedupKey == None
      modifies `facts
      ensures facts == Backfilled(old(facts), Ids(chunk))
    {
      var data := map r | r in chunk :: r.id := KeyOf(r);
      facts := map id | id in facts ::
        if id in data && facts[id].dedupKey.None? then facts[id].(dedupKey := Some(data[id])) else facts[id];
    }

    /** The rows of one page join the chunk; a full chunk is flushed. */
    method TakePage(page: seq<Key>, chunk0: seq<Fact>, batch: nat, ghost f0: map<string, Fact>, ghost seen0: set<string>)
      returns (failure: Option<Check>, chunk: seq<Fact>, ghost seen: set<string>)
      requires WellKeyed(f0) && forall id :: id in f0 ==> f0[id].dedupKey == None
      requires |chunk0| < batch && 2 * batch + 1 <= Limit()
      requires Progress(f0, facts, seen0, chunk0)
      requires Ascending(page)
      requires forall k: Key :: k in page ==> |k| == 1 && k[0].Str? && k[0].s in f0 && k[0].s !in seen0
      modifies `facts
      ensures failure == None && |chunk| < batch
      ensures Progress(f0, facts, seen, chunk)
      ensures forall id :: id in seen <==> id in seen0 || IdKey(id) in page
    {
      hide KeyOf, Less, Backfilled, Progress, Before;
      chunk, seen := chunk0, seen0;
      for i := 0 to |page|
        invariant |chunk| < batch
        invariant Progress(f0, facts, seen, chunk)
        invariant forall id :: id in seen <==> id in seen0 || IdKey(id) in page[..i]
      {
        assert page[i] in page;
        var id := page[i][0].s;
        assert page[i] == IdKey(id);
        PageDistinct(page, i);
        ProgressPending(f0, facts, seen, chunk, id);
        var row := facts[id];
        assert page[..i + 1] == page[..i] + [page[i]];
        ProgressTake(f0, facts, seen, chunk, row);
        chunk := chunk + [row];
        seen := seen + {row.id};
        if |chunk| == batch {
          if 2 * |chunk| + 1 > Limit() { return Some(ParameterBudget), chunk, seen; }
          ProgressFlush(f0, facts, seen, chunk);
          FlushKeys(chunk);
          chunk := [];
        }
      }
      assert page[..|page|] == page;
      return None, chunk, seen;
    }

    /** _update_dedup_keys: page through the ids, update whenever a batch is full. */
    method UpdateDedupKeys() returns (failure: Option<Check>)
      requires WellKeyed(facts) && forall id :: id in facts ==> facts[id].dedupKey == None
      modifies `facts
      ensures failure == if Limit() < 3 then Some(ParameterBudget) else None
      ensures failure.None? ==> facts == Backfilled(old(facts), old(facts).Keys - {""})
    {
      BatchFits(Limit(), 2, 1);
      var batch := EffectiveBatch(Limit(), 2, 1);
      if batch.None? {
        return Some(ParameterBudget);
      }
      hide *;
      ghost var f0 := facts;
      var last := "";
      var chunk: seq<Fact> := [];
      ghost var seen: set<string> := {};
      VisitedStart(f0.Keys);
      ProgressStart(f0);
      while true
        invariant facts.Keys == f0.Keys
        invariant Progress(f0, facts, seen, chunk) && |chunk| < batch.value
        invariant Visited(f0.Keys, last, seen)
        decreases |After(IdKeys(f0.Keys), IdKey(last))|
      {
        var page := Page(IdKeys(facts.Keys), IdKey(last), PAGE_SIZE);
        if page == [] { break; }
        VisitedPage(f0.Keys, last, seen, page);
        ghost var before, previous := seen, last;
        failure, chunk, seen := TakePage(page, chunk, batch.value, f0, seen);
        if failure.Some? { return; }
        ProgressFacts(f0, facts, seen, chunk);
        VisitedNext(f0.Keys, previous, before, page, seen);
        last := page[|page| - 1][0].s;
      }
      VisitedEnd(f0.Keys, last, seen);
      if chunk != [] {
        if 2 * |chunk| + 1 > Limit() { return Some(ParameterBudget); }
        ProgressFlush(f0, facts, seen, chunk);
        FlushKeys(chunk);
      } else {
        ProgressFacts(f0, facts, seen, chunk);
      }
      return None;
    }

    // ----- keepers -----

    /** _group_fact_rows, drained. */
    method GroupFactRows() returns (rows: seq<Fact>)
      requires WellKeyed(facts) && KeysVerified(facts)
      ensures GroupOrdered(facts, rows)
    {
      hide *;
      rows := [];
      var last := GROUP_START;
      YieldedStart(facts);
      while true
        invariant Yielded(facts, rows, last)
        decreases |After(GroupKeys(facts), last)|
      {
        var page := Page(GroupKeys(facts), last, PAGE_SIZE);
        if page == [] { break; }
        GroupPage(facts, last, page);
        YieldedNext(facts, rows, last, page);
        rows := rows + RowsAt(facts, page);
        last := page[|page| - 1];
      }
      YieldedEnd(facts, rows, last);
    }

    // ----- deletion -----

    /** b2_deleted_fact_ids: the ids go in by batches of one parameter a row. */
    method StageDeletes(ids: seq<string>) returns (failure: Option<Check>)
      requires Limit() >= 3 && pendingDeletes == {}
      modifies `pendingDeletes
      ensures failure == None && pendingDeletes == SetOf(ids)
    {
      BatchFits(Limit(), 1, 0);
      var batch := EffectiveBatch(Limit(), 1, 0);
      if batch.None? { return Some(ParameterBudget); }
      var start := 0;
      while start < |ids|
        invariant 0 <= start <= |ids|
        invariant pendingDeletes == SetOf(ids[..start])
      {
        var end := Lesser(start + batch.value, |ids|);
        var chunk := ids[start..end];
        if |chunk| > Limit() { return Some(ParameterBudget); }
        assert ids[..end] == ids[..start] + chunk;
        pendingDeletes := pendingDeletes + SetOf(chunk);
        start := end;
      }
      assert ids[..start] == ids;
      return None;
    }

    /** deleted_id_chunks, drained; the staged ids do not change while it is used. */
    method DeletedIdChunks() returns (chunks: seq<seq<string>>)
      ensures SetOf(Concat(chunks)) == pendingDeletes - {""}
    {
      hide *;
      chunks := [];
      var last := "";
      ghost var seen: set<string> := {};
      VisitedStart(pendingDeletes);
      ConcatStart();
      while true
        invariant Visited(pendingDeletes, last, seen)
        invariant SetOf(Concat(chunks)) == seen
        decreases |After(IdKeys(pendingDeletes), IdKey(last))|
      {
        var page := Page(IdKeys(pendingDeletes), IdKey(last), PAGE_SIZE);
        if page == [] { break; }
        VisitedPage(pendingDeletes, last, seen, page);
        var chunk := IdsAt(page);
        ghost var more := seen + SetOf(chunk);
        IdsAtMembers(page, seen);
        VisitedNext(pendingDeletes, last, seen, page, more);
        ConcatNext(chunks, chunk);
        chunks := chunks + [chunk];
        seen := more;
        last := page[|page| - 1][0].s;
      }
      VisitedEnd(pendingDeletes, last, seen);
    }

    /** _delete_ids on a child table: the ref column alone selects the rows. */
    method DeleteIds(table: ChildTable, ids: seq<string>) returns (failure: Option<Check>, deleted: int)
      requires Limit() >= 3
      modifies `receipts, `outbox
      ensures failure == None
      ensures Rows(table) == Without(old(Rows(table)), SetOf(ids))
      ensures deleted == |old(Rows(table))| - |Rows(table)|
      ensures if table.Receipts? then outbox == old(outbox) else receipts == old(receipts)
    {
      BatchFits(Limit(), 1, 1);
      var batch := EffectiveBatch(Limit(), 1, 1);
      if batch.None? { return Some(ParameterBudget), 0; }
      deleted := 0;
      var start := 0;
      WithoutMembers(Rows(table), {});
      assert SetOf(ids[..0]) == {};
      while start < |ids|
        invariant 0 <= start <= |ids|
        invariant Rows(table) == Without(old(Rows(table)), SetOf(ids[..start]))
        invariant deleted == |old(Rows(table))| - |Rows(table)|
        invariant if table.Receipts? then outbox == old(outbox) else receipts == old(receipts)
      {
        var end := Lesser(start + batch.value, |ids|);
        var chunk := ids[start..end];
        if |chunk| + 1 > Limit() { return Some(ParameterBudget), deleted; }
        var left := Without(Rows(table), SetOf(chunk));
        WithoutTwice(old(Rows(table)), SetOf(ids[..start]), SetOf(chunk));
        assert ids[..end] == ids[..start] + chunk;
        assert SetOf(ids[..start]) + SetOf(chunk) == SetOf(ids[..end]);
        deleted := deleted + (|Rows(table)| - |left|);
        if table.Receipts? { receipts := left; } else { outbox := left; }
        start := end;
      }
      assert ids[..start] == ids;
      return None, deleted;
    }

    /** One page of deleted ids: select the fact rows that carry one, delete by their refs. */
    method DeleteChildrenOf(table: ChildTable, chunk: seq<string>, ghost rows0: seq<Owned>, ghost done: set<string>)
      returns (failure: Option<Check>, deleted: int)
      requires Limit() >= 3
      requires Rows(table) == Without(rows0, OwnedRefs(rows0, done))
      modifies `receipts, `outbox
      ensures failure == None
      ensures Rows(table) == Without(rows0, OwnedRefs(rows0, done + SetOf(chunk)))
      ensures deleted == |old(Rows(table))| - |Rows(table)|
      ensures if table.Receipts? then outbox == old(outbox) else receipts == old(receipts)
    {
      BatchFits(Limit(), 1, 0);
      var batch := EffectiveBatch(Limit(), 1, 0);
      if batch.None? { return Some(ParameterBudget), 0; }
      deleted := 0;
      var start := 0;
      assert done + SetOf(chunk[..0]) == done;
      while start < |chunk|
        invariant 0 <= start <= |chunk|
        invariant Rows(table) == Without(rows0, OwnedRefs(rows0, done + SetOf(chunk[..start])))
        invariant deleted == |old(Rows(table))| - |Rows(table)|
        invariant if table.Receipts? then outbox == old(outbox) else receipts == old(receipts)
      {
        var end := Lesser(start + batch.value, |chunk|);
        var sub := chunk[start..end];
        if |sub| > Limit() { return Some(ParameterBudget), deleted; }
        ghost var before := done + SetOf(chunk[..start]);
        var childRefs := Refs(FactRows(Rows(table), SetOf(sub)));
        RefsOfFactRows(Rows(table), SetOf(sub));
        OwnedRefsOfRest(rows0, before, SetOf(sub));
        WithoutTwice(rows0, OwnedRefs(rows0, before), SetOf(childRefs));
        assert chunk[..end] == chunk[..start] + sub;
        assert before + SetOf(sub) == done + SetOf(chunk[..end]);
        var n;
        failure, n := DeleteIds(table, childRefs);
        if failure.Some? { return; }
        deleted := deleted + n;
        start := end;
      }
      assert chunk[..start] == chunk;
      return None, deleted;
    }

    /** delete_owned_children */
    method DeleteOwnedChildren(table: ChildTable) returns (failure: Option<Check>, deleted: int)
      requires Limit() >= 3 && "" !in pendingDeletes
      modifies `receipts, `outbox
      ensures failure == None
      ensures Rows(table) == Without(old(Rows(table)), OwnedRefs(old(Rows(table)), pendingDeletes))
      ensures deleted == |old(Rows(table))| - |Rows(table)|
      ensures if table.Receipts? then outbox == old(outbox) else receipts == old(receipts)
    {
      var chunks := DeletedIdChunks();
      deleted := 0;
      ghost var rows0 := Rows(table);
      assert OwnedRefs(rows0, {}) == {};
      WithoutMembers(rows0, {});
      ConcatStart();
      assert chunks[..0] == [];
      for i := 0 to |chunks|
        invariant Rows(table) == Without(rows0, OwnedRefs(rows0, SetOf(Concat(chunks[..i]))))
        invariant deleted == |rows0| - |Rows(table)|
        invariant if table.Receipts? then outbox == old(outbox) else receipts == old(receipts)
      {
        ConcatNext(chunks[..i], chunks[i]);
        assert chunks[..i + 1] == chunks[..i] + [chunks[i]];
        var n;
        failure, n := DeleteChildrenOf(table, chunks[i], rows0, SetOf(Concat(chunks[..i])));
        if failure.Some? { return; }
        deleted := deleted + n;
      }
      assert chunks[..|chunks|] == chunks;
      assert pendingDeletes - {""} == pendingDeletes;
      return None, deleted;
    }

    /** _delete_ids on facts */
    method DeleteFactIds(ids: seq<string>) returns (failure: Option<Check>, deleted: int)
      requires Limit() >= 3
      modifies `facts
      ensures failure == None
      ensures facts == old(facts) - SetOf(ids)
      ensures deleted == |old(facts)| - |facts|
    {
      BatchFits(Limit(), 1, 1);
      var batch := EffectiveBatch(Limit(), 1, 1);
      if batch.None? { return Some(ParameterBudget), 0; }
      hide SetOf;
      SetOfTake(ids, 0, 0);
      deleted := 0;
      var start := 0;
      while start < |ids|
        invariant 0 <= start <= |ids|
        invariant facts == old(facts) - SetOf(ids[..start])
        invariant deleted == |old(facts)| - |facts|
      {
        var end := Lesser(start + batch.value, |ids|);
        var chunk := ids[start..end];
        if |chunk| + 1 > Limit() { return Some(ParameterBudget), deleted; }
        SetOfTake(ids, start, end);
        var left := facts - SetOf(chunk);
        deleted := deleted + (|facts| - |left|);
        facts := left;
        start := end;
      }
      assert ids[..start] == ids;
      return None, deleted;
    }

    /** Deletes the staged facts chunk by chunk and adds up the row counts. */
    method DeleteFacts() returns (failure: Option<Check>, deleted: int)
      requires Limit() >= 3 && "" !in pendingDeletes
      modifies `facts
      ensures failure == None
      ensures facts == old(facts) - pendingDeletes
      ensures deleted == |old(facts)| - |facts|
    {
      hide Limit, Concat, SetOf;
      var chunks := DeletedIdChunks();
      deleted := 0;
      ConcatStart();
      assert chunks[..0] == [];
      for i := 0 to |chunks|
        invariant facts == old(facts) - SetOf(Concat(chunks[..i]))
        invariant deleted == |old(facts)| - |facts|
      {
        ConcatNext(chunks[..i], chunks[i]);
        assert chunks[..i + 1] == chunks[..i] + [chunks[i]];
        var n;
        failure, n := DeleteFactIds(chunks[i]);
        if failure.Some? { return; }
        deleted := deleted + n;
      }
      assert chunks[..|chunks|] == chunks;
      assert pendingDeletes - {""} == pendingDeletes;
      return None, deleted;
    }

    // ----- references -----

    /** _rebuild_reference_tables */
    method RebuildReferenceTables(pre: Tables, km: map<string, string>) returns (failure: Option<Check>)
      requires Legal(pre)
      modifies `states, `events, `relations
      ensures failure ==
        if (pre.events != [] && Limit() < 8) || (pre.states != [] && Limit() < 7)
           || (SomeRelationKept(pre.relations, km) && Limit() < 4)
        then Some(ParameterBudget) else None
      ensures failure == None ==>
        && StatesRemapped(pre.states, km, states)
        && events == RemapEvents(km, pre.events)
        && RelationsRemapped(pre.relations, km, relations)
    {
      hide Less, Remap, Precedes, StatesRemapped, RelationsRemapped, OnePerGroup, SomeRelationKept;
      var stateRows: seq<StateRow> := [];
      for i := 0 to |pre.states|
        invariant stateRows == RemapStates(km, pre.states[..i])
      {
        stateRows := stateRows + [RemapState(km, pre.states[i])];
      }
      assert pre.states[..|pre.states|] == pre.states;
      var dedupedStates := BestOfEachGroup(stateRows, StateGroup, StateRank, true);
      CollapsedStates(km, pre.states, dedupedStates);

      var eventRows: seq<EventRow> := [];
      for i := 0 to |pre.events|
        invariant eventRows == RemapEvents(km, pre.events[..i])
      {
        eventRows := eventRows + [RemapEvent(km, pre.events[i])];
      }
      assert pre.events[..|pre.events|] == pre.events;

      var relationRows: seq<Relation> := [];
      for i := 0 to |pre.relations|
        invariant relationRows == KeptRelations(km, pre.relations[..i])
      {
        var r := RemapRelation(km, pre.relations[i]);
        assert pre.relations[..i + 1][..i] == pre.relations[..i];
        if r.source == r.target { continue; }
        relationRows := relationRows + [r];
      }
      assert pre.relations[..|pre.relations|] == pre.relations;
      var dedupedRelations := BestOfEachGroup(relationRows, RelationKey, RelationRank, false);
      CollapsedRelations(km, pre.relations, dedupedRelations);

      states, events, relations := [], [], [];
      BatchFits(Limit(), 7, 0);
      BatchFits(Limit(), 8, 0);
      BatchFits(Limit(), 4, 0);
      if dedupedStates != [] && EffectiveBatch(Limit(), 7, 0).None? { return Some(ParameterBudget); }
      if !DistinctStates(dedupedStates) { return Some(PrimaryKeyViolated); }
      states := dedupedStates;
      if eventRows != [] && EffectiveBatch(Limit(), 8, 0).None? { return Some(ParameterBudget); }
      if !DistinctEvents(eventRows) { return Some(PrimaryKeyViolated); }
      events := eventRows;
      if dedupedRelations != [] && EffectiveBatch(Limit(), 4, 0).None? { return Some(ParameterBudget); }
      if !DistinctRelations(dedupedRelations) { return Some(PrimaryKeyViolated); }
      relations := dedupedRelations;
      return None;
    }

    /** The streamed decisions, collected: sorted keeper ids, deleted ids, keeper map. */
    method ChooseKeepers() returns (keepers: seq<string>, deleted: set<string>, km: map<string, string>)
      requires WellKeyed(facts) && KeysVerified(facts)
      ensures forall id :: id in keepers <==> IsKeeper(facts, id)
      ensures |keepers| == |facts.Keys - Losers(facts)| && NoneBefore(keepers)
      ensures deleted == Losers(facts) && km == KeeperMap(facts)
    {
      hide *;
      var rows := GroupFactRows();
      var stream := StreamKeeperDecisions(rows, facts);
      keepers, deleted, km := CollectDecisions(stream, facts);
      MapsAllLosers(facts, km);
      SortKeepsIds(keepers);
      KeepersAre(facts, keepers, SortBy(keepers, IdKey, false));
      keepers := SortBy(keepers, IdKey, false);
    }

    /** Stage the deleted ids, delete what they own, then the facts themselves. */
    method DeleteLosers(deleted: set<string>) returns (failure: Option<Check>, counts: (int, int, int))
      requires Limit() >= 3 && pendingDeletes == {} && "" !in deleted
      modifies `pendingDeletes, `receipts, `outbox, `facts
      ensures failure == None
      ensures receipts == Without(old(receipts), OwnedRefs(old(receipts), deleted))
      ensures outbox == Without(old(outbox), OwnedRefs(old(outbox), deleted))
      ensures facts == old(facts) - deleted
      ensures counts.0 == |old(facts)| - |facts|
      ensures counts.1 == |old(receipts)| - |receipts|
      ensures counts.2 == |old(outbox)| - |outbox|
    {
      hide Without, OwnedRefs, SetOf, SortedIds, Limit;
      SortedIdsMembers(deleted);
      failure := StageDeletes(SortedIds(deleted));
      counts := (0, 0, 0);
      if failure.Some? { return; }
      var n, receiptDeleted, outboxDeleted := 0, 0, 0;
      NothingOwned(receipts);
      NothingOwned(outbox);
      if deleted != {} {
        failure, receiptDeleted := DeleteOwnedChildren(Receipts);
        if failure.Some? { return; }
        failure, outboxDeleted := DeleteOwnedChildren(OutboxEntries);
        if failure.Some? { return; }
      }
      failure, n := DeleteFacts();
      counts := (n, receiptDeleted, outboxDeleted);
    }

    /** The closing self-checks, against fresh snapshots, and the summary. */
    method VerifyAndReport(pre: Tables, keepers: seq<string>, deleted: set<string>, deletions: (int, int, int))
      returns (outcome: Outcome)
      requires Legal(pre) && Migrated(pre, Snapshot())
      requires NoneBefore(keepers)
      requires deleted == Losers(pre.facts)
      requires forall id :: id in keepers <==> IsKeeper(pre.facts, id)
      requires |keepers| == |pre.facts.Keys - Losers(pre.facts)|
      requires deletions.1 == |pre.receipts| - |receipts| && deletions.2 == |pre.outbox| - |outbox|
      ensures if Entangled(pre.outbox, Losers(pre.facts)) then outcome == Failed(OutboxCount)
              else outcome.Done? && Reports(pre, outcome.summary)
    {
      hide KeyOf, Rank, Less, Losers, KeeperMap, KeeperOf, Survivors, Entangled, FactRows, Without, OwnedRefs, IsKeeper,
        FirstFailure, StatesRemapped, RelationsRemapped, RemapEvents, Legal, DupeKeys;
      var post := Snapshot();
      var counts := Counts(deletions.0, deletions.1, deletions.2, |states|, |events|, |relations|);
      SelfChecks(pre, post, counts);
      var failure := FirstFailure(pre, post, deleted, counts);
      if failure.Some? { return Failed(failure.GetOr(ParameterBudget)); }
      DeleteCounts(pre);
      NoDupeKeys(pre.facts);
      return Done(Summary(keepers, deleted, deletions.1, deletions.2, DupeKeys(facts)));
    }

    /** The body of upgrade() from the preflight on. Its outcome, and if it succeeds the tables
        and the summary, are settled by the tables it starts from and the parameter limit. */
    method Upgrade() returns (outcome: Outcome)
      requires Legal(Snapshot()) && pendingDeletes == {}
      modifies this
      ensures match FailureOf(old(Snapshot()), Limit())
              case Some(check) => outcome == Failed(check)
              case None => outcome.Done? && Migrated(old(Snapshot()), Snapshot()) && Reports(old(Snapshot()), outcome.summary)
      ensures match StopOf(old(Snapshot()), if variableLimit <= 900 then variableLimit else 900)
              case Some(check) => outcome == Failed(check)
              case None => outcome.Done? && PlainlyMigrated(old(Snapshot()), Snapshot()) && PlainlyReported(old(Snapshot()), outcome.summary)
    {
      hide KeyOf, Rank, Less, Losers, KeeperMap, KeeperOf, Survivors, Entangled, FactRows, Without, OwnedRefs, IsKeeper,
        FirstFailure, Backfilled, KeysVerified, WellKeyed, StatesRemapped, RelationsRemapped, RemapEvents,
        SomeRelationKept, OrphanRows, DistinctRefs, DistinctStates, DistinctEvents, DistinctRelations, DupeKeys,
        KeyedIds, Lesser, Legal, Migrated, Reports, PlainlyMigrated, PlainlyReported, StopOf;
      var pre := Snapshot();
      LegalFacts(pre);
      StopMeans(pre, Limit());
      LimitIs();
      if Limit() < 1 { return Failed(ParameterBudget); }
      if OrphanRows(receipts, facts) { return Failed(OrphanFactReceipt); }
      if OrphanRows(outbox, facts) { return Failed(OrphanFactOutbox); }

      var failure := UpdateDedupKeys();
      if failure.Some? { return Failed(failure.GetOr(ParameterBudget)); }
      BackfillCounts(pre.facts);
      if |facts.Keys| != |KeyedIds(facts)| { return Failed(BackfillIncomplete); }
      BackfillComplete(pre.facts);
      BackfillKeepsKeepers(pre.facts, pre.facts.Keys - {""});
      SameKeepers(pre.facts, pre.facts.Keys - {""});

      var keepers, deleted, km := ChooseKeepers();
      var preDelete := facts.Keys;
      LosersAreFacts(pre.facts);
      var deletions;
      failure, deletions := DeleteLosers(deleted);
      if failure.Some? { return Failed(failure.GetOr(ParameterBudget)); }
      SurvivorIdentity(pre.facts);
      if deletions.0 != |deleted| { return Failed(DeletionCount); }
      if preDelete != pre.facts.Keys { return Failed(PreDeleteIdentity); }
      if deleted != {} {
        failure := RebuildReferenceTables(pre, km);
        if failure.Some? { return Failed(failure.GetOr(ParameterBudget)); }
      }

      MigratedParts(pre, Snapshot());
      MigratedMeans(pre, Snapshot());
      outcome := VerifyAndReport(pre, keepers, deleted, deletions);
      if outcome.Done? { ReportMeans(pre, outcome.summary); }
    }

    lemma LimitIs()
      ensures Limit() == if variableLimit <= 900 then variableLimit else 900
    {
    }
  }
}
