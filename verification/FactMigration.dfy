/** upgrade() of migrations/versions/b2f3a4c5d6e7_add_fact_dedup_key.py, over tables held in memory. */
module FactMigration {
  import opened Options
  import opened Text
  import opened Ordering
  import opened Grouping
  import opened Dedup
  import opened FactTables
  import opened FactChecks

  const PAGE_SIZE: nat := 1000
  const REQUESTED_DML_BATCH: nat := 400
  const MAX_BOUND_PARAMS: nat := 900

  // ----- bound-parameter budget -----

  function Lesser(a: nat, b: nat): nat {
    if a <= b then a else b
  }

  function Greater(a: nat, b: nat): nat {
    if a <= b then b else a
  }

  /** _effective_batch; None is its RuntimeError. */
  function EffectiveBatch(limit: nat, paramsPerRow: nat, fixedParams: nat): Option<nat> {
    if fixedParams >= limit then None
    else
      var n := Lesser(REQUESTED_DML_BATCH, (limit - fixedParams) / Greater(paramsPerRow, 1));
      if n < 1 then None else Some(n)
  }

  lemma DivisionBounds(a: nat, b: nat, n: nat)
    requires b >= 1 && n <= a / b
    ensures n * b <= a
  {
    assert (a / b) * b <= a;
    assert n * b <= (a / b) * b by {
      if n < a / b { assert (a / b - n) * b >= 0; }
    }
  }

  /** A batch exists exactly when one row fits, and a full batch stays within the limit. */
  lemma BatchFits(limit: nat, paramsPerRow: nat, fixedParams: nat)
    ensures EffectiveBatch(limit, paramsPerRow, fixedParams).Some? <==> fixedParams + (if paramsPerRow < 1 then 1 else paramsPerRow) <= limit
    ensures var b := EffectiveBatch(limit, paramsPerRow, fixedParams);
      b.Some? ==> 1 <= b.value <= 400 && b.value * paramsPerRow + fixedParams <= limit
  {
    if fixedParams < limit {
      var room, per := limit - fixedParams, Greater(paramsPerRow, 1);
      if per <= room {
        assert room / per >= 1 by { assert room == per + (room - per); }
        var n := Lesser(REQUESTED_DML_BATCH, room / per);
        DivisionBounds(room, per, n);
        assert n * paramsPerRow <= n * per;
      } else {
        assert room / per == 0;
      }
    }
  }

  /** A batch of fewer than 400 rows could not have held one more. */
  lemma BatchIsFull(limit: nat, paramsPerRow: nat, fixedParams: nat)
    requires paramsPerRow >= 1
    ensures var b := EffectiveBatch(limit, paramsPerRow, fixedParams);
      b.Some? && b.value < 400 ==> (b.value + 1) * paramsPerRow + fixedParams > limit
  {
    if fixedParams < limit {
      DivisionAbove(limit - fixedParams, paramsPerRow);
    }
  }

  lemma DivisionAbove(a: nat, b: nat)
    requires b >= 1
    ensures (a / b + 1) * b > a
  {
    assert a == (a / b) * b + a % b;
  }

  // ----- specification of the run -----

  /** facts after the UPDATEs reached the rows in `ids`. */
  function Backfilled(facts: map<string, Fact>, ids: set<string>): map<string, Fact> {
    map id | id in facts :: if id in ids then facts[id].(dedupKey := Some(KeyOf(facts[id]))) else facts[id]
  }

  predicate OrphanRows(rows: seq<Owned>, facts: map<string, Fact>) {
    exists r :: r in rows && r.kind == "fact" && r.ref !in facts
  }

  predicate SomeRelationKept(relations: seq<Relation>, km: map<string, string>) {
    exists r :: r in relations && Remap(km, r.source) != Remap(km, r.target)
  }

  /** The widest row the rebuild has to insert. */
  function BulkInsertNeed(pre: Tables): nat {
    if Losers(pre.facts) == {} then 0
    else if pre.events != [] then 8
    else if pre.states != [] then 7
    else if SomeRelationKept(pre.relations, KeeperMap(pre.facts)) then 4
    else 0
  }

  /** The check that stops the migration of `pre` under a parameter limit, if any does. */
  function FailureOf(pre: Tables, limit: nat): Option<Check> {
    if limit < 1 then Some(ParameterBudget)
    else if OrphanRows(pre.receipts, pre.facts) then Some(OrphanFactReceipt)
    else if OrphanRows(pre.outbox, pre.facts) then Some(OrphanFactOutbox)
    else if limit < 3 then Some(ParameterBudget)
    else if "" in pre.facts then Some(BackfillIncomplete)
    else if limit < BulkInsertNeed(pre) then Some(ParameterBudget)
    else if Entangled(pre.outbox, Losers(pre.facts)) then Some(OutboxCount)
    else None
  }

  /** The JSON summary line. */
  datatype Summary = Summary(kept: seq<string>, deleted: set<string>, receiptCount: int, outboxCount: int,
                             remainingDupeKeys: set<string>)

  /** No id comes before an earlier one. */
  ghost predicate NoneBefore(ids: seq<string>) {
    forall i, j :: 0 <= i < j < |ids| ==> !Before(ids[j], ids[i])
  }

  ghost predicate Reports(pre: Tables, s: Summary) {
    && (forall id :: id in s.kept <==> IsKeeper(pre.facts, id))
    && |s.kept| == |pre.facts.Keys - Losers(pre.facts)| && NoneBefore(s.kept)
    && s.deleted == Losers(pre.facts)
    && s.receiptCount == |FactRows(pre.receipts, Losers(pre.facts))|
    && s.outboxCount == |FactRows(pre.outbox, Losers(pre.facts))|
    && s.remainingDupeKeys == {}
  }

  datatype Outcome = Failed(check: Check) | Done(summary: Summary)

  datatype Decision = Decision(keeper: string, losers: seq<string>)

  // ----- small set helpers -----

  function SetOf(xs: seq<string>): set<string> {
    set x | x in xs
  }

  function Ids(rows: seq<Fact>): set<string> {
    set r | r in rows :: r.id
  }

  function IdKey(id: string): Key {
    [Str(id)]
  }

  function IdKeys(ids: set<string>): set<Key> {
    set id | id in ids :: IdKey(id)
  }

  function Refs(rows: seq<Owned>): seq<string> {
    seq(|rows|, i requires 0 <= i < |rows| => rows[i].ref)
  }

  function Concat(chunks: seq<seq<string>>): seq<string> {
    if chunks == [] then [] else Concat(chunks[..|chunks| - 1]) + chunks[|chunks| - 1]
  }

  lemma IdKeyLess(a: string, b: string)
    ensures Less(IdKey(a), IdKey(b)) <==> Before(a, b)
  {
    BeforeTotal(a, b);
  }

  lemma {:induction false} FactRowsMembers(rows: seq<Owned>, ids: set<string>)
    ensures forall r :: r in FactRows(rows, ids) <==> r in rows && r.kind == "fact" && r.ref in ids
  {
    if rows != [] {
      FactRowsMembers(rows[1..], ids);
      assert rows == [rows[0]] + rows[1..];
    }
  }

  /** Backfilling in two batches is backfilling once. */
  lemma BackfilledTwice(facts: map<string, Fact>, a: set<string>, b: set<string>)
    ensures Backfilled(Backfilled(facts, a), b) == Backfilled(facts, a + b)
  {
    var x, y := Backfilled(Backfilled(facts, a), b), Backfilled(facts, a + b);
    assert x.Keys == y.Keys;
    forall id | id in x ensures x[id] == y[id] {
      assert KeyOf(Backfilled(facts, a)[id]) == KeyOf(facts[id]);
    }
  }

  // ----- streaming the keeper decisions -----

  /** The dedup_key column. */
  function Stored(f: Fact): string {
    if f.dedupKey.Some? then f.dedupKey.value else ""
  }

  function GroupKey(f: Fact): Key {
    [Str(Stored(f)), Str(f.id)]
  }

  ghost predicate RowsAreFacts(facts: map<string, Fact>, rows: seq<Fact>) {
    forall r :: r in rows ==> r.id in facts && facts[r.id] == r
  }

  ghost predicate FactsAreRows(facts: map<string, Fact>, rows: seq<Fact>) {
    forall id :: id in facts ==> facts[id] in rows
  }

  ghost predicate AscendingRows(rows: seq<Fact>) {
    forall i, j :: 0 <= i < j < |rows| ==> Less(GroupKey(rows[i]), GroupKey(rows[j]))
  }

  /** Every fact once, ordered by (dedup_key, id). */
  ghost predicate GroupOrdered(facts: map<string, Fact>, rows: seq<Fact>) {
    RowsAreFacts(facts, rows) && FactsAreRows(facts, rows) && AscendingRows(rows)
  }

  /** The decision about one key: its keeper, and all its other rows. */
  ghost predicate GoodDecision(facts: map<string, Fact>, d: Decision) {
    && IsKeeper(facts, d.keeper)
    && forall id :: id in d.losers <==> id in facts && id != d.keeper && KeyOf(facts[id]) == KeyOf(facts[d.keeper])
  }

  ghost predicate DistinctIds(rows: seq<Fact>) {
    forall i, j :: 0 <= i < j < |rows| ==> rows[i].id != rows[j].id
  }

  lemma {:induction false} DistinctCounts(rows: seq<Fact>)
    requires DistinctIds(rows)
    ensures forall r :: multiset(rows)[r] <= 1
  {
    if rows != [] {
      DistinctCounts(rows[1..]);
      assert rows == [rows[0]] + rows[1..];
      assert rows[0] !in rows[1..];
    }
  }

  function Decide(group: seq<Fact>): Decision
    requires group != []
  {
    SortedHeadIsBest(group, Rank, false);
    var ordered := SortBy(group, Rank, false);
    Decision(ordered[0].id, seq(|ordered| - 1, i requires 0 <= i < |ordered| - 1 => ordered[i + 1].id))
  }

  /** Sorting rows without duplicates puts every row but the first into the tail. */
  lemma TailIsTheRest(group: seq<Fact>)
    requires group != [] && DistinctIds(group)
    ensures var ordered := SortBy(group, Rank, false);
      ordered != [] && forall r :: r in ordered[1..] <==> r in group && r != ordered[0]
  {
    var ordered := SortBy(group, Rank, false);
    SortedHeadIsBest(group, Rank, false);
    SortBySorts(group, Rank, false);
    DistinctCounts(group);
    assert ordered == [ordered[0]] + ordered[1..];
    assert multiset(ordered) == multiset{ordered[0]} + multiset(ordered[1..]);
    forall r ensures r in ordered[1..] <==> r in group && r != ordered[0] {
      assert multiset(ordered)[r] <= 1;
      assert r in group <==> r in multiset(ordered);
      assert r in ordered[1..] <==> r in multiset(ordered[1..]);
    }
  }

  /** `group` is every fact whose stored key is `key`. */
  ghost predicate IsGroup(facts: map<string, Fact>, group: seq<Fact>, key: string) {
    && (forall r :: r in group ==> r.id in facts && facts[r.id] == r && Stored(r) == key)
    && (forall id :: id in facts && Stored(facts[id]) == key ==> facts[id] in group)
    && DistinctIds(group)
  }

  lemma DecideKeeps(facts: map<string, Fact>, group: seq<Fact>, key: string)
    requires WellKeyed(facts) && KeysVerified(facts) && group != [] && IsGroup(facts, group, key)
    ensures IsKeeper(facts, Decide(group).keeper)
    ensures KeyOf(facts[Decide(group).keeper]) == key
  {
    var head := SortBy(group, Rank, false)[0];
    SortedHeadIsBest(group, Rank, false);
    assert head in group;
    forall j | j in facts && j != head.id && KeyOf(facts[j]) == key ensures Less(Rank(head), Rank(facts[j])) {
      assert Stored(facts[j]) == key && facts[j] in group;
      assert !Precedes(Rank(facts[j]), Rank(head), false);
      LessTotal(Rank(head), Rank(facts[j]));
      RankIdentifies(facts, head.id, j);
    }
  }

  lemma DecideIsGood(facts: map<string, Fact>, group: seq<Fact>, key: string)
    requires WellKeyed(facts) && KeysVerified(facts) && group != [] && IsGroup(facts, group, key)
    ensures GoodDecision(facts, Decide(group))
    ensures KeyOf(facts[Decide(group).keeper]) == key
  {
    var ordered, d := SortBy(group, Rank, false), Decide(group);
    DecideKeeps(facts, group, key);
    TailIsTheRest(group);
    SortedHeadIsBest(group, Rank, false);
    forall id ensures id in d.losers <==> id in facts && id != d.keeper && KeyOf(facts[id]) == key {
      if id in d.losers {
        var i :| 0 <= i < |d.losers| && d.losers[i] == id;
        assert ordered[1..][i] == ordered[i + 1];
        assert ordered[i + 1] in ordered[1..];
      }
      if id in facts && id != d.keeper && KeyOf(facts[id]) == key {
        assert Stored(facts[id]) == key && facts[id] in ordered[1..];
        var i :| 0 <= i < |ordered[1..]| && ordered[1..][i] == facts[id];
        assert d.losers[i] == id;
      }
    }
  }

  lemma KeysAscend(facts: map<string, Fact>, rows: seq<Fact>, i: nat, j: nat)
    requires GroupOrdered(facts, rows) && i < j < |rows|
    ensures Stored(rows[i]) == Stored(rows[j]) || Before(Stored(rows[i]), Stored(rows[j]))
    ensures rows[i].id != rows[j].id
  {
    assert Less(GroupKey(rows[i]), GroupKey(rows[j]));
    assert rows[i] in rows && rows[j] in rows;
    LessTotal(GroupKey(rows[i]), GroupKey(rows[j]));
  }

  ghost predicate IsRun(rows: seq<Fact>, s: nat, e: nat) {
    && s < e <= |rows|
    && (forall j :: s <= j < e ==> Stored(rows[j]) == Stored(rows[s]))
    && (forall j :: 0 <= j < s ==> Before(Stored(rows[j]), Stored(rows[s])))
  }

  lemma NextRunStarts(facts: map<string, Fact>, rows: seq<Fact>, s: nat, e: nat)
    requires GroupOrdered(facts, rows)
    requires IsRun(rows, s, e) && e < |rows| && Stored(rows[e]) != Stored(rows[s])
    ensures IsRun(rows, e, e + 1)
  {
    KeysAscend(facts, rows, s, e);
    forall j | 0 <= j < e ensures Before(Stored(rows[j]), Stored(rows[e])) {
      if j < s { BeforeTransitive(Stored(rows[j]), Stored(rows[s]), Stored(rows[e])); }
    }
  }

  lemma RunHoldsItsKey(facts: map<string, Fact>, rows: seq<Fact>, s: nat, e: nat, j: nat)
    requires GroupOrdered(facts, rows)
    requires IsRun(rows, s, e) && (e < |rows| ==> Stored(rows[e]) != Stored(rows[s]))
    requires j < |rows| && Stored(rows[j]) == Stored(rows[s])
    ensures s <= j < e
  {
    BeforeTotal(Stored(rows[j]), Stored(rows[s]));
    if j >= e {
      NextRunStarts(facts, rows, s, e);
      if j > e { KeysAscend(facts, rows, e, j); }
      BeforeTotal(Stored(rows[s]), Stored(rows[e]));
    }
  }

  /** `rows[s..e]` is a maximal run of one key, hence the whole group of that key. */
  lemma RunIsGroup(facts: map<string, Fact>, rows: seq<Fact>, s: nat, e: nat)
    requires GroupOrdered(facts, rows)
    requires IsRun(rows, s, e) && (e < |rows| ==> Stored(rows[e]) != Stored(rows[s]))
    ensures s < e <= |rows| && IsGroup(facts, rows[s..e], Stored(rows[s]))
  {
    hide Less, GroupKey, Stored;
    var key, run := Stored(rows[s]), rows[s..e];
    forall r | r in run ensures r.id in facts && facts[r.id] == r && Stored(r) == key {
      var j :| 0 <= j < |run| && run[j] == r;
      assert r == rows[s + j] && r in rows;
    }
    forall id | id in facts && Stored(facts[id]) == key ensures facts[id] in run {
      assert facts[id] in rows;
      var j :| 0 <= j < |rows| && rows[j] == facts[id];
      RunHoldsItsKey(facts, rows, s, e, j);
      assert run[j - s] == facts[id];
    }
    forall i, j | 0 <= i < j < |run| ensures run[i].id != run[j].id {
      KeysAscend(facts, rows, s + i, s + j);
    }
  }
}
