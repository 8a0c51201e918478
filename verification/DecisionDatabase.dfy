/** The two decision migrations, and the repository lookup, over the stored tables. */
module DecisionDatabase {
  import opened Options
  import opened Text
  import opened Ordering
  import opened Dedup
  import opened Grouping
  import opened Decisions

  const CHUNK_SIZE: nat := 500

  function Without(rows: seq<Decision>, ids: seq<string>): seq<Decision>
    decreases |rows|
  {
    if rows == [] then []
    else
      var rest := Without(rows[..|rows| - 1], ids);
      if rows[|rows| - 1].id in ids then rest else rest + [rows[|rows| - 1]]
  }

  /** The rows left when those of these decisions are deleted; rows of other types stay. */
  function WithoutOwned(rows: seq<Owned>, ids: seq<string>): seq<Owned>
    decreases |rows|
  {
    if rows == [] then []
    else
      var rest := WithoutOwned(rows[..|rows| - 1], ids);
      var last := rows[|rows| - 1];
      if last.kind == "decision" && last.ref in ids then rest else rest + [last]
  }

  lemma {:induction false} WithoutInChunks(rows: seq<Decision>, a: seq<string>, b: seq<string>)
    ensures Without(Without(rows, a), b) == Without(rows, a + b)
    decreases |rows|
  {
    if rows != [] {
      var front, last := rows[..|rows| - 1], rows[|rows| - 1];
      WithoutInChunks(front, a, b);
      var once := Without(front, a);
      assert (once + [last])[..|once + [last]| - 1] == once;
    }
  }

  lemma {:induction false} WithoutOwnedInChunks(rows: seq<Owned>, a: seq<string>, b: seq<string>)
    ensures WithoutOwned(WithoutOwned(rows, a), b) == WithoutOwned(rows, a + b)
    decreases |rows|
  {
    if rows != [] {
      var front, last := rows[..|rows| - 1], rows[|rows| - 1];
      WithoutOwnedInChunks(front, a, b);
      var once := WithoutOwned(front, a);
      assert (once + [last])[..|once + [last]| - 1] == once;
    }
  }

  lemma {:induction false} WithoutNothing(rows: seq<Decision>)
    ensures Without(rows, []) == rows
    decreases |rows|
  {
    if rows != [] {
      WithoutNothing(rows[..|rows| - 1]);
    }
  }

  lemma {:induction false} WithoutOwnedNothing(rows: seq<Owned>)
    ensures WithoutOwned(rows, []) == rows
    decreases |rows|
  {
    if rows != [] {
      WithoutOwnedNothing(rows[..|rows| - 1]);
    }
  }

  /** `ids` are exactly the ids of the redundant rows of `all`. */
  ghost predicate NamesRedundant(ids: seq<string>, all: seq<Decision>, groupOf: Decision -> GroupKey) {
    && (forall d :: d in all ==> (d.id in ids <==> Redundant(d, all, groupOf)))
    && (forall id :: id in ids ==> id in Ids(all))
  }

  lemma {:induction false} WithoutRedundant(rows: seq<Decision>, all: seq<Decision>, groupOf: Decision -> GroupKey, ids: seq<string>)
    requires (forall d :: d in rows ==> d in all) && NamesRedundant(ids, all, groupOf)
    ensures Without(rows, ids) == Filtered(rows, all, groupOf)
    decreases |rows|
  {
    hide Redundant;
    if rows != [] {
      WithoutRedundant(rows[..|rows| - 1], all, groupOf, ids);
    }
  }

  /** The ids deleted in two stages are those one canonical pass would delete. */
  lemma NamedInStages(rows: seq<Decision>, a: seq<string>, b: seq<string>)
    requires NamesRedundant(a, rows, RawKey) && NamesRedundant(b, Collapsed(rows, RawKey), CanonicalKey)
    requires DistinctIds(rows)
    ensures NamesRedundant(a + b, rows, CanonicalKey)
  {
    var kept := Collapsed(rows, RawKey);
    CollapsedAre(rows, RawKey);
    hide Redundant, Collapsed;
    forall d | d in rows ensures d.id in a + b <==> Redundant(d, rows, CanonicalKey) {
      RedundantInStages(rows, d);
      if d.id in b {
        var e :| e in kept && e.id == d.id;
        SameIdSameRow(rows, d, e);
      }
      if !Redundant(d, rows, RawKey) { assert d in kept; }
    }
  }

  lemma {:induction false} WithoutOwnedAre(rows: seq<Owned>, ids: seq<string>)
    ensures forall q :: q in WithoutOwned(rows, ids) <==> q in rows && !(q.kind == "decision" && q.ref in ids)
    decreases |rows|
  {
    if rows != [] {
      WithoutOwnedAre(rows[..|rows| - 1], ids);
      assert rows == rows[..|rows| - 1] + [rows[|rows| - 1]];
    }
  }

  /** Exactly the rows that belong to a beaten decision go. */
  ghost predicate OwnedMigrated(decisions: seq<Decision>, pre: seq<Owned>, post: seq<Owned>) {
    forall q :: q in post <==> q in pre && !(q.kind == "decision" && exists d :: d in decisions && d.id == q.ref && Beaten(decisions, d))
  }

  lemma OwnedMeans(decisions: seq<Decision>, ids: seq<string>, rows: seq<Owned>)
    requires DistinctIds(decisions) && NamesRedundant(ids, Backfilled(decisions), CanonicalKey)
    ensures OwnedMigrated(decisions, rows, WithoutOwned(rows, ids))
  {
    var filled := Backfilled(decisions);
    WithoutOwnedAre(rows, ids);
    hide Redundant, Beaten, WithoutOwned;
    forall id ensures id in ids <==> exists d :: d in decisions && d.id == id && Beaten(decisions, d) {
      if id in ids {
        var f :| f in filled && f.id == id;
        var i :| 0 <= i < |decisions| && filled[i] == f;
        FilledMeans(decisions, decisions[i]);
        assert decisions[i] in decisions;
      }
      if d :| d in decisions && d.id == id && Beaten(decisions, d) {
        var i :| 0 <= i < |decisions| && decisions[i] == d;
        FilledMeans(decisions, d);
        assert filled[i] in filled;
      }
    }
  }

  // ----- choosing the rows to delete -----

  function ActiveOf(group: seq<Decision>): (r: seq<Decision>)
    ensures forall d :: d in r <==> d in group && IsActive(d.state)
  {
    if group == [] then []
    else if IsActive(group[0].state) then [group[0]] + ActiveOf(group[1..])
    else ActiveOf(group[1..])
  }

  /** The keeper: the first of the rows that no other outranks. */
  method MaxByRank(rows: seq<Decision>) returns (best: Decision)
    requires rows != []
    ensures best in rows && forall d :: d in rows ==> !Less(Rank(best), Rank(d)) && !Better(d, best)
  {
    hide Rank, Better;
    forall d, best ensures Less(Rank(best), Rank(d)) <==> Better(d, best) { RankMeans(d, best); }
    best := rows[0];
    LessTotal(Rank(best), Rank(best));
    for i := 1 to |rows|
      invariant best in rows && forall j :: 0 <= j < i ==> !Less(Rank(best), Rank(rows[j]))
    {
      if Less(Rank(best), Rank(rows[i])) {
        forall j | 0 <= j < i ensures !Less(Rank(rows[i]), Rank(rows[j])) {
          if Less(Rank(rows[i]), Rank(rows[j])) {
            LessTransitive(Rank(best), Rank(rows[i]), Rank(rows[j]));
          }
        }
        best := rows[i];
        LessTotal(Rank(best), Rank(best));
      }
    }
  }

  /** Of a group's active rows, everything but the keeper. */
  method RedundantIds(rows: seq<Decision>, groupOf: Decision -> GroupKey, k: GroupKey, group: seq<Decision>)
    returns (ids: seq<string>)
    requires DistinctIds(rows) && group == Members(rows, groupOf, k)
    ensures forall d :: d in rows ==> (d.id in ids <==> groupOf(d) == k && Redundant(d, rows, groupOf))
    ensures forall id :: id in ids ==> id in Ids(rows)
  {
    MembersAre(rows, groupOf, k);
    var active := ActiveOf(group);
    ids := [];
    if |active| <= 1 {
      forall d | d in rows && groupOf(d) == k ensures !Redundant(d, rows, groupOf) {
        if Redundant(d, rows, groupOf) {
          var o :| o in rows && Outranks(o, d, groupOf);
          assert o in active && d in active;
          LessTotal(Rank(d), Rank(o));
        }
      }
      return;
    }
    var keeper := MaxByRank(active);
    for i := 0 to |active|
      invariant forall id :: id in ids <==> id != keeper.id && exists j :: 0 <= j < i && active[j].id == id
      invariant forall id :: id in ids ==> id in Ids(rows)
    {
      if active[i].id != keeper.id {
        ids := ids + [active[i].id];
      }
    }
    forall d | d in rows ensures d.id in ids <==> groupOf(d) == k && Redundant(d, rows, groupOf) {
      OtherThanKeeper(rows, groupOf, k, active, keeper, d);
    }
  }

  /** The active rows of a group other than its best are the redundant ones. */
  lemma OtherThanKeeper(rows: seq<Decision>, groupOf: Decision -> GroupKey, k: GroupKey, active: seq<Decision>,
                        keeper: Decision, d: Decision)
    requires DistinctIds(rows) && d in rows
    requires forall r :: r in active <==> r in rows && groupOf(r) == k && IsActive(r.state)
    requires keeper in active && forall r :: r in active ==> !Less(Rank(keeper), Rank(r))
    ensures (d.id != keeper.id && exists j :: 0 <= j < |active| && active[j].id == d.id) <==>
      groupOf(d) == k && Redundant(d, rows, groupOf)
  {
    if groupOf(d) == k && Redundant(d, rows, groupOf) {
      assert d in active;
      var o :| o in rows && Outranks(o, d, groupOf);
      assert o in active;
      assert d != keeper;
      if d.id == keeper.id { SameIdSameRow(rows, d, keeper); }
    }
    if d.id != keeper.id && exists j :: 0 <= j < |active| && active[j].id == d.id {
      var j :| 0 <= j < |active| && active[j].id == d.id;
      SameIdSameRow(rows, active[j], d);
      LessTotal(Rank(d), Rank(keeper));
      assert Rank(d)[2] == Str(d.id) && Rank(keeper)[2] == Str(keeper.id);
      assert Outranks(keeper, d, groupOf);
    }
  }

  /** The grouping loop of both migrations. */
  method ChooseDeletions(rows: seq<Decision>, groupOf: Decision -> GroupKey) returns (ids: seq<string>)
    requires DistinctIds(rows)
    ensures NamesRedundant(ids, rows, groupOf)
  {
    var order, groups := GroupBy(rows, groupOf);
    ids := [];
    hide Redundant;
    for i := 0 to |order|
      invariant forall d :: d in rows ==> (d.id in ids <==> groupOf(d) in order[..i] && Redundant(d, rows, groupOf))
      invariant forall id :: id in ids ==> id in Ids(rows)
    {
      var more := RedundantIds(rows, groupOf, order[i], groups[order[i]]);
      assert order[..i + 1] == order[..i] + [order[i]];
      ids := ids + more;
    }
    forall d | d in rows ensures groupOf(d) in order {
      MembersAre(rows, groupOf, groupOf(d));
      assert d in Members(rows, groupOf, groupOf(d));
    }
    assert order[..|order|] == order;
  }

  // ----- the stored tables -----

  datatype Outcome = Done | IndexRejected | CollisionLeft

  class Database {
    var decisions: seq<Decision>
    var receipts: seq<Owned>
    var outbox: seq<Owned>

    constructor (decisions: seq<Decision>, receipts: seq<Owned>, outbox: seq<Owned>)
      ensures this.decisions == decisions && this.receipts == receipts && this.outbox == outbox
    {
      this.decisions, this.receipts, this.outbox := decisions, receipts, outbox;
    }

    /** `_delete_in_chunks` for the three tables. */
    method DeleteInChunks(ids: seq<string>)
      modifies this
      ensures decisions == Without(old(decisions), ids)
      ensures receipts == WithoutOwned(old(receipts), ids)
      ensures outbox == WithoutOwned(old(outbox), ids)
    {
      var i := 0;
      WithoutNothing(decisions);
      WithoutOwnedNothing(receipts);
      WithoutOwnedNothing(outbox);
      while i < |ids|
        invariant 0 <= i <= |ids|
        invariant decisions == Without(old(decisions), ids[..i])
        invariant receipts == WithoutOwned(old(receipts), ids[..i])
        invariant outbox == WithoutOwned(old(outbox), ids[..i])
        decreases |ids| - i
      {
        var next := if i + CHUNK_SIZE <= |ids| then i + CHUNK_SIZE else |ids|;
        var chunk := ids[i..next];
        WithoutInChunks(old(decisions), ids[..i], chunk);
        WithoutOwnedInChunks(old(receipts), ids[..i], chunk);
        WithoutOwnedInChunks(old(outbox), ids[..i], chunk);
        assert ids[..i] + chunk == ids[..next];
        receipts := WithoutOwned(receipts, chunk);
        outbox := WithoutOwned(outbox, chunk);
        decisions := Without(decisions, chunk);
        i := next;
      }
      assert ids[..|ids|] == ids;
    }

    /** One update by id for every row read. */
    method BackfillKeys()
      requires DistinctIds(decisions)
      modifies this`decisions
      ensures decisions == Backfilled(old(decisions)) && DistinctIds(decisions)
    {
      var rows := decisions;
      for i := 0 to |rows|
        invariant |decisions| == |rows|
        invariant forall j :: 0 <= j < i ==> decisions[j] == rows[j].(dedupKey := NormalizeChoice(rows[j].choice))
        invariant forall j :: i <= j < |rows| ==> decisions[j] == rows[j]
      {
        var k, id := NormalizeChoice(rows[i].choice), rows[i].id;
        ghost var before := decisions;
        decisions := seq(|decisions|, j requires 0 <= j < |decisions| reads this =>
          if decisions[j].id == id then decisions[j].(dedupKey := k) else decisions[j]);
        forall j | 0 <= j < |rows| && j != i ensures decisions[j] == before[j] {
          assert rows[j].id != rows[i].id;
        }
      }
    }

    /** 6a7b8c9d0e1f: key every row, collapse raw-context groups, build the index. */
    method AddUniqueConstraint() returns (outcome: Outcome)
      requires DistinctIds(decisions)
      modifies this
      ensures outcome.Done?
      ensures decisions == Collapsed(Backfilled(old(decisions)), RawKey)
      ensures DistinctIds(decisions) && IndexHolds(decisions)
      ensures exists ids: seq<string> :: NamesRedundant(ids, Backfilled(old(decisions)), RawKey) && receipts == WithoutOwned(old(receipts), ids) && outbox == WithoutOwned(old(outbox), ids)
    {
      hide Redundant, Rank;
      BackfillKeys();
      var rows := decisions;
      var ids := ChooseDeletions(rows, RawKey);
      if ids != [] {
        DeleteInChunks(ids);
      } else {
        WithoutNothing(rows);
        WithoutOwnedNothing(receipts);
        WithoutOwnedNothing(outbox);
      }
      WithoutRedundant(rows, rows, RawKey, ids);
      CollapsedAre(rows, RawKey);
      RawCollapseKeepsIndex(rows);
      outcome := if IndexHolds(decisions) then Done else IndexRejected;
    }

    /** One update by id, which the unique index may reject. */
    method SetContext(c: string, id: string) returns (ok: bool)
      modifies this`decisions
      ensures ok <==> IndexHolds(WithContext(old(decisions), c, id))
      ensures decisions == if ok then WithContext(old(decisions), c, id) else old(decisions)
    {
      var next := WithContext(decisions, c, id);
      ok := IndexHolds(next);
      if ok {
        decisions := next;
      }
    }

    /** The update list is made from the rows read before the deletions, so it also names
        ids that are gone. */
    method RewriteContexts(rows: seq<Decision>) returns (ok: bool)
      requires DistinctIds(rows) && decisions == Collapsed(rows, CanonicalKey)
      modifies this`decisions
      ensures ok && decisions == WithCanonical(old(decisions), Ids(old(decisions)))
    {
      hide Collapsed, IndexHolds;
      ghost var kept := decisions;
      CollapsedAre(rows, CanonicalKey);
      hide Redundant;
      ghost var done: set<string> := {};
      assert WithCanonical(kept, {}) == kept;
      for i := 0 to |rows|
        invariant decisions == WithCanonical(kept, done)
        invariant forall j :: 0 <= j < i ==> rows[j].id in done
      {
        var c := CanonicalContext(rows[i].context);
        CanonicalStep(rows, kept, done, i);
        AnyUpdatesKeepIndex(rows, done + {rows[i].id});
        if Some(c) != rows[i].context {
          ok := SetContext(c, rows[i].id);
          if !ok {
            return;
          }
        }
        done := done + {rows[i].id};
      }
      SameCanonical(kept, done, rows);
      ok := true;
    }

    /** 7a1b2c3d4e5f: collapse canonical groups, rewrite the contexts row by row, look for
        collisions. Neither the index nor the final query ever objects. */
    method CanonicalizeContexts() returns (outcome: Outcome)
      requires DistinctIds(decisions)
      modifies this
      ensures outcome.Done?
      ensures var kept := Collapsed(old(decisions), CanonicalKey);
        decisions == WithCanonical(kept, Ids(kept))
      ensures exists ids: seq<string> :: NamesRedundant(ids, old(decisions), CanonicalKey) && receipts == WithoutOwned(old(receipts), ids) && outbox == WithoutOwned(old(outbox), ids)
    {
      hide Redundant, Rank, Filtered, IndexHolds, Collapsed;
      var rows := decisions;
      var ids := ChooseDeletions(rows, CanonicalKey);
      if ids != [] {
        DeleteInChunks(ids);
      } else {
        WithoutNothing(rows);
        WithoutOwnedNothing(receipts);
        WithoutOwnedNothing(outbox);
      }
      ghost var kept := Collapsed(rows, CanonicalKey);
      CollapsedIsWithout(rows, CanonicalKey, ids);
      var ok := RewriteContexts(rows);
      if !ok {
        return IndexRejected;
      }
      AnyUpdatesKeepIndex(rows, Ids(kept));
      outcome := if IndexHolds(decisions) then Done else CollisionLeft;
    }

    /** Both migrations in order: the table a single pass over (canonical context,
        dedup_key) makes, and no step of either fails. */
    method Migrate() returns (outcome: Outcome)
      requires DistinctIds(decisions)
      modifies this
      ensures outcome.Done?
      ensures decisions == Migrated(old(decisions))
      ensures forall d :: d in decisions ==> StoredCanonically(d)
      ensures DistinctIds(decisions) && IndexHolds(decisions) && PlainlyMigrated(old(decisions), decisions)
      ensures OwnedMigrated(old(decisions), old(receipts), receipts) && OwnedMigrated(old(decisions), old(outbox), outbox)
    {
      hide PlainlyMigrated, OwnedMigrated;
      ghost var rows := Backfilled(decisions);
      MigratedRowsAreCanonical(decisions);
      TwoStagesAreOnePass(rows);
      outcome := AddUniqueConstraint();
      if outcome.Done? {
        ghost var a: seq<string> :| NamesRedundant(a, rows, RawKey) && receipts == WithoutOwned(old(receipts), a) && outbox == WithoutOwned(old(outbox), a);
        label first:
        outcome := CanonicalizeContexts();
        ghost var b: seq<string> :| NamesRedundant(b, Collapsed(rows, RawKey), CanonicalKey) && receipts == WithoutOwned(old@first(receipts), b) && outbox == WithoutOwned(old@first(outbox), b);
        NamedInStages(rows, a, b);
        WithoutOwnedInChunks(old(receipts), a, b);
        WithoutOwnedInChunks(old(outbox), a, b);
        OwnedMeans(old(decisions), a + b, old(receipts));
        OwnedMeans(old(decisions), a + b, old(outbox));
      }
    }

    /** DecisionRepository.find_existing */
    method FindExisting(context: Option<string>, choice: Option<string>) returns (found: Option<Decision>)
      ensures IsAnswer(found, decisions, DecisionDedupKey(context, choice))
      ensures found.None? <==> forall d :: d in decisions ==> !StoredAs(d, context, choice)
      ensures found.Some? ==> found.value in decisions && StoredAs(found.value, context, choice)
      ensures forall d :: found.Some? && d in decisions && StoredAs(d, context, choice) ==> !Better(d, found.value)
    {
      ShortPhraseIs(choice);
      hide ShortPhrase, NormalizeChoice, Better, Rank;
      forall d, o ensures Less(Rank(o), Rank(d)) <==> Better(d, o) { RankMeans(d, o); }
      var rows := MatchesIn(decisions, DecisionDedupKey(context, choice));
      if rows == [] {
        return None;
      }
      SortedHeadIsBest(rows, Rank, true);
      found := Some(SortBy(rows, Rank, true)[0]);
    }
  }

  function WithContext(rows: seq<Decision>, c: string, id: string): (r: seq<Decision>)
    ensures |r| == |rows|
    ensures forall i :: 0 <= i < |rows| ==> r[i] == if rows[i].id == id then rows[i].(context := Some(c)) else rows[i]
  {
    seq(|rows|, i requires 0 <= i < |rows| => if rows[i].id == id then rows[i].(context := Some(c)) else rows[i])
  }

  lemma CollapsedIsWithout(rows: seq<Decision>, groupOf: Decision -> GroupKey, ids: seq<string>)
    requires NamesRedundant(ids, rows, groupOf)
    ensures Without(rows, ids) == Collapsed(rows, groupOf)
  {
    WithoutRedundant(rows, rows, groupOf, ids);
  }

  /** Updating one row by id is canonicalizing one more id, also when that row is gone
      or was already canonical. */
  lemma CanonicalStep(rows: seq<Decision>, kept: seq<Decision>, done: set<string>, i: nat)
    requires i < |rows| && DistinctIds(rows) && forall d :: d in kept ==> d in rows
    ensures WithCanonical(kept, done + {rows[i].id}) ==
      WithContext(WithCanonical(kept, done), CanonicalContext(rows[i].context), rows[i].id)
    ensures Some(CanonicalContext(rows[i].context)) == rows[i].context ==>
      WithCanonical(kept, done + {rows[i].id}) == WithCanonical(kept, done)
  {
    forall j | 0 <= j < |kept| && kept[j].id == rows[i].id ensures kept[j] == rows[i] {
      assert kept[j] in kept;
      SameIdSameRow(rows, kept[j], rows[i]);
    }
  }

  lemma SameCanonical(kept: seq<Decision>, done: set<string>, rows: seq<Decision>)
    requires forall d :: d in kept ==> d in rows
    requires forall j :: 0 <= j < |rows| ==> rows[j].id in done
    ensures WithCanonical(kept, done) == WithCanonical(kept, Ids(kept))
  {
    forall j | 0 <= j < |kept| ensures kept[j].id in done && kept[j].id in Ids(kept) {
      assert kept[j] in kept;
    }
  }

  // ----- the row a writer finds -----

  predicate Matches(d: Decision, key: (string, string)) {
    d.context == Some(key.0) && d.dedupKey == key.1 && IsActive(d.state)
  }

  /** An active row whose columns hold the stripped context and the short phrase. */
  predicate StoredAs(d: Decision, context: Option<string>, choice: Option<string>) {
    Serves(d) && d.context == Some(Strip(context.GetOr(""))) && d.dedupKey == ShortPhrase(choice)
  }

  function MatchesIn(rows: seq<Decision>, key: (string, string)): (r: seq<Decision>)
    ensures forall d :: d in r <==> d in rows && Matches(d, key)
  {
    if rows == [] then []
    else if Matches(rows[0], key) then [rows[0]] + MatchesIn(rows[1..], key)
    else MatchesIn(rows[1..], key)
  }

  ghost predicate IsBestMatch(d: Decision, rows: seq<Decision>, key: (string, string)) {
    && d in rows && Matches(d, key)
    && forall r :: r in rows && Matches(r, key) ==> !Less(Rank(d), Rank(r))
  }

  /** What find_existing answers for a key. */
  ghost predicate IsAnswer(found: Option<Decision>, stored: seq<Decision>, key: (string, string)) {
    && (found.None? <==> forall d :: d in stored ==> !Matches(d, key))
    && (found.Some? ==> IsBestMatch(found.value, stored, key))
  }
}
