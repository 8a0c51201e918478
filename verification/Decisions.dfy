/** Decision rows, their dedup keys and the two migrations that make the keys unique
    among active rows: first on the raw context, then on the canonical one. */
module Decisions {
  import opened Options
  import opened Text
  import opened Ordering
  import opened Dedup
  import opened Grouping

  datatype Decision = Decision(id: string, context: Option<string>, choice: Option<string>, dedupKey: string,
                               confidence: real, createdAt: int, state: string)

  /** A receipt (its id is the decision's id) or an outbox entry (`ref` is its record_id). */
  datatype Owned = Owned(kind: string, ref: string)

  type GroupKey = (Option<string>, string)

  function RawKey(d: Decision): GroupKey {
    (d.context, d.dedupKey)
  }

  function CanonicalKey(d: Decision): GroupKey {
    (Some(CanonicalContext(d.context)), d.dedupKey)
  }

  /** Higher confidence, then newer, then higher id. */
  function Rank(d: Decision): Key {
    [Num(d.confidence), Num(d.createdAt as real), Str(d.id)]
  }

  // ----- the same in plain fields -----

  predicate Serves(d: Decision) {
    d.state == "candidate" || d.state == "validated" || d.state == "active"
  }

  /** The more confident decision, then the newer, then the one of greater id. */
  predicate Better(a: Decision, b: Decision) {
    if a.confidence != b.confidence then a.confidence > b.confidence
    else if a.createdAt != b.createdAt then a.createdAt > b.createdAt
    else Before(b.id, a.id)
  }

  lemma RankMeans(a: Decision, b: Decision)
    ensures Less(Rank(b), Rank(a)) <==> Better(a, b)
  {
    LessNumNumStr(b.confidence, b.createdAt as real, b.id, a.confidence, a.createdAt as real, a.id);
    hide Less;
  }

  /** The stripped context, and the words of the choice cut at 200 characters. */
  function CleanContext(d: Decision): string {
    Strip(d.context.GetOr(""))
  }

  function ShortPhrase(choice: Option<string>): string {
    var phrase := Join(" ", Split(choice.GetOr("")));
    if |phrase| <= 200 then phrase else phrase[..200]
  }

  predicate SameDecision(a: Decision, b: Decision) {
    CleanContext(a) == CleanContext(b) && ShortPhrase(a.choice) == ShortPhrase(b.choice)
  }

  /** An active row of the same decision is better. */
  ghost predicate Beaten(rows: seq<Decision>, d: Decision) {
    Serves(d) && exists o :: o in rows && Serves(o) && SameDecision(o, d) && Better(o, d)
  }

  lemma ShortPhraseIs(choice: Option<string>)
    ensures NormalizeChoice(choice) == ShortPhrase(choice)
  {
    ChoiceKeyCut(choice);
  }

  predicate DistinctIds(rows: seq<Decision>) {
    forall i, j :: 0 <= i < j < |rows| ==> rows[i].id != rows[j].id
  }

  lemma SameIdSameRow(rows: seq<Decision>, a: Decision, b: Decision)
    requires DistinctIds(rows) && a in rows && b in rows && a.id == b.id
    ensures a == b
  {
  }

  // ----- which rows a migration removes -----

  /** `o` is an active row of `d`'s group and ranks above it. */
  predicate Outranks(o: Decision, d: Decision, groupOf: Decision -> GroupKey) {
    IsActive(o.state) && groupOf(o) == groupOf(d) && Less(Rank(d), Rank(o))
  }

  /** An active row with a better active row in its group; inactive rows never qualify. */
  ghost predicate Redundant(d: Decision, rows: seq<Decision>, groupOf: Decision -> GroupKey) {
    IsActive(d.state) && exists o :: o in rows && Outranks(o, d, groupOf)
  }

  ghost function Filtered(rows: seq<Decision>, all: seq<Decision>, groupOf: Decision -> GroupKey): seq<Decision>
    decreases |rows|
  {
    if rows == [] then []
    else
      var rest := Filtered(rows[..|rows| - 1], all, groupOf);
      if Redundant(rows[|rows| - 1], all, groupOf) then rest else rest + [rows[|rows| - 1]]
  }

  /** What one pass over groups of `groupOf` leaves. */
  ghost function Collapsed(rows: seq<Decision>, groupOf: Decision -> GroupKey): seq<Decision> {
    Filtered(rows, rows, groupOf)
  }

  lemma {:induction false} FilteredAre(rows: seq<Decision>, all: seq<Decision>, groupOf: Decision -> GroupKey)
    ensures forall d :: d in Filtered(rows, all, groupOf) <==> d in rows && !Redundant(d, all, groupOf)
    ensures DistinctIds(rows) ==> DistinctIds(Filtered(rows, all, groupOf))
    decreases |rows|
  {
    hide Redundant;
    if rows != [] {
      var front, last := rows[..|rows| - 1], rows[|rows| - 1];
      FilteredAre(front, all, groupOf);
      assert rows == front + [last];
      var rest := Filtered(front, all, groupOf);
      if DistinctIds(rows) {
        assert DistinctIds(front);
        forall d | d in rest ensures d.id != last.id {
          assert d in front;
        }
      }
      assert Filtered(rows, all, groupOf) == if Redundant(last, all, groupOf) then rest else rest + [last];
    }
  }

  lemma CollapsedAre(rows: seq<Decision>, groupOf: Decision -> GroupKey)
    ensures forall d :: d in Collapsed(rows, groupOf) <==> d in rows && !Redundant(d, rows, groupOf)
    ensures DistinctIds(rows) ==> DistinctIds(Collapsed(rows, groupOf))
  {
    FilteredAre(rows, rows, groupOf);
  }

  /** Some row of `rows`, or `d`, is at least as good as `d` and outranked by none. */
  lemma {:induction false} BestAbove(rows: seq<Decision>, d: Decision, groupOf: Decision -> GroupKey) returns (o: Decision)
    requires IsActive(d.state)
    ensures o == d || (o in rows && Outranks(o, d, groupOf))
    ensures forall r :: r in rows ==> !Outranks(r, o, groupOf)
    decreases |rows|
  {
    if rows == [] {
      o := d;
    } else {
      var last := rows[|rows| - 1];
      assert rows == rows[..|rows| - 1] + [last];
      o := BestAbove(rows[..|rows| - 1], d, groupOf);
      LessTotal(Rank(last), Rank(last));
      if Outranks(last, o, groupOf) {
        if o != d { LessTransitive(Rank(d), Rank(o), Rank(last)); }
        forall r | r in rows ensures !Outranks(r, last, groupOf) {
          if Outranks(r, last, groupOf) {
            LessTransitive(Rank(o), Rank(last), Rank(r));
          }
        }
        o := last;
      }
    }
  }

  /** A pass removes inactive rows never, and of each group's active rows all but one,
      the greatest by (confidence, created_at, id). */
  lemma CollapsedKeepsTheBest(rows: seq<Decision>, groupOf: Decision -> GroupKey, d: Decision)
    requires DistinctIds(rows) && d in rows
    ensures !IsActive(d.state) ==> d in Collapsed(rows, groupOf)
    ensures IsActive(d.state) ==>
      (exists o :: o in Collapsed(rows, groupOf) && IsActive(o.state) && groupOf(o) == groupOf(d))
    ensures forall o :: o in Collapsed(rows, groupOf) && IsActive(o.state) && IsActive(d.state) && groupOf(o) == groupOf(d) ==>
      o == d || Better(o, d)
  {
    CollapsedAre(rows, groupOf);
    if IsActive(d.state) {
      var best := BestAbove(rows, d, groupOf);
      assert best in Collapsed(rows, groupOf);
      forall o | o in Collapsed(rows, groupOf) && IsActive(o.state) && groupOf(o) == groupOf(d) && o != d
        ensures Better(o, d)
      {
        RankMeans(o, d);
        LessTotal(Rank(d), Rank(o));
        assert !Outranks(d, o, groupOf);
        if Rank(d) == Rank(o) {
          assert Rank(d)[2] == Rank(o)[2];
          SameIdSameRow(rows, d, o);
        }
      }
    }
  }

  lemma BetterOneWay(a: Decision, b: Decision)
    ensures !(Better(a, b) && Better(b, a))
  {
    BeforeTotal(a.id, b.id);
  }

  // ----- two stages are one -----

  /** A row goes in one canonical pass exactly when it goes in the raw pass or, if it
      survives that, in the canonical pass over what the raw pass left. */
  lemma RedundantInStages(rows: seq<Decision>, d: Decision)
    requires d in rows
    ensures Redundant(d, rows, CanonicalKey) <==>
      Redundant(d, rows, RawKey) || Redundant(d, Collapsed(rows, RawKey), CanonicalKey)
  {
    CollapsedAre(rows, RawKey);
    if Redundant(d, rows, RawKey) {
      var o :| o in rows && Outranks(o, d, RawKey);
      assert Outranks(o, d, CanonicalKey);
    } else if Redundant(d, rows, CanonicalKey) {
      var o :| o in rows && Outranks(o, d, CanonicalKey);
      var best := BestAbove(rows, o, RawKey);
      if best != o { LessTransitive(Rank(d), Rank(o), Rank(best)); }
      assert best in Collapsed(rows, RawKey) && Outranks(best, d, CanonicalKey);
    }
  }

  lemma {:induction false} FilterTwice(rows: seq<Decision>, all: seq<Decision>)
    requires forall d :: d in rows ==> d in all
    ensures Filtered(Filtered(rows, all, RawKey), Collapsed(all, RawKey), CanonicalKey) == Filtered(rows, all, CanonicalKey)
    decreases |rows|
  {
    hide Redundant, Collapsed;
    if rows != [] {
      var front, last := rows[..|rows| - 1], rows[|rows| - 1];
      FilterTwice(front, all);
      RedundantInStages(all, last);
      var once := Filtered(front, all, RawKey);
      assert (once + [last])[..|once + [last]| - 1] == once;
    }
  }

  /** Migrating on the raw context and then on the canonical one leaves, row for row and
      in order, what a single pass over (canonical context, dedup_key) leaves. */
  lemma TwoStagesAreOnePass(rows: seq<Decision>)
    ensures Collapsed(Collapsed(rows, RawKey), CanonicalKey) == Collapsed(rows, CanonicalKey)
  {
    FilterTwice(rows, rows);
  }

  // ----- the partial unique index -----

  /** Two rows uq_decisions_context_dedup_active does not admit; NULL equals nothing. */
  predicate Clash(a: Decision, b: Decision) {
    && IsActive(a.state) && IsActive(b.state)
    && a.context.Some? && a.context == b.context && a.dedupKey == b.dedupKey
  }

  predicate IndexHolds(rows: seq<Decision>) {
    forall i, j :: 0 <= i < j < |rows| ==> !Clash(rows[i], rows[j])
  }

  /** The rows once those with an id in the set have their canonical context. */
  function WithCanonical(rows: seq<Decision>, ids: set<string>): (r: seq<Decision>)
    ensures |r| == |rows|
    ensures forall i :: 0 <= i < |rows| ==>
      r[i] == if rows[i].id in ids then rows[i].(context := Some(CanonicalContext(rows[i].context))) else rows[i]
  {
    seq(|rows|, i requires 0 <= i < |rows| =>
      if rows[i].id in ids then rows[i].(context := Some(CanonicalContext(rows[i].context))) else rows[i])
  }

  /** Rows that clash once some contexts are canonical had one canonical key all along. */
  lemma ClashSharesCanonicalKey(a: Decision, b: Decision, a': Decision, b': Decision)
    requires a' == a || a' == a.(context := Some(CanonicalContext(a.context)))
    requires b' == b || b' == b.(context := Some(CanonicalContext(b.context)))
    requires Clash(a', b')
    ensures CanonicalKey(a) == CanonicalKey(b)
  {
    CanonicalContextIdempotent(a.context);
    CanonicalContextIdempotent(b.context);
  }

  /** After the collapse the contexts may be rewritten one at a time, in any order and
      as far as one likes: the index admits every state on the way. */
  lemma AnyUpdatesKeepIndex(rows: seq<Decision>, ids: set<string>)
    requires DistinctIds(rows)
    ensures IndexHolds(WithCanonical(Collapsed(rows, CanonicalKey), ids))
  {
    var kept := Collapsed(rows, CanonicalKey);
    var now := WithCanonical(kept, ids);
    CollapsedAre(rows, CanonicalKey);
    hide Filtered, Redundant, Less, IsActive, Collapsed, Better;
    forall i, j | 0 <= i < j < |now| ensures !Clash(now[i], now[j]) {
      if Clash(now[i], now[j]) {
        ClashSharesCanonicalKey(kept[i], kept[j], now[i], now[j]);
        CollapsedKeepsTheBest(rows, CanonicalKey, kept[i]);
        CollapsedKeepsTheBest(rows, CanonicalKey, kept[j]);
        BetterOneWay(kept[i], kept[j]);
      }
    }
  }

  lemma RawCollapseKeepsIndex(rows: seq<Decision>)
    requires DistinctIds(rows)
    ensures IndexHolds(Collapsed(rows, RawKey))
  {
    var kept := Collapsed(rows, RawKey);
    CollapsedAre(rows, RawKey);
    hide Filtered, Redundant, Less, IsActive, Collapsed, Better;
    forall i, j | 0 <= i < j < |kept| ensures !Clash(kept[i], kept[j]) {
      if Clash(kept[i], kept[j]) {
        CollapsedKeepsTheBest(rows, RawKey, kept[i]);
        CollapsedKeepsTheBest(rows, RawKey, kept[j]);
        BetterOneWay(kept[i], kept[j]);
      }
    }
  }

  // ----- the rows in the form the ORM writes them -----

  /** The rows once each has its normalized choice for a key. */
  function Backfilled(rows: seq<Decision>): (r: seq<Decision>)
    ensures |r| == |rows|
    ensures forall i :: 0 <= i < |rows| ==> r[i] == rows[i].(dedupKey := NormalizeChoice(rows[i].choice))
  {
    seq(|rows|, i requires 0 <= i < |rows| => rows[i].(dedupKey := NormalizeChoice(rows[i].choice)))
  }

  function Ids(rows: seq<Decision>): set<string> {
    set d | d in rows :: d.id
  }

  /** What both migrations together must make of the decisions table. */
  ghost function Migrated(rows: seq<Decision>): seq<Decision> {
    var kept := Collapsed(Backfilled(rows), CanonicalKey);
    WithCanonical(kept, Ids(kept))
  }

  /** The stored key columns are the key recomputed from context and choice. */
  predicate StoredCanonically(d: Decision) {
    d.context == Some(CleanContext(d)) && d.dedupKey == ShortPhrase(d.choice)
  }

  lemma StoredKey(d: Decision)
    requires StoredCanonically(d)
    ensures d.context.Some? && (d.context.value, d.dedupKey) == DecisionDedupKey(d.context, d.choice)
  {
    ShortPhraseIs(d.choice);
  }

  /** The row a migrated row comes to. */
  function Cleaned(d: Decision): Decision {
    d.(context := Some(CleanContext(d)), dedupKey := ShortPhrase(d.choice))
  }

  /** Exactly the unbeaten rows stay, their key columns computed afresh; no two active ones
      have the same key columns. */
  ghost predicate PlainlyMigrated(pre: seq<Decision>, post: seq<Decision>) {
    && (forall r :: r in pre && !Beaten(pre, r) ==> Cleaned(r) in post)
    && (forall d :: d in post ==> exists r :: r in pre && !Beaten(pre, r) && d == Cleaned(r))
    && (forall i, j :: 0 <= i < j < |post| && Serves(post[i]) && Serves(post[j]) ==>
          (post[i].context, post[i].dedupKey) != (post[j].context, post[j].dedupKey))
  }

  lemma FilledMeans(rows: seq<Decision>, d: Decision)
    ensures Redundant(d.(dedupKey := NormalizeChoice(d.choice)), Backfilled(rows), CanonicalKey) <==> Beaten(rows, d)
  {
    var filled, f := Backfilled(rows), d.(dedupKey := NormalizeChoice(d.choice));
    hide Less, Rank, NormalizeChoice, ShortPhrase;
    forall o: Decision ensures Outranks(o.(dedupKey := NormalizeChoice(o.choice)), f, CanonicalKey) <==> Serves(o) && SameDecision(o, d) && Better(o, d) {
      RankMeans(o.(dedupKey := NormalizeChoice(o.choice)), f);
      ShortPhraseIs(o.choice);
      ShortPhraseIs(d.choice);
    }
    if Redundant(f, filled, CanonicalKey) {
      var o :| o in filled && Outranks(o, f, CanonicalKey);
      var i :| 0 <= i < |rows| && filled[i] == o;
      assert rows[i] in rows;
    }
    if Beaten(rows, d) {
      var o :| o in rows && Serves(o) && SameDecision(o, d) && Better(o, d);
      var i :| 0 <= i < |rows| && rows[i] == o;
      assert filled[i] in filled;
    }
  }

  lemma CleanedIs(d: Decision)
    ensures var f := d.(dedupKey := NormalizeChoice(d.choice)); f.(context := Some(CanonicalContext(f.context))) == Cleaned(d)
    ensures StoredCanonically(Cleaned(d))
  {
    ShortPhraseIs(d.choice);
    StripIdempotent(d.context.GetOr(""));
  }

  lemma ComesFrom(rows: seq<Decision>, i: nat) returns (r: Decision)
    requires i < |Migrated(rows)|
    ensures r in rows && !Beaten(rows, r) && Migrated(rows)[i] == Cleaned(r)
  {
    var filled := Backfilled(rows);
    var kept := Collapsed(filled, CanonicalKey);
    CollapsedAre(filled, CanonicalKey);
    hide Redundant, Beaten, Collapsed, ShortPhrase, NormalizeChoice;
    assert kept[i] in kept;
    var j :| 0 <= j < |rows| && filled[j] == kept[i];
    r := rows[j];
    FilledMeans(rows, r);
    CleanedIs(r);
  }

  lemma Stays(rows: seq<Decision>, r: Decision)
    requires r in rows && !Beaten(rows, r)
    ensures Cleaned(r) in Migrated(rows)
  {
    var filled := Backfilled(rows);
    var kept := Collapsed(filled, CanonicalKey);
    CollapsedAre(filled, CanonicalKey);
    hide Redundant, Beaten, Collapsed, ShortPhrase, NormalizeChoice;
    FilledMeans(rows, r);
    CleanedIs(r);
    var j :| 0 <= j < |rows| && rows[j] == r;
    assert filled[j] in filled && filled[j] in kept;
    var i :| 0 <= i < |kept| && kept[i] == filled[j];
    assert kept[i].id in Ids(kept) && Migrated(rows)[i] == Cleaned(r);
  }

  lemma MigratedRowsAreCanonical(rows: seq<Decision>)
    requires DistinctIds(rows)
    ensures forall d :: d in Migrated(rows) ==> StoredCanonically(d)
    ensures DistinctIds(Migrated(rows)) && IndexHolds(Migrated(rows))
    ensures PlainlyMigrated(rows, Migrated(rows))
  {
    var filled, post := Backfilled(rows), Migrated(rows);
    CollapsedAre(filled, CanonicalKey);
    AnyUpdatesKeepIndex(filled, Ids(Collapsed(filled, CanonicalKey)));
    hide Redundant, Beaten, Collapsed, Cleaned, StoredCanonically;
    assert DistinctIds(post);
    forall i | 0 <= i < |post| ensures StoredCanonically(post[i]) && exists r :: r in rows && !Beaten(rows, r) && post[i] == Cleaned(r) {
      var r := ComesFrom(rows, i);
      CleanedIs(r);
    }
    forall r | r in rows && !Beaten(rows, r) ensures Cleaned(r) in post { Stays(rows, r); }
    forall i | 0 <= i < |post| ensures post[i].context.Some? { ContextThere(post[i]); }
    hide Migrated;
  }

  lemma ContextThere(d: Decision)
    requires StoredCanonically(d)
    ensures d.context.Some?
  {
  }
}
