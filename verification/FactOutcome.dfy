/** What the fact dedup migration makes of the tables, in plain fields: which facts stay, and
    where everything that refers to a fact goes. */
module FactOutcome {
  import opened Options
  import opened Text
  import opened Ordering
  import opened Dedup
  import opened FactTables
  import opened FactChecks
  import opened FactMigration

  predicate Serves(f: Fact) {
    f.state == "candidate" || f.state == "validated" || f.state == "active"
  }

  /** The same words in subject, predicate and object. */
  predicate SameTriple(a: Fact, b: Fact) {
    Split(a.subject) == Split(b.subject) && Split(a.predicat) == Split(b.predicat) && Split(a.objekt) == Split(b.objekt)
  }

  /** `a` is kept rather than `b`: serving facts first, then the more confident, then the
      older, then the smaller id. */
  predicate Preferred(a: Fact, b: Fact) {
    if Serves(a) != Serves(b) then Serves(a)
    else if a.confidence != b.confidence then a.confidence > b.confidence
    else if a.createdAt != b.createdAt then a.createdAt < b.createdAt
    else Before(a.id, b.id)
  }

  /** Some fact of the same triple is preferred. */
  predicate Beaten(facts: map<string, Fact>, id: string) {
    id in facts && exists j :: j in facts && SameTriple(facts[j], facts[id]) && Preferred(facts[j], facts[id])
  }

  lemma RankMeans(a: Fact, b: Fact)
    ensures Less(Rank(a), Rank(b)) <==> Preferred(a, b)
  {
    var x, y := Num(if IsActive(a.state) then 0.0 else 1.0), Num(if IsActive(b.state) then 0.0 else 1.0);
    var xs, ys := [Num(-a.confidence), Num(a.createdAt as real), Str(a.id)], [Num(-b.confidence), Num(b.createdAt as real), Str(b.id)];
    assert Rank(a) == [x] + xs && Rank(b) == [y] + ys;
    LessCons(x, xs, y, ys);
    LessNumNumStr(-a.confidence, a.createdAt as real, a.id, -b.confidence, b.createdAt as real, b.id);
    hide Less;
  }

  lemma KeyMeans(a: Fact, b: Fact)
    ensures KeyOf(a) == KeyOf(b) <==> SameTriple(a, b)
  {
    FactKeyEqualIff(Some(a.subject), Some(a.predicat), Some(a.objekt), Some(b.subject), Some(b.predicat), Some(b.objekt));
  }

  /** A fact is deleted exactly when a fact of its triple is preferred to it. */
  lemma LoserMeans(facts: map<string, Fact>, id: string)
    requires WellKeyed(facts)
    ensures id in Losers(facts) <==> Beaten(facts, id)
  {
    hide Rank, KeyOf, Less, Preferred, SameTriple;
    if id in facts {
      forall j | j in facts ensures KeyOf(facts[j]) == KeyOf(facts[id]) <==> SameTriple(facts[j], facts[id]) {
        KeyMeans(facts[j], facts[id]);
      }
      forall j | j in facts ensures Preferred(facts[j], facts[id]) <==> Less(Rank(facts[j]), Rank(facts[id])) {
        RankMeans(facts[j], facts[id]);
      }
      LessTotal(Rank(facts[id]), Rank(facts[id]));
      forall j | j in facts && j != id
        ensures Less(Rank(facts[id]), Rank(facts[j])) <==> !Less(Rank(facts[j]), Rank(facts[id]))
      {
        LessTotal(Rank(facts[id]), Rank(facts[j]));
        RankIdentifies(facts, id, j);
      }
    }
  }

  // ----- where references go -----

  /** A reference to `id` ends at `k`: at the unbeaten fact of its triple if `id` is beaten,
      else where it was. */
  predicate Follows(facts: map<string, Fact>, id: string, k: string) {
    if Beaten(facts, id) then k in facts && SameTriple(facts[k], facts[id]) && !Beaten(facts, k) else k == id
  }

  lemma RemapFollows(facts: map<string, Fact>, id: string)
    requires WellKeyed(facts)
    ensures Follows(facts, id, Remap(KeeperMap(facts), id))
  {
    LoserMeans(facts, id);
    if id in Losers(facts) {
      var k := KeeperOf(facts, id);
      KeeperOfKeeps(facts, id);
      LoserMeans(facts, k);
      KeyMeans(facts[k], facts[id]);
    }
  }

  // ----- the outcome -----

  /** Exactly the unbeaten facts stay, each as it was but for its key, which spells the words
      of its components. */
  ghost predicate FactsMigrated(pre: map<string, Fact>, post: map<string, Fact>) {
    && (forall id :: id in post <==> id in pre && !Beaten(pre, id))
    && forall id :: id in post ==> post[id] == pre[id].(dedupKey := Some(SpelledKey(pre[id])))
  }

  function SpelledKey(f: Fact): string {
    Join(" ", Split(f.subject)) + "\U{1F}" + Join(" ", Split(f.predicat)) + "\U{1F}" + Join(" ", Split(f.objekt))
  }

  /** Exactly the rows go whose reference is that of a row a beaten fact owns. */
  ghost predicate OwnedMigrated(facts: map<string, Fact>, pre: seq<Owned>, post: seq<Owned>) {
    forall r :: r in post <==> r in pre && !exists q :: q in pre && q.kind == "fact" && q.ref == r.ref && Beaten(facts, q.ref)
  }

  /** The greater state: later, then more confident, then of greater id. */
  predicate Greater(p: StateRow, r: StateRow) {
    if p.updatedAt != r.updatedAt then p.updatedAt > r.updatedAt
    else if p.confidence != r.confidence then p.confidence > r.confidence
    else Before(r.id, p.id)
  }

  ghost predicate IsRemapOf(facts: map<string, Fact>, p: StateRow, r: StateRow) {
    Follows(facts, r.memoryId, p.memoryId) && p == r.(memoryId := p.memoryId)
  }

  /** Every state row that stays is an old one whose reference was followed, and every old one
      stays or gives way to a greater one of the same memory, of which one only stays. */
  ghost predicate StatesMigrated(facts: map<string, Fact>, pre: seq<StateRow>, post: seq<StateRow>) {
    && (forall p :: p in post ==> exists r :: r in pre && IsRemapOf(facts, p, r))
    && (forall r :: r in pre ==> exists p :: p in post && p.memoryType == r.memoryType && Follows(facts, r.memoryId, p.memoryId) && (IsRemapOf(facts, p, r) || Greater(p, r)))
    && (forall i, j :: 0 <= i < j < |post| ==> (post[i].memoryType, post[i].memoryId) != (post[j].memoryType, post[j].memoryId))
  }

  ghost predicate EventsMigrated(facts: map<string, Fact>, pre: seq<EventRow>, post: seq<EventRow>) {
    |post| == |pre| && forall i :: 0 <= i < |pre| ==> Follows(facts, pre[i].memoryId, post[i].memoryId) && post[i] == pre[i].(memoryId := post[i].memoryId)
  }

  ghost predicate IsRelationRemapOf(facts: map<string, Fact>, p: Relation, r: Relation) {
    && Follows(facts, r.source, p.source) && Follows(facts, r.target, p.target)
    && p == r.(source := p.source, target := p.target)
  }

  ghost predicate Joined(post: seq<Relation>, s: string, t: string, r: Relation) {
    exists p :: p in post && p.source == s && p.target == t && p.kind == r.kind && p.createdAt <= r.createdAt
  }

  /** `r` has become a loop, or a relation no younger joins its ends. */
  ghost predicate Arrives(facts: map<string, Fact>, r: Relation, post: seq<Relation>) {
    exists s, t :: Follows(facts, r.source, s) && Follows(facts, r.target, t) && (s == t || Joined(post, s, t, r))
  }

  /** Of the relations that do not become loops, an oldest one of each kind and pair stays. */
  ghost predicate RelationsMigrated(facts: map<string, Fact>, pre: seq<Relation>, post: seq<Relation>) {
    && (forall p :: p in post ==> p.source != p.target && exists r :: r in pre && IsRelationRemapOf(facts, p, r))
    && (forall r :: r in pre ==> Arrives(facts, r, post))
    && (forall i, j :: 0 <= i < j < |post| ==> (post[i].source, post[i].target, post[i].kind) != (post[j].source, post[j].target, post[j].kind))
  }

  /** A reference ends at one place only. */
  lemma FollowsUnique(facts: map<string, Fact>, id: string, k: string, l: string)
    requires WellKeyed(facts) && Follows(facts, id, k) && Follows(facts, id, l)
    ensures k == l
  {
    if Beaten(facts, id) {
      LoserMeans(facts, k);
      LoserMeans(facts, l);
      KeyMeans(facts[k], facts[l]);
      KeeperUnique(facts, k, l);
    }
  }

  lemma FactsMeaning(pre: Tables, post: Tables)
    requires Legal(pre) && Migrated(pre, post)
    ensures FactsMigrated(pre.facts, post.facts)
  {
    hide Losers, Beaten, KeyOf, Legal;
    assert WellKeyed(pre.facts) by { LegalIsWellKeyed(pre); }
    forall id ensures id in post.facts <==> id in pre.facts && !Beaten(pre.facts, id) {
      LoserMeans(pre.facts, id);
    }
    forall id | id in post.facts ensures post.facts[id] == pre.facts[id].(dedupKey := Some(SpelledKey(pre.facts[id]))) {
      KeySpelled(pre.facts[id]);
    }
  }

  lemma LegalIsWellKeyed(t: Tables)
    requires Legal(t)
    ensures WellKeyed(t.facts)
  {
  }

  lemma KeySpelled(f: Fact)
    ensures KeyOf(f) == SpelledKey(f)
  {
    KeyShape(Some(f.subject), Some(f.predicat), Some(f.objekt));
  }

  lemma OwnedMeaning(facts: map<string, Fact>, pre: seq<Owned>, post: seq<Owned>)
    requires WellKeyed(facts) && post == Without(pre, OwnedRefs(pre, Losers(facts)))
    ensures OwnedMigrated(facts, pre, post)
  {
    hide Losers, Beaten;
    forall id ensures id in Losers(facts) <==> Beaten(facts, id) { LoserMeans(facts, id); }
    WithoutMembers(pre, OwnedRefs(pre, Losers(facts)));
  }

  lemma StateRankMeans(p: StateRow, r: StateRow)
    ensures Less(StateRank(r), StateRank(p)) <==> Greater(p, r)
  {
    LessNumNumStr(r.updatedAt as real, r.confidence, r.id, p.updatedAt as real, p.confidence, p.id);
    hide Less;
  }

  lemma StatesMeaning(facts: map<string, Fact>, pre: seq<StateRow>, post: seq<StateRow>)
    requires WellKeyed(facts) && StatesRemapped(pre, KeeperMap(facts), post)
    ensures StatesMigrated(facts, pre, post)
  {
    var km := KeeperMap(facts);
    hide KeeperMap, Remap, Follows, Less, StateRank, Greater, WellKeyed;
    var all := RemapStates(km, pre);
    forall id ensures Follows(facts, id, Remap(km, id)) { RemapFollows(facts, id); }
    forall p | p in post ensures exists r :: r in pre && IsRemapOf(facts, p, r) {
      var i :| 0 <= i < |all| && all[i] == p;
      assert pre[i] in pre && IsRemapOf(facts, p, pre[i]);
    }
    forall r | r in pre
      ensures exists p :: p in post && p.memoryType == r.memoryType && Follows(facts, r.memoryId, p.memoryId) && (IsRemapOf(facts, p, r) || Greater(p, r))
    {
      var i :| 0 <= i < |pre| && pre[i] == r;
      assert all[i] in all;
      if all[i] in post {
        assert IsRemapOf(facts, all[i], r);
      } else {
        var p :| p in post && Supersedes(p, all[i]);
        StateRankMeans(p, all[i]);
        SameBut(p, all[i], r);
      }
    }
  }

  lemma SameBut(p: StateRow, q: StateRow, r: StateRow)
    requires q == r.(memoryId := q.memoryId)
    ensures Greater(p, q) == Greater(p, r)
  {
  }

  lemma EventsMeaning(facts: map<string, Fact>, pre: seq<EventRow>)
    requires WellKeyed(facts)
    ensures EventsMigrated(facts, pre, RemapEvents(KeeperMap(facts), pre))
  {
    var km := KeeperMap(facts);
    hide KeeperMap, Remap, Follows, WellKeyed;
    forall id ensures Follows(facts, id, Remap(km, id)) { RemapFollows(facts, id); }
  }

  lemma RelationsMeaning(facts: map<string, Fact>, pre: seq<Relation>, post: seq<Relation>)
    requires WellKeyed(facts) && RelationsRemapped(pre, KeeperMap(facts), post)
    ensures RelationsMigrated(facts, pre, post)
  {
    var km := KeeperMap(facts);
    hide KeeperMap, Remap, Follows, WellKeyed;
    var all := RemapRelations(km, pre);
    forall id ensures Follows(facts, id, Remap(km, id)) { RemapFollows(facts, id); }
    forall p | p in post ensures exists r :: r in pre && IsRelationRemapOf(facts, p, r) {
      var i :| 0 <= i < |all| && all[i] == p;
      assert pre[i] in pre && IsRelationRemapOf(facts, p, pre[i]);
    }
    forall r | r in pre ensures Arrives(facts, r, post) {
      var s, t := Remap(km, r.source), Remap(km, r.target);
      var i :| 0 <= i < |pre| && pre[i] == r;
      assert all[i] in all && all[i] == r.(source := s, target := t);
      if s != t && all[i] !in post {
        var p :| p in post && Replaces(p, all[i]);
        assert Joined(post, s, t, r);
      }
      assert s == t || Joined(post, s, t, r);
    }
  }

  ghost predicate Untouched(pre: Tables, post: Tables) {
    post.states == pre.states && post.events == pre.events && post.relations == pre.relations
  }

  /** References are followed; where no fact is beaten the tables are not written at all. */
  ghost predicate ReferencesMigrated(pre: Tables, post: Tables) {
    if exists id :: Beaten(pre.facts, id) then
      && StatesMigrated(pre.facts, pre.states, post.states)
      && EventsMigrated(pre.facts, pre.events, post.events)
      && RelationsMigrated(pre.facts, pre.relations, post.relations)
    else Untouched(pre, post)
  }

  ghost predicate PlainlyMigrated(pre: Tables, post: Tables) {
    && FactsMigrated(pre.facts, post.facts)
    && OwnedMigrated(pre.facts, pre.receipts, post.receipts) && OwnedMigrated(pre.facts, pre.outbox, post.outbox)
    && post.decisions == pre.decisions
    && ReferencesMigrated(pre, post)
  }

  lemma SomeBeatenIff(facts: map<string, Fact>)
    requires WellKeyed(facts)
    ensures Losers(facts) != {} <==> exists id :: Beaten(facts, id)
  {
    hide Beaten, IsKeeper;
    forall id ensures id in Losers(facts) <==> Beaten(facts, id) { LoserMeans(facts, id); }
    if id :| Beaten(facts, id) { assert id in Losers(facts); }
    if id :| id in Losers(facts) { assert Beaten(facts, id); }
  }

  lemma ReferencesMeaning(pre: Tables, post: Tables)
    requires WellKeyed(pre.facts) && Losers(pre.facts) != {}
    requires StatesRemapped(pre.states, KeeperMap(pre.facts), post.states)
    requires post.events == RemapEvents(KeeperMap(pre.facts), pre.events)
    requires RelationsRemapped(pre.relations, KeeperMap(pre.facts), post.relations)
    ensures ReferencesMigrated(pre, post)
  {
    hide StatesMigrated, EventsMigrated, RelationsMigrated, StatesRemapped, RelationsRemapped, Untouched, Beaten;
    SomeBeatenIff(pre.facts);
    StatesMeaning(pre.facts, pre.states, post.states);
    EventsMeaning(pre.facts, pre.events);
    RelationsMeaning(pre.facts, pre.relations, post.relations);
  }

  /** The tables the migration leaves, said in plain fields. */
  lemma MigratedMeans(pre: Tables, post: Tables)
    requires Legal(pre) && Migrated(pre, post)
    ensures PlainlyMigrated(pre, post)
  {
    hide Legal, Losers, Beaten, KeeperMap, Survivors, Without, FactsMigrated, OwnedMigrated, StatesMigrated, EventsMigrated, RelationsMigrated,
      StatesRemapped, RelationsRemapped, RemapEvents, WellKeyed, ReferencesMigrated;
    LegalIsWellKeyed(pre);
    FactsMeaning(pre, post);
    OwnedMeaning(pre.facts, pre.receipts, post.receipts);
    OwnedMeaning(pre.facts, pre.outbox, post.outbox);
    if Losers(pre.facts) != {} {
      ReferencesMeaning(pre, post);
    } else {
      UntouchedMeaning(pre, post);
    }
  }

  lemma UntouchedMeaning(pre: Tables, post: Tables)
    requires WellKeyed(pre.facts) && Losers(pre.facts) == {} && Untouched(pre, post)
    ensures ReferencesMigrated(pre, post)
  {
    SomeBeatenIff(pre.facts);
  }

  // ----- what stops the migration -----

  /** An entry of a fact that is not there. */
  ghost predicate Orphaned(rows: seq<Owned>, facts: map<string, Fact>) {
    exists i :: 0 <= i < |rows| && rows[i].kind == "fact" && rows[i].ref !in facts
  }

  /** A relation whose ends do not meet when followed. */
  ghost predicate RelationStays(t: Tables) {
    exists r, x, y :: r in t.relations && Follows(t.facts, r.source, x) && Follows(t.facts, r.target, y) && x != y
  }

  /** An entry of another type carries a beaten fact's id, which an entry of the fact carries. */
  ghost predicate SharesReference(t: Tables) {
    exists q, r :: q in t.outbox && r in t.outbox && q.kind == "fact" && Beaten(t.facts, q.ref) && r.kind != "fact" && r.ref == q.ref
  }

  /** The check that stops the migration of `t` where a statement may bind `limit` parameters. */
  ghost function StopOf(t: Tables, limit: nat): Option<Check> {
    if limit < 1 then Some(ParameterBudget)
    else if Orphaned(t.receipts, t.facts) then Some(OrphanFactReceipt)
    else if Orphaned(t.outbox, t.facts) then Some(OrphanFactOutbox)
    else if limit < 3 then Some(ParameterBudget)
    else if "" in t.facts then Some(BackfillIncomplete)
    else if (exists id :: Beaten(t.facts, id)) && ((t.events != [] && limit < 8) || (t.states != [] && limit < 7) || (RelationStays(t) && limit < 4)) then
      Some(ParameterBudget)
    else if SharesReference(t) then Some(OutboxCount)
    else None
  }

  lemma OrphanedIs(rows: seq<Owned>, facts: map<string, Fact>)
    ensures OrphanRows(rows, facts) <==> Orphaned(rows, facts)
  {
    if r :| r in rows && r.kind == "fact" && r.ref !in facts {
      var i :| 0 <= i < |rows| && rows[i] == r;
    }
    if i :| 0 <= i < |rows| && rows[i].kind == "fact" && rows[i].ref !in facts {
      assert rows[i] in rows;
    }
  }

  lemma RelationStaysIs(t: Tables)
    requires WellKeyed(t.facts)
    ensures SomeRelationKept(t.relations, KeeperMap(t.facts)) <==> RelationStays(t)
  {
    var km := KeeperMap(t.facts);
    hide KeeperMap, Remap, Follows, WellKeyed;
    if r :| r in t.relations && Remap(km, r.source) != Remap(km, r.target) {
      RemapFollows(t.facts, r.source);
      RemapFollows(t.facts, r.target);
    }
    if r, x, y :| r in t.relations && Follows(t.facts, r.source, x) && Follows(t.facts, r.target, y) && x != y {
      RemapFollows(t.facts, r.source);
      RemapFollows(t.facts, r.target);
      FollowsUnique(t.facts, r.source, x, Remap(km, r.source));
      FollowsUnique(t.facts, r.target, y, Remap(km, r.target));
    }
  }

  lemma SharesReferenceIs(t: Tables)
    requires WellKeyed(t.facts)
    ensures Entangled(t.outbox, Losers(t.facts)) <==> SharesReference(t)
  {
    hide Losers, Beaten;
    forall id ensures id in Losers(t.facts) <==> Beaten(t.facts, id) { LoserMeans(t.facts, id); }
    if r :| r in t.outbox && r.kind != "fact" && r.ref in OwnedRefs(t.outbox, Losers(t.facts)) {
      var q :| q in t.outbox && q.kind == "fact" && q.ref in Losers(t.facts) && q.ref == r.ref;
    }
    if q, r :| q in t.outbox && r in t.outbox && q.kind == "fact" && Beaten(t.facts, q.ref) && r.kind != "fact" && r.ref == q.ref {
      assert q.ref in OwnedRefs(t.outbox, Losers(t.facts));
    }
  }

  lemma StopMeans(t: Tables, limit: nat)
    requires WellKeyed(t.facts)
    ensures FailureOf(t, limit) == StopOf(t, limit)
  {
    hide Losers, Beaten, KeeperMap, OrphanRows, Orphaned, SomeRelationKept, RelationStays, Entangled, SharesReference;
    OrphanedIs(t.receipts, t.facts);
    OrphanedIs(t.outbox, t.facts);
    SomeBeatenIff(t.facts);
    RelationStaysIs(t);
    SharesReferenceIs(t);
  }

  // ----- the summary -----

  ghost function BeatenPlaces(facts: map<string, Fact>, rows: seq<Owned>, from: nat): set<nat> {
    set i: nat | from <= i < |rows| && rows[i].kind == "fact" && Beaten(facts, rows[i].ref)
  }

  lemma {:induction false} RowsCounted(facts: map<string, Fact>, rows: seq<Owned>, from: nat)
    requires WellKeyed(facts) && from <= |rows|
    ensures |FactRows(rows[from..], Losers(facts))| == |BeatenPlaces(facts, rows, from)|
    decreases |rows| - from
  {
    hide Losers, Beaten, WellKeyed;
    if from == |rows| {
      assert rows[from..] == [] && BeatenPlaces(facts, rows, from) == {};
    } else {
      LoserMeans(facts, rows[from].ref);
      RowsCounted(facts, rows, from + 1);
      assert rows[from..][1..] == rows[from + 1..];
      assert BeatenPlaces(facts, rows, from) ==
        BeatenPlaces(facts, rows, from + 1) + if rows[from].kind == "fact" && Beaten(facts, rows[from].ref) then {from} else {};
    }
  }

  /** The summary lists the facts kept, in the order of their ids, and those deleted, and
      counts the rows that went with these. */
  ghost predicate PlainlyReported(pre: Tables, s: Summary) {
    && (forall id :: id in s.kept <==> id in pre.facts && !Beaten(pre.facts, id))
    && (forall i, j :: 0 <= i < j < |s.kept| ==> Before(s.kept[i], s.kept[j]))
    && (forall id :: id in s.deleted <==> Beaten(pre.facts, id))
    && s.receiptCount == |BeatenPlaces(pre.facts, pre.receipts, 0)|
    && s.outboxCount == |BeatenPlaces(pre.facts, pre.outbox, 0)|
    && s.remainingDupeKeys == {}
  }

  lemma {:induction false} NoneTwice(xs: seq<string>, s: set<string>)
    requires |xs| == |s| && forall x :: x in xs <==> x in s
    ensures forall i, j :: 0 <= i < j < |xs| ==> xs[i] != xs[j]
    decreases |xs|
  {
    if xs != [] {
      var rest := s - {xs[0]};
      assert |rest| == |xs[1..]|;
      assert xs == [xs[0]] + xs[1..];
      if xs[0] in xs[1..] {
        MoreThanSet(xs[1..], s);
      } else {
        NoneTwice(xs[1..], rest);
      }
    }
  }

  lemma {:induction false} MoreThanSet(xs: seq<string>, s: set<string>)
    requires forall x :: x in s ==> x in xs
    ensures |xs| >= |s|
    decreases |xs|
  {
    if xs == [] {
      assert s == {};
    } else {
      MoreThanSet(xs[1..], s - {xs[0]});
    }
  }

  lemma KeeperIs(facts: map<string, Fact>, id: string)
    requires WellKeyed(facts)
    ensures IsKeeper(facts, id) <==> id in facts && !Beaten(facts, id)
  {
    LoserMeans(facts, id);
    hide Beaten, IsKeeper;
  }

  lemma KeptMeans(facts: map<string, Fact>, kept: seq<string>)
    requires WellKeyed(facts) && (forall id :: id in kept <==> IsKeeper(facts, id)) && |kept| == |facts.Keys - Losers(facts)|
    ensures forall id :: id in kept <==> id in facts && !Beaten(facts, id)
    ensures forall i, j :: 0 <= i < j < |kept| ==> kept[i] != kept[j]
  {
    hide Beaten, IsKeeper, WellKeyed;
    forall id ensures id in kept <==> id in facts && !Beaten(facts, id) { KeeperIs(facts, id); }
    forall id ensures id in kept <==> id in facts.Keys - Losers(facts) { LoserMeans(facts, id); }
    hide Losers;
    NoneTwice(kept, facts.Keys - Losers(facts));
  }

  lemma ReportMeans(pre: Tables, s: Summary)
    requires WellKeyed(pre.facts) && Reports(pre, s)
    ensures PlainlyReported(pre, s)
  {
    hide Losers, Beaten, IsKeeper, BeatenPlaces, FactRows, WellKeyed;
    assert pre.receipts[0..] == pre.receipts && pre.outbox[0..] == pre.outbox;
    RowsCounted(pre.facts, pre.receipts, 0);
    RowsCounted(pre.facts, pre.outbox, 0);
    forall id ensures id in Losers(pre.facts) <==> Beaten(pre.facts, id) { LoserMeans(pre.facts, id); }
    KeptMeans(pre.facts, s.kept);
    forall i, j | 0 <= i < j < |s.kept| ensures Before(s.kept[i], s.kept[j]) { BeforeTotal(s.kept[i], s.kept[j]); }
  }
}
