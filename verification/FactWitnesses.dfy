/** Legal tables on which the fact migration fails a check of its own. */
module FactWitnesses {
  import opened Options
  import opened Text
  import opened Ordering
  import opened Dedup
  import opened FactTables
  import opened FactChecks
  import opened FactMigration

  /** A candidate fact; two of them differ in their ids alone and so share their key. */
  function Twin(id: string): Fact {
    Fact(id, "s", "p", "o", 0.5, 0, "candidate", "", None)
  }

  function OnlyFacts(facts: map<string, Fact>, outbox: seq<Owned>): Tables {
    Tables(facts, [], outbox, [], [], [], [])
  }

  /** Of two twins exactly one is a loser. */
  lemma OneTwinLoses(facts: map<string, Fact>)
    requires facts == map["a" := Twin("a"), "b" := Twin("b")]
    ensures exists id :: Losers(facts) == {id} && (id == "a" || id == "b")
  {
    hide Less, KeyOf, Rank;
    assert KeyOf(facts["a"]) == KeyOf(facts["b"]) by { SameKeyTwins("a", "b"); }
    LessTotal(Rank(facts["a"]), Rank(facts["b"]));
    RankIdentifies(facts, "a", "b");
    if Less(Rank(facts["a"]), Rank(facts["b"])) {
      assert Losers(facts) == {"b"};
    } else {
      assert Losers(facts) == {"a"};
    }
  }

  lemma SameKeyTwins(a: string, b: string)
    ensures KeyOf(Twin(a)) == KeyOf(Twin(b))
  {
  }

  function TwinEntries(): seq<Owned> {
    [Owned("fact", "a", ""), Owned("decision", "a", ""), Owned("fact", "b", ""), Owned("decision", "b", "")]
  }

  lemma TwinEntriesEntangle(id: string)
    requires id == "a" || id == "b"
    ensures Entangled(TwinEntries(), {id})
  {
    var outbox := TwinEntries();
    var own, other := Owned("fact", id, ""), Owned("decision", id, "");
    assert own == outbox[0] || own == outbox[2];
    assert other == outbox[1] || other == outbox[3];
    assert own in outbox && other in outbox;
    assert id in OwnedRefs(outbox, {id});
  }

  lemma TwinEntriesOwned(facts: map<string, Fact>)
    requires "a" in facts && "b" in facts
    ensures !OrphanRows(TwinEntries(), facts)
  {
  }

  /** Two facts of one key, each id with an outbox entry of a fact and one of a decision:
      whichever goes, the deletion counts the decision's entry as well. */
  lemma SharedRecordIdFailsOutboxCount() returns (pre: Tables)
    ensures Legal(pre) && FailureOf(pre, MAX_BOUND_PARAMS) == Some(OutboxCount)
  {
    var facts := map["a" := Twin("a"), "b" := Twin("b")];
    pre := OnlyFacts(facts, TwinEntries());
    hide *;
    TwinsLegal(facts);
    OneTwinLoses(facts);
    var id :| Losers(facts) == {id} && (id == "a" || id == "b");
    TwinEntriesEntangle(id);
    TwinEntriesOwned(facts);
    OnlyEntangled(facts, TwinEntries());
  }

  lemma TwinsLegal(facts: map<string, Fact>)
    requires facts == map["a" := Twin("a"), "b" := Twin("b")]
    ensures Legal(OnlyFacts(facts, TwinEntries())) && "" !in facts && "a" in facts && "b" in facts
  {
  }

  lemma OnlyEntangled(facts: map<string, Fact>, outbox: seq<Owned>)
    requires !OrphanRows(outbox, facts) && "" !in facts && Entangled(outbox, Losers(facts))
    ensures FailureOf(OnlyFacts(facts, outbox), MAX_BOUND_PARAMS) == Some(OutboxCount)
  {
    hide Losers, KeeperMap, Entangled;
    var pre := OnlyFacts(facts, outbox);
    assert !OrphanRows(pre.receipts, facts) && BulkInsertNeed(pre) == 0;
    hide OrphanRows, BulkInsertNeed;
  }

  /** A fact whose id is the empty string: the pager starts after it and never keys it. */
  lemma EmptyIdFailsBackfill() returns (pre: Tables)
    ensures Legal(pre) && FailureOf(pre, MAX_BOUND_PARAMS) == Some(BackfillIncomplete)
  {
    pre := OnlyFacts(map["" := Twin("")], []);
  }

  /** Any table fails when fewer than three parameters may be bound. */
  lemma TwoParametersFailBudget() returns (pre: Tables)
    ensures Legal(pre) && FailureOf(pre, 2) == Some(ParameterBudget) && FailureOf(pre, 3) == None
  {
    pre := OnlyFacts(map["a" := Twin("a")], []);
    assert Losers(pre.facts) == {};
  }
}
