/** The self-checks that end the fact dedup migration, and why all but one are dead. */
module FactChecks {
  import opened Options
  import opened Ordering
  import opened FactTables
  import Dedup

  datatype Check =
    | ParameterBudget | OrphanFactReceipt | OrphanFactOutbox | BackfillIncomplete
    | DeletionCount | PreDeleteIdentity | PrimaryKeyViolated
    | SurvivorIds | SurvivorCount | KeyVerification | ActiveKeyNotUnique
    | DecisionsMutated | SurvivorSet | FactMutated
    | ReceiptsNotReconciled | ReceiptsRemain | ReceiptCount | NonFactReceipts
    | OutboxNotReconciled | OutboxRemain | OutboxCount | NonFactOutbox
    | DecisionOutbox | DecisionReceipts
    | StateRefs | EventRefs | RelationRefs
    | StateCount | EventCount | RelationCount

  datatype Counts = Counts(facts: int, receipts: int, outbox: int, states: int, events: int, relations: int)

  function StateIds(rows: seq<StateRow>): set<string> {
    set r | r in rows :: r.memoryId
  }

  function EventIds(rows: seq<EventRow>): set<string> {
    set r | r in rows :: r.memoryId
  }

  function RelationIds(rows: seq<Relation>): set<string> {
    (set r | r in rows :: r.source) + (set r | r in rows :: r.target)
  }

  predicate KeysVerified(facts: map<string, Fact>) {
    forall id :: id in facts ==> facts[id].dedupKey == Some(KeyOf(facts[id]))
  }

  /** What the partial unique index over active rows demands. */
  predicate ActiveKeysUnique(facts: map<string, Fact>) {
    forall a, b :: a in facts && b in facts && Dedup.IsActive(facts[a].state) && Dedup.IsActive(facts[b].state) ==>
                     (facts[a].dedupKey == facts[b].dedupKey ==> a == b)
  }

  /** The rows of the two tables that hold a copy of a fact's id, compared in source order. */
  function FirstFailure(pre: Tables, post: Tables, deleted: set<string>, counts: Counts): Option<Check> {
    var ids := pre.facts.Keys;
    if post.facts.Keys != ids - deleted then Some(SurvivorIds)
    else if |post.facts.Keys| != |ids| - |deleted| then Some(SurvivorCount)
    else if !KeysVerified(post.facts) then Some(KeyVerification)
    else if !ActiveKeysUnique(post.facts) then Some(ActiveKeyNotUnique)
    else if post.decisions != pre.decisions then Some(DecisionsMutated)
    else if post.facts.Keys != ids - deleted then Some(SurvivorSet)
    else if SomeMutated(pre.facts, post.facts, ids - deleted) then Some(FactMutated)
    else
      match FirstChildFailure(pre, post, deleted, counts)
      case Some(c) => Some(c)
      case None =>
        if deleted * StateIds(post.states) != {} then Some(StateRefs)
        else if deleted * EventIds(post.events) != {} then Some(EventRefs)
        else if deleted * RelationIds(post.relations) != {} then Some(RelationRefs)
        else if counts.states != |post.states| then Some(StateCount)
        else if counts.events != |post.events| then Some(EventCount)
        else if counts.relations != |post.relations| then Some(RelationCount)
        else None
  }

  function FirstChildFailure(pre: Tables, post: Tables, deleted: set<string>, counts: Counts): Option<Check> {
    var ids := pre.facts.Keys;
    var preReceipts, postReceipts := FactRows(pre.receipts, ids), FactRows(post.receipts, ids);
    var preOutbox, postOutbox := FactRows(pre.outbox, ids), FactRows(post.outbox, ids);
    if multiset(postReceipts) != multiset(Without(preReceipts, deleted)) then Some(ReceiptsNotReconciled)
    else if FactRows(postReceipts, deleted) != [] then Some(ReceiptsRemain)
    else if counts.receipts != |FactRows(preReceipts, deleted)| then Some(ReceiptCount)
    else if NonFactRows(post.receipts) != NonFactRows(pre.receipts) then Some(NonFactReceipts)
    else if multiset(postOutbox) != multiset(Without(preOutbox, deleted)) then Some(OutboxNotReconciled)
    else if FactRows(postOutbox, deleted) != [] then Some(OutboxRemain)
    else if counts.outbox != |FactRows(preOutbox, deleted)| then Some(OutboxCount)
    else if NonFactRows(post.outbox) != NonFactRows(pre.outbox) then Some(NonFactOutbox)
    else if DecisionRows(post.outbox) != DecisionRows(pre.outbox) then Some(DecisionOutbox)
    else if DecisionRows(post.receipts) != DecisionRows(pre.receipts) then Some(DecisionReceipts)
    else None
  }

  /** The facts table after the backfill and the deletion of the losers. */
  function Survivors(facts: map<string, Fact>): map<string, Fact> {
    map id | id in facts && id !in Losers(facts) :: facts[id].(dedupKey := Some(KeyOf(facts[id])))
  }

  /** What the migration's writes leave behind. */
  ghost predicate Migrated(pre: Tables, post: Tables) {
    var km, gone := KeeperMap(pre.facts), Losers(pre.facts);
    && post.facts == Survivors(pre.facts)
    && post.receipts == Without(pre.receipts, OwnedRefs(pre.receipts, gone))
    && post.outbox == Without(pre.outbox, OwnedRefs(pre.outbox, gone))
    && post.decisions == pre.decisions
    && (gone == {} ==> post.states == pre.states && post.events == pre.events && post.relations == pre.relations)
    && (gone != {} ==>
          && StatesRemapped(pre.states, km, post.states)
          && post.events == RemapEvents(km, pre.events)
          && RelationsRemapped(pre.relations, km, post.relations))
  }

  ghost predicate Counted(pre: Tables, post: Tables, counts: Counts) {
    && counts.receipts == |pre.receipts| - |post.receipts|
    && counts.outbox == |pre.outbox| - |post.outbox|
    && counts.states == |post.states|
    && counts.events == |post.events|
    && counts.relations == |post.relations|
  }

  lemma OwnedRefsCover(rows: seq<Owned>, ids: set<string>)
    ensures Covers(rows, OwnedRefs(rows, ids), ids)
    ensures Spares(rows, OwnedRefs(rows, ids)) <==> !Entangled(rows, ids)
  {
  }

  lemma ChildChecks(pre: Tables, post: Tables, counts: Counts)
    requires Legal(pre) && Migrated(pre, post) && Counted(pre, post, counts)
    ensures FirstChildFailure(pre, post, Losers(pre.facts), counts) ==
              if Entangled(pre.outbox, Losers(pre.facts)) then Some(OutboxCount) else None
  {
    var ids, gone := pre.facts.Keys, Losers(pre.facts);
    DistinctRefsDisentangle(pre.receipts, gone);
    OwnedRefsCover(pre.receipts, gone);
    OwnedRefsCover(pre.outbox, gone);
    DeleteEffect(pre.receipts, OwnedRefs(pre.receipts, gone), gone, ids);
    DeleteEffect(pre.outbox, OwnedRefs(pre.outbox, gone), gone, ids);
    FactRowsNested(pre.receipts, ids, gone);
    FactRowsNested(pre.outbox, ids, gone);
    FactRowsNested(post.receipts, ids, gone);
    FactRowsNested(post.outbox, ids, gone);
  }

  lemma SurvivorIdentity(facts: map<string, Fact>)
    ensures Survivors(facts).Keys == facts.Keys - Losers(facts)
    ensures |Survivors(facts).Keys| == |facts.Keys| - |Losers(facts)|
    ensures KeysVerified(Survivors(facts))
  {
    assert Losers(facts) <= facts.Keys;
    assert Survivors(facts).Keys == facts.Keys - Losers(facts);
  }

  /** The unique index can be built: even across inactive rows no key is left twice. */
  lemma SurvivorKeysUnique(facts: map<string, Fact>)
    ensures ActiveKeysUnique(Survivors(facts))
  {
    var post := Survivors(facts);
    forall a, b | a in post && b in post && post[a].dedupKey == post[b].dedupKey ensures a == b {
      KeeperUnique(facts, a, b);
    }
  }

  predicate SomeMutated(pre: map<string, Fact>, post: map<string, Fact>, ids: set<string>)
    requires ids <= pre.Keys && ids <= post.Keys
  {
    exists id :: id in ids && post[id].(dedupKey := None) != pre[id].(dedupKey := None)
  }

  lemma SurvivorsIntact(facts: map<string, Fact>)
    requires forall id :: id in facts ==> facts[id].dedupKey == None
    ensures Survivors(facts).Keys == facts.Keys - Losers(facts)
    ensures !SomeMutated(facts, Survivors(facts), facts.Keys - Losers(facts))
  {
    SurvivorIdentity(facts);
  }

  lemma ReferenceChecks(pre: Tables, post: Tables)
    requires Legal(pre) && Migrated(pre, post)
    ensures Losers(pre.facts) * StateIds(post.states) == {}
    ensures Losers(pre.facts) * EventIds(post.events) == {}
    ensures Losers(pre.facts) * RelationIds(post.relations) == {}
  {
    var km, gone := KeeperMap(pre.facts), Losers(pre.facts);
    forall id ensures Remap(km, id) !in gone { RemapSurvives(pre.facts, id); }
    if gone != {} {
      assert forall r :: r in RemapStates(km, pre.states) ==> r.memoryId !in gone;
      assert forall r :: r in RemapEvents(km, pre.events) ==> r.memoryId !in gone;
      assert forall r :: r in RemapRelations(km, pre.relations) ==> r.source !in gone && r.target !in gone;
    }
  }

  /** Of the final checks, only the outbox count can fire, and it fires exactly when some
      other kind of entry carries a deleted fact's id that an entry of that fact carries too:
      the outbox DELETE names no record type. */
  lemma SelfChecks(pre: Tables, post: Tables, counts: Counts)
    requires Legal(pre) && Migrated(pre, post) && Counted(pre, post, counts)
    ensures FirstFailure(pre, post, Losers(pre.facts), counts) ==
              if Entangled(pre.outbox, Losers(pre.facts)) then Some(OutboxCount) else None
  {
    SurvivorIdentity(pre.facts);
    SurvivorKeysUnique(pre.facts);
    SurvivorsIntact(pre.facts);
    ReferenceChecks(pre, post);
    ChildChecks(pre, post, counts);
  }
}
