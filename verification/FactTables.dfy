/** The rows the fact dedup migration touches, and what it must make of them. */
module FactTables {
  import opened Options
  import opened Text
  import opened Ordering
  import opened Dedup

  /** `rest` stands for the columns the migration carries along unread. */
  datatype Fact = Fact(id: string, subject: string, predicat: string, objekt: string, confidence: real,
                       createdAt: int, state: string, rest: string, dedupKey: Option<string>)

  /** A receipt (its id is the fact's id) or an outbox entry (`ref` is its record_id). */
  datatype Owned = Owned(kind: string, ref: string, rest: string)

  datatype StateRow = StateRow(id: string, memoryId: string, memoryType: string, current: string,
                               previous: Option<string>, confidence: real, updatedAt: int)

  datatype EventRow = EventRow(id: string, memoryId: string, memoryType: string, detail: string)

  datatype Relation = Relation(source: string, target: string, kind: string, createdAt: int)

  datatype Tables = Tables(facts: map<string, Fact>, receipts: seq<Owned>, outbox: seq<Owned>, decisions: seq<string>,
                           states: seq<StateRow>, events: seq<EventRow>, relations: seq<Relation>)

  function KeyOf(f: Fact): string {
    FactDedupKey(Some(f.subject), Some(f.predicat), Some(f.objekt))
  }

  /** _keeper_sort_key; ids differ, so its fifth component is never compared. */
  function Rank(f: Fact): Key {
    [Num(if IsActive(f.state) then 0.0 else 1.0), Num(-f.confidence), Num(f.createdAt as real), Str(f.id)]
  }

  predicate WellKeyed(facts: map<string, Fact>) {
    forall id :: id in facts ==> facts[id].id == id
  }

  // ----- primary keys -----

  ghost predicate DistinctRefs(rows: seq<Owned>) {
    forall i, j :: 0 <= i < j < |rows| ==> rows[i].ref != rows[j].ref
  }

  predicate DistinctStates(rows: seq<StateRow>) {
    forall i, j :: 0 <= i < j < |rows| ==> rows[i].id != rows[j].id
  }

  predicate DistinctEvents(rows: seq<EventRow>) {
    forall i, j :: 0 <= i < j < |rows| ==> rows[i].id != rows[j].id
  }

  function RelationKey(r: Relation): (string, string, string) {
    (r.source, r.target, r.kind)
  }

  predicate DistinctRelations(rows: seq<Relation>) {
    forall i, j :: 0 <= i < j < |rows| ==> RelationKey(rows[i]) != RelationKey(rows[j])
  }

  /** What the schema guarantees before the migration runs. */
  ghost predicate Legal(t: Tables) {
    && WellKeyed(t.facts)
    && (forall id :: id in t.facts ==> t.facts[id].dedupKey == None)
    && DistinctRefs(t.receipts)
    && DistinctStates(t.states)
    && DistinctEvents(t.events)
    && DistinctRelations(t.relations)
  }

  // ----- the keeper of each key -----

  function SameKey(facts: map<string, Fact>, id: string): set<string>
    requires id in facts
  {
    set j | j in facts && KeyOf(facts[j]) == KeyOf(facts[id])
  }

  /** No row with the same key ranks before this one. */
  predicate IsKeeper(facts: map<string, Fact>, id: string) {
    && id in facts
    && forall j :: j in facts && j != id && KeyOf(facts[j]) == KeyOf(facts[id]) ==> Less(Rank(facts[id]), Rank(facts[j]))
  }

  function Losers(facts: map<string, Fact>): set<string> {
    set id | id in facts && !IsKeeper(facts, id)
  }

  function KeeperOf(facts: map<string, Fact>, id: string): string
    requires id in facts
  {
    var ranks := set j | j in SameKey(facts, id) :: Rank(facts[j]);
    assert id in SameKey(facts, id) && Rank(facts[id]) in ranks;
    var m := Min(ranks);
    assert |m| == 4 && m[3].Str?;
    m[3].s
  }

  function KeeperMap(facts: map<string, Fact>): map<string, string> {
    map id | id in Losers(facts) :: KeeperOf(facts, id)
  }

  /** The keeper of a loser; any other id stays. */
  function Remap(km: map<string, string>, id: string): string {
    if id in km then km[id] else id
  }

  lemma RankIdentifies(facts: map<string, Fact>, a: string, b: string)
    requires WellKeyed(facts) && a in facts && b in facts
    ensures Rank(facts[a]) == Rank(facts[b]) ==> a == b
  {
    assert Rank(facts[a])[3] == Str(a) && Rank(facts[b])[3] == Str(b);
  }

  lemma KeeperOfKeeps(facts: map<string, Fact>, id: string)
    requires WellKeyed(facts) && id in facts
    ensures IsKeeper(facts, KeeperOf(facts, id))
    ensures KeyOf(facts[KeeperOf(facts, id)]) == KeyOf(facts[id])
  {
    var ranks := set j | j in SameKey(facts, id) :: Rank(facts[j]);
    assert id in SameKey(facts, id) && Rank(facts[id]) in ranks;
    var m := Min(ranks);
    var k :| k in SameKey(facts, id) && Rank(facts[k]) == m;
    assert m[3] == Str(k);
    forall j | j in facts && j != k && KeyOf(facts[j]) == KeyOf(facts[k]) ensures Less(m, Rank(facts[j])) {
      RankIdentifies(facts, j, k);
      assert j in SameKey(facts, id) && Rank(facts[j]) in ranks;
    }
  }

  lemma KeeperUnique(facts: map<string, Fact>, a: string, b: string)
    requires IsKeeper(facts, a) && IsKeeper(facts, b) && KeyOf(facts[a]) == KeyOf(facts[b])
    ensures a == b
  {
    LessTotal(Rank(facts[a]), Rank(facts[b]));
  }

  /** A key with an active row keeps an active row. */
  lemma KeeperActiveIfAny(facts: map<string, Fact>, keeper: string, j: string)
    requires IsKeeper(facts, keeper) && j in facts && KeyOf(facts[j]) == KeyOf(facts[keeper])
    requires IsActive(facts[j].state)
    ensures IsActive(facts[keeper].state)
  {
    if j != keeper {
      assert Rank(facts[keeper])[0] == Rank(facts[j])[0] || PartBefore(Rank(facts[keeper])[0], Rank(facts[j])[0]);
    }
  }

  /** Deleting the losers leaves exactly one row of every key. */
  lemma SurvivorsOnePerKey(facts: map<string, Fact>, id: string)
    requires WellKeyed(facts) && id in facts
    ensures exists k :: k in facts.Keys - Losers(facts) && KeyOf(facts[k]) == KeyOf(facts[id])
    ensures forall a, b ::
      a in facts.Keys - Losers(facts) && b in facts.Keys - Losers(facts) && KeyOf(facts[a]) == KeyOf(facts[b]) ==> a == b
  {
    KeeperOfKeeps(facts, id);
    assert KeeperOf(facts, id) in facts.Keys - Losers(facts);
    forall a, b | a in facts.Keys - Losers(facts) && b in facts.Keys - Losers(facts) && KeyOf(facts[a]) == KeyOf(facts[b])
      ensures a == b
    {
      KeeperUnique(facts, a, b);
    }
  }

  /** The remap never lands on a deleted row. */
  lemma RemapSurvives(facts: map<string, Fact>, id: string)
    requires WellKeyed(facts)
    ensures Remap(KeeperMap(facts), id) !in Losers(facts)
  {
    if id in Losers(facts) {
      KeeperOfKeeps(facts, id);
    }
  }

  // ----- tables with a reference to a fact -----

  /** The rows left when all with these references go, whatever their kind. */
  function Without(rows: seq<Owned>, refs: set<string>): seq<Owned> {
    if rows == [] then []
    else if rows[0].ref in refs then Without(rows[1..], refs)
    else [rows[0]] + Without(rows[1..], refs)
  }

  function FactRows(rows: seq<Owned>, ids: set<string>): seq<Owned> {
    if rows == [] then []
    else if rows[0].kind == "fact" && rows[0].ref in ids then [rows[0]] + FactRows(rows[1..], ids)
    else FactRows(rows[1..], ids)
  }

  function NonFactRows(rows: seq<Owned>): seq<Owned> {
    if rows == [] then []
    else if rows[0].kind != "fact" then [rows[0]] + NonFactRows(rows[1..])
    else NonFactRows(rows[1..])
  }

  function DecisionRows(rows: seq<Owned>): seq<Owned> {
    if rows == [] then []
    else if rows[0].kind == "decision" then [rows[0]] + DecisionRows(rows[1..])
    else DecisionRows(rows[1..])
  }

  /** The ids among `ids` that own a fact row: what the child SELECT returns. */
  function OwnedRefs(rows: seq<Owned>, ids: set<string>): set<string> {
    set r | r in rows && r.kind == "fact" && r.ref in ids :: r.ref
  }

  /** Some row of another kind carries a ref that the child DELETE will use. */
  predicate Entangled(rows: seq<Owned>, ids: set<string>) {
    exists r :: r in rows && r.kind != "fact" && r.ref in OwnedRefs(rows, ids)
  }

  lemma DistinctRefsDisentangle(rows: seq<Owned>, ids: set<string>)
    requires DistinctRefs(rows)
    ensures !Entangled(rows, ids)
  {
  }

  /** E agrees with `ids` on the fact rows. */
  predicate Covers(rows: seq<Owned>, refs: set<string>, ids: set<string>) {
    forall r :: r in rows && r.kind == "fact" ==> (r.ref in refs <==> r.ref in ids)
  }

  predicate Spares(rows: seq<Owned>, refs: set<string>) {
    forall r :: r in rows && r.kind != "fact" ==> r.ref !in refs
  }

  /** The delete by bare ref, measured against the delete that was meant. */
  lemma {:induction false} DeleteEffect(rows: seq<Owned>, refs: set<string>, ids: set<string>, all: set<string>)
    requires Covers(rows, refs, ids)
    ensures FactRows(Without(rows, refs), all) == Without(FactRows(rows, all), ids)
    ensures FactRows(Without(rows, refs), ids) == []
    ensures |rows| - |Without(rows, refs)| >= |FactRows(rows, ids)|
    ensures |rows| - |Without(rows, refs)| == |FactRows(rows, ids)| <==> Spares(rows, refs)
    ensures Spares(rows, refs) ==>
      && NonFactRows(Without(rows, refs)) == NonFactRows(rows)
      && DecisionRows(Without(rows, refs)) == DecisionRows(rows)
  {
    if rows != [] {
      assert rows[0] in rows && forall r :: r in rows[1..] ==> r in rows;
      DeleteEffect(rows[1..], refs, ids, all);
      assert Spares(rows, refs) <==> Spares(rows[1..], refs) && (rows[0].kind != "fact" ==> rows[0].ref !in refs);
    }
  }

  lemma {:induction false} FactRowsNested(rows: seq<Owned>, all: set<string>, ids: set<string>)
    requires ids <= all
    ensures FactRows(FactRows(rows, all), ids) == FactRows(rows, ids)
  {
    if rows != [] {
      FactRowsNested(rows[1..], all, ids);
    }
  }

  lemma {:induction false} WithoutTwice(rows: seq<Owned>, a: set<string>, b: set<string>)
    ensures Without(Without(rows, a), b) == Without(rows, a + b)
  {
    if rows != [] {
      WithoutTwice(rows[1..], a, b);
    }
  }

  lemma {:induction false} WithoutMembers(rows: seq<Owned>, refs: set<string>)
    ensures forall r :: r in Without(rows, refs) <==> r in rows && r.ref !in refs
    ensures |Without(rows, refs)| <= |rows|
    ensures refs == {} ==> Without(rows, refs) == rows
  {
    if rows != [] {
      WithoutMembers(rows[1..], refs);
      assert rows == [rows[0]] + rows[1..];
    }
  }

  // ----- lifecycle and relation tables -----

  function RemapState(km: map<string, string>, r: StateRow): StateRow {
    r.(memoryId := Remap(km, r.memoryId))
  }

  function RemapEvent(km: map<string, string>, r: EventRow): EventRow {
    r.(memoryId := Remap(km, r.memoryId))
  }

  function RemapRelation(km: map<string, string>, r: Relation): Relation {
    r.(source := Remap(km, r.source), target := Remap(km, r.target))
  }

  /** _lifecycle_state_sort_key */
  function StateRank(r: StateRow): Key {
    [Num(r.updatedAt as real), Num(r.confidence), Str(r.id)]
  }

  /** _relation_sort_key */
  function RelationRank(r: Relation): Key {
    [Num(r.createdAt as real), Str(r.source), Str(r.target), Str(r.kind)]
  }

  function StateGroup(r: StateRow): (string, string) {
    (r.memoryType, r.memoryId)
  }

  /** `p` stands for `r`: the same memory, and a state that is no lesser one. */
  predicate Supersedes(p: StateRow, r: StateRow) {
    StateGroup(p) == StateGroup(r) && (p == r || Less(StateRank(r), StateRank(p)))
  }

  function RemapStates(km: map<string, string>, rows: seq<StateRow>): seq<StateRow> {
    seq(|rows|, i requires 0 <= i < |rows| => RemapState(km, rows[i]))
  }

  function RemapEvents(km: map<string, string>, rows: seq<EventRow>): seq<EventRow> {
    seq(|rows|, i requires 0 <= i < |rows| => RemapEvent(km, rows[i]))
  }

  function RemapRelations(km: map<string, string>, rows: seq<Relation>): seq<Relation> {
    seq(|rows|, i requires 0 <= i < |rows| => RemapRelation(km, rows[i]))
  }

  /** One row per (memory_type, memory_id): the greatest of the remapped rows. */
  ghost predicate StatesRemapped(pre: seq<StateRow>, km: map<string, string>, post: seq<StateRow>) {
    var all := RemapStates(km, pre);
    && (forall p :: p in post ==> p in all)
    && (forall r :: r in all && r !in post ==> exists p :: p in post && Supersedes(p, r))
    && (forall i, j :: 0 <= i < j < |post| ==> StateGroup(post[i]) != StateGroup(post[j]))
  }

  /** `p` stands for `r`: the same relation key, and no younger. */
  predicate Replaces(p: Relation, r: Relation) {
    RelationKey(p) == RelationKey(r) && p.createdAt <= r.createdAt
  }

  /** Keys are unique, self-loops are gone, the oldest of the merged rows stays. */
  ghost predicate RelationsRemapped(pre: seq<Relation>, km: map<string, string>, post: seq<Relation>) {
    var all := RemapRelations(km, pre);
    && (forall p :: p in post ==> p in all && p.source != p.target)
    && (forall r :: r in all && r.source != r.target && r !in post ==> exists p :: p in post && Replaces(p, r))
    && DistinctRelations(post)
  }
}
