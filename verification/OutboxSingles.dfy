/** What processing outbox entries one at a time does to the table and the stores. */
module OutboxSingles {
  import opened Options
  import opened Outbox
  import opened OutboxProtocol

  /** What embedder and providers do with an entry handed to them alone. An error may come
      after a write; `vectorOk` is false too when embedding raises. */
  datatype Behaviour = Behaviour(vectorWritten: bool, vectorOk: bool, graphWritten: bool, graphOk: bool) {
    predicate Valid() {
      (vectorOk ==> vectorWritten) && (graphOk ==> graphWritten)
    }
  }

  /** The environment of a worker: uuid5 and the providers are functions of the entry. */
  datatype Environment = Environment(config: Config, pointOf: string -> string, alone: Entry -> Behaviour,
                                     messageOf: Entry -> string, now: int)

  datatype Stores = Stores(entries: Table, vectors: map<string, string>, graph: set<string>)

  ghost predicate ValidEnvironment(v: Environment) {
    v.config.maxRetries >= 1 && forall e :: v.alone(e).Valid()
  }

  // ----- one entry -----

  predicate Vectored(v: Environment, e: Entry) {
    NeedsVector(v.config, e) && v.alone(e).vectorWritten
  }

  /** The entry has a text to embed, whether or not a vector store is there to take it. */
  predicate Embeds(c: Config, e: Entry) {
    c.embedder && (e.operation.IndexFact? || (e.operation.IndexBelief? && e.payload != ""))
  }

  predicate VectorPassed(v: Environment, e: Entry) {
    Embeds(v.config, e) ==> v.alone(e).vectorOk
  }

  predicate Synced(v: Environment, e: Entry) {
    NeedsGraph(v.config, e) && VectorPassed(v, e) && v.alone(e).graphWritten
  }

  /** The entry raises nothing when processed alone. */
  predicate Succeeds(v: Environment, e: Entry) {
    !e.operation.UnknownOperation? && VectorPassed(v, e) && (NeedsGraph(v.config, e) ==> v.alone(e).graphOk)
  }

  function Point(v: Environment, e: Entry): string {
    v.pointOf((if e.operation.IndexBelief? then "belief:" else "fact:") + e.recordId)
  }

  function Upsert(v: Environment, vectors: map<string, string>, e: Entry): map<string, string> {
    if Vectored(v, e) then vectors[Point(v, e) := e.payload] else vectors
  }

  function Sync(v: Environment, graph: set<string>, e: Entry): set<string> {
    if Synced(v, e) then graph + {e.payload} else graph
  }

  function Settle(v: Environment, t: Table, e: Entry): Table {
    if Succeeds(v, e) then MarkCompleted(t, e.id, v.now)
    else RetryOrFail(t, e.id, v.messageOf(e), v.config.maxRetries, v.now)
  }

  function ProcessOne(v: Environment, s: Stores, e: Entry): Stores {
    Stores(Settle(v, s.entries, e), Upsert(v, s.vectors, e), Sync(v, s.graph, e))
  }

  /** The reference: every entry on its own, in order. */
  function ProcessAll(v: Environment, s: Stores, es: seq<Entry>): Stores
    decreases |es|
  {
    if es == [] then s else ProcessAll(v, ProcessOne(v, s, es[0]), es[1..])
  }

  // ----- the reference, store by store -----

  function UpsertAll(v: Environment, vectors: map<string, string>, es: seq<Entry>): map<string, string>
    decreases |es|
  {
    if es == [] then vectors else UpsertAll(v, Upsert(v, vectors, es[0]), es[1..])
  }

  function SyncAll(v: Environment, graph: set<string>, es: seq<Entry>): set<string>
    decreases |es|
  {
    if es == [] then graph else SyncAll(v, Sync(v, graph, es[0]), es[1..])
  }

  function SettleAll(v: Environment, t: Table, es: seq<Entry>): Table
    decreases |es|
  {
    if es == [] then t else SettleAll(v, Settle(v, t, es[0]), es[1..])
  }

  lemma {:induction false} ProcessAllByStore(v: Environment, s: Stores, es: seq<Entry>)
    ensures ProcessAll(v, s, es) ==
      Stores(SettleAll(v, s.entries, es), UpsertAll(v, s.vectors, es), SyncAll(v, s.graph, es))
    decreases |es|
  {
    hide Settle, Upsert, Sync;
    if es != [] { ProcessAllByStore(v, ProcessOne(v, s, es[0]), es[1..]); }
  }

  lemma {:induction false} ProcessAllAppend(v: Environment, s: Stores, a: seq<Entry>, b: seq<Entry>)
    ensures ProcessAll(v, s, a + b) == ProcessAll(v, ProcessAll(v, s, a), b)
    decreases |a|
  {
    hide ProcessOne;
    if a == [] {
      assert a + b == b;
    } else {
      assert (a + b)[1..] == a[1..] + b;
      ProcessAllAppend(v, ProcessOne(v, s, a[0]), a[1..], b);
    }
  }

  function Triples(v: Environment, es: seq<Entry>): set<string>
    decreases |es|
  {
    if es == [] then {} else (if Synced(v, es[0]) then {es[0].payload} else {}) + Triples(v, es[1..])
  }

  lemma {:induction false} SyncAllIs(v: Environment, graph: set<string>, es: seq<Entry>)
    ensures SyncAll(v, graph, es) == graph + Triples(v, es)
    decreases |es|
  {
    hide Synced;
    if es != [] { SyncAllIs(v, Sync(v, graph, es[0]), es[1..]); }
  }

  // ----- what the reference does to each entry -----

  ghost predicate DistinctIds(es: seq<Entry>) {
    forall i, j :: 0 <= i < j < |es| ==> es[i].id != es[j].id
  }

  lemma {:induction false} SettleAllElsewhere(v: Environment, t: Table, es: seq<Entry>, id: string)
    requires forall i :: 0 <= i < |es| ==> es[i].id != id
    ensures id in t <==> id in SettleAll(v, t, es)
    ensures id in t ==> SettleAll(v, t, es)[id] == t[id]
    ensures SettleAll(v, t, es).Keys == t.Keys
    decreases |es|
  {
    hide Succeeds;
    if es != [] { SettleAllElsewhere(v, Settle(v, t, es[0]), es[1..], id); }
  }

  /** Each entry is settled exactly once: one that succeeds alone ends completed, a toxic one
      gains exactly one retry and fails for good only when that was its last. */
  lemma {:induction false} EachSettledOnce(v: Environment, t: Table, es: seq<Entry>, i: nat)
    requires DistinctIds(es) && i < |es| && es[i].id in t
    ensures es[i].id in SettleAll(v, t, es)
    ensures var before, after := t[es[i].id], SettleAll(v, t, es)[es[i].id];
      if Succeeds(v, es[i]) then after.status == Completed && after.retryCount == before.retryCount
      else && after.retryCount == before.retryCount + 1
           && after.status == if after.retryCount >= v.config.maxRetries then Failed else Pending
    decreases |es|
  {
    hide Succeeds;
    if i == 0 {
      SettleAllElsewhere(v, Settle(v, t, es[0]), es[1..], es[0].id);
    } else {
      assert es[0].id != es[i].id;
      EachSettledOnce(v, Settle(v, t, es[0]), es[1..], i - 1);
    }
  }

  lemma {:induction false} SettleAllKeys(v: Environment, t: Table, es: seq<Entry>)
    ensures SettleAll(v, t, es).Keys == t.Keys
    ensures WellKeyed(t) ==> WellKeyed(SettleAll(v, t, es))
    decreases |es|
  {
    hide Succeeds;
    if es != [] { SettleAllKeys(v, Settle(v, t, es[0]), es[1..]); }
  }

  lemma ProcessSingle(v: Environment, s: Stores, e: Entry)
    ensures ProcessAll(v, s, [e]) == ProcessOne(v, s, e)
  {
    hide ProcessOne;
    assert ProcessAll(v, ProcessOne(v, s, e), [e][1..]) == ProcessOne(v, s, e);
  }

  lemma NothingToProcess(v: Environment, s: Stores, es: seq<Entry>)
    ensures ProcessAll(v, s, es[..0]) == s
  {
  }

  // ----- entries that were handled in a chunk -----

  const FINE: Behaviour := Behaviour(true, true, true, true)

  /** The environment as it showed itself: entries whose chunk passed met no error. */
  function Given(v: Environment, passed: set<string>): Environment {
    v.(alone := (e: Entry) => if e.id in passed then FINE else v.alone(e))
  }

  lemma GivenSucceeds(v: Environment, passed: set<string>, e: Entry)
    ensures Succeeds(Given(v, passed), e) <==> !e.operation.UnknownOperation? && (e.id in passed || Succeeds(v, e))
  {
  }

  /** Only which of the entries passed matters. */
  lemma {:induction false} GivenSame(v: Environment, p: set<string>, q: set<string>, s: Stores, es: seq<Entry>)
    requires forall e :: e in es ==> (e.id in p <==> e.id in q)
    ensures ProcessAll(Given(v, p), s, es) == ProcessAll(Given(v, q), s, es)
    decreases |es|
  {
    if es != [] {
      assert es[0] in es;
      assert ProcessOne(Given(v, p), s, es[0]) == ProcessOne(Given(v, q), s, es[0]);
      hide ProcessOne;
      GivenSame(v, p, q, ProcessOne(Given(v, p), s, es[0]), es[1..]);
    }
  }

  /** If what passed would have succeeded alone, one environment does for both. */
  lemma {:induction false} GivenHarmless(v: Environment, passed: set<string>, s: Stores, es: seq<Entry>)
    requires ValidEnvironment(v) && forall e :: e in es && e.id in passed ==> Succeeds(v, e)
    ensures ProcessAll(Given(v, passed), s, es) == ProcessAll(v, s, es)
    decreases |es|
  {
    if es != [] {
      assert es[0] in es && v.alone(es[0]).Valid();
      assert ProcessOne(Given(v, passed), s, es[0]) == ProcessOne(v, s, es[0]);
      hide ProcessOne;
      GivenHarmless(v, passed, ProcessOne(v, s, es[0]), es[1..]);
    }
  }
}
