/** Which point of the vector store belongs to which row: what the worker writes where, and
    that it is where the rebuild expects it. */
module VectorPoints {
  import opened Options
  import opened Outbox
  import opened OutboxProtocol
  import opened OutboxSingles
  import opened OutboxBatch
  import opened Journal
  import opened ProjectionRecords
  import opened ProjectionMeaning

  /** As uuid5 is taken to be: no two names have one id. */
  ghost predicate Injective(f: string -> string) {
    forall a, b :: f(a) == f(b) ==> a == b
  }

  /** The entry asks for a vector, there is a store to take it, and the write is made. */
  predicate WritesVector(v: Environment, e: Entry) {
    && v.config.embedder && v.config.vectorStore && v.alone(e).vectorWritten
    && (e.operation == IndexFact || (e.operation == IndexBelief && e.payload != ""))
  }

  predicate SameRow(e: Entry, f: Entry) {
    e.operation == f.operation && e.recordId == f.recordId
  }

  /** Entries of facts and beliefs share a point exactly when they are about one row. */
  lemma PointSharedIff(v: Environment, e: Entry, f: Entry)
    requires Injective(v.pointOf) && (e.operation.IndexFact? || e.operation.IndexBelief?) && (f.operation.IndexFact? || f.operation.IndexBelief?)
    ensures Point(v, e) == Point(v, f) <==> SameRow(e, f)
  {
    var a, b := (if e.operation.IndexBelief? then "belief:" else "fact:") + e.recordId, (if f.operation.IndexBelief? then "belief:" else "fact:") + f.recordId;
    assert e.operation != f.operation ==> a[0] != b[0];
    if e.operation == f.operation {
      var k := if e.operation.IndexBelief? then 7 else 5;
      assert a[k..] == e.recordId && b[k..] == f.recordId;
    }
  }

  // ----- one at a time -----

  lemma {:induction false} NotOverwritten(v: Environment, m: map<string, string>, es: seq<Entry>, e: Entry)
    requires Injective(v.pointOf) && (e.operation.IndexFact? || e.operation.IndexBelief?)
    requires forall f :: f in es && WritesVector(v, f) ==> !SameRow(e, f)
    ensures Point(v, e) in m ==> Point(v, e) in UpsertAll(v, m, es) && UpsertAll(v, m, es)[Point(v, e)] == m[Point(v, e)]
    decreases |es|
  {
    if es != [] {
      assert es[0] in es;
      if WritesVector(v, es[0]) { PointSharedIff(v, e, es[0]); }
      hide Point, WritesVector, SameRow, Injective;
      NotOverwritten(v, Upsert(v, m, es[0]), es[1..], e);
    }
  }

  /** The last entry of a row decides what lies at the row's point. */
  lemma {:induction false} LastWriteStays(v: Environment, m: map<string, string>, es: seq<Entry>, i: nat)
    requires Injective(v.pointOf) && i < |es| && WritesVector(v, es[i])
    requires forall j :: i < j < |es| && WritesVector(v, es[j]) ==> !SameRow(es[i], es[j])
    ensures Point(v, es[i]) in UpsertAll(v, m, es) && UpsertAll(v, m, es)[Point(v, es[i])] == es[i].payload
    decreases |es|
  {
    if i == 0 {
      assert Upsert(v, m, es[0]) == m[Point(v, es[0]) := es[0].payload];
      NotOverwritten(v, Upsert(v, m, es[0]), es[1..], es[0]);
    } else {
      hide Point, WritesVector, SameRow, Injective, Upsert;
      LastWriteStays(v, Upsert(v, m, es[0]), es[1..], i - 1);
    }
  }

  /** After the worker has gone through `es`, a row that got a vector has the payload of its
      last entry, at the point named after its kind and id. */
  lemma RowHoldsItsPayload(v: Environment, s: Stores, es: seq<Entry>, i: nat)
    requires Injective(v.pointOf) && i < |es| && WritesVector(v, es[i])
    requires forall j :: i < j < |es| && WritesVector(v, es[j]) ==> !SameRow(es[i], es[j])
    ensures var p := v.pointOf((if es[i].operation == IndexFact then "fact:" else "belief:") + es[i].recordId);
      p in ProcessAll(v, s, es).vectors && ProcessAll(v, s, es).vectors[p] == es[i].payload
  {
    ProcessAllByStore(v, s, es);
    LastWriteStays(v, s.vectors, es, i);
  }

  ghost predicate PointOfEntry(v: Environment, es: seq<Entry>, p: string) {
    exists e :: e in es && WritesVector(v, e) && p == v.pointOf((if e.operation == IndexFact then "fact:" else "belief:") + e.recordId)
  }

  /** Nothing else is written. */
  lemma {:induction false} OnlyTheirPoints(v: Environment, m: map<string, string>, es: seq<Entry>, p: string)
    ensures p in UpsertAll(v, m, es) <==> p in m || PointOfEntry(v, es, p)
    ensures !PointOfEntry(v, es, p) ==> SameAt(UpsertAll(v, m, es), m, p)
    decreases |es|
  {
    if es != [] {
      var rest := es[1..];
      assert es == [es[0]] + rest;
      assert PointOfEntry(v, es, p) <==> PointOfEntry(v, rest, p) || PointOfEntry(v, [es[0]], p);
      assert es[0] in [es[0]];
      OnlyTheirPoints(v, Upsert(v, m, es[0]), rest, p);
      hide UpsertAll;
    }
  }

  // ----- in batches -----

  lemma {:induction false} UnkeptNotPassed(v: Environment, passed: set<string>, es: seq<Entry>, size: nat, attempts: nat -> Attempt, k: nat, w: Write)
    returns (f: Entry)
    requires size >= 1 && DistinctIds(es) && w in JournalOf(v, es, size, attempts, k) && !w.kept
    requires forall e :: e in es ==> (e.id in passed <==> e.id in PassedIds(v, es, size, attempts, k))
    ensures f in es && f.id !in passed && w.key == Point(v, f)
    decreases |es|
  {
    hide Passes, Point;
    var n := Cut(es, size);
    assert es == es[..n] + es[n..];
    PassedOfChunk(v, es, size, attempts, k);
    if w in JournalOf(v, es[n..], size, attempts, k + 1) {
      f := UnkeptNotPassed(v, passed, es[n..], size, attempts, k + 1, w);
    } else {
      f := UnkeptInChunk(v, es[..n], attempts(k), w);
    }
  }

  lemma UnkeptInChunk(v: Environment, chunk: seq<Entry>, a: Attempt, w: Write) returns (f: Entry)
    requires w in ChunkJournal(v, chunk, a) && !w.kept
    ensures f in chunk && w.key == Point(v, f) && !Passes(v.config, a)
  {
    AllKept(v, chunk);
    PartIsPart(chunk, a.upserted);
    assert w in AttemptWrites(v, chunk, a);
    var part := if !a.upsertOk then Part(chunk, a.upserted) else chunk;
    var i :| 0 <= i < |part| && w == WriteOf(v, part[i], false);
    f := part[i];
  }

  /** In a batch of facts about different rows, an entry that succeeds alone or with its chunk
      leaves its own payload at its own point. */
  lemma BatchHoldsEachPayload(v: Environment, s: Stores, es: seq<Entry>, size: nat, attempts: nat -> Attempt, i: nat)
    requires ValidEnvironment(v) && Injective(v.pointOf) && size >= 1 && AllFacts(es) && DistinctIds(es)
    requires v.config.embedder && v.config.vectorStore
    requires i < |es| && forall j :: 0 <= j < |es| && j != i ==> es[j].recordId != es[i].recordId
    requires Succeeds(v, es[i]) || es[i].id in PassedIds(v, es, size, attempts, 0)
    ensures var got, p := RunBatch(v, s, es, size, attempts, 0), v.pointOf("fact:" + es[i].recordId);
      p in got.vectors && got.vectors[p] == es[i].payload
  {
    var passed := PassedIds(v, es, size, attempts, 0);
    var g, journal, p := Given(v, passed), JournalOf(v, es, size, attempts, 0), Point(v, es[i]);
    assert es[i] in es && v.alone(es[i]).Valid();
    NothingLeftAtOwn(v, es, size, attempts, i);
    BatchIs(v, passed, s, es, size, attempts, 0);
    KeptDecides(s.vectors, journal, p);
    UpsertAllReplays(g, s.vectors, es);
    GivenPoint(v, passed, es[i]);
    LastWriteStays(g, s.vectors, es, i);
    hide RunBatch, JournalOf, PassedIds, Replay, Kept, UpsertAll, AloneWrites;
  }

  lemma GivenPoint(v: Environment, passed: set<string>, e: Entry)
    requires v.alone(e).Valid() && e.operation.IndexFact? && v.config.embedder && v.config.vectorStore
    requires Succeeds(v, e) || e.id in passed
    ensures WritesVector(Given(v, passed), e)
    ensures Point(Given(v, passed), e) == Point(v, e) == v.pointOf("fact:" + e.recordId)
  {
  }

  lemma NothingLeftAtOwn(v: Environment, es: seq<Entry>, size: nat, attempts: nat -> Attempt, i: nat)
    requires ValidEnvironment(v) && Injective(v.pointOf) && size >= 1 && AllFacts(es) && DistinctIds(es)
    requires i < |es| && forall j :: 0 <= j < |es| && j != i ==> es[j].recordId != es[i].recordId
    requires Succeeds(v, es[i]) || es[i].id in PassedIds(v, es, size, attempts, 0)
    ensures !LeftAt(JournalOf(v, es, size, attempts, 0), Point(v, es[i]))
  {
    var passed, journal, p := PassedIds(v, es, size, attempts, 0), JournalOf(v, es, size, attempts, 0), Point(v, es[i]);
    hide PassedIds, JournalOf, Point, Succeeds, ValidEnvironment;
    forall f | f in es && Point(v, f) == p ensures f == es[i] {
      PointSharedIff(v, f, es[i]);
      var j :| 0 <= j < |es| && es[j] == f;
    }
    if LeftAt(journal, p) {
      if Succeeds(v, es[i]) {
        LeftOnlyAtToxic(v, es, size, attempts, 0, p);
      } else {
        var n: nat :| IsLast(journal, n) && !journal[n].kept && journal[n].key == p;
        var f := UnkeptNotPassed(v, passed, es, size, attempts, 0, journal[n]);
      }
    }
  }

  // ----- the worker and the rebuild -----

  ghost predicate GetsVector(v: Environment, es: seq<Entry>, operation: Operation, recordId: string) {
    exists e :: e in es && WritesVector(v, e) && e.operation == operation && e.recordId == recordId
  }

  /** The entries that got a vector are about exactly the facts and beliefs to be projected. */
  ghost predicate SameRows(v: Environment, es: seq<Entry>, rows: seq<Record>) {
    && (forall id :: GetsVector(v, es, IndexFact, id) <==> exists r :: r in rows && FactRow(r) && r.recordId == id)
    && (forall id :: GetsVector(v, es, IndexBelief, id) <==> exists r :: r in rows && BeliefRow(r) && r.recordId == id)
  }

  /** A store that the worker alone has filled holds exactly the points the verifier expects
      of these rows: both name a row's point by its kind and id. */
  lemma WorkerAgreesWithRebuild(v: Environment, t: Table, es: seq<Entry>, rows: seq<Record>)
    requires SameRows(v, es, rows)
    ensures ProcessAll(v, Stores(t, map[], {}), es).vectors.Keys == VectorIds(v.pointOf, Ordered(rows))
  {
    ProcessAllByStore(v, Stores(t, map[], {}), es);
    VectorIdsMean(v.pointOf, rows);
    var got, want := UpsertAll(v, map[], es).Keys, VectorIds(v.pointOf, Ordered(rows));
    hide UpsertAll, VectorIds, ProcessAll, FactRow, BeliefRow, WritesVector;
    forall p ensures p in got <==> p in want {
      OnlyTheirPoints(v, map[], es, p);
      if e :| e in es && WritesVector(v, e) && p == v.pointOf((if e.operation == IndexFact then "fact:" else "belief:") + e.recordId) {
        EntryKind(v, e);
        assert GetsVector(v, es, e.operation, e.recordId);
      }
      if p in want {
        if r :| r in rows && FactRow(r) && p == v.pointOf("fact:" + r.recordId) {
          assert GetsVector(v, es, IndexFact, r.recordId);
        } else {
          var r :| r in rows && BeliefRow(r) && p == v.pointOf("belief:" + r.recordId);
          assert GetsVector(v, es, IndexBelief, r.recordId);
        }
      }
    }
  }

  lemma EntryKind(v: Environment, e: Entry)
    requires WritesVector(v, e)
    ensures e.operation == IndexFact || e.operation == IndexBelief
  {
  }
}
