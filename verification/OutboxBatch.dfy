/** Facts processed in chunks, each with one batched call to either provider and a fallback
    to one entry at a time, against processing them all one at a time. */
module OutboxBatch {
  import opened Options
  import opened Outbox
  import opened OutboxProtocol
  import opened OutboxSingles
  import opened Journal

  /** What happens to one chunk. A batched call writes all of it, or the entries named here
      and then fails, whatever its entries do alone; embedding the chunk is part of the upsert. */
  datatype Attempt = Attempt(upserted: set<string>, upsertOk: bool, synced: set<string>, syncOk: bool, commitOk: bool)

  /** The chunk needs no fallback. */
  predicate Passes(c: Config, a: Attempt) {
    (c.embedder ==> a.upsertOk) && (c.graphRouter ==> a.syncOk) && a.commitOk
  }

  predicate AllFacts(es: seq<Entry>) {
    forall e :: e in es ==> e.operation.IndexFact?
  }

  function IdsOf(es: seq<Entry>): set<string> {
    set e | e in es :: e.id
  }

  /** The entries of a chunk that a failing call wrote. */
  function Part(es: seq<Entry>, ids: set<string>): seq<Entry> {
    if es == [] then [] else (if es[0].id in ids then [es[0]] else []) + Part(es[1..], ids)
  }

  // ----- the writes of a chunk -----

  function WriteOf(v: Environment, e: Entry, kept: bool): Write {
    Write(Point(v, e), e.payload, kept)
  }

  /** The points of all these entries. */
  function RawWrites(v: Environment, es: seq<Entry>, kept: bool): (ws: seq<Write>)
    ensures |ws| == |es| && forall i :: 0 <= i < |es| ==> ws[i] == WriteOf(v, es[i], kept)
  {
    seq(|es|, i requires 0 <= i < |es| => WriteOf(v, es[i], kept))
  }

  /** What the entries write when each is handled alone. */
  function AloneWrites(v: Environment, es: seq<Entry>): seq<Write>
    decreases |es|
  {
    if es == [] then [] else (if Vectored(v, es[0]) then [WriteOf(v, es[0], true)] else []) + AloneWrites(v, es[1..])
  }

  /** What the batched upsert writes; `kept` if the chunk passes. */
  function AttemptWrites(v: Environment, chunk: seq<Entry>, a: Attempt): seq<Write> {
    if !Upserts(v.config) then []
    else if !a.upsertOk then RawWrites(v, Part(chunk, a.upserted), false)
    else RawWrites(v, chunk, Passes(v.config, a))
  }

  function Payloads(es: seq<Entry>): set<string> {
    set e | e in es :: e.payload
  }

  /** What the batched sync writes. */
  function AttemptTriples(v: Environment, chunk: seq<Entry>, a: Attempt): set<string> {
    if !v.config.graphRouter || (v.config.embedder && !a.upsertOk) then {}
    else if !a.syncOk then Payloads(Part(chunk, a.synced))
    else Payloads(chunk)
  }

  function AfterAttempt(v: Environment, s: Stores, chunk: seq<Entry>, a: Attempt): Stores {
    s.(vectors := Replay(s.vectors, AttemptWrites(v, chunk, a)), graph := s.graph + AttemptTriples(v, chunk, a))
  }

  function CompleteAll(t: Table, es: seq<Entry>, now: int): Table
    decreases |es|
  {
    if es == [] then t else CompleteAll(MarkCompleted(t, es[0].id, now), es[1..], now)
  }

  function ChunkResult(v: Environment, s: Stores, chunk: seq<Entry>, a: Attempt): Stores {
    var after := AfterAttempt(v, s, chunk, a);
    if Passes(v.config, a) then after.(entries := CompleteAll(s.entries, chunk, v.now))
    else ProcessAll(v, after, chunk)
  }

  // ----- the whole batch -----

  function Cut(es: seq<Entry>, size: nat): (n: nat)
    requires size >= 1
    ensures n <= |es| && (es != [] ==> n >= 1)
  {
    if size <= |es| then size else |es|
  }

  function RunBatch(v: Environment, s: Stores, es: seq<Entry>, size: nat, attempts: nat -> Attempt, k: nat): Stores
    requires size >= 1
    decreases |es|
  {
    if es == [] then s
    else RunBatch(v, ChunkResult(v, s, es[..Cut(es, size)], attempts(k)), es[Cut(es, size)..], size, attempts, k + 1)
  }

  /** The entries whose chunk passes. */
  function PassedIds(v: Environment, es: seq<Entry>, size: nat, attempts: nat -> Attempt, k: nat): set<string>
    requires size >= 1
    decreases |es|
  {
    if es == [] then {}
    else (if Passes(v.config, attempts(k)) then IdsOf(es[..Cut(es, size)]) else {}) + PassedIds(v, es[Cut(es, size)..], size, attempts, k + 1)
  }

  function ChunkJournal(v: Environment, chunk: seq<Entry>, a: Attempt): seq<Write> {
    AttemptWrites(v, chunk, a) + if Passes(v.config, a) then [] else AloneWrites(v, chunk)
  }

  /** All writes to the vector store in order; those of failed batched calls are not kept. */
  function JournalOf(v: Environment, es: seq<Entry>, size: nat, attempts: nat -> Attempt, k: nat): seq<Write>
    requires size >= 1
    decreases |es|
  {
    if es == [] then []
    else
      ChunkJournal(v, es[..Cut(es, size)], attempts(k)) + JournalOf(v, es[Cut(es, size)..], size, attempts, k + 1)
  }

  /** The triples written by chunks that did not pass. */
  function Strays(v: Environment, es: seq<Entry>, size: nat, attempts: nat -> Attempt, k: nat): set<string>
    requires size >= 1
    decreases |es|
  {
    if es == [] then {}
    else
      (if Passes(v.config, attempts(k)) then {} else AttemptTriples(v, es[..Cut(es, size)], attempts(k))) +
      Strays(v, es[Cut(es, size)..], size, attempts, k + 1)
  }

  // ----- one chunk against the reference -----

  lemma {:induction false} UpsertAllReplays(v: Environment, m: Store, es: seq<Entry>)
    ensures UpsertAll(v, m, es) == Replay(m, AloneWrites(v, es))
    decreases |es|
  {
    hide Vectored, Point;
    if es != [] {
      var first := if Vectored(v, es[0]) then [WriteOf(v, es[0], true)] else [];
      ReplayAppend(m, first, AloneWrites(v, es[1..]));
      UpsertAllReplays(v, Upsert(v, m, es[0]), es[1..]);
      assert first != [] ==> first[..0] == [];
    }
  }

  lemma {:induction false} KeptIsKept(v: Environment, es: seq<Entry>)
    ensures Kept(AloneWrites(v, es)) == AloneWrites(v, es)
    decreases |es|
  {
    hide Vectored, Point;
    if es != [] {
      var first := if Vectored(v, es[0]) then [WriteOf(v, es[0], true)] else [];
      ReplayAppend(map[], first, AloneWrites(v, es[1..]));
      assert first != [] ==> first[..0] == [] && Kept(first) == [] + [first[0]] == first;
      KeptIsKept(v, es[1..]);
    }
  }

  lemma {:induction false} RawKept(v: Environment, es: seq<Entry>, kept: bool)
    ensures Kept(RawWrites(v, es, kept)) == if kept then RawWrites(v, es, kept) else []
    decreases |es|
  {
    hide WriteOf;
    if es != [] {
      var n := |es| - 1;
      assert RawWrites(v, es, kept)[..n] == RawWrites(v, es[..n], kept);
      assert WriteOf(v, es[n], kept).kept == kept by { KeptFlag(v, es[n], kept); }
      RawKept(v, es[..n], kept);
    }
  }

  lemma KeptFlag(v: Environment, e: Entry, kept: bool)
    ensures WriteOf(v, e, kept).kept == kept
  {
  }

  lemma PassedOne(v: Environment, passed: set<string>, e: Entry)
    requires e.operation.IndexFact? && e.id in passed
    ensures Vectored(Given(v, passed), e) <==> Upserts(v.config)
    ensures Synced(Given(v, passed), e) <==> v.config.graphRouter
    ensures WriteOf(Given(v, passed), e, true) == WriteOf(v, e, true)
  {
  }

  /** Entries of a chunk that passed write as if each had been handled alone without error. */
  lemma {:induction false} PassedWrites(v: Environment, passed: set<string>, es: seq<Entry>)
    requires AllFacts(es) && forall e :: e in es ==> e.id in passed
    ensures AloneWrites(Given(v, passed), es) == if Upserts(v.config) then RawWrites(v, es, true) else []
    decreases |es|
  {
    hide Vectored, WriteOf, Given;
    if es != [] {
      assert es[0] in es;
      PassedOne(v, passed, es[0]);
      PassedWrites(v, passed, es[1..]);
      assert RawWrites(v, es, true) == [WriteOf(v, es[0], true)] + RawWrites(v, es[1..], true);
    }
  }

  lemma {:induction false} PassedTriples(v: Environment, passed: set<string>, es: seq<Entry>)
    requires AllFacts(es) && forall e :: e in es ==> e.id in passed
    ensures Triples(Given(v, passed), es) == if v.config.graphRouter then Payloads(es) else {}
    decreases |es|
  {
    hide Synced, Given;
    if es != [] {
      assert es[0] in es;
      PassedOne(v, passed, es[0]);
      PassedTriples(v, passed, es[1..]);
      assert es == [es[0]] + es[1..];
      assert Payloads(es) == {es[0].payload} + Payloads(es[1..]);
    }
  }

  lemma {:induction false} PassedSettles(v: Environment, passed: set<string>, t: Table, es: seq<Entry>)
    requires AllFacts(es) && forall e :: e in es ==> e.id in passed
    ensures SettleAll(Given(v, passed), t, es) == CompleteAll(t, es, v.now)
    decreases |es|
  {
    if es != [] {
      assert es[0] in es;
      GivenSucceeds(v, passed, es[0]);
      hide Succeeds, MarkCompleted;
      PassedSettles(v, passed, MarkCompleted(t, es[0].id, v.now), es[1..]);
    }
  }

  lemma {:induction false} FailedWrites(v: Environment, passed: set<string>, es: seq<Entry>)
    requires forall e :: e in es ==> e.id !in passed
    ensures AloneWrites(Given(v, passed), es) == AloneWrites(v, es)
    ensures Triples(Given(v, passed), es) == Triples(v, es)
    ensures forall t :: SettleAll(Given(v, passed), t, es) == SettleAll(v, t, es)
    decreases |es|
  {
    if es != [] {
      assert es[0] in es;
      FailedWrites(v, passed, es[1..]);
      assert WriteOf(Given(v, passed), es[0], true) == WriteOf(v, es[0], true);
    }
  }

  /** One chunk, where `passed` tells whether it needed its fallback. */
  lemma ChunkIs(v: Environment, passed: set<string>, s: Stores, chunk: seq<Entry>, a: Attempt)
    requires AllFacts(chunk) && forall e :: e in chunk ==> (e.id in passed <==> Passes(v.config, a))
    ensures var got, g := ChunkResult(v, s, chunk, a), Given(v, passed);
      && got.entries == SettleAll(g, s.entries, chunk)
      && got.vectors == Replay(s.vectors, ChunkJournal(v, chunk, a))
      && Kept(ChunkJournal(v, chunk, a)) == AloneWrites(g, chunk)
      && got.graph == s.graph + Triples(g, chunk) + (if Passes(v.config, a) then {} else AttemptTriples(v, chunk, a))
  {
    var after := AfterAttempt(v, s, chunk, a);
    hide RawWrites, AloneWrites, Triples, SettleAll, CompleteAll, Replay, Kept, Given, Part;
    ReplayAppend(s.vectors, AttemptWrites(v, chunk, a), if Passes(v.config, a) then [] else AloneWrites(v, chunk));
    RawKept(v, chunk, Passes(v.config, a));
    RawKept(v, Part(chunk, a.upserted), false);
    KeptIsKept(v, chunk);
    KeptNothing();
    if Passes(v.config, a) {
      PassedWrites(v, passed, chunk);
      PassedTriples(v, passed, chunk);
      PassedSettles(v, passed, s.entries, chunk);
    } else {
      FailedWrites(v, passed, chunk);
      ProcessAllByStore(v, after, chunk);
      UpsertAllReplays(v, after.vectors, chunk);
      SyncAllIs(v, after.graph, chunk);
    }
  }

  lemma KeptNothing()
    ensures Kept([]) == [] && forall m: Store :: Replay(m, []) == m
  {
  }

  lemma {:induction false} AloneWritesAppend(v: Environment, a: seq<Entry>, b: seq<Entry>)
    ensures AloneWrites(v, a + b) == AloneWrites(v, a) + AloneWrites(v, b)
    ensures Triples(v, a + b) == Triples(v, a) + Triples(v, b)
    ensures forall t :: SettleAll(v, t, a + b) == SettleAll(v, SettleAll(v, t, a), b)
    decreases |a|
  {
    hide Vectored, Synced, WriteOf, Settle;
    if a == [] {
      assert a + b == b;
    } else {
      assert (a + b)[1..] == a[1..] + b;
      AloneWritesAppend(v, a[1..], b);
    }
  }

  lemma {:induction false} PassedAreTheirs(v: Environment, es: seq<Entry>, size: nat, attempts: nat -> Attempt, k: nat)
    requires size >= 1
    ensures PassedIds(v, es, size, attempts, k) <= IdsOf(es)
    decreases |es|
  {
    if es != [] {
      var n := Cut(es, size);
      PassedAreTheirs(v, es[n..], size, attempts, k + 1);
      assert es == es[..n] + es[n..];
    }
  }

  lemma PassedOfChunk(v: Environment, es: seq<Entry>, size: nat, attempts: nat -> Attempt, k: nat)
    requires size >= 1 && es != [] && DistinctIds(es)
    ensures forall e :: e in es[..Cut(es, size)] ==> (e.id in PassedIds(v, es, size, attempts, k) <==> Passes(v.config, attempts(k)))
    ensures forall e :: e in es[Cut(es, size)..] ==> (e.id in PassedIds(v, es, size, attempts, k) <==> e.id in PassedIds(v, es[Cut(es, size)..], size, attempts, k + 1))
    ensures DistinctIds(es[Cut(es, size)..])
  {
    var n := Cut(es, size);
    PassedAreTheirs(v, es[n..], size, attempts, k + 1);
    hide Passes;
    forall e, f | e in es[..n] && f in es[n..] ensures e.id != f.id {
      var i :| 0 <= i < n && es[..n][i] == e;
      var j :| 0 <= j < |es| - n && es[n..][j] == f;
      assert es[i] == e && es[n + j] == f;
    }
  }

  /** The batch: every entry is settled once, by its chunk or alone; the vector store holds
      what the journal writes, whose kept part is what the entries write one at a time; the
      graph holds their triples and the strays. */
  lemma {:induction false} BatchIs(v: Environment, passed: set<string>, s: Stores, es: seq<Entry>, size: nat,
                                   attempts: nat -> Attempt, k: nat)
    requires size >= 1 && AllFacts(es) && DistinctIds(es)
    requires forall e :: e in es ==> (e.id in passed <==> e.id in PassedIds(v, es, size, attempts, k))
    ensures var got, g := RunBatch(v, s, es, size, attempts, k), Given(v, passed);
      && got.entries == SettleAll(g, s.entries, es)
      && got.vectors == Replay(s.vectors, JournalOf(v, es, size, attempts, k))
      && Kept(JournalOf(v, es, size, attempts, k)) == AloneWrites(g, es)
      && got.graph == s.graph + Triples(g, es) + Strays(v, es, size, attempts, k)
    decreases |es|
  {
    hide ChunkResult, ChunkJournal, AttemptTriples, Given, Passes;
    var n := Cut(es, size);
    var chunk, rest, g := es[..n], es[n..], Given(v, passed);
    KeptNothing();
    if es != [] {
      assert es == chunk + rest;
      PassedOfChunk(v, es, size, attempts, k);
      ChunkIs(v, passed, s, chunk, attempts(k));
      BatchIs(v, passed, ChunkResult(v, s, chunk, attempts(k)), rest, size, attempts, k + 1);
      AloneWritesAppend(g, chunk, rest);
      ReplayAppend(s.vectors, ChunkJournal(v, chunk, attempts(k)), JournalOf(v, rest, size, attempts, k + 1));
      hide SettleAll, Triples, AloneWrites, Replay, Kept, DistinctIds;
    }
  }

  // ----- what a failed batched call leaves behind -----

  /** The points of entries that fail alone. */
  function ToxicPoints(v: Environment, es: seq<Entry>): set<string> {
    set e | e in es && !Succeeds(v, e) :: Point(v, e)
  }

  function ToxicPayloads(v: Environment, es: seq<Entry>): set<string> {
    set e | e in es && !Succeeds(v, e) :: e.payload
  }

  lemma {:induction false} AloneWriteAt(v: Environment, es: seq<Entry>, e: Entry)
    requires e in es && Vectored(v, e)
    ensures WriteOf(v, e, true) in AloneWrites(v, es)
    decreases |es|
  {
    hide Vectored, WriteOf;
    if es[0] != e {
      assert e in es[1..];
      AloneWriteAt(v, es[1..], e);
    }
  }

  lemma {:induction false} PartIsPart(es: seq<Entry>, ids: set<string>)
    ensures forall e :: e in Part(es, ids) ==> e in es
  {
    if es != [] { PartIsPart(es[1..], ids); }
  }

  lemma {:induction false} AllKept(v: Environment, es: seq<Entry>)
    ensures forall w :: w in AloneWrites(v, es) ==> w.kept
    decreases |es|
  {
    if es != [] { AllKept(v, es[1..]); }
  }

  /** A left-over write is in the second part, or in the first under a key the second lacks. */
  lemma LeftAtSplit(a: seq<Write>, b: seq<Write>, key: string)
    requires LeftAt(a + b, key)
    ensures LeftAt(b, key) || (LeftAt(a, key) && forall w :: w in b ==> w.key != key)
  {
    var ws := a + b;
    var i: nat :| IsLast(ws, i) && !ws[i].kept && ws[i].key == key;
    if i < |a| {
      assert forall j :: 0 <= j < |a| ==> a[j] == ws[j];
      assert IsLast(a, i);
      forall w | w in b ensures w.key != key {
        var j :| 0 <= j < |b| && b[j] == w;
        assert ws[|a| + j] == w;
      }
    } else {
      var j := i - |a|;
      assert b[j] == ws[i];
      forall l: nat | j < l < |b| ensures b[l].key != b[j].key { assert ws[|a| + l] == b[l]; }
      assert IsLast(b, j) && b[j] == ws[i];
    }
  }

  lemma NeverWrittenIsToxic(v: Environment, e: Entry)
    requires ValidEnvironment(v) && Upserts(v.config) && e.operation.IndexFact? && !Vectored(v, e)
    ensures !Succeeds(v, e)
  {
    assert v.alone(e).Valid();
  }

  lemma NotWrittenAlone(v: Environment, es: seq<Entry>, e: Entry)
    requires e in es && forall w :: w in AloneWrites(v, es) ==> w.key != Point(v, e)
    ensures !Vectored(v, e)
  {
    if Vectored(v, e) { AloneWriteAt(v, es, e); }
  }

  lemma LeftInChunk(v: Environment, chunk: seq<Entry>, a: Attempt, key: string)
    requires ValidEnvironment(v) && AllFacts(chunk) && LeftAt(ChunkJournal(v, chunk, a), key)
    ensures key in ToxicPoints(v, chunk)
  {
    var first, second := AttemptWrites(v, chunk, a), if Passes(v.config, a) then [] else AloneWrites(v, chunk);
    LeftAtSplit(first, second, key);
    AllKept(v, chunk);
    PartIsPart(chunk, a.upserted);
    hide AloneWrites, Part, ValidEnvironment, Succeeds, Vectored;
    assert !LeftAt(second, key);
    var i: nat :| IsLast(first, i) && !first[i].kept && first[i].key == key;
    var e := if !a.upsertOk then Part(chunk, a.upserted)[i] else chunk[i];
    assert e in chunk && first[i] == WriteOf(v, e, false);
    NotWrittenAlone(v, chunk, e);
    NeverWrittenIsToxic(v, e);
  }

  /** What the batched calls leave in the vector store lies at points of toxic entries. */
  lemma {:induction false} LeftOnlyAtToxic(v: Environment, es: seq<Entry>, size: nat, attempts: nat -> Attempt, k: nat, key: string)
    requires ValidEnvironment(v) && size >= 1 && AllFacts(es) && LeftAt(JournalOf(v, es, size, attempts, k), key)
    ensures key in ToxicPoints(v, es)
    decreases |es|
  {
    hide ValidEnvironment, ChunkJournal, Succeeds, Point;
    var n := Cut(es, size);
    var first, second := ChunkJournal(v, es[..n], attempts(k)), JournalOf(v, es[n..], size, attempts, k + 1);
    assert es == es[..n] + es[n..];
    LeftAtSplit(first, second, key);
    if LeftAt(second, key) {
      LeftOnlyAtToxic(v, es[n..], size, attempts, k + 1, key);
    } else {
      LeftInChunk(v, es[..n], attempts(k), key);
    }
  }

  lemma StrayInChunk(v: Environment, chunk: seq<Entry>, a: Attempt, x: string)
    requires ValidEnvironment(v) && AllFacts(chunk) && x in AttemptTriples(v, chunk, a)
    ensures x in Triples(v, chunk) || x in ToxicPayloads(v, chunk)
  {
    PartIsPart(chunk, a.synced);
    var e :| e in chunk && e.payload == x;
    assert v.alone(e).Valid();
    if Synced(v, e) { TripleOf(v, chunk, e); }
  }

  lemma {:induction false} TripleOf(v: Environment, es: seq<Entry>, e: Entry)
    requires e in es && Synced(v, e)
    ensures e.payload in Triples(v, es)
    decreases |es|
  {
    hide Synced;
    if es[0] != e { TripleOf(v, es[1..], e); }
  }

  /** What the batched calls leave in the graph are triples of toxic entries. */
  lemma {:induction false} StraysAreToxic(v: Environment, passed: set<string>, es: seq<Entry>, size: nat, attempts: nat -> Attempt, k: nat, x: string)
    requires ValidEnvironment(v) && size >= 1 && AllFacts(es) && DistinctIds(es) && x in Strays(v, es, size, attempts, k)
    requires forall e :: e in es ==> (e.id in passed <==> e.id in PassedIds(v, es, size, attempts, k))
    ensures x in Triples(Given(v, passed), es) || x in ToxicPayloads(v, es)
    decreases |es|
  {
    hide ValidEnvironment, AttemptTriples, Succeeds, Passes, Given;
    var n := Cut(es, size);
    var chunk, rest, g := es[..n], es[n..], Given(v, passed);
    assert es == chunk + rest;
    PassedOfChunk(v, es, size, attempts, k);
    AloneWritesAppend(g, chunk, rest);
    hide Triples, DistinctIds;
    if x in Strays(v, rest, size, attempts, k + 1) {
      StraysAreToxic(v, passed, rest, size, attempts, k + 1, x);
    } else {
      StrayInChunk(v, chunk, attempts(k), x);
      FailedWrites(v, passed, chunk);
    }
  }

  // ----- the batch against one at a time -----

  /** The reference: all entries one at a time, those of passed chunks without error. */
  function Singles(v: Environment, s: Stores, es: seq<Entry>, size: nat, attempts: nat -> Attempt): Stores
    requires size >= 1
  {
    ProcessAll(Given(v, PassedIds(v, es, size, attempts, 0)), s, es)
  }

  /** Whatever a failing call wrote last is what the reference leaves there anyway. */
  ghost predicate NoLeftovers(v: Environment, s: Stores, es: seq<Entry>, size: nat, attempts: nat -> Attempt)
    requires size >= 1
  {
    && NothingLeft(s.vectors, JournalOf(v, es, size, attempts, 0))
    && Strays(v, es, size, attempts, 0) <= Singles(v, s, es, size, attempts).graph
  }

  /** Whatever subsets the batched calls write before they fail: the table is that of one at a
      time, the vector store is so off the points of toxic entries, the graph has no triple
      too few and only triples of toxic entries too many. All is equal exactly when no
      left-over remains. */
  lemma BatchAgainstSingles(v: Environment, s: Stores, es: seq<Entry>, size: nat, attempts: nat -> Attempt)
    requires ValidEnvironment(v) && size >= 1 && AllFacts(es) && DistinctIds(es)
    ensures var got, singles := RunBatch(v, s, es, size, attempts, 0), Singles(v, s, es, size, attempts);
      && got.entries == singles.entries
      && (forall p :: p !in ToxicPoints(v, es) ==> SameAt(got.vectors, singles.vectors, p))
      && singles.graph <= got.graph <= singles.graph + ToxicPayloads(v, es)
      && (got == singles <==> NoLeftovers(v, s, es, size, attempts))
  {
    var passed := PassedIds(v, es, size, attempts, 0);
    var g, journal := Given(v, passed), JournalOf(v, es, size, attempts, 0);
    var got, singles := RunBatch(v, s, es, size, attempts, 0), Singles(v, s, es, size, attempts);
    BatchIs(v, passed, s, es, size, attempts, 0);
    ProcessAllByStore(g, s, es);
    UpsertAllReplays(g, s.vectors, es);
    SyncAllIs(g, s.graph, es);
    ReplaysEqualIff(s.vectors, journal);
    hide RunBatch, Given, JournalOf, ToxicPoints, ToxicPayloads, Replay, Kept, NothingLeft, ValidEnvironment, PassedIds, Strays, AloneWrites, Triples, SettleAll;
    forall p | p !in ToxicPoints(v, es) ensures SameAt(got.vectors, singles.vectors, p) {
      if LeftAt(journal, p) { LeftOnlyAtToxic(v, es, size, attempts, 0, p); }
      KeptDecides(s.vectors, journal, p);
    }
    forall x | x in got.graph ensures x in singles.graph + ToxicPayloads(v, es) {
      if x in Strays(v, es, size, attempts, 0) { StraysAreToxic(v, passed, es, size, attempts, 0, x); }
    }
  }

  /** Every entry is settled exactly once: one that succeeds alone, or whose chunk passes,
      ends completed; any other gains exactly one retry. */
  lemma BatchSettlesEach(v: Environment, s: Stores, es: seq<Entry>, size: nat, attempts: nat -> Attempt, i: nat)
    requires ValidEnvironment(v) && size >= 1 && AllFacts(es) && DistinctIds(es) && i < |es| && es[i].id in s.entries
    ensures es[i].id in RunBatch(v, s, es, size, attempts, 0).entries
    ensures var before, after := s.entries[es[i].id], RunBatch(v, s, es, size, attempts, 0).entries[es[i].id];
      if Succeeds(v, es[i]) || es[i].id in PassedIds(v, es, size, attempts, 0)
      then after.status == Completed && after.retryCount == before.retryCount
      else after.retryCount == before.retryCount + 1 && after.status == if after.retryCount >= v.config.maxRetries then Failed else Pending
  {
    var passed := PassedIds(v, es, size, attempts, 0);
    BatchIs(v, passed, s, es, size, attempts, 0);
    EachSettledOnce(Given(v, passed), s.entries, es, i);
    GivenSucceeds(v, passed, es[i]);
    hide RunBatch, PassedIds, SettleAll, Succeeds;
    assert es[i] in es;
  }

  /** If chunks pass only when all their entries succeed alone, the reference is plain
      one-at-a-time processing. */
  lemma SinglesArePlain(v: Environment, s: Stores, es: seq<Entry>, size: nat, attempts: nat -> Attempt)
    requires ValidEnvironment(v) && size >= 1
    requires forall e :: e in es && e.id in PassedIds(v, es, size, attempts, 0) ==> Succeeds(v, e)
    ensures Singles(v, s, es, size, attempts) == ProcessAll(v, s, es)
  {
    GivenHarmless(v, PassedIds(v, es, size, attempts, 0), s, es);
  }

  lemma NoAloneWrites(v: Environment, e: Entry)
    requires !v.alone(e).vectorWritten
    ensures AloneWrites(v, [e]) == []
  {
    assert !Vectored(v, e) && [e][1..] == [];
    assert AloneWrites(v, []) == [];
  }

  /** A left-over that remains: a fact whose own upserts fail before they write, in a chunk
      whose batched upsert fails after it wrote. */
  lemma LeftoverRemains(e: Entry, t: Table) returns (v: Environment, attempts: nat -> Attempt)
    requires e.operation.IndexFact? && e.id in t
    ensures ValidEnvironment(v) && !Succeeds(v, e)
    ensures var s := Stores(t, map[], {});
      && Point(v, e) in RunBatch(v, s, [e], 1, attempts, 0).vectors
      && Point(v, e) !in Singles(v, s, [e], 1, attempts).vectors
      && !NoLeftovers(v, s, [e], 1, attempts)
  {
    v := Environment(Config(true, true, false, 3), id => id, (x: Entry) => Behaviour(false, false, false, false), (x: Entry) => "error", 0);
    attempts := (k: nat) => Attempt({e.id}, false, {}, true, true);
    var s, g := Stores(t, map[], {}), Given(v, {});
    assert [e][..1] == [e] && [e][1..] == [];
    assert PassedIds(v, [e], 1, attempts, 0) == {};
    assert Part([e], {e.id}) == [e];
    var w := RawWrites(v, [e], false);
    assert w == [WriteOf(v, e, false)];
    NoAloneWrites(v, e);
    FailedWrites(v, {}, [e]);
    assert AloneWrites(g, [e]) == [];
    LastDecides(s.vectors, w, 0);
    assert JournalOf(v, [e], 1, attempts, 0) == w + [] + [] == w;
    BatchIs(v, {}, s, [e], 1, attempts, 0);
    ProcessAllByStore(g, s, [e]);
    UpsertAllReplays(g, s.vectors, [e]);
    KeptNothing();
    BatchAgainstSingles(v, s, [e], 1, attempts);
    hide RunBatch, Replay, JournalOf, NoLeftovers;
  }
}
