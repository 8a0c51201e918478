/** storage/outbox_worker.py on one worker: single entries, chunks with their fallback, and
    polling until the queue is empty. */
module OutboxPolling {
  import opened Options
  import opened Outbox
  import opened OutboxProtocol
  import opened OutboxSingles
  import opened OutboxBatch
  import opened Journal

  // ----- the worker -----

  class OutboxWorker {
    const env: Environment
    const chunkSize: nat
    var stores: Stores

    constructor (env: Environment, chunkSize: nat, stores: Stores)
      ensures this.env == env && this.chunkSize == chunkSize && this.stores == stores
    {
      this.env, this.chunkSize, this.stores := env, chunkSize, stores;
    }

    /** _process_entry; the status string it returns. */
    method ProcessEntry(e: Entry) returns (status: Status)
      modifies this
      ensures stores == ProcessOne(env, old(stores), e)
      ensures status == if Succeeds(env, e) then Completed
                        else if e.id in old(stores).entries && old(stores).entries[e.id].retryCount + 1 >= env.config.maxRetries then Failed
                        else Pending
    {
      var raised, does := false, env.alone(e);
      match e.operation {
      case IndexFact =>
        if env.config.embedder {
          if env.config.vectorStore && does.vectorWritten {
            stores := stores.(vectors := stores.vectors[env.pointOf("fact:" + e.recordId) := e.payload]);
          }
          raised := !does.vectorOk;
        }
        if !raised && env.config.graphRouter {
          raised := SyncGraph(e.payload, does);
        }
      case IndexBelief =>
        if env.config.embedder && e.payload != "" {
          if env.config.vectorStore && does.vectorWritten {
            stores := stores.(vectors := stores.vectors[env.pointOf("belief:" + e.recordId) := e.payload]);
          }
          raised := !does.vectorOk;
        }
      case IndexDecision =>
        if env.config.graphRouter {
          raised := SyncGraph(e.payload, does);
        }
      case IndexSkill =>
        if env.config.graphRouter {
          raised := SyncGraph(e.payload, does);
        }
      case UnknownOperation =>
        raised := true;
      }
      if !raised {
        stores := stores.(entries := MarkCompleted(stores.entries, e.id, env.now));
        return Completed;
      }
      stores := stores.(entries := IncrementRetry(stores.entries, e.id, env.messageOf(e)));
      var count := if e.id in stores.entries then stores.entries[e.id].retryCount else -1;
      if count >= env.config.maxRetries {
        stores := stores.(entries := MarkFailed(stores.entries, e.id, env.messageOf(e), env.now));
        return Failed;
      }
      return Pending;
    }

    /** One call of the graph router; true when it raised. */
    method SyncGraph(payload: string, does: Behaviour) returns (raised: bool)
      modifies this
      ensures raised == !does.graphOk
      ensures stores == old(stores).(graph := old(stores).graph + if does.graphWritten then {payload} else {})
    {
      if does.graphWritten {
        stores := stores.(graph := stores.graph + {payload});
      }
      assert !does.graphWritten ==> stores.graph == stores.graph + {};
      raised := !does.graphOk;
    }

    /** The points these facts go to, written in order. */
    method UpsertBatch(es: seq<Entry>, ghost kept: bool)
      requires AllFacts(es)
      modifies this
      ensures stores == old(stores).(vectors := Replay(old(stores).vectors, RawWrites(env, es, kept)))
    {
      ghost var ws := RawWrites(env, es, kept);
      hide RawWrites;
      for i := 0 to |es|
        invariant stores == old(stores).(vectors := Replay(old(stores).vectors, ws[..i]))
      {
        assert ws[..i + 1][..i] == ws[..i];
        assert es[i] in es;
        stores := stores.(vectors := stores.vectors[env.pointOf("fact:" + es[i].recordId) := es[i].payload]);
      }
      assert ws[..|es|] == ws;
    }

    /** _process_fact_chunk: one batched upsert, one batched sync; false when either raised. */
    method ProcessFactChunk(chunk: seq<Entry>, attempt: Attempt) returns (ok: bool)
      requires AllFacts(chunk)
      modifies this
      ensures ok <==> (env.config.embedder ==> attempt.upsertOk) && (env.config.graphRouter ==> attempt.syncOk)
      ensures stores == AfterAttempt(env, old(stores), chunk, attempt)
    {
      if env.config.embedder {
        if env.config.vectorStore {
          PartIsPart(chunk, attempt.upserted);
          UpsertBatch(if attempt.upsertOk then chunk else Part(chunk, attempt.upserted), Passes(env.config, attempt));
        }
        if !attempt.upsertOk {
          assert stores.graph == stores.graph + {};
          return false;
        }
      }
      if env.config.graphRouter {
        var written := if attempt.syncOk then chunk else Part(chunk, attempt.synced);
        stores := stores.(graph := stores.graph + Payloads(written));
        return attempt.syncOk;
      }
      return true;
    }

    method CompleteChunk(chunk: seq<Entry>)
      modifies this
      ensures stores == old(stores).(entries := CompleteAll(old(stores).entries, chunk, env.now))
    {
      hide MarkCompleted;
      for i := 0 to |chunk|
        invariant stores.vectors == old(stores).vectors && stores.graph == old(stores).graph
        invariant CompleteAll(stores.entries, chunk[i..], env.now) == CompleteAll(old(stores).entries, chunk, env.now)
      {
        assert chunk[i..][1..] == chunk[i + 1..];
        stores := stores.(entries := MarkCompleted(stores.entries, chunk[i].id, env.now));
      }
    }

    method ProcessEach(es: seq<Entry>)
      modifies this
      ensures stores == ProcessAll(env, old(stores), es)
    {
      hide ProcessOne;
      for i := 0 to |es|
        invariant ProcessAll(env, stores, es[i..]) == ProcessAll(env, old(stores), es)
      {
        assert es[i..][1..] == es[i + 1..];
        var _ := ProcessEntry(es[i]);
      }
    }

    /** _process_fact_batch: against one-at-a-time processing, the same table; the same vector
        store off the points of toxic entries; the same graph but for triples of toxic
        entries; and all the same exactly when no failed call left anything behind. */
    method ProcessFactBatch(es: seq<Entry>, attempts: nat -> Attempt)
      requires ValidEnvironment(env) && chunkSize >= 1 && AllFacts(es) && DistinctIds(es)
      modifies this
      ensures stores == RunBatch(env, old(stores), es, chunkSize, attempts, 0)
      ensures stores.entries == Singles(env, old(stores), es, chunkSize, attempts).entries
      ensures forall p :: p !in ToxicPoints(env, es) ==> SameAt(stores.vectors, Singles(env, old(stores), es, chunkSize, attempts).vectors, p)
      ensures Singles(env, old(stores), es, chunkSize, attempts).graph <= stores.graph <= Singles(env, old(stores), es, chunkSize, attempts).graph + ToxicPayloads(env, es)
      ensures stores == Singles(env, old(stores), es, chunkSize, attempts) <==> NoLeftovers(env, old(stores), es, chunkSize, attempts)
    {
      hide ProcessAll, Singles, NoLeftovers, ValidEnvironment, AttemptWrites, AttemptTriples, CompleteAll, ToxicPoints, ToxicPayloads, Replay;
      BatchAgainstSingles(env, stores, es, chunkSize, attempts);
      var start, k: nat := 0, 0;
      assert es[0..] == es;
      while start < |es|
        invariant 0 <= start <= |es|
        invariant RunBatch(env, stores, es[start..], chunkSize, attempts, k) == RunBatch(env, old(stores), es, chunkSize, attempts, 0)
      {
        var end := if start + chunkSize <= |es| then start + chunkSize else |es|;
        var chunk := es[start..end];
        assert Cut(es[start..], chunkSize) == end - start;
        assert es[start..][..end - start] == chunk && es[start..][end - start..] == es[end..];
        var ok := ProcessFactChunk(chunk, attempts(k));
        if ok && attempts(k).commitOk {
          CompleteChunk(chunk);
        } else {
          ProcessEach(chunk);
        }
        start, k := end, k + 1;
      }
    }

    /** Claims the candidates and returns their rows, in whatever order the store does. */
    method ClaimPending(limit: nat) returns (rows: seq<Entry>)
      requires WellKeyed(stores.entries)
      modifies this
      ensures stores == ClaimAll(old(stores), limit, env.now)
      ensures Returned(stores.entries, Candidates(old(stores).entries, limit), rows)
    {
      var ids := Candidates(stores.entries, limit);
      CandidatesArePending(stores.entries, limit);
      hide Candidates;
      stores := stores.(entries := Claim(stores.entries, ids, env.now));
      ClaimedRows(old(stores).entries, ids, env.now);
      rows := ReadBack(stores.entries, ids);
    }

    /** The rows of these ids, in any order. */
    method ReadBack(table: Table, ids: seq<string>) returns (rows: seq<Entry>)
      requires forall id :: id in ids ==> id in table && table[id].id == id && table[id].status.Processing?
      ensures Returned(table, ids, rows)
    {
      rows := [];
      var left := set id | id in ids;
      while left != {}
        invariant forall id :: id in left ==> id in ids
        invariant forall e :: e in rows ==> e.id in ids && e.id !in left && table[e.id] == e
        invariant forall id :: id in ids && id !in left ==> exists e :: e in rows && e.id == id
        invariant DistinctIds(rows)
        decreases left
      {
        var id :| id in left;
        ClaimedOnce(rows, table[id]);
        assert table[id] in rows + [table[id]];
        rows := rows + [table[id]];
        left := left - {id};
      }
    }

    /** _poll_once: every claimed row is processed once, the facts in chunks and first. When
        nothing could be claimed the session is not committed. */
    method PollOnce(limit: nat, cutoff: int, attempts: nat -> Attempt)
      returns (attempted: nat, ghost rows: seq<Entry>, ghost passed: set<string>)
      requires ValidEnvironment(env) && chunkSize >= 1 && WellKeyed(stores.entries)
      modifies this
      ensures attempted == |rows|
      ensures var reset := old(stores).(entries := ResetStale(old(stores).entries, cutoff));
        && Returned(ClaimAll(reset, limit, env.now).entries, Candidates(reset.entries, limit), rows)
        && stores == (if rows == [] then old(stores) else ProcessAll(env, RunBatch(env, ClaimAll(reset, limit, env.now), Facts(rows), chunkSize, attempts, 0), Others(rows)))
        && (rows != [] ==> stores.entries == SettleAll(Given(env, passed), ClaimAll(reset, limit, env.now).entries, Facts(rows) + Others(rows)))
    {
      hide Candidates, Claim, ClaimAll, ProcessAll, RunBatch, Singles, NoLeftovers, ToxicPoints, ToxicPayloads, ValidEnvironment, PassedIds;
      passed := {};
      var uncommitted := stores;
      stores := stores.(entries := ResetStale(stores.entries, cutoff));
      var entries := ClaimPending(limit);
      rows := entries;
      if entries == [] {
        stores := uncommitted;
        return 0, rows, passed;
      }
      SplitByOperation(entries);
      SplitDistinct(entries);
      var facts, others := Facts(entries), Others(entries);
      passed := PassedIds(env, facts, chunkSize, attempts, 0);
      PollSettles(env, stores, entries, chunkSize, attempts);
      ProcessFactBatch(facts, attempts);
      ProcessEach(others);
      attempted := |entries|;
    }

    /** run() on a queue that receives no more entries: polling stops, and it stops only when
        every entry is completed or failed. */
    method RunUntilIdle(limit: nat, cutoff: int, attempts: nat -> nat -> Attempt)
      requires ValidEnvironment(env) && chunkSize >= 1 && limit >= 1
      requires AtRest(env, stores.entries)
      modifies this
      ensures AtRest(env, stores.entries)
      ensures forall id :: id in stores.entries ==> !Live(stores.entries[id])
    {
      hide Candidates, Potential, Claim, ProcessAll, SettleAll, RunBatch, Given;
      var attempted, polls: nat := 1, 0;
      while attempted != 0
        invariant AtRest(env, stores.entries)
        invariant attempted == 0 ==> Candidates(stores.entries, limit) == []
        decreases Potential(stores.entries, env.config.maxRetries), attempted
      {
        ghost var before := stores;
        ghost var rows, passed;
        NothingStale(env, before.entries, cutoff);
        attempted, rows, passed := PollOnce(limit, cutoff, attempts(polls));
        polls := polls + 1;
        PollOfRestingQueue(env, passed, before, limit, rows);
      }
      CandidatesArePending(stores.entries, limit);
    }

    /** The loop of process_all_pending. */
    method ProcessCounting(rows: seq<Entry>) returns (processed: nat, failed: nat)
      requires AsClaimed(stores, rows)
      modifies this
      ensures stores == ProcessAll(env, old(stores), rows)
      ensures processed == CompletedCount(env, rows) && failed == ExhaustedCount(env, rows)
    {
      hide ProcessAll, ProcessOne, Succeeds, Exhausts, AsClaimed, CompletedCount, ExhaustedCount;
      ghost var start := stores;
      CountsStart(env);
      NothingToProcess(env, start, rows);
      processed, failed := 0, 0;
      for i := 0 to |rows|
        invariant stores == ProcessAll(env, start, rows[..i])
        invariant processed == CompletedCount(env, rows[..i]) && failed == ExhaustedCount(env, rows[..i])
      {
        CountingStep(env, start, stores, rows, i);
        var status := ProcessEntry(rows[i]);
        if status == Completed {
          processed := processed + 1;
        } else if status == Failed {
          failed := failed + 1;
        }
      }
      assert rows[..|rows|] == rows;
    }

    /** process_all_pending: the two counters, and the stores. */
    method ProcessAllPending(limit: nat) returns (processed: nat, failed: nat, ghost rows: seq<Entry>)
      requires WellKeyed(stores.entries)
      modifies this
      ensures Returned(ClaimAll(old(stores), limit, env.now).entries, Candidates(old(stores).entries, limit), rows)
      ensures stores == ProcessAll(env, ClaimAll(old(stores), limit, env.now), rows)
      ensures processed == CompletedCount(env, rows) && failed == ExhaustedCount(env, rows)
    {
      hide Candidates, Claim, ProcessAll, CompletedCount, ExhaustedCount;
      var entries := ClaimPending(limit);
      rows := entries;
      processed, failed := ProcessCounting(entries);
    }
  }

  // ----- polling -----

  function Facts(rows: seq<Entry>): seq<Entry> {
    if rows == [] then []
    else (if rows[0].operation.IndexFact? then [rows[0]] else []) + Facts(rows[1..])
  }

  function Others(rows: seq<Entry>): seq<Entry> {
    if rows == [] then []
    else (if rows[0].operation.IndexFact? then [] else [rows[0]]) + Others(rows[1..])
  }

  lemma {:induction false} SplitByOperation(rows: seq<Entry>)
    ensures forall e :: e in Facts(rows) <==> e in rows && e.operation.IndexFact?
    ensures forall e :: e in Others(rows) <==> e in rows && !e.operation.IndexFact?
    ensures |Facts(rows)| + |Others(rows)| == |rows|
  {
    if rows != [] {
      SplitByOperation(rows[1..]);
      assert rows == [rows[0]] + rows[1..];
    }
  }

  lemma {:induction false} SplitDistinct(rows: seq<Entry>)
    requires DistinctIds(rows)
    ensures DistinctIds(Facts(rows)) && DistinctIds(Others(rows))
  {
    if rows != [] {
      var rest := rows[1..];
      assert forall i :: 0 <= i < |rest| ==> rest[i] == rows[i + 1];
      SplitDistinct(rest);
      SplitByOperation(rest);
      assert forall e :: e in rest ==> e.id != rows[0].id;
      PrependDistinct(rows[0], Facts(rest));
      PrependDistinct(rows[0], Others(rest));
      assert [] + Facts(rest) == Facts(rest) && [] + Others(rest) == Others(rest);
      hide DistinctIds;
    }
  }

  lemma PrependDistinct(e: Entry, es: seq<Entry>)
    requires DistinctIds(es) && forall r :: r in es ==> r.id != e.id
    ensures DistinctIds([e] + es)
  {
  }

  /** The order of a poll visits every claimed row once. */
  lemma PollOrder(rows: seq<Entry>)
    requires DistinctIds(rows)
    ensures DistinctIds(Facts(rows) + Others(rows)) && |Facts(rows) + Others(rows)| == |rows|
    ensures forall e :: e in Facts(rows) + Others(rows) <==> e in rows
  {
    SplitDistinct(rows);
    SplitByOperation(rows);
    var f, o := Facts(rows), Others(rows);
    forall i, j | 0 <= i < |f| && 0 <= j < |o| ensures f[i].id != o[j].id {
      assert f[i] in f && o[j] in o;
      var a :| 0 <= a < |rows| && rows[a] == f[i];
      var b :| 0 <= b < |rows| && rows[b] == o[j];
      assert a != b;
      assert if a < b then rows[a].id != rows[b].id else rows[b].id != rows[a].id;
    }
  }

  /** A queue nobody else works on: nothing is in flight and every entry left has a retry left. */
  predicate AtRest(v: Environment, t: Table) {
    && WellKeyed(t)
    && forall id :: id in t ==> !t[id].status.Processing? && (t[id].status.Pending? ==> t[id].retryCount < v.config.maxRetries)
  }

  predicate Workable(v: Environment, t: Table, e: Entry) {
    e.id in t && Live(t[e.id]) && t[e.id].retryCount < v.config.maxRetries
  }

  lemma {:induction false} SettleAllSpends(v: Environment, t: Table, es: seq<Entry>)
    requires DistinctIds(es) && forall e :: e in es ==> Workable(v, t, e)
    ensures Potential(SettleAll(v, t, es), v.config.maxRetries) + |es| <= Potential(t, v.config.maxRetries)
    decreases |es|
  {
    hide Potential, Succeeds;
    if es != [] {
      assert es[0] in es && Workable(v, t, es[0]);
      SettlingCosts(t, es[0].id, v.messageOf(es[0]), v.config.maxRetries, v.now);
      forall e | e in es[1..] ensures Workable(v, Settle(v, t, es[0]), e) {
        var i :| 0 <= i < |es[1..]| && es[1..][i] == e;
        assert es[i + 1] == e && e in es && e.id != es[0].id;
        assert Workable(v, t, e);
      }
      SettleAllSpends(v, Settle(v, t, es[0]), es[1..]);
    }
  }

  lemma NothingStale(v: Environment, t: Table, cutoff: int)
    requires AtRest(v, t)
    ensures ResetStale(t, cutoff) == t
  {
  }

  lemma ClaimedIsWorkable(v: Environment, t: Table, candidates: seq<string>, rows: seq<Entry>, now: int)
    requires AtRest(v, t) && Returned(Claim(t, candidates, now), candidates, rows)
    ensures forall e :: e in rows ==> Workable(v, Claim(t, candidates, now), e)
    ensures forall id :: id in t && id in Claim(t, candidates, now) && Claim(t, candidates, now)[id].status.Processing? ==> id in candidates
    ensures Potential(Claim(t, candidates, now), v.config.maxRetries) == Potential(t, v.config.maxRetries)
  {
    hide Potential;
    PotentialSame(t, Claim(t, candidates, now), v.config.maxRetries);
  }

  lemma RowsSettledAtRest(v: Environment, t: Table, candidates: seq<string>, rows: seq<Entry>, order: seq<Entry>, now: int)
    requires AtRest(v, t) && Returned(Claim(t, candidates, now), candidates, rows)
    requires DistinctIds(order) && forall e :: e in order <==> e in rows
    ensures AtRest(v, SettleAll(v, Claim(t, candidates, now), order))
  {
    hide Succeeds;
    var c := Claim(t, candidates, now);
    var u := SettleAll(v, c, order);
    SettleAllKeys(v, c, order);
    forall id | id in u
      ensures u[id].id == id && !u[id].status.Processing? && (u[id].status.Pending? ==> u[id].retryCount < v.config.maxRetries)
    {
      if id in candidates {
        var e :| e in rows && e.id == id;
        var j :| 0 <= j < |order| && order[j] == e;
        EachSettledOnce(v, c, order, j);
      } else {
        forall i | 0 <= i < |order| ensures order[i].id != id {
          assert order[i] in rows;
        }
        SettleAllElsewhere(v, c, order, id);
      }
    }
  }

  /** A poll of a queue at rest leaves it at rest, with less work by one for every row claimed,
      whichever of the rows passed with their chunk. */
  lemma PollOfRestingQueue(v: Environment, passed: set<string>, s: Stores, limit: nat, rows: seq<Entry>)
    requires AtRest(v, s.entries)
    requires Returned(ClaimAll(s, limit, v.now).entries, Candidates(s.entries, limit), rows)
    ensures var after := SettleAll(Given(v, passed), ClaimAll(s, limit, v.now).entries, Facts(rows) + Others(rows));
      && AtRest(v, after)
      && Potential(after, v.config.maxRetries) + |rows| <= Potential(s.entries, v.config.maxRetries)
    ensures rows == [] ==> Candidates(s.entries, limit) == []
  {
    hide Candidates, Potential, Claim, AtRest, Succeeds;
    var candidates, order, g := Candidates(s.entries, limit), Facts(rows) + Others(rows), Given(v, passed);
    SameRest(v, passed, s.entries);
    PollOrder(rows);
    ClaimedIsWorkable(g, s.entries, candidates, rows, v.now);
    RowsSettledAtRest(g, s.entries, candidates, rows, order, v.now);
    SameRest(v, passed, SettleAll(g, ClaimAll(s, limit, v.now).entries, order));
    SettleAllSpends(g, ClaimAll(s, limit, v.now).entries, order);
    if candidates != [] { assert candidates[0] in candidates; }
  }

  lemma SameRest(v: Environment, passed: set<string>, t: Table)
    ensures AtRest(Given(v, passed), t) <==> AtRest(v, t)
  {
  }

  /** The table after a poll, as one fold over all its rows. */
  lemma PollSettles(v: Environment, s: Stores, rows: seq<Entry>, size: nat, attempts: nat -> Attempt)
    requires size >= 1 && DistinctIds(rows)
    ensures var passed := PassedIds(v, Facts(rows), size, attempts, 0);
      ProcessAll(v, RunBatch(v, s, Facts(rows), size, attempts, 0), Others(rows)).entries ==
        SettleAll(Given(v, passed), s.entries, Facts(rows) + Others(rows))
  {
    var facts, others := Facts(rows), Others(rows);
    SplitByOperation(rows);
    PollOrder(rows);
    SplitDistinct(rows);
    var passed := PassedIds(v, facts, size, attempts, 0);
    PassedAreTheirs(v, facts, size, attempts, 0);
    BatchIs(v, passed, s, facts, size, attempts, 0);
    var mid := RunBatch(v, s, facts, size, attempts, 0);
    ProcessAllByStore(v, mid, others);
    forall e | e in others ensures e.id !in passed {
      FactsAndOthersDiffer(rows, e);
    }
    FailedWrites(v, passed, others);
    AloneWritesAppend(Given(v, passed), facts, others);
  }

  lemma FactsAndOthersDiffer(rows: seq<Entry>, e: Entry)
    requires DistinctIds(rows) && e in Others(rows)
    ensures e.id !in IdsOf(Facts(rows))
  {
    SplitByOperation(rows);
    forall f | f in Facts(rows) ensures f.id != e.id {
      var i :| 0 <= i < |rows| && rows[i] == f;
      var j :| 0 <= j < |rows| && rows[j] == e;
      assert i < j || j < i;
    }
  }

  function ClaimAll(s: Stores, limit: nat, now: int): Stores {
    s.(entries := Claim(s.entries, Candidates(s.entries, limit), now))
  }

  function CompletedCount(v: Environment, rows: seq<Entry>): nat
    decreases |rows|
  {
    if rows == [] then 0
    else CompletedCount(v, rows[..|rows| - 1]) + if Succeeds(v, rows[|rows| - 1]) then 1 else 0
  }

  predicate Exhausts(v: Environment, e: Entry) {
    !Succeeds(v, e) && e.retryCount + 1 >= v.config.maxRetries
  }

  function ExhaustedCount(v: Environment, rows: seq<Entry>): nat
    decreases |rows|
  {
    if rows == [] then 0
    else ExhaustedCount(v, rows[..|rows| - 1]) + if Exhausts(v, rows[|rows| - 1]) then 1 else 0
  }

  lemma CountsStart(v: Environment)
    ensures CompletedCount(v, []) == 0 && ExhaustedCount(v, []) == 0
  {
  }

  /** The rows are in the table as they were claimed. */
  ghost predicate AsClaimed(s: Stores, rows: seq<Entry>) {
    DistinctIds(rows) && forall i :: 0 <= i < |rows| ==> rows[i].id in s.entries && s.entries[rows[i].id] == rows[i]
  }

  lemma CountingStep(v: Environment, start: Stores, s: Stores, rows: seq<Entry>, i: nat)
    requires AsClaimed(start, rows) && i < |rows| && s == ProcessAll(v, start, rows[..i])
    ensures ProcessAll(v, start, rows[..i + 1]) == ProcessOne(v, s, rows[i])
    ensures rows[i].id in s.entries && s.entries[rows[i].id] == rows[i]
    ensures Exhausts(v, rows[i]) <==> !Succeeds(v, rows[i]) && rows[i].retryCount + 1 >= v.config.maxRetries
    ensures CompletedCount(v, rows[..i + 1]) == CompletedCount(v, rows[..i]) + if Succeeds(v, rows[i]) then 1 else 0
    ensures ExhaustedCount(v, rows[..i + 1]) == ExhaustedCount(v, rows[..i]) + if Exhausts(v, rows[i]) then 1 else 0
  {
    hide ProcessAll, ProcessOne, Succeeds;
    assert rows[..i + 1] == rows[..i] + [rows[i]] && rows[..i + 1][..i] == rows[..i];
    ProcessAllAppend(v, start, rows[..i], [rows[i]]);
    ProcessSingle(v, s, rows[i]);
    RowUntouched(v, start, rows, i);
  }

  /** Rows handed out by a claim: for every candidate its row as it is in the table, in some
      order and none twice. */
  ghost predicate Returned(t: Table, candidates: seq<string>, rows: seq<Entry>) {
    && DistinctIds(rows)
    && (forall e :: e in rows ==> e.id in candidates && e.id in t && t[e.id] == e && e.status.Processing?)
    && (forall id :: id in candidates ==> exists e :: e in rows && e.id == id)
  }

  lemma ClaimedRows(t: Table, ids: seq<string>, now: int)
    requires WellKeyed(t) && forall id :: id in ids ==> id in t && t[id].status.Pending?
    ensures forall id :: id in ids ==> id in Claim(t, ids, now) && Claim(t, ids, now)[id].id == id && Claim(t, ids, now)[id].status.Processing?
  {
  }

  lemma ClaimedOnce(rows: seq<Entry>, e: Entry)
    requires DistinctIds(rows) && forall r :: r in rows ==> r.id != e.id
    ensures DistinctIds(rows + [e])
  {
  }

  /** Rows settled before row i leave it as it was claimed. */
  lemma RowUntouched(v: Environment, s: Stores, rows: seq<Entry>, i: nat)
    requires i < |rows| && DistinctIds(rows) && rows[i].id in s.entries && s.entries[rows[i].id] == rows[i]
    ensures var t := ProcessAll(v, s, rows[..i]).entries; rows[i].id in t && t[rows[i].id] == rows[i]
  {
    ProcessAllByStore(v, s, rows[..i]);
    SettleAllElsewhere(v, s.entries, rows[..i], rows[i].id);
  }

  /** What the counters count: a row's final status is completed exactly when it was counted as
      processed, failed exactly when it was counted as failed. */
  lemma RowSettled(v: Environment, s: Stores, rows: seq<Entry>, i: nat)
    requires i < |rows| && DistinctIds(rows) && rows[i].id in s.entries && s.entries[rows[i].id] == rows[i]
    ensures var t := ProcessAll(v, s, rows).entries;
      && rows[i].id in t
      && (t[rows[i].id].status == Completed <==> Succeeds(v, rows[i]))
      && (t[rows[i].id].status == Failed <==> Exhausts(v, rows[i]))
  {
    ProcessAllByStore(v, s, rows);
    EachSettledOnce(v, s.entries, rows, i);
  }
}
