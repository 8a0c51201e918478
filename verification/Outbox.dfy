/** Outbox entries and the status updates of storage/outbox.py. */
module Outbox {
  import opened Options
  import opened Text
  import opened Ordering

  datatype Status = Pending | Processing | Completed | Failed

  datatype Operation = IndexFact | IndexDecision | IndexSkill | IndexBelief | UnknownOperation

  datatype Entry = Entry(id: string, recordId: string, operation: Operation, payload: string, status: Status,
                         retryCount: nat, error: string, createdAt: int, processedAt: Option<int>)

  type Table = map<string, Entry>

  predicate WellKeyed(t: Table) {
    forall id :: id in t ==> t[id].id == id
  }

  const ERROR_CAPACITY: nat := 500

  function Truncated(message: string): string {
    if |message| <= ERROR_CAPACITY then message else message[..ERROR_CAPACITY]
  }

  /** Still to be worked on. */
  predicate Live(e: Entry) {
    e.status.Pending? || e.status.Processing?
  }

  // ----- the SQL of each repository method -----

  function QueueKey(e: Entry): Key {
    [Num(e.createdAt as real), Str(e.id)]
  }

  function PendingKeys(t: Table): set<Key> {
    set id | id in t && t[id].status.Pending? :: QueueKey(t[id])
  }

  function KeyId(k: Key): string {
    if |k| == 2 && k[1].Str? then k[1].s else ""
  }

  /** The ids of the oldest pending entries, at most `limit` of them. */
  function Candidates(t: Table, limit: nat): (ids: seq<string>)
    ensures |ids| <= limit
  {
    var ks := Sorted(PendingKeys(t));
    var n := if |ks| <= limit then |ks| else limit;
    seq(n, i requires 0 <= i < n => KeyId(ks[i]))
  }

  /** The candidates that are still pending when the UPDATE runs. */
  function ClaimedIds(t: Table, candidates: seq<string>): set<string> {
    set id | id in candidates && id in t && t[id].status.Pending?
  }

  function Claim(t: Table, candidates: seq<string>, now: int): Table {
    map id | id in t ::
      if id in ClaimedIds(t, candidates) then t[id].(status := Processing, processedAt := Some(now)) else t[id]
  }

  function MarkCompleted(t: Table, id: string, now: int): Table {
    if id !in t then t else t[id := t[id].(status := Completed, processedAt := Some(now))]
  }

  function MarkFailed(t: Table, id: string, message: string, now: int): Table {
    if id !in t then t else t[id := t[id].(status := Failed, error := Truncated(message), processedAt := Some(now))]
  }

  function IncrementRetry(t: Table, id: string, message: string): Table {
    if id !in t then t
    else t[id := t[id].(retryCount := t[id].retryCount + 1, error := Truncated(message), status := Pending)]
  }

  /** The exception handler of _process_entry. */
  function RetryOrFail(t: Table, id: string, message: string, maxRetries: nat, now: int): Table {
    var t1 := IncrementRetry(t, id, message);
    if id in t && t1[id].retryCount >= maxRetries then MarkFailed(t1, id, message, now) else t1
  }

  predicate IsStale(e: Entry, cutoff: int) {
    e.status.Processing? && e.processedAt.Some? && e.processedAt.value < cutoff
  }

  function ResetStale(t: Table, cutoff: int): Table {
    map id | id in t :: if IsStale(t[id], cutoff) then t[id].(status := Pending, processedAt := None) else t[id]
  }

  function StaleIds(t: Table, cutoff: int): set<string> {
    set id | id in t && IsStale(t[id], cutoff)
  }

  lemma CandidateAt(t: Table, limit: nat, i: nat)
    requires WellKeyed(t) && i < |Candidates(t, limit)|
    ensures var id := Candidates(t, limit)[i];
      i < |Sorted(PendingKeys(t))| && id in t && t[id].status.Pending? && QueueKey(t[id]) == Sorted(PendingKeys(t))[i]
  {
    assert Sorted(PendingKeys(t))[i] in PendingKeys(t);
  }

  lemma PendingPosition(t: Table, limit: nat, id: string) returns (j: nat)
    requires WellKeyed(t) && id in t && t[id].status.Pending?
    ensures j < |Sorted(PendingKeys(t))| && Sorted(PendingKeys(t))[j] == QueueKey(t[id])
    ensures |Candidates(t, limit)| == if limit < |Sorted(PendingKeys(t))| then limit else |Sorted(PendingKeys(t))|
    ensures j < |Candidates(t, limit)| ==> Candidates(t, limit)[j] == id
  {
    assert QueueKey(t[id]) in Sorted(PendingKeys(t));
    j :| 0 <= j < |Sorted(PendingKeys(t))| && Sorted(PendingKeys(t))[j] == QueueKey(t[id]);
  }

  lemma CandidatesArePending(t: Table, limit: nat)
    requires WellKeyed(t)
    ensures forall id :: id in Candidates(t, limit) ==> id in t && t[id].status.Pending?
    ensures limit >= 1 && (exists id :: id in t && t[id].status.Pending?) ==> Candidates(t, limit) != []
  {
    hide PendingKeys, QueueKey, Candidates;
    forall id | id in Candidates(t, limit) ensures id in t && t[id].status.Pending? {
      var i :| 0 <= i < |Candidates(t, limit)| && Candidates(t, limit)[i] == id;
      CandidateAt(t, limit, i);
    }
    if id :| id in t && t[id].status.Pending? {
      var _ := PendingPosition(t, limit, id);
    }
  }

  lemma QueueKeyMeans(a: Entry, b: Entry)
    ensures Less(QueueKey(a), QueueKey(b)) <==> a.createdAt < b.createdAt || (a.createdAt == b.createdAt && Before(a.id, b.id))
  {
    LessNumStr(a.createdAt as real, a.id, b.createdAt as real, b.id);
    hide Less;
  }

  /** The oldest pending entries are chosen, oldest first, the smaller id among equally old
      ones; a pending entry is left out only for as many older ones as there may be. */
  lemma CandidatesAreOldest(t: Table, limit: nat)
    requires WellKeyed(t)
    ensures var ids := Candidates(t, limit);
      && (forall i :: 0 <= i < |ids| ==> ids[i] in t && t[ids[i]].status.Pending?)
      && (forall i, j :: 0 <= i < j < |ids| ==>
            t[ids[i]].createdAt < t[ids[j]].createdAt || (t[ids[i]].createdAt == t[ids[j]].createdAt && Before(ids[i], ids[j])))
      && (forall id :: id in t && t[id].status.Pending? && id !in ids ==>
            && |ids| == limit
            && forall i :: 0 <= i < |ids| ==>
                 t[ids[i]].createdAt < t[id].createdAt || (t[ids[i]].createdAt == t[id].createdAt && Before(ids[i], id)))
  {
    hide Less, PendingKeys, QueueKey, Candidates;
    var ids := Candidates(t, limit);
    forall i | 0 <= i < |ids| ensures ids[i] in t && t[ids[i]].status.Pending? && t[ids[i]].id == ids[i] { CandidateAt(t, limit, i); }
    forall i, j | 0 <= i < j < |ids|
      ensures t[ids[i]].createdAt < t[ids[j]].createdAt || (t[ids[i]].createdAt == t[ids[j]].createdAt && Before(ids[i], ids[j]))
    {
      CandidateAt(t, limit, i);
      CandidateAt(t, limit, j);
      QueueKeyMeans(t[ids[i]], t[ids[j]]);
    }
    forall id, i | id in t && t[id].status.Pending? && id !in ids && 0 <= i < |ids|
      ensures t[ids[i]].createdAt < t[id].createdAt || (t[ids[i]].createdAt == t[id].createdAt && Before(ids[i], id))
    {
      var j := PendingPosition(t, limit, id);
      CandidateAt(t, limit, i);
      QueueKeyMeans(t[ids[i]], t[id]);
    }
    forall id | id in t && t[id].status.Pending? && id !in ids ensures |ids| == limit {
      var j := PendingPosition(t, limit, id);
    }
  }

  class OutboxRepository {
    var entries: Table

    constructor (t: Table)
      ensures entries == t
    {
      entries := t;
    }

    /** claim_pending; `between` is whatever other sessions commit before the UPDATE. */
    method ClaimPending(limit: nat, now: int, between: Table) returns (claimed: set<string>)
      modifies this
      ensures var candidates := Candidates(old(entries), limit);
        if candidates == [] then claimed == {} && entries == old(entries)
        else claimed == ClaimedIds(between, candidates) && entries == Claim(between, candidates, now)
      ensures forall id :: id in claimed <==> id in Candidates(old(entries), limit) && id in between && between[id].status == Pending
      ensures forall id :: id in claimed ==> id in entries && entries[id] == between[id].(status := Processing, processedAt := Some(now))
    {
      var candidates := Candidates(entries, limit);
      if candidates == [] { return {}; }
      entries := between;
      claimed := ClaimedIds(entries, candidates);
      entries := Claim(entries, candidates, now);
    }

    method MarkProcessing(id: string, now: int) returns (found: bool)
      modifies this
      ensures found <==> ClaimedIds(old(entries), [id]) == {id}
      ensures entries == Claim(old(entries), [id], now)
    {
      found := id in entries && entries[id].status.Pending?;
      if found {
        entries := entries[id := entries[id].(status := Processing, processedAt := Some(now))];
      }
    }

    /** No status is asked for: a row in any status becomes completed. */
    method Complete(id: string, now: int) returns (found: bool)
      modifies this
      ensures found <==> id in old(entries)
      ensures entries == MarkCompleted(old(entries), id, now)
    {
      if id !in entries { return false; }
      entries := entries[id := entries[id].(status := Completed, processedAt := Some(now))];
      return true;
    }

    method Fail(id: string, message: string, now: int) returns (found: bool)
      modifies this
      ensures found <==> id in old(entries)
      ensures entries == MarkFailed(old(entries), id, message, now)
    {
      if id !in entries { return false; }
      entries := entries[id := entries[id].(status := Failed, error := Truncated(message), processedAt := Some(now))];
      return true;
    }

    /** No status is asked for here either: a row in any status goes back to pending. */
    method Retry(id: string, message: string) returns (count: int)
      modifies this
      ensures entries == IncrementRetry(old(entries), id, message)
      ensures count == if id in old(entries) then old(entries)[id].retryCount + 1 else -1
    {
      if id !in entries { return -1; }
      var row := entries[id];
      entries := entries[id := row.(retryCount := row.retryCount + 1, error := Truncated(message), status := Pending)];
      return entries[id].retryCount;
    }

    method ResetStaleProcessing(cutoff: int) returns (count: nat)
      modifies this
      ensures entries == ResetStale(old(entries), cutoff)
      ensures count == |StaleIds(old(entries), cutoff)|
      ensures forall id :: id in old(entries) ==>
        var e := old(entries)[id];
        && id in entries
        && entries[id] == if e.status == Processing && e.processedAt.Some? && e.processedAt.value < cutoff
                          then e.(status := Pending, processedAt := None) else e
    {
      count := |StaleIds(entries, cutoff)|;
      entries := ResetStale(entries, cutoff);
    }
  }

  // ----- what the updates mean for the queue -----

  /** A settled entry takes no part any more: it is no candidate, no claim takes it, no reset
      frees it, whatever its status was before; and nobody else notices. */
  lemma SettledTakesNoPart(t: Table, u: Table, id: string, message: string, now: int, limit: nat, others: seq<string>, cutoff: int)
    requires WellKeyed(t) && id in t && (u == MarkCompleted(t, id, now) || u == MarkFailed(t, id, message, now))
    ensures u.Keys == t.Keys && forall x :: x in t && x != id ==> u[x] == t[x]
    ensures id !in Candidates(u, limit) && Claim(u, others, now)[id] == u[id] && ResetStale(u, cutoff)[id] == u[id]
  {
    CandidatesArePending(u, limit);
  }

  /** The failures of one entry, in order. */
  function Retried(t: Table, id: string, messages: seq<string>, maxRetries: nat, now: int): Table
    decreases |messages|
  {
    if messages == [] then t
    else RetryOrFail(Retried(t, id, messages[..|messages| - 1], maxRetries, now), id, messages[|messages| - 1], maxRetries, now)
  }

  /** A live entry survives as many failures as it has retries left, less one, each time
      pending again; the last one fails it, with the last message cut to its capacity. */
  lemma {:induction false} RetriesRunOut(t: Table, id: string, messages: seq<string>, maxRetries: nat, now: int)
    requires id in t && messages != [] && t[id].retryCount + |messages| <= maxRetries
    ensures var u := Retried(t, id, messages, maxRetries, now);
      && id in u && u[id].retryCount == t[id].retryCount + |messages|
      && u[id].status == (if t[id].retryCount + |messages| == maxRetries then Failed else Pending)
      && u[id].error <= messages[|messages| - 1] && (|u[id].error| == 500 || (|u[id].error| < 500 && u[id].error == messages[|messages| - 1]))
      && u.Keys == t.Keys && forall x :: x in t && x != id ==> u[x] == t[x]
    decreases |messages|
  {
    var front := messages[..|messages| - 1];
    if front != [] {
      RetriesRunOut(t, id, front, maxRetries, now);
    }
  }

  /** A reset makes claimable exactly what was pending or stale, changes no other entry and
      has nothing left to do. */
  lemma ResetFreesTheStale(t: Table, cutoff: int, ids: seq<string>)
    ensures var u := ResetStale(t, cutoff);
      && ClaimedIds(u, ids) == ClaimedIds(t, ids) + (set id | id in ids && id in StaleIds(t, cutoff))
      && (forall id :: id in t && id !in StaleIds(t, cutoff) ==> id in u && u[id] == t[id])
      && (forall id :: id in StaleIds(t, cutoff) <==>
            id in t && t[id].status == Processing && t[id].processedAt.Some? && t[id].processedAt.value < cutoff)
      && StaleIds(u, cutoff) == {} && ResetStale(u, cutoff) == u
      && (u == t <==> StaleIds(t, cutoff) == {})
  {
    var u := ResetStale(t, cutoff);
    if id :| id in StaleIds(t, cutoff) {
      assert u[id] != t[id];
    } else {
      forall id | id in t ensures u[id] == t[id] {
        assert id !in StaleIds(t, cutoff);
      }
      assert u == t;
    }
  }

  // ----- the work left in the queue -----

  function Credit(e: Entry, maxRetries: nat): nat {
    if Live(e) && e.retryCount < maxRetries then maxRetries - e.retryCount else 0
  }

  ghost function CreditOf(t: Table, ids: set<string>, maxRetries: nat): nat
    requires ids <= t.Keys
  {
    if ids == {} then 0
    else
      var id :| id in ids;
      Credit(t[id], maxRetries) + CreditOf(t, ids - {id}, maxRetries)
  }

  /** Sum of max_retries - retry_count over the entries that are not settled. */
  ghost function Potential(t: Table, maxRetries: nat): nat {
    CreditOf(t, t.Keys, maxRetries)
  }

  lemma {:induction false} CreditSplit(t: Table, ids: set<string>, x: string, maxRetries: nat)
    requires ids <= t.Keys && x in ids
    ensures CreditOf(t, ids, maxRetries) == Credit(t[x], maxRetries) + CreditOf(t, ids - {x}, maxRetries)
    decreases |ids|
  {
    var id :| id in ids &&
      CreditOf(t, ids, maxRetries) == Credit(t[id], maxRetries) + CreditOf(t, ids - {id}, maxRetries);
    if id != x {
      CreditSplit(t, ids - {id}, x, maxRetries);
      CreditSplit(t, ids - {x}, id, maxRetries);
      assert ids - {id} - {x} == ids - {x} - {id};
    }
  }

  lemma {:induction false} CreditSame(a: Table, b: Table, ids: set<string>, maxRetries: nat)
    requires ids <= a.Keys && ids <= b.Keys
    requires forall id :: id in ids ==> Credit(a[id], maxRetries) == Credit(b[id], maxRetries)
    ensures CreditOf(a, ids, maxRetries) == CreditOf(b, ids, maxRetries)
    decreases |ids|
  {
    if ids != {} {
      var id :| id in ids;
      CreditSplit(a, ids, id, maxRetries);
      CreditSplit(b, ids, id, maxRetries);
      CreditSame(a, b, ids - {id}, maxRetries);
    }
  }

  /** One row changes, the sum changes by that row's credit. */
  lemma PotentialUpdate(t: Table, id: string, e: Entry, maxRetries: nat)
    requires id in t
    ensures Potential(t[id := e], maxRetries) + Credit(t[id], maxRetries) == Potential(t, maxRetries) + Credit(e, maxRetries)
  {
    var u := t[id := e];
    assert u.Keys == t.Keys;
    CreditSplit(t, t.Keys, id, maxRetries);
    CreditSplit(u, u.Keys, id, maxRetries);
    CreditSame(t, u, t.Keys - {id}, maxRetries);
  }

  lemma PotentialSame(a: Table, b: Table, maxRetries: nat)
    requires a.Keys == b.Keys && forall id :: id in a ==> Credit(a[id], maxRetries) == Credit(b[id], maxRetries)
    ensures Potential(a, maxRetries) == Potential(b, maxRetries)
  {
    CreditSame(a, b, a.Keys, maxRetries);
  }

  /** Settling a live entry within its retries, either way, uses up credit. */
  lemma SettlingCosts(t: Table, id: string, message: string, maxRetries: nat, now: int)
    requires id in t && Live(t[id]) && t[id].retryCount < maxRetries
    ensures Potential(MarkCompleted(t, id, now), maxRetries) + 1 <= Potential(t, maxRetries)
    ensures Potential(RetryOrFail(t, id, message, maxRetries, now), maxRetries) + 1 == Potential(t, maxRetries)
  {
    PotentialUpdate(t, id, MarkCompleted(t, id, now)[id], maxRetries);
    var r := RetryOrFail(t, id, message, maxRetries, now);
    assert r == t[id := r[id]];
    PotentialUpdate(t, id, r[id], maxRetries);
  }
}
