/** What the worker does to the table is a run of the protocol's steps, and what the protocol
    records as written is in the stores. */
module OutboxRefinement {
  import opened Options
  import opened Outbox
  import opened OutboxProtocol
  import opened OutboxSingles
  import opened OutboxBatch
  import opened OutboxPolling
  import opened Journal

  /** The same work, whatever has become of status and retries. */
  predicate SameWork(a: Entry, b: Entry) {
    a.id == b.id && a.recordId == b.recordId && a.operation == b.operation && a.payload == b.payload
  }

  /** One table, and every effect the protocol has recorded is in the stores. */
  ghost predicate Linked(v: Environment, s: State, st: Stores) {
    && s.entries == st.entries
    && (forall id :: id in s.entries && id in s.vectors ==> Point(v, s.entries[id]) in st.vectors)
    && (forall id :: id in s.entries && id in s.graph ==> s.entries[id].payload in st.graph)
  }

  predicate HasClaimed(s: State, w: nat, e: Entry) {
    IsRunning(s, w) && e.id in s.workers[w].claims && e.id in s.entries && SameWork(s.entries[e.id], e)
  }

  predicate AllClaimed(s: State, w: nat, es: seq<Entry>) {
    IsRunning(s, w) && forall e :: e in es ==> HasClaimed(s, w, e)
  }

  /** `t` is `s` after worker `w` has worked off `done` and nobody else has moved. */
  ghost predicate WorkedOff(s: State, t: State, w: nat, done: set<string>)
    requires IsRunning(s, w)
  {
    && IsRunning(t, w) && t.workers[w].claims == s.workers[w].claims - done
    && t.workers == s.workers[w := t.workers[w]]
    && t.entries.Keys == s.entries.Keys
    && forall id :: id in s.entries ==> SameWork(t.entries[id], s.entries[id])
  }

  lemma WorkedOffTransitive(s: State, t: State, u: State, w: nat, a: set<string>, b: set<string>)
    requires IsRunning(s, w) && WorkedOff(s, t, w, a) && WorkedOff(t, u, w, b)
    ensures WorkedOff(s, u, w, a + b)
  {
    forall id | id in s.entries ensures SameWork(u.entries[id], s.entries[id]) {
      assert id in t.entries.Keys;
      assert SameWork(t.entries[id], s.entries[id]) && SameWork(u.entries[id], t.entries[id]);
    }
  }

  lemma StillClaimed(s: State, t: State, w: nat, done: set<string>, es: seq<Entry>)
    requires AllClaimed(s, w, es) && WorkedOff(s, t, w, done) && forall e :: e in es ==> e.id !in done
    ensures AllClaimed(t, w, es)
  {
    forall e | e in es ensures HasClaimed(t, w, e) {
      assert HasClaimed(s, w, e);
      assert e.id in t.entries.Keys && SameWork(t.entries[e.id], s.entries[e.id]);
    }
  }

  lemma {:induction false} RunThen(c: Config, s: State, a: seq<Step>, b: seq<Step>)
    requires Run(c, s, a).Some?
    ensures Run(c, s, a + b) == Run(c, Run(c, s, a).value, b)
    decreases |a|
  {
    hide Apply, Enabled;
    if a == [] {
      assert a + b == b;
    } else {
      assert (a + b)[1..] == a[1..] + b;
      RunThen(c, Apply(c, s, a[0]), a[1..], b);
    }
  }

  lemma RunOne(c: Config, s: State, step: Step)
    requires Enabled(c, s, step)
    ensures Run(c, s, [step]) == Some(Apply(c, s, step))
  {
    hide Enabled, Apply;
    assert [step][1..] == [];
    assert Run(c, Apply(c, s, step), []) == Some(Apply(c, s, step));
  }

  lemma RunTwo(c: Config, s: State, a: seq<Step>, step: Step)
    requires Run(c, s, a).Some? && Enabled(c, Run(c, s, a).value, step)
    ensures Run(c, s, a + [step]) == Some(Apply(c, Run(c, s, a).value, step))
  {
    RunAppend(c, s, a, step);
  }

  // ----- one entry -----

  /** The calls made for an entry alone: an upsert, and if that passed a sync. */
  function AloneSteps(v: Environment, w: nat, e: Entry): seq<Step> {
    (if NeedsVector(v.config, e)
     then [VectorStep(w, {e.id}, if v.alone(e).vectorWritten then {e.id} else {}, v.alone(e).vectorOk)] else []) +
    (if VectorPassed(v, e) && NeedsGraph(v.config, e)
     then [GraphStep(w, {e.id}, if v.alone(e).graphWritten then {e.id} else {}, v.alone(e).graphOk)] else [])
  }

  function AfterCalls(v: Environment, s: State, w: nat, e: Entry): State
    requires IsRunning(s, w)
  {
    var r := s.workers[w];
    s.(vectors := s.vectors + if Vectored(v, e) then {e.id} else {},
       graph := s.graph + if Synced(v, e) then {e.id} else {},
       workers := s.workers[w := r.(vectored := r.vectored + if NeedsVector(v.config, e) && v.alone(e).vectorOk then {e.id} else {},
                                    graphed := r.graphed + if NeedsGraph(v.config, e) && VectorPassed(v, e) && v.alone(e).graphOk then {e.id} else {})])
  }

  lemma CallsAreRun(v: Environment, s: State, w: nat, e: Entry)
    requires ValidEnvironment(v) && HasClaimed(s, w, e)
    ensures Run(v.config, s, AloneSteps(v, w, e)) == Some(AfterCalls(v, s, w, e))
  {
    assert v.alone(e).Valid();
    var c := v.config;
    var upsert := VectorStep(w, {e.id}, if v.alone(e).vectorWritten then {e.id} else {}, v.alone(e).vectorOk);
    var sync := GraphStep(w, {e.id}, if v.alone(e).graphWritten then {e.id} else {}, v.alone(e).graphOk);
    var first := if NeedsVector(c, e) then [upsert] else [];
    assert NeedsVector(c, s.entries[e.id]) <==> NeedsVector(c, e);
    assert NeedsGraph(c, s.entries[e.id]) <==> NeedsGraph(c, e);
    var r := s.workers[w];
    assert s.vectors + {} == s.vectors && s.graph + {} == s.graph && r.vectored + {} == r.vectored && r.graphed + {} == r.graphed;
    assert s.workers[w := r] == s.workers;
    if NeedsVector(c, e) { RunOne(c, s, upsert); }
    var mid, after := Run(c, s, first).value, AfterCalls(v, s, w, e);
    assert mid == if NeedsVector(c, e) then Apply(c, s, upsert) else s;
    var end := mid;
    if VectorPassed(v, e) && NeedsGraph(c, e) {
      RunTwo(c, s, first, sync);
      assert AloneSteps(v, w, e) == first + [sync];
      end := Apply(c, mid, sync);
    } else {
      assert AloneSteps(v, w, e) == first + [] == first;
      assert r.(vectored := r.vectored, graphed := r.graphed) == r;
    }
    assert end.vectors == after.vectors && end.graph == after.graph;
    assert end.workers[w] == after.workers[w];
    assert end.workers == after.workers;
  }

  lemma SettleKeepsWork(v: Environment, t: Table, e: Entry)
    ensures Settle(v, t, e).Keys == t.Keys
    ensures WellKeyed(t) ==> WellKeyed(Settle(v, t, e))
    ensures forall id :: id in t ==> SameWork(Settle(v, t, e)[id], t[id])
  {
    hide Succeeds;
  }

  /** What _process_entry does is a run of calls and one completion or retry. */
  lemma EntryIsRun(v: Environment, s: State, st: Stores, w: nat, e: Entry) returns (steps: seq<Step>, t: State)
    requires ValidEnvironment(v) && Linked(v, s, st) && HasClaimed(s, w, e)
    ensures Run(v.config, s, steps) == Some(t)
    ensures Linked(v, t, ProcessOne(v, st, e)) && WorkedOff(s, t, w, {e.id})
  {
    var mid := AfterCalls(v, s, w, e);
    CallsAreRun(v, s, w, e);
    var last := if Succeeds(v, e) then CompleteStep(w, e.id, v.now) else RetryStep(w, e.id, v.messageOf(e), v.now);
    MaySettle(v, s, w, e, last);
    RunTwo(v.config, s, AloneSteps(v, w, e), last);
    steps, t := AloneSteps(v, w, e) + [last], Apply(v.config, mid, last);
    SettleIsApply(v, mid, w, e, last);
    hide AloneSteps, Run, Enabled, Apply, ValidEnvironment, AfterCalls;
    AfterEntry(v, s, st, w, e, t);
  }

  lemma MaySettle(v: Environment, s: State, w: nat, e: Entry, last: Step)
    requires HasClaimed(s, w, e)
    requires last == if Succeeds(v, e) then CompleteStep(w, e.id, v.now) else RetryStep(w, e.id, v.messageOf(e), v.now)
    ensures Enabled(v.config, AfterCalls(v, s, w, e), last)
  {
  }

  lemma AfterEntry(v: Environment, s: State, st: Stores, w: nat, e: Entry, t: State)
    requires Linked(v, s, st) && HasClaimed(s, w, e)
    requires var mid := AfterCalls(v, s, w, e);
      && t.entries == Settle(v, s.entries, e) && t.vectors == mid.vectors && t.graph == mid.graph && IsRunning(t, w)
      && t.workers == mid.workers[w := t.workers[w]] && t.workers[w].claims == mid.workers[w].claims - {e.id}
    ensures Linked(v, t, ProcessOne(v, st, e)) && WorkedOff(s, t, w, {e.id})
  {
    SettleKeepsWork(v, s.entries, e);
    hide Settle, Vectored, Synced;
    assert SameWork(s.entries[e.id], e);
    var after := ProcessOne(v, st, e);
    forall id | id in t.entries && id in t.vectors ensures Point(v, t.entries[id]) in after.vectors {
      assert id in s.entries && SameWork(t.entries[id], s.entries[id]);
    }
    forall id | id in t.entries && id in t.graph ensures t.entries[id].payload in after.graph {
      assert id in s.entries && SameWork(t.entries[id], s.entries[id]);
    }
  }

  lemma SettleIsApply(v: Environment, s: State, w: nat, e: Entry, last: Step)
    requires last == if Succeeds(v, e) then CompleteStep(w, e.id, v.now) else RetryStep(w, e.id, v.messageOf(e), v.now)
    requires Enabled(v.config, s, last)
    ensures var t := Apply(v.config, s, last);
      && t.entries == Settle(v, s.entries, e) && t.vectors == s.vectors && t.graph == s.graph && IsRunning(t, w)
      && t.workers == s.workers[w := t.workers[w]] && t.workers[w].claims == s.workers[w].claims - {e.id}
  {
  }

  // ----- entries one at a time -----

  lemma NothingWorkedOff(s: State, w: nat)
    requires IsRunning(s, w)
    ensures WorkedOff(s, s, w, {})
  {
    assert s.workers[w := s.workers[w]] == s.workers;
  }

  lemma DistinctRest(es: seq<Entry>, n: nat)
    requires DistinctIds(es) && n <= |es|
    ensures DistinctIds(es[..n]) && DistinctIds(es[n..]) && forall e, f :: e in es[..n] && f in es[n..] ==> e.id != f.id
    ensures IdsOf(es) == IdsOf(es[..n]) + IdsOf(es[n..])
  {
    forall e, f | e in es[..n] && f in es[n..] ensures e.id != f.id {
      var i :| 0 <= i < n && es[..n][i] == e;
      var j :| 0 <= j < |es| - n && es[n..][j] == f;
      assert es[i] == e && es[n + j] == f;
    }
    assert es == es[..n] + es[n..];
  }

  lemma {:induction false} EntriesAreRun(v: Environment, s: State, st: Stores, w: nat, es: seq<Entry>) returns (steps: seq<Step>, t: State)
    requires ValidEnvironment(v) && Linked(v, s, st) && AllClaimed(s, w, es) && DistinctIds(es)
    ensures Run(v.config, s, steps) == Some(t)
    ensures Linked(v, t, ProcessAll(v, st, es)) && WorkedOff(s, t, w, IdsOf(es))
    decreases |es|
  {
    hide ValidEnvironment, Linked, Run, ProcessOne;
    steps, t := [], s;
    if es == [] {
      NothingWorkedOff(s, w);
      RunNothing(v.config, s);
    } else {
      assert es[0] in es;
      var first, mid := EntryIsRun(v, s, st, w, es[0]);
      DistinctRest(es, 1);
      assert es[..1] == [es[0]];
      assert IdsOf(es) == {es[0].id} + IdsOf(es[1..]);
      StillClaimed(s, mid, w, {es[0].id}, es[1..]);
      var more, end := EntriesAreRun(v, mid, ProcessOne(v, st, es[0]), w, es[1..]);
      RunThen(v.config, s, first, more);
      WorkedOffTransitive(s, mid, end, w, {es[0].id}, IdsOf(es[1..]));
      steps, t := first + more, end;
    }
  }

  lemma RunNothing(c: Config, s: State)
    ensures Run(c, s, []) == Some(s)
  {
  }

  // ----- a chunk -----

  /** The batched calls of one chunk. */
  function AttemptSteps(v: Environment, w: nat, chunk: seq<Entry>, a: Attempt): seq<Step> {
    (if Upserts(v.config)
     then [VectorStep(w, IdsOf(chunk), IdsOf(if a.upsertOk then chunk else Part(chunk, a.upserted)), a.upsertOk)] else []) +
    (if v.config.graphRouter && (v.config.embedder ==> a.upsertOk)
     then [GraphStep(w, IdsOf(chunk), IdsOf(if a.syncOk then chunk else Part(chunk, a.synced)), a.syncOk)] else [])
  }

  /** The state after the batched calls. */
  ghost predicate Attempted(v: Environment, s: State, t: State, w: nat, chunk: seq<Entry>, a: Attempt)
    requires IsRunning(s, w)
  {
    && t.entries == s.entries && WorkedOff(s, t, w, {})
    && t.vectors == s.vectors + (if !Upserts(v.config) then {} else IdsOf(if a.upsertOk then chunk else Part(chunk, a.upserted)))
    && t.graph == s.graph + (if v.config.graphRouter && (v.config.embedder ==> a.upsertOk) then IdsOf(if a.syncOk then chunk else Part(chunk, a.synced)) else {})
    && (Upserts(v.config) && a.upsertOk ==> IdsOf(chunk) <= t.workers[w].vectored)
    && (v.config.graphRouter && (v.config.embedder ==> a.upsertOk) && a.syncOk ==> IdsOf(chunk) <= t.workers[w].graphed)
  }

  lemma UpsertIsStep(v: Environment, s: State, w: nat, chunk: seq<Entry>, a: Attempt)
    requires AllClaimed(s, w, chunk) && Upserts(v.config)
    ensures var step := VectorStep(w, IdsOf(chunk), IdsOf(if a.upsertOk then chunk else Part(chunk, a.upserted)), a.upsertOk);
      Enabled(v.config, s, step) && Attempted(v.(config := v.config.(graphRouter := false)), s, Apply(v.config, s, step), w, chunk, a)
  {
    PartIsPart(chunk, a.upserted);
    forall id | id in IdsOf(chunk) ensures id in s.workers[w].claims {
      var e :| e in chunk && e.id == id;
      assert HasClaimed(s, w, e);
    }
    var step := VectorStep(w, IdsOf(chunk), IdsOf(if a.upsertOk then chunk else Part(chunk, a.upserted)), a.upsertOk);
    var t := Apply(v.config, s, step);
    assert t.workers == s.workers[w := t.workers[w]];
    assert t.workers[w].claims == s.workers[w].claims - {};
    assert t.graph == s.graph + {};
  }

  lemma SyncIsStep(v: Environment, s: State, w: nat, chunk: seq<Entry>, a: Attempt)
    requires AllClaimed(s, w, chunk) && v.config.graphRouter && AllFacts(chunk)
    requires Upserts(v.config) ==> IdsOf(chunk) <= s.workers[w].vectored
    ensures var step := GraphStep(w, IdsOf(chunk), IdsOf(if a.syncOk then chunk else Part(chunk, a.synced)), a.syncOk);
      && Enabled(v.config, s, step)
      && var t := Apply(v.config, s, step);
      && t.entries == s.entries && t.vectors == s.vectors && WorkedOff(s, t, w, {})
      && t.graph == s.graph + step.written && s.workers[w].vectored <= t.workers[w].vectored
      && (a.syncOk ==> IdsOf(chunk) <= t.workers[w].graphed)
  {
    PartIsPart(chunk, a.synced);
    forall id | id in IdsOf(chunk) ensures id in s.workers[w].claims {
      var e :| e in chunk && e.id == id;
      assert HasClaimed(s, w, e);
    }
    var t := Apply(v.config, s, GraphStep(w, IdsOf(chunk), IdsOf(if a.syncOk then chunk else Part(chunk, a.synced)), a.syncOk));
    assert t.workers == s.workers[w := t.workers[w]];
    assert t.workers[w].claims == s.workers[w].claims - {};
  }

  lemma AttemptIsRun(v: Environment, s: State, w: nat, chunk: seq<Entry>, a: Attempt) returns (t: State)
    requires AllClaimed(s, w, chunk) && AllFacts(chunk)
    ensures Run(v.config, s, AttemptSteps(v, w, chunk, a)) == Some(t) && Attempted(v, s, t, w, chunk, a)
  {
    var c := v.config;
    var upsert := VectorStep(w, IdsOf(chunk), IdsOf(if a.upsertOk then chunk else Part(chunk, a.upserted)), a.upsertOk);
    var sync := GraphStep(w, IdsOf(chunk), IdsOf(if a.syncOk then chunk else Part(chunk, a.synced)), a.syncOk);
    var first := if Upserts(c) then [upsert] else [];
    t := s;
    NothingWorkedOff(s, w);
    RunNothing(c, s);
    if Upserts(c) {
      UpsertIsStep(v, s, w, chunk, a);
      RunOne(c, s, upsert);
      t := Apply(c, s, upsert);
    }
    hide Run, Apply, Enabled;
    if c.graphRouter && (c.embedder ==> a.upsertOk) {
      assert AttemptSteps(v, w, chunk, a) == first + [sync];
      StillClaimed(s, t, w, {}, chunk);
      SyncIsStep(v, t, w, chunk, a);
      RunTwo(c, s, first, sync);
      WorkedOffTransitive(s, t, Apply(c, t, sync), w, {}, {});
      t := Apply(c, t, sync);
    } else {
      assert AttemptSteps(v, w, chunk, a) == first + [] == first;
    }
  }

  lemma {:induction false} ReplayCovers(m: Store, ws: seq<Write>)
    ensures m.Keys <= Replay(m, ws).Keys
    ensures forall x :: x in ws ==> x.key in Replay(m, ws)
    decreases |ws|
  {
    if ws != [] {
      ReplayCovers(m, ws[..|ws| - 1]);
      assert ws == ws[..|ws| - 1] + [ws[|ws| - 1]];
    }
  }

  /** What the calls are recorded to have written is in the stores. */
  lemma AttemptLinks(v: Environment, s: State, st: Stores, t: State, w: nat, chunk: seq<Entry>, a: Attempt)
    requires Linked(v, s, st) && AllClaimed(s, w, chunk) && Attempted(v, s, t, w, chunk, a)
    ensures Linked(v, t, AfterAttempt(v, st, chunk, a))
  {
    var written := if a.upsertOk then chunk else Part(chunk, a.upserted);
    var ws := AttemptWrites(v, chunk, a);
    PartIsPart(chunk, a.upserted);
    PartIsPart(chunk, a.synced);
    ReplayCovers(st.vectors, ws);
    hide Replay, Part, WorkedOff;
    var after := AfterAttempt(v, st, chunk, a);
    forall id | id in t.entries && id in t.vectors ensures Point(v, t.entries[id]) in after.vectors {
      if id !in s.vectors {
        var e :| e in written && e.id == id;
        assert HasClaimed(s, w, e);
        var i :| 0 <= i < |written| && written[i] == e;
        assert ws[i].key == Point(v, e) && ws[i] in ws;
      }
    }
    forall id | id in t.entries && id in t.graph ensures t.entries[id].payload in after.graph {
      if id !in s.graph {
        var e :| e in (if a.syncOk then chunk else Part(chunk, a.synced)) && e.id == id;
        assert HasClaimed(s, w, e);
      }
    }
  }

  lemma CompletionIsStep(v: Environment, s: State, st: Stores, w: nat, e: Entry)
    requires Linked(v, s, st) && HasClaimed(s, w, e) && e.operation.IndexFact?
    requires (Upserts(v.config) ==> e.id in s.workers[w].vectored) && (v.config.graphRouter ==> e.id in s.workers[w].graphed)
    ensures var step := CompleteStep(w, e.id, v.now);
      && Enabled(v.config, s, step)
      && var t := Apply(v.config, s, step);
      && Linked(v, t, st.(entries := MarkCompleted(st.entries, e.id, v.now))) && WorkedOff(s, t, w, {e.id})
      && t.workers[w].vectored == s.workers[w].vectored && t.workers[w].graphed == s.workers[w].graphed
  {
    var t := Apply(v.config, s, CompleteStep(w, e.id, v.now));
    assert t.workers == s.workers[w := t.workers[w]];
  }

  lemma {:induction false} CompletionsAreRun(v: Environment, s: State, st: Stores, w: nat, es: seq<Entry>) returns (steps: seq<Step>, t: State)
    requires Linked(v, s, st) && AllClaimed(s, w, es) && DistinctIds(es) && AllFacts(es)
    requires (Upserts(v.config) ==> IdsOf(es) <= s.workers[w].vectored) && (v.config.graphRouter ==> IdsOf(es) <= s.workers[w].graphed)
    ensures Run(v.config, s, steps) == Some(t)
    ensures Linked(v, t, st.(entries := CompleteAll(st.entries, es, v.now))) && WorkedOff(s, t, w, IdsOf(es))
    decreases |es|
  {
    hide Linked, Run, Apply, Enabled, MarkCompleted;
    steps, t := [], s;
    if es == [] {
      NothingWorkedOff(s, w);
      RunNothing(v.config, s);
    } else {
      assert es[0] in es && es[0].id in IdsOf(es);
      var step := CompleteStep(w, es[0].id, v.now);
      CompletionIsStep(v, s, st, w, es[0]);
      RunOne(v.config, s, step);
      var mid := Apply(v.config, s, step);
      DistinctRest(es, 1);
      assert es[..1] == [es[0]];
      assert IdsOf(es) == {es[0].id} + IdsOf(es[1..]);
      StillClaimed(s, mid, w, {es[0].id}, es[1..]);
      var more, end := CompletionsAreRun(v, mid, st.(entries := MarkCompleted(st.entries, es[0].id, v.now)), w, es[1..]);
      RunThen(v.config, s, [step], more);
      WorkedOffTransitive(s, mid, end, w, {es[0].id}, IdsOf(es[1..]));
      steps, t := [step] + more, end;
    }
  }

  /** One chunk, with its fallback if it needs one, is a run. */
  lemma ChunkIsRun(v: Environment, s: State, st: Stores, w: nat, chunk: seq<Entry>, a: Attempt) returns (steps: seq<Step>, t: State)
    requires ValidEnvironment(v) && Linked(v, s, st) && AllClaimed(s, w, chunk) && DistinctIds(chunk) && AllFacts(chunk)
    ensures Run(v.config, s, steps) == Some(t)
    ensures Linked(v, t, ChunkResult(v, st, chunk, a)) && WorkedOff(s, t, w, IdsOf(chunk))
  {
    var mid := AttemptIsRun(v, s, w, chunk, a);
    AttemptLinks(v, s, st, mid, w, chunk, a);
    StillClaimed(s, mid, w, {}, chunk);
    var after, first := AfterAttempt(v, st, chunk, a), AttemptSteps(v, w, chunk, a);
    assert after.entries == st.entries;
    hide Linked, Run, AttemptSteps, AfterAttempt, ValidEnvironment, CompleteAll, ProcessAll;
    var more, end;
    if Passes(v.config, a) {
      more, end := CompletionsAreRun(v, mid, after, w, chunk);
    } else {
      more, end := EntriesAreRun(v, mid, after, w, chunk);
    }
    RunThen(v.config, s, first, more);
    WorkedOffTransitive(s, mid, end, w, {}, IdsOf(chunk));
    assert {} + IdsOf(chunk) == IdsOf(chunk);
    steps, t := first + more, end;
  }

  /** The whole batch is a run of the protocol: its safety is the batch's. */
  lemma {:induction false} BatchIsRun(v: Environment, s: State, st: Stores, w: nat, es: seq<Entry>, size: nat,
                                      attempts: nat -> Attempt, k: nat) returns (steps: seq<Step>, t: State)
    requires ValidEnvironment(v) && Linked(v, s, st) && AllClaimed(s, w, es) && DistinctIds(es) && AllFacts(es) && size >= 1
    ensures Run(v.config, s, steps) == Some(t)
    ensures Linked(v, t, RunBatch(v, st, es, size, attempts, k)) && WorkedOff(s, t, w, IdsOf(es))
    decreases |es|
  {
    hide Linked, Run, ChunkResult, ValidEnvironment;
    steps, t := [], s;
    if es == [] {
      NothingWorkedOff(s, w);
      RunNothing(v.config, s);
    } else {
      var n := Cut(es, size);
      assert es == es[..n] + es[n..];
      DistinctRest(es, n);
      var first, mid := ChunkIsRun(v, s, st, w, es[..n], attempts(k));
      StillClaimed(s, mid, w, IdsOf(es[..n]), es[n..]);
      var more, end := BatchIsRun(v, mid, ChunkResult(v, st, es[..n], attempts(k)), w, es[n..], size, attempts, k + 1);
      RunThen(v.config, s, first, more);
      WorkedOffTransitive(s, mid, end, w, IdsOf(es[..n]), IdsOf(es[n..]));
      steps, t := first + more, end;
    }
  }

  /** So a completed entry's effect is really in the stores. */
  lemma CompletedIsStored(v: Environment, s: State, st: Stores, id: string)
    requires Sound(v.config, s) && Linked(v, s, st) && id in s.entries && s.entries[id].status.Completed?
    ensures var e, c := s.entries[id], v.config;
      && (c.embedder && c.vectorStore && e.operation == IndexFact ==> v.pointOf("fact:" + e.recordId) in st.vectors)
      && (c.embedder && c.vectorStore && e.operation == IndexBelief && e.payload != "" ==> v.pointOf("belief:" + e.recordId) in st.vectors)
      && (c.graphRouter && e.operation in {IndexFact, IndexDecision, IndexSkill} ==> e.payload in st.graph)
  {
    assert EntrySound(v.config, s, id);
  }

  /** The state in which worker `w` has just claimed. */
  function Claimed(s: State, w: nat, limit: nat, cutoff: int, now: int): State {
    var reset := ResetStale(s.entries, cutoff);
    var candidates := Candidates(reset, limit);
    State(Claim(reset, candidates, now), s.vectors, s.graph, s.workers[w := Running(ClaimedIds(reset, candidates), {}, {})])
  }

  /** Reset, select and claim, with nobody in between. */
  lemma ClaimingIsRun(c: Config, s: State, w: nat, limit: nat, cutoff: int, now: int)
    requires w !in s.workers || s.workers[w].Idle?
    ensures Run(c, s, [ResetStaleStep(cutoff)] + [SelectStep(w, limit)] + [ClaimStep(w, now)]) == Some(Claimed(s, w, limit, cutoff, now))
  {
    hide Candidates, ResetStale, Claim, ClaimedIds;
    var a, b, d := ResetStaleStep(cutoff), SelectStep(w, limit), ClaimStep(w, now);
    RunOne(c, s, a);
    var s1 := Apply(c, s, a);
    assert s1 == State(ResetStale(s.entries, cutoff), s.vectors, s.graph, s.workers);
    assert Enabled(c, s1, b);
    RunTwo(c, s, [a], b);
    var s2 := Apply(c, s1, b);
    var candidates := Candidates(s1.entries, limit);
    assert s2 == s1.(workers := s.workers[w := Selected(candidates)]);
    assert Enabled(c, s2, d);
    RunTwo(c, s, [a] + [b], d);
    hide Run;
    assert Apply(c, s2, d).workers == Claimed(s, w, limit, cutoff, now).workers;
  }

  lemma ClaimedIsLinked(v: Environment, s: State, st: Stores, w: nat, limit: nat, cutoff: int)
    requires Linked(v, s, st)
    ensures Linked(v, Claimed(s, w, limit, cutoff, v.now), ClaimAll(st.(entries := ResetStale(st.entries, cutoff)), limit, v.now))
  {
    var t := Claimed(s, w, limit, cutoff, v.now);
    ClaimKeepsWork(s.entries, cutoff, Candidates(ResetStale(s.entries, cutoff), limit), v.now);
    hide Candidates, ResetStale, Claim, Point, ClaimedIds, SameWork;
    forall id | id in t.entries ensures SameWork(t.entries[id], s.entries[id]) && id in s.entries {
      assert id in t.entries.Keys;
    }
    SamePoints(v, s, t);
  }

  lemma ClaimedIsClaimed(v: Environment, s: State, w: nat, limit: nat, cutoff: int, rows: seq<Entry>)
    requires WellKeyed(s.entries)
    requires Returned(Claimed(s, w, limit, cutoff, v.now).entries, Candidates(ResetStale(s.entries, cutoff), limit), rows)
    ensures var t := Claimed(s, w, limit, cutoff, v.now); AllClaimed(t, w, rows) && IdsOf(rows) == t.workers[w].claims
  {
    var t := Claimed(s, w, limit, cutoff, v.now);
    var reset := ResetStale(s.entries, cutoff);
    var candidates := Candidates(reset, limit);
    ClaimKeepsWork(s.entries, cutoff, candidates, v.now);
    CandidatesArePending(reset, limit);
    hide Candidates, ResetStale, Claim, AllClaimed, Returned;
    assert t.workers[w].claims == set id | id in candidates;
    RowsAreClaimed(t, w, candidates, rows);
  }

  lemma SamePoints(v: Environment, s: State, t: State)
    requires forall id :: id in t.entries ==> id in s.entries && SameWork(t.entries[id], s.entries[id])
    ensures forall id :: id in t.entries ==> Point(v, t.entries[id]) == Point(v, s.entries[id]) && t.entries[id].payload == s.entries[id].payload
  {
  }

  lemma ClaimKeepsWork(t: Table, cutoff: int, candidates: seq<string>, now: int)
    ensures var u := Claim(ResetStale(t, cutoff), candidates, now);
      u.Keys == t.Keys && forall id :: id in t ==> SameWork(u[id], t[id])
    ensures WellKeyed(t) ==> WellKeyed(ResetStale(t, cutoff))
  {
  }

  lemma RowsAreClaimed(s: State, w: nat, candidates: seq<string>, rows: seq<Entry>)
    requires IsRunning(s, w) && Returned(s.entries, candidates, rows)
    requires s.workers[w].claims == set id | id in candidates
    ensures AllClaimed(s, w, rows) && IdsOf(rows) == s.workers[w].claims
  {
  }

  /** A poll, from its reset to its last row, is a run of an idle worker that ends idle. */
  lemma PollIsRun(v: Environment, s: State, st: Stores, w: nat, limit: nat, cutoff: int, rows: seq<Entry>,
                  size: nat, attempts: nat -> Attempt) returns (steps: seq<Step>, t: State)
    requires ValidEnvironment(v) && Linked(v, s, st) && WellKeyed(s.entries) && size >= 1
    requires w !in s.workers || s.workers[w].Idle?
    requires var reset := st.(entries := ResetStale(st.entries, cutoff));
      Returned(ClaimAll(reset, limit, v.now).entries, Candidates(reset.entries, limit), rows)
    ensures Run(v.config, s, steps) == Some(t) && t.workers == s.workers[w := Idle]
    ensures var claimed := ClaimAll(st.(entries := ResetStale(st.entries, cutoff)), limit, v.now);
      Linked(v, t, ProcessAll(v, RunBatch(v, claimed, Facts(rows), size, attempts, 0), Others(rows)))
  {
    var first := [ResetStaleStep(cutoff)] + [SelectStep(w, limit)] + [ClaimStep(w, v.now)];
    var mid := Claimed(s, w, limit, cutoff, v.now);
    var claimed := ClaimAll(st.(entries := ResetStale(st.entries, cutoff)), limit, v.now);
    assert DistinctIds(rows);
    ClaimedIsLinked(v, s, st, w, limit, cutoff);
    ClaimedIsClaimed(v, s, w, limit, cutoff, rows);
    ClaimingIsRun(v.config, s, w, limit, cutoff, v.now);
    assert mid.workers == s.workers[w := mid.workers[w]];
    hide *;
    var more, end := RowsAreRun(v, mid, claimed, w, rows, size, attempts);
    RunThen(v.config, s, first, more);
    steps, t := first + more, end;
    assert t.workers == s.workers[w := mid.workers[w]][w := Idle] == s.workers[w := Idle];
  }

  /** The rows a worker has claimed, all of them and no more, worked off to the last. */
  lemma RowsAreRun(v: Environment, s: State, st: Stores, w: nat, rows: seq<Entry>, size: nat, attempts: nat -> Attempt)
    returns (steps: seq<Step>, t: State)
    requires ValidEnvironment(v) && Linked(v, s, st) && size >= 1
    requires IsRunning(s, w) && AllClaimed(s, w, rows) && DistinctIds(rows) && IdsOf(rows) == s.workers[w].claims
    ensures Run(v.config, s, steps) == Some(t) && t.workers == s.workers[w := Idle]
    ensures Linked(v, t, ProcessAll(v, RunBatch(v, st, Facts(rows), size, attempts, 0), Others(rows)))
  {
    var facts, others := Facts(rows), Others(rows);
    SplitByOperation(rows);
    SplitDistinct(rows);
    assert AllClaimed(s, w, facts) && AllClaimed(s, w, others) && AllFacts(facts);
    assert IdsOf(rows) == IdsOf(facts) + IdsOf(others);
    forall e | e in others ensures e.id !in IdsOf(facts) { FactsAndOthersDiffer(rows, e); }
    hide Run, Linked, ValidEnvironment, ProcessAll, RunBatch, AllClaimed, DistinctIds, AllFacts, IdsOf, Facts, Others;
    var first, after := BatchIsRun(v, s, st, w, facts, size, attempts, 0);
    StillClaimed(s, after, w, IdsOf(facts), others);
    var batch := RunBatch(v, st, facts, size, attempts, 0);
    var second, end := EntriesAreRun(v, after, batch, w, others);
    WorkedOffTransitive(s, after, end, w, IdsOf(facts), IdsOf(others));
    RunThen(v.config, s, first, second);
    FinishIsStep(v, s, end, ProcessAll(v, batch, others), w, IdsOf(facts) + IdsOf(others));
    RunTwo(v.config, s, first + second, FinishStep(w));
    steps, t := first + second + [FinishStep(w)], Apply(v.config, end, FinishStep(w));
  }

  lemma FinishIsStep(v: Environment, s: State, end: State, st: Stores, w: nat, done: set<string>)
    requires IsRunning(s, w) && s.workers[w].claims == done && WorkedOff(s, end, w, done) && Linked(v, end, st)
    ensures Enabled(v.config, end, FinishStep(w))
    ensures var t := Apply(v.config, end, FinishStep(w)); t.workers == s.workers[w := Idle] && Linked(v, t, st)
  {
    assert end.workers[w].claims == {};
    assert end.workers[w := Idle] == s.workers[w := Idle];
  }
}
