/** The resumable vector rebuild: batches of upserts into a staged store, a checkpoint
    after each, and runs that fail, are killed and are taken up again. */
module RebuildRun {
  import opened Options
  import opened Text
  import opened ProjectionRecords
  import opened ProjectionMeaning
  import opened ProjectionGraph

  // ----- canonical keys -----

  function CanonicalKey(r: Record): string {
    r.recordType + ":" + r.recordId
  }

  function Keys(rs: seq<Record>): (ks: seq<string>)
    ensures |ks| == |rs| && forall i :: 0 <= i < |rs| ==> ks[i] == CanonicalKey(rs[i])
  {
    seq(|rs|, i requires 0 <= i < |rs| => CanonicalKey(rs[i]))
  }

  function KeySet(ks: seq<string>): set<string> {
    set k | k in ks
  }

  predicate IsVector(r: Record) {
    r.recordType == "fact" || r.recordType == "belief"
  }

  /** Rows of four tables, each with its own primary key. */
  ghost predicate Canonical(rs: seq<Record>) {
    && (forall r :: r in rs ==> IsEligible(r))
    && (forall i, j :: 0 <= i < j < |rs| ==> (rs[i].recordType, rs[i].recordId) != (rs[j].recordType, rs[j].recordId))
  }

  predicate Colonless(s: string) {
    forall i :: 0 <= i < |s| ==> s[i] != ':'
  }

  /** No record type holds a colon, so the first colon of a key ends the type. */
  lemma KeyIdentifies(a: Record, b: Record)
    requires Colonless(a.recordType) && Colonless(b.recordType) && CanonicalKey(a) == CanonicalKey(b)
    ensures a.recordType == b.recordType && a.recordId == b.recordId
  {
    var l, r := CanonicalKey(a), CanonicalKey(b);
    assert l[|a.recordType|] == ':' && r[|b.recordType|] == ':';
    assert forall i :: 0 <= i < |a.recordType| ==> l[i] == a.recordType[i];
    assert forall i :: 0 <= i < |b.recordType| ==> r[i] == b.recordType[i];
    assert |a.recordType| == |b.recordType|;
    assert l[..|a.recordType|] == a.recordType && r[..|b.recordType|] == b.recordType;
    assert l[|a.recordType| + 1..] == a.recordId && r[|b.recordType| + 1..] == b.recordId;
  }

  lemma EligibleColonless(r: Record)
    requires IsEligible(r)
    ensures Colonless(r.recordType)
  {
  }

  lemma KeysDistinct(rs: seq<Record>, i: nat, j: nat)
    requires Canonical(rs) && i < |rs| && j < |rs| && CanonicalKey(rs[i]) == CanonicalKey(rs[j])
    ensures i == j
  {
    hide CanonicalKey, IsEligible;
    EligibleColonless(rs[i]);
    EligibleColonless(rs[j]);
    KeyIdentifies(rs[i], rs[j]);
  }

  /** The point ids of the records whose keys are in `ids`, as a resume computes them. */
  function ImageOf(uuid5: string -> string, rs: seq<Record>, ids: seq<string>): set<string> {
    set r | r in rs && CanonicalKey(r) in ids && IsVector(r) :: VectorId(uuid5, r)
  }

  /** For the first `k` keys these are the vector ids of the first `k` records. */
  lemma ImageOfPrefix(uuid5: string -> string, rs: seq<Record>, k: nat)
    requires Canonical(rs) && k <= |rs|
    ensures ImageOf(uuid5, rs, Keys(rs[..k])) == VectorIds(uuid5, rs[..k])
  {
    hide VectorId, CanonicalKey, IsEligible;
    forall r ensures r in rs && CanonicalKey(r) in Keys(rs[..k]) <==> r in rs[..k] {
      if r in rs[..k] {
        var i :| 0 <= i < k && rs[..k][i] == r;
        assert Keys(rs[..k])[i] == CanonicalKey(r);
      }
      if r in rs && CanonicalKey(r) in Keys(rs[..k]) {
        var j :| 0 <= j < |rs| && rs[j] == r;
        var i :| 0 <= i < k && Keys(rs[..k])[i] == CanonicalKey(r);
        assert rs[..k][i] == rs[i];
        KeysDistinct(rs, i, j);
      }
    }
  }

  lemma VectorIdsConcat(uuid5: string -> string, a: seq<Record>, b: seq<Record>)
    ensures VectorIds(uuid5, a + b) == VectorIds(uuid5, a) + VectorIds(uuid5, b)
  {
    hide VectorId;
  }

  /** The vectors of canonical rows are those the verifier expects of them. */
  lemma StagedAreExpected(uuid5: string -> string, rs: seq<Record>)
    requires Canonical(rs)
    ensures VectorIds(uuid5, rs) == VectorIds(uuid5, Ordered(rs)) && VectorsMean(uuid5, rs, VectorIds(uuid5, rs))
  {
    OrderedMembers(rs);
    VectorIdsMean(uuid5, rs);
    hide Ordered, IsEligible, VectorId, VectorsMean;
    assert forall r :: r in rs <==> r in Ordered(rs);
  }

  // ----- the staged store and its checkpoint -----

  /** The fields a resume reads. */
  datatype Checkpoint = Checkpoint(complete: bool, planDigest: string, stagedIds: seq<string>, idDigest: string,
                                   completedBatches: nat)

  /** What befalls one batch: the embedder or the store raises after some points are
      written, or the process is killed at some point of the batch. */
  datatype Fault =
    | Raises(written: set<string>)
    | KilledInUpsert(written: set<string>)
    | KilledBeforeCheckpoint
    | KilledAfterCheckpoint

  /** ReadingRaised and a kill that is `late` come after the snapshot write. */
  datatype Outcome =
    | Returned(vectorIds: set<string>, batches: nat)
    | Refused(error: string)
    | Raised
    | ReadingRaised
    | Killed(late: bool)

  /** What befalls a call after its last batch; the staged ids are read back last. */
  datatype Ending = Undisturbed | KilledBeforeSaving | KilledAfterSaving | ReadingRaises

  /** One call: `faults` by number of the batch within the call. The snapshot write goes
      through or fails; a failure is logged and swallowed. */
  datatype Call = Call(resume: bool, checkpointing: bool, batchSize: int, plan: string, faults: map<nat, Fault>,
                       saves: bool, ending: Ending)

  /** The call got past a snapshot write that went through. */
  predicate Saves(call: Call, outcome: Outcome) {
    call.saves && (outcome.Returned? || outcome.ReadingRaised? || outcome == Killed(true))
  }

  datatype SavedGraph = SavedGraph(nodes: map<string, string>, edges: seq<EdgeKey>)

  /** How many batches the last `n` records make. */
  function BatchCount(n: nat, size: nat): nat
    requires size >= 1
  {
    if n == 0 then 0 else 1 + BatchCount(if n <= size then 0 else n - size, size)
  }

  lemma BatchCountStep(n: nat, size: nat)
    requires n >= 1 && size >= 1
    ensures BatchCount(n, size) == 1 + BatchCount(if n <= size then 0 else n - size, size)
  {
  }

  lemma BatchCountOfNone(size: nat)
    requires size >= 1
    ensures BatchCount(0, size) == 0
  {
  }

  /** A store whose failing upserts are atomic. */
  predicate WritesNothingOnError(call: Call) {
    forall n :: n in call.faults && call.faults[n].Raises? ==> call.faults[n].written == {}
  }

  class Staging {
    const records: seq<Record>
    const uuid5: string -> string
    const idDigest: set<string> -> string
    const nodeId: string -> string
    var staged: set<string>
    var graph: Option<SavedGraph>
    var checkpoint: Option<Checkpoint>

    /** `graph` is what the snapshot path holds before. */
    constructor (records: seq<Record>, uuid5: string -> string, idDigest: set<string> -> string, nodeId: string -> string,
                 graph: Option<SavedGraph>)
      requires Canonical(records)
      ensures Valid() && staged == {} && checkpoint == None && this.graph == graph
      ensures this.records == records && this.uuid5 == uuid5 && this.idDigest == idDigest && this.nodeId == nodeId
    {
      this.records, this.uuid5, this.idDigest, this.nodeId := records, uuid5, idDigest, nodeId;
      this.staged, this.checkpoint, this.graph := {}, None, graph;
    }

    /** The builder's graph of the records. */
    ghost predicate IsBuilt(g: SavedGraph) {
      && g.nodes == BuilderNodes(nodeId, Ordered(records))
      && NoDuplicates(g.edges) && EdgeSet(g.edges) == EdgesOf(nodeId, Ordered(records), g.nodes.Keys)
    }

    /** The digest of all canonical keys. */
    function PlanDigest(): string {
      idDigest(KeySet(Keys(records)))
    }

    lemma PlanDigestIs()
      ensures PlanDigest() == idDigest(set r | r in records :: r.recordType + ":" + r.recordId)
    {
      var ks := Keys(records);
      forall i | 0 <= i < |records| ensures records[i] in records && ks[i] in KeySet(ks) {}
      forall k ensures k in KeySet(ks) <==> k in set r | r in records :: r.recordType + ":" + r.recordId {
        if k in KeySet(ks) { var i :| 0 <= i < |ks| && ks[i] == k; }
        if r :| r in records && r.recordType + ":" + r.recordId == k {
          var i :| 0 <= i < |records| && records[i] == r;
          assert ks[i] == k;
        }
      }
      assert KeySet(ks) == set r | r in records :: r.recordType + ":" + r.recordId;
    }

    /** What the snapshot path holds is the builder's graph of the records. */
    ghost predicate GraphBuilt()
      reads this
    {
      graph.Some? && IsBuilt(graph.value)
    }

    /** Nothing foreign is staged, and the checkpoint names a prefix of the canonical keys,
        every vector of which is staged. */
    ghost predicate Valid()
      reads this
    {
      && Canonical(records)
      && staged <= VectorIds(uuid5, records)
      && (checkpoint.Some? ==> CheckpointValid(checkpoint.value, staged))
    }

    ghost predicate CheckpointValid(c: Checkpoint, staged: set<string>) {
      && ProgressIn(c.stagedIds, staged)
      && c.planDigest == PlanDigest()
      && c.idDigest == idDigest(KeySet(c.stagedIds))
      && (c.complete ==> |c.stagedIds| == |records|)
    }

    /** `ids` are the first canonical keys and their vectors are staged. */
    ghost predicate Progress(ids: seq<string>)
      reads this
    {
      ProgressIn(ids, staged)
    }

    ghost predicate ProgressIn(ids: seq<string>, staged: set<string>) {
      |ids| <= |records| && ids == Keys(records[..|ids|]) && VectorIds(uuid5, records[..|ids|]) <= staged
    }

    /** Nothing but the vectors of the first keys, as many as `ids`, is staged. */
    ghost predicate Exact(ids: seq<string>)
      reads this
    {
      ExactIn(ids, staged)
    }

    ghost predicate ExactIn(ids: seq<string>, staged: set<string>) {
      |ids| <= |records| && staged == VectorIds(uuid5, records[..|ids|])
    }

    /** The resume finds the checkpoint of its prefix and exactly the vectors of it. */
    ghost predicate StartsExact()
      reads this
    {
      checkpoint.Some? && Exact(checkpoint.value.stagedIds)
    }

    function CompleteCheckpoint(batches: nat): Checkpoint {
      Checkpoint(true, PlanDigest(), Keys(records), idDigest(KeySet(Keys(records))), batches)
    }

    /** Where a call has returned, a resume is let in and has no batch left. */
    lemma CompleteIsExact(batches: nat)
      requires checkpoint == Some(CompleteCheckpoint(batches)) && staged == VectorIds(uuid5, records)
      ensures StartsExact() && |checkpoint.value.stagedIds| == |records|
    {
      assert records[..|records|] == records;
    }

    method WriteCheckpoint(complete: bool, ids: seq<string>, batches: nat)
      requires Valid() && Progress(ids) && (complete ==> |ids| == |records|)
      modifies this`checkpoint
      ensures Valid() && checkpoint == Some(Checkpoint(complete, PlanDigest(), ids, idDigest(KeySet(ids)), batches))
    {
      checkpoint := Some(Checkpoint(complete, PlanDigest(), ids, idDigest(KeySet(ids)), batches));
    }

    /** rebuild_projections. A resume is refused exactly when what is staged is not what its
        checkpoint says. A call that returns leaves exactly the expected vector ids, but the
        builder's graph only if its snapshot write went through or the graph was there before.
        After a call that raised, a store that wrote nothing on the failing batch can be taken
        up again. */
    method Run(call: Call) returns (outcome: Outcome)
      requires Valid()
      modifies this
      ensures Valid() && old(staged) <= staged
      ensures outcome.Refused? <==> call.batchSize <= 0 || call.plan != PlanDigest() || (call.resume && call.checkpointing && old(checkpoint).Some? && !old(StartsExact()))
      ensures call.plan != idDigest(set r | r in records :: r.recordType + ":" + r.recordId) ==> outcome.Refused?
      ensures outcome.Refused? ==> staged == old(staged) && checkpoint == old(checkpoint) && graph == old(graph)
      ensures outcome.Returned? ==> staged == outcome.vectorIds == VectorIds(uuid5, records)
      ensures if Saves(call, outcome) then GraphBuilt() else graph == old(graph)
      ensures outcome.Returned? ==> (GraphBuilt() <==> call.saves || old(GraphBuilt()))
      ensures outcome.Returned? ==> outcome.batches == old(Start(call)).1 + BatchCount(Rest(old(Start(call)).0), call.batchSize)
      ensures outcome.Returned? && call.checkpointing ==> checkpoint == Some(CompleteCheckpoint(outcome.batches))
      ensures !call.checkpointing ==> checkpoint == old(checkpoint)
      ensures call.faults == map[] && call.ending.Undisturbed? ==> outcome.Returned? || outcome.Refused?
      ensures outcome.Raised? && call.checkpointing ==> checkpoint.Some? && !checkpoint.value.complete
      ensures outcome.Raised? && call.checkpointing && WritesNothingOnError(call) && (old(staged) == {} || (call.resume && old(checkpoint).Some?)) ==> StartsExact()
    {
      PlanDigestIs();
      if call.batchSize <= 0 {
        return Refused("batch_size and vector_size must be positive");
      }
      if call.plan != PlanDigest() {
        return Refused("E_EMBEDDING_PLAN_STALE");
      }
      var error, completed, batches := TakeUp(call.resume && call.checkpointing);
      if error != "" {
        return Refused(error);
      }
      outcome := RunFrom(call, completed, batches);
    }

    /** Records done and batches counted when a call begins. */
    function Start(call: Call): (nat, nat)
      reads this
    {
      if call.resume && call.checkpointing && checkpoint.Some? then (|checkpoint.value.stagedIds|, checkpoint.value.completedBatches)
      else (0, 0)
    }

    function Rest(done: nat): nat {
      if done <= |records| then |records| - done else 0
    }

    /** The batches after the completed records, then the final checkpoint. */
    method RunFrom(call: Call, completed0: seq<string>, batches0: nat) returns (outcome: Outcome)
      requires Valid() && call.batchSize >= 1 && Progress(completed0)
      modifies this
      ensures Valid() && old(staged) <= staged && !outcome.Refused?
      ensures outcome.Returned? ==> VectorIds(uuid5, records) <= staged && staged == outcome.vectorIds
      ensures if Saves(call, outcome) then GraphBuilt() else graph == old(graph)
      ensures outcome.Returned? ==> outcome.batches == batches0 + BatchCount(Rest(|completed0|), call.batchSize)
      ensures outcome.Returned? && call.checkpointing ==> checkpoint == Some(CompleteCheckpoint(outcome.batches))
      ensures !call.checkpointing ==> checkpoint == old(checkpoint)
      ensures call.faults == map[] && call.ending.Undisturbed? ==> outcome.Returned?
      ensures outcome.Raised? && call.checkpointing ==> checkpoint.Some? && !checkpoint.value.complete
      ensures outcome.Raised? && call.checkpointing && WritesNothingOnError(call) && old(Exact(completed0)) ==> StartsExact()
    {
      var completed, batches: nat, n: nat := completed0, batches0, 0;
      hide VectorIds, Canonical, Keys, BatchCount, Exact, StartsExact, Valid, GraphBuilt, Progress;
      BatchCountOfNone(call.batchSize);
      ProgressWithin(completed);
      while |completed| < |records|
        invariant Valid() && Progress(completed) && |completed| <= |records| && old(staged) <= staged
        invariant batches + BatchCount(Rest(|completed|), call.batchSize) == batches0 + BatchCount(Rest(|completed0|), call.batchSize)
        invariant old(Exact(completed0)) ==> Exact(completed)
        invariant !call.checkpointing ==> checkpoint == old(checkpoint)
        invariant graph == old(graph)
        decreases |records| - |completed|
      {
        var offset := |completed|;
        var next := if offset + call.batchSize <= |records| then offset + call.batchSize else |records|;
        var fault := if n in call.faults then Some(call.faults[n]) else None;
        BatchCountStep(Rest(offset), call.batchSize);
        var stop, done := RunBatch(call.checkpointing, completed, batches, next, fault);
        if stop.Some? {
          return stop.value;
        }
        completed, batches, n := done, batches + 1, n + 1;
      }
      outcome := Finish(call, completed, batches);
    }

    /** After the last batch: the snapshot write, whose failure nobody hears of, and the
        checkpoint that says complete. */
    method Finish(call: Call, completed: seq<string>, batches: nat) returns (outcome: Outcome)
      requires Valid() && Progress(completed) && |completed| == |records|
      modifies this`graph, this`checkpoint
      ensures Valid()
      ensures outcome == match call.ending
                         case Undisturbed => Returned(staged, batches)
                         case KilledBeforeSaving => Killed(false)
                         case KilledAfterSaving => Killed(true)
                         case ReadingRaises => ReadingRaised
      ensures if Saves(call, outcome) then GraphBuilt() else graph == old(graph)
      ensures outcome.Returned? ==> VectorIds(uuid5, records) <= staged
      ensures outcome.Returned? && call.checkpointing ==> checkpoint == Some(CompleteCheckpoint(outcome.batches))
      ensures !call.checkpointing ==> checkpoint == old(checkpoint)
    {
      assert records[..|completed|] == records;
      hide VectorIds, Canonical, Keys, IsBuilt, CheckpointValid;
      if call.ending.KilledBeforeSaving? {
        return Killed(false);
      }
      SaveGraph(call.saves);
      if call.ending.KilledAfterSaving? {
        return Killed(true);
      }
      if call.ending.ReadingRaises? {
        return ReadingRaised;
      }
      if call.checkpointing {
        WriteCheckpoint(true, completed, batches);
      }
      outcome := Returned(staged, batches);
    }

    /** Builds the graph of the records and, if the write goes through, replaces what the
        snapshot path holds. */
    method SaveGraph(goesThrough: bool)
      requires Valid()
      modifies this`graph
      ensures Valid() && if goesThrough then GraphBuilt() else graph == old(graph)
    {
      var ok, g := BuildSharedProjectionGraph(records, nodeId);
      if goesThrough {
        graph := Some(SavedGraph(g.nodes, g.edges));
      }
    }

    lemma ProgressWithin(ids: seq<string>)
      requires Progress(ids)
      ensures |ids| <= |records|
    {
    }

    /** Where a call starts: at the checkpoint when it resumes one, else at the first record. */
    method TakeUp(resume: bool) returns (error: string, completed: seq<string>, batches: nat)
      requires Valid()
      ensures error == if resume && checkpoint.Some? && !StartsExact() then "E_STAGED_IDS_MISMATCH" else ""
      ensures error == "" && resume && checkpoint.Some? ==> completed == checkpoint.value.stagedIds && batches == checkpoint.value.completedBatches
      ensures error == "" && !(resume && checkpoint.Some?) ==> completed == [] && batches == 0
      ensures error == "" ==> Progress(completed)
      ensures error == "" && (staged == {} || (resume && checkpoint.Some?)) ==> Exact(completed)
    {
      error, completed, batches := "", [], 0;
      assert Keys(records[..0]) == [] && VectorIds(uuid5, records[..0]) == {};
      if resume && checkpoint.Some? {
        var state := checkpoint.value;
        completed := state.stagedIds;
        if state.planDigest != PlanDigest() {
          error := "E_EMBEDDING_PLAN_STALE";
          return;
        }
        if state.idDigest != idDigest(KeySet(completed)) {
          error := "E_BATCH_DIGEST_MISMATCH";
          return;
        }
        ImageOfPrefix(uuid5, records, |completed|);
        if staged != ImageOf(uuid5, records, completed) {
          error := "E_STAGED_IDS_MISMATCH";
          return;
        }
        batches := state.completedBatches;
      }
    }

    /** provider.upsert_batch, of points keyed by id. */
    method Upsert(points: set<string>)
      requires Valid() && points <= VectorIds(uuid5, records)
      modifies this`staged
      ensures Valid() && staged == old(staged) + points
    {
      staged := staged + points;
    }

    /** One batch: embed, upsert, checkpoint. None when it went through. */
    method RunBatch(checkpointing: bool, completed: seq<string>, batches: nat, next: nat, fault: Option<Fault>)
      returns (stop: Option<Outcome>, done: seq<string>)
      requires Valid() && Progress(completed) && |completed| < next <= |records|
      modifies this
      ensures Valid() && old(staged) <= staged
      ensures stop.Some? ==> stop.value.Raised? || stop.value == Killed(false)
      ensures stop.None? ==> Progress(done) && |done| == next && staged == old(staged) + VectorIds(uuid5, records[|completed|..next])
      ensures stop.None? && old(Exact(completed)) ==> Exact(done)
      ensures stop.None? && checkpointing ==> checkpoint == Some(Checkpoint(false, PlanDigest(), done, idDigest(KeySet(done)), batches + 1))
      ensures stop == Some(Raised) ==> fault.Some? && fault.value.Raises? && staged == old(staged) + (VectorIds(uuid5, records[|completed|..next]) * fault.value.written)
      ensures stop == Some(Raised) && checkpointing ==> checkpoint == Some(Checkpoint(false, PlanDigest(), completed, idDigest(KeySet(completed)), batches))
      ensures stop == Some(Raised) && checkpointing && fault.value.written == {} && old(Exact(completed)) ==> StartsExact()
      ensures fault.None? ==> stop.None?
      ensures !checkpointing ==> checkpoint == old(checkpoint)
      ensures graph == old(graph)
    {
      var points := VectorIds(uuid5, records[|completed|..next]);
      done := completed;
      BatchFits(uuid5, records, |completed|, next);
      hide *;
      if fault.Some? && (fault.value.KilledInUpsert? || (fault.value.Raises? && points != {})) {
        Upsert(points * fault.value.written);
        ProgressStays(completed, old(staged));
        if fault.value.KilledInUpsert? {
          return Some(Killed(false)), done;
        }
        if checkpointing {
          WriteCheckpoint(false, completed, batches);
          StartsWhereExact(completed);
        }
        return Some(Raised), done;
      }
      Upsert(points);
      if fault == Some(KilledBeforeCheckpoint) {
        return Some(Killed(false)), done;
      }
      done := completed + Keys(records[|completed|..next]);
      Advance(completed, next, old(staged));
      if checkpointing {
        WriteCheckpoint(false, done, batches + 1);
      }
      stop := if fault == Some(KilledAfterCheckpoint) then Some(Killed(false)) else None;
    }

    lemma ProgressStays(ids: seq<string>, before: set<string>)
      requires ProgressIn(ids, before) && before <= staged
      ensures Progress(ids)
      ensures staged == before && ExactIn(ids, before) ==> Exact(ids)
    {
    }

    lemma StartsWhereExact(ids: seq<string>)
      requires checkpoint.Some? && checkpoint.value.stagedIds == ids
      ensures StartsExact() <==> Exact(ids)
    {
    }

    /** Once a batch is staged, the keys of it may be counted in. */
    lemma Advance(completed: seq<string>, next: nat, before: set<string>)
      requires ProgressIn(completed, before) && |completed| <= next <= |records|
      requires staged == before + VectorIds(uuid5, records[|completed|..next])
      ensures var done := completed + Keys(records[|completed|..next]);
        Progress(done) && |done| == next && (ExactIn(completed, before) ==> Exact(done))
    {
      BatchFits(uuid5, records, |completed|, next);
      KeysGrow(records, |completed|, next);
      hide VectorIds;
    }
  }

  lemma KeysGrow(rs: seq<Record>, i: nat, j: nat)
    requires i <= j <= |rs|
    ensures Keys(rs[..i]) + Keys(rs[i..j]) == Keys(rs[..j]) && |Keys(rs[..j])| == j
  {
    hide CanonicalKey;
  }

  lemma BatchFits(uuid5: string -> string, rs: seq<Record>, i: nat, j: nat)
    requires i <= j <= |rs|
    ensures VectorIds(uuid5, rs[..j]) == VectorIds(uuid5, rs[..i]) + VectorIds(uuid5, rs[i..j])
    ensures VectorIds(uuid5, rs[i..j]) <= VectorIds(uuid5, rs)
  {
    assert rs[..j] == rs[..i] + rs[i..j] && rs == rs[..j] + rs[j..];
    VectorIdsConcat(uuid5, rs[..i], rs[i..j]);
    VectorIdsConcat(uuid5, rs[..j], rs[j..]);
  }

  /** Some call got past a snapshot write that went through. */
  predicate SomeSaves(calls: seq<Call>, outcomes: seq<Outcome>)
    requires |outcomes| <= |calls|
  {
    exists i :: 0 <= i < |outcomes| && Saves(calls[i], outcomes[i])
  }

  /** Any sequence of calls on an empty staging area, with any batch sizes, interrupted
      anywhere: once some call has returned, the store holds exactly the expected vector ids
      for good; and the snapshot path holds the builder's graph exactly if some call got past
      a write that went through, else what it held before, whoever has returned. */
  method Campaign(records: seq<Record>, uuid5: string -> string, idDigest: set<string> -> string, nodeId: string -> string,
                  before: Option<SavedGraph>, calls: seq<Call>)
    returns (staging: Staging, outcomes: seq<Outcome>)
    requires Canonical(records)
    ensures fresh(staging) && staging.Valid() && staging.records == records && staging.uuid5 == uuid5 && staging.nodeId == nodeId
    ensures |outcomes| == |calls|
    ensures (exists i :: 0 <= i < |outcomes| && outcomes[i].Returned?) ==> staging.staged == VectorIds(uuid5, records) && VectorsMean(uuid5, records, staging.staged)
    ensures forall i :: 0 <= i < |outcomes| && outcomes[i].Returned? ==> outcomes[i].vectorIds == VectorIds(uuid5, records)
    ensures if SomeSaves(calls, outcomes) then staging.GraphBuilt() else staging.graph == before
  {
    staging := new Staging(records, uuid5, idDigest, nodeId, before);
    outcomes := [];
    hide *;
    NoCallYet(calls);
    for i := 0 to |calls|
      invariant staging.Valid() && staging.records == records && staging.uuid5 == uuid5 && staging.nodeId == nodeId
      invariant |outcomes| == i && fresh(staging)
      invariant (exists j :: 0 <= j < i && outcomes[j].Returned?) ==> staging.staged == VectorIds(uuid5, records)
      invariant forall j :: 0 <= j < i && outcomes[j].Returned? ==> outcomes[j].vectorIds == VectorIds(uuid5, records)
      invariant if SomeSaves(calls, outcomes) then staging.GraphBuilt() else staging.graph == before
    {
      var outcome := staging.Run(calls[i]);
      OneMoreCall(calls, outcomes, outcome);
      outcomes := outcomes + [outcome];
    }
    StagedAreExpected(uuid5, records);
  }

  lemma NoCallYet(calls: seq<Call>)
    ensures !SomeSaves(calls, [])
  {
  }

  lemma OneMoreCall(calls: seq<Call>, outcomes: seq<Outcome>, outcome: Outcome)
    requires |outcomes| < |calls|
    ensures SomeSaves(calls, outcomes + [outcome]) <==> SomeSaves(calls, outcomes) || Saves(calls[|outcomes|], outcome)
  {
    var n, all := |outcomes|, outcomes + [outcome];
    assert all[n] == outcome;
    if i :| 0 <= i < n && Saves(calls[i], outcomes[i]) { assert all[i] == outcomes[i]; }
  }

  /** A call that returns, with a complete checkpoint and no graph at all: its snapshot write
      failed. Resuming it saves the graph without staging anything again. */
  method ReturnsWithoutGraph(records: seq<Record>, uuid5: string -> string, idDigest: set<string> -> string, nodeId: string -> string,
                             batchSize: nat)
    returns (staging: Staging, first: Outcome, unsaved: Option<SavedGraph>, checkpoint: Option<Checkpoint>, second: Outcome)
    requires Canonical(records) && batchSize >= 1
    ensures first.Returned? && unsaved == None && checkpoint.Some? && checkpoint.value.complete
    ensures fresh(staging) && second.Returned? && second.vectorIds == first.vectorIds && second.batches == first.batches && staging.GraphBuilt()
  {
    hide VectorIds, Canonical, BatchCount;
    staging := new Staging(records, uuid5, idDigest, nodeId, None);
    var plan := staging.PlanDigest();
    first := staging.Run(Call(false, true, batchSize, plan, map[], false, Undisturbed));
    unsaved, checkpoint := staging.graph, staging.checkpoint;
    staging.CompleteIsExact(first.batches);
    BatchCountOfNone(batchSize);
    hide *;
    second := staging.Run(Call(true, true, batchSize, plan, map[], true, Undisturbed));
  }
}
