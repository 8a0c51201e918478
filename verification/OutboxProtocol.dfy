/** Many workers on one outbox: every interleaving of selects, conditional claims, provider
    writes, commits, crashes and stale resets. */
module OutboxProtocol {
  import opened Options
  import opened Outbox

  /** Which providers the workers were built with, and max_retries. */
  datatype Config = Config(embedder: bool, vectorStore: bool, graphRouter: bool, maxRetries: nat)

  /** `vectored` and `graphed` are the claims whose provider call returned without error. */
  datatype Worker =
    | Idle
    | Selected(candidates: seq<string>)
    | Running(claims: set<string>, vectored: set<string>, graphed: set<string>)

  /** `vectors` and `graph` are the entries whose effect has reached the store. */
  datatype State = State(entries: Table, vectors: set<string>, graph: set<string>, workers: map<nat, Worker>)

  /** A vector store is written to only by way of an embedder. */
  predicate Upserts(c: Config) {
    c.embedder && c.vectorStore
  }

  /** A belief without a proposition is not embedded. */
  predicate NeedsVector(c: Config, e: Entry) {
    Upserts(c) && (e.operation.IndexFact? || (e.operation.IndexBelief? && e.payload != ""))
  }

  predicate NeedsGraph(c: Config, e: Entry) {
    c.graphRouter && (e.operation.IndexFact? || e.operation.IndexDecision? || e.operation.IndexSkill?)
  }

  /** The effect of the entry is in the stores. */
  predicate Indexed(c: Config, s: State, id: string)
    requires id in s.entries
  {
    && !s.entries[id].operation.UnknownOperation?
    && (NeedsVector(c, s.entries[id]) ==> id in s.vectors)
    && (NeedsGraph(c, s.entries[id]) ==> id in s.graph)
  }

  predicate IsRunning(s: State, w: nat) {
    w in s.workers && s.workers[w].Running?
  }

  /** Claimed by a worker that is still alive. */
  predicate LiveClaim(s: State, id: string) {
    exists w :: w in s.workers && s.workers[w].Running? && id in s.workers[w].claims
  }

  datatype Step =
    | AddEntry(entry: Entry)
    | ResetStaleStep(cutoff: int)
    | SelectStep(w: nat, limit: nat)
    | ClaimStep(w: nat, now: int)
    | VectorStep(w: nat, ids: set<string>, written: set<string>, ok: bool)
    | GraphStep(w: nat, ids: set<string>, written: set<string>, ok: bool)
    | CompleteStep(w: nat, id: string, now: int)
    | RetryStep(w: nat, id: string, message: string, now: int)
    | FinishStep(w: nat)
    | CrashStep(w: nat)

  /** May this step be taken here? */
  predicate Enabled(c: Config, s: State, step: Step) {
    match step
    case AddEntry(e) => e.id !in s.entries && e.status.Pending? && e.retryCount == 0
    case ResetStaleStep(_) => true
    case SelectStep(w, _) => w !in s.workers || s.workers[w].Idle?
    case ClaimStep(w, _) => w in s.workers && s.workers[w].Selected?
    case VectorStep(w, ids, written, ok) =>
      IsRunning(s, w) && ids <= s.workers[w].claims && written <= ids && (ok ==> written == ids)
    case GraphStep(w, ids, written, ok) =>
      && IsRunning(s, w) && ids <= s.workers[w].claims && written <= ids && (ok ==> written == ids)
      && forall id :: id in ids && id in s.entries && NeedsVector(c, s.entries[id]) ==> id in s.workers[w].vectored
    case CompleteStep(w, id, _) =>
      && IsRunning(s, w) && id in s.workers[w].claims && id in s.entries
      && !s.entries[id].operation.UnknownOperation?
      && (NeedsVector(c, s.entries[id]) ==> id in s.workers[w].vectored)
      && (NeedsGraph(c, s.entries[id]) ==> id in s.workers[w].graphed)
    case RetryStep(w, id, _, _) => IsRunning(s, w) && id in s.workers[w].claims
    case FinishStep(w) => IsRunning(s, w) && s.workers[w].claims == {}
    case CrashStep(w) => w in s.workers
  }

  function Apply(c: Config, s: State, step: Step): State
    requires Enabled(c, s, step)
  {
    match step
    case AddEntry(e) => s.(entries := s.entries[e.id := e])
    case ResetStaleStep(cutoff) => s.(entries := ResetStale(s.entries, cutoff))
    case SelectStep(w, limit) => s.(workers := s.workers[w := Selected(Candidates(s.entries, limit))])
    case ClaimStep(w, now) =>
      var candidates := s.workers[w].candidates;
      s.(entries := Claim(s.entries, candidates, now),
         workers := s.workers[w := Running(ClaimedIds(s.entries, candidates), {}, {})])
    case VectorStep(w, ids, written, ok) =>
      var r := s.workers[w];
      s.(vectors := s.vectors + written,
         workers := s.workers[w := if ok then r.(vectored := r.vectored + ids) else r])
    case GraphStep(w, ids, written, ok) =>
      var r := s.workers[w];
      s.(graph := s.graph + written,
         workers := s.workers[w := if ok then r.(graphed := r.graphed + ids) else r])
    case CompleteStep(w, id, now) =>
      var r := s.workers[w];
      s.(entries := MarkCompleted(s.entries, id, now),
         workers := s.workers[w := r.(claims := r.claims - {id})])
    case RetryStep(w, id, message, now) =>
      var r := s.workers[w];
      s.(entries := RetryOrFail(s.entries, id, message, c.maxRetries, now),
         workers := s.workers[w := r.(claims := r.claims - {id})])
    case FinishStep(w) => s.(workers := s.workers[w := Idle])
    case CrashStep(w) => s.(workers := s.workers[w := Idle])
  }

  // ----- what holds over every run -----

  predicate Honest(s: State, r: Worker) {
    r.Running? ==> r.vectored <= s.vectors && r.graphed <= s.graph && r.claims <= s.entries.Keys
  }

  predicate EntrySound(c: Config, s: State, id: string)
    requires id in s.entries
  {
    var e := s.entries[id];
    && e.id == id
    && (Live(e) ==> e.retryCount < c.maxRetries)
    && (e.status.Failed? ==> e.retryCount >= c.maxRetries)
    && (e.status.Completed? ==> Indexed(c, s, id))
  }

  predicate Sound(c: Config, s: State) {
    && c.maxRetries >= 1
    && (forall id :: id in s.entries ==> EntrySound(c, s, id))
    && (forall w :: w in s.workers ==> Honest(s, s.workers[w]))
  }

  predicate Initial(s: State) {
    s.entries == map[] && s.workers == map[]
  }

  /** A completed entry has been indexed, an entry awaiting work has a retry left, a failed one
      has none: kept by every step, stale resets and stale workers included. */
  lemma StepKeepsSound(c: Config, s: State, step: Step)
    requires Sound(c, s) && Enabled(c, s, step)
    ensures Sound(c, Apply(c, s, step))
  {
    hide Candidates;
    var t := Apply(c, s, step);
    forall id | id in t.entries ensures EntrySound(c, t, id) {
      if id in s.entries { assert EntrySound(c, s, id); }
    }
    forall w | w in t.workers ensures Honest(t, t.workers[w]) {
      if w in s.workers { assert Honest(s, s.workers[w]); }
    }
  }

  /** Effects are never taken back. */
  lemma EffectsStay(c: Config, s: State, step: Step)
    requires Enabled(c, s, step)
    ensures s.vectors <= Apply(c, s, step).vectors && s.graph <= Apply(c, s, step).graph
    ensures s.entries.Keys <= Apply(c, s, step).entries.Keys
    ensures forall id :: id in s.entries ==>
      && Apply(c, s, step).entries[id].operation == s.entries[id].operation
      && Apply(c, s, step).entries[id].payload == s.entries[id].payload
  {
    hide Candidates;
  }

  function Run(c: Config, s: State, steps: seq<Step>): Option<State>
    decreases |steps|
  {
    if steps == [] then Some(s)
    else if Enabled(c, s, steps[0]) then Run(c, Apply(c, s, steps[0]), steps[1..])
    else None
  }

  lemma {:induction false} RunKeepsSound(c: Config, s: State, steps: seq<Step>)
    requires Sound(c, s) && Run(c, s, steps).Some?
    ensures Sound(c, Run(c, s, steps).value)
    decreases |steps|
  {
    hide Apply, Enabled, Sound;
    if steps != [] {
      StepKeepsSound(c, s, steps[0]);
      RunKeepsSound(c, Apply(c, s, steps[0]), steps[1..]);
    }
  }

  lemma {:induction false} RunKeepsIndexed(c: Config, s: State, steps: seq<Step>, id: string)
    requires id in s.entries && Indexed(c, s, id) && Run(c, s, steps).Some?
    ensures id in Run(c, s, steps).value.entries && Indexed(c, Run(c, s, steps).value, id)
    decreases |steps|
  {
    hide Apply, Enabled;
    if steps != [] {
      EffectsStay(c, s, steps[0]);
      RunKeepsIndexed(c, Apply(c, s, steps[0]), steps[1..], id);
    }
  }

  /** After any run from an empty queue: an entry awaiting work has a retry left, a failed one
      has none, and a completed one has reached the stores it asks for. */
  lemma RunsAreSafe(c: Config, init: State, steps: seq<Step>, id: string)
    requires c.maxRetries >= 1 && Initial(init) && Run(c, init, steps).Some? && id in Run(c, init, steps).value.entries
    ensures var t := Run(c, init, steps).value; var e := t.entries[id];
      && (e.status in {Pending, Processing} ==> e.retryCount < c.maxRetries)
      && (e.status == Failed ==> e.retryCount >= c.maxRetries)
      && (e.status == Completed && c.embedder && c.vectorStore && e.operation == IndexFact ==> id in t.vectors)
      && (e.status == Completed && c.graphRouter && e.operation in {IndexFact, IndexDecision, IndexSkill} ==> id in t.graph)
  {
    RunKeepsSound(c, init, steps);
    assert EntrySound(c, Run(c, init, steps).value, id);
  }

  /** Once an entry has been completed its effect is in the stores for the rest of any run,
      even when a stale worker moves the entry back to pending afterwards. */
  lemma CompletedMeansIndexed(c: Config, init: State, before: seq<Step>, after: seq<Step>, id: string)
    requires c.maxRetries >= 1 && Initial(init)
    requires Run(c, init, before).Some? && Run(c, Run(c, init, before).value, after).Some?
    requires var mid := Run(c, init, before).value; id in mid.entries && mid.entries[id].status.Completed?
    ensures var end := Run(c, Run(c, init, before).value, after).value;
      && id in end.entries
      && var operation, payload := end.entries[id].operation, end.entries[id].payload;
      && operation in {IndexFact, IndexDecision, IndexSkill, IndexBelief}
      && (c.embedder && c.vectorStore && (operation == IndexFact || (operation == IndexBelief && payload != "")) ==> id in end.vectors)
      && (c.graphRouter && operation in {IndexFact, IndexDecision, IndexSkill} ==> id in end.graph)
  {
    RunKeepsSound(c, init, before);
    var mid := Run(c, init, before).value;
    assert EntrySound(c, mid, id);
    RunKeepsIndexed(c, mid, after, id);
  }

  /** The one step that undoes a completion: a retry by a worker that still holds a claim on it. */
  lemma CompletionUndoneIff(c: Config, s: State, step: Step, id: string)
    requires Sound(c, s) && Enabled(c, s, step)
    requires id in s.entries && s.entries[id].status.Completed?
    ensures !Apply(c, s, step).entries[id].status.Completed? <==> step.RetryStep? && step.id == id
    ensures step.RetryStep? && step.id == id ==> LiveClaim(s, id)
  {
    hide Candidates;
  }

  // ----- what holds while no live claim is stale-reset -----

  /** The hypothesis: a reset only finds entries whose worker is gone. */
  predicate Quiet(s: State, step: Step) {
    step.ResetStaleStep? ==> forall id :: id in StaleIds(s.entries, step.cutoff) ==> !LiveClaim(s, id)
  }

  ghost predicate Exclusive(c: Config, s: State) {
    && (forall w, id :: IsRunning(s, w) && id in s.workers[w].claims ==> id in s.entries && s.entries[id].status.Processing?)
    && (forall v, w :: IsRunning(s, v) && IsRunning(s, w) && v != w ==> s.workers[v].claims !! s.workers[w].claims)
    && (forall id :: id in s.entries && s.entries[id].status.Failed? ==> s.entries[id].retryCount == c.maxRetries)
  }

  lemma ClaimIsExclusive(c: Config, s: State, w: nat, now: int)
    requires Exclusive(c, s) && Enabled(c, s, ClaimStep(w, now))
    ensures Exclusive(c, Apply(c, s, ClaimStep(w, now)))
  {
    hide Candidates;
    var t := Apply(c, s, ClaimStep(w, now));
    forall v, id | IsRunning(t, v) && id in t.workers[v].claims ensures id in t.entries && t.entries[id].status.Processing? {
      if v != w { assert IsRunning(s, v) && id in s.workers[v].claims; }
    }
    forall u, v | IsRunning(t, u) && IsRunning(t, v) && u != v ensures t.workers[u].claims !! t.workers[v].claims {
      if u != w && v != w { assert IsRunning(s, u) && IsRunning(s, v); }
      else {
        var o := if u == w then v else u;
        assert IsRunning(s, o);
      }
    }
  }

  lemma SettlingIsExclusive(c: Config, s: State, step: Step)
    requires Sound(c, s) && Exclusive(c, s) && Enabled(c, s, step)
    requires step.CompleteStep? || step.RetryStep?
    ensures Exclusive(c, Apply(c, s, step))
  {
    var t := Apply(c, s, step);
    assert IsRunning(s, step.w) && step.id in s.workers[step.w].claims;
    assert EntrySound(c, s, step.id);
    forall v, id | IsRunning(t, v) && id in t.workers[v].claims ensures id in t.entries && t.entries[id].status.Processing? {
      assert IsRunning(s, v) && id in s.workers[v].claims;
      assert id != step.id;
    }
    forall u, v | IsRunning(t, u) && IsRunning(t, v) && u != v ensures t.workers[u].claims !! t.workers[v].claims {
      assert IsRunning(s, u) && IsRunning(s, v);
    }
  }

  lemma OtherStepsAreExclusive(c: Config, s: State, step: Step)
    requires Exclusive(c, s) && Enabled(c, s, step) && Quiet(s, step)
    requires !step.CompleteStep? && !step.RetryStep? && !step.ClaimStep?
    ensures Exclusive(c, Apply(c, s, step))
  {
    hide Candidates;
    var t := Apply(c, s, step);
    forall v, id | IsRunning(t, v) && id in t.workers[v].claims ensures id in t.entries && t.entries[id].status.Processing? {
      assert IsRunning(s, v) && id in s.workers[v].claims;
      assert LiveClaim(s, id);
    }
    forall u, v | IsRunning(t, u) && IsRunning(t, v) && u != v ensures t.workers[u].claims !! t.workers[v].claims {
      assert IsRunning(s, u) && IsRunning(s, v);
    }
  }

  /** Claims of different workers stay disjoint whatever their selects saw. */
  lemma StepKeepsExclusive(c: Config, s: State, step: Step)
    requires Sound(c, s) && Exclusive(c, s) && Enabled(c, s, step) && Quiet(s, step)
    ensures Exclusive(c, Apply(c, s, step))
  {
    if step.ClaimStep? {
      ClaimIsExclusive(c, s, step.w, step.now);
    } else if step.CompleteStep? || step.RetryStep? {
      SettlingIsExclusive(c, s, step);
    } else {
      OtherStepsAreExclusive(c, s, step);
    }
  }

  /** A run in which no live claim is reset. */
  predicate QuietRun(c: Config, s: State, steps: seq<Step>)
    decreases |steps|
  {
    steps == [] || (Enabled(c, s, steps[0]) && Quiet(s, steps[0]) && QuietRun(c, Apply(c, s, steps[0]), steps[1..]))
  }

  lemma {:induction false} QuietRunKeepsExclusive(c: Config, s: State, steps: seq<Step>)
    requires Sound(c, s) && Exclusive(c, s) && QuietRun(c, s, steps)
    ensures Run(c, s, steps).Some? && Sound(c, Run(c, s, steps).value) && Exclusive(c, Run(c, s, steps).value)
    decreases |steps|
  {
    if steps != [] {
      hide Apply, Enabled, Sound, Exclusive, Quiet;
      StepKeepsSound(c, s, steps[0]);
      StepKeepsExclusive(c, s, steps[0]);
      QuietRunKeepsExclusive(c, Apply(c, s, steps[0]), steps[1..]);
    }
  }

  /** In such a run from an empty queue no two workers ever claim one entry, what is claimed
      is in processing, and a failed entry has failed exactly as often as it may. */
  lemma QuietRunsAreExclusive(c: Config, init: State, steps: seq<Step>)
    requires c.maxRetries >= 1 && Initial(init) && QuietRun(c, init, steps)
    ensures Run(c, init, steps).Some?
    ensures var t := Run(c, init, steps).value;
      && (forall v, w, id :: v in t.workers && w in t.workers && v != w && t.workers[v].Running? && t.workers[w].Running? ==>
            !(id in t.workers[v].claims && id in t.workers[w].claims))
      && (forall w, id :: w in t.workers && t.workers[w].Running? && id in t.workers[w].claims ==> id in t.entries && t.entries[id].status == Processing)
      && (forall id :: id in t.entries && t.entries[id].status == Failed ==> t.entries[id].retryCount == c.maxRetries)
  {
    QuietRunKeepsExclusive(c, init, steps);
    var t := Run(c, init, steps).value;
    assert forall w :: w in t.workers && t.workers[w].Running? <==> IsRunning(t, w);
    hide Run, QuietRun;
  }

  /** A crash loses no entry: nobody claims what the worker had claimed, and a reset that finds
      it old enough makes it pending again. */
  lemma CrashIsRecovered(c: Config, s: State, w: nat, id: string, cutoff: int)
    requires Sound(c, s) && Exclusive(c, s) && IsRunning(s, w) && id in s.workers[w].claims && id in s.entries
    requires s.entries[id].processedAt.Some? && s.entries[id].processedAt.value < cutoff
    ensures Run(c, s, [CrashStep(w)]).Some? && Run(c, s, [CrashStep(w), ResetStaleStep(cutoff)]).Some?
    ensures !LiveClaim(Run(c, s, [CrashStep(w)]).value, id)
    ensures var t := Run(c, s, [CrashStep(w), ResetStaleStep(cutoff)]).value;
      id in t.entries && t.entries[id] == s.entries[id].(status := Pending, processedAt := None)
  {
    var t := Apply(c, s, CrashStep(w));
    var u := Apply(c, t, ResetStaleStep(cutoff));
    var steps := [CrashStep(w), ResetStaleStep(cutoff)];
    assert steps[1..] == [ResetStaleStep(cutoff)] && steps[1..][1..] == [] && [CrashStep(w)][1..] == [];
    assert Run(c, t, []) == Some(t) && Run(c, u, []) == Some(u);
    assert Run(c, t, steps[1..]) == Some(u);
    forall v | v in t.workers && IsRunning(t, v) ensures id !in t.workers[v].claims {
      assert IsRunning(s, v) && v != w;
    }
  }

  /** Completed and failed are absorbing. */
  lemma SettledStays(c: Config, s: State, step: Step, id: string)
    requires Sound(c, s) && Exclusive(c, s) && Enabled(c, s, step) && Quiet(s, step)
    requires id in s.entries && !Live(s.entries[id])
    ensures Apply(c, s, step).entries[id] == s.entries[id]
  {
    hide Candidates;
    if step.CompleteStep? || step.RetryStep? {
      assert IsRunning(s, step.w) && step.id in s.workers[step.w].claims;
    }
  }

  // ----- progress -----

  /** How many claims the step settles. */
  function Settled(step: Step): nat {
    if step.CompleteStep? || step.RetryStep? then 1 else 0
  }

  /** In a closed queue no step adds work, and each settled claim uses some up. */
  lemma StepSpendsPotential(c: Config, s: State, step: Step)
    requires Sound(c, s) && Exclusive(c, s) && Enabled(c, s, step) && Quiet(s, step) && !step.AddEntry?
    ensures Potential(Apply(c, s, step).entries, c.maxRetries) + Settled(step) <= Potential(s.entries, c.maxRetries)
  {
    hide Candidates, Potential;
    var t := Apply(c, s, step);
    if step.CompleteStep? || step.RetryStep? {
      assert IsRunning(s, step.w) && step.id in s.workers[step.w].claims;
      assert EntrySound(c, s, step.id);
      var message := if step.RetryStep? then step.message else "";
      SettlingCosts(s.entries, step.id, message, c.maxRetries, step.now);
    } else {
      PotentialSame(s.entries, t.entries, c.maxRetries);
    }
  }

  function ClaimsOf(s: State, w: nat): set<string> {
    if IsRunning(s, w) then s.workers[w].claims else {}
  }

  /** No step of `steps` adds an entry, resets a live claim, or takes worker `w` off its claims. */
  predicate PollSegment(c: Config, s: State, steps: seq<Step>, w: nat)
    decreases |steps|
  {
    if steps == [] then true
    else
      && Enabled(c, s, steps[0]) && Quiet(s, steps[0]) && !steps[0].AddEntry?
      && KeepsAt(steps[0], w)
      && PollSegment(c, Apply(c, s, steps[0]), steps[1..], w)
  }

  /** The steps that do not take `w` off its claims. */
  predicate KeepsAt(step: Step, w: nat) {
    && step != CrashStep(w) && step != FinishStep(w)
    && !(step.ClaimStep? && step.w == w) && !(step.SelectStep? && step.w == w)
  }

  lemma ClaimsShrink(c: Config, s: State, step: Step, w: nat)
    requires Enabled(c, s, step) && KeepsAt(step, w) && IsRunning(s, w)
    ensures var t := Apply(c, s, step); IsRunning(t, w) && |ClaimsOf(s, w)| <= |ClaimsOf(t, w)| + Settled(step)
  {
    hide Candidates, ClaimedIds, Claim, MarkCompleted, RetryOrFail, ResetStale;
    var t := Apply(c, s, step);
    if (step.CompleteStep? || step.RetryStep?) && step.w == w {
      OneLess(ClaimsOf(s, w), step.id);
    } else {
      assert ClaimsOf(s, w) == ClaimsOf(t, w);
    }
  }

  lemma OneLess(claims: set<string>, id: string)
    ensures |claims| <= |claims - {id}| + 1
  {
    assert claims <= (claims - {id}) + {id};
    if id in claims { assert claims == (claims - {id}) + {id}; } else { assert claims == claims - {id}; }
  }

  /** Over a poll of `w`, with any other workers interleaved, the work left drops by at least
      the number of claims `w` has settled; when it has settled them all, by the whole claim. */
  lemma {:induction false} PollSpendsPotential(c: Config, s: State, steps: seq<Step>, w: nat)
    requires Sound(c, s) && Exclusive(c, s) && IsRunning(s, w) && PollSegment(c, s, steps, w)
    ensures Run(c, s, steps).Some?
    ensures var t := Run(c, s, steps).value;
      && Sound(c, t) && Exclusive(c, t) && IsRunning(t, w)
      && Potential(t.entries, c.maxRetries) + |ClaimsOf(s, w)| <= Potential(s.entries, c.maxRetries) + |ClaimsOf(t, w)|
    decreases |steps|
  {
    if steps != [] {
      hide Apply, Enabled, Sound, Exclusive, Quiet, Potential, ClaimsOf, IsRunning, KeepsAt;
      var t := Apply(c, s, steps[0]);
      StepKeepsSound(c, s, steps[0]);
      StepKeepsExclusive(c, s, steps[0]);
      StepSpendsPotential(c, s, steps[0]);
      ClaimsShrink(c, s, steps[0], w);
      PollSpendsPotential(c, t, steps[1..], w);
    }
  }

  /** A run of a closed queue: nothing is added and no live claim is reset, whatever else any
      workers do. */
  predicate ClosedRun(c: Config, s: State, steps: seq<Step>)
    decreases |steps|
  {
    steps == [] ||
    (Enabled(c, s, steps[0]) && Quiet(s, steps[0]) && !steps[0].AddEntry? && ClosedRun(c, Apply(c, s, steps[0]), steps[1..]))
  }

  /** How many claims are settled in a run, by all workers together. */
  function SettledIn(steps: seq<Step>): nat {
    if steps == [] then 0 else Settled(steps[0]) + SettledIn(steps[1..])
  }

  /** However many workers share a closed queue, the claims they settle over any run and the
      work still left are together no more than the work there was: they settle no more often
      than there were retries. */
  lemma {:induction false} ClosedRunSpendsPotential(c: Config, s: State, steps: seq<Step>)
    requires Sound(c, s) && Exclusive(c, s) && ClosedRun(c, s, steps)
    ensures Run(c, s, steps).Some?
    ensures var t := Run(c, s, steps).value;
      && Sound(c, t) && Exclusive(c, t)
      && Potential(t.entries, c.maxRetries) + SettledIn(steps) <= Potential(s.entries, c.maxRetries)
    decreases |steps|
  {
    if steps != [] {
      hide Apply, Enabled, Sound, Exclusive, Quiet, Potential, Settled;
      StepKeepsSound(c, s, steps[0]);
      StepKeepsExclusive(c, s, steps[0]);
      StepSpendsPotential(c, s, steps[0]);
      ClosedRunSpendsPotential(c, Apply(c, s, steps[0]), steps[1..]);
    }
  }

  /** The work left is used up exactly when every entry is completed or failed. */
  lemma DrainedIff(c: Config, s: State)
    requires Sound(c, s)
    ensures Potential(s.entries, c.maxRetries) == 0 <==> forall id :: id in s.entries ==> s.entries[id].status in {Completed, Failed}
  {
    NoCreditIff(s.entries, s.entries.Keys, c.maxRetries);
    forall id | id in s.entries ensures Credit(s.entries[id], c.maxRetries) == 0 <==> !Live(s.entries[id]) {
      assert EntrySound(c, s, id);
    }
  }

  lemma {:induction false} NoCreditIff(t: Table, ids: set<string>, maxRetries: nat)
    requires ids <= t.Keys
    ensures CreditOf(t, ids, maxRetries) == 0 <==> forall id :: id in ids ==> Credit(t[id], maxRetries) == 0
    decreases |ids|
  {
    if ids != {} {
      var id :| id in ids;
      CreditSplit(t, ids, id, maxRetries);
      NoCreditIff(t, ids - {id}, maxRetries);
    }
  }

  // ----- why the hypothesis is needed -----

  lemma {:induction false} RunAppend(c: Config, s: State, steps: seq<Step>, step: Step)
    requires Run(c, s, steps).Some? && Enabled(c, Run(c, s, steps).value, step)
    ensures Run(c, s, steps + [step]) == Some(Apply(c, Run(c, s, steps).value, step))
    decreases |steps|
  {
    hide Apply, Enabled;
    if steps == [] {
      assert [step][1..] == [];
      assert Run(c, Apply(c, s, step), []) == Some(Apply(c, s, step));
    } else {
      assert (steps + [step])[1..] == steps[1..] + [step];
      RunAppend(c, Apply(c, s, steps[0]), steps[1..], step);
    }
  }

  function OneEntry(e: Entry, workers: map<nat, Worker>): State {
    State(map[e.id := e], {}, {}, workers)
  }

  lemma SelectOnly(c: Config, e: Entry, workers: map<nat, Worker>, w: nat)
    requires e.status.Pending? && (w in workers ==> workers[w].Idle?)
    ensures Enabled(c, OneEntry(e, workers), SelectStep(w, 1))
    ensures Apply(c, OneEntry(e, workers), SelectStep(w, 1)) == OneEntry(e, workers[w := Selected([e.id])])
  {
    var t := OneEntry(e, workers).entries;
    assert e.id in t && t[e.id].status.Pending?;
    CandidatesArePending(t, 1);
    assert Candidates(t, 1)[0] in Candidates(t, 1);
    assert Candidates(t, 1) == [e.id];
  }

  lemma ClaimOnly(c: Config, e: Entry, workers: map<nat, Worker>, w: nat, now: int)
    requires e.status.Pending? && w in workers && workers[w] == Selected([e.id])
    ensures Enabled(c, OneEntry(e, workers), ClaimStep(w, now))
    ensures Apply(c, OneEntry(e, workers), ClaimStep(w, now)) ==
              OneEntry(e.(status := Processing, processedAt := Some(now)), workers[w := Running({e.id}, {}, {})])
  {
    var t := OneEntry(e, workers).entries;
    assert ClaimedIds(t, [e.id]) == {e.id} by { assert e.id in [e.id]; }
    assert Claim(t, [e.id], now) == map[e.id := e.(status := Processing, processedAt := Some(now))];
  }

  lemma ResetOnly(c: Config, e: Entry, workers: map<nat, Worker>, cutoff: int)
    requires IsStale(e, cutoff)
    ensures Enabled(c, OneEntry(e, workers), ResetStaleStep(cutoff))
    ensures Apply(c, OneEntry(e, workers), ResetStaleStep(cutoff)) ==
              OneEntry(e.(status := Pending, processedAt := None), workers)
  {
  }

  lemma LateRetry(e: Entry, held: Worker)
    requires e.status.Processing? && e.retryCount == 0 && e.operation.IndexFact? && held == Running({e.id}, {}, {})
    ensures var c, t := Config(false, false, false, 3), OneEntry(e, map[1 := held, 2 := held]);
      && Enabled(c, t, CompleteStep(2, e.id, 701))
      && var done := Apply(c, t, CompleteStep(2, e.id, 701));
      && e.id in done.entries && done.entries[e.id].status.Completed?
      && Enabled(c, done, RetryStep(1, e.id, "late", 702))
      && Apply(c, done, RetryStep(1, e.id, "late", 702)).entries[e.id].status.Pending?
  {
  }

  lemma SelectAndClaim(c: Config, s: State, steps: seq<Step>, e: Entry, workers: map<nat, Worker>, w: nat, now: int)
    requires Run(c, s, steps) == Some(OneEntry(e, workers))
    requires e.status.Pending? && (w in workers ==> workers[w].Idle?)
    ensures Run(c, s, steps + [SelectStep(w, 1), ClaimStep(w, now)]) ==
              Some(OneEntry(e.(status := Processing, processedAt := Some(now)), workers[w := Running({e.id}, {}, {})]))
  {
    hide Run, Apply, Enabled, OneEntry;
    SelectOnly(c, e, workers, w);
    RunAppend(c, s, steps, SelectStep(w, 1));
    var selected := workers[w := Selected([e.id])];
    ClaimOnly(c, e, selected, w, now);
    RunAppend(c, s, steps + [SelectStep(w, 1)], ClaimStep(w, now));
    assert steps + [SelectStep(w, 1)] + [ClaimStep(w, now)] == steps + [SelectStep(w, 1), ClaimStep(w, now)];
    assert selected[w := Running({e.id}, {}, {})] == workers[w := Running({e.id}, {}, {})];
  }

  /** Two workers: the first claims and stalls, a reset frees the entry, the second claims and
      completes it, the first then reports a failure. The completed entry is pending again. */
  lemma StaleWorkerReopensCompleted() returns (c: Config, s: State, steps: seq<Step>, late: Step, id: string)
    ensures c.maxRetries == 3 && Initial(s) && Run(c, s, steps).Some?
    ensures var t := Run(c, s, steps).value;
      && id in t.entries && t.entries[id].status.Completed?
      && Enabled(c, t, late)
      && Apply(c, t, late).entries[id].status.Pending?
  {
    c, s, id := Config(false, false, false, 3), State(map[], {}, {}, map[]), "e";
    var e := Entry(id, "r", IndexFact, "", Pending, 0, "", 0, None);
    var taken, held := e.(status := Processing, processedAt := Some(0)), Running({id}, {}, {});
    assert Run(c, s, []) == Some(s);
    assert Enabled(c, s, AddEntry(e)) && Apply(c, s, AddEntry(e)) == OneEntry(e, map[]);
    hide Run, Apply, Enabled, OneEntry;
    RunAppend(c, s, [], AddEntry(e));
    steps := [] + [AddEntry(e)];
    SelectAndClaim(c, s, steps, e, map[], 1, 0);
    steps := steps + [SelectStep(1, 1), ClaimStep(1, 0)];
    assert map[][1 := held] == map[1 := held];
    ResetOnly(c, taken, map[1 := held], 700);
    RunAppend(c, s, steps, ResetStaleStep(700));
    steps := steps + [ResetStaleStep(700)];
    SelectAndClaim(c, s, steps, e, map[1 := held], 2, 700);
    steps := steps + [SelectStep(2, 1), ClaimStep(2, 700)];
    assert map[1 := held][2 := held] == map[1 := held, 2 := held];
    LateRetry(e.(status := Processing, processedAt := Some(700)), held);
    RunAppend(c, s, steps, CompleteStep(2, id, 701));
    steps := steps + [CompleteStep(2, id, 701)];
    late := RetryStep(1, id, "late", 702);
  }
}
