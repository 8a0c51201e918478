/** Transitions of many sessions, interleaved statement by statement over one database
    with one writer at a time. */
module LifecycleRuns {
  import opened Options
  import opened Lifecycle

  /** Where a session stands inside LifecycleRepository.transition. */
  datatype Phase =
    | Idle
    | Ready(req: Request)
    | Checked(req: Request, seen: Version)
    | Swapped(t: Transition)
    | StateSet(t: Transition)

  /** `working` is the copy of the session that holds the write lock. A session without
      the lock reads what is committed. */
  datatype System = System(committed: Db, working: Db, holder: Option<string>, phases: map<string, Phase>)

  datatype Action =
    | Begin(w: string, req: Request)
    | Read(w: string)
    | Update(w: string)
    | SetState(w: string)
    | RecordEvent(w: string)
    | Commit(w: string)
    | Rollback(w: string)

  function PhaseOf(s: System, w: string): Phase {
    if w in s.phases then s.phases[w] else Idle
  }

  function View(s: System, w: string): Db {
    if s.holder == Some(w) then s.working else s.committed
  }

  /** Every exception leads here, and so does a crash of the session. */
  function RolledBack(s: System, w: string): System {
    var t := s.(phases := s.phases[w := Idle]);
    if s.holder == Some(w) then t.(holder := None, working := s.committed) else t
  }

  predicate Enabled(s: System, a: Action) {
    match a
    case Begin(w, _) => PhaseOf(s, w).Idle?
    case Read(w) => PhaseOf(s, w).Ready?
    case Update(w) => PhaseOf(s, w).Checked? && (s.holder == None || s.holder == Some(w))
    case SetState(w) => PhaseOf(s, w).Swapped?
    case RecordEvent(w) => PhaseOf(s, w).StateSet?
    case Commit(w) => PhaseOf(s, w).Idle? && s.holder == Some(w)
    case Rollback(_) => true
  }

  function Perform(s: System, a: Action): System
    requires Enabled(s, a)
  {
    match a
    case Begin(w, req) => s.(phases := s.phases[w := Ready(req)])
    case Read(w) =>
      var req := PhaseOf(s, w).req;
      if ReadAdmits(View(s, w), req) then
        s.(phases := s.phases[w := Checked(req, View(s, w).memories[req.memory].version)])
      else RolledBack(s, w)
    case Update(w) =>
      var p := PhaseOf(s, w);
      if UpdateMatches(View(s, w), p.req, p.seen) && p.req.expected >= 0 then
        System(s.committed, Updated(View(s, w), p.req), Some(w),
               s.phases[w := Swapped(TransitionOf(View(s, w).memories[p.req.memory], p.req))])
      else RolledBack(s, w)
    case SetState(w) =>
      var t := PhaseOf(s, w).t;
      s.(working := s.working.(states := s.working.states + [StateRowOf(t)]), phases := s.phases[w := StateSet(t)])
    case RecordEvent(w) =>
      var t := PhaseOf(s, w).t;
      s.(working := s.working.(events := s.working.events + [EventRowOf(t)]), phases := s.phases[w := Idle])
    case Commit(w) => s.(committed := s.working, holder := None)
    case Rollback(w) => RolledBack(s, w)
  }

  // ----- the invariant -----

  /** The working copy with the rows its session is still to write. */
  function Finished(db: Db, p: Phase): Db {
    match p
    case Swapped(t) => Recorded(db, t)
    case StateSet(t) => db.(events := db.events + [EventRowOf(t)])
    case _ => db
  }

  /** A session that passed its check has seen the revision it expects. The row it will
      update is still that row, or has a greater revision. */
  predicate Fresh(db: Db, req: Request, seen: Version) {
    && NormalizeVersion(seen) == Some(req.expected)
    && req.memory in db.memories
    && var now := NormalizeVersion(db.memories[req.memory].version);
    && now.Some? && now.value >= req.expected
    && (now.value == req.expected ==> db.memories[req.memory].version == seen && db.memories[req.memory].state == req.from)
  }

  ghost predicate CheckedFresh(s: System) {
    forall w :: w in s.phases && s.phases[w].Checked? ==> Fresh(View(s, w), s.phases[w].req, s.phases[w].seen)
  }

  ghost predicate OnlyHolderWrites(s: System) {
    forall w :: w in s.phases && (s.phases[w].Swapped? || s.phases[w].StateSet?) ==> s.holder == Some(w)
  }

  ghost predicate WorkingExtends(s: System) {
    s.holder.Some? ==> Extends(s.committed, Finished(s.working, PhaseOf(s, s.holder.value)))
  }

  ghost predicate Sound(origin: Db, s: System) {
    && Extends(origin, s.committed)
    && OnlyHolderWrites(s)
    && WorkingExtends(s)
    && CheckedFresh(s)
  }

  lemma FreshAfterTransitions(x: Memory, y: Memory, ts: seq<Transition>)
    requires Chained(x, y, ts)
    ensures x == y || (NormalizeVersion(x.version).Some? && NormalizeVersion(y.version).Some? && NormalizeVersion(x.version).value < NormalizeVersion(y.version).value)
  {
    if ts != [] {
      ChainedCounts(x, y, ts);
    }
  }

  /** A database that transitions have extended keeps a passed check fresh. */
  lemma FreshInExtension(a: Db, b: Db, req: Request, seen: Version)
    requires Extends(a, b) && Fresh(a, req, seen)
    ensures Fresh(b, req, seen)
  {
    hide Chained, NormalizeVersion;
    var m := req.memory;
    assert m in b.memories.Keys;
    FreshAfterTransitions(a.memories[m], b.memories[m], Of(Since(a, b), m));
  }

  lemma FreshAtRead(db: Db, req: Request)
    requires ReadAdmits(db, req)
    ensures Fresh(db, req, db.memories[req.memory].version)
  {
  }

  lemma RollbackKeepsSound(origin: Db, s: System, w: string)
    requires Sound(origin, s)
    ensures Sound(origin, RolledBack(s, w))
  {
    hide Extends, Fresh;
    var t := RolledBack(s, w);
    forall v | v in t.phases && t.phases[v].Checked? ensures Fresh(View(t, v), t.phases[v].req, t.phases[v].seen) {
      assert v in s.phases && View(t, v) == View(s, v);
    }
  }

  lemma UpdateExtends(s: System, w: string, req: Request)
    requires ReadAdmits(View(s, w), req) && (s.holder == None || s.holder == Some(w))
    requires WorkingExtends(s) && (s.holder == Some(w) ==> PhaseOf(s, w).Checked?)
    ensures Extends(s.committed, Recorded(Updated(View(s, w), req), TransitionOf(View(s, w).memories[req.memory], req)))
  {
    var db := View(s, w);
    TransitionExtends(db, req);
    hide Extends;
    ExtendsReflexive(s.committed);
    ExtendsTransitive(s.committed, db, Recorded(Updated(db, req), TransitionOf(db.memories[req.memory], req)));
  }

  /** The successful update takes the lock and leaves two rows to write. */
  lemma UpdateKeepsSound(origin: Db, s: System, w: string)
    requires Sound(origin, s) && Enabled(s, Update(w))
    ensures Sound(origin, Perform(s, Update(w)))
  {
    hide Extends;
    var p, db, t := PhaseOf(s, w), View(s, w), Perform(s, Update(w));
    assert Fresh(db, p.req, p.seen);
    hide NormalizeVersion;
    if !UpdateMatches(db, p.req, p.seen) || p.req.expected < 0 {
      RollbackKeepsSound(origin, s, w);
    } else {
      UpdateExtends(s, w, p.req);
      hide Fresh, UpdateMatches, ReadAdmits, Updated, TransitionOf;
      forall v | v in t.phases && t.phases[v].Checked? ensures Fresh(View(t, v), t.phases[v].req, t.phases[v].seen) {
        assert v in s.phases && v != w && View(t, v) == View(s, v);
      }
    }
  }

  lemma CommitKeepsSound(origin: Db, s: System, w: string)
    requires Sound(origin, s) && Enabled(s, Commit(w))
    ensures Sound(origin, Perform(s, Commit(w)))
  {
    hide Extends, Fresh;
    var t := Perform(s, Commit(w));
    ExtendsTransitive(origin, s.committed, s.working);
    forall v | v in t.phases && t.phases[v].Checked? ensures Fresh(View(t, v), t.phases[v].req, t.phases[v].seen) {
      FreshInExtension(s.committed, s.working, s.phases[v].req, s.phases[v].seen);
    }
  }

  /** Writing the state row or the event changes no memory and leaves less to finish. */
  lemma RowKeepsSound(origin: Db, s: System, a: Action)
    requires Sound(origin, s) && Enabled(s, a) && (a.SetState? || a.RecordEvent?)
    ensures Sound(origin, Perform(s, a))
  {
    hide Extends;
    var t := Perform(s, a);
    assert a.w in s.phases && s.holder == Some(a.w);
    assert Finished(t.working, PhaseOf(t, a.w)) == Finished(s.working, PhaseOf(s, a.w));
    forall v | v in t.phases && t.phases[v].Checked? ensures Fresh(View(t, v), t.phases[v].req, t.phases[v].seen) {
      assert v in s.phases && View(t, v).memories == View(s, v).memories;
    }
  }

  lemma ReadKeepsSound(origin: Db, s: System, a: Action)
    requires Sound(origin, s) && Enabled(s, a) && (a.Begin? || a.Read?)
    ensures Sound(origin, Perform(s, a))
  {
    hide Extends, Fresh;
    var t := Perform(s, a);
    if a.Read? && !ReadAdmits(View(s, a.w), PhaseOf(s, a.w).req) {
      RollbackKeepsSound(origin, s, a.w);
    } else {
      if a.Read? { FreshAtRead(View(s, a.w), PhaseOf(s, a.w).req); }
      forall v | v in t.phases && t.phases[v].Checked? ensures Fresh(View(t, v), t.phases[v].req, t.phases[v].seen) {
        if v != a.w { assert v in s.phases && View(t, v) == View(s, v); }
      }
      if s.holder == Some(a.w) {
        assert Finished(t.working, PhaseOf(t, a.w)) == Finished(s.working, PhaseOf(s, a.w));
      }
    }
  }

  /** Every step of every session keeps the invariant. */
  lemma StepKeepsSound(origin: Db, s: System, a: Action)
    requires Sound(origin, s) && Enabled(s, a)
    ensures Sound(origin, Perform(s, a))
  {
    hide Sound, Perform;
    match a
    case Begin(_, _) => ReadKeepsSound(origin, s, a);
    case Read(_) => ReadKeepsSound(origin, s, a);
    case Update(w) => UpdateKeepsSound(origin, s, w);
    case SetState(_) => RowKeepsSound(origin, s, a);
    case RecordEvent(_) => RowKeepsSound(origin, s, a);
    case Commit(w) => CommitKeepsSound(origin, s, w);
    case Rollback(w) => RollbackIsRollback(s, w); RollbackKeepsSound(origin, s, w);
  }

  lemma RollbackIsRollback(s: System, w: string)
    ensures Perform(s, Rollback(w)) == RolledBack(s, w)
  {
  }

  // ----- runs -----

  predicate Runs(s: System, actions: seq<Action>)
    decreases |actions|
  {
    actions == [] || (Enabled(s, actions[0]) && Runs(Perform(s, actions[0]), actions[1..]))
  }

  function AfterRun(s: System, actions: seq<Action>): System
    requires Runs(s, actions)
    decreases |actions|
  {
    if actions == [] then s else AfterRun(Perform(s, actions[0]), actions[1..])
  }

  function Start(db: Db): System {
    System(db, db, None, map[])
  }

  lemma {:induction false} RunKeepsSound(origin: Db, s: System, actions: seq<Action>)
    requires Sound(origin, s) && Runs(s, actions)
    ensures Sound(origin, AfterRun(s, actions))
    decreases |actions|
  {
    hide Sound, Perform;
    if actions != [] {
      StepKeepsSound(origin, s, actions[0]);
      RunKeepsSound(origin, Perform(s, actions[0]), actions[1..]);
    }
  }

  lemma StartIsSound(db: Db)
    ensures Sound(db, Start(db))
  {
    ExtendsReflexive(db);
  }

  /** Whatever the interleaving, what is committed is the origin plus whole transitions:
      one event and one state row each, in one order. */
  lemma CommittedIsWholeTransitions(db: Db, actions: seq<Action>)
    requires Runs(Start(db), actions)
    ensures Extends(db, AfterRun(Start(db), actions).committed)
  {
    StartIsSound(db);
    RunKeepsSound(db, Start(db), actions);
  }

  /** For each memory the revision rises by the number of its transitions, their events
      chain from state to state, and no revision is left twice. */
  ghost predicate Consistent(before: Memory, now: Memory, ts: seq<Transition>) {
    && (ts == [] ==> now == before)
    && (ts != [] ==>
         && NormalizeVersion(before.version).Some?
         && NormalizeVersion(now.version) == Some(NormalizeVersion(before.version).value + |ts|)
         && ts[0].from == before.state && ts[|ts| - 1].to == now.state)
    && (forall i :: 0 < i < |ts| ==> ts[i].from == ts[i - 1].to)
    && (forall i, j :: 0 <= i < j < |ts| ==> ts[i].revision != ts[j].revision)
  }

  lemma ChainedIsConsistent(x: Memory, y: Memory, ts: seq<Transition>)
    requires Chained(x, y, ts)
    ensures Consistent(x, y, ts)
  {
    if ts != [] {
      ChainedCounts(x, y, ts);
      hide Chained, NormalizeVersion;
    }
  }

  /** Over every interleaving the committed database is consistent with where it began. */
  lemma RevisionsCountTransitions(db: Db, actions: seq<Action>, m: MemoryKey)
    requires Runs(Start(db), actions) && m in db.memories
    ensures var now := AfterRun(Start(db), actions).committed;
      && db.log <= now.log && m in now.memories
      && Consistent(db.memories[m], now.memories[m], Of(Since(db, now), m))
  {
    CommittedIsWholeTransitions(db, actions);
    var now := AfterRun(Start(db), actions).committed;
    hide AfterRun, Runs, Consistent, Chained;
    assert m in now.memories.Keys;
    ChainedIsConsistent(db.memories[m], now.memories[m], Of(Since(db, now), m));
  }

  lemma SwapSucceedsIffAdmitted(origin: Db, s: System, w: string)
    requires Sound(origin, s) && Enabled(s, Update(w))
    ensures var req := PhaseOf(s, w).req;
      PhaseOf(Perform(s, Update(w)), w).Swapped? <==> NormalizeVersion(View(s, w).memories[req.memory].version) == Some(req.expected)
  {
    var p := PhaseOf(s, w);
    assert Fresh(View(s, w), p.req, p.seen);
  }

  /** No step in the run is taken by `w`. */
  predicate Without(acts: seq<Action>, w: string) {
    forall i :: 0 <= i < |acts| ==> acts[i].w != w
  }

  lemma OthersStep(origin: Db, s: System, a: Action, w: string)
    requires Sound(origin, s) && Enabled(s, a) && a.w != w
    ensures PhaseOf(Perform(s, a), w) == PhaseOf(s, w)
    ensures s.holder == Some(w) ==> Perform(s, a).holder == Some(w) && Perform(s, a).working == s.working && Perform(s, a).committed == s.committed
    ensures s.holder != Some(w) ==> Perform(s, a).holder != Some(w)
  {
    hide Extends, Fresh, ReadAdmits, UpdateMatches;
  }

  lemma {:induction false} OthersRun(origin: Db, s: System, acts: seq<Action>, w: string)
    requires Sound(origin, s) && Runs(s, acts) && Without(acts, w)
    ensures var t := AfterRun(s, acts);
      && PhaseOf(t, w) == PhaseOf(s, w)
      && (s.holder == Some(w) ==> t.holder == Some(w) && View(t, w) == View(s, w))
      && (s.holder != Some(w) ==> t.holder != Some(w))
    decreases |acts|
  {
    hide Sound, Perform, Enabled;
    if acts != [] {
      StepKeepsSound(origin, s, acts[0]);
      OthersStep(origin, s, acts[0], w);
      assert forall i :: 0 <= i < |acts[1..]| ==> acts[1..][i] == acts[i + 1];
      OthersRun(origin, Perform(s, acts[0]), acts[1..], w);
    }
  }

  /** What a session sees extends what it saw before the others moved. */
  lemma ViewExtends(origin: Db, s: System, acts: seq<Action>, w: string)
    requires Sound(origin, s) && Runs(s, acts) && Without(acts, w)
    ensures Extends(View(s, w), View(AfterRun(s, acts), w))
  {
    OthersRun(origin, s, acts, w);
    ExtendsReflexive(View(s, w));
    ExtendsReflexive(s.committed);
    hide Extends;
    RunKeepsSound(s.committed, s, acts);
  }

  lemma NothingChained(x: Memory, y: Memory)
    requires Chained(x, y, [])
    ensures x == y
  {
  }

  /** From a session's read to its update, whatever the others do in between: the swap
      succeeds exactly when no transition of the memory has been committed since the read. */
  lemma SwapSucceedsIffNoneCommitted(origin: Db, s: System, w: string, acts: seq<Action>)
    requires Sound(origin, s) && Enabled(s, Read(w)) && PhaseOf(Perform(s, Read(w)), w).Checked?
    requires Runs(Perform(s, Read(w)), acts) && Without(acts, w)
    requires Enabled(AfterRun(Perform(s, Read(w)), acts), Update(w))
    ensures var read, now, m := Perform(s, Read(w)), AfterRun(Perform(s, Read(w)), acts), PhaseOf(s, w).req.memory;
      && View(read, w) == View(s, w) && View(read, w).log <= View(now, w).log
      && (PhaseOf(Perform(now, Update(w)), w).Swapped? <==> Of(Since(View(s, w), View(now, w)), m) == [])
  {
    var read, req := Perform(s, Read(w)), PhaseOf(s, w).req;
    StepKeepsSound(origin, s, Read(w));
    assert ReadAdmits(View(s, w), req) && PhaseOf(read, w).req == req && View(read, w) == View(s, w);
    var now := AfterRun(read, acts);
    RunKeepsSound(origin, read, acts);
    OthersRun(origin, read, acts, w);
    ViewExtends(origin, read, acts, w);
    SwapSucceedsIffAdmitted(origin, now, w);
    var x, y, ts := View(s, w).memories[req.memory], View(now, w), Of(Since(View(s, w), View(now, w)), req.memory);
    assert req.memory in y.memories.Keys;
    hide AfterRun, Runs, Sound, Perform, Of, NormalizeVersion, StoredVersion;
    if ts == [] {
      NothingChained(x, y.memories[req.memory]);
    } else {
      ChainedCounts(x, y.memories[req.memory], ts);
    }
  }

  // ----- a unit of work that is not committed leaves no trace -----

  /** The run without the steps of `w`. */
  function Erased(acts: seq<Action>, w: string): seq<Action> {
    if acts == [] then []
    else (if acts[0].w == w then [] else [acts[0]]) + Erased(acts[1..], w)
  }

  /** `t` is `s` to everyone but `w`, who in `t` holds no lock. */
  ghost predicate SameToOthers(s: System, t: System, w: string) {
    && t.committed == s.committed
    && (forall v :: v != w && (v in s.phases || v in t.phases) ==> PhaseOf(t, v) == PhaseOf(s, v))
    && t.holder == (if s.holder == Some(w) then None else s.holder)
    && (t.holder.Some? ==> t.working == s.working)
  }

  lemma OwnStepUnseen(s: System, t: System, a: Action, w: string)
    requires SameToOthers(s, t, w) && Enabled(s, a) && a.w == w && !a.Commit? && OnlyHolderWrites(s)
    ensures SameToOthers(Perform(s, a), t, w)
  {
    hide ReadAdmits, UpdateMatches, Updated, TransitionOf;
  }

  lemma OthersStepAlike(s: System, t: System, a: Action, w: string)
    requires SameToOthers(s, t, w) && Enabled(s, a) && a.w != w && OnlyHolderWrites(s)
    ensures Enabled(t, a) && SameToOthers(Perform(s, a), Perform(t, a), w)
  {
    hide ReadAdmits, UpdateMatches, Updated, TransitionOf;
    assert PhaseOf(t, a.w) == PhaseOf(s, a.w) && View(t, a.w) == View(s, a.w);
  }

  lemma {:induction false} ErasedAlike(origin: Db, s: System, t: System, acts: seq<Action>, w: string)
    requires Sound(origin, s) && SameToOthers(s, t, w) && Runs(s, acts)
    requires forall i :: 0 <= i < |acts| && acts[i].w == w ==> !acts[i].Commit?
    ensures Runs(t, Erased(acts, w)) && SameToOthers(AfterRun(s, acts), AfterRun(t, Erased(acts, w)), w)
    decreases |acts|
  {
    hide Sound, Perform, Enabled, SameToOthers;
    if acts != [] {
      var a, rest := acts[0], acts[1..];
      StepKeepsSound(origin, s, a);
      HoldersWrite(origin, s);
      if a.w == w {
        OwnStepUnseen(s, t, a, w);
        ErasedAlike(origin, Perform(s, a), t, rest, w);
        assert Erased(acts, w) == Erased(rest, w);
      } else {
        OthersStepAlike(s, t, a, w);
        ErasedAlike(origin, Perform(s, a), Perform(t, a), rest, w);
        assert Erased(acts, w) == [a] + Erased(rest, w);
        assert Erased(acts, w)[1..] == Erased(rest, w);
      }
    }
  }

  lemma HoldersWrite(origin: Db, s: System)
    requires Sound(origin, s)
    ensures OnlyHolderWrites(s)
  {
  }

  /** A unit of work that conflicts, crashes or is given up before its commit might as well
      never have been: the run without it is a run too, and commits the same. */
  lemma UncommittedUnitLeavesNoTrace(origin: Db, s: System, acts: seq<Action>, w: string)
    requires Sound(origin, s) && s.holder != Some(w) && Runs(s, acts)
    requires forall i :: 0 <= i < |acts| && acts[i].w == w ==> !acts[i].Commit?
    ensures Runs(s, Erased(acts, w))
    ensures AfterRun(s, Erased(acts, w)).committed == AfterRun(s, acts).committed
  {
    ErasedAlike(origin, s, s, acts, w);
  }

  /** Until a commit, no step shows in the committed database. */
  lemma {:induction false} UncommittedIsInvisible(s: System, actions: seq<Action>)
    requires Runs(s, actions) && forall i :: 0 <= i < |actions| ==> !actions[i].Commit?
    ensures AfterRun(s, actions).committed == s.committed
    decreases |actions|
  {
    if actions != [] {
      UncommittedIsInvisible(Perform(s, actions[0]), actions[1..]);
    }
  }

  // ----- a unit of work, step by step -----

  function TransitionActions(w: string, req: Request): seq<Action> {
    [Begin(w, req), Read(w), Update(w), SetState(w), RecordEvent(w)]
  }

  function UnitActions(w: string, requests: seq<Request>): seq<Action> {
    if requests == [] then [] else TransitionActions(w, requests[0]) + UnitActions(w, requests[1..])
  }

  /** The write lock is free or with `w`, which is between two transitions. */
  predicate MayWrite(s: System, w: string) {
    PhaseOf(s, w).Idle? && (s.holder == None || s.holder == Some(w))
  }

  lemma OneAction(s: System, a: Action)
    requires Enabled(s, a)
    ensures Runs(s, [a]) && AfterRun(s, [a]) == Perform(s, a)
  {
    hide Enabled, Perform;
    assert [a][1..] == [];
    assert Runs(Perform(s, a), []);
  }

  lemma {:induction false} RunsInTurn(s: System, xs: seq<Action>, ys: seq<Action>)
    requires Runs(s, xs) && Runs(AfterRun(s, xs), ys)
    ensures Runs(s, xs + ys) && AfterRun(s, xs + ys) == AfterRun(AfterRun(s, xs), ys)
    decreases |xs|
  {
    hide Perform, Enabled;
    if xs == [] {
      assert xs + ys == ys;
    } else {
      assert (xs + ys)[1..] == xs[1..] + ys;
      RunsInTurn(Perform(s, xs[0]), xs[1..], ys);
    }
  }

  lemma OneMoreAction(s: System, xs: seq<Action>, a: Action)
    requires Runs(s, xs) && Enabled(AfterRun(s, xs), a)
    ensures Runs(s, xs + [a]) && AfterRun(s, xs + [a]) == Perform(AfterRun(s, xs), a)
  {
    hide Perform, Enabled;
    OneAction(AfterRun(s, xs), a);
    RunsInTurn(s, xs, [a]);
  }

  /** The five steps of an admitted transition, nobody in between. */
  lemma TransitionIsRun(s: System, w: string, req: Request)
    requires MayWrite(s, w) && Transitioned(View(s, w), req).Some?
    ensures Runs(s, TransitionActions(w, req))
    ensures var t := AfterRun(s, TransitionActions(w, req));
      MayWrite(t, w) && t.holder == Some(w) && t.committed == s.committed && View(t, w) == Transitioned(View(s, w), req).value
  {
    var acts := TransitionActions(w, req);
    OneAction(s, acts[0]);
    var s1 := Perform(s, acts[0]);
    assert Enabled(s1, acts[1]);
    OneMoreAction(s, [acts[0]], acts[1]);
    var s2 := Perform(s1, acts[1]);
    assert Enabled(s2, acts[2]);
    OneMoreAction(s, [acts[0]] + [acts[1]], acts[2]);
    var s3 := Perform(s2, acts[2]);
    assert Enabled(s3, acts[3]);
    OneMoreAction(s, [acts[0]] + [acts[1]] + [acts[2]], acts[3]);
    var s4 := Perform(s3, acts[3]);
    assert Enabled(s4, acts[4]);
    OneMoreAction(s, [acts[0]] + [acts[1]] + [acts[2]] + [acts[3]], acts[4]);
    assert acts == [acts[0]] + [acts[1]] + [acts[2]] + [acts[3]] + [acts[4]];
    hide Runs, AfterRun;
  }

  lemma {:induction false} UnitIsRun(s: System, w: string, requests: seq<Request>)
    requires MayWrite(s, w) && Applied(View(s, w), requests).Some?
    ensures Runs(s, UnitActions(w, requests))
    ensures var t := AfterRun(s, UnitActions(w, requests));
      && MayWrite(t, w) && t.committed == s.committed && View(t, w) == Applied(View(s, w), requests).value
      && (requests != [] ==> t.holder == Some(w))
    decreases |requests|
  {
    hide Perform, Enabled, Transitioned;
    if requests != [] {
      TransitionIsRun(s, w, requests[0]);
      var t := AfterRun(s, TransitionActions(w, requests[0]));
      UnitIsRun(t, w, requests[1..]);
      RunsInTurn(s, TransitionActions(w, requests[0]), UnitActions(w, requests[1..]));
    }
  }

  /** A unit of work, step by step and then committed, commits what the requests make of the
      database one after the other: what the repository's own unit of work makes. */
  lemma UnitCommits(s: System, w: string, requests: seq<Request>)
    requires MayWrite(s, w) && requests != [] && Applied(View(s, w), requests).Some?
    ensures Runs(s, UnitActions(w, requests) + [Commit(w)])
    ensures var t := AfterRun(s, UnitActions(w, requests) + [Commit(w)]);
      t.committed == Applied(View(s, w), requests).value && t.holder == None
  {
    UnitIsRun(s, w, requests);
    OneMoreAction(s, UnitActions(w, requests), Commit(w));
    hide Runs, AfterRun;
  }
}
