/** Lock owners of all processes, interleaved: acquiring in a fixed order, failing,
    owning with critical sections, releasing, crashing. */
module LockRuns {
  import opened Options
  import opened Text
  import opened Ordering
  import opened StorageLocks

  datatype Phase = Acquiring | Owning(critical: nat) | Releasing | Done

  /** One acquisition, of a runtime's lock or of maintenance locks. `held` are the
      entries its open descriptors lock. */
  datatype Owner = Owner(steps: seq<Step>, held: seq<Step>, phase: Phase)

  type System = map<nat, Owner>

  datatype Action =
    | Start(a: nat, steps: seq<Step>)
    | Grab(a: nat)
    | Fail(a: nat)
    | Drop(a: nat, i: nat)
    | Finish(a: nat)
    | BeginCritical(a: nat)
    | EndCritical(a: nat)
    | Release(a: nat)
    | Crash(a: nat)

  /** flock judges by descriptor, so an owner's own locks stand in its way as well. */
  predicate Free(s: System, step: Step) {
    forall b :: b in s ==> forall h :: h in s[b].held ==> !Conflict(h, step)
  }

  predicate Waiting(s: System, a: nat) {
    a in s && s[a].phase.Acquiring? && |s[a].held| < |s[a].steps|
  }

  function Awaited(s: System, a: nat): Step
    requires Waiting(s, a)
  {
    s[a].steps[|s[a].held|]
  }

  predicate Enabled(s: System, act: Action) {
    match act
    case Start(a, _) => a !in s
    case Grab(a) => Waiting(s, a) && Free(s, Awaited(s, a))
    case Fail(a) => Waiting(s, a)
    case Drop(a, i) => a in s && s[a].phase.Releasing? && i < |s[a].held|
    case Finish(a) => a in s && s[a].phase.Releasing? && s[a].held == []
    case BeginCritical(a) => a in s && s[a].phase.Owning? && s[a].held != []
    case EndCritical(a) => a in s && s[a].phase.Owning? && s[a].phase.critical > 0
    case Release(a) => a in s && s[a].phase.Owning?
    case Crash(a) => a in s
  }

  function PhaseFor(steps: seq<Step>, held: seq<Step>): Phase {
    if |held| == |steps| then Owning(0) else Acquiring
  }

  function Without<T>(xs: seq<T>, i: nat): seq<T>
    requires i < |xs|
  {
    xs[..i] + xs[i + 1..]
  }

  /** Descriptors may be dropped in any order, so also in the order of the code; a
      release inside a critical section is refused. */
  function Perform(s: System, act: Action): System
    requires Enabled(s, act)
  {
    match act
    case Start(a, steps) => s[a := Owner(steps, [], PhaseFor(steps, []))]
    case Grab(a) =>
      var held := s[a].held + [Awaited(s, a)];
      s[a := s[a].(held := held, phase := PhaseFor(s[a].steps, held))]
    case Fail(a) => s[a := s[a].(phase := Releasing)]
    case Drop(a, i) => s[a := s[a].(held := Without(s[a].held, i))]
    case Finish(a) => s[a := s[a].(phase := Done)]
    case BeginCritical(a) => s[a := s[a].(phase := Owning(s[a].phase.critical + 1))]
    case EndCritical(a) => s[a := s[a].(phase := Owning(s[a].phase.critical - 1))]
    case Release(a) => if s[a].phase.critical > 0 then s else s[a := s[a].(phase := Releasing)]
    case Crash(a) => s - {a}
  }

  // ----- exclusion -----

  predicate Apart(x: Owner, y: Owner) {
    forall h, k :: h in x.held && k in y.held ==> !Conflict(h, k)
  }

  predicate ApartFromItself(x: Owner) {
    forall i, j :: 0 <= i < j < |x.held| ==> !Conflict(x.held[i], x.held[j])
  }

  /** No two descriptors lock one entry unless both are shared. */
  predicate Exclusion(s: System) {
    && (forall a, b :: a in s && b in s && a != b ==> Apart(s[a], s[b]))
    && (forall a :: a in s ==> ApartFromItself(s[a]))
  }

  /** How much of its steps an owner holds in each phase. */
  predicate Holds(x: Owner) {
    match x.phase
    case Acquiring => |x.held| < |x.steps| && x.held == x.steps[..|x.held|]
    case Owning(_) => x.held == x.steps
    case Releasing => true
    case Done => x.held == []
  }

  predicate Sound(s: System) {
    Exclusion(s) && forall a :: a in s ==> Holds(s[a])
  }

  /** Changing one owner keeps the others apart from it if it gains nothing that is taken. */
  lemma ReplaceKeepsExclusion(s: System, a: nat, x: Owner)
    requires Exclusion(s) && ApartFromItself(x)
    requires forall b :: b in s && b != a ==> Apart(x, s[b])
    ensures Exclusion(s[a := x])
  {
    hide ApartFromItself, Conflict;
    var t := s[a := x];
    forall b, c | b in t && c in t && b != c ensures Apart(t[b], t[c]) {
      if b == a { assert Apart(x, s[c]); }
      if c == a { ApartSymmetric(x, s[b]); }
    }
  }

  lemma GrabKeepsExclusion(s: System, a: nat)
    requires Exclusion(s) && Enabled(s, Grab(a))
    ensures Exclusion(Perform(s, Grab(a)))
  {
    hide Conflict;
    var x, step := Perform(s, Grab(a))[a], Awaited(s, a);
    forall b | b in s && b != a ensures Apart(x, s[b]) {
      assert Apart(s[a], s[b]);
      forall h, k | h in x.held && k in s[b].held ensures !Conflict(h, k) {
        if h == step { ConflictSymmetric(k, h); }
      }
    }
    ReplaceKeepsExclusion(s, a, x);
  }

  lemma ApartSymmetric(x: Owner, y: Owner)
    requires Apart(x, y)
    ensures Apart(y, x)
  {
  }

  lemma ConflictSymmetric(a: Step, b: Step)
    ensures Conflict(a, b) == Conflict(b, a)
  {
  }

  lemma DropKeepsExclusion(s: System, a: nat, i: nat)
    requires Exclusion(s) && Enabled(s, Drop(a, i))
    ensures Exclusion(Perform(s, Drop(a, i)))
  {
    hide Conflict;
    var x := Perform(s, Drop(a, i))[a];
    assert forall h :: h in x.held ==> h in s[a].held;
    forall k, l | 0 <= k < l < |x.held| ensures !Conflict(x.held[k], x.held[l]) {
      var k', l' := if k < i then k else k + 1, if l < i then l else l + 1;
      assert x.held[k] == s[a].held[k'] && x.held[l] == s[a].held[l'];
    }
    ReplaceKeepsExclusion(s, a, x);
  }

  lemma StepKeepsExclusion(s: System, act: Action)
    requires Exclusion(s) && Enabled(s, act)
    ensures Exclusion(Perform(s, act))
  {
    match act
    case Start(a, steps) => ReplaceKeepsExclusion(s, a, Owner(steps, [], PhaseFor(steps, [])));
    case Grab(a) => GrabKeepsExclusion(s, a);
    case Drop(a, i) => DropKeepsExclusion(s, a, i);
    case Crash(a) =>
    case _ =>
      if Perform(s, act) != s { ReplaceKeepsExclusion(s, act.a, Perform(s, act)[act.a]); }
  }

  lemma StepKeepsHolds(s: System, act: Action)
    requires (forall a :: a in s ==> Holds(s[a])) && Enabled(s, act)
    ensures forall a :: a in Perform(s, act) ==> Holds(Perform(s, act)[a])
  {
    if act.Grab? {
      assert Holds(s[act.a]);
      var x := s[act.a];
      assert x.steps[..|x.held| + 1] == x.held + [Awaited(s, act.a)];
      assert x.steps[..|x.steps|] == x.steps;
    }
  }

  lemma StepKeepsSound(s: System, act: Action)
    requires Sound(s) && Enabled(s, act)
    ensures Sound(Perform(s, act))
  {
    hide Exclusion, Perform, Holds, Enabled;
    StepKeepsExclusion(s, act);
    StepKeepsHolds(s, act);
  }

  /** Inside a critical section no step of anybody takes a lock away, save the owner's
      own crash. */
  lemma CriticalSectionKeepsLocks(s: System, act: Action, a: nat)
    requires Sound(s) && Enabled(s, act) && act != Crash(a)
    requires a in s && s[a].phase.Owning? && s[a].phase.critical > 0
    ensures a in Perform(s, act) && Perform(s, act)[a].phase.Owning? && Perform(s, act)[a].held == s[a].steps
  {
    assert Holds(s[a]);
  }

  /** An owner gets what it waits for exactly when whoever holds that entry shares it and so
      does the request. */
  lemma GrantedIff(s: System, a: nat)
    requires Waiting(s, a)
    ensures Enabled(s, Grab(a)) <==>
      forall b, h :: b in s && h in s[b].held && h.entry == Awaited(s, a).entry ==> h.mode == Shared && Awaited(s, a).mode == Shared
  {
    if Enabled(s, Grab(a)) {
      forall b, h | b in s && h in s[b].held && h.entry == Awaited(s, a).entry ensures h.mode == Shared && Awaited(s, a).mode == Shared {
        assert !Conflict(h, Awaited(s, a));
      }
    }
  }

  /** An exclusive holder is the only holder of its entry. */
  lemma ExclusiveIsAlone(s: System, a: nat, b: nat, h: Step, k: Step)
    requires Sound(s) && a in s && b in s && a != b && h in s[a].held && k in s[b].held
    requires h.entry == k.entry
    ensures h.mode.Shared? && k.mode.Shared?
  {
    assert Apart(s[a], s[b]);
  }

  // ----- waiting -----

  ghost predicate WaitsFor(s: System, a: nat, b: nat) {
    Waiting(s, a) && b in s && exists h :: h in s[b].held && Conflict(h, Awaited(s, a))
  }

  ghost predicate WaitPath(s: System, p: seq<nat>) {
    |p| >= 2 && forall i :: 0 <= i < |p| - 1 ==> WaitsFor(s, p[i], p[i + 1])
  }

  ghost predicate Deadlock(s: System, p: seq<nat>) {
    WaitPath(s, p) && p[0] == p[|p| - 1]
  }

  predicate AllOrdered(s: System) {
    forall a :: a in s ==> Ordered(s[a].steps)
  }

  /** Whoever stands in the way and waits too waits for a later entry. */
  lemma BlockerWaitsFurther(s: System, a: nat, b: nat)
    requires Sound(s) && AllOrdered(s) && WaitsFor(s, a, b) && Waiting(s, b)
    ensures Less(RankOf(Awaited(s, a).entry), RankOf(Awaited(s, b).entry))
  {
    hide Less, RankOf;
    var h :| h in s[b].held && Conflict(h, Awaited(s, a));
    assert Holds(s[b]) && Ordered(s[b].steps);
    var i :| 0 <= i < |s[b].held| && s[b].held[i] == h;
    assert s[b].steps[..|s[b].held|][i] == s[b].steps[i];
  }

  lemma {:induction false} PathRises(s: System, p: seq<nat>)
    requires Sound(s) && AllOrdered(s) && WaitPath(s, p) && Waiting(s, p[|p| - 1])
    ensures Waiting(s, p[0]) && Less(RankOf(Awaited(s, p[0]).entry), RankOf(Awaited(s, p[|p| - 1]).entry))
    decreases |p|
  {
    hide Less, RankOf, Sound, AllOrdered, Waiting, Awaited;
    var n := |p| - 1;
    assert WaitsFor(s, p[n - 1], p[n]);
    assert Waiting(s, p[n - 1]) by { WaiterWaits(s, p[n - 1], p[n]); }
    BlockerWaitsFurther(s, p[n - 1], p[n]);
    if n > 1 {
      var q := p[..n];
      assert WaitPath(s, q) by {
        forall i | 0 <= i < |q| - 1 ensures WaitsFor(s, q[i], q[i + 1]) { assert WaitsFor(s, p[i], p[i + 1]); }
      }
      PathRises(s, q);
      LessTransitive(RankOf(Awaited(s, p[0]).entry), RankOf(Awaited(s, p[n - 1]).entry), RankOf(Awaited(s, p[n]).entry));
    }
  }

  lemma WaiterWaits(s: System, a: nat, b: nat)
    requires WaitsFor(s, a, b)
    ensures Waiting(s, a)
  {
  }

  /** Owners that take their locks in rank order never wait in a circle. */
  lemma OrderedNeverDeadlocks(s: System, p: seq<nat>)
    requires Sound(s) && AllOrdered(s)
    ensures !Deadlock(s, p)
  {
    hide Sound, AllOrdered;
    if Deadlock(s, p) {
      assert WaitsFor(s, p[0], p[1]);
      PathRises(s, p);
      LessTotal(RankOf(Awaited(s, p[0]).entry), RankOf(Awaited(s, p[0]).entry));
    }
  }

  // ----- runs -----

  predicate Runs(s: System, acts: seq<Action>)
    decreases |acts|
  {
    acts == [] || (Enabled(s, acts[0]) && Runs(Perform(s, acts[0]), acts[1..]))
  }

  function AfterRun(s: System, acts: seq<Action>): System
    requires Runs(s, acts)
    decreases |acts|
  {
    if acts == [] then s else AfterRun(Perform(s, acts[0]), acts[1..])
  }

  predicate StartsOrdered(acts: seq<Action>) {
    forall i :: 0 <= i < |acts| && acts[i].Start? ==> Ordered(acts[i].steps)
  }

  lemma {:induction false} RunKeepsSound(s: System, acts: seq<Action>)
    requires Sound(s) && Runs(s, acts)
    ensures Sound(AfterRun(s, acts))
    decreases |acts|
  {
    hide Sound, Perform, Enabled;
    if acts != [] {
      StepKeepsSound(s, acts[0]);
      RunKeepsSound(Perform(s, acts[0]), acts[1..]);
    }
  }

  lemma {:induction false} RunKeepsOrdered(s: System, acts: seq<Action>)
    requires AllOrdered(s) && Runs(s, acts) && StartsOrdered(acts)
    ensures AllOrdered(AfterRun(s, acts))
    decreases |acts|
  {
    hide Ordered;
    if acts != [] {
      assert forall i :: 0 <= i < |acts[1..]| ==> acts[1..][i] == acts[i + 1];
      RunKeepsOrdered(Perform(s, acts[0]), acts[1..]);
    }
  }

  /** Over every run of any owners: exclusion always, and no circular wait when every
      acquisition is ordered, as each runtime's is and each maintenance run's is whose
      graph lock comes last. */
  lemma RunsAreSafe(acts: seq<Action>, p: seq<nat>)
    requires Runs(map[], acts)
    ensures Sound(AfterRun(map[], acts))
    ensures StartsOrdered(acts) ==> !Deadlock(AfterRun(map[], acts), p)
  {
    assert Sound(map[]);
    RunKeepsSound(map[], acts);
    hide Sound;
    if StartsOrdered(acts) {
      RunKeepsOrdered(map[], acts);
      OrderedNeverDeadlocks(AfterRun(map[], acts), p);
    }
  }

  // ----- critical sections and failures over runs -----

  function Depth(n: int, act: Action, a: nat): int {
    if act == BeginCritical(a) then n + 1 else if act == EndCritical(a) then n - 1 else n
  }

  function DepthAfter(n: int, acts: seq<Action>, a: nat): int
    decreases |acts|
  {
    if acts == [] then n else DepthAfter(Depth(n, acts[0], a), acts[1..], a)
  }

  /** More sections of `a` have been begun than ended all along, and `a` does not crash. */
  predicate StaysInside(n: int, acts: seq<Action>, a: nat)
    decreases |acts|
  {
    n > 0 && (acts == [] || (acts[0] != Crash(a) && StaysInside(Depth(n, acts[0], a), acts[1..], a)))
  }

  /** Whatever is attempted meanwhile, releases of `a` itself included, `a` owns all its locks
      as long as a section is open, and as many are open as were begun and not ended. */
  lemma {:induction false} OpenSectionsProtect(s: System, acts: seq<Action>, a: nat)
    requires Sound(s) && Runs(s, acts) && a in s && s[a].phase.Owning? && StaysInside(s[a].phase.critical, acts, a)
    ensures var t := AfterRun(s, acts);
      && a in t && t[a].phase.Owning? && t[a].phase.critical == DepthAfter(s[a].phase.critical, acts, a)
      && t[a].steps == s[a].steps && t[a].held == s[a].steps
    decreases |acts|
  {
    if acts == [] {
      assert Holds(s[a]);
    } else {
      StepKeepsSound(s, acts[0]);
      CriticalSectionKeepsLocks(s, acts[0], a);
      SectionsCounted(s, acts[0], a);
      hide Sound, Perform, Enabled;
      OpenSectionsProtect(Perform(s, acts[0]), acts[1..], a);
    }
  }

  lemma SectionsCounted(s: System, act: Action, a: nat)
    requires Enabled(s, act) && act != Crash(a) && a in s && s[a].phase.Owning? && s[a].phase.critical > 0
    ensures var t := Perform(s, act);
      a in t && t[a].phase.Owning? && t[a].phase.critical == Depth(s[a].phase.critical, act, a) && t[a].steps == s[a].steps
  {
  }

  /** An owner that has failed or let go can always give everything back by steps of its own,
      and what it held is then free to everyone it alone kept out. */
  lemma {:induction false} GivesBack(s: System, a: nat) returns (acts: seq<Action>)
    requires a in s && s[a].phase.Releasing?
    ensures forall i :: 0 <= i < |acts| ==> acts[i] == Finish(a) || (acts[i].Drop? && acts[i].a == a)
    ensures Runs(s, acts) && AfterRun(s, acts) == s[a := Owner(s[a].steps, [], Done)]
    ensures forall step :: (forall b :: b in s && b != a ==> forall h :: h in s[b].held ==> !Conflict(h, step)) ==> Free(AfterRun(s, acts), step)
    decreases |s[a].held|
  {
    if s[a].held == [] {
      OneStep(s, Finish(a));
      acts := [Finish(a)];
    } else {
      var drop := Drop(a, |s[a].held| - 1);
      var t := Perform(s, drop);
      OneStep(s, drop);
      var rest := GivesBack(t, a);
      RunConcat(s, [drop], rest);
      acts := [drop] + rest;
      assert t[a := Owner(s[a].steps, [], Done)] == s[a := Owner(s[a].steps, [], Done)];
      hide Runs, AfterRun;
    }
  }

  /** Short of a crash an owner loses its locks one at a time, and only once it has failed or
      let go; every other step leaves it what it holds. */
  lemma LocksLeaveOneByOne(s: System, act: Action, a: nat)
    requires Enabled(s, act) && a in s && act != Crash(a)
    ensures a in Perform(s, act)
    ensures var before, after := s[a].held, Perform(s, act)[a].held;
      if act.Drop? && act.a == a then s[a].phase.Releasing? && |after| == |before| - 1 && multiset(after) < multiset(before)
      else before <= after <= before + (if act == Grab(a) then [s[a].steps[|before|]] else [])
  {
    if act.Drop? && act.a == a {
      var held := s[a].held;
      assert held == held[..act.i] + [held[act.i]] + held[act.i + 1..];
    }
  }

  // ----- the other half: an unordered maintenance run can wait in a circle -----

  lemma {:induction false} RunConcat(s: System, xs: seq<Action>, ys: seq<Action>)
    requires Runs(s, xs) && Runs(AfterRun(s, xs), ys)
    ensures Runs(s, xs + ys) && AfterRun(s, xs + ys) == AfterRun(AfterRun(s, xs), ys)
    decreases |xs|
  {
    hide Perform, Enabled;
    if xs == [] {
      assert xs + ys == ys;
    } else {
      assert (xs + ys)[1..] == xs[1..] + ys;
      RunConcat(Perform(s, xs[0]), xs[1..], ys);
    }
  }

  /** The first `k` steps of an owner, if nobody holds them, can be grabbed one by one. */
  lemma {:induction false} GrabFirst(s: System, a: nat, steps: seq<Step>, k: nat) returns (acts: seq<Action>)
    requires a in s && s[a] == Owner(steps, [], Acquiring) && k < |steps| && Distinct(steps[..k])
    requires forall i :: 0 <= i < k ==> Free(s, steps[i])
    ensures Runs(s, acts) && AfterRun(s, acts) == s[a := Owner(steps, steps[..k], Acquiring)]
    ensures forall i :: 0 <= i < |acts| ==> acts[i].Grab?
  {
    if k == 0 {
      acts := [];
      assert s[a := Owner(steps, steps[..0], Acquiring)] == s;
    } else {
      acts := GrabFirst(s, a, steps, k - 1);
      var t, held := AfterRun(s, acts), steps[..k - 1];
      assert Free(s, steps[k - 1]);
      forall b, h | b in t && h in t[b].held ensures !Conflict(h, steps[k - 1]) {
        if b == a {
          var i :| 0 <= i < |held| && held[i] == h;
          assert steps[..k][i] == h && steps[..k][k - 1] == steps[k - 1];
        } else {
          assert b in s && t[b] == s[b];
        }
      }
      assert Enabled(t, Grab(a));
      assert steps[..k] == held + [steps[k - 1]];
      assert Perform(t, Grab(a)) == s[a := Owner(steps, steps[..k], Acquiring)];
      OneStep(t, Grab(a));
      RunConcat(s, acts, [Grab(a)]);
      acts := acts + [Grab(a)];
    }
  }

  lemma OneStep(s: System, act: Action)
    requires Enabled(s, act)
    ensures Runs(s, [act]) && AfterRun(s, [act]) == Perform(s, act)
  {
    hide Enabled, Perform;
    assert [act][1..] == [];
    assert Runs(Perform(s, act), []);
  }

  /** Every acquisition started is of these steps or ordered. */
  predicate StartsOrderedOr(acts: seq<Action>, steps: seq<Step>) {
    forall i :: 0 <= i < |acts| && acts[i].Start? ==> acts[i].steps == steps || Ordered(acts[i].steps)
  }

  /** Among ordered owners an owner of these steps can end up in a circular wait. */
  ghost predicate CanDeadlock(steps: seq<Step>) {
    exists acts: seq<Action>, p: seq<nat> :: StartsOrderedOr(acts, steps) && Runs(map[], acts) && Deadlock(AfterRun(map[], acts), p)
  }

  lemma WaitsForHolder(s: System, a: nat, b: nat, i: nat)
    requires Waiting(s, a) && b in s && i < |s[b].held| && Conflict(s[b].held[i], Awaited(s, a))
    ensures WaitsFor(s, a, b)
  {
    assert s[b].held[i] in s[b].held;
  }

  lemma BlockedPair(s: System, a: nat, b: nat)
    requires WaitsFor(s, a, b) && WaitsFor(s, b, a)
    ensures Deadlock(s, [a, b, a])
  {
  }

  lemma BlockedByItself(s: System, a: nat)
    requires WaitsFor(s, a, a)
    ensures Deadlock(s, [a, a])
  {
  }

  /** An owner whose next entry is one it holds stands in its own way. */
  lemma SelfWait(steps: seq<Step>, n: nat, i: nat)
    requires i < n < |steps| && Distinct(steps[..n]) && steps[i] == steps[n] && steps[n].mode.Exclusive?
    ensures CanDeadlock(steps)
  {
    hide Ordered, Distinct, Perform, Enabled;
    var s: System := map[0 := Owner(steps, [], Acquiring)];
    Begin(steps);
    var acts := GrabFirst(s, 0, steps, n);
    RunConcat(map[], [Start(0, steps)], acts);
    var t := AfterRun(map[], [Start(0, steps)] + acts);
    hide Runs, AfterRun;
    assert t[0] == Owner(steps, steps[..n], Acquiring);
    WaitsForHolder(t, 0, 0, i);
    BlockedByItself(t, 0);
    hide Deadlock, WaitsFor;
    assert StartsOrderedOr([Start(0, steps)] + acts, steps);
  }

  lemma Begin(steps: seq<Step>)
    requires steps != []
    ensures Runs(map[], [Start(0, steps)]) && AfterRun(map[], [Start(0, steps)]) == map[0 := Owner(steps, [], Acquiring)]
  {
    OneStep(map[], Start(0, steps));
  }

  /** The graph entry is one of the run's own root entries: it waits for itself. */
  lemma WaitsForItself(roots: set<string>, graph: Entry)
    requires graph.name == LOCK_NAME && graph.dir in roots
    ensures CanDeadlock(MaintenanceSteps(roots, Some(graph)))
  {
    var steps, n := MaintenanceSteps(roots, Some(graph)), |RootSteps(roots)|;
    GraphAfterRoots(roots, graph);
    RootStepsAre(roots);
    hide RootSteps, MaintenanceSteps, Less, Ordered, CanDeadlock;
    var i :| 0 <= i < n && RootSteps(roots)[i] == Step(Entry(graph.dir, LOCK_NAME), Exclusive);
    assert steps[i] == steps[..n][i];
    SelfWait(steps, n, i);
  }

  /** A run in which owner 1 has one of its two entries and owner 0 has just begun. */
  lemma FirstOfTwo(two: seq<Step>, steps: seq<Step>) returns (acts: seq<Action>)
    requires |two| == 2 && steps != []
    ensures Runs(map[], acts)
    ensures AfterRun(map[], acts) == map[1 := Owner(two, [two[0]], Acquiring), 0 := Owner(steps, [], Acquiring)]
    ensures forall i :: 0 <= i < |acts| && acts[i].Start? ==> acts[i].steps == two || acts[i].steps == steps
  {
    var s0: System := map[1 := Owner(two, [], Acquiring)];
    var s1: System := map[1 := Owner(two, [two[0]], Acquiring)];
    OneStep(map[], Start(1, two));
    assert Perform(map[], Start(1, two)) == s0;
    assert Awaited(s0, 1) == two[0] && s0[1].held + [two[0]] == [two[0]];
    OneStep(s0, Grab(1));
    assert Perform(s0, Grab(1)) == s1;
    RunConcat(map[], [Start(1, two)], [Grab(1)]);
    OneStep(s1, Start(0, steps));
    acts := [Start(1, two)] + [Grab(1)];
    RunConcat(map[], acts, [Start(0, steps)]);
    acts := acts + [Start(0, steps)];
  }

  /** An owner about to take `two[0]` after `two[1]` meets one that goes the other way. */
  lemma Interlock(steps: seq<Step>, n: nat, i: nat, two: seq<Step>)
    requires i < n < |steps| && |two| == 2 && Ordered(two) && Distinct(steps[..n])
    requires steps[n] == two[0] && steps[i] == two[1] && two[0].mode.Exclusive? && two[1].mode.Exclusive?
    requires forall k :: 0 <= k < n ==> steps[k].entry != two[0].entry
    ensures CanDeadlock(steps)
  {
    hide Ordered, Distinct, Perform, Enabled;
    var before := FirstOfTwo(two, steps);
    var s: System := map[1 := Owner(two, [two[0]], Acquiring), 0 := Owner(steps, [], Acquiring)];
    var acts := GrabFirst(s, 0, steps, n);
    RunConcat(map[], before, acts);
    var t := AfterRun(map[], before + acts);
    hide Runs, AfterRun;
    assert t[0] == Owner(steps, steps[..n], Acquiring) && t[1] == Owner(two, [two[0]], Acquiring);
    WaitsForHolder(t, 0, 1, 0);
    WaitsForHolder(t, 1, 0, i);
    BlockedPair(t, 0, 1);
    hide Deadlock, WaitsFor;
    assert StartsOrderedOr(before + acts, steps);
  }

  /** The graph entry is the lock entry of a foreign root before one of its own: another
      run over both roots takes the foreign one first and then waits for the other. */
  lemma AnotherRunInterlocks(roots: set<string>, graph: Entry, r: string)
    requires graph.name == LOCK_NAME && graph.dir !in roots && r in roots && Before(graph.dir, r)
    ensures CanDeadlock(MaintenanceSteps(roots, Some(graph)))
  {
    var steps, n := MaintenanceSteps(roots, Some(graph)), |RootSteps(roots)|;
    var two := [Step(graph, Exclusive), Step(Entry(r, LOCK_NAME), Exclusive)];
    RootRanks(graph.dir, r);
    assert graph == Entry(graph.dir, LOCK_NAME) && Ordered(two);
    GraphAfterRoots(roots, graph);
    RootStepsAre(roots);
    hide RootSteps, MaintenanceSteps, Less, Ordered, CanDeadlock;
    var i :| 0 <= i < n && RootSteps(roots)[i] == Step(Entry(r, LOCK_NAME), Exclusive);
    forall k | 0 <= k < n ensures steps[k] == RootSteps(roots)[k] {
      assert steps[k] == steps[..n][k];
    }
    Interlock(steps, n, i, two);
  }

  /** A maintenance acquisition can end in a circular wait among ordered owners exactly
      when its graph lock is a root lock entry that does not lie after all its roots. */
  lemma MaintenanceDeadlocksIff(roots: set<string>, graph: Option<Entry>)
    ensures CanDeadlock(MaintenanceSteps(roots, graph)) <==> !GraphComesLast(roots, graph)
  {
    var steps := MaintenanceSteps(roots, graph);
    hide MaintenanceSteps, Deadlock, Runs, AfterRun, Ordered;
    MaintenanceOrderedIff(roots, graph);
    if CanDeadlock(steps) && GraphComesLast(roots, graph) {
      var acts: seq<Action>, p: seq<nat> :| StartsOrderedOr(acts, steps) && Runs(map[], acts) && Deadlock(AfterRun(map[], acts), p);
      RunsAreSafe(acts, p);
    }
    if !GraphComesLast(roots, graph) {
      var r :| r in roots && !Before(r, graph.value.dir);
      BeforeTotal(r, graph.value.dir);
      if graph.value.dir in roots {
        WaitsForItself(roots, graph.value);
      } else {
        AnotherRunInterlocks(roots, graph.value, r);
      }
    }
  }
}
