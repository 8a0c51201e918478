/** Root locks: flock on lock entries, one entry for a runtime, an ordered set of
    entries for maintenance. */
module StorageLocks {
  import opened Options
  import opened Text
  import opened Ordering

  const LOCK_NAME: string := ".cmms-storage.lock"

  datatype Mode = Shared | Exclusive

  /** A lock file: its directory, as encoded bytes, and its name in it. */
  datatype Entry = Entry(dir: string, name: string)

  datatype Step = Step(entry: Entry, mode: Mode)

  /** flock: two descriptors may lock one file together only if both are shared. */
  predicate Conflict(a: Step, b: Step) {
    a.entry == b.entry && (a.mode.Exclusive? || b.mode.Exclusive?)
  }

  // ----- what a maintenance run locks, in what order -----

  function DirKeys(roots: set<string>): set<Key> {
    set r | r in roots :: [Str(r)]
  }

  function RootStep(k: Key): Step {
    Step(Entry(if k != [] && k[0].Str? then k[0].s else "", LOCK_NAME), Exclusive)
  }

  function RootSteps(roots: set<string>): (r: seq<Step>)
    ensures |r| == |Sorted(DirKeys(roots))|
    ensures forall i :: 0 <= i < |r| ==> r[i] == RootStep(Sorted(DirKeys(roots))[i])
  {
    var ks := Sorted(DirKeys(roots));
    seq(|ks|, i requires 0 <= i < |ks| => RootStep(ks[i]))
  }

  function GraphSteps(graph: Option<Entry>): seq<Step> {
    if graph.None? then [] else [Step(graph.value, Exclusive)]
  }

  /** Roots in byte order of their paths, the graph lock last. */
  function MaintenanceSteps(roots: set<string>, graph: Option<Entry>): seq<Step> {
    RootSteps(roots) + GraphSteps(graph)
  }

  /** The order that keeps waiting acyclic: root lock entries by path, then all others. */
  function RankOf(e: Entry): Key {
    [Num(if e.name == LOCK_NAME then 0.0 else 1.0), Str(e.dir), Str(e.name)]
  }

  predicate Ordered(steps: seq<Step>) {
    forall i, j :: 0 <= i < j < |steps| ==> Less(RankOf(steps[i].entry), RankOf(steps[j].entry))
  }

  predicate Distinct(steps: seq<Step>) {
    forall i, j :: 0 <= i < j < |steps| ==> steps[i].entry != steps[j].entry
  }

  lemma RootRanks(a: string, b: string)
    ensures Less(RankOf(Entry(a, LOCK_NAME)), RankOf(Entry(b, LOCK_NAME))) <==> Before(a, b)
    ensures Less([Str(a)], [Str(b)]) <==> Before(a, b)
  {
    BeforeTotal(a, b);
    var x, y := RankOf(Entry(a, LOCK_NAME)), RankOf(Entry(b, LOCK_NAME));
    assert x[1..] == [Str(a), Str(LOCK_NAME)] && y[1..] == [Str(b), Str(LOCK_NAME)];
    assert x[1..][1..] == y[1..][1..] == [Str(LOCK_NAME)];
    LessTotal([Str(LOCK_NAME)], [Str(LOCK_NAME)]);
    assert [Str(a)][1..] == [Str(b)][1..] == [];
  }

  lemma RootStepsAre(roots: set<string>)
    ensures forall i :: 0 <= i < |RootSteps(roots)| ==> RootSteps(roots)[i].entry.dir in roots && RootSteps(roots)[i].entry.name == LOCK_NAME
    ensures forall r :: r in roots ==> exists i :: 0 <= i < |RootSteps(roots)| && RootSteps(roots)[i] == Step(Entry(r, LOCK_NAME), Exclusive)
    ensures Ordered(RootSteps(roots))
  {
    var ks := Sorted(DirKeys(roots));
    forall i | 0 <= i < |ks| ensures RootStep(ks[i]).entry.dir in roots && ks[i] == [Str(RootStep(ks[i]).entry.dir)] {
      assert ks[i] in ks;
    }
    forall r | r in roots
      ensures exists i :: 0 <= i < |RootSteps(roots)| && RootSteps(roots)[i] == Step(Entry(r, LOCK_NAME), Exclusive)
    {
      assert [Str(r)] in ks;
      var i :| 0 <= i < |ks| && ks[i] == [Str(r)];
      assert RootSteps(roots)[i] == Step(Entry(r, LOCK_NAME), Exclusive);
    }
    forall i, j | 0 <= i < j < |ks| ensures Less(RankOf(RootStep(ks[i]).entry), RankOf(RootStep(ks[j]).entry)) {
      RootRanks(RootStep(ks[i]).entry.dir, RootStep(ks[j]).entry.dir);
    }
  }

  lemma GraphAfterRoots(roots: set<string>, graph: Entry)
    ensures var steps, rs := MaintenanceSteps(roots, Some(graph)), RootSteps(roots);
      |steps| == |rs| + 1 && steps[..|rs|] == rs && steps[|rs|] == Step(graph, Exclusive) && steps == rs + [Step(graph, Exclusive)]
    ensures Distinct(RootSteps(roots))
  {
    RootStepsAre(roots);
    OrderedIsDistinct(RootSteps(roots));
  }

  /** The graph entry does not come among the roots' own lock entries, or before one. */
  predicate GraphComesLast(roots: set<string>, graph: Option<Entry>) {
    graph.Some? && graph.value.name == ".cmms-storage.lock" ==> forall r :: r in roots ==> Before(r, graph.value.dir)
  }

  lemma {:induction false} OneKeyEach(roots: set<string>)
    ensures |DirKeys(roots)| == |roots|
    decreases |roots|
  {
    if roots != {} {
      var r :| r in roots;
      OneKeyEach(roots - {r});
      assert DirKeys(roots) == DirKeys(roots - {r}) + {[Str(r)]};
      assert [Str(r)] !in DirKeys(roots - {r});
    }
  }

  /** One exclusive lock for each root, on the root's own entry, in the order of the paths,
      then one for the graph. */
  lemma MaintenanceTakes(roots: set<string>, graph: Option<Entry>)
    ensures var steps := MaintenanceSteps(roots, graph);
      && |steps| == |roots| + (if graph.Some? then 1 else 0)
      && (forall i :: 0 <= i < |roots| ==> steps[i].entry.dir in roots && steps[i] == Step(Entry(steps[i].entry.dir, ".cmms-storage.lock"), Exclusive))
      && (forall i, j :: 0 <= i < j < |roots| ==> Before(steps[i].entry.dir, steps[j].entry.dir))
      && (graph.Some? ==> steps[|roots|] == Step(graph.value, Exclusive))
  {
    OneKeyEach(roots);
    RootStepsAre(roots);
    hide Less, RankOf;
    var rs := RootSteps(roots);
    forall i, j | 0 <= i < j < |rs| ensures Before(rs[i].entry.dir, rs[j].entry.dir) {
      assert rs[i].entry == Entry(rs[i].entry.dir, LOCK_NAME) && rs[j].entry == Entry(rs[j].entry.dir, LOCK_NAME);
      RootRanks(rs[i].entry.dir, rs[j].entry.dir);
    }
  }

  lemma AppendOrdered(steps: seq<Step>, last: Step)
    requires Ordered(steps)
    ensures Ordered(steps + [last]) <==> forall i :: 0 <= i < |steps| ==> Less(RankOf(steps[i].entry), RankOf(last.entry))
  {
    hide Less, RankOf;
    var all := steps + [last];
    assert all[|steps|] == last && forall i :: 0 <= i < |steps| ==> all[i] == steps[i];
  }

  lemma AppendDistinct(steps: seq<Step>, last: Step)
    requires Distinct(steps)
    ensures Distinct(steps + [last]) <==> forall i :: 0 <= i < |steps| ==> steps[i].entry != last.entry
  {
    var all := steps + [last];
    assert all[|steps|] == last && forall i :: 0 <= i < |steps| ==> all[i] == steps[i];
  }

  /** A maintenance run takes its locks in rank order exactly when its graph lock is not
      a root lock entry, or is one that lies after all its roots. */
  lemma MaintenanceOrderedIff(roots: set<string>, graph: Option<Entry>)
    ensures Ordered(MaintenanceSteps(roots, graph)) <==> GraphComesLast(roots, graph)
  {
    RootStepsAre(roots);
    var rs := RootSteps(roots);
    if graph.None? {
      assert MaintenanceSteps(roots, graph) == rs;
    } else {
      var g := graph.value;
      GraphAfterRoots(roots, g);
      AppendOrdered(rs, Step(g, Exclusive));
      hide Less, RootSteps, RankOf, MaintenanceSteps, Ordered;
      forall i | 0 <= i < |rs|
        ensures Less(RankOf(rs[i].entry), RankOf(g)) <==> g.name != LOCK_NAME || Before(rs[i].entry.dir, g.dir)
      {
        assert rs[i].entry == Entry(rs[i].entry.dir, LOCK_NAME);
        if g.name == LOCK_NAME {
          assert g == Entry(g.dir, LOCK_NAME);
          RootRanks(rs[i].entry.dir, g.dir);
        } else {
          RootBeforeOther(rs[i].entry, g);
        }
      }
    }
  }

  lemma RootBeforeOther(a: Entry, b: Entry)
    requires a.name == LOCK_NAME && b.name != LOCK_NAME
    ensures Less(RankOf(a), RankOf(b))
  {
  }

  lemma OrderedIsDistinct(steps: seq<Step>)
    requires Ordered(steps)
    ensures Distinct(steps)
  {
    forall i, j | 0 <= i < j < |steps| ensures steps[i].entry != steps[j].entry {
      LessTotal(RankOf(steps[i].entry), RankOf(steps[j].entry));
    }
  }

  /** The steps name no entry twice exactly when the graph entry is no root's lock entry. */
  lemma MaintenanceDistinctIff(roots: set<string>, graph: Option<Entry>)
    ensures Distinct(MaintenanceSteps(roots, graph)) <==>
      (graph.Some? && graph.value.name == ".cmms-storage.lock" ==> graph.value.dir !in roots)
  {
    RootStepsAre(roots);
    var rs := RootSteps(roots);
    OrderedIsDistinct(rs);
    if graph.None? {
      assert MaintenanceSteps(roots, graph) == rs;
    } else {
      GraphAfterRoots(roots, graph.value);
      AppendDistinct(rs, Step(graph.value, Exclusive));
      hide RootSteps, MaintenanceSteps, Ordered, Distinct;
    }
  }

  // ----- the kernel's table of locked descriptors -----

  predicate Grantable(open: map<nat, Step>, step: Step) {
    forall fd :: fd in open ==> !Conflict(open[fd], step)
  }

  predicate Exclusion(open: map<nat, Step>) {
    forall a, b :: a in open && b in open && a != b ==> !Conflict(open[a], open[b])
  }

  /** The table with further descriptors locking further steps. */
  function With(open: map<nat, Step>, fds: seq<nat>, steps: seq<Step>): map<nat, Step>
    requires |fds| == |steps|
    decreases |fds|
  {
    if fds == [] then open
    else With(open, fds[..|fds| - 1], steps[..|steps| - 1])[fds[|fds| - 1] := steps[|steps| - 1]]
  }

  function FdSet(fds: seq<nat>): set<nat> {
    set fd | fd in fds
  }

  predicate NewFds(open: map<nat, Step>, fds: seq<nat>) {
    && (forall i :: 0 <= i < |fds| ==> fds[i] !in open)
    && (forall i, j :: 0 <= i < j < |fds| ==> fds[i] != fds[j])
  }

  lemma {:induction false} WithHolds(open: map<nat, Step>, fds: seq<nat>, steps: seq<Step>)
    requires |fds| == |steps| && NewFds(open, fds)
    ensures With(open, fds, steps).Keys == open.Keys + FdSet(fds)
    ensures forall fd :: fd in open ==> fd in With(open, fds, steps) && With(open, fds, steps)[fd] == open[fd]
    ensures forall i :: 0 <= i < |fds| ==> fds[i] in With(open, fds, steps) && With(open, fds, steps)[fds[i]] == steps[i]
    decreases |fds|
  {
    if fds != [] {
      var n := |fds| - 1;
      WithHolds(open, fds[..n], steps[..n]);
      assert FdSet(fds) == FdSet(fds[..n]) + {fds[n]};
      hide FdSet;
      forall i | 0 <= i < n ensures fds[..n][i] == fds[i] && steps[..n][i] == steps[i] {}
    }
  }

  /** Dropping what was added gives the table back. */
  lemma WithThenWithout(open: map<nat, Step>, fds: seq<nat>, steps: seq<Step>)
    requires |fds| == |steps| && NewFds(open, fds)
    ensures With(open, fds, steps) - FdSet(fds) == open
  {
    WithHolds(open, fds, steps);
  }

  /** A further step is granted beside those already taken exactly when the table grants
      it and it conflicts with none of them. */
  lemma GrantableBeside(open: map<nat, Step>, fds: seq<nat>, steps: seq<Step>, step: Step)
    requires |fds| == |steps| && NewFds(open, fds)
    ensures Grantable(With(open, fds, steps), step) <==>
      Grantable(open, step) && forall i :: 0 <= i < |steps| ==> !Conflict(steps[i], step)
  {
    WithHolds(open, fds, steps);
    hide With, Conflict;
    var all := With(open, fds, steps);
    if Grantable(all, step) {
      forall fd | fd in open ensures !Conflict(open[fd], step) { assert fd in all; }
      forall i | 0 <= i < |steps| ensures !Conflict(steps[i], step) { assert fds[i] in all; }
    }
    if Grantable(open, step) && forall i :: 0 <= i < |steps| ==> !Conflict(steps[i], step) {
      forall fd | fd in all ensures !Conflict(all[fd], step) {
        assert fd in open.Keys + FdSet(fds);
      }
    }
  }

  class FlockTable {
    var open: map<nat, Step>
    var next: nat

    ghost predicate Valid()
      reads this
    {
      Exclusion(open) && forall fd :: fd in open ==> fd < next
    }

    constructor ()
      ensures Valid() && open == map[]
    {
      open, next := map[], 0;
    }

    /** The last non-blocking attempt of `_acquire`; a refused descriptor is closed. */
    method Acquire(step: Step) returns (fd: Option<nat>)
      requires Valid()
      modifies this
      ensures Valid()
      ensures fd.Some? <==> Grantable(old(open), step)
      ensures fd.Some? <==> forall x :: x in old(open) && old(open)[x].entry == step.entry ==> old(open)[x].mode == Shared && step.mode == Shared
      ensures fd.Some? ==> fd.value !in old(open) && open == old(open)[fd.value := step]
      ensures fd.None? ==> open == old(open)
    {
      if !Grantable(open, step) {
        return None;
      }
      fd := Some(next);
      open, next := open[next := step], next + 1;
    }

    /** Unlocks and closes one descriptor. */
    method Close(fd: nat)
      requires Valid()
      modifies this
      ensures Valid() && open == old(open) - {fd} && next == old(next)
    {
      open := open - {fd};
    }

    /** Closes descriptors, the last acquired first. */
    method CloseReversed(fds: seq<nat>)
      requires Valid()
      modifies this
      ensures Valid() && open == old(open) - FdSet(fds)
    {
      var i := |fds|;
      while i > 0
        invariant 0 <= i <= |fds| && Valid() && open == old(open) - FdSet(fds[i..])
      {
        i := i - 1;
        Close(fds[i]);
        assert FdSet(fds[i..]) == FdSet(fds[i + 1..]) + {fds[i]};
      }
      assert fds[0..] == fds;
    }
  }

  // ----- a runtime's single lock -----

  class RuntimeStorageLock {
    const table: FlockTable
    var fh: Option<nat>

    constructor (table: FlockTable, fd: nat)
      ensures this.table == table && fh == Some(fd)
    {
      this.table, this.fh := table, Some(fd);
    }

    /** acquire and acquire_exclusive, on one entry of the root; acquire takes the usual
        one. */
    static method Acquire(table: FlockTable, root: string, mode: Mode, entryName: string := LOCK_NAME) returns (r: Option<RuntimeStorageLock>)
      requires table.Valid()
      modifies table
      ensures table.Valid()
      ensures r.Some? <==> forall x :: x in old(table.open) && old(table.open)[x].entry == Entry(root, entryName) ==> old(table.open)[x].mode == Shared && mode == Shared
      ensures r.None? ==> table.open == old(table.open)
      ensures r.Some? ==> fresh(r.value) && r.value.table == table && r.value.fh.Some? && r.value.fh.value !in old(table.open)
      ensures r.Some? ==> table.open == old(table.open)[r.value.fh.value := Step(Entry(root, entryName), mode)]
    {
      var fd := table.Acquire(Step(Entry(root, entryName), mode));
      if fd.None? {
        return None;
      }
      var lock := new RuntimeStorageLock(table, fd.value);
      r := Some(lock);
    }

    /** release; a second call finds nothing to release. */
    method Release()
      requires table.Valid()
      modifies this, table
      ensures table.Valid() && fh == None
      ensures table.open == if old(fh).Some? then old(table.open) - {old(fh).value} else old(table.open)
    {
      if fh.Some? {
        table.Close(fh.value);
        fh := None;
      }
    }
  }

  // ----- maintenance locks -----

  class MaintenanceStorageLocks {
    const table: FlockTable
    var handles: seq<nat>
    var graphHandle: Option<nat>
    var criticalSections: nat
    var released: bool

    constructor (table: FlockTable, handles: seq<nat>, graphHandle: Option<nat>)
      ensures this.table == table && this.handles == handles && this.graphHandle == graphHandle
      ensures criticalSections == 0 && !released
    {
      this.table, this.handles, this.graphHandle := table, handles, graphHandle;
      criticalSections, released := 0, false;
    }

    /** Every descriptor the object owns. */
    function Owned(): seq<nat>
      reads this
    {
      handles + if graphHandle.Some? then [graphHandle.value] else []
    }

    function Held(): (b: bool)
      reads this
      ensures b <==> Owned() != []
    {
      handles != [] || graphHandle.Some?
    }

    /** Takes the roots in order, then the graph entry; a failure at any step gives
        everything back. It succeeds exactly when the table grants every step and no two
        of the steps are one entry: a graph entry among the roots' own defeats itself. */
    static method Acquire(table: FlockTable, roots: set<string>, graph: Option<Entry>)
      returns (r: Option<MaintenanceStorageLocks>)
      requires table.Valid()
      modifies table
      ensures table.Valid()
      ensures r.Some? <==> Takeable(old(table.open), MaintenanceSteps(roots, graph))
      ensures r.None? ==> table.open == old(table.open)
      ensures r.Some? ==> fresh(r.value) && r.value.table == table && !r.value.released && r.value.criticalSections == 0
      ensures r.Some? ==> |r.value.Owned()| == |MaintenanceSteps(roots, graph)| && NewFds(old(table.open), r.value.Owned())
      ensures r.Some? ==> table.open == With(old(table.open), r.value.Owned(), MaintenanceSteps(roots, graph))
    {
      var steps := RootSteps(roots);
      ghost var all := MaintenanceSteps(roots, graph);
      assert all[..|steps|] == steps && |all| == |steps| + (if graph.None? then 0 else 1);
      assert graph.Some? ==> all[|steps|] == Step(graph.value, Exclusive);
      RootStepsAre(roots);
      assert Exclusively(all);
      ghost var before := table.open;
      hide MaintenanceSteps, RootSteps, Ordered, Less, Exclusively, Takeable, Grantable, With, NewFds, Exclusion, FdSet, Taken;
      var ok, handles := TakeRoots(table, steps, all);
      if !ok {
        return None;
      }
      if graph.None? {
        assert all == all[..|steps|];
        TakenMeans(before, handles, all, table.open);
        var locks := new MaintenanceStorageLocks(table, handles, None);
        assert locks.Owned() == handles;
        return Some(locks);
      }
      ghost var mid := table.open;
      var graphHandle := table.Acquire(Step(graph.value, Exclusive));
      if graphHandle.None? {
        TakeRefused(before, handles, all, mid);
        TakenGivenBack(before, handles, all[..|steps|], mid);
        table.CloseReversed(handles);
        return None;
      }
      TakeGranted(before, handles, all, mid, graphHandle.value);
      assert all[..|all|] == all;
      TakenMeans(before, handles + [graphHandle.value], all, table.open);
      var locks := new MaintenanceStorageLocks(table, handles, graphHandle);
      r := Some(locks);
    }

    /** The loop over the roots, which are the first of all steps. */
    static method TakeRoots(table: FlockTable, steps: seq<Step>, ghost all: seq<Step>) returns (ok: bool, handles: seq<nat>)
      requires table.Valid() && |steps| <= |all| && steps == all[..|steps|] && Exclusively(all)
      modifies table
      ensures table.Valid()
      ensures ok ==> |handles| == |steps| && Taken(old(table.open), handles, all[..|steps|], table.open)
      ensures !ok ==> table.open == old(table.open) && !Takeable(old(table.open), all)
    {
      ghost var before := table.open;
      ok, handles := true, [];
      NothingTaken(before);
      hide Exclusively, Takeable, Grantable, With, NewFds, Exclusion, FdSet, Taken;
      for i := 0 to |steps|
        invariant |handles| == i && table.Valid()
        invariant Taken(before, handles, all[..i], table.open)
      {
        ghost var mid := table.open;
        assert steps[i] == all[i];
        var fd := table.Acquire(steps[i]);
        if fd.None? {
          TakeRefused(before, handles, all, mid);
          TakenGivenBack(before, handles, all[..i], mid);
          table.CloseReversed(handles);
          return false, [];
        }
        TakeGranted(before, handles, all, mid, fd.value);
        handles := handles + [fd.value];
      }
    }

    /** begin_critical_section; false is E_LOCK_RELEASE_UNSAFE. */
    method BeginCriticalSection() returns (ok: bool)
      modifies this`criticalSections
      ensures ok <==> Held() && !released
      ensures criticalSections == old(criticalSections) + if ok then 1 else 0
    {
      ok := Held() && !released;
      if ok {
        criticalSections := criticalSections + 1;
      }
    }

    method EndCriticalSection() returns (ok: bool)
      modifies this`criticalSections
      ensures ok <==> old(criticalSections) > 0
      ensures criticalSections == old(criticalSections) - if ok then 1 else 0
    {
      ok := criticalSections > 0;
      if ok {
        criticalSections := criticalSections - 1;
      }
    }

    /** release: refused with everything still held inside a critical section; otherwise
        the object owns nothing afterwards and the table has lost exactly its locks. */
    method Release() returns (ok: bool)
      requires table.Valid()
      modifies this, table
      ensures table.Valid() && criticalSections == old(criticalSections)
      ensures ok <==> old(released) || old(criticalSections) == 0
      ensures !ok || old(released) ==> table.open == old(table.open) && Owned() == old(Owned()) && released == old(released)
      ensures ok && !old(released) ==> table.open == old(table.open) - FdSet(old(Owned())) && Owned() == [] && released
    {
      if released {
        return true;
      }
      if criticalSections > 0 {
        return false;
      }
      ghost var owned := Owned();
      table.CloseReversed(handles);
      assert FdSet(owned) == FdSet(handles) + if graphHandle.Some? then {graphHandle.value} else {};
      handles := [];
      if graphHandle.Some? {
        table.Close(graphHandle.value);
        graphHandle := None;
      }
      released := true;
      ok := true;
    }
  }

  /** The table grants every step, and no step stands in another's way. */
  predicate Takeable(open: map<nat, Step>, steps: seq<Step>) {
    Distinct(steps) && forall i :: 0 <= i < |steps| ==> Grantable(open, steps[i])
  }

  /** What one call has taken so far, out of a table that granted each of it. */
  ghost predicate Taken(before: map<nat, Step>, fds: seq<nat>, steps: seq<Step>, now: map<nat, Step>) {
    |fds| == |steps| && NewFds(before, fds) && now == With(before, fds, steps) && Takeable(before, steps)
  }

  lemma NothingTaken(before: map<nat, Step>)
    ensures Taken(before, [], [], before)
  {
  }

  lemma TakeGranted(before: map<nat, Step>, fds: seq<nat>, all: seq<Step>, mid: map<nat, Step>, fd: nat)
    requires |fds| < |all| && Exclusively(all) && Taken(before, fds, all[..|fds|], mid)
    requires Grantable(mid, all[|fds|]) && fd !in mid
    ensures Taken(before, fds + [fd], all[..|fds| + 1], mid[fd := all[|fds|]])
  {
    var n, done := |fds|, all[..|fds|];
    GrantableBeside(before, fds, done, all[n]);
    assert NewFds(before, fds + [fd]) by {
      WithHolds(before, fds, done);
      hide Grantable, With, Takeable;
    }
    hide Grantable, NewFds;
    var fds', done' := fds + [fd], all[..n + 1];
    assert fds'[..n] == fds && done'[..n] == done;
    assert With(before, fds', done') == mid[fd := all[n]] by { hide Takeable; }
    hide With;
    forall i, j | 0 <= i < j < |done'| ensures done'[i].entry != done'[j].entry {
      if j == n { assert !Conflict(done[i], all[n]); }
    }
  }

  lemma TakeRefused(before: map<nat, Step>, fds: seq<nat>, all: seq<Step>, mid: map<nat, Step>)
    requires |fds| < |all| && Taken(before, fds, all[..|fds|], mid) && !Grantable(mid, all[|fds|])
    ensures !Takeable(before, all)
  {
    var n, done := |fds|, all[..|fds|];
    GrantableBeside(before, fds, done, all[n]);
    hide Grantable, With, NewFds;
    if Grantable(before, all[n]) {
      var i :| 0 <= i < n && Conflict(done[i], all[n]);
      assert all[i].entry == all[n].entry;
    }
  }

  lemma TakenMeans(before: map<nat, Step>, fds: seq<nat>, steps: seq<Step>, now: map<nat, Step>)
    requires Taken(before, fds, steps, now)
    ensures |fds| == |steps| && NewFds(before, fds) && now == With(before, fds, steps) && Takeable(before, steps)
  {
  }

  lemma TakenGivenBack(before: map<nat, Step>, fds: seq<nat>, steps: seq<Step>, mid: map<nat, Step>)
    requires Taken(before, fds, steps, mid)
    ensures mid - FdSet(fds) == before
  {
    WithThenWithout(before, fds, steps);
  }

  predicate Exclusively(steps: seq<Step>) {
    forall i :: 0 <= i < |steps| ==> steps[i].mode == Exclusive
  }
}
