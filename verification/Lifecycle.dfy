/** Revisions, the compare-and-swap of one lifecycle transition, and what a database
    that only transitions have changed looks like. */
module Lifecycle {
  import opened Options
  import opened Text

  // ----- revisions -----

  /** A stored version as the driver hands it over; Other is a float, a bool, a blob. */
  datatype Version = Null | Number(n: int) | Spelled(s: string) | Other

  const INITIAL: string := "0.1.0"

  /** normalize_version; None is its ValueError. */
  function NormalizeVersion(v: Version): (r: Option<nat>)
    ensures r.Some? ==> r.value >= 1
  {
    match v
    case Null => Some(1)
    case Number(n) => Some(if n < 1 then 1 else n)
    case Spelled(s) =>
      if s == INITIAL || Strip(s) == INITIAL then Some(1)
      else if Strip(s) != "" && AllDigits(Strip(s)) then
        var n := ParseDecimal(Strip(s));
        Some(if n < 1 then 1 else n)
      else None
    case Other => None
  }

  datatype Kind = Fact | Belief

  /** The version column of facts is text, that of beliefs an integer. */
  function StoredVersion(kind: Kind, revision: int): Version {
    match kind
    case Fact => Spelled(if revision >= 0 then Decimal(revision) else "-" + Decimal(-revision))
    case Belief => Number(revision)
  }

  lemma StripLeavesDigits(s: string)
    requires AllDigits(s)
    ensures Strip(s) == s
  {
  }

  /** A revision written by a transition is read back as that revision. */
  lemma StoredVersionReadsBack(kind: Kind, revision: nat)
    requires revision >= 1
    ensures NormalizeVersion(StoredVersion(kind, revision)) == Some(revision)
  {
    if kind == Fact {
      var s := Decimal(revision);
      DecimalRoundTrip(revision);
      StripLeavesDigits(s);
      assert INITIAL[1] == '.' && !IsDigit('.');
    }
  }

  /** The legacy spellings: NULL, the initial version with outer whitespace, zero padded
      or whitespace padded revisions, and non-positive integers. */
  lemma LegacySpellings(before: string, after: string, n: nat)
    requires forall i :: 0 <= i < |before| ==> IsSpace(before[i])
    requires forall i :: 0 <= i < |after| ==> IsSpace(after[i])
    ensures NormalizeVersion(Null) == NormalizeVersion(Spelled(before + "0.1.0" + after)) == Some(1)
    ensures NormalizeVersion(Spelled(before + Decimal(n) + after)) == Some(if n < 1 then 1 else n)
    ensures NormalizeVersion(Spelled(before + ("0" + Decimal(n)) + after)) == Some(if n < 1 then 1 else n)
    ensures forall z: int :: NormalizeVersion(Number(z)) == Some(if z < 1 then 1 else z)
    ensures NormalizeVersion(Other) == None
  {
    hide Strip, ParseDecimal, Decimal;
    StripPadded(before, INITIAL, after);
    assert INITIAL[1] == '.' && !IsDigit('.');
    StripPadded(before, Decimal(n), after);
    StripPadded(before, "0" + Decimal(n), after);
    DecimalRoundTrip(n);
    LeadingZero(Decimal(n));
    PaddedIsInitial(before, Decimal(n), after);
    PaddedIsInitial(before, "0" + Decimal(n), after);
  }

  predicate OnlySpaces(s: string) {
    forall i :: 0 <= i < |s| ==> IsSpace(s[i])
  }

  predicate OnlyZeros(s: string) {
    forall i :: 0 <= i < |s| ==> s[i] == '0'
  }

  /** The initial version denotes 1, zeros and a decimal number that number, but at least 1. */
  ghost predicate Denotes(core: string, n: nat) {
    || (core == "0.1.0" && n == 1)
    || exists zeros, k: nat :: OnlyZeros(zeros) && core == zeros + Decimal(k) && n == if k < 1 then 1 else k
  }

  ghost predicate Padded(s: string, before: string, core: string, after: string) {
    OnlySpaces(before) && OnlySpaces(after) && s == before + core + after
  }

  /** A text of digits without a leading zero is the decimal spelling of what it is read as. */
  lemma {:induction false} ReadAndSpelled(t: string)
    requires t != "" && AllDigits(t) && (t[0] != '0' || |t| == 1)
    ensures Decimal(ParseDecimal(t)) == t
    decreases |t|
  {
    var u, c := t[..|t| - 1], t[|t| - 1];
    assert t == u + [c];
    ParseStep(t);
    hide Decimal, ParseDecimal;
    var n, p := ParseDecimal(t), ParseDecimal(u);
    assert IsDigit(c);
    DecimalStep(n, p, c);
    if u == "" {
      ParseNone();
    } else {
      ReadAndSpelled(u);
      DecimalStep(0, 0, '0');
      assert u[0] == t[0];
    }
  }

  lemma {:induction false} ZerosThenDecimal(t: string) returns (zeros: string)
    requires t != "" && AllDigits(t)
    ensures OnlyZeros(zeros) && t == zeros + Decimal(ParseDecimal(t))
    decreases |t|
  {
    hide Decimal, ParseDecimal;
    if t[0] != '0' || |t| == 1 {
      zeros := "";
      ReadAndSpelled(t);
    } else {
      assert t == "0" + t[1..];
      zeros := ZerosThenDecimal(t[1..]);
      LeadingZero(t[1..]);
      zeros := "0" + zeros;
    }
  }

  lemma ParseStep(t: string)
    requires t != "" && AllDigits(t)
    ensures ParseDecimal(t) == 10 * ParseDecimal(t[..|t| - 1]) + (t[|t| - 1] as int - '0' as int)
  {
  }

  lemma ParseNone()
    ensures ParseDecimal("") == 0
  {
  }

  lemma DecimalStep(n: nat, p: nat, c: char)
    requires IsDigit(c) && n == 10 * p + (c as int - '0' as int)
    ensures Decimal(n) == (if p == 0 then "" else Decimal(p)) + [c]
  {
    assert n / 10 == p && DIGITS[n % 10] == c;
    assert Decimal(n) == if n < 10 then [DIGITS[n]] else Decimal(n / 10) + [DIGITS[n % 10]];
    hide Decimal;
  }

  lemma {:induction false} LeadingZeros(zeros: string, s: string)
    requires OnlyZeros(zeros) && AllDigits(s)
    ensures AllDigits(zeros + s) && ParseDecimal(zeros + s) == ParseDecimal(s)
  {
    if zeros == "" {
      assert zeros + s == s;
    } else {
      LeadingZeros(zeros[1..], s);
      LeadingZero(zeros[1..] + s);
      assert zeros + s == "0" + (zeros[1..] + s);
    }
  }

  /** A text is read as a revision exactly when it is, but for whitespace around it, the
      initial version or a decimal number, and then as what that denotes. */
  lemma SpelledReadIff(s: string, n: nat)
    ensures NormalizeVersion(Spelled(s)) == Some(n) <==> exists before, core, after :: Padded(s, before, core, after) && Denotes(core, n)
  {
    hide Strip, ParseDecimal, Decimal;
    InitialIsBare();
    if NormalizeVersion(Spelled(s)) == Some(n) {
      var before, after := StripMeans(s);
      assert Padded(s, before, Strip(s), after);
      if Strip(s) != "0.1.0" {
        var zeros := ZerosThenDecimal(Strip(s));
        assert OnlyZeros(zeros) && Strip(s) == zeros + Decimal(ParseDecimal(Strip(s)));
      }
    }
    if before, core, after :| Padded(s, before, core, after) && Denotes(core, n) {
      if zeros, k: nat :| OnlyZeros(zeros) && core == zeros + Decimal(k) && n == if k < 1 then 1 else k {
        NumberRead(s, before, zeros, k, after);
      } else {
        StripPadded(before, core, after);
      }
    }
  }

  lemma NumberRead(s: string, before: string, zeros: string, k: nat, after: string)
    requires Padded(s, before, zeros + Decimal(k), after) && OnlyZeros(zeros)
    ensures NormalizeVersion(Spelled(s)) == Some(if k < 1 then 1 else k)
  {
    hide Strip, ParseDecimal, Decimal;
    var core := zeros + Decimal(k);
    LeadingZeros(zeros, Decimal(k));
    DecimalRoundTrip(k);
    StripPadded(before, core, after);
    PaddedIsInitial(before, core, after);
    assert INITIAL[1] == '.' && !IsDigit('.');
  }

  lemma InitialIsBare()
    ensures Strip("0.1.0") == "0.1.0"
  {
  }

  /** A padded text of digits is not itself the initial version. */
  lemma PaddedIsInitial(before: string, s: string, after: string)
    requires AllDigits(s) && Strip(before + s + after) == s
    ensures before + s + after != INITIAL
  {
    assert INITIAL[1] == '.' && !IsDigit('.');
    assert INITIAL[0] == '0' && INITIAL[4] == '0';
    assert Strip(INITIAL) == INITIAL;
  }

  lemma {:induction false} LeadingZero(s: string)
    requires AllDigits(s)
    ensures AllDigits("0" + s) && ParseDecimal("0" + s) == ParseDecimal(s)
  {
    if s == "" {
      assert "0" + s == "0";
      assert ParseDecimal("0"[..0]) == 0;
    } else {
      assert ("0" + s)[..|s|] == "0" + s[..|s| - 1];
      LeadingZero(s[..|s| - 1]);
    }
  }

  lemma {:induction false} StripPadded(before: string, s: string, after: string)
    requires forall i :: 0 <= i < |before| ==> IsSpace(before[i])
    requires forall i :: 0 <= i < |after| ==> IsSpace(after[i])
    requires s != "" && !IsSpace(s[0]) && !IsSpace(s[|s| - 1])
    ensures Strip(before + s + after) == s
    decreases |before| + |after|
  {
    if before != "" {
      assert (before + s + after)[1..] == before[1..] + s + after;
      StripPadded(before[1..], s, after);
    } else if after != "" {
      assert before + s + after == s + after;
      assert (s + after)[..|s + after| - 1] == before + s + after[..|after| - 1];
      StripPadded(before, s, after[..|after| - 1]);
    } else {
      assert before + s + after == s;
    }
  }

  // ----- rows -----

  datatype MemoryKey = MemoryKey(kind: Kind, id: string)

  datatype Memory = Memory(version: Version, state: string, confidence: real)

  datatype StateRow = StateRow(memory: MemoryKey, current: string, previous: string, confidence: real)

  datatype EventRow = EventRow(memory: MemoryKey, from: string, to: string, reason: string, actor: string)

  /** One successful transition; `log` in the database is history, not a table. */
  datatype Transition = Transition(memory: MemoryKey, from: string, to: string, revision: nat, confidence: real,
                                   reason: string, actor: string)

  datatype Db = Db(memories: map<MemoryKey, Memory>, states: seq<StateRow>, events: seq<EventRow>, log: seq<Transition>)

  datatype Request = Request(memory: MemoryKey, to: string, from: string, expected: int, confidence: Option<real>,
                             reason: string, actor: string)

  function StateRowOf(t: Transition): StateRow {
    StateRow(t.memory, t.to, t.from, t.confidence)
  }

  function EventRowOf(t: Transition): EventRow {
    EventRow(t.memory, t.from, t.to, t.reason, t.actor)
  }

  function StateRowsOf(ts: seq<Transition>): (r: seq<StateRow>)
    ensures |r| == |ts| && forall i :: 0 <= i < |ts| ==> r[i] == StateRowOf(ts[i])
  {
    seq(|ts|, i requires 0 <= i < |ts| => StateRowOf(ts[i]))
  }

  function EventRowsOf(ts: seq<Transition>): (r: seq<EventRow>)
    ensures |r| == |ts| && forall i :: 0 <= i < |ts| ==> r[i] == EventRowOf(ts[i])
  {
    seq(|ts|, i requires 0 <= i < |ts| => EventRowOf(ts[i]))
  }

  // ----- the two statements of _cas_transition -----

  /** The check on the row read. */
  predicate ReadAdmits(db: Db, req: Request) {
    && req.memory in db.memories
    && NormalizeVersion(db.memories[req.memory].version) == Some(req.expected)
    && db.memories[req.memory].state == req.from
  }

  /** The WHERE clause of the update; a NULL version compares with IS NULL. */
  predicate UpdateMatches(db: Db, req: Request, seen: Version) {
    && req.memory in db.memories
    && db.memories[req.memory].version == seen
    && db.memories[req.memory].state == req.from
  }

  function TransitionOf(m: Memory, req: Request): Transition
    requires req.expected >= 0
  {
    Transition(req.memory, req.from, req.to, req.expected, req.confidence.GetOr(m.confidence), req.reason, req.actor)
  }

  function After(m: Memory, t: Transition): Memory {
    Memory(StoredVersion(t.memory.kind, t.revision + 1), t.to, t.confidence)
  }

  function Updated(db: Db, req: Request): Db
    requires req.memory in db.memories && req.expected >= 0
  {
    var m := db.memories[req.memory];
    var t := TransitionOf(m, req);
    db.(memories := db.memories[req.memory := After(m, t)], log := db.log + [t])
  }

  // ----- a database changed by transitions only -----

  function Of(ts: seq<Transition>, m: MemoryKey): seq<Transition> {
    if ts == [] then []
    else if ts[0].memory == m then [ts[0]] + Of(ts[1..], m)
    else Of(ts[1..], m)
  }

  /** The transitions lead from one version of a memory to the other, each starting
      where the one before ended. */
  predicate Chained(x: Memory, y: Memory, ts: seq<Transition>)
    decreases |ts|
  {
    if ts == [] then x == y
    else
      && NormalizeVersion(x.version) == Some(ts[0].revision)
      && x.state == ts[0].from
      && Chained(After(x, ts[0]), y, ts[1..])
  }

  function Since(a: Db, b: Db): seq<Transition>
    requires |a.log| <= |b.log|
  {
    b.log[|a.log|..]
  }

  /** `b` is `a` after whole transitions: versions, states, state rows and events agree. */
  ghost predicate Extends(a: Db, b: Db) {
    && a.log <= b.log
    && b.states == a.states + StateRowsOf(Since(a, b))
    && b.events == a.events + EventRowsOf(Since(a, b))
    && b.memories.Keys == a.memories.Keys
    && forall m :: m in a.memories ==> Chained(a.memories[m], b.memories[m], Of(Since(a, b), m))
  }

  lemma {:induction false} OfConcat(s: seq<Transition>, t: seq<Transition>, m: MemoryKey)
    ensures Of(s + t, m) == Of(s, m) + Of(t, m)
  {
    if s == [] {
      assert s + t == t;
    } else {
      assert (s + t)[1..] == s[1..] + t;
      OfConcat(s[1..], t, m);
    }
  }

  lemma {:induction false} ChainedConcat(x: Memory, y: Memory, z: Memory, s: seq<Transition>, t: seq<Transition>)
    requires Chained(x, y, s) && Chained(y, z, t)
    ensures Chained(x, z, s + t)
    decreases |s|
  {
    if s == [] {
      assert s + t == t;
    } else {
      assert (s + t)[1..] == s[1..] + t;
      ChainedConcat(After(x, s[0]), y, z, s[1..], t);
    }
  }

  lemma ExtendsReflexive(a: Db)
    ensures Extends(a, a)
  {
    assert Since(a, a) == [];
  }

  lemma ExtendsTransitive(a: Db, b: Db, c: Db)
    requires Extends(a, b) && Extends(b, c)
    ensures Extends(a, c)
  {
    hide Chained, Of, EventRowsOf, StateRowsOf;
    var s, t := Since(a, b), Since(b, c);
    assert Since(a, c) == s + t;
    RowsOfConcat(s, t);
    assert c.states == a.states + StateRowsOf(s + t) && c.events == a.events + EventRowsOf(s + t);
    forall m | m in a.memories ensures Chained(a.memories[m], c.memories[m], Of(Since(a, c), m)) {
      ChainsMeet(a, b, c, m);
    }
  }

  lemma ChainsMeet(a: Db, b: Db, c: Db, m: MemoryKey)
    requires Extends(a, b) && Extends(b, c) && m in a.memories
    ensures m in c.memories && |a.log| <= |c.log| && Chained(a.memories[m], c.memories[m], Of(Since(a, c), m))
  {
    hide Chained, Of, EventRowsOf, StateRowsOf;
    var s, t := Since(a, b), Since(b, c);
    assert Since(a, c) == s + t;
    assert m in b.memories.Keys && m in c.memories.Keys;
    OfConcat(s, t, m);
    ChainedConcat(a.memories[m], b.memories[m], c.memories[m], Of(s, m), Of(t, m));
  }

  lemma RowsOfConcat(s: seq<Transition>, t: seq<Transition>)
    ensures StateRowsOf(s + t) == StateRowsOf(s) + StateRowsOf(t)
    ensures EventRowsOf(s + t) == EventRowsOf(s) + EventRowsOf(t)
  {
    hide EventRowOf, StateRowOf;
  }

  /** The database with the state row and the event of its newest transition added. */
  function Recorded(db: Db, t: Transition): Db {
    db.(states := db.states + [StateRowOf(t)], events := db.events + [EventRowOf(t)])
  }

  /** One whole transition extends the database it was admitted by. */
  lemma TransitionExtends(db: Db, req: Request)
    requires ReadAdmits(db, req)
    ensures Extends(db, Recorded(Updated(db, req), TransitionOf(db.memories[req.memory], req)))
  {
    var t := TransitionOf(db.memories[req.memory], req);
    var next := Recorded(Updated(db, req), t);
    assert Since(db, next) == [t];
    assert StateRowsOf([t]) == [StateRowOf(t)] && EventRowsOf([t]) == [EventRowOf(t)];
    forall m | m in db.memories ensures Chained(db.memories[m], next.memories[m], Of([t], m)) {
      assert [t][1..] == [];
      if m == req.memory {
        assert Of([t], m) == [t];
      } else {
        assert Of([t], m) == [];
      }
    }
  }

  /** What chained transitions mean: every one rises the revision by exactly one, the
      revisions are consecutive and each event starts in the state the last one left. */
  lemma {:induction false} ChainedCounts(x: Memory, y: Memory, ts: seq<Transition>)
    requires Chained(x, y, ts) && ts != []
    ensures NormalizeVersion(x.version).Some?
    ensures NormalizeVersion(y.version) == Some(NormalizeVersion(x.version).value + |ts|)
    ensures forall i :: 0 <= i < |ts| ==> ts[i].revision == NormalizeVersion(x.version).value + i
    ensures forall i :: 0 < i < |ts| ==> ts[i].from == ts[i - 1].to
    ensures ts[0].from == x.state && ts[|ts| - 1].to == y.state
    decreases |ts|
  {
    hide NormalizeVersion, StoredVersion;
    var rest := ts[1..];
    StoredVersionReadsBack(ts[0].memory.kind, ts[0].revision + 1);
    if rest != [] {
      ChainedCounts(After(x, ts[0]), y, rest);
      forall i | 0 < i < |ts| ensures ts[i].from == ts[i - 1].to && ts[i].revision == ts[0].revision + i {
        assert ts[i] == rest[i - 1];
        if i > 1 { assert ts[i - 1] == rest[i - 2]; }
      }
    }
  }

  // ----- LifecycleRepository over one unit of work -----

  /** What one admitted transition makes of the database. */
  function Transitioned(db: Db, req: Request): Option<Db> {
    if ReadAdmits(db, req) then Some(Recorded(Updated(db, req), TransitionOf(db.memories[req.memory], req))) else None
  }

  /** The requests of a unit one after the other; None if any is not admitted. */
  function Applied(db: Db, requests: seq<Request>): Option<Db>
    decreases |requests|
  {
    if requests == [] then Some(db)
    else
      var next := Transitioned(db, requests[0]);
      if next.None? then None else Applied(next.value, requests[1..])
  }

  datatype Result = Success(memory: Memory) | Conflict | Unsupported

  /** The repository's session: its view of the database inside a unit of work. */
  class LifecycleRepository {
    var db: Db

    constructor (db: Db)
      ensures this.db == db
    {
      this.db := db;
    }

    /** _cas_transition, no other session writing between its two statements. */
    method CasTransition(req: Request) returns (r: Result)
      modifies this
      ensures r.Success? <==> ReadAdmits(old(db), req)
      ensures r.Unsupported? <==> req.memory in old(db).memories && NormalizeVersion(old(db).memories[req.memory].version).None?
      ensures r.Success? ==> db == Updated(old(db), req) && r.memory == db.memories[req.memory]
      ensures !r.Success? ==> db == old(db)
    {
      if req.memory !in db.memories {
        return Conflict;
      }
      var seen := db.memories[req.memory];
      var revision := NormalizeVersion(seen.version);
      if revision.None? {
        return Unsupported;
      }
      if revision.value != req.expected || seen.state != req.from {
        return Conflict;
      }
      r := UpdateWhere(req, seen.version);
    }

    method UpdateWhere(req: Request, seen: Version) returns (r: Result)
      requires req.expected >= 0
      modifies this
      ensures r.Success? <==> UpdateMatches(old(db), req, seen)
      ensures r.Success? ==> db == Updated(old(db), req) && r.memory == db.memories[req.memory]
      ensures !r.Success? ==> r.Conflict? && db == old(db)
    {
      if !UpdateMatches(db, req, seen) {
        return Conflict;
      }
      db := Updated(db, req);
      r := Success(db.memories[req.memory]);
    }

    method SetState(memory: MemoryKey, current: string, previous: string, confidence: real)
      modifies this
      ensures db == old(db).(states := old(db).states + [StateRow(memory, current, previous, confidence)])
    {
      db := db.(states := db.states + [StateRow(memory, current, previous, confidence)]);
    }

    method RecordEvent(memory: MemoryKey, from: string, to: string, reason: string, actor: string)
      modifies this
      ensures db == old(db).(events := old(db).events + [EventRow(memory, from, to, reason, actor)])
    {
      db := db.(events := db.events + [EventRow(memory, from, to, reason, actor)]);
    }

    /** LifecycleRepository.transition: one more link in the memory's chain, or nothing. */
    method ApplyTransition(req: Request) returns (r: Result)
      modifies this
      ensures r.Success? <==> ReadAdmits(old(db), req)
      ensures r.Success? <==>
        && req.memory in old(db).memories
        && NormalizeVersion(old(db).memories[req.memory].version) == Some(req.expected)
        && old(db).memories[req.memory].state == req.from
      ensures !r.Success? ==> db == old(db)
      ensures r.Success? && req.memory.kind == Fact ==> r.memory.version == Spelled(Decimal(req.expected + 1))
      ensures r.Success? && req.memory.kind == Belief ==> r.memory.version == Number(req.expected + 1)
      ensures r.Success? ==> Extends(old(db), db) && |db.log| == |old(db).log| + 1
      ensures Transitioned(old(db), req) == if r.Success? then Some(db) else None
      ensures r.Success? ==> r.memory.state == req.to && NormalizeVersion(r.memory.version) == Some(req.expected + 1)
      ensures r.Success? ==> r.memory.confidence == req.confidence.GetOr(old(db).memories[req.memory].confidence)
      ensures r.Success? ==> db.memories == old(db).memories[req.memory := r.memory]
      ensures r.Success? ==> db.states == old(db).states + [StateRow(req.memory, req.to, req.from, r.memory.confidence)]
      ensures r.Success? ==> db.events == old(db).events + [EventRow(req.memory, req.from, req.to, req.reason, req.actor)]
    {
      ghost var before := db;
      r := CasTransition(req);
      if r.Success? {
        SetState(req.memory, req.to, req.from, r.memory.confidence);
        RecordEvent(req.memory, req.from, req.to, req.reason, req.actor);
        TransitionExtends(before, req);
        StoredVersionReadsBack(req.memory.kind, req.expected + 1);
        assert db == Recorded(Updated(before, req), TransitionOf(before.memories[req.memory], req));
      }
    }

    /** A unit of work whose owner rolls back on the first exception. */
    method UnitOfWork(requests: seq<Request>) returns (ok: bool)
      modifies this
      ensures Extends(old(db), db)
      ensures ok ==> |db.log| == |old(db).log| + |requests|
      ensures !ok ==> db == old(db)
      ensures if ok then Applied(old(db), requests) == Some(db) else Applied(old(db), requests) == None
    {
      ghost var before := db;
      var begun := db;
      ExtendsReflexive(db);
      hide Extends, ReadAdmits, Recorded, Updated;
      for i := 0 to |requests|
        invariant Extends(before, db) && |db.log| == |before.log| + i
        invariant Applied(before, requests) == Applied(db, requests[i..])
      {
        ghost var mid := db;
        assert requests[i..][1..] == requests[i + 1..];
        var r := ApplyTransition(requests[i]);
        if !r.Success? {
          db := begun;
          ExtendsReflexive(db);
          return false;
        }
        ExtendsTransitive(before, mid, db);
      }
      ok := true;
    }
  }
}
