/** When a batch equals one-at-a-time processing whatever its calls write before they fail:
    a condition on entries and stores alone. */
module OutboxLeftovers {
  import opened Options
  import opened Outbox
  import opened OutboxProtocol
  import opened OutboxSingles
  import opened OutboxBatch
  import opened Journal

  /** However the chunks are cut and whatever befalls them, the stores are those of the
      reference. */
  ghost predicate AlwaysEqual(v: Environment, s: Stores, es: seq<Entry>) {
    forall size: nat, attempts: nat -> Attempt :: size >= 1 ==> RunBatch(v, s, es, size, attempts, 0) == Singles(v, s, es, size, attempts)
  }

  // ----- the condition -----

  /** The entry writes this point when it is handled alone. */
  predicate WritesAt(v: Environment, e: Entry, p: string) {
    Vectored(v, e) && Point(v, e) == p
  }

  predicate NoneWrites(v: Environment, es: seq<Entry>, from: nat, to: nat, p: string)
    requires to <= |es|
  {
    forall k :: from <= k < to ==> !WritesAt(v, es[k], p)
  }

  /** The entry does not write its point alone and none after it does: if a failing call
      writes it, that write may stay. */
  predicate Exposed(v: Environment, es: seq<Entry>, i: nat) {
    i < |es| && Upserts(v.config) && NoneWrites(v, es, i, |es|, Point(v, es[i]))
  }

  /** What the reference may leave at the point of an exposed entry, if chunks before it pass
      or not: the payload of an entry before it that no alone write follows, or if no alone
      write comes before it, what is there already. All of it is the entry's own payload. */
  ghost predicate LeavesAnyway(v: Environment, m: Store, es: seq<Entry>, i: nat)
    requires i < |es|
  {
    var p := Point(v, es[i]);
    && (forall j :: 0 <= j < i && Point(v, es[j]) == p && NoneWrites(v, es, j + 1, i, p) ==> es[j].payload == es[i].payload)
    && (NoneWrites(v, es, 0, i, p) ==> p in m && m[p] == es[i].payload)
  }

  /** Every write of a toxic entry that could stay is one the reference leaves anyway. */
  ghost predicate Harmless(v: Environment, s: Stores, es: seq<Entry>) {
    && (forall i :: Exposed(v, es, i) ==> LeavesAnyway(v, s.vectors, es, i))
    && (v.config.graphRouter ==> forall e :: e in es ==> e.payload in s.graph + Triples(v, es))
  }

  // ----- what the reference leaves at a point -----

  /** The last entry that writes a point decides it. */
  lemma {:induction false} LastAlone(v: Environment, m: Store, es: seq<Entry>, p: string) returns (k: Option<nat>)
    ensures k.Some? ==> k.value < |es| && WritesAt(v, es[k.value], p) && NoneWrites(v, es, k.value + 1, |es|, p)
    ensures k.Some? ==> p in UpsertAll(v, m, es) && UpsertAll(v, m, es)[p] == es[k.value].payload
    ensures k.None? ==> NoneWrites(v, es, 0, |es|, p) && SameAt(UpsertAll(v, m, es), m, p)
    decreases |es|
  {
    hide Vectored, Point;
    if es == [] {
      return None;
    }
    var rest := es[1..];
    assert forall i :: 0 <= i < |rest| ==> rest[i] == es[i + 1];
    var later := LastAlone(v, Upsert(v, m, es[0]), rest, p);
    if later.Some? {
      forall i | later.value + 2 <= i < |es| ensures !WritesAt(v, es[i], p) { assert rest[i - 1] == es[i]; }
      return Some(later.value + 1);
    }
    forall i | 1 <= i < |es| ensures !WritesAt(v, es[i], p) { assert rest[i - 1] == es[i]; }
    k := if WritesAt(v, es[0], p) then Some(0) else None;
  }

  lemma GivenWritesMore(v: Environment, passed: set<string>, e: Entry, p: string)
    requires e.operation.IndexFact?
    ensures WritesAt(Given(v, passed), e, p) <==> Point(v, e) == p && (Vectored(v, e) || (e.id in passed && Upserts(v.config)))
  {
  }

  // ----- harmless inputs leave nothing behind -----

  lemma {:induction false} NoWriteNoKey(v: Environment, es: seq<Entry>, p: string, k: nat)
    requires k < |es| && forall w :: w in AloneWrites(v, es) ==> w.key != p
    ensures !WritesAt(v, es[k], p)
  {
    if WritesAt(v, es[k], p) {
      AloneWriteAt(v, es, es[k]);
    }
  }

  lemma KeptAreWrites(ws: seq<Write>, p: string)
    requires forall w :: w in ws ==> w.key != p
    ensures forall w :: w in Kept(ws) ==> w.key != p
  {
    KeptMembers(ws);
  }

  lemma {:induction false} KeptMembers(ws: seq<Write>)
    ensures forall w :: w in Kept(ws) ==> w in ws
    decreases |ws|
  {
    if ws != [] {
      KeptMembers(ws[..|ws| - 1]);
      assert ws == ws[..|ws| - 1] + [ws[|ws| - 1]];
    }
  }

  /** A write left in a chunk is of an entry after which nothing in the chunk writes alone. */
  lemma LeftInChunkEntry(v: Environment, passed: set<string>, chunk: seq<Entry>, a: Attempt, x: nat) returns (i: nat)
    requires AllFacts(chunk) && IsLast(ChunkJournal(v, chunk, a), x) && !ChunkJournal(v, chunk, a)[x].kept
    requires forall e :: e in chunk ==> (e.id in passed <==> Passes(v.config, a))
    ensures i < |chunk| && ChunkJournal(v, chunk, a)[x] == WriteOf(v, chunk[i], false) && Upserts(v.config)
    ensures NoneWrites(Given(v, passed), chunk, 0, |chunk|, Point(v, chunk[i]))
  {
    var first, second := AttemptWrites(v, chunk, a), if Passes(v.config, a) then [] else AloneWrites(v, chunk);
    var journal := ChunkJournal(v, chunk, a);
    AllKept(v, chunk);
    PartIsPart(chunk, a.upserted);
    hide AloneWrites, Part;
    assert forall k :: |first| <= k < |journal| ==> journal[k] == second[k - |first|] && second[k - |first|] in second;
    assert x < |first| && journal[x] == first[x];
    var e := if !a.upsertOk then Part(chunk, a.upserted)[x] else chunk[x];
    assert e in chunk;
    i :| 0 <= i < |chunk| && chunk[i] == e;
    var p := Point(v, e);
    forall w | w in second ensures w.key != p {
      var j :| 0 <= j < |second| && second[j] == w;
      assert journal[|first| + j] == w;
    }
    forall k | 0 <= k < |chunk| ensures !WritesAt(Given(v, passed), chunk[k], p) {
      assert chunk[k] in chunk;
      NoWriteNoKey(v, chunk, p, k);
      GivenWritesMore(v, passed, chunk[k], p);
    }
  }

  /** A write left in the batch is of an entry from which on nothing is written at its point
      in the reference. */
  lemma {:induction false} LeftEntry(v: Environment, passed: set<string>, es: seq<Entry>, size: nat, attempts: nat -> Attempt, k: nat, x: nat)
    returns (i: nat)
    requires size >= 1 && AllFacts(es) && DistinctIds(es)
    requires forall e :: e in es ==> (e.id in passed <==> e.id in PassedIds(v, es, size, attempts, k))
    requires var journal := JournalOf(v, es, size, attempts, k); IsLast(journal, x) && !journal[x].kept
    ensures i < |es| && JournalOf(v, es, size, attempts, k)[x] == WriteOf(v, es[i], false) && Upserts(v.config)
    ensures NoneWrites(Given(v, passed), es, i, |es|, Point(v, es[i]))
    decreases |es|
  {
    hide ChunkJournal, WritesAt, Given, Passes, WriteOf;
    var n := Cut(es, size);
    var chunk, rest, g := es[..n], es[n..], Given(v, passed);
    var first, second := ChunkJournal(v, chunk, attempts(k)), JournalOf(v, rest, size, attempts, k + 1);
    var journal := first + second;
    assert journal == JournalOf(v, es, size, attempts, k);
    PassedOfChunk(v, es, size, attempts, k);
    assert es == chunk + rest;
    if x >= |first| {
      LastInTail(first, second, x);
      i := LeftEntry(v, passed, rest, size, attempts, k + 1, x - |first|);
      i := i + n;
      NoneWritesShift(g, es, n, i, Point(v, es[i]));
    } else {
      LastInHead(first, second, x);
      i := LeftInChunkEntry(v, passed, chunk, attempts(k), x);
      var p := Point(v, es[i]);
      assert journal[x].key == p by { WriteKey(v, es[i]); }
      RestKept(v, passed, rest, size, attempts, k + 1);
      KeptAreWrites(second, p);
      forall j | i <= j < |es| ensures !WritesAt(g, es[j], p) {
        if j < n {
          assert chunk[j] == es[j];
        } else {
          assert rest[j - n] == es[j];
          NoWriteNoKey(g, rest, p, j - n);
        }
      }
    }
  }

  lemma WriteKey(v: Environment, e: Entry)
    ensures WriteOf(v, e, false).key == Point(v, e) && WriteOf(v, e, false).value == e.payload
  {
  }

  lemma NoneWritesShift(v: Environment, es: seq<Entry>, n: nat, i: nat, p: string)
    requires n <= i <= |es| && NoneWrites(v, es[n..], i - n, |es| - n, p)
    ensures NoneWrites(v, es, i, |es|, p)
  {
    forall k | i <= k < |es| ensures !WritesAt(v, es[k], p) { assert es[n..][k - n] == es[k]; }
  }

  lemma LastInTail(a: seq<Write>, b: seq<Write>, x: nat)
    requires IsLast(a + b, x) && x >= |a|
    ensures IsLast(b, x - |a|) && (a + b)[x] == b[x - |a|]
  {
    forall j | x - |a| < j < |b| ensures b[j].key != b[x - |a|].key { assert (a + b)[|a| + j] == b[j]; }
  }

  lemma LastInHead(a: seq<Write>, b: seq<Write>, x: nat)
    requires IsLast(a + b, x) && x < |a|
    ensures IsLast(a, x) && (a + b)[x] == a[x] && forall w :: w in b ==> w.key != a[x].key
  {
    forall j | x < j < |a| ensures a[j].key != a[x].key { assert (a + b)[j] == a[j]; }
    forall w | w in b ensures w.key != a[x].key {
      var j :| 0 <= j < |b| && b[j] == w;
      assert (a + b)[|a| + j] == w;
    }
  }

  lemma RestKept(v: Environment, passed: set<string>, es: seq<Entry>, size: nat, attempts: nat -> Attempt, k: nat)
    requires size >= 1 && AllFacts(es) && DistinctIds(es)
    requires forall e :: e in es ==> (e.id in passed <==> e.id in PassedIds(v, es, size, attempts, k))
    ensures Kept(JournalOf(v, es, size, attempts, k)) == AloneWrites(Given(v, passed), es)
  {
    BatchIs(v, passed, Stores(map[], map[], {}), es, size, attempts, k);
  }

  /** What is left at an entry's point is what the reference leaves there. */
  lemma LeftIsReference(v: Environment, passed: set<string>, m: Store, es: seq<Entry>, i: nat)
    requires AllFacts(es) && i < |es| && Upserts(v.config)
    requires NoneWrites(Given(v, passed), es, i, |es|, Point(v, es[i]))
    requires Exposed(v, es, i) ==> LeavesAnyway(v, m, es, i)
    ensures var reference := UpsertAll(Given(v, passed), m, es);
      Point(v, es[i]) in reference && reference[Point(v, es[i])] == es[i].payload
  {
    var g, p := Given(v, passed), Point(v, es[i]);
    forall j | 0 <= j < |es| ensures WritesAt(v, es[j], p) ==> WritesAt(g, es[j], p) {
      assert es[j] in es;
      GivenWritesMore(v, passed, es[j], p);
    }
    var k := LastAlone(g, m, es, p);
    if k.Some? {
      assert es[k.value] in es;
      GivenWritesMore(v, passed, es[k.value], p);
    }
    hide WritesAt, Given, Point;
    assert Exposed(v, es, i);
  }

  lemma {:induction false} StrayEntry(v: Environment, es: seq<Entry>, size: nat, attempts: nat -> Attempt, k: nat, x: string)
    requires size >= 1 && x in Strays(v, es, size, attempts, k)
    ensures v.config.graphRouter && exists e :: e in es && e.payload == x
    decreases |es|
  {
    var n := Cut(es, size);
    assert es == es[..n] + es[n..];
    if x in Strays(v, es[n..], size, attempts, k + 1) {
      StrayEntry(v, es[n..], size, attempts, k + 1, x);
    } else {
      PartIsPart(es[..n], attempts(k).synced);
    }
  }

  lemma {:induction false} TriplesGrow(v: Environment, passed: set<string>, es: seq<Entry>)
    requires AllFacts(es)
    ensures Triples(v, es) <= Triples(Given(v, passed), es)
    decreases |es|
  {
    if es != [] {
      assert es[0] in es;
      TriplesGrow(v, passed, es[1..]);
    }
  }

  lemma HarmlessLeavesNothing(v: Environment, s: Stores, es: seq<Entry>, size: nat, attempts: nat -> Attempt)
    requires ValidEnvironment(v) && size >= 1 && AllFacts(es) && DistinctIds(es) && Harmless(v, s, es)
    ensures NoLeftovers(v, s, es, size, attempts)
  {
    var passed := PassedIds(v, es, size, attempts, 0);
    var g, journal := Given(v, passed), JournalOf(v, es, size, attempts, 0);
    RestKept(v, passed, es, size, attempts, 0);
    UpsertAllReplays(g, s.vectors, es);
    ProcessAllByStore(g, s, es);
    SyncAllIs(g, s.graph, es);
    TriplesGrow(v, passed, es);
    hide JournalOf, PassedIds, Given, Replay, Kept, Triples, AloneWrites, UpsertAll, Exposed, LeavesAnyway, Strays, Point;
    forall x: nat | IsLast(journal, x) && !journal[x].kept
      ensures journal[x].key in UpsertAll(g, s.vectors, es) && UpsertAll(g, s.vectors, es)[journal[x].key] == journal[x].value
    {
      var i := LeftEntry(v, passed, es, size, attempts, 0, x);
      LeftIsReference(v, passed, s.vectors, es, i);
    }
    forall x | x in Strays(v, es, size, attempts, 0) ensures x in Singles(v, s, es, size, attempts).graph {
      StrayEntry(v, es, size, attempts, 0, x);
    }
  }

  // ----- harmful inputs do leave something -----

  /** One entry to a chunk: `i` is written and its call fails, `j`'s chunk passes, all other
      calls fail before they write. */
  function Adversary(es: seq<Entry>, i: nat, j: int): nat -> Attempt
    requires i < |es|
  {
    (k: nat) => if k == i then Attempt({es[i].id}, false, {}, false, true)
                else Attempt({}, k == j, {}, k == j, true)
  }

  lemma {:induction false} JournalSplit(v: Environment, a: seq<Entry>, b: seq<Entry>, attempts: nat -> Attempt, k: nat)
    ensures JournalOf(v, a + b, 1, attempts, k) == JournalOf(v, a, 1, attempts, k) + JournalOf(v, b, 1, attempts, k + |a|)
    decreases |a|
  {
    hide ChunkJournal;
    if a == [] {
      assert a + b == b;
    } else {
      assert (a + b)[..1] == a[..1] && (a + b)[1..] == a[1..] + b;
      JournalSplit(v, a[1..], b, attempts, k + 1);
    }
  }

  /** With one entry to a chunk, an entry passed exactly if its chunk did. */
  lemma {:induction false} PassedOneByOne(v: Environment, es: seq<Entry>, attempts: nat -> Attempt, k: nat, x: nat)
    requires x < |es| && DistinctIds(es)
    ensures es[x].id in PassedIds(v, es, 1, attempts, k) <==> Passes(v.config, attempts(k + x))
    decreases |es|
  {
    hide Passes;
    PassedOfChunk(v, es, 1, attempts, k);
    if x == 0 {
      assert es[0] == es[..1][0];
    } else {
      assert es[x] == es[1..][x - 1];
      PassedOneByOne(v, es[1..], attempts, k + 1, x - 1);
    }
  }

  /** Calls that fail before they write leave the alone writes only. */
  lemma {:induction false} FailingTail(v: Environment, es: seq<Entry>, attempts: nat -> Attempt, k: nat)
    requires Upserts(v.config) && forall x :: k <= x < k + |es| ==> attempts(x) == Attempt({}, false, {}, false, true)
    ensures JournalOf(v, es, 1, attempts, k) == AloneWrites(v, es)
    decreases |es|
  {
    hide ChunkJournal, AloneWrites;
    if es == [] {
      NoEntries(v);
    } else {
      FailingChunk(v, es[0]);
      assert es[..1] == [es[0]];
      FailingTail(v, es[1..], attempts, k + 1);
      assert es == [es[0]] + es[1..];
      AloneWritesAppend(v, [es[0]], es[1..]);
    }
  }

  lemma NoEntries(v: Environment)
    ensures AloneWrites(v, []) == []
  {
  }

  lemma FailingChunk(v: Environment, e: Entry)
    requires Upserts(v.config)
    ensures ChunkJournal(v, [e], Attempt({}, false, {}, false, true)) == AloneWrites(v, [e])
  {
    assert [e][1..] == [] && Part([e], {}) == [];
  }

  lemma OwnChunk(v: Environment, e: Entry)
    requires Upserts(v.config) && !Vectored(v, e)
    ensures ChunkJournal(v, [e], Attempt({e.id}, false, {}, false, true)) == [WriteOf(v, e, false)]
  {
    assert Part([e], {e.id}) == [e];
    assert [e][1..] == [] && AloneWrites(v, []) == [];
    assert AloneWrites(v, [e]) == [];
  }

  lemma JournalAround(v: Environment, es: seq<Entry>, attempts: nat -> Attempt, i: nat)
    requires i < |es|
    ensures JournalOf(v, es, 1, attempts, 0) ==
      JournalOf(v, es[..i], 1, attempts, 0) + (ChunkJournal(v, [es[i]], attempts(i)) + JournalOf(v, es[i + 1..], 1, attempts, i + 1))
  {
    hide ChunkJournal;
    var one := [es[i]];
    assert es == es[..i] + (one + es[i + 1..]);
    JournalSplit(v, es[..i], one + es[i + 1..], attempts, 0);
    assert (one + es[i + 1..])[..1] == one && (one + es[i + 1..])[1..] == es[i + 1..];
  }

  /** The adversary's write of an exposed entry is the last at its point. */
  lemma ExposedIsLeft(v: Environment, es: seq<Entry>, i: nat, j: int) returns (x: nat)
    requires Exposed(v, es, i) && j < i
    ensures var journal := JournalOf(v, es, 1, Adversary(es, i, j), 0);
      IsLast(journal, x) && journal[x] == WriteOf(v, es[i], false)
  {
    var attempts, tail := Adversary(es, i, j), es[i + 1..];
    assert !WritesAt(v, es[i], Point(v, es[i]));
    JournalAround(v, es, attempts, i);
    OwnChunk(v, es[i]);
    FailingTail(v, tail, attempts, i + 1);
    TailKeys(v, es, i);
    WriteKey(v, es[i]);
    var before := JournalOf(v, es[..i], 1, attempts, 0);
    x := |before|;
    hide *;
    LastBefore(before, WriteOf(v, es[i], false), AloneWrites(v, tail));
  }

  lemma LastBefore(before: seq<Write>, w: Write, after: seq<Write>)
    requires forall y :: y in after ==> y.key != w.key
    ensures IsLast(before + ([w] + after), |before|) && (before + ([w] + after))[|before|] == w
  {
    var ws := before + ([w] + after);
    forall y | |before| < y < |ws| ensures ws[y].key != w.key {
      assert ws[y] == after[y - |before| - 1] && after[y - |before| - 1] in after;
    }
  }

  lemma TailKeys(v: Environment, es: seq<Entry>, i: nat)
    requires Exposed(v, es, i)
    ensures forall w :: w in AloneWrites(v, es[i + 1..]) ==> w.key != Point(v, es[i])
  {
    var tail := es[i + 1..];
    forall w | w in AloneWrites(v, tail) ensures w.key != Point(v, es[i]) {
      var k := AloneWriteOf(v, tail, w);
      assert tail[k] == es[i + 1 + k];
      assert !WritesAt(v, es[i + 1 + k], Point(v, es[i]));
    }
  }

  lemma {:induction false} AloneWriteOf(v: Environment, es: seq<Entry>, w: Write) returns (k: nat)
    requires w in AloneWrites(v, es)
    ensures k < |es| && Vectored(v, es[k]) && w == WriteOf(v, es[k], true)
    decreases |es|
  {
    hide Vectored, WriteOf;
    if w in AloneWrites(v, es[1..]) {
      k := AloneWriteOf(v, es[1..], w);
      k := k + 1;
    } else {
      k := 0;
    }
  }

  /** Under the adversary only `j`'s chunk passes. */
  lemma AdversaryPasses(v: Environment, es: seq<Entry>, i: nat, j: int)
    requires i < |es| && j != i && v.config.embedder && DistinctIds(es)
    ensures forall x :: 0 <= x < |es| ==> (es[x].id in PassedIds(v, es, 1, Adversary(es, i, j), 0) <==> x == j)
  {
    forall x | 0 <= x < |es| ensures es[x].id in PassedIds(v, es, 1, Adversary(es, i, j), 0) <==> x == j {
      PassedOneByOne(v, es, Adversary(es, i, j), 0, x);
    }
  }

  /** If an entry's payload is not what the reference leaves at its point in some case, that
      case is a batch which leaves something else. */
  lemma HarmfulWriteIsLeft(v: Environment, s: Stores, es: seq<Entry>, i: nat) returns (j: int)
    requires AllFacts(es) && DistinctIds(es) && Exposed(v, es, i) && !LeavesAnyway(v, s.vectors, es, i)
    ensures !NoLeftovers(v, s, es, 1, Adversary(es, i, j))
  {
    var p := Point(v, es[i]);
    j := -1;
    if k :| 0 <= k < i && Point(v, es[k]) == p && NoneWrites(v, es, k + 1, i, p) && es[k].payload != es[i].payload {
      j := k;
    }
    var attempts := Adversary(es, i, j);
    var passed := PassedIds(v, es, 1, attempts, 0);
    var g, journal := Given(v, passed), JournalOf(v, es, 1, attempts, 0);
    AdversaryPasses(v, es, i, j);
    RestKept(v, passed, es, 1, attempts, 0);
    UpsertAllReplays(g, s.vectors, es);
    var x := ExposedIsLeft(v, es, i, j);
    WriteKey(v, es[i]);
    KeptFlag(v, es[i], false);
    forall k | 0 <= k < |es| ensures WritesAt(g, es[k], p) <==> WritesAt(v, es[k], p) || (k == j && Point(v, es[k]) == p) {
      assert es[k] in es;
      GivenWritesMore(v, passed, es[k], p);
    }
    ReferenceDiffers(v, g, s.vectors, es, i, j);
    hide *;
  }

  /** If of all entries only `j` writes besides those that write alone, the reference does not
      leave the exposed entry's payload. */
  lemma ReferenceDiffers(v: Environment, g: Environment, m: Store, es: seq<Entry>, i: nat, j: int)
    requires Exposed(v, es, i) && j < i
    requires forall k :: 0 <= k < |es| ==> (WritesAt(g, es[k], Point(v, es[i])) <==> WritesAt(v, es[k], Point(v, es[i])) || (k == j && Point(v, es[k]) == Point(v, es[i])))
    requires if j >= 0 then Point(v, es[j]) == Point(v, es[i]) && NoneWrites(v, es, j + 1, i, Point(v, es[i])) && es[j].payload != es[i].payload
             else NoneWrites(v, es, 0, i, Point(v, es[i])) && !(Point(v, es[i]) in m && m[Point(v, es[i])] == es[i].payload)
    ensures var reference := UpsertAll(g, m, es); !(Point(v, es[i]) in reference && reference[Point(v, es[i])] == es[i].payload)
  {
    var p := Point(v, es[i]);
    var last := LastAlone(g, m, es, p);
    hide UpsertAll, WritesAt, Point;
    if j >= 0 {
      assert WritesAt(g, es[j], p);
      assert last.Some? && last.value == j;
    } else {
      assert last.None?;
    }
  }

  // ----- triples -----

  lemma {:induction false} StrayOf(v: Environment, es: seq<Entry>, attempts: nat -> Attempt, k: nat, i: nat)
    requires i < |es| && !Passes(v.config, attempts(k + i))
    ensures AttemptTriples(v, [es[i]], attempts(k + i)) <= Strays(v, es, 1, attempts, k)
    decreases |es|
  {
    hide Passes, AttemptTriples;
    assert es[..1] == [es[0]];
    if i > 0 {
      assert es[1..][i - 1] == es[i];
      StrayOf(v, es[1..], attempts, k + 1, i - 1);
    }
  }

  /** `i`'s triple is written and the call fails, all other calls fail before they write. */
  function TripleAdversary(es: seq<Entry>, i: nat): nat -> Attempt
    requires i < |es|
  {
    (k: nat) => Attempt({}, k == i, if k == i then {es[i].id} else {}, false, true)
  }

  lemma HarmfulTripleIsLeft(v: Environment, s: Stores, es: seq<Entry>, i: nat)
    requires AllFacts(es) && DistinctIds(es) && v.config.graphRouter && i < |es|
    requires es[i].payload !in s.graph + Triples(v, es)
    ensures !NoLeftovers(v, s, es, 1, TripleAdversary(es, i))
  {
    var attempts := TripleAdversary(es, i);
    var passed := PassedIds(v, es, 1, attempts, 0);
    forall e | e in es ensures e.id !in passed {
      var x :| 0 <= x < |es| && es[x] == e;
      PassedOneByOne(v, es, attempts, 0, x);
    }
    FailedWrites(v, passed, es);
    ProcessAllByStore(Given(v, passed), s, es);
    SyncAllIs(Given(v, passed), s.graph, es);
    StrayOf(v, es, attempts, 0, i);
    assert Part([es[i]], {es[i].id}) == [es[i]];
    assert es[i] in [es[i]];
    hide PassedIds, Triples, Given, SyncAll, Strays;
    assert es[i].payload in AttemptTriples(v, [es[i]], attempts(i));
  }

  // ----- the condition is exact -----

  /** Whatever subsets the batched calls write before they fail, and however the chunks are
      cut and pass, the stores are equal to the reference, exactly when every write of a toxic
      entry that could stay is one the reference leaves anyway. */
  lemma AlwaysEqualIffHarmless(v: Environment, s: Stores, es: seq<Entry>)
    requires ValidEnvironment(v) && AllFacts(es) && DistinctIds(es)
    ensures AlwaysEqual(v, s, es) <==> Harmless(v, s, es)
  {
    hide RunBatch, Singles, NoLeftovers, Exposed, LeavesAnyway, Triples, ValidEnvironment, ToxicPoints, ToxicPayloads, SameAt;
    if Harmless(v, s, es) {
      forall size: nat, attempts: nat -> Attempt | size >= 1
        ensures RunBatch(v, s, es, size, attempts, 0) == Singles(v, s, es, size, attempts)
      {
        BatchAgainstSingles(v, s, es, size, attempts);
        HarmlessLeavesNothing(v, s, es, size, attempts);
      }
    } else if i: nat :| Exposed(v, es, i) && !(i < |es| && LeavesAnyway(v, s.vectors, es, i)) {
      ExposedIsEntry(v, es, i);
      var j := HarmfulWriteIsLeft(v, s, es, i);
      BatchAgainstSingles(v, s, es, 1, Adversary(es, i, j));
    } else {
      var e :| e in es && e.payload !in s.graph + Triples(v, es);
      var i :| 0 <= i < |es| && es[i] == e;
      HarmfulTripleIsLeft(v, s, es, i);
      BatchAgainstSingles(v, s, es, 1, TripleAdversary(es, i));
    }
  }

  lemma ExposedIsEntry(v: Environment, es: seq<Entry>, i: nat)
    requires Exposed(v, es, i)
    ensures i < |es|
  {
  }

  lemma SucceedingIsNotExposed(v: Environment, es: seq<Entry>, i: nat)
    requires ValidEnvironment(v) && AllFacts(es) && forall e :: e in es ==> Succeeds(v, e)
    ensures !Exposed(v, es, i)
  {
    if i < |es| {
      assert es[i] in es && v.alone(es[i]).Valid();
      assert Upserts(v.config) ==> WritesAt(v, es[i], Point(v, es[i]));
    }
  }

  /** A batch whose entries all succeed alone gives the stores of plain one-at-a-time
      processing, whatever befalls its chunks. */
  lemma AllSucceedMeansEqual(v: Environment, s: Stores, es: seq<Entry>, size: nat, attempts: nat -> Attempt)
    requires ValidEnvironment(v) && size >= 1 && AllFacts(es) && DistinctIds(es) && forall e :: e in es ==> Succeeds(v, e)
    ensures Harmless(v, s, es)
    ensures RunBatch(v, s, es, size, attempts, 0) == ProcessAll(v, s, es)
  {
    forall i: nat ensures !Exposed(v, es, i) {
      SucceedingIsNotExposed(v, es, i);
    }
    forall e | e in es && v.config.graphRouter ensures e.payload in Triples(v, es) {
      assert v.alone(e).Valid();
      TripleOf(v, es, e);
    }
    HarmlessLeavesNothing(v, s, es, size, attempts);
    BatchAgainstSingles(v, s, es, size, attempts);
    SinglesArePlain(v, s, es, size, attempts);
  }
}
