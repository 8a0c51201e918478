/** Binary-relevance nDCG over any positive, strictly decreasing weights. */
module Ndcg {
  import opened Ordering

  /** What is used of 1 / log2(rank + 1). */
  ghost predicate Decreasing(w: nat -> real) {
    (forall i: nat :: 1 <= i ==> w(i) > 0.0) && (forall i: nat, j: nat :: 1 <= i < j ==> w(j) < w(i))
  }

  function Dcg(ids: seq<string>, relevant: set<string>, w: nat -> real): real
    decreases |ids|
  {
    if ids == [] then 0.0
    else Dcg(ids[..|ids| - 1], relevant, w) + if ids[|ids| - 1] in relevant then w(|ids|) else 0.0
  }

  /** The sum of the first `n` weights. */
  function Ideal(n: int, w: nat -> real): real
    decreases n
  {
    if n <= 0 then 0.0 else Ideal(n - 1, w) + w(n)
  }

  function IdealHits(relevant: set<string>, k: int): int {
    if |relevant| <= k then |relevant| else k
  }

  function Score(ranked: seq<string>, relevant: set<string>, k: int, w: nat -> real): real {
    var ideal := Ideal(IdealHits(relevant, k), w);
    if relevant == {} || ideal == 0.0 then 0.0 else Dcg(FirstItems(ranked, k), relevant, w) / ideal
  }

  /** ndcg_at_k */
  method NdcgAtK(ranked: seq<string>, relevant: set<string>, k: int, w: nat -> real) returns (ndcg: real)
    ensures ndcg == Score(ranked, relevant, k, w)
  {
    if relevant == {} {
      return 0.0;
    }
    var dcg := 0.0;
    var top := FirstItems(ranked, k);
    for i := 0 to |top|
      invariant dcg == Dcg(top[..i], relevant, w)
    {
      assert top[..i + 1][..i] == top[..i];
      if top[i] in relevant {
        dcg := dcg + w(i + 1);
      }
    }
    assert top[..|top|] == top;
    var hits := IdealHits(relevant, k);
    var idcg := 0.0;
    var n := 0;
    while n < hits
      invariant 0 <= n && (n <= hits || n == 0) && idcg == Ideal(n, w)
    {
      n := n + 1;
      idcg := idcg + w(n);
    }
    assert idcg == Ideal(hits, w);
    if idcg == 0.0 {
      return 0.0;
    }
    ndcg := dcg / idcg;
  }

  predicate DuplicateFree(ids: seq<string>) {
    forall i, j :: 0 <= i < j < |ids| ==> ids[i] != ids[j]
  }

  function Hits(ids: seq<string>, relevant: set<string>): (h: nat)
    ensures h <= |ids|
    decreases |ids|
  {
    if ids == [] then 0
    else Hits(ids[..|ids| - 1], relevant) + if ids[|ids| - 1] in relevant then 1 else 0
  }

  function Found(ids: seq<string>, relevant: set<string>): set<string> {
    set x | x in ids && x in relevant
  }

  /** Without duplicates every hit is another relevant item. */
  lemma {:induction false} HitsAreRelevant(ids: seq<string>, relevant: set<string>)
    requires DuplicateFree(ids)
    ensures Hits(ids, relevant) == |Found(ids, relevant)| <= |relevant|
    decreases |ids|
  {
    if ids == [] {
      assert Found(ids, relevant) == {};
    } else {
      var front, last := ids[..|ids| - 1], ids[|ids| - 1];
      HitsAreRelevant(front, relevant);
      assert last !in front;
      assert Found(ids, relevant) == Found(front, relevant) + if last in relevant then {last} else {};
    }
    Subset(Found(ids, relevant), relevant);
  }

  lemma {:induction false} Subset(a: set<string>, b: set<string>)
    requires a <= b
    ensures |a| <= |b|
  {
    if a != {} {
      var x :| x in a;
      Subset(a - {x}, b - {x});
    }
  }

  lemma {:induction false} IdealGrows(m: int, n: int, w: nat -> real)
    requires Decreasing(w) && m <= n
    ensures Ideal(m, w) <= Ideal(n, w) && Ideal(m, w) >= 0.0
    ensures 0 <= m < n ==> Ideal(m, w) < Ideal(n, w)
    decreases n - m, n
  {
    if m < n {
      IdealGrows(m, n - 1, w);
    } else if m > 0 {
      IdealGrows(m - 1, m - 1, w);
    }
  }

  /** Hits count most at the front: as many hits in the first ranks would do no worse,
      and only hits in the first ranks do as well. */
  lemma {:induction false} DcgAtMostIdeal(ids: seq<string>, relevant: set<string>, w: nat -> real)
    requires Decreasing(w)
    ensures 0.0 <= Dcg(ids, relevant, w) <= Ideal(Hits(ids, relevant), w)
    ensures Dcg(ids, relevant, w) == Ideal(Hits(ids, relevant), w) ==> forall i :: 0 <= i < Hits(ids, relevant) ==> ids[i] in relevant
    decreases |ids|
  {
    if ids != [] {
      var front, n, h := ids[..|ids| - 1], |ids|, Hits(ids, relevant);
      DcgAtMostIdeal(front, relevant, w);
      if ids[n - 1] in relevant {
        assert w(n) <= w(h) && (w(n) == w(h) ==> n == h);
      }
    }
  }

  /** Relevant items alone score the whole ideal sum. */
  lemma {:induction false} AllHits(ids: seq<string>, relevant: set<string>, w: nat -> real)
    requires forall i :: 0 <= i < |ids| ==> ids[i] in relevant
    ensures Dcg(ids, relevant, w) == Ideal(|ids|, w) && Hits(ids, relevant) == |ids|
    decreases |ids|
  {
    if ids != [] {
      AllHits(ids[..|ids| - 1], relevant, w);
    }
  }

  lemma {:induction false} NoHits(ids: seq<string>, more: seq<string>, relevant: set<string>, w: nat -> real)
    requires forall i :: 0 <= i < |more| ==> more[i] !in relevant
    ensures Dcg(ids + more, relevant, w) == Dcg(ids, relevant, w)
    decreases |more|
  {
    if more == [] {
      assert ids + more == ids;
    } else {
      var front := more[..|more| - 1];
      assert (ids + more)[..|ids + more| - 1] == ids + front;
      NoHits(ids, front, relevant, w);
    }
  }

  /** The first min(|relevant|, k) ranks exist and are all relevant. */
  predicate Perfect(ranked: seq<string>, relevant: set<string>, k: int) {
    var m := IdealHits(relevant, k);
    m <= |ranked| && forall i :: 0 <= i < m ==> ranked[i] in relevant
  }

  lemma PerfectScoresIdeal(ranked: seq<string>, relevant: set<string>, k: nat, w: nat -> real)
    requires DuplicateFree(ranked) && Perfect(ranked, relevant, k)
    ensures Dcg(FirstItems(ranked, k), relevant, w) == Ideal(IdealHits(relevant, k), w)
  {
    var m, top := IdealHits(relevant, k), FirstItems(ranked, k);
    var head, tail := top[..m], top[m..];
    assert top == head + tail;
    AllHits(head, relevant, w);
    if m == |relevant| {
      HitsAreRelevant(head, relevant);
      AllFound(Found(head, relevant), relevant);
      forall i | 0 <= i < |tail| ensures tail[i] !in relevant {
        assert tail[i] == ranked[m + i] && forall j :: 0 <= j < m ==> head[j] == ranked[j];
        assert tail[i] !in head && tail[i] !in Found(head, relevant);
      }
    }
    NoHits(head, tail, relevant, w);
  }

  lemma {:induction false} AllFound(a: set<string>, b: set<string>)
    requires a <= b && |a| == |b|
    ensures a == b
  {
    if a != {} {
      var x :| x in a;
      AllFound(a - {x}, b - {x});
    } else {
      assert b == {};
    }
  }

  /** For a ranking without duplicates the score lies in [0, 1], and it is 1 exactly when
      there is something to find and the first ranks are all relevant. */
  lemma ScoreBounds(ranked: seq<string>, relevant: set<string>, k: int, w: nat -> real)
    requires Decreasing(w) && DuplicateFree(ranked)
    ensures 0.0 <= Score(ranked, relevant, k, w) <= 1.0
    ensures Score(ranked, relevant, k, w) == 1.0 <==> relevant != {} && k >= 1 && Perfect(ranked, relevant, k)
  {
    var m, top := IdealHits(relevant, k), FirstItems(ranked, k);
    if relevant == {} || k <= 0 {
      assert relevant == {} || m <= 0;
    } else {
      var dcg, ideal, h := Dcg(top, relevant, w), Ideal(m, w), Hits(top, relevant);
      IdealGrows(0, m, w);
      HitsAreRelevant(top, relevant);
      DcgAtMostIdeal(top, relevant, w);
      IdealGrows(h, m, w);
      QuotientBounds(dcg, ideal);
      if Perfect(ranked, relevant, k) { PerfectScoresIdeal(ranked, relevant, k, w); }
    }
  }

  lemma QuotientBounds(a: real, b: real)
    requires 0.0 <= a <= b && b > 0.0
    ensures 0.0 <= a / b <= 1.0 && (a / b == 1.0 <==> a == b)
  {
    assert a == (a / b) * b;
  }

  /** Ranked twice, one relevant item scores more than 1. */
  lemma DuplicatesExceedOne(x: string, w: nat -> real)
    requires Decreasing(w)
    ensures Score([x, x], {x}, 2, w) > 1.0
  {
    assert [x, x][..1] == [x] && [x][..0] == [];
    assert Dcg([x], {x}, w) == w(1);
    assert Dcg([x, x], {x}, w) == w(1) + w(2);
    assert Ideal(1, w) == Ideal(0, w) + w(1);
    QuotientAbove(w(1) + w(2), w(1));
  }

  lemma QuotientAbove(a: real, b: real)
    requires a > b > 0.0
    ensures a / b > 1.0
  {
    var q := a / b;
    assert a == q * b;
  }

  // ----- moving a relevant item up -----

  /** The item at `j` taken out and put in at `i`. */
  function MovedUp(ranked: seq<string>, i: nat, j: nat): seq<string>
    requires i <= j < |ranked|
  {
    ranked[..i] + [ranked[j]] + ranked[i..j] + ranked[j + 1..]
  }

  lemma {:induction false} DcgSameTail(a: seq<string>, b: seq<string>, tail: seq<string>, relevant: set<string>, w: nat -> real)
    requires |a| == |b| && Dcg(a, relevant, w) <= Dcg(b, relevant, w)
    ensures Dcg(a + tail, relevant, w) <= Dcg(b + tail, relevant, w)
    decreases |tail|
  {
    if tail == [] {
      assert a + tail == a && b + tail == b;
    } else {
      var front := tail[..|tail| - 1];
      assert (a + tail)[..|a + tail| - 1] == a + front && (b + tail)[..|b + tail| - 1] == b + front;
      DcgSameTail(a, b, front, relevant, w);
    }
  }

  lemma DcgSwap(head: seq<string>, x: string, y: string, relevant: set<string>, w: nat -> real)
    requires Decreasing(w) && y in relevant
    ensures Dcg(head + [x, y], relevant, w) <= Dcg(head + [y, x], relevant, w)
    ensures Dcg(head + [x], relevant, w) <= Dcg(head + [y], relevant, w)
  {
    assert (head + [x, y])[..|head| + 1] == head + [x] && (head + [y, x])[..|head| + 1] == head + [y];
    assert (head + [x])[..|head|] == head && (head + [y])[..|head|] == head;
    assert w(|head| + 2) < w(|head| + 1) && w(|head| + 1) > 0.0;
  }

  lemma SwapInTop(ranked: seq<string>, i: nat, relevant: set<string>, k: nat, w: nat -> real)
    requires Decreasing(w) && i + 1 < |ranked| && ranked[i + 1] in relevant
    ensures Dcg(FirstItems(ranked, k), relevant, w) <= Dcg(FirstItems(MovedUp(ranked, i, i + 1), k), relevant, w)
  {
    var head, x, y, tail := ranked[..i], ranked[i], ranked[i + 1], ranked[i + 2..];
    var moved := MovedUp(ranked, i, i + 1);
    assert ranked == head + [x, y] + tail && moved == head + [y, x] + tail;
    DcgSwap(head, x, y, relevant, w);
    if k <= i {
      assert FirstItems(ranked, k) == FirstItems(moved, k);
    } else if k == i + 1 {
      assert FirstItems(ranked, k) == head + [x] && FirstItems(moved, k) == head + [y];
    } else {
      var n := if k <= |ranked| then k - (i + 2) else |tail|;
      assert FirstItems(ranked, k) == head + [x, y] + tail[..n] && FirstItems(moved, k) == head + [y, x] + tail[..n];
      DcgSameTail(head + [x, y], head + [y, x], tail[..n], relevant, w);
    }
  }

  lemma {:induction false} MoveInTop(ranked: seq<string>, i: nat, j: nat, relevant: set<string>, k: nat, w: nat -> real)
    requires Decreasing(w) && i <= j < |ranked| && ranked[j] in relevant
    ensures Dcg(FirstItems(ranked, k), relevant, w) <= Dcg(FirstItems(MovedUp(ranked, i, j), k), relevant, w)
    decreases j - i
  {
    hide Dcg, FirstItems, Decreasing;
    if i == j {
      assert MovedUp(ranked, i, j) == ranked;
    } else {
      hide MovedUp;
      var once := MovedUp(ranked, j - 1, j);
      MovedInSteps(ranked, i, j);
      SwapInTop(ranked, j - 1, relevant, k, w);
      MoveInTop(once, i, j - 1, relevant, k, w);
    }
  }

  lemma MovedInSteps(ranked: seq<string>, i: nat, j: nat)
    requires i < j < |ranked|
    ensures var once := MovedUp(ranked, j - 1, j);
      |once| == |ranked| && once[j - 1] == ranked[j] && MovedUp(once, i, j - 1) == MovedUp(ranked, i, j)
  {
    var once := MovedUp(ranked, j - 1, j);
    assert once[i..j - 1] == ranked[i..j - 1] && once[..i] == ranked[..i];
    assert once[j..] == [ranked[j - 1]] + ranked[j + 1..];
    assert ranked[i..j] == ranked[i..j - 1] + [ranked[j - 1]];
  }

  /** Moving a relevant item to any better rank never lowers the score. */
  lemma MovingUpNeverHurts(ranked: seq<string>, i: nat, j: nat, relevant: set<string>, k: int, w: nat -> real)
    requires Decreasing(w) && i <= j < |ranked| && ranked[j] in relevant
    ensures Score(ranked, relevant, k, w) <= Score(MovedUp(ranked, i, j), relevant, k, w)
  {
    if k >= 1 {
      var m := IdealHits(relevant, k);
      IdealGrows(0, m, w);
      MoveInTop(ranked, i, j, relevant, k, w);
      QuotientGrows(Dcg(FirstItems(ranked, k), relevant, w), Dcg(FirstItems(MovedUp(ranked, i, j), k), relevant, w), Ideal(m, w));
    }
  }

  lemma QuotientGrows(a: real, b: real, c: real)
    requires a <= b && c > 0.0
    ensures a / c <= b / c
  {
    assert a == (a / c) * c && b == (b / c) * c;
  }
}
