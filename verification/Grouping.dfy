/** Rows grouped by a key, and the best row of each group. */
module Grouping {
  import opened Ordering

  function Members<R, K(==)>(rows: seq<R>, groupOf: R -> K, k: K): seq<R> {
    if rows == [] then []
    else
      var rest := Members(rows[..|rows| - 1], groupOf, k);
      var last := rows[|rows| - 1];
      if groupOf(last) == k then rest + [last] else rest
  }

  lemma {:induction false} MembersAre<R, K>(rows: seq<R>, groupOf: R -> K, k: K)
    ensures forall r :: r in Members(rows, groupOf, k) <==> r in rows && groupOf(r) == k
  {
    if rows != [] {
      MembersAre(rows[..|rows| - 1], groupOf, k);
      assert rows == rows[..|rows| - 1] + [rows[|rows| - 1]];
    }
  }

  ghost predicate Grouped<R, K(!new)>(rows: seq<R>, groupOf: R -> K, order: seq<K>, groups: map<K, seq<R>>) {
    && (forall k :: k in groups ==> groups[k] == Members(rows, groupOf, k))
    && (forall k :: k in groups <==> k in order)
    && (forall k :: k in groups <==> Members(rows, groupOf, k) != [])
    && (forall i, j :: 0 <= i < j < |order| ==> order[i] != order[j])
  }

  /** A Python dict keeps insertion order, so the groups come with their order. */
  method GroupBy<R, K(==, !new)>(rows: seq<R>, groupOf: R -> K) returns (order: seq<K>, groups: map<K, seq<R>>)
    ensures Grouped(rows, groupOf, order, groups)
  {
    order, groups := [], map[];
    for i := 0 to |rows|
      invariant Grouped(rows[..i], groupOf, order, groups)
    {
      var k := groupOf(rows[i]);
      assert rows[..i + 1][..i] == rows[..i];
      if k !in groups {
        order := order + [k];
        groups := groups[k := []];
      }
      groups := groups[k := groups[k] + [rows[i]]];
    }
    assert rows[..|rows|] == rows;
  }

  /** `o` is a row of group `k` that none of the group goes before. */
  ghost predicate IsBest<R, K>(rows: seq<R>, groupOf: R -> K, rank: R -> Key, desc: bool, k: K, o: R) {
    && o in rows && groupOf(o) == k
    && forall r :: r in rows && groupOf(r) == k ==> !Precedes(rank(r), rank(o), desc)
  }

  /** `out` holds the best row of every group of `rows`, and one row of a group only. */
  ghost predicate OnePerGroup<R, K>(rows: seq<R>, groupOf: R -> K, rank: R -> Key, desc: bool, out: seq<R>) {
    && (forall o :: o in out ==> IsBest(rows, groupOf, rank, desc, groupOf(o), o))
    && (forall r :: r in rows && r !in out ==> exists o :: o in out && groupOf(o) == groupOf(r))
    && (forall i, j :: 0 <= i < j < |out| ==> groupOf(out[i]) != groupOf(out[j]))
  }

  /** The head of a sorted list precedes every member. */
  lemma SortedHeadIsBest<T>(xs: seq<T>, rank: T -> Key, desc: bool)
    requires xs != []
    ensures SortBy(xs, rank, desc) != [] && |SortBy(xs, rank, desc)| == |xs|
    ensures SortBy(xs, rank, desc)[0] in xs
    ensures forall r :: r in xs ==> !Precedes(rank(r), rank(SortBy(xs, rank, desc)[0]), desc)
  {
    var s := SortBy(xs, rank, desc);
    SortBySorts(xs, rank, desc);
    assert |multiset(s)| == |multiset(xs)|;
    assert s[0] in multiset(s);
    forall r | r in xs ensures !Precedes(rank(r), rank(s[0]), desc) {
      assert r in multiset(s);
      var j :| 0 <= j < |s| && s[j] == r;
      LessTotal(rank(r), rank(r));
    }
  }

  /** The head of each sorted group, in group order. */
  method BestOfEachGroup<R(!new), K(==, !new)>(rows: seq<R>, groupOf: R -> K, rank: R -> Key, desc: bool)
    returns (out: seq<R>)
    ensures OnePerGroup(rows, groupOf, rank, desc, out)
  {
    var order, groups := GroupBy(rows, groupOf);
    forall k ensures forall r :: r in Members(rows, groupOf, k) <==> r in rows && groupOf(r) == k {
      MembersAre(rows, groupOf, k);
    }
    out := [];
    hide IsBest, SortBy, Precedes;
    for i := 0 to |order|
      invariant |out| == i
      invariant forall j :: 0 <= j < i ==> IsBest(rows, groupOf, rank, desc, order[j], out[j])
    {
      var group := groups[order[i]];
      SortedHeadIsBest(group, rank, desc);
      assert IsBest(rows, groupOf, rank, desc, order[i], SortBy(group, rank, desc)[0]);
      out := out + [SortBy(group, rank, desc)[0]];
    }
    forall r | r in rows ensures exists o :: o in out && groupOf(o) == groupOf(r) {
      assert r in Members(rows, groupOf, groupOf(r));
      var i :| 0 <= i < |order| && order[i] == groupOf(r);
      assert out[i] in out;
    }
  }
}
