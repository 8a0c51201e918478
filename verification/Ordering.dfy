/** Python tuple comparison, `sorted`, and `ORDER BY` over a set of keys. */
module Ordering {
  import opened Text

  datatype Part = Num(n: real) | Str(s: string)

  type Key = seq<Part>

  predicate PartBefore(a: Part, b: Part) {
    match (a, b)
    case (Num(x), Num(y)) => x < y
    case (Str(x), Str(y)) => Before(x, y)
    case (Num(_), Str(_)) => true
    case (Str(_), Num(_)) => false
  }

  /** Lexicographic comparison of two tuples. */
  predicate Less(a: Key, b: Key) {
    if b == [] then false
    else if a == [] then true
    else if a[0] != b[0] then PartBefore(a[0], b[0])
    else Less(a[1..], b[1..])
  }

  lemma {:induction false} LessTotal(a: Key, b: Key)
    ensures a == b || Less(a, b) || Less(b, a)
    ensures !(Less(a, b) && Less(b, a))
    ensures !Less(a, a)
  {
    if a != [] {
      LessTotal(a[1..], a[1..]);
      if b != [] {
        if a[0].Str? && b[0].Str? {
          BeforeTotal(a[0].s, b[0].s);
        }
        if a[0] == b[0] {
          LessTotal(a[1..], b[1..]);
          assert a == [a[0]] + a[1..] && b == [b[0]] + b[1..];
        }
      }
    }
  }

  /** The first parts decide, and if they are equal the rest does. */
  lemma LessCons(x: Part, xs: Key, y: Part, ys: Key)
    ensures Less([x] + xs, [y] + ys) <==> if x != y then PartBefore(x, y) else Less(xs, ys)
  {
    assert ([x] + xs)[1..] == xs && ([y] + ys)[1..] == ys;
  }

  lemma LessStr(a: string, b: string)
    ensures Less([Str(a)], [Str(b)]) <==> Before(a, b)
  {
    BeforeTotal(a, b);
    LessCons(Str(a), [], Str(b), []);
    assert [Str(a)] == [Str(a)] + [] && [Str(b)] == [Str(b)] + [];
  }

  /** Two numbers and a text, compared in turn. */
  lemma LessNumNumStr(x: real, y: real, a: string, x': real, y': real, a': string)
    ensures Less([Num(x), Num(y), Str(a)], [Num(x'), Num(y'), Str(a')]) <==>
      if x != x' then x < x' else if y != y' then y < y' else Before(a, a')
  {
    LessStr(a, a');
    LessCons(Num(y), [Str(a)], Num(y'), [Str(a')]);
    assert [Num(y), Str(a)] == [Num(y)] + [Str(a)] && [Num(y'), Str(a')] == [Num(y')] + [Str(a')];
    LessCons(Num(x), [Num(y), Str(a)], Num(x'), [Num(y'), Str(a')]);
    assert [Num(x), Num(y), Str(a)] == [Num(x)] + [Num(y), Str(a)] && [Num(x'), Num(y'), Str(a')] == [Num(x')] + [Num(y'), Str(a')];
  }

  /** Two numbers, compared in turn. */
  lemma LessNumNum(x: real, y: real, x': real, y': real)
    ensures Less([Num(x), Num(y)], [Num(x'), Num(y')]) <==> if x != x' then x < x' else y < y'
  {
    LessCons(Num(y), [], Num(y'), []);
    assert [Num(y)] == [Num(y)] + [] && [Num(y')] == [Num(y')] + [];
    LessCons(Num(x), [Num(y)], Num(x'), [Num(y')]);
    assert [Num(x), Num(y)] == [Num(x)] + [Num(y)] && [Num(x'), Num(y')] == [Num(x')] + [Num(y')];
  }

  /** A number and a text, compared in turn. */
  lemma LessNumStr(x: real, a: string, x': real, a': string)
    ensures Less([Num(x), Str(a)], [Num(x'), Str(a')]) <==> if x != x' then x < x' else Before(a, a')
  {
    LessStr(a, a');
    LessCons(Num(x), [Str(a)], Num(x'), [Str(a')]);
    assert [Num(x), Str(a)] == [Num(x)] + [Str(a)] && [Num(x'), Str(a')] == [Num(x')] + [Str(a')];
  }

  lemma {:induction false} LessTransitive(a: Key, b: Key, c: Key)
    requires Less(a, b) && Less(b, c)
    ensures Less(a, c)
  {
    if a != [] {
      if a[0].Str? && b[0].Str? && c[0].Str? {
        if a[0] != b[0] && b[0] != c[0] {
          BeforeTransitive(a[0].s, b[0].s, c[0].s);
          BeforeTotal(a[0].s, c[0].s);
        }
      }
      if a[0] == b[0] && b[0] == c[0] {
        LessTransitive(a[1..], b[1..], c[1..]);
      }
    }
  }

  // ----- ORDER BY over a set of distinct keys -----

  predicate IsMin(m: Key, s: set<Key>) {
    m in s && forall x :: x in s && x != m ==> Less(m, x)
  }

  lemma {:induction false} MinExists(s: set<Key>)
    requires s != {}
    ensures exists m :: IsMin(m, s)
  {
    var x :| x in s;
    if s == {x} {
      assert IsMin(x, s);
    } else {
      MinExists(s - {x});
      var m :| IsMin(m, s - {x});
      LessTotal(m, x);
      if Less(m, x) {
        assert IsMin(m, s);
      } else {
        forall y | y in s && y != x ensures Less(x, y) {
          if y != m { LessTransitive(x, m, y); }
        }
        assert IsMin(x, s);
      }
    }
  }

  lemma MinUnique(s: set<Key>, a: Key, b: Key)
    requires IsMin(a, s) && IsMin(b, s)
    ensures a == b
  {
    LessTotal(a, b);
  }

  function Min(s: set<Key>): (m: Key)
    requires s != {}
    ensures IsMin(m, s)
  {
    MinExists(s);
    assert forall a, b :: IsMin(a, s) && IsMin(b, s) ==> a == b by {
      forall a, b | IsMin(a, s) && IsMin(b, s) ensures a == b { MinUnique(s, a, b); }
    }
    var m :| m in s && IsMin(m, s);
    m
  }

  predicate Ascending(ks: seq<Key>) {
    forall i, j :: 0 <= i < j < |ks| ==> Less(ks[i], ks[j])
  }

  /** The keys of a set, least first. */
  function Sorted(s: set<Key>): (ks: seq<Key>)
    ensures forall k :: k in ks <==> k in s
    ensures Ascending(ks)
    ensures |ks| == |s|
  {
    if s == {} then []
    else
      var m := Min(s);
      [m] + Sorted(s - {m})
  }

  /** An ascending sequence is determined by its members. */
  lemma {:induction false} SortedUnique(ks: seq<Key>, s: set<Key>)
    requires Ascending(ks) && forall k :: k in ks <==> k in s
    ensures ks == Sorted(s)
    decreases |ks|
  {
    if ks == [] {
      assert s == {};
    } else {
      assert ks[0] in s;
      var m := Min(s);
      if ks[0] != m {
        assert m in ks;
        var i :| 0 <= i < |ks| && ks[i] == m;
        LessTotal(ks[0], m);
      }
      forall k ensures k in ks[1..] <==> k in s - {m} {
        if k in ks[1..] { LessTotal(ks[0], k); }
      }
      SortedUnique(ks[1..], s - {m});
    }
  }

  // ----- keyset paging: WHERE key > :last ORDER BY key LIMIT :n -----

  function After(s: set<Key>, last: Key): set<Key> {
    set k | k in s && Less(last, k)
  }

  function Page(s: set<Key>, last: Key, n: nat): (p: seq<Key>)
    ensures |p| <= n
  {
    var ks := Sorted(After(s, last));
    if |ks| <= n then ks else ks[..n]
  }

  lemma RestIsAfter(s: set<Key>, last: Key, p: seq<Key>, rest: seq<Key>)
    requires Sorted(After(s, last)) == p + rest && p != []
    ensures rest == Sorted(After(s, p[|p| - 1]))
  {
    hide Less, Min;
    var ks, m := p + rest, p[|p| - 1];
    assert m == ks[|p| - 1] && m in ks;
    assert forall k :: k in ks <==> k in After(s, last);
    SplitAscending(p, rest);
    hide Sorted;
    forall k ensures k in rest <==> k in After(s, m) {
      if k in rest {
        assert k in ks;
      } else if k in After(s, m) {
        LessTransitive(last, m, k);
        assert k in ks && k in p;
        LessTotal(m, k);
      }
    }
    SortedUnique(rest, After(s, m));
  }

  /** The last of a front part stands between it and the rest. */
  lemma SplitAscending(p: seq<Key>, rest: seq<Key>)
    requires Ascending(p + rest) && p != []
    ensures Ascending(rest)
    ensures forall k :: k in rest ==> Less(p[|p| - 1], k)
    ensures forall k :: k in p ==> k == p[|p| - 1] || Less(k, p[|p| - 1])
  {
    hide Less;
    var ks, n := p + rest, |p| - 1;
    assert forall i :: 0 <= i < |p| ==> ks[i] == p[i];
    assert forall i :: 0 <= i < |rest| ==> ks[|p| + i] == rest[i];
  }

  /** One page and the pages after its last key are the pages there were. */
  lemma PageThenRest(s: set<Key>, last: Key, n: nat)
    requires n >= 1
    ensures Page(s, last, n) == [] ==> Sorted(After(s, last)) == []
    ensures Page(s, last, n) != [] ==>
      var p := Page(s, last, n);
      && Sorted(After(s, last)) == p + Sorted(After(s, p[|p| - 1]))
      && |After(s, p[|p| - 1])| < |After(s, last)|
  {
    hide Less, Sorted, After;
    var ks, p := Sorted(After(s, last)), Page(s, last, n);
    if p != [] {
      assert ks == p + ks[|p|..];
      RestIsAfter(s, last, p, ks[|p|..]);
    }
  }

  // ----- stable sorting by a key, ascending or descending -----

  predicate Precedes(a: Key, b: Key, desc: bool) {
    if desc then Less(b, a) else Less(a, b)
  }

  function Insert<T>(x: T, ys: seq<T>, key: T -> Key, desc: bool): seq<T> {
    if ys == [] || !Precedes(key(ys[0]), key(x), desc) then [x] + ys
    else [ys[0]] + Insert(x, ys[1..], key, desc)
  }

  /** Stable, as Python's sort is. */
  function SortBy<T>(xs: seq<T>, key: T -> Key, desc: bool): seq<T> {
    if xs == [] then [] else Insert(xs[0], SortBy(xs[1..], key, desc), key, desc)
  }

  predicate InOrder<T>(xs: seq<T>, key: T -> Key, desc: bool) {
    forall i, j :: 0 <= i < j < |xs| ==> !Precedes(key(xs[j]), key(xs[i]), desc)
  }

  lemma NotPrecedesTransitive(a: Key, b: Key, c: Key, desc: bool)
    requires !Precedes(b, a, desc) && !Precedes(c, b, desc)
    ensures !Precedes(c, a, desc)
  {
    LessTotal(a, b);
    LessTotal(b, c);
    LessTotal(a, c);
    if a != b && b != c {
      if desc { LessTransitive(c, b, a); } else { LessTransitive(a, b, c); }
    }
  }

  lemma {:induction false} InsertPermutes<T>(x: T, ys: seq<T>, key: T -> Key, desc: bool)
    ensures multiset(Insert(x, ys, key, desc)) == multiset{x} + multiset(ys)
  {
    if ys != [] && Precedes(key(ys[0]), key(x), desc) {
      assert ys == [ys[0]] + ys[1..];
      InsertPermutes(x, ys[1..], key, desc);
    }
  }

  lemma {:induction false} InsertSorts<T>(x: T, ys: seq<T>, key: T -> Key, desc: bool)
    requires InOrder(ys, key, desc)
    ensures InOrder(Insert(x, ys, key, desc), key, desc)
  {
    var r := Insert(x, ys, key, desc);
    if ys == [] {
    } else if !Precedes(key(ys[0]), key(x), desc) {
      forall j | 1 <= j < |r| ensures !Precedes(key(r[j]), key(r[0]), desc) {
        if j > 1 { NotPrecedesTransitive(key(x), key(ys[0]), key(r[j]), desc); }
      }
    } else {
      InsertSorts(x, ys[1..], key, desc);
      var t := Insert(x, ys[1..], key, desc);
      assert r == [ys[0]] + t;
      InsertPermutes(x, ys[1..], key, desc);
      forall j | 0 <= j < |t| ensures !Precedes(key(t[j]), key(ys[0]), desc) {
        assert t[j] in multiset(t);
        LessTotal(key(ys[0]), key(x));
        if t[j] != x { assert t[j] in ys[1..]; }
      }
    }
  }

  lemma {:induction false} SortBySorts<T>(xs: seq<T>, key: T -> Key, desc: bool)
    ensures InOrder(SortBy(xs, key, desc), key, desc)
    ensures multiset(SortBy(xs, key, desc)) == multiset(xs)
  {
    if xs != [] {
      SortBySorts(xs[1..], key, desc);
      InsertSorts(xs[0], SortBy(xs[1..], key, desc), key, desc);
      InsertPermutes(xs[0], SortBy(xs[1..], key, desc), key, desc);
      assert xs == [xs[0]] + xs[1..];
    }
  }

  // ----- slices -----

  /** The slice up to `n`; a negative `n` counts from the end. */
  function FirstItems<T>(xs: seq<T>, n: int): (r: seq<T>)
    ensures r <= xs
    ensures n >= 0 ==> |r| == (if n <= |xs| then n else |xs|)
    ensures n < 0 ==> |r| == (if -n <= |xs| then |xs| + n else 0)
  {
    if n >= |xs| then xs
    else if n >= 0 then xs[..n]
    else if |xs| + n >= 0 then xs[..|xs| + n]
    else []
  }
}
