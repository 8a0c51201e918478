/** Writes to a keyed store in order, some of them kept by a reference and some not: when
    replaying all of them ends like replaying the kept ones alone. */
module Journal {

  datatype Write = Write(key: string, value: string, kept: bool)

  type Store = map<string, string>

  function Replay(m: Store, ws: seq<Write>): Store
    decreases |ws|
  {
    if ws == [] then m
    else
      var last := ws[|ws| - 1];
      Replay(m, ws[..|ws| - 1])[last.key := last.value]
  }

  /** The writes of the reference, in order. */
  function Kept(ws: seq<Write>): seq<Write> {
    if ws == [] then []
    else Kept(ws[..|ws| - 1]) + if ws[|ws| - 1].kept then [ws[|ws| - 1]] else []
  }

  predicate IsLast(ws: seq<Write>, i: nat) {
    i < |ws| && forall j :: i < j < |ws| ==> ws[j].key != ws[i].key
  }

  /** The last write under this key is none of the reference. */
  ghost predicate LeftAt(ws: seq<Write>, key: string) {
    exists i: nat :: IsLast(ws, i) && !ws[i].kept && ws[i].key == key
  }

  predicate SameAt(a: Store, b: Store, key: string) {
    (key in a <==> key in b) && (key in a ==> a[key] == b[key])
  }

  lemma {:induction false} ReplayAppend(m: Store, a: seq<Write>, b: seq<Write>)
    ensures Replay(m, a + b) == Replay(Replay(m, a), b)
    ensures Kept(a + b) == Kept(a) + Kept(b)
    decreases |b|
  {
    if b == [] {
      assert a + b == a;
    } else {
      assert (a + b)[..|a + b| - 1] == a + b[..|b| - 1];
      ReplayAppend(m, a, b[..|b| - 1]);
    }
  }

  /** The last write under a key decides. */
  lemma {:induction false} LastDecides(m: Store, ws: seq<Write>, i: nat)
    requires IsLast(ws, i)
    ensures ws[i].key in Replay(m, ws) && Replay(m, ws)[ws[i].key] == ws[i].value
    decreases |ws|
  {
    if i < |ws| - 1 {
      var front := ws[..|ws| - 1];
      assert front[i] == ws[i] && IsLast(front, i);
      LastDecides(m, front, i);
    }
  }

  /** Where the last write is kept, or there is none, the other writes do not show. */
  lemma {:induction false} KeptDecides(m: Store, ws: seq<Write>, key: string)
    requires !LeftAt(ws, key)
    ensures SameAt(Replay(m, ws), Replay(m, Kept(ws)), key)
    decreases |ws|
  {
    if ws != [] {
      var front, last := ws[..|ws| - 1], ws[|ws| - 1];
      assert ws == front + [last];
      LastOf(ws);
      if last.key != key {
        LeftAtStays(front, last, key);
        KeptDecides(m, front, key);
      }
      assert Replay(m, ws) == Replay(m, front)[last.key := last.value];
      KeptGrows(m, front, last);
      hide Replay, Kept, LeftAt;
    }
  }

  lemma OneMore(m: Store, ws: seq<Write>, last: Write)
    ensures Replay(m, ws + [last]) == Replay(m, ws)[last.key := last.value]
    ensures Kept(ws + [last]) == if last.kept then Kept(ws) + [last] else Kept(ws)
  {
    var all := ws + [last];
    assert all[..|all| - 1] == ws && all[|all| - 1] == last;
    assert !last.kept ==> Kept(ws) + [] == Kept(ws);
  }

  lemma KeptGrows(m: Store, front: seq<Write>, last: Write)
    ensures Replay(m, Kept(front + [last])) ==
      if last.kept then Replay(m, Kept(front))[last.key := last.value] else Replay(m, Kept(front))
  {
    hide Replay, Kept;
    OneMore(m, front, last);
    OneMore(m, Kept(front), last);
  }

  lemma LastOf(ws: seq<Write>)
    requires ws != []
    ensures var last := ws[|ws| - 1]; !last.kept ==> LeftAt(ws, last.key)
  {
    assert IsLast(ws, |ws| - 1);
  }

  /** A write under another key leaves a left-over where it is. */
  lemma LeftAtStays(front: seq<Write>, last: Write, key: string)
    requires last.key != key
    ensures LeftAt(front, key) ==> LeftAt(front + [last], key)
  {
    forall i: nat | IsLast(front, i) && !front[i].kept && front[i].key == key ensures LeftAt(front + [last], key) {
      assert IsLast(front + [last], i);
    }
  }

  /** Every write that is last under its key and not kept has just rewritten what the
      reference leaves there. */
  ghost predicate NothingLeft(m: Store, ws: seq<Write>) {
    var reference := Replay(m, Kept(ws));
    forall i: nat :: IsLast(ws, i) && !ws[i].kept ==> ws[i].key in reference && reference[ws[i].key] == ws[i].value
  }

  /** All writes end as the kept ones do exactly when nothing is left. */
  lemma ReplaysEqualIff(m: Store, ws: seq<Write>)
    ensures Replay(m, ws) == Replay(m, Kept(ws)) <==> NothingLeft(m, ws)
  {
    hide Replay, Kept;
    var all, reference := Replay(m, ws), Replay(m, Kept(ws));
    if NothingLeft(m, ws) {
      forall key ensures SameAt(all, reference, key) {
        if i: nat :| IsLast(ws, i) && !ws[i].kept && ws[i].key == key {
          LastDecides(m, ws, i);
        } else {
          KeptDecides(m, ws, key);
        }
      }
      SameEverywhere(all, reference);
    }
    if all == reference {
      forall i: nat | IsLast(ws, i) && !ws[i].kept ensures ws[i].key in reference && reference[ws[i].key] == ws[i].value {
        LastDecides(m, ws, i);
      }
    }
  }

  lemma SameEverywhere(a: Store, b: Store)
    requires forall key :: SameAt(a, b, key)
    ensures a == b
  {
    forall key ensures key in a <==> key in b { assert SameAt(a, b, key); }
    forall key | key in a ensures a[key] == b[key] { assert SameAt(a, b, key); }
  }
}
