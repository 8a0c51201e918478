/** The dedup keys of storage/dedup.py. */
module Dedup {
  import opened Options
  import opened Text

  const UNIT_SEPARATOR: string := "\U{1F}"
  const DECISION_DEDUP_PREFIX_LEN: nat := 200

  /** ACTIVE_LIFECYCLE_STATES. */
  predicate IsActive(state: string) {
    state == "candidate" || state == "validated" || state == "active"
  }

  /** The words of a component; None has none. */
  function Words(value: Option<string>): seq<string> {
    if value.None? then [] else Split(value.value)
  }

  /** normalize_spo_component */
  function NormalizeComponent(value: Option<string>): string {
    if value.None? then "" else Join(" ", Split(value.value))
  }

  /** fact_dedup_key */
  function FactDedupKey(subject: Option<string>, predicat: Option<string>, objekt: Option<string>): string {
    Join(UNIT_SEPARATOR, [NormalizeComponent(subject), NormalizeComponent(predicat), NormalizeComponent(objekt)])
  }

  /** canonical_context */
  function CanonicalContext(context: Option<string>): string {
    if context.None? then "" else Strip(context.value)
  }

  /** normalize_choice */
  function NormalizeChoice(choice: Option<string>): string {
    var s := NormalizeComponent(choice);
    if |s| <= DECISION_DEDUP_PREFIX_LEN then s else s[..DECISION_DEDUP_PREFIX_LEN]
  }

  /** decision_dedup_key */
  function DecisionDedupKey(context: Option<string>, choice: Option<string>): (string, string) {
    (CanonicalContext(context), NormalizeChoice(choice))
  }

  // ----- what a normalized component is -----

  /** Two components normalize to one string exactly when they have the same words. */
  lemma NormalizedIffSameWords(a: Option<string>, b: Option<string>)
    ensures NormalizeComponent(a) == NormalizeComponent(b) <==> Words(a) == Words(b)
  {
    SplitJoin(Words(a));
    SplitJoin(Words(b));
  }

  predicate SeparatorFree(s: string) {
    forall i :: 0 <= i < |s| ==> s[i] != '\U{1F}'
  }

  lemma {:induction false} JoinedWordsSeparatorFree(ts: seq<string>)
    requires AllTerms(ts)
    ensures SeparatorFree(Join(" ", ts))
  {
    if |ts| > 1 {
      JoinedWordsSeparatorFree(ts[1..]);
    }
  }

  lemma NormalizedSeparatorFree(value: Option<string>)
    ensures SeparatorFree(NormalizeComponent(value))
  {
    JoinedWordsSeparatorFree(Words(value));
  }

  lemma CutAtSeparator(a: string, x: string, b: string, y: string)
    requires SeparatorFree(a) && SeparatorFree(b)
    requires a + UNIT_SEPARATOR + x == b + UNIT_SEPARATOR + y
    ensures a == b && x == y
  {
    var l, r := a + UNIT_SEPARATOR + x, b + UNIT_SEPARATOR + y;
    assert |a| == |b| by {
      assert l[|a|] == r[|b|] == '\U{1F}';
      assert forall i :: 0 <= i < |a| ==> l[i] == a[i] != '\U{1F}';
      assert forall i :: 0 <= i < |b| ==> r[i] == b[i] != '\U{1F}';
    }
    assert a == l[..|a|] && b == r[..|b|];
    assert x == l[|a| + 1..] && y == r[|b| + 1..];
  }

  lemma KeyShape(s: Option<string>, p: Option<string>, o: Option<string>)
    ensures FactDedupKey(s, p, o) ==
      NormalizeComponent(s) + UNIT_SEPARATOR + (NormalizeComponent(p) + UNIT_SEPARATOR + NormalizeComponent(o))
  {
    var ts := [NormalizeComponent(s), NormalizeComponent(p), NormalizeComponent(o)];
    assert ts[1..] == [ts[1], ts[2]] && ts[1..][1..] == [ts[2]];
    assert Join(UNIT_SEPARATOR, ts[1..]) == ts[1] + UNIT_SEPARATOR + ts[2];
  }

  /** No component, whatever characters it holds, can imitate the separator: `split`
      takes U+001F for whitespace, so equal keys mean equal words in each component. */
  lemma FactKeyEqualIff(s1: Option<string>, p1: Option<string>, o1: Option<string>,
                        s2: Option<string>, p2: Option<string>, o2: Option<string>)
    ensures FactDedupKey(s1, p1, o1) == FactDedupKey(s2, p2, o2) <==>
      Words(s1) == Words(s2) && Words(p1) == Words(p2) && Words(o1) == Words(o2)
  {
    hide FactDedupKey;
    KeyShape(s1, p1, o1);
    KeyShape(s2, p2, o2);
    NormalizedIffSameWords(s1, s2);
    NormalizedIffSameWords(p1, p2);
    NormalizedIffSameWords(o1, o2);
    NormalizedSeparatorFree(s1);
    NormalizedSeparatorFree(s2);
    NormalizedSeparatorFree(p1);
    NormalizedSeparatorFree(p2);
    if FactDedupKey(s1, p1, o1) == FactDedupKey(s2, p2, o2) {
      CutAtSeparator(NormalizeComponent(s1), NormalizeComponent(p1) + UNIT_SEPARATOR + NormalizeComponent(o1),
                     NormalizeComponent(s2), NormalizeComponent(p2) + UNIT_SEPARATOR + NormalizeComponent(o2));
      CutAtSeparator(NormalizeComponent(p1), NormalizeComponent(o1), NormalizeComponent(p2), NormalizeComponent(o2));
    }
  }

  /** A key is never empty, so a pager that starts at the empty key misses none. */
  lemma FactKeyNonEmpty(s: Option<string>, p: Option<string>, o: Option<string>)
    ensures Before("", FactDedupKey(s, p, o))
  {
    KeyShape(s, p, o);
  }

  /** The words of a choice, one space between two. */
  function Phrase(choice: Option<string>): string {
    Join(" ", Words(choice))
  }

  /** Both go on at `i` with the same character, or both have ended. */
  predicate SameAt(a: string, b: string, i: nat) {
    if i < |a| && i < |b| then a[i] == b[i] else i >= |a| && i >= |b|
  }

  predicate AgreeFor(n: nat, a: string, b: string) {
    forall i :: 0 <= i < n ==> SameAt(a, b, i)
  }

  lemma CutsAgree(n: nat, a: string, b: string)
    ensures (if |a| <= n then a else a[..n]) == (if |b| <= n then b else b[..n]) <==> AgreeFor(n, a, b)
  {
    var x, y := if |a| <= n then a else a[..n], if |b| <= n then b else b[..n];
    assert forall i :: 0 <= i < |x| ==> x[i] == a[i];
    assert forall i :: 0 <= i < |y| ==> y[i] == b[i];
    if AgreeFor(n, a, b) {
      assert |x| < n ==> SameAt(a, b, |x|);
      assert |y| < n ==> SameAt(a, b, |y|);
      assert |x| == |y|;
      forall i | 0 <= i < |x| ensures x[i] == y[i] { assert SameAt(a, b, i); }
    }
  }

  /** Decision keys are equal exactly when the contexts are, whitespace at the ends aside, and
      the phrases of the choices agree in their first 200 characters. */
  lemma DecisionKeyEqualIff(context1: Option<string>, choice1: Option<string>, context2: Option<string>, choice2: Option<string>)
    ensures DecisionDedupKey(context1, choice1) == DecisionDedupKey(context2, choice2) <==>
      && Strip(context1.GetOr("")) == Strip(context2.GetOr(""))
      && AgreeFor(200, Join(" ", Split(choice1.GetOr(""))), Join(" ", Split(choice2.GetOr(""))))
  {
    CutsAgree(200, Phrase(choice1), Phrase(choice2));
  }

  /** Phrases of at most 200 characters are not confused with any other. */
  lemma ShortChoicesShareKeyIff(choice1: Option<string>, choice2: Option<string>)
    requires |Join(" ", Split(choice1.GetOr("")))| <= 200 && |Join(" ", Split(choice2.GetOr("")))| <= 200
    ensures DecisionDedupKey(None, choice1).1 == DecisionDedupKey(None, choice2).1 <==> Split(choice1.GetOr("")) == Split(choice2.GetOr(""))
  {
    NormalizedIffSameWords(choice1, choice2);
  }

  /** A longer phrase is cut after 200 characters, a shorter one is the key. */
  lemma ChoiceKeyCut(choice: Option<string>)
    ensures NormalizeChoice(choice) <= Join(" ", Split(choice.GetOr("")))
    ensures |NormalizeChoice(choice)| == 200 || (|NormalizeChoice(choice)| < 200 && NormalizeChoice(choice) == Join(" ", Split(choice.GetOr(""))))
  {
  }

  // ----- the cut and normalizing again -----

  /** What is left of joined terms by a cut that does not end in a space is joined terms. */
  lemma {:induction false} CutOfJoin(ts: seq<string>, n: nat) returns (us: seq<string>)
    requires AllTerms(ts) && 0 < n <= |Join(" ", ts)| && Join(" ", ts)[n - 1] != ' '
    ensures AllTerms(us) && Join(" ", us) == Join(" ", ts)[..n] && us != []
  {
    var j := Join(" ", ts);
    if n <= |ts[0]| {
      us := [ts[0][..n]];
      assert j[..n] == ts[0][..n];
    } else {
      var rest := Join(" ", ts[1..]);
      assert j == ts[0] + " " + rest && n - |ts[0]| - 1 > 0;
      us := CutOfJoin(ts[1..], n - |ts[0]| - 1);
      assert j[..n] == ts[0] + " " + rest[..n - |ts[0]| - 1];
      assert Join(" ", [ts[0]] + us) == ts[0] + " " + Join(" ", us) by { assert ([ts[0]] + us)[1..] == us; }
      us := [ts[0]] + us;
    }
  }

  lemma CanonicalContextIdempotent(context: Option<string>)
    ensures CanonicalContext(Some(CanonicalContext(context))) == CanonicalContext(context)
  {
    if context.Some? {
      StripIdempotent(context.value);
    }
  }

  lemma {:induction false} JoinEndsInTerm(ts: seq<string>)
    requires AllTerms(ts) && ts != []
    ensures Join(" ", ts) != "" && Join(" ", ts)[|Join(" ", ts)| - 1] != ' '
  {
    if |ts| > 1 {
      JoinEndsInTerm(ts[1..]);
    }
  }

  /** Normalizing a normalized choice changes it exactly when the cut left a space at its end. */
  lemma ChoiceIdempotentIff(choice: Option<string>)
    ensures NormalizeChoice(Some(NormalizeChoice(choice))) == NormalizeChoice(choice) <==>
      |Join(" ", Split(choice.GetOr("")))| <= 200 || Join(" ", Split(choice.GetOr("")))[199] != ' '
  {
    hide Split, Join;
    var ts := Words(choice);
    var j, c := Join(" ", ts), NormalizeChoice(choice);
    EmptyJoin();
    if c == j {
      SplitJoin(ts);
    } else if j[199] != ' ' {
      var us := CutOfJoin(ts, 200);
      SplitJoin(us);
    } else if Split(c) != [] {
      JoinEndsInTerm(Split(c));
      JoinNoLonger(c);
    }
  }

  lemma EmptyJoin()
    ensures Join(" ", []) == ""
  {
  }

  lemma {:induction false} JoinNoLonger(s: string)
    ensures |Join(" ", Split(s))| <= |s|
    decreases |s|
  {
    if s != "" {
      if IsSpace(s[0]) {
        JoinNoLonger(s[1..]);
      } else {
        var n := WordLength(s);
        JoinNoLonger(s[n..]);
        if n < |s| {
          assert IsSpace(s[n..][0]);
          assert Split(s[n..]) == Split(s[n..][1..]);
          JoinNoLonger(s[n..][1..]);
        }
      }
    }
  }
}
