/** Strings as Python and SQLite see them: code point order, Unicode whitespace,
    `split`, `strip`, `join` and the decimal spelling of a natural number. */
module Text {

  // ----- order (Python `str` comparison, SQLite BINARY collation) -----

  predicate Before(a: string, b: string) {
    if b == "" then false
    else if a == "" then true
    else if a[0] != b[0] then a[0] < b[0]
    else Before(a[1..], b[1..])
  }

  lemma {:induction false} BeforeTotal(a: string, b: string)
    ensures a == b || Before(a, b) || Before(b, a)
    ensures !(Before(a, b) && Before(b, a))
    ensures !Before(a, a)
  {
    if a != "" {
      BeforeTotal(a[1..], a[1..]);
      if b != "" && a[0] == b[0] {
        BeforeTotal(a[1..], b[1..]);
        assert a == [a[0]] + a[1..] && b == [b[0]] + b[1..];
      }
    }
  }

  lemma {:induction false} BeforeTransitive(a: string, b: string, c: string)
    requires Before(a, b) && Before(b, c)
    ensures Before(a, c)
  {
    if a != "" && a[0] == b[0] && b[0] == c[0] {
      BeforeTransitive(a[1..], b[1..], c[1..]);
    }
  }

  /** One text comes before another if it is a proper front of it, or has the smaller
      character at the first place where they differ. */
  lemma {:induction false} BeforeMeans(a: string, b: string)
    ensures Before(a, b) <==> exists i: nat :: i <= |a| && i < |b| && a[..i] == b[..i] && (i == |a| || a[i] < b[i])
  {
    if b == "" {
    } else if a == "" {
      assert a[..0] == b[..0];
    } else if a[0] != b[0] {
      assert a[..0] == b[..0];
      forall i: nat | 1 <= i <= |a| && i < |b| ensures a[..i] != b[..i] {
        assert a[..i][0] == a[0] && b[..i][0] == b[0];
      }
    } else {
      BeforeMeans(a[1..], b[1..]);
      if i: nat :| i <= |a[1..]| && i < |b[1..]| && a[1..][..i] == b[1..][..i] && (i == |a[1..]| || a[1..][i] < b[1..][i]) {
        assert a[..i + 1] == [a[0]] + a[1..][..i] && b[..i + 1] == [b[0]] + b[1..][..i];
      }
      if i: nat :| i <= |a| && i < |b| && a[..i] == b[..i] && (i == |a| || a[i] < b[i]) {
        assert i > 0;
        assert a[1..][..i - 1] == a[..i][1..] && b[1..][..i - 1] == b[..i][1..];
      }
    }
  }

  // ----- whitespace, split, strip, join -----

  /** `str.isspace` for one character; U+001F, the unit separator, is included. */
  predicate IsSpace(c: char) {
    || '\t' <= c <= '\r'
    || '\U{1C}' <= c <= ' '
    || c == '\U{85}' || c == '\U{A0}' || c == '\U{1680}'
    || '\U{2000}' <= c <= '\U{200A}'
    || c == '\U{2028}' || c == '\U{2029}' || c == '\U{202F}' || c == '\U{205F}' || c == '\U{3000}'
  }

  predicate Spaceless(s: string) {
    forall i :: 0 <= i < |s| ==> !IsSpace(s[i])
  }

  /** A term that `split` can produce. */
  predicate IsTerm(s: string) {
    s != "" && Spaceless(s)
  }

  predicate AllTerms(ts: seq<string>) {
    forall i :: 0 <= i < |ts| ==> IsTerm(ts[i])
  }

  /** Length of the longest prefix without whitespace. */
  function WordLength(s: string): (n: nat)
    ensures n <= |s| && Spaceless(s[..n])
    ensures n < |s| ==> IsSpace(s[n])
  {
    if s == "" || IsSpace(s[0]) then 0
    else
      var n := 1 + WordLength(s[1..]);
      assert forall i :: 1 <= i < n ==> s[..n][i] == s[1..][..n - 1][i - 1];
      n
  }

  /** `str.split()` without arguments. */
  function Split(s: string): (ts: seq<string>)
    ensures AllTerms(ts)
    decreases |s|
  {
    if s == "" then []
    else if IsSpace(s[0]) then Split(s[1..])
    else
      var n := WordLength(s);
      [s[..n]] + Split(s[n..])
  }

  function Join(sep: string, ts: seq<string>): string {
    if ts == [] then ""
    else if |ts| == 1 then ts[0]
    else ts[0] + sep + Join(sep, ts[1..])
  }

  function LStrip(s: string): (r: string)
    ensures r == "" || !IsSpace(r[0])
  {
    if s == "" || !IsSpace(s[0]) then s else LStrip(s[1..])
  }

  function RStrip(s: string): (r: string)
    ensures r == "" || !IsSpace(r[|r| - 1])
    ensures |r| <= |s| && r == s[..|r|]
  {
    if s == "" || !IsSpace(s[|s| - 1]) then s else RStrip(s[..|s| - 1])
  }

  /** `str.strip()`. */
  function Strip(s: string): string {
    RStrip(LStrip(s))
  }

  /** Stripping cuts whitespace off both ends, as much as there is. */
  lemma StripMeans(s: string) returns (before: string, after: string)
    ensures s == before + Strip(s) + after
    ensures (forall i :: 0 <= i < |before| ==> IsSpace(before[i])) && (forall i :: 0 <= i < |after| ==> IsSpace(after[i]))
    ensures Strip(s) != "" ==> !IsSpace(Strip(s)[0]) && !IsSpace(Strip(s)[|Strip(s)| - 1])
  {
    before := LStripCuts(s);
    after := RStripCuts(LStrip(s));
    assert Strip(s) != "" ==> Strip(s)[0] == LStrip(s)[0];
  }

  lemma {:induction false} LStripCuts(s: string) returns (before: string)
    ensures s == before + LStrip(s) && forall i :: 0 <= i < |before| ==> IsSpace(before[i])
  {
    before := "";
    if s != "" && IsSpace(s[0]) {
      before := LStripCuts(s[1..]);
      before := [s[0]] + before;
    }
  }

  lemma {:induction false} RStripCuts(s: string) returns (after: string)
    ensures s == RStrip(s) + after && forall i :: 0 <= i < |after| ==> IsSpace(after[i])
  {
    after := "";
    if s != "" && IsSpace(s[|s| - 1]) {
      after := RStripCuts(s[..|s| - 1]);
      after := after + [s[|s| - 1]];
    }
  }

  lemma StripIdempotent(s: string)
    ensures Strip(Strip(s)) == Strip(s)
  {
    var t := Strip(s);
    assert t != "" ==> t[0] == LStrip(s)[0];
    assert LStrip(t) == t;
  }

  /** A term followed by nothing or by whitespace is read back whole. */
  lemma {:induction false} WordThenSpace(t: string, rest: string)
    requires Spaceless(t) && (rest == "" || IsSpace(rest[0]))
    ensures WordLength(t + rest) == |t|
  {
    if t == "" {
      assert t + rest == rest;
    } else {
      assert (t + rest)[1..] == t[1..] + rest;
      WordThenSpace(t[1..], rest);
    }
  }

  lemma {:induction false} SplitTermThen(t: string, rest: string)
    requires IsTerm(t) && (rest == "" || IsSpace(rest[0]))
    ensures Split(t + rest) == [t] + Split(rest)
  {
    WordThenSpace(t, rest);
    assert (t + rest)[..|t|] == t && (t + rest)[|t|..] == rest;
    assert !IsSpace((t + rest)[0]);
  }

  /** `split` undoes `" ".join` on terms. */
  lemma {:induction false} SplitJoin(ts: seq<string>)
    requires AllTerms(ts)
    ensures Split(Join(" ", ts)) == ts
  {
    if ts == [] {
    } else if |ts| == 1 {
      SplitTermThen(ts[0], "");
      assert ts[0] + "" == ts[0];
    } else {
      var rest := " " + Join(" ", ts[1..]);
      assert Join(" ", ts) == ts[0] + rest;
      SplitTermThen(ts[0], rest);
      assert rest[1..] == Join(" ", ts[1..]);
      SplitJoin(ts[1..]);
    }
  }

  /** Whitespace anywhere splits: with `SplitTermThen` for one term this determines `split`. */
  lemma {:induction false} SplitAtSpace(a: string, c: char, b: string)
    requires IsSpace(c)
    ensures Split(a + [c] + b) == Split(a) + Split(b)
    decreases |a|
  {
    var s := a + [c] + b;
    if a == "" {
      assert s[1..] == b;
    } else if IsSpace(a[0]) {
      assert s[1..] == a[1..] + [c] + b;
      SplitAtSpace(a[1..], c, b);
    } else {
      var n := WordLength(a);
      assert a == a[..n] + a[n..];
      assert s == a[..n] + (a[n..] + [c] + b);
      SplitTermThen(a[..n], a[n..] + [c] + b);
      SplitAtSpace(a[n..], c, b);
    }
  }

  /** Tabs, line ends, the unit separator and wide spaces all split; other characters do not. */
  lemma SpacesSplit(c: char)
    ensures c in "\t\n\U{B}\U{C}\r \U{1C}\U{1D}\U{1E}\U{1F}\U{85}\U{A0}\U{1680}\U{2003}\U{2028}\U{2029}\U{202F}\U{205F}\U{3000}" ==> Split("a" + [c] + "b") == ["a", "b"]
    ensures '!' <= c <= '~' || c in "\U{200B}\U{FEFF}\U{180E}\U{E9}\U{4E2D}" ==> Split("a" + [c] + "b") == ["a" + [c] + "b"]
  {
    var s := "a" + [c] + "b";
    if IsSpace(c) {
      SplitAtSpace("a", c, "b");
      OneTerm("a");
      OneTerm("b");
    } else {
      OneTerm(s);
    }
  }

  lemma OneTerm(t: string)
    requires IsTerm(t)
    ensures Split(t) == [t]
  {
    SplitTermThen(t, "");
    assert t + "" == t;
  }

  predicate OccursAt(s: string, t: string, i: nat) {
    i + |t| <= |s| && s[i..i + |t|] == t
  }

  predicate Contains(s: string, t: string) {
    exists i: nat :: i <= |s| && OccursAt(s, t, i)
  }

  /** Every term of a text occurs in it. */
  lemma {:induction false} SplitTermsOccur(s: string, k: nat)
    requires k < |Split(s)|
    ensures Contains(s, Split(s)[k])
    decreases |s|
  {
    var t := Split(s)[k];
    if IsSpace(s[0]) {
      SplitTermsOccur(s[1..], k);
      var i: nat :| i <= |s[1..]| && OccursAt(s[1..], t, i);
      assert OccursAt(s, t, i + 1);
    } else {
      var n := WordLength(s);
      if k == 0 {
        assert OccursAt(s, t, 0);
      } else {
        SplitTermsOccur(s[n..], k - 1);
        var i: nat :| i <= |s[n..]| && OccursAt(s[n..], t, i);
        assert OccursAt(s, t, i + n);
      }
    }
  }

  // ----- decimal spelling -----

  const DIGITS: string := "0123456789"

  predicate IsDigit(c: char) {
    '0' <= c <= '9'
  }

  predicate AllDigits(s: string) {
    forall i :: 0 <= i < |s| ==> IsDigit(s[i])
  }

  /** `str(n)` for a natural number. */
  function Decimal(n: nat): (s: string)
    ensures s != "" && AllDigits(s)
  {
    if n < 10 then [DIGITS[n]] else Decimal(n / 10) + [DIGITS[n % 10]]
  }

  /** `int(s)` for a string of ASCII digits. */
  function ParseDecimal(s: string): nat
    requires AllDigits(s)
  {
    if s == "" then 0
    else 10 * ParseDecimal(s[..|s| - 1]) + (s[|s| - 1] as int - '0' as int)
  }

  lemma {:induction false} DecimalRoundTrip(n: nat)
    ensures ParseDecimal(Decimal(n)) == n
  {
    if n < 10 {
      assert Decimal(n)[..0] == "";
    } else {
      var s := Decimal(n);
      DecimalRoundTrip(n / 10);
      assert s[..|s| - 1] == Decimal(n / 10);
    }
  }
}
