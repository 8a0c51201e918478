/** FactRepository.find_existing with its LIKE prefilter, and the FTS5 query builder. */
module FactLookup {
  import opened Options
  import opened Text
  import opened Ordering
  import opened Dedup
  import opened Grouping
  import opened FactTables

  // ----- LIKE -----

  /** SQLite's LIKE ignores the case of ASCII letters only. */
  function Fold(c: char): char {
    if 'A' <= c <= 'Z' then (c as int + 32) as char else c
  }

  /** The same character, or one ASCII letter in both cases. */
  predicate SameLetter(a: char, b: char) {
    || a == b
    || ('A' <= a <= 'Z' && b as int == a as int + 32)
    || ('A' <= b <= 'Z' && a as int == b as int + 32)
  }

  lemma FoldMeans(a: char, b: char)
    ensures Fold(a) == Fold(b) <==> SameLetter(a, b)
  {
  }

  const ESCAPE: char := '/'

  /** `s LIKE p ESCAPE '/'` */
  predicate Like(p: string, s: string)
    decreases |p|, |s|
  {
    if p == "" then s == ""
    else if p[0] == '%' then Like(p[1..], s) || (s != "" && Like(p, s[1..]))
    else if p[0] == '_' then s != "" && Like(p[1..], s[1..])
    else if p[0] == '/' then |p| >= 2 && s != "" && Fold(p[1]) == Fold(s[0]) && Like(p[2..], s[1..])
    else s != "" && Fold(p[0]) == Fold(s[0]) && Like(p[1..], s[1..])
  }

  /** A token with its wildcards and escape characters made literal. */
  function Escaped(t: string): string {
    if t == "" then ""
    else (if t[0] == '%' || t[0] == '_' || t[0] == ESCAPE then [ESCAPE, t[0]] else [t[0]]) + Escaped(t[1..])
  }

  /** The pattern that looks for a token anywhere in a column. */
  function ContainsPattern(t: string): string {
    "%" + (Escaped(t) + "%")
  }

  /** `t` stands in `s` at `i`, letter case aside. */
  predicate FoldedAt(s: string, t: string, i: nat) {
    i + |t| <= |s| && forall k :: 0 <= k < |t| ==> SameLetter(s[i + k], t[k])
  }

  lemma {:induction false} PercentMatchesAll(s: string)
    ensures Like("%", s)
  {
    if s != "" {
      PercentMatchesAll(s[1..]);
    }
  }

  lemma {:induction false} EscapedMatchesItself(t: string, s: string)
    ensures Like(Escaped(t) + "%", s) <==> FoldedAt(s, t, 0)
  {
    var p := Escaped(t) + "%";
    if t == "" {
      assert p == "%";
      PercentMatchesAll(s);
      assert s[0..0] == "";
    } else {
      var special := t[0] == '%' || t[0] == '_' || t[0] == ESCAPE;
      assert (if special then p[2..] else p[1..]) == Escaped(t[1..]) + "%";
      if s != "" {
        EscapedMatchesItself(t[1..], s[1..]);
        FoldedStep(s, t);
      }
    }
  }

  lemma FoldedStep(s: string, t: string)
    requires s != "" && t != ""
    ensures FoldedAt(s, t, 0) <==> Fold(s[0]) == Fold(t[0]) && FoldedAt(s[1..], t[1..], 0)
  {
    FoldMeans(s[0], t[0]);
    hide SameLetter, Fold;
    if FoldedAt(s, t, 0) {
      assert SameLetter(s[0 + 0], t[0]);
      forall k | 0 <= k < |t| - 1 ensures SameLetter(s[1..][0 + k], t[1..][k]) { assert SameLetter(s[0 + (k + 1)], t[k + 1]); }
    }
    if SameLetter(s[0], t[0]) && FoldedAt(s[1..], t[1..], 0) {
      forall k | 0 <= k < |t| ensures SameLetter(s[0 + k], t[k]) {
        if k > 0 { assert SameLetter(s[1..][0 + (k - 1)], t[1..][k - 1]); }
      }
    }
  }

  /** Whatever wildcards a token holds, its pattern matches exactly the texts that
      contain it, letter case aside. */
  lemma {:induction false} PatternMeansContains(t: string, s: string)
    ensures Like(ContainsPattern(t), s) <==> exists i: nat :: FoldedAt(s, t, i)
    decreases |s|
  {
    var p := ContainsPattern(t);
    assert p[1..] == Escaped(t) + "%" && p[0] == '%';
    EscapedMatchesItself(t, s);
    if s != "" {
      PatternMeansContains(t, s[1..]);
      forall i: nat ensures FoldedAt(s[1..], t, i) <==> FoldedAt(s, t, i + 1) {
        if FoldedAt(s[1..], t, i) {
          forall k | 0 <= k < |t| ensures SameLetter(s[i + 1 + k], t[k]) { assert SameLetter(s[1..][i + k], t[k]); }
        }
        if FoldedAt(s, t, i + 1) {
          forall k | 0 <= k < |t| ensures SameLetter(s[1..][i + k], t[k]) { assert SameLetter(s[i + 1 + k], t[k]); }
        }
      }
      if i: nat :| FoldedAt(s, t, i) {
        if i > 0 { assert FoldedAt(s[1..], t, i - 1); }
      }
    }
  }

  // ----- find_existing -----

  /** Every token of the target occurs in the column. */
  predicate TokensPass(column: string, target: string) {
    forall k :: 0 <= k < |Split(target)| ==> Like(ContainsPattern(Split(target)[k]), column)
  }

  predicate Prefilter(f: Fact, s: string, p: string, o: string) {
    IsActive(f.state) && TokensPass(f.subject, s) && TokensPass(f.predicat, p) && TokensPass(f.objekt, o)
  }

  predicate ExactMatch(f: Fact, s: string, p: string, o: string) {
    && NormalizeComponent(Some(f.subject)) == s
    && NormalizeComponent(Some(f.predicat)) == p
    && NormalizeComponent(Some(f.objekt)) == o
  }

  /** A column that normalizes to the target passes the target's token filter. */
  lemma PrefilterLosesNothing(column: string, target: string)
    requires NormalizeComponent(Some(column)) == target
    ensures TokensPass(column, target)
  {
    hide Like, ContainsPattern;
    SplitJoin(Split(column));
    forall k | 0 <= k < |Split(target)| ensures Like(ContainsPattern(Split(target)[k]), column) {
      var t := Split(target)[k];
      SplitTermsOccur(column, k);
      var i: nat :| i <= |column| && OccursAt(column, t, i);
      assert FoldedAt(column, t, i);
      PatternMeansContains(t, column);
    }
  }

  /** ORDER BY confidence DESC, created_at DESC, id DESC. */
  function LookupRank(f: Fact): Key {
    [Num(f.confidence), Num(f.createdAt as real), Str(f.id)]
  }

  function Candidates(rows: seq<Fact>, s: string, p: string, o: string): (r: seq<Fact>)
    ensures forall f :: f in r <==> f in rows && Prefilter(f, s, p, o)
  {
    if rows == [] then []
    else if Prefilter(rows[0], s, p, o) then [rows[0]] + Candidates(rows[1..], s, p, o)
    else Candidates(rows[1..], s, p, o)
  }

  /** An active fact that says this, whitespace aside. */
  predicate Says(f: Fact, subject: Option<string>, predicat: Option<string>, objekt: Option<string>) {
    && (f.state == "candidate" || f.state == "validated" || f.state == "active")
    && Split(f.subject) == Split(subject.GetOr("")) && Split(f.predicat) == Split(predicat.GetOr("")) && Split(f.objekt) == Split(objekt.GetOr(""))
  }

  /** Less confident, or as confident and older, or as old too and of smaller id. */
  predicate Behind(f: Fact, g: Fact) {
    if f.confidence != g.confidence then f.confidence < g.confidence
    else if f.createdAt != g.createdAt then f.createdAt < g.createdAt
    else Before(f.id, g.id)
  }

  lemma LookupRankMeans(f: Fact, g: Fact)
    ensures Less(LookupRank(f), LookupRank(g)) <==> Behind(f, g)
  {
    LessNumNumStr(f.confidence, f.createdAt as real, f.id, g.confidence, g.createdAt as real, g.id);
    hide Less;
  }

  lemma SaysMeans(f: Fact, subject: Option<string>, predicat: Option<string>, objekt: Option<string>)
    ensures Says(f, subject, predicat, objekt) <==>
      IsActive(f.state) && ExactMatch(f, NormalizeComponent(subject), NormalizeComponent(predicat), NormalizeComponent(objekt))
  {
    ExactMatchIsKeyEquality(f, subject, predicat, objekt);
    FactKeyEqualIff(Some(f.subject), Some(f.predicat), Some(f.objekt), subject, predicat, objekt);
    hide ExactMatch, FactDedupKey, Split;
    EmptySplit();
  }

  lemma EmptySplit()
    ensures Split("") == []
  {
  }

  lemma ExactMatchIsKeyEquality(f: Fact, s: Option<string>, p: Option<string>, o: Option<string>)
    ensures ExactMatch(f, NormalizeComponent(s), NormalizeComponent(p), NormalizeComponent(o)) <==>
      KeyOf(f) == FactDedupKey(s, p, o)
  {
    FactKeyEqualIff(Some(f.subject), Some(f.predicat), Some(f.objekt), s, p, o);
    NormalizedIffSameWords(Some(f.subject), s);
    NormalizedIffSameWords(Some(f.predicat), p);
    NormalizedIffSameWords(Some(f.objekt), o);
  }

  /** Finds the best active row that says the three components, and finds nothing only when
      there is none. */
  method FindExisting(rows: seq<Fact>, subject: Option<string>, predicat: Option<string>, objekt: Option<string>)
    returns (found: Option<Fact>)
    ensures found.None? <==> forall f :: f in rows ==> !Says(f, subject, predicat, objekt)
    ensures found.Some? ==> found.value in rows && Says(found.value, subject, predicat, objekt)
    ensures forall f :: found.Some? && f in rows && Says(f, subject, predicat, objekt) ==> !Behind(found.value, f)
  {
    hide ExactMatch, LookupRank, Candidates, SortBy, IsActive, NormalizeComponent, Less, Says, Behind;
    var s, p, o := NormalizeComponent(subject), NormalizeComponent(predicat), NormalizeComponent(objekt);
    var ordered := SortBy(Candidates(rows, s, p, o), LookupRank, true);
    CandidatesInOrder(rows, s, p, o, ordered);
    forall f ensures Says(f, subject, predicat, objekt) <==> IsActive(f.state) && ExactMatch(f, s, p, o) {
      SaysMeans(f, subject, predicat, objekt);
    }
    forall f, g ensures Less(LookupRank(f), LookupRank(g)) <==> Behind(f, g) { LookupRankMeans(f, g); }
    for i := 0 to |ordered|
      invariant forall j :: 0 <= j < i ==> !ExactMatch(ordered[j], s, p, o)
    {
      if ExactMatch(ordered[i], s, p, o) {
        return Some(ordered[i]);
      }
    }
    found := None;
  }

  /** The scanned rows: active, complete as to exact matches, best first. */
  lemma CandidatesInOrder(rows: seq<Fact>, s: string, p: string, o: string, ordered: seq<Fact>)
    requires ordered == SortBy(Candidates(rows, s, p, o), LookupRank, true)
    ensures forall f :: f in ordered ==> f in rows && IsActive(f.state)
    ensures forall f :: f in rows && IsActive(f.state) && ExactMatch(f, s, p, o) ==> f in ordered
    ensures forall i, j :: 0 <= i <= j < |ordered| ==> !Less(LookupRank(ordered[i]), LookupRank(ordered[j]))
  {
    hide LookupRank, ExactMatch, TokensPass, IsActive, Less, InOrder, SortBy;
    var candidates := Candidates(rows, s, p, o);
    SortBySorts(candidates, LookupRank, true);
    assert forall f :: f in ordered <==> f in multiset(ordered);
    assert forall f :: f in candidates <==> f in multiset(candidates);
    forall f | f in rows && IsActive(f.state) && ExactMatch(f, s, p, o) ensures f in ordered {
      MatchPassesFilter(f, s, p, o);
      assert f in candidates;
    }
    NoneBehind(ordered);
  }

  lemma NoneBehind(ordered: seq<Fact>)
    requires InOrder(ordered, LookupRank, true)
    ensures forall i, j :: 0 <= i <= j < |ordered| ==> !Less(LookupRank(ordered[i]), LookupRank(ordered[j]))
  {
    hide LookupRank, Less;
    forall i, j | 0 <= i <= j < |ordered| ensures !Less(LookupRank(ordered[i]), LookupRank(ordered[j])) {
      LessTotal(LookupRank(ordered[i]), LookupRank(ordered[i]));
    }
  }

  lemma MatchPassesFilter(f: Fact, s: string, p: string, o: string)
    requires IsActive(f.state) && ExactMatch(f, s, p, o)
    ensures Prefilter(f, s, p, o)
  {
    PrefilterLosesNothing(f.subject, s);
    PrefilterLosesNothing(f.predicat, p);
    PrefilterLosesNothing(f.objekt, o);
  }

  // ----- _fts5_query -----

  const QUOTE: char := '"'

  function Doubled(t: string): string {
    if t == "" then ""
    else (if t[0] == QUOTE then [QUOTE, QUOTE] else [t[0]]) + Doubled(t[1..])
  }

  function PrefixTerm(t: string): string {
    [QUOTE] + Doubled(t) + [QUOTE, '*']
  }

  function PrefixTerms(ts: seq<string>): (r: seq<string>)
    ensures |r| == |ts| && forall i :: 0 <= i < |ts| ==> r[i] == PrefixTerm(ts[i])
  {
    seq(|ts|, i requires 0 <= i < |ts| => PrefixTerm(ts[i]))
  }

  /** _fts5_query */
  method Fts5Query(text: string) returns (query: string)
    ensures ReadQuery(query) == Some(Split(text))
    ensures query == "" <==> Split(text) == []
  {
    SplitStripped(text);
    if text == "" || Strip(text) == "" {
      return "";
    }
    var words := Split(Strip(text));
    var terms := [];
    for i := 0 to |words|
      invariant |terms| == i && forall j :: 0 <= j < i ==> terms[j] == PrefixTerm(words[j])
    {
      var sanitized := Doubled(words[i]);
      if sanitized != "" {
        terms := terms + [[QUOTE] + sanitized + [QUOTE, '*']];
      }
    }
    assert terms == PrefixTerms(words);
    query := Join(AND, terms);
    ReaderRecoversTerms(words);
  }

  const AND: string := " AND "

  // ----- a reader of FTS5 queries: strings, prefix stars, AND -----

  /** After an opening quote: the text up to the first quote that is not doubled, and
      what follows it. */
  function ReadString(q: string): (r: Option<(string, string)>)
    ensures r.Some? ==> |r.value.1| < |q|
  {
    if q == "" then None
    else if q[0] != '"' then
      var r := ReadString(q[1..]);
      if r.None? then None else Some(([q[0]] + r.value.0, r.value.1))
    else if |q| >= 2 && q[1] == '"' then
      var r := ReadString(q[2..]);
      if r.None? then None else Some((['"'] + r.value.0, r.value.1))
    else Some(("", q[1..]))
  }

  function ReadTerms(q: string): Option<seq<string>>
    decreases |q|
  {
    if q == "" || q[0] != '"' then None
    else
      var r := ReadString(q[1..]);
      if r.None? || r.value.1 == "" || r.value.1[0] != '*' then None
      else
        var t, rest := r.value.0, r.value.1[1..];
        if rest == "" then Some([t])
        else if " AND " <= rest then
          var more := ReadTerms(rest[5..]);
          if more.None? then None else Some([t] + more.value)
        else None
  }

  function ReadQuery(q: string): Option<seq<string>> {
    if q == "" then Some([]) else ReadTerms(q)
  }

  lemma {:induction false} ReadDoubled(t: string, rest: string)
    requires rest == "" || rest[0] != QUOTE
    ensures ReadString(Doubled(t) + ([QUOTE] + rest)) == Some((t, rest))
  {
    var q := Doubled(t) + ([QUOTE] + rest);
    if t == "" {
      assert q == [QUOTE] + rest;
      assert q[1..] == rest;
    } else {
      ReadDoubled(t[1..], rest);
      var k := if t[0] == QUOTE then 2 else 1;
      assert q[k..] == Doubled(t[1..]) + ([QUOTE] + rest);
      assert [t[0]] + t[1..] == t;
    }
  }

  lemma ReadOneTerm(t: string, more: string)
    ensures ReadTerms(PrefixTerm(t)) == Some([t])
    ensures ReadTerms(PrefixTerm(t) + (AND + more)) ==
      if ReadTerms(more).None? then None else Some([t] + ReadTerms(more).value)
  {
    hide ReadString, Doubled;
    var q := PrefixTerm(t);
    assert q[1..] == Doubled(t) + ([QUOTE] + ['*']);
    ReadDoubled(t, ['*']);
    var tail := AND + more;
    assert (q + tail)[1..] == Doubled(t) + ([QUOTE] + (['*'] + tail));
    ReadDoubled(t, ['*'] + tail);
    assert (['*'] + tail)[1..] == tail && tail[|AND|..] == more;
  }

  lemma {:induction false} ReaderRecoversTerms(ts: seq<string>)
    requires ts != []
    ensures Join(AND, PrefixTerms(ts)) != "" && ReadTerms(Join(AND, PrefixTerms(ts))) == Some(ts)
  {
    hide ReadTerms;
    var terms := PrefixTerms(ts);
    if |ts| == 1 {
      ReadOneTerm(ts[0], "");
      assert ts == [ts[0]];
    } else {
      var more := Join(AND, terms[1..]);
      assert Join(AND, terms) == PrefixTerm(ts[0]) + (AND + more);
      assert terms[1..] == PrefixTerms(ts[1..]);
      ReadOneTerm(ts[0], more);
      ReaderRecoversTerms(ts[1..]);
      assert [ts[0]] + ts[1..] == ts;
    }
  }

  // ----- split ignores outer whitespace -----

  lemma {:induction false} SplitTrailingSpace(s: string, c: char)
    requires IsSpace(c)
    ensures Split(s + [c]) == Split(s)
    decreases |s|
  {
    if s == "" {
      assert s + [c] == [c] && [c][1..] == "";
    } else if IsSpace(s[0]) {
      assert (s + [c])[1..] == s[1..] + [c];
      SplitTrailingSpace(s[1..], c);
    } else {
      var n := WordLength(s);
      assert s + [c] == s[..n] + (s[n..] + [c]);
      assert (s[n..] + [c])[0] == if n < |s| then s[n] else c;
      SplitTermThen(s[..n], s[n..] + [c]);
      SplitTrailingSpace(s[n..], c);
    }
  }

  lemma {:induction false} SplitRStrip(s: string)
    ensures Split(RStrip(s)) == Split(s)
  {
    if s != "" && IsSpace(s[|s| - 1]) {
      SplitRStrip(s[..|s| - 1]);
      SplitTrailingSpace(s[..|s| - 1], s[|s| - 1]);
      assert s == s[..|s| - 1] + [s[|s| - 1]];
    }
  }

  lemma {:induction false} SplitLStrip(s: string)
    ensures Split(LStrip(s)) == Split(s)
  {
    if s != "" && IsSpace(s[0]) {
      SplitLStrip(s[1..]);
    }
  }

  lemma SplitStripped(s: string)
    ensures Split(Strip(s)) == Split(s)
    ensures Strip(s) != "" ==> Split(s) != []
  {
    SplitLStrip(s);
    SplitRStrip(LStrip(s));
    if Strip(s) != "" {
      StripIdempotent(s);
      assert Strip(s)[0] == LStrip(s)[0];
    }
  }
}
