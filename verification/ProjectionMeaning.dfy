/** What the derivations of a projection mean for the canonical rows, in plain fields. */
module ProjectionMeaning {
  import opened Options
  import opened Text
  import opened Ordering
  import opened Dedup
  import opened ProjectionRecords

  /** The text has a character that is no whitespace. */
  predicate Inked(s: string) {
    exists i :: 0 <= i < |s| && !IsSpace(s[i])
  }

  predicate Filled(r: Record, key: string) {
    key in r.fields && Inked(r.fields[key])
  }

  predicate Serving(r: Record) {
    r.lifecycle == "candidate" || r.lifecycle == "validated" || r.lifecycle == "active"
  }

  predicate FactRow(r: Record) {
    r.recordType == "fact" && Serving(r) && Filled(r, "subject") && Filled(r, "predicate") && Filled(r, "object")
  }

  predicate DecisionRow(r: Record) {
    r.recordType == "decision" && Serving(r) && Filled(r, "choice") && Filled(r, "reason") && Filled(r, "context")
  }

  predicate SkillRow(r: Record) {
    && r.recordType == "skill" && Serving(r) && Filled(r, "purpose")
    && r.steps.Some? && |r.steps.value| >= 1
    && forall i :: 0 <= i < |r.steps.value| ==> r.steps.value[i].Some? && Inked(r.steps.value[i].value)
  }

  predicate BeliefRow(r: Record) {
    r.recordType == "belief" && r.lifecycle == "active" && Filled(r, "proposition")
  }

  lemma InkedIff(s: string)
    ensures Strip(s) != "" <==> Inked(s)
  {
    var before, after := StripMeans(s);
    if Strip(s) != "" {
      assert s[|before|] == Strip(s)[0];
    }
  }

  /** Which rows are projected. */
  lemma EligibleMeans(r: Record)
    ensures IsEligible(r) <==> FactRow(r) || DecisionRow(r) || SkillRow(r) || BeliefRow(r)
  {
    forall s ensures Strip(s) != "" <==> Inked(s) { InkedIff(s); }
    hide Strip, Inked;
  }

  // ----- nodes and edges -----

  /** `id` is what a fact calls its subject or object. */
  ghost predicate NamedByFact(nodeId: string -> string, rows: seq<Record>, id: string) {
    exists r :: r in rows && FactRow(r) && (id == nodeId(r.fields["subject"]) || id == nodeId(r.fields["object"]))
  }

  ghost predicate NamedByDecision(nodeId: string -> string, rows: seq<Record>, id: string) {
    exists r :: r in rows && DecisionRow(r) && id == nodeId("decision-" + r.fields["choice"])
  }

  ghost predicate NamedBySkill(nodeId: string -> string, rows: seq<Record>, id: string) {
    exists r :: r in rows && SkillRow(r) && id == nodeId("skill-" + r.fields["purpose"])
  }

  ghost predicate LinkedByFact(nodeId: string -> string, rows: seq<Record>, x: string, y: string, p: string) {
    exists r :: r in rows && FactRow(r) && x == nodeId(r.fields["subject"]) && y == nodeId(r.fields["object"]) && p == r.fields["predicate"]
  }

  ghost predicate LinkedByDecision(nodeId: string -> string, rows: seq<Record>, x: string, y: string, p: string) {
    exists r :: r in rows && DecisionRow(r) && x == nodeId("decision-" + r.fields["choice"]) && y == nodeId(r.fields["context"]) && p == "decides"
  }

  ghost predicate HasNodes(nodeId: string -> string, rows: seq<Record>, ids: set<string>) {
    forall id :: id in ids <==> NamedByFact(nodeId, rows, id) || NamedByDecision(nodeId, rows, id) || NamedBySkill(nodeId, rows, id)
  }

  /** Facts link subject to object; a decision links to its context if that is a node. */
  ghost predicate HasEdges(nodeId: string -> string, rows: seq<Record>, ids: set<string>, edges: set<EdgeKey>) {
    forall x, y, p :: (x, y, p) in edges <==> LinkedByFact(nodeId, rows, x, y, p) || (LinkedByDecision(nodeId, rows, x, y, p) && y in ids)
  }

  /** Facts type a node first, then decisions, then skills. */
  ghost predicate BuiltTypes(nodeId: string -> string, rows: seq<Record>, nodes: map<string, string>) {
    forall id :: id in nodes ==>
      nodes[id] == if NamedByFact(nodeId, rows, id) then "entity" else if NamedByDecision(nodeId, rows, id) then "decision" else "skill"
  }

  /** Decisions type a node first, then facts, then skills. */
  ghost predicate ExpectedTypes(nodeId: string -> string, rows: seq<Record>, nodes: map<string, string>) {
    forall id :: id in nodes ==>
      nodes[id] == if NamedByDecision(nodeId, rows, id) then "decision" else if NamedByFact(nodeId, rows, id) then "entity" else "skill"
  }

  /** The builder's graph. */
  ghost predicate Built(nodeId: string -> string, rows: seq<Record>, nodes: map<string, string>, edges: set<EdgeKey>) {
    HasNodes(nodeId, rows, nodes.Keys) && BuiltTypes(nodeId, rows, nodes) && HasEdges(nodeId, rows, nodes.Keys, edges)
  }

  /** The verifier's. */
  ghost predicate Expected(nodeId: string -> string, rows: seq<Record>, nodes: map<string, string>, edges: set<EdgeKey>) {
    HasNodes(nodeId, rows, nodes.Keys) && ExpectedTypes(nodeId, rows, nodes) && HasEdges(nodeId, rows, nodes.Keys, edges)
  }

  lemma RowMeans(nodeId: string -> string, r: Record)
    ensures IsEligible(r) && r.recordType == "fact" <==> FactRow(r)
    ensures IsEligible(r) && r.recordType == "decision" <==> DecisionRow(r)
    ensures IsEligible(r) && r.recordType == "skill" <==> SkillRow(r)
    ensures FactRow(r) ==> NodeIds(nodeId, r) == {nodeId(r.fields["subject"]), nodeId(r.fields["object"])}
    ensures DecisionRow(r) ==> NodeIds(nodeId, r) == {nodeId("decision-" + r.fields["choice"])}
    ensures SkillRow(r) ==> NodeIds(nodeId, r) == {nodeId("skill-" + r.fields["purpose"])}
    ensures FactRow(r) ==> FactEdge(nodeId, r) == (nodeId(r.fields["subject"]), nodeId(r.fields["object"]), r.fields["predicate"])
    ensures DecisionRow(r) ==> DecisionEdge(nodeId, r) == (nodeId("decision-" + r.fields["choice"]), nodeId(r.fields["context"]), "decides")
  {
    EligibleMeans(r);
    hide IsEligible, Inked;
  }

  lemma NamesMean(nodeId: string -> string, rows: seq<Record>, id: string)
    ensures id in IdsOfType(nodeId, Ordered(rows), "fact") <==> NamedByFact(nodeId, rows, id)
    ensures id in IdsOfType(nodeId, Ordered(rows), "decision") <==> NamedByDecision(nodeId, rows, id)
    ensures id in IdsOfType(nodeId, Ordered(rows), "skill") <==> NamedBySkill(nodeId, rows, id)
  {
    OrderedMembers(rows);
    forall r ensures IsEligible(r) && r.recordType == "fact" <==> FactRow(r) { RowMeans(nodeId, r); }
    forall r ensures IsEligible(r) && r.recordType == "decision" <==> DecisionRow(r) { RowMeans(nodeId, r); }
    forall r ensures IsEligible(r) && r.recordType == "skill" <==> SkillRow(r) { RowMeans(nodeId, r); }
    forall r | FactRow(r) ensures NodeIds(nodeId, r) == {nodeId(r.fields["subject"]), nodeId(r.fields["object"])} { RowMeans(nodeId, r); }
    forall r | DecisionRow(r) ensures NodeIds(nodeId, r) == {nodeId("decision-" + r.fields["choice"])} { RowMeans(nodeId, r); }
    forall r | SkillRow(r) ensures NodeIds(nodeId, r) == {nodeId("skill-" + r.fields["purpose"])} { RowMeans(nodeId, r); }
    hide Ordered, IsEligible, FactRow, DecisionRow, SkillRow, NodeIds;
  }

  lemma EdgesMean(nodeId: string -> string, rows: seq<Record>, targets: set<string>, x: string, y: string, p: string)
    ensures (x, y, p) in EdgesOf(nodeId, Ordered(rows), targets) <==>
      LinkedByFact(nodeId, rows, x, y, p) || (LinkedByDecision(nodeId, rows, x, y, p) && y in targets)
  {
    OrderedMembers(rows);
    forall r ensures IsEligible(r) && r.recordType == "fact" <==> FactRow(r) { RowMeans(nodeId, r); }
    forall r ensures IsEligible(r) && r.recordType == "decision" <==> DecisionRow(r) { RowMeans(nodeId, r); }
    forall r | FactRow(r) ensures FactEdge(nodeId, r) == (nodeId(r.fields["subject"]), nodeId(r.fields["object"]), r.fields["predicate"]) { RowMeans(nodeId, r); }
    forall r | DecisionRow(r) ensures DecisionEdge(nodeId, r) == (nodeId("decision-" + r.fields["choice"]), nodeId(r.fields["context"]), "decides") { RowMeans(nodeId, r); }
    hide Ordered, IsEligible, FactRow, DecisionRow, FactEdge, DecisionEdge;
  }

  ghost predicate NamesAre(nodeId: string -> string, rows: seq<Record>, f: set<string>, d: set<string>, s: set<string>) {
    && (forall id :: id in f <==> NamedByFact(nodeId, rows, id))
    && (forall id :: id in d <==> NamedByDecision(nodeId, rows, id))
    && (forall id :: id in s <==> NamedBySkill(nodeId, rows, id))
  }

  lemma AllNames(nodeId: string -> string, rows: seq<Record>)
    ensures NamesAre(nodeId, rows, IdsOfType(nodeId, Ordered(rows), "fact"), IdsOfType(nodeId, Ordered(rows), "decision"), IdsOfType(nodeId, Ordered(rows), "skill"))
  {
    hide Ordered, IdsOfType, NamedByFact, NamedByDecision, NamedBySkill;
    forall id ensures id in IdsOfType(nodeId, Ordered(rows), "fact") <==> NamedByFact(nodeId, rows, id) { NamesMean(nodeId, rows, id); }
    forall id ensures id in IdsOfType(nodeId, Ordered(rows), "decision") <==> NamedByDecision(nodeId, rows, id) { NamesMean(nodeId, rows, id); }
    forall id ensures id in IdsOfType(nodeId, Ordered(rows), "skill") <==> NamedBySkill(nodeId, rows, id) { NamesMean(nodeId, rows, id); }
  }

  lemma BuiltMeans(nodeId: string -> string, rows: seq<Record>)
    ensures var nodes := BuilderNodes(nodeId, Ordered(rows)); Built(nodeId, rows, nodes, EdgesOf(nodeId, Ordered(rows), nodes.Keys))
  {
    AllNames(nodeId, rows);
    HasAllEdges(nodeId, rows, BuilderNodes(nodeId, Ordered(rows)).Keys);
    hide Ordered, IdsOfType, EdgesOf, NamedByFact, NamedByDecision, NamedBySkill, HasEdges;
  }

  lemma ExpectedMeans(nodeId: string -> string, rows: seq<Record>)
    ensures var nodes := ExpectedNodes(nodeId, Ordered(rows)); Expected(nodeId, rows, nodes, EdgesOf(nodeId, Ordered(rows), nodes.Keys))
  {
    AllNames(nodeId, rows);
    HasAllEdges(nodeId, rows, ExpectedNodes(nodeId, Ordered(rows)).Keys);
    TypedMeans(nodeId, rows, IdsOfType(nodeId, Ordered(rows), "fact"), IdsOfType(nodeId, Ordered(rows), "decision"), IdsOfType(nodeId, Ordered(rows), "skill"));
    hide Ordered, IdsOfType, EdgesOf, HasEdges, HasNodes, ExpectedTypes, Typed, NamesAre;
  }

  lemma TypedMeans(nodeId: string -> string, rows: seq<Record>, f: set<string>, d: set<string>, s: set<string>)
    requires NamesAre(nodeId, rows, f, d, s)
    ensures HasNodes(nodeId, rows, Typed(f, d, s).Keys) && ExpectedTypes(nodeId, rows, Typed(f, d, s))
  {
    hide NamedByFact, NamedByDecision, NamedBySkill;
  }

  lemma HasAllEdges(nodeId: string -> string, rows: seq<Record>, ids: set<string>)
    ensures HasEdges(nodeId, rows, ids, EdgesOf(nodeId, Ordered(rows), ids))
  {
    forall x, y, p
      ensures (x, y, p) in EdgesOf(nodeId, Ordered(rows), ids) <==>
        LinkedByFact(nodeId, rows, x, y, p) || (LinkedByDecision(nodeId, rows, x, y, p) && y in ids)
    {
      EdgesMean(nodeId, rows, ids, x, y, p);
    }
    hide Ordered, EdgesOf, LinkedByFact, LinkedByDecision;
  }

  // ----- vectors and counts -----

  ghost predicate VectorsMean(uuid5: string -> string, rows: seq<Record>, ids: set<string>) {
    forall v :: v in ids <==>
      || (exists r :: r in rows && FactRow(r) && v == uuid5("fact:" + r.recordId))
      || (exists r :: r in rows && BeliefRow(r) && v == uuid5("belief:" + r.recordId))
  }

  lemma VectorIdsMean(uuid5: string -> string, rows: seq<Record>)
    ensures VectorsMean(uuid5, rows, VectorIds(uuid5, Ordered(rows)))
  {
    OrderedMembers(rows);
    assert "fact" + ":" == "fact:" && "belief" + ":" == "belief:";
    forall r ensures IsEligible(r) <==> FactRow(r) || DecisionRow(r) || SkillRow(r) || BeliefRow(r) { EligibleMeans(r); }
    hide Ordered, IsEligible, Inked, Filled;
    forall r: Record | r.recordType == "fact" || r.recordType == "belief" ensures VectorId(uuid5, r) == uuid5((if r.recordType == "fact" then "fact:" else "belief:") + r.recordId) {
      assert r.recordType + ":" + r.recordId == (if r.recordType == "fact" then "fact:" else "belief:") + r.recordId;
    }
  }

  /** The places at which an eligible row of the type stands. */
  function Places(rows: seq<Record>, t: string): set<nat> {
    set i: nat | i < |rows| && IsEligible(rows[i]) && rows[i].recordType == t
  }

  lemma {:induction false} CountAppend(a: seq<Record>, b: seq<Record>, t: string)
    ensures CountOf(a + b, t) == CountOf(a, t) + CountOf(b, t)
    decreases |b|
  {
    if b == [] {
      assert a + b == a;
    } else {
      assert (a + b)[..|a + b| - 1] == a + b[..|b| - 1];
      CountAppend(a, b[..|b| - 1], t);
    }
  }

  lemma CountNone(t: string)
    ensures CountOf([], t) == 0
  {
  }

  lemma CountOne(r: Record, t: string)
    ensures CountOf([r], t) == if r.recordType == t then 1 else 0
  {
    assert [r][..0] == [];
  }

  lemma {:induction false} CountInsert(r: Record, rs: seq<Record>, t: string)
    ensures CountOf(Insert(r, rs, RecordKey, false), t) == CountOf([r], t) + CountOf(rs, t)
  {
    hide Precedes, CountOf;
    CountAppend([r], rs, t);
    if rs != [] && Precedes(RecordKey(rs[0]), RecordKey(r), false) {
      CountInsert(r, rs[1..], t);
      CountAppend([rs[0]], rs[1..], t);
      CountAppend([rs[0]], Insert(r, rs[1..], RecordKey, false), t);
      assert rs == [rs[0]] + rs[1..];
    }
  }

  lemma {:induction false} CountSorted(rs: seq<Record>, t: string)
    ensures CountOf(SortBy(rs, RecordKey, false), t) == CountOf(rs, t)
  {
    hide CountOf, Insert;
    if rs != [] {
      CountSorted(rs[1..], t);
      CountInsert(rs[0], SortBy(rs[1..], RecordKey, false), t);
      CountAppend([rs[0]], rs[1..], t);
      assert rs == [rs[0]] + rs[1..];
    }
  }

  lemma {:induction false} CountEligible(rows: seq<Record>, t: string)
    ensures CountOf(Eligible(rows), t) == |Places(rows, t)|
    decreases |rows|
  {
    hide IsEligible, CountOf;
    if rows == [] {
      assert Places(rows, t) == {};
      CountNone(t);
    } else {
      var n := |rows| - 1;
      CountEligible(rows[..n], t);
      CountOne(rows[n], t);
      CountAppend(Eligible(rows[..n]), if IsEligible(rows[n]) then [rows[n]] else [], t);
      CountNone(t);
      PlacesGrow(rows, n, t);
      hide Places, Eligible;
    }
  }

  lemma PlacesGrow(rows: seq<Record>, n: nat, t: string)
    requires |rows| == n + 1
    ensures |Places(rows, t)| == |Places(rows[..n], t)| + if IsEligible(rows[n]) && rows[n].recordType == t then 1 else 0
  {
    hide IsEligible;
    assert Places(rows, t) == Places(rows[..n], t) + if IsEligible(rows[n]) && rows[n].recordType == t then {n} else {};
  }

  /** A count is the number of eligible rows of the type. */
  lemma CountMeans(rows: seq<Record>, t: string)
    ensures CountOf(Ordered(rows), t) == |Places(rows, t)|
  {
    CountSorted(Eligible(rows), t);
    CountEligible(rows, t);
  }
}
