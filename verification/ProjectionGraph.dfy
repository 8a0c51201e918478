/** Two derivations of one graph: the builder's and the verifier's own. */
module ProjectionGraph {
  import opened Options
  import opened Text
  import opened Ordering
  import opened Dedup
  import opened ProjectionRecords
  import opened ProjectionMeaning

  // ----- the builder -----

  class SimpleGraph {
    var nodes: map<string, string>
    var edges: seq<EdgeKey>

    constructor ()
      ensures nodes == map[] && edges == []
    {
      nodes, edges := map[], [];
    }

    /** False is the ValueError of a second node with the id. */
    method AddNode(id: string, kind: string) returns (ok: bool)
      modifies this
      ensures ok <==> id !in old(nodes)
      ensures nodes == if ok then old(nodes)[id := kind] else old(nodes)
      ensures edges == old(edges)
    {
      ok := id !in nodes;
      if ok { nodes := nodes[id := kind]; }
    }

    /** False is the KeyError of a missing endpoint. */
    method AddEdge(e: EdgeKey) returns (ok: bool)
      modifies this
      ensures ok <==> e.0 in old(nodes) && e.1 in old(nodes)
      ensures edges == if ok then old(edges) + [e] else old(edges)
      ensures nodes == old(nodes)
    {
      ok := e.0 in nodes && e.1 in nodes;
      if ok { edges := edges + [e]; }
    }
  }

  /** `ids` join `nodes` with a type; a node that is there keeps the one it has. */
  function Layer(nodes: map<string, string>, ids: set<string>, kind: string): map<string, string> {
    map id | id in nodes.Keys + ids :: if id in nodes then nodes[id] else kind
  }

  lemma LayerGrows(nodes: map<string, string>, a: set<string>, b: set<string>, kind: string)
    ensures Layer(Layer(nodes, a, kind), b, kind) == Layer(nodes, a + b, kind)
    ensures Layer(nodes, {}, kind) == nodes
  {
  }

  lemma IdsGrow(nodeId: string -> string, rs: seq<Record>, i: nat, t: string)
    requires i < |rs|
    ensures IdsOfType(nodeId, rs[..i + 1], t) ==
              IdsOfType(nodeId, rs[..i], t) + if rs[i].recordType == t then NodeIds(nodeId, rs[i]) else {}
    ensures IdsOfType(nodeId, rs[..0], t) == {}
  {
    hide NodeIds;
    assert rs[..i + 1] == rs[..i] + [rs[i]];
  }

  /** Adds the nodes of the records of type `t` that are not there yet. */
  method AddNodesOf(g: SimpleGraph, rs: seq<Record>, t: string, kind: string, nodeId: string -> string) returns (ok: bool)
    requires t == "fact" || t == "decision" || t == "skill"
    modifies g
    ensures ok && g.edges == old(g.edges)
    ensures g.nodes == Layer(old(g.nodes), IdsOfType(nodeId, rs, t), kind)
  {
    LayerGrows(g.nodes, {}, {}, kind);
    hide IdsOfType, Layer;
    ghost var base := g.nodes;
    assert |rs| > 0 ==> IdsOfType(nodeId, rs[..0], t) == {} by { if |rs| > 0 { IdsGrow(nodeId, rs, 0, t); } }
    NoIds(nodeId, t);
    assert rs[..0] == [];
    for i := 0 to |rs|
      invariant g.edges == old(g.edges)
      invariant g.nodes == Layer(base, IdsOfType(nodeId, rs[..i], t), kind)
    {
      IdsGrow(nodeId, rs, i, t);
      if rs[i].recordType != t { continue; }
      LayerGrows(base, IdsOfType(nodeId, rs[..i], t), NodeIds(nodeId, rs[i]), kind);
      ok := AddIds(g, NamesOf(nodeId, rs[i]), kind);
      NamesAreIds(nodeId, rs[i]);
      if !ok { return false; }
    }
    assert rs[..|rs|] == rs;
    return true;
  }

  lemma NoIds(nodeId: string -> string, t: string)
    ensures IdsOfType(nodeId, [], t) == {}
  {
  }

  /** The node ids of a record in the order they are visited. */
  function NamesOf(nodeId: string -> string, r: Record): seq<string> {
    if r.recordType == "fact" then [nodeId(Field(r, "subject")), nodeId(Field(r, "object"))]
    else if r.recordType == "decision" then [nodeId("decision-" + Field(r, "choice"))]
    else if r.recordType == "skill" then [nodeId("skill-" + Field(r, "purpose"))]
    else []
  }

  lemma NamesAreIds(nodeId: string -> string, r: Record)
    ensures (set id | id in NamesOf(nodeId, r)) == NodeIds(nodeId, r)
  {
  }

  method AddIds(g: SimpleGraph, ids: seq<string>, kind: string) returns (ok: bool)
    modifies g
    ensures ok && g.edges == old(g.edges)
    ensures g.nodes == Layer(old(g.nodes), (set id | id in ids), kind)
  {
    ghost var base := g.nodes;
    for k := 0 to |ids|
      invariant g.edges == old(g.edges)
      invariant g.nodes == Layer(base, (set id | id in ids[..k]), kind)
    {
      assert ids[..k + 1] == ids[..k] + [ids[k]];
      if ids[k] !in g.nodes {
        ok := g.AddNode(ids[k], kind);
        if !ok { return false; }
      }
    }
    assert ids[..|ids|] == ids;
    return true;
  }

  predicate NoDuplicates(edges: seq<EdgeKey>) {
    forall i, j :: 0 <= i < j < |edges| ==> edges[i] != edges[j]
  }

  function EdgeSet(edges: seq<EdgeKey>): set<EdgeKey> {
    set e | e in edges
  }

  lemma EdgesGrow(nodeId: string -> string, rs: seq<Record>, i: nat, targets: set<string>)
    requires i < |rs|
    ensures EdgesOf(nodeId, rs[..i + 1], targets) == EdgesOf(nodeId, rs[..i], targets) +
      if rs[i].recordType == "fact" then {FactEdge(nodeId, rs[i])}
      else if rs[i].recordType == "decision" && DecisionEdge(nodeId, rs[i]).1 in targets then {DecisionEdge(nodeId, rs[i])}
      else {}
  {
    hide FactEdge, DecisionEdge;
    assert rs[..i + 1] == rs[..i] + [rs[i]];
  }

  /** Edges of the records of type `t`, skipping the ones seen. */
  method AddEdgesOf(g: SimpleGraph, rs: seq<Record>, t: string, nodeId: string -> string) returns (ok: bool)
    requires t == "fact" || t == "decision"
    requires g.nodes.Keys == AllNodeIds(nodeId, rs) && NoDuplicates(g.edges)
    modifies g
    ensures ok && g.nodes == old(g.nodes) && NoDuplicates(g.edges)
    ensures EdgeSet(g.edges) == EdgeSet(old(g.edges)) + EdgesOf(nodeId, OfType(rs, t), g.nodes.Keys)
  {
    hide NodeIds, FactEdge, DecisionEdge, EdgesOf, AllNodeIds;
    var own := OfType(rs, t);
    OfTypeMembers(rs, t);
    NoEdges(nodeId, g.nodes.Keys);
    assert own[..0] == [];
    for i := 0 to |own|
      invariant g.nodes == old(g.nodes) && NoDuplicates(g.edges)
      invariant EdgeSet(g.edges) == EdgeSet(old(g.edges)) + EdgesOf(nodeId, own[..i], g.nodes.Keys)
    {
      EdgesGrow(nodeId, own, i, g.nodes.Keys);
      assert own[i] in own;
      NodesPresent(nodeId, rs, own[i]);
      EdgeEndpoints(nodeId, own[i]);
      var key := if t == "fact" then FactEdge(nodeId, own[i]) else DecisionEdge(nodeId, own[i]);
      if key !in g.edges && (t == "fact" || key.1 in g.nodes) {
        ghost var before := g.edges;
        ok := g.AddEdge(key);
        if !ok { return false; }
        assert EdgeSet(before + [key]) == EdgeSet(before) + {key};
      }
    }
    assert own[..|own|] == own;
    return true;
  }

  lemma NoEdges(nodeId: string -> string, targets: set<string>)
    ensures EdgesOf(nodeId, [], targets) == {}
  {
  }

  lemma EdgeEndpoints(nodeId: string -> string, r: Record)
    ensures r.recordType == "fact" ==> FactEdge(nodeId, r).0 in NodeIds(nodeId, r) && FactEdge(nodeId, r).1 in NodeIds(nodeId, r)
    ensures r.recordType == "decision" ==> DecisionEdge(nodeId, r).0 in NodeIds(nodeId, r)
  {
  }

  function OfType(rs: seq<Record>, t: string): seq<Record> {
    if rs == [] then [] else (if rs[0].recordType == t then [rs[0]] else []) + OfType(rs[1..], t)
  }

  lemma {:induction false} OfTypeMembers(rs: seq<Record>, t: string)
    ensures forall r :: r in OfType(rs, t) <==> r in rs && r.recordType == t
  {
    if rs != [] {
      OfTypeMembers(rs[1..], t);
      assert rs == [rs[0]] + rs[1..];
    }
  }

  lemma EdgesByType(nodeId: string -> string, rs: seq<Record>, targets: set<string>)
    ensures EdgesOf(nodeId, OfType(rs, "fact"), targets) + EdgesOf(nodeId, OfType(rs, "decision"), targets) ==
              EdgesOf(nodeId, rs, targets)
  {
    hide FactEdge, DecisionEdge;
    OfTypeMembers(rs, "fact");
    OfTypeMembers(rs, "decision");
  }

  lemma ThreeLayers(nodeId: string -> string, rs: seq<Record>)
    ensures Layer(Layer(Layer(map[], IdsOfType(nodeId, rs, "fact"), "entity"), IdsOfType(nodeId, rs, "decision"), "decision"),
                  IdsOfType(nodeId, rs, "skill"), "skill") == BuilderNodes(nodeId, rs)
  {
    hide IdsOfType;
  }

  /** build_shared_projection_graph. No add_node or add_edge can raise. */
  method BuildSharedProjectionGraph(records: seq<Record>, nodeId: string -> string) returns (ok: bool, g: SimpleGraph)
    ensures ok && fresh(g)
    ensures g.nodes == BuilderNodes(nodeId, Ordered(records))
    ensures NoDuplicates(g.edges)
    ensures EdgeSet(g.edges) == EdgesOf(nodeId, Ordered(records), g.nodes.Keys)
    ensures Built(nodeId, records, g.nodes, EdgeSet(g.edges))
  {
    BuiltMeans(nodeId, records);
    hide IdsOfType, EdgesOf, Ordered, Layer, NodeIds, Built;
    g := new SimpleGraph();
    var ordered := Ordered(records);
    ok := AddNodesOf(g, ordered, "fact", "entity", nodeId);
    ok := AddNodesOf(g, ordered, "decision", "decision", nodeId);
    ok := AddNodesOf(g, ordered, "skill", "skill", nodeId);
    ThreeLayers(nodeId, ordered);
    ok := AddEdgesOf(g, ordered, "fact", nodeId);
    ok := AddEdgesOf(g, ordered, "decision", nodeId);
    EdgesByType(nodeId, ordered, g.nodes.Keys);
  }

  // ----- the verifier's derivation -----

  lemma VectorIdsGrow(uuid5: string -> string, rs: seq<Record>, i: nat)
    requires i < |rs|
    ensures VectorIds(uuid5, rs[..i + 1]) == VectorIds(uuid5, rs[..i]) +
      if rs[i].recordType == "fact" || rs[i].recordType == "belief" then {VectorId(uuid5, rs[i])} else {}
    ensures VectorIds(uuid5, rs[..0]) == {}
  {
    hide VectorId;
    assert rs[..i + 1] == rs[..i] + [rs[i]];
  }

  /** Nodes typed as the sorted walk over `rs` types them. */
  lemma ExpectedStep(nodeId: string -> string, rs: seq<Record>, i: nat)
    requires i < |rs| && (rs[i].recordType == "fact" || rs[i].recordType == "decision" || rs[i].recordType == "skill")
    requires forall k :: 0 <= k < i ==> !Before(rs[i].recordType, rs[k].recordType)
    ensures ExpectedNodes(nodeId, rs[..i + 1]) ==
      Layer(ExpectedNodes(nodeId, rs[..i]), NodeIds(nodeId, rs[i]),
            if rs[i].recordType == "fact" then "entity" else rs[i].recordType)
  {
    hide NodeIds, IdsOfType, Layer, Typed, Before;
    var f, d, s := IdsOfType(nodeId, rs[..i], "fact"), IdsOfType(nodeId, rs[..i], "decision"), IdsOfType(nodeId, rs[..i], "skill");
    var n := NodeIds(nodeId, rs[i]);
    IdsGrow(nodeId, rs, i, "fact");
    IdsGrow(nodeId, rs, i, "decision");
    IdsGrow(nodeId, rs, i, "skill");
    TypeOrder();
    assert f + {} == f && d + {} == d && s + {} == s;
    if rs[i].recordType == "decision" {
      NoneOfType(nodeId, rs[..i], "fact");
      NoneOfType(nodeId, rs[..i], "skill");
      TypedDecision(d, n);
    } else if rs[i].recordType == "fact" {
      NoneOfType(nodeId, rs[..i], "skill");
      TypedFact(f, d, n);
    } else {
      TypedSkill(f, d, s, n);
    }
  }

  lemma TypedDecision(d: set<string>, n: set<string>)
    ensures Typed({}, d + n, {}) == Layer(Typed({}, d, {}), n, "decision")
  {
  }

  lemma TypedFact(f: set<string>, d: set<string>, n: set<string>)
    ensures Typed(f + n, d, {}) == Layer(Typed(f, d, {}), n, "entity")
  {
  }

  lemma TypedSkill(f: set<string>, d: set<string>, s: set<string>, n: set<string>)
    ensures Typed(f, d, s + n) == Layer(Typed(f, d, s), n, "skill")
  {
  }

  lemma TypeOrder()
    ensures Before("decision", "fact") && Before("decision", "skill") && Before("fact", "skill")
  {
  }

  lemma NoneOfType(nodeId: string -> string, rs: seq<Record>, t: string)
    requires forall k :: 0 <= k < |rs| ==> rs[k].recordType != t
    ensures IdsOfType(nodeId, rs, t) == {}
  {
  }

  /** expected_projection: one walk for nodes, counts and vectors, one for edges. */
  method ExpectedProjection(records: seq<Record>, nodeId: string -> string, uuid5: string -> string) returns (e: Expectation)
    ensures e.nodes == ExpectedNodes(nodeId, Ordered(records))
    ensures e.edges == EdgesOf(nodeId, Ordered(records), e.nodes.Keys)
    ensures e.vectorIds == VectorIds(uuid5, Ordered(records))
    ensures forall t :: t in e.counts ==> e.counts[t] == |Places(records, t)| >= 1
    ensures forall r :: r in Ordered(records) ==> r.recordType in e.counts
    ensures Expected(nodeId, records, e.nodes, e.edges)
    ensures VectorsMean(uuid5, records, e.vectorIds)
  {
    TypesAscend(records);
    ExpectedMeans(nodeId, records);
    VectorIdsMean(uuid5, records);
    hide Ordered, NodeIds, Layer, FactEdge, DecisionEdge, VectorIds, ExpectedNodes, Counted, EdgesOf, Expected, VectorsMean, Places, CountOf;
    StartOfWalk(nodeId, uuid5);
    assert Ordered(records)[..0] == [];
    var ordered := Ordered(records);
    var counts: map<string, nat>, nodes: map<string, string>, vectorIds: set<string> := map[], map[], {};
    for i := 0 to |ordered|
      invariant nodes == ExpectedNodes(nodeId, ordered[..i])
      invariant vectorIds == VectorIds(uuid5, ordered[..i])
      invariant Counted(ordered[..i], counts)
    {
      var r := ordered[i];
      assert ordered[..i + 1] == ordered[..i] + [r];
      VectorIdsGrow(uuid5, ordered, i);
      CountedStep(ordered[..i], counts, r);
      counts := counts[r.recordType := (if r.recordType in counts then counts[r.recordType] else 0) + 1];
      if r.recordType == "fact" || r.recordType == "belief" {
        vectorIds := vectorIds + {VectorId(uuid5, r)};
      }
      if r.recordType == "fact" || r.recordType == "decision" || r.recordType == "skill" {
        ExpectedStep(nodeId, ordered, i);
        nodes := SetDefaults(nodes, NamesOf(nodeId, r), if r.recordType == "fact" then "entity" else r.recordType);
        NamesAreIds(nodeId, r);
      } else {
        NoNodes(nodeId, ordered, i);
      }
    }
    assert ordered[..|ordered|] == ordered;
    var edges: set<EdgeKey> := {};
    NoEdges(nodeId, nodes.Keys);
    assert ordered[..0] == [];
    for i := 0 to |ordered|
      invariant edges == EdgesOf(nodeId, ordered[..i], nodes.Keys)
    {
      var r := ordered[i];
      EdgesGrow(nodeId, ordered, i, nodes.Keys);
      if r.recordType == "fact" {
        edges := edges + {FactEdge(nodeId, r)};
      } else if r.recordType == "decision" && DecisionEdge(nodeId, r).1 in nodes {
        edges := edges + {DecisionEdge(nodeId, r)};
      }
    }
    assert ordered[..|ordered|] == ordered;
    CountedFacts(ordered, counts);
    forall t ensures CountOf(ordered, t) == |Places(records, t)| { CountMeans(records, t); }
    e := Expectation(counts, vectorIds, nodes, edges);
  }

  ghost predicate Counted(rs: seq<Record>, counts: map<string, nat>) {
    && (forall t :: t in counts ==> counts[t] == CountOf(rs, t) >= 1)
    && (forall t :: t !in counts ==> CountOf(rs, t) == 0)
    && (forall r :: r in rs ==> r.recordType in counts)
  }

  lemma StartOfWalk(nodeId: string -> string, uuid5: string -> string)
    ensures ExpectedNodes(nodeId, []) == map[] && VectorIds(uuid5, []) == {} && Counted([], map[])
  {
  }

  lemma CountedFacts(rs: seq<Record>, counts: map<string, nat>)
    requires Counted(rs, counts)
    ensures forall t :: t in counts ==> counts[t] == CountOf(rs, t) >= 1
    ensures forall r :: r in rs ==> r.recordType in counts
  {
  }

  lemma CountedStep(rs: seq<Record>, counts: map<string, nat>, r: Record)
    requires Counted(rs, counts)
    ensures Counted(rs + [r], counts[r.recordType := (if r.recordType in counts then counts[r.recordType] else 0) + 1])
  {
    assert (rs + [r])[..|rs|] == rs;
  }

  lemma NoNodes(nodeId: string -> string, rs: seq<Record>, i: nat)
    requires i < |rs| && rs[i].recordType != "fact" && rs[i].recordType != "decision" && rs[i].recordType != "skill"
    ensures ExpectedNodes(nodeId, rs[..i + 1]) == ExpectedNodes(nodeId, rs[..i])
  {
    hide NodeIds;
    IdsGrow(nodeId, rs, i, "fact");
    IdsGrow(nodeId, rs, i, "decision");
    IdsGrow(nodeId, rs, i, "skill");
  }

  /** The ids that have no type yet get this one. */
  function SetDefaults(nodes: map<string, string>, ids: seq<string>, kind: string): (r: map<string, string>)
    ensures r == Layer(nodes, (set id | id in ids), kind)
    decreases |ids|
  {
    if ids == [] then nodes
    else
      assert ids == [ids[0]] + ids[1..];
      SetDefaults(if ids[0] in nodes then nodes else nodes[ids[0] := kind], ids[1..], kind)
  }

  // ----- agreement -----

  /** Some fact name and some decision share a node id. */
  predicate Collides(nodeId: string -> string, rs: seq<Record>) {
    IdsOfType(nodeId, rs, "fact") * IdsOfType(nodeId, rs, "decision") != {}
  }

  /** The two derivations have the same node ids and the same edges, always; they give the
      nodes the same types exactly when no fact name shares a node id with a decision. */
  lemma DerivationsAgree(nodeId: string -> string, records: seq<Record>)
    ensures var rs := Ordered(records);
      && BuilderNodes(nodeId, rs).Keys == ExpectedNodes(nodeId, rs).Keys
      && EdgesOf(nodeId, rs, BuilderNodes(nodeId, rs).Keys) == EdgesOf(nodeId, rs, ExpectedNodes(nodeId, rs).Keys)
      && (BuilderNodes(nodeId, rs) == ExpectedNodes(nodeId, rs) <==> !Collides(nodeId, rs))
  {
    hide IdsOfType, Ordered, EdgesOf;
    var rs := Ordered(records);
    var b, e := BuilderNodes(nodeId, rs), ExpectedNodes(nodeId, rs);
    assert b.Keys == e.Keys;
    if id :| id in IdsOfType(nodeId, rs, "fact") * IdsOfType(nodeId, rs, "decision") {
      assert b[id] == "entity" && e[id] == "decision";
    } else {
      forall id | id in b ensures b[id] == e[id] {
        assert id !in IdsOfType(nodeId, rs, "fact") * IdsOfType(nodeId, rs, "decision");
      }
      assert b == e;
    }
  }

  lemma NonblankField(r: Record, key: string)
    requires key in r.fields && r.fields[key] != "" && !IsSpace(r.fields[key][0]) && !IsSpace(r.fields[key][|r.fields[key]| - 1])
    ensures Nonblank(r, key)
  {
  }

  const NAMESAKE_FACT: Record :=
    Record("fact", "1", "active", map["subject" := "decision-X", "predicate" := "p", "object" := "o"], None)

  const NAMESAKE_DECISION: Record :=
    Record("decision", "2", "active", map["choice" := "X", "reason" := "r", "context" := "c"], None)

  lemma NamesakesEligible()
    ensures IsEligible(NAMESAKE_FACT) && IsEligible(NAMESAKE_DECISION)
  {
    hide Nonblank;
    NonblankField(NAMESAKE_FACT, "subject");
    NonblankField(NAMESAKE_FACT, "predicate");
    NonblankField(NAMESAKE_FACT, "object");
    NonblankField(NAMESAKE_DECISION, "choice");
    NonblankField(NAMESAKE_DECISION, "reason");
    NonblankField(NAMESAKE_DECISION, "context");
  }

  lemma NamesakeIds(nodeId: string -> string)
    ensures nodeId("decision-X") in NodeIds(nodeId, NAMESAKE_FACT) && nodeId("decision-X") in NodeIds(nodeId, NAMESAKE_DECISION)
  {
    assert "decision-" + "X" == "decision-X";
  }

  /** A fact about "decision-X" and a decision that chooses "X" collide, however names become
      node ids. */
  lemma NamesakeCollides(nodeId: string -> string)
    ensures Collides(nodeId, Ordered([NAMESAKE_FACT, NAMESAKE_DECISION]))
    ensures var rs := Ordered([NAMESAKE_FACT, NAMESAKE_DECISION]); BuilderNodes(nodeId, rs) != ExpectedNodes(nodeId, rs)
  {
    var records := [NAMESAKE_FACT, NAMESAKE_DECISION];
    assert records[0] == NAMESAKE_FACT && records[1] == NAMESAKE_DECISION;
    NamesakesEligible();
    OrderedMembers(records);
    NamesakeIds(nodeId);
    DerivationsAgree(nodeId, records);
    hide Ordered, IsEligible, NodeIds, BuilderNodes, ExpectedNodes;
    var rs, id := Ordered(records), nodeId("decision-X");
    assert NAMESAKE_FACT in rs && NAMESAKE_DECISION in rs;
    assert id in IdsOfType(nodeId, rs, "fact") && id in IdsOfType(nodeId, rs, "decision");
    assert id in IdsOfType(nodeId, rs, "fact") * IdsOfType(nodeId, rs, "decision");
  }

  /** Every edge of the expectation joins two of its nodes. */
  lemma ExpectationClosed(nodeId: string -> string, records: seq<Record>)
    ensures var rs := Ordered(records);
      forall e :: e in EdgesOf(nodeId, rs, ExpectedNodes(nodeId, rs).Keys) ==>
        e.0 in ExpectedNodes(nodeId, rs) && e.1 in ExpectedNodes(nodeId, rs)
  {
    hide Ordered, NodeIds, FactEdge, DecisionEdge, IdsOfType;
    var rs := Ordered(records);
    assert ExpectedNodes(nodeId, rs).Keys == AllNodeIds(nodeId, rs);
    forall e | e in EdgesOf(nodeId, rs, ExpectedNodes(nodeId, rs).Keys)
      ensures e.0 in AllNodeIds(nodeId, rs) && e.1 in AllNodeIds(nodeId, rs)
    {
      if r :| r in rs && r.recordType == "fact" && e == FactEdge(nodeId, r) {
        EdgeEndpoints(nodeId, r);
        NodesPresent(nodeId, rs, r);
      } else {
        var r :| r in rs && r.recordType == "decision" && e == DecisionEdge(nodeId, r);
        EdgeEndpoints(nodeId, r);
        NodesPresent(nodeId, rs, r);
      }
    }
  }
}
