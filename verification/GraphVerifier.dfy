/** Reopening a graph snapshot and comparing it with the expectation. */
module GraphVerifier {
  import opened Options
  import opened Text
  import opened ProjectionRecords
  import opened ProjectionGraph

  /** A field of a JSON object: absent, a string, or anything else. */
  datatype Json = Missing | Chars(s: string) | Other

  datatype RawNode = NodeObject(id: Json, kind: Json, name: Json, attributesOk: bool) | NotAnObject

  datatype RawEdge = EdgeObject(source: Json, target: Json, relation: Json, attributesOk: bool) | NotAnEdge

  /** The nodes come with their keys, in file order. */
  datatype Snapshot = Unparsable | Parsed(size: nat, nodes: seq<(string, RawNode)>, edges: seq<RawEdge>)

  /** _MAX_SNAPSHOT_BYTES, what the structural validator reads. */
  const VALIDATION_LIMIT: nat := 256 * 1024 * 1024

  /** _GRAPH_SNAPSHOT_MAX_BYTES, what the verifier's own reader reads. */
  const READ_LIMIT: nat := 64 * 1024 * 1024

  // ----- structural validity -----

  predicate IsTextOrAbsent(j: Json) {
    j.Missing? || j.Chars?
  }

  /** The id a load gives a node: its own, or else its key. */
  function NodeIdOf(key: string, n: RawNode): string {
    if n.NodeObject? && n.id.Chars? then n.id.s else if n.NodeObject? && n.id.Missing? then key else ""
  }

  predicate NodeOk(key: string, n: RawNode) {
    && n.NodeObject? && IsTextOrAbsent(n.id) && NodeIdOf(key, n) != ""
    && IsTextOrAbsent(n.kind) && IsTextOrAbsent(n.name) && n.attributesOk
  }

  predicate EdgeOk(e: RawEdge, ids: set<string>) {
    && e.EdgeObject? && e.source.Chars? && e.source.s in ids && e.source.s != ""
    && e.target.Chars? && e.target.s in ids && e.target.s != ""
    && IsTextOrAbsent(e.relation) && e.attributesOk
  }

  function SnapshotIds(nodes: seq<(string, RawNode)>): set<string> {
    set n | n in nodes :: NodeIdOf(n.0, n.1)
  }

  ghost predicate WellFormed(s: Snapshot) {
    Structural(s) && s.size <= VALIDATION_LIMIT
  }

  ghost predicate Structural(s: Snapshot) {
    && s.Parsed? && NodesOk(s.nodes)
    && (forall i :: 0 <= i < |s.edges| ==> EdgeOk(s.edges[i], SnapshotIds(s.nodes)))
  }

  // ----- the graph a load of the file gives -----

  /** A text field, or what stands for it when it is absent. */
  function TextOr(j: Json, absent: string): string {
    if j.Chars? then j.s else absent
  }

  function LoadedNode(n: (string, RawNode)): (string, string) {
    (NodeIdOf(n.0, n.1), if n.1.NodeObject? then TextOr(n.1.kind, "") else "")
  }

  /** A node without an "id" goes by its key. */
  function LoadedNodes(s: Snapshot): set<(string, string)> {
    if s.Unparsable? then {} else LoadedSet(s.nodes)
  }

  function LoadedEdge(e: RawEdge): EdgeKey {
    if e.EdgeObject? then (TextOr(e.source, ""), TextOr(e.target, ""), TextOr(e.relation, "")) else ("", "", "")
  }

  /** An edge without a "relation" has the empty one. */
  function LoadedEdges(s: Snapshot): seq<EdgeKey> {
    if s.Unparsable? then [] else seq(|s.edges|, i requires 0 <= i < |s.edges| => LoadedEdge(s.edges[i]))
  }

  // ----- what a file says, field by field -----

  /** An object that goes by `id`, its own or its key, of type `kind`, or of none. */
  ghost predicate NodeSays(key: string, n: RawNode, id: string, kind: string) {
    && n.NodeObject? && n.attributesOk && (n.name == Missing || n.name.Chars?)
    && id != "" && (n.id == Chars(id) || (n.id == Missing && id == key))
    && (n.kind == Chars(kind) || (n.kind == Missing && kind == ""))
  }

  /** An object that links two of the ids under `k.2`, or under no relation. */
  ghost predicate EdgeSays(e: RawEdge, ids: set<string>, k: EdgeKey) {
    && e.EdgeObject? && e.attributesOk
    && e.source == Chars(k.0) && e.target == Chars(k.1) && k.0 in ids && k.1 in ids
    && (e.relation == Chars(k.2) || (e.relation == Missing && k.2 == ""))
  }

  function Firsts(nodes: seq<(string, string)>): set<string> {
    set n | n in nodes :: n.0
  }

  ghost predicate FileSays(s: Snapshot, nodes: seq<(string, string)>, edges: seq<EdgeKey>) {
    && s.Parsed? && |s.nodes| == |nodes| && |s.edges| == |edges|
    && (forall i :: 0 <= i < |nodes| ==> NodeSays(s.nodes[i].0, s.nodes[i].1, nodes[i].0, nodes[i].1))
    && (forall i, j :: 0 <= i < j < |nodes| ==> nodes[i].0 != nodes[j].0)
    && (forall i :: 0 <= i < |edges| ==> EdgeSays(s.edges[i], Firsts(nodes), edges[i]))
  }

  lemma NodeSaysIff(key: string, n: RawNode, id: string, kind: string)
    ensures NodeSays(key, n, id, kind) <==> NodeOk(key, n) && (id, kind) == LoadedNode((key, n))
  {
  }

  lemma EdgeSaysIff(e: RawEdge, ids: set<string>, k: EdgeKey)
    requires "" !in ids
    ensures EdgeSays(e, ids, k) <==> EdgeOk(e, ids) && k == LoadedEdge(e)
  {
  }

  function LoadedList(s: Snapshot): (r: seq<(string, string)>)
    requires s.Parsed?
    ensures |r| == |s.nodes| && forall i :: 0 <= i < |r| ==> r[i] == LoadedNode(s.nodes[i])
  {
    seq(|s.nodes|, i requires 0 <= i < |s.nodes| => LoadedNode(s.nodes[i]))
  }

  lemma FirstsAreIds(s: Snapshot, nodes: seq<(string, string)>)
    requires s.Parsed? && nodes == LoadedList(s) && forall i :: 0 <= i < |s.nodes| ==> NodeOk(s.nodes[i].0, s.nodes[i].1)
    ensures Firsts(nodes) == SnapshotIds(s.nodes) && "" !in Firsts(nodes)
  {
    hide NodeOk;
    forall i | 0 <= i < |nodes| ensures nodes[i].0 == NodeIdOf(s.nodes[i].0, s.nodes[i].1) != "" { NodeSaysIff(s.nodes[i].0, s.nodes[i].1, nodes[i].0, nodes[i].1); }
    hide NodeIdOf, LoadedList;
    forall id ensures id in Firsts(nodes) <==> id in SnapshotIds(s.nodes) {
      if n :| n in nodes && n.0 == id {
        var i :| 0 <= i < |nodes| && nodes[i] == n;
        assert s.nodes[i] in s.nodes;
      }
      if n :| n in s.nodes && NodeIdOf(n.0, n.1) == id {
        var i :| 0 <= i < |s.nodes| && s.nodes[i] == n;
        assert nodes[i] in nodes;
      }
    }
  }

  /** A structurally valid file says one thing, which is what a load makes of it; any other
      file says nothing. */
  lemma SaysIff(s: Snapshot, nodes: seq<(string, string)>, edges: seq<EdgeKey>)
    ensures FileSays(s, nodes, edges) <==> Structural(s) && nodes == LoadedList(s) && edges == LoadedEdges(s)
  {
    if s.Parsed? && |s.nodes| == |nodes| && |s.edges| == |edges| {
      forall i | 0 <= i < |nodes|
        ensures NodeSays(s.nodes[i].0, s.nodes[i].1, nodes[i].0, nodes[i].1) <==> NodeOk(s.nodes[i].0, s.nodes[i].1) && nodes[i] == LoadedNode(s.nodes[i])
      {
        NodeSaysIff(s.nodes[i].0, s.nodes[i].1, nodes[i].0, nodes[i].1);
      }
      hide NodeSays, NodeOk, EdgeSays, EdgeOk, Firsts, SnapshotIds, LoadedEdge;
      if (forall i :: 0 <= i < |nodes| ==> NodeOk(s.nodes[i].0, s.nodes[i].1)) && nodes == LoadedList(s) {
        FirstsAreIds(s, nodes);
        forall i | 0 <= i < |edges| ensures EdgeSays(s.edges[i], Firsts(nodes), edges[i]) <==> EdgeOk(s.edges[i], SnapshotIds(s.nodes)) && edges[i] == LoadedEdge(s.edges[i]) {
          EdgeSaysIff(s.edges[i], Firsts(nodes), edges[i]);
        }
      }
    }
  }

  lemma ValidIff(s: Snapshot)
    ensures Structural(s) <==> exists ns, es :: FileSays(s, ns, es)
    ensures Structural(s) ==> FileSays(s, LoadedList(s), LoadedEdges(s)) && forall n :: n in LoadedList(s) <==> n in LoadedNodes(s)
  {
    if Structural(s) { SaysIff(s, LoadedList(s), LoadedEdges(s)); }
    if ns, es :| FileSays(s, ns, es) { SaysIff(s, ns, es); }
    hide FileSays, NodesOk, EdgeOk, LoadedEdges, LoadedNode, SnapshotIds;
    if s.Parsed? {
      forall n ensures n in LoadedList(s) <==> n in LoadedNodes(s) {
        if n in LoadedList(s) {
          var i :| 0 <= i < |s.nodes| && LoadedList(s)[i] == n;
          assert s.nodes[i] in s.nodes;
        }
        if n in LoadedNodes(s) {
          var raw :| raw in s.nodes && LoadedNode(raw) == n;
          var i :| 0 <= i < |s.nodes| && s.nodes[i] == raw;
          assert LoadedList(s)[i] == n;
        }
      }
    }
  }

  /** SimpleGraph._build_state_from, on a file of admitted size: the typed nodes and the
      edges a load gives, or a refusal. */
  method BuildStateFrom(s: Snapshot) returns (valid: bool, nodes: map<string, string>, edges: seq<EdgeKey>)
    ensures valid <==> Structural(s)
    ensures valid ==> nodes.Items == LoadedNodes(s) && edges == LoadedEdges(s)
    ensures valid <==> exists ns, es :: FileSays(s, ns, es)
    ensures valid ==> exists ns :: FileSays(s, ns, edges) && forall n :: n in ns <==> n in nodes.Items
  {
    ValidIff(s);
    hide FileSays;
    nodes, edges := map[], [];
    if s.Unparsable? { return false, nodes, edges; }
    var ok, built := BuildNodes(s.nodes);
    if !ok { return false, nodes, edges; }
    nodes := built;
    PairsAreItems(nodes);
    for i := 0 to |s.edges|
      invariant |edges| == i && forall k :: 0 <= k < i ==> edges[k] == LoadedEdge(s.edges[k])
      invariant forall k :: 0 <= k < i ==> EdgeOk(s.edges[k], SnapshotIds(s.nodes))
    {
      if !EdgeOk(s.edges[i], nodes.Keys) { return false, nodes, edges; }
      edges := edges + [LoadedEdge(s.edges[i])];
    }
    valid := true;
  }

  function LoadedSet(raw: seq<(string, RawNode)>): set<(string, string)> {
    set n | n in raw :: LoadedNode(n)
  }

  /** All nodes are in order and no two go by one id. */
  ghost predicate NodesOk(raw: seq<(string, RawNode)>) {
    && (forall i :: 0 <= i < |raw| ==> NodeOk(raw[i].0, raw[i].1))
    && (forall i, j :: 0 <= i < j < |raw| ==> NodeIdOf(raw[i].0, raw[i].1) != NodeIdOf(raw[j].0, raw[j].1))
  }

  method BuildNodes(raw: seq<(string, RawNode)>) returns (ok: bool, nodes: map<string, string>)
    ensures ok <==> NodesOk(raw)
    ensures ok ==> Pairs(nodes) == LoadedSet(raw) && nodes.Keys == SnapshotIds(raw)
  {
    nodes := map[];
    for i := 0 to |raw|
      invariant NodesOk(raw[..i]) && Pairs(nodes) == LoadedSet(raw[..i]) && nodes.Keys == SnapshotIds(raw[..i])
    {
      var (key, n) := raw[i];
      NextNode(raw, i);
      if !NodeOk(key, n) || NodeIdOf(key, n) in nodes {
        return false, nodes;
      }
      AddedPair(nodes, NodeIdOf(key, n), TextOr(n.kind, ""));
      nodes := nodes[NodeIdOf(key, n) := TextOr(n.kind, "")];
    }
    assert raw[..|raw|] == raw;
    ok := true;
  }

  lemma NextNode(raw: seq<(string, RawNode)>, i: nat)
    requires i < |raw| && NodesOk(raw[..i])
    ensures LoadedSet(raw[..i + 1]) == LoadedSet(raw[..i]) + {LoadedNode(raw[i])}
    ensures SnapshotIds(raw[..i + 1]) == SnapshotIds(raw[..i]) + {NodeIdOf(raw[i].0, raw[i].1)}
    ensures NodesOk(raw[..i + 1]) <==> NodeOk(raw[i].0, raw[i].1) && NodeIdOf(raw[i].0, raw[i].1) !in SnapshotIds(raw[..i])
    ensures NodesOk(raw) ==> NodesOk(raw[..i + 1])
  {
    hide NodeOk, NodeIdOf;
    assert raw[..i + 1] == raw[..i] + [raw[i]];
    if NodeIdOf(raw[i].0, raw[i].1) in SnapshotIds(raw[..i]) {
      RepeatedId(raw, i);
    } else {
      forall k | 0 <= k < i ensures NodeIdOf(raw[k].0, raw[k].1) != NodeIdOf(raw[i].0, raw[i].1) {
        assert raw[k] == raw[..i][k] && raw[..i][k] in raw[..i];
      }
    }
  }

  lemma RepeatedId(nodes: seq<(string, RawNode)>, i: nat)
    requires i < |nodes| && NodeIdOf(nodes[i].0, nodes[i].1) in SnapshotIds(nodes[..i])
    ensures exists k :: 0 <= k < i && NodeIdOf(nodes[k].0, nodes[k].1) == NodeIdOf(nodes[i].0, nodes[i].1)
  {
    var m :| m in nodes[..i] && NodeIdOf(m.0, m.1) == NodeIdOf(nodes[i].0, nodes[i].1);
    var k :| 0 <= k < i && nodes[k] == m;
  }

  function Pairs(nodes: map<string, string>): set<(string, string)> {
    set id | id in nodes :: (id, nodes[id])
  }

  lemma PairsAreItems(nodes: map<string, string>)
    ensures Pairs(nodes) == nodes.Items
  {
    var pairs, items := Pairs(nodes), nodes.Items;
    forall p ensures p in pairs <==> p in items {
      if p in items { assert p.0 in nodes && (p.0, nodes[p.0]) == p; }
    }
    hide Pairs;
    assert pairs == items;
  }

  lemma AddedPair(nodes: map<string, string>, id: string, kind: string)
    requires id !in nodes
    ensures Pairs(nodes[id := kind]) == Pairs(nodes) + {(id, kind)}
  {
    var more := nodes[id := kind];
    forall p | p in Pairs(nodes) + {(id, kind)} ensures p in Pairs(more) {
      if p == (id, kind) { assert id in more && more[id] == kind; } else { assert p.0 in more && more[p.0] == p.1; }
    }
  }

  /** SimpleGraph.validate_snapshot */
  method ValidateSnapshot(s: Snapshot) returns (valid: bool)
    ensures valid <==> WellFormed(s)
    ensures valid <==> s.Parsed? && s.size <= 268435456 && exists ns, es :: FileSays(s, ns, es)
  {
    ValidIff(s);
    hide FileSays, NodesOk, EdgeOk;
    if s.Unparsable? || s.size > VALIDATION_LIMIT { return false; }
    var built, _, _ := BuildStateFrom(s);
    valid := built;
  }

  // ----- what the reader sees -----

  /** How the reader spells a field: text as itself, an absent field as it is told. */
  function Spelled(j: Json, absent: string): string {
    match j
    case Missing => absent
    case Chars(s) => s
    case Other => ""
  }

  /** Nodes without an "id" field are passed over. */
  function ActualNodes(s: Snapshot): set<(string, string)> {
    if s.Unparsable? then {}
    else set n | n in s.nodes && n.1.NodeObject? && !n.1.id.Missing? :: (Spelled(n.1.id, ""), Spelled(n.1.kind, ""))
  }

  function EdgeKeyOf(e: RawEdge): EdgeKey
    requires e.EdgeObject?
  {
    (Spelled(e.source, "None"), Spelled(e.target, "None"), Spelled(e.relation, "None"))
  }

  function EdgeKeysOf(edges: seq<RawEdge>): seq<EdgeKey> {
    if edges == [] then []
    else (if edges[0].EdgeObject? then [EdgeKeyOf(edges[0])] else []) + EdgeKeysOf(edges[1..])
  }

  function ActualEdges(s: Snapshot): seq<EdgeKey> {
    if s.Unparsable? then [] else EdgeKeysOf(s.edges)
  }

  datatype GraphError = Invalid | Unreadable | Empty | NodeSetMismatch | OrphanEdges | DuplicateEdges | EdgeSetMismatch
                      | NodeDigestMismatch | EdgeDigestMismatch

  function FirstIds(nodes: set<(string, string)>): set<string> {
    set n | n in nodes :: n.0
  }

  function EdgeTexts(edges: set<EdgeKey>): set<string> {
    set e | e in edges :: e.0 + "|" + e.1 + "|" + e.2
  }

  predicate Orphaned(edges: seq<EdgeKey>, ids: set<string>) {
    exists e :: e in edges && (e.0 !in ids || e.1 !in ids)
  }

  predicate Closed(e: Expectation) {
    forall k :: k in e.edges ==> k.0 in e.nodes && k.1 in e.nodes
  }

  /** As the verifier reads it: a valid file with the expected typed nodes, and the expected
      edges once each. */
  ghost predicate Accepts(e: Expectation, s: Snapshot) {
    && WellFormed(s) && s.size <= READ_LIMIT
    && ActualNodes(s) == e.nodes.Items
    && NoDuplicates(ActualEdges(s))
    && EdgeSet(ActualEdges(s)) == e.edges
  }

  /** The edge as the verifier reads it: without a relation it is read as "None". */
  function ReadEdge(raw: RawEdge, k: EdgeKey): EdgeKey {
    if raw.EdgeObject? && raw.relation == Missing then (k.0, k.1, "None") else k
  }

  function ReadEdges(raw: seq<RawEdge>, edges: seq<EdgeKey>): (r: seq<EdgeKey>)
    requires |raw| == |edges|
    ensures |r| == |raw| && forall i :: 0 <= i < |raw| ==> r[i] == ReadEdge(raw[i], edges[i])
  {
    seq(|raw|, i requires 0 <= i < |raw| => ReadEdge(raw[i], edges[i]))
  }

  /** The nodes that spell their ids are the expected ones, and the edges as read are the
      expected ones, each once. */
  ghost predicate ReadAs(e: Expectation, s: Snapshot, nodes: seq<(string, string)>, edges: seq<EdgeKey>)
    requires FileSays(s, nodes, edges)
  {
    && (forall n :: n in e.nodes.Items <==> exists i :: 0 <= i < |nodes| && s.nodes[i].1.id != Missing && nodes[i] == n)
    && var read := ReadEdges(s.edges, edges);
    && (forall k :: k in e.edges <==> k in read)
    && (forall i, j :: 0 <= i < j < |read| ==> read[i] != read[j])
  }

  /** A valid file of at most 64 MiB that reads as expected, and whose expectation joins
      expected nodes only. */
  ghost predicate PlainlyAccepted(e: Expectation, s: Snapshot) {
    && s.Parsed? && s.size <= 67108864
    && (exists nodes, edges :: FileSays(s, nodes, edges) && ReadAs(e, s, nodes, edges))
    && forall k :: k in e.edges ==> k.0 in e.nodes && k.1 in e.nodes
  }

  lemma ReadNodes(s: Snapshot, n: (string, string))
    requires Structural(s)
    ensures n in ActualNodes(s) <==> exists i :: 0 <= i < |s.nodes| && s.nodes[i].1.NodeObject? && s.nodes[i].1.id != Missing && LoadedNode(s.nodes[i]) == n
  {
    forall i | 0 <= i < |s.nodes| && s.nodes[i].1.NodeObject? && s.nodes[i].1.id != Missing
      ensures LoadedNode(s.nodes[i]) == (Spelled(s.nodes[i].1.id, ""), Spelled(s.nodes[i].1.kind, ""))
    {
      assert NodeOk(s.nodes[i].0, s.nodes[i].1);
    }
    hide Structural, LoadedNode, Spelled;
    if raw :| raw in s.nodes && raw.1.NodeObject? && !raw.1.id.Missing? && (Spelled(raw.1.id, ""), Spelled(raw.1.kind, "")) == n {
      var i :| 0 <= i < |s.nodes| && s.nodes[i] == raw;
    }
    if i :| 0 <= i < |s.nodes| && s.nodes[i].1.NodeObject? && s.nodes[i].1.id != Missing && LoadedNode(s.nodes[i]) == n {
      assert s.nodes[i] in s.nodes;
    }
  }

  lemma NodesReadIff(e: Expectation, s: Snapshot)
    requires Structural(s)
    ensures ActualNodes(s) == e.nodes.Items <==>
      forall n :: n in e.nodes.Items <==> exists i :: 0 <= i < |s.nodes| && s.nodes[i].1.id != Missing && LoadedList(s)[i] == n
  {
    forall n ensures n in ActualNodes(s) <==> exists i :: 0 <= i < |s.nodes| && s.nodes[i].1.id != Missing && LoadedList(s)[i] == n { ReadNodes(s, n); }
    hide ActualNodes, Structural, LoadedList;
  }

  lemma EdgesRead(s: Snapshot)
    requires Structural(s)
    ensures |LoadedEdges(s)| == |s.edges| && ActualEdges(s) == ReadEdges(s.edges, LoadedEdges(s))
  {
    EdgesCompare(s);
    hide ActualEdges, LoadedEdges, Structural;
  }

  /** What the verifier accepts, field by field. */
  lemma AcceptsIff(e: Expectation, s: Snapshot)
    ensures Accepts(e, s) && Closed(e) <==> PlainlyAccepted(e, s)
  {
    ValidIff(s);
    if Structural(s) {
      NodesReadIff(e, s);
      EdgesRead(s);
      ReadAsIff(e, s);
    }
    hide Structural, ReadAs, FileSays, ActualNodes, ActualEdges;
    if nodes, edges :| FileSays(s, nodes, edges) && ReadAs(e, s, nodes, edges) {
      SaysIff(s, nodes, edges);
    }
  }

  lemma ReadAsIff(e: Expectation, s: Snapshot)
    requires Structural(s) && FileSays(s, LoadedList(s), LoadedEdges(s))
    ensures ReadAs(e, s, LoadedList(s), LoadedEdges(s)) <==>
      ActualNodes(s) == e.nodes.Items && NoDuplicates(ActualEdges(s)) && EdgeSet(ActualEdges(s)) == e.edges
  {
    NodesReadIff(e, s);
    EdgesRead(s);
    hide FileSays, Structural, ActualNodes, ActualEdges, ReadEdges, LoadedList, LoadedEdges;
  }

  lemma ItemIds(nodes: map<string, string>)
    ensures FirstIds(nodes.Items) == nodes.Keys
  {
    forall id | id in nodes.Keys ensures id in FirstIds(nodes.Items) {
      assert (id, nodes[id]) in nodes.Items;
    }
  }

  /** _observe_graph_artifact. `digest` is the SHA-256 of the sorted ids, a function of their set. */
  method ObserveGraphArtifact(e: Expectation, s: Snapshot, digest: set<string> -> string) returns (errors: seq<GraphError>)
    ensures errors == [] <==> Accepts(e, s) && Closed(e)
    ensures errors == [] <==> PlainlyAccepted(e, s)
  {
    AcceptsIff(e, s);
    hide PlainlyAccepted, Structural;
    errors := [];
    var valid := ValidateSnapshot(s);
    if !valid { errors := errors + [Invalid]; }
    if s.Unparsable? || s.size > READ_LIMIT {
      return errors + [Unreadable];
    }
    var actualNodes, edgeKeys := ActualNodes(s), ActualEdges(s);
    var nodeIds := FirstIds(actualNodes);
    if !valid { return; }
    ItemIds(e.nodes);
    hide ActualNodes, ActualEdges, FirstIds, EdgeTexts, NoDuplicates, WellFormed;
    var expectedIds := FirstIds(e.nodes.Items);
    EmptyIds();
    if actualNodes == {} && expectedIds != {} { errors := errors + [Empty]; }
    if actualNodes != e.nodes.Items { errors := errors + [NodeSetMismatch]; }
    if Orphaned(edgeKeys, nodeIds) { errors := errors + [OrphanEdges]; }
    if !NoDuplicates(edgeKeys) { errors := errors + [DuplicateEdges]; }
    if EdgeSet(edgeKeys) != e.edges { errors := errors + [EdgeSetMismatch]; }
    if digest(nodeIds) != digest(expectedIds) { errors := errors + [NodeDigestMismatch]; }
    if digest(EdgeTexts(EdgeSet(edgeKeys))) != digest(EdgeTexts(e.edges)) { errors := errors + [EdgeDigestMismatch]; }
    assert EdgeSet(edgeKeys) == e.edges && nodeIds == expectedIds ==> (Orphaned(edgeKeys, nodeIds) <==> !Closed(e)) by {
      if EdgeSet(edgeKeys) == e.edges && nodeIds == expectedIds {
        assert forall k :: k in edgeKeys <==> k in e.edges;
      }
    }
  }

  lemma EmptyIds()
    ensures FirstIds({}) == {}
  {
  }

  // ----- what acceptance says about the loaded graph -----

  /** Every node object spells its id and every edge its relation. */
  predicate Explicit(s: Snapshot) {
    s.Parsed? && (forall n :: n in s.nodes && n.1.NodeObject? ==> !n.1.id.Missing?)
    && (forall e :: e in s.edges && e.EdgeObject? ==> !e.relation.Missing?)
  }

  /** A load of the file gives the expected typed nodes, and the expected edges once each. */
  ghost predicate LoadsAsExpected(e: Expectation, s: Snapshot) {
    && WellFormed(s)
    && LoadedNodes(s) == e.nodes.Items
    && NoDuplicates(LoadedEdges(s))
    && EdgeSet(LoadedEdges(s)) == e.edges
  }

  lemma ExplicitNodesAgree(s: Snapshot)
    requires WellFormed(s) && forall n :: n in s.nodes && n.1.NodeObject? ==> !n.1.id.Missing?
    ensures ActualNodes(s) == LoadedNodes(s)
  {
    forall n | n in s.nodes ensures n.1.NodeObject? && LoadedNode(n) == (Spelled(n.1.id, ""), Spelled(n.1.kind, "")) {
      var i :| 0 <= i < |s.nodes| && s.nodes[i] == n;
      assert NodeOk(n.0, n.1);
    }
  }

  /** A node without an id is loaded under its key and not read. */
  lemma ImplicitNodeUnread(s: Snapshot, n: (string, RawNode))
    requires WellFormed(s) && n in s.nodes && n.1.NodeObject? && n.1.id.Missing?
    ensures LoadedNode(n) in LoadedNodes(s) && LoadedNode(n) !in ActualNodes(s)
  {
    var i :| 0 <= i < |s.nodes| && s.nodes[i] == n;
    forall m | m in s.nodes && m.1.NodeObject? && !m.1.id.Missing? ensures Spelled(m.1.id, "") != LoadedNode(n).0 {
      var j :| 0 <= j < |s.nodes| && s.nodes[j] == m;
      assert NodeOk(s.nodes[j].0, s.nodes[j].1) && Spelled(m.1.id, "") == NodeIdOf(s.nodes[j].0, s.nodes[j].1);
      assert i < j || j < i;
    }
  }

  /** The verifier's edge list, edge by edge: it differs from the loaded one only in
      relations that are absent. */
  lemma {:induction false} EdgeKeysAt(edges: seq<RawEdge>)
    requires forall i :: 0 <= i < |edges| ==> edges[i].EdgeObject?
    ensures |EdgeKeysOf(edges)| == |edges|
    ensures forall i :: 0 <= i < |edges| ==> EdgeKeysOf(edges)[i] == EdgeKeyOf(edges[i])
  {
    if edges != [] { EdgeKeysAt(edges[1..]); }
  }

  lemma EdgesCompare(s: Snapshot)
    requires Structural(s)
    ensures |ActualEdges(s)| == |LoadedEdges(s)| == |s.edges|
    ensures forall i :: 0 <= i < |s.edges| ==> s.edges[i].EdgeObject? && ActualEdges(s)[i] == (if s.edges[i].relation.Missing? then (LoadedEdges(s)[i].0, LoadedEdges(s)[i].1, "None") else LoadedEdges(s)[i])
  {
    forall i | 0 <= i < |s.edges| ensures s.edges[i].EdgeObject? && EdgeOk(s.edges[i], SnapshotIds(s.nodes)) {}
    EdgeKeysAt(s.edges);
  }

  /** An edge without a relation is read as one that no load contains. */
  lemma ImplicitEdgeMisread(s: Snapshot, i: nat)
    requires WellFormed(s) && i < |s.edges| && s.edges[i].EdgeObject? && s.edges[i].relation.Missing?
    requires NoDuplicates(ActualEdges(s))
    ensures EdgeSet(ActualEdges(s)) != EdgeSet(LoadedEdges(s))
  {
    EdgesCompare(s);
    var actual, loaded := ActualEdges(s), LoadedEdges(s);
    assert loaded[i].2 == "" && actual[i].2 == "None";
    forall j | 0 <= j < |s.edges| && s.edges[j].relation.Missing? ensures loaded[j].2 == "" {}
    hide ActualEdges, LoadedEdges, WellFormed;
    forall j | 0 <= j < |loaded| ensures loaded[j] != actual[i] {
      if !s.edges[j].relation.Missing? { assert loaded[j] == actual[j] && i != j; }
    }
    assert actual[i] in EdgeSet(actual) && actual[i] !in EdgeSet(loaded);
  }

  /** What acceptance is worth: an accepted file loads as the expected graph exactly when it
      is explicit, and a file that loads as the expected graph is accepted exactly then. */
  lemma AcceptedLoadsAsExpectedIff(e: Expectation, s: Snapshot)
    ensures Accepts(e, s) ==> (LoadsAsExpected(e, s) <==> Explicit(s))
    ensures LoadsAsExpected(e, s) && s.size <= READ_LIMIT ==> (Accepts(e, s) <==> Explicit(s))
  {
    if WellFormed(s) {
      if Explicit(s) {
        ExplicitNodesAgree(s);
        EdgesCompare(s);
        assert ActualEdges(s) == LoadedEdges(s) by {
          forall i | 0 <= i < |s.edges| ensures !s.edges[i].relation.Missing? { assert s.edges[i] in s.edges; }
        }
      } else if Accepts(e, s) && LoadsAsExpected(e, s) {
        if n :| n in s.nodes && n.1.NodeObject? && n.1.id.Missing? {
          ImplicitNodeUnread(s, n);
          assert false;
        } else {
          var d :| d in s.edges && d.EdgeObject? && d.relation.Missing?;
          var i :| 0 <= i < |s.edges| && s.edges[i] == d;
          ImplicitEdgeMisread(s, i);
        }
      }
    }
  }

  lemma OneItem(id: string, kind: string)
    ensures map[id := kind].Items == {(id, kind)}
  {
    PairsAreItems(map[id := kind]);
  }

  const PLAIN_NODE: (string, RawNode) := ("a", NodeObject(Chars("a"), Chars("entity"), Missing, true))

  /** An accepted file that loads with a node nobody expects: a second node object is empty. */
  lemma ExtraNodeAccepted() returns (e: Expectation, s: Snapshot)
    ensures Accepts(e, s) && Closed(e)
    ensures ("x", "") in LoadedNodes(s) && ("x", "") !in e.nodes.Items
  {
    e := Expectation(map[], {}, map["a" := "entity"], {});
    var bare := ("x", NodeObject(Missing, Missing, Missing, true));
    s := Parsed(0, [PLAIN_NODE, bare], []);
    assert s.nodes[0] == PLAIN_NODE && s.nodes[1] == bare;
    assert LoadedNode(bare) == ("x", "");
    assert PLAIN_NODE in s.nodes && bare in s.nodes;
    forall p ensures p in ActualNodes(s) <==> p == ("a", "entity") {}
    OneItem("a", "entity");
  }

  /** An accepted file that loads with another relation than the expected one: its edge has
      none, and "None" is expected. */
  lemma UnnamedRelationAccepted() returns (e: Expectation, s: Snapshot)
    ensures Accepts(e, s) && Closed(e)
    ensures LoadedEdges(s) == [("a", "a", "")] && e.edges == {("a", "a", "None")}
  {
    e := Expectation(map[], {}, map["a" := "entity"], {("a", "a", "None")});
    var edge := EdgeObject(Chars("a"), Chars("a"), Missing, true);
    s := Parsed(0, [PLAIN_NODE], [edge]);
    assert PLAIN_NODE in s.nodes && NodeIdOf("a", PLAIN_NODE.1) == "a";
    assert SnapshotIds(s.nodes) == {"a"};
    forall p ensures p in ActualNodes(s) <==> p == ("a", "entity") {}
    OneItem("a", "entity");
    assert s.edges[1..] == [] && EdgeKeysOf(s.edges) == [("a", "a", "None")];
  }

  // ----- a rebuilt artifact -----

  /** to_dict of a graph whose nodes were inserted in the given order. */
  function ToSnapshot(nodes: map<string, string>, order: seq<string>, edges: seq<EdgeKey>, size: nat): Snapshot
    requires forall i :: 0 <= i < |order| ==> order[i] in nodes
  {
    Parsed(size,
           seq(|order|, i requires 0 <= i < |order| => (order[i], NodeObject(Chars(order[i]), Chars(nodes[order[i]]), Chars(""), true))),
           seq(|edges|, i requires 0 <= i < |edges| => EdgeObject(Chars(edges[i].0), Chars(edges[i].1), Chars(edges[i].2), true)))
  }

  predicate Enumerates(order: seq<string>, ids: set<string>) {
    (forall i :: 0 <= i < |order| ==> order[i] in ids) && (set id | id in order) == ids
  }

  ghost predicate DistinctNames(order: seq<string>) {
    forall i, j :: 0 <= i < j < |order| ==> order[i] != order[j]
  }

  lemma {:induction false} EdgeKeysRoundTrip(raw: seq<RawEdge>, edges: seq<EdgeKey>)
    requires |raw| == |edges|
    requires forall i :: 0 <= i < |edges| ==> raw[i] == EdgeObject(Chars(edges[i].0), Chars(edges[i].1), Chars(edges[i].2), true)
    ensures EdgeKeysOf(raw) == edges
  {
    if raw != [] {
      EdgeKeysRoundTrip(raw[1..], edges[1..]);
      assert EdgeKeyOf(raw[0]) == edges[0];
      assert edges == [edges[0]] + edges[1..];
    }
  }

  lemma SnapshotNode(nodes: map<string, string>, order: seq<string>, edges: seq<EdgeKey>, size: nat, n: (string, RawNode))
    requires Enumerates(order, nodes.Keys) && n in ToSnapshot(nodes, order, edges, size).nodes
    ensures n.0 in nodes && n.1 == NodeObject(Chars(n.0), Chars(nodes[n.0]), Chars(""), true)
  {
    var raw := ToSnapshot(nodes, order, edges, size).nodes;
    var i :| 0 <= i < |raw| && raw[i] == n;
  }

  lemma NodeInSnapshot(nodes: map<string, string>, order: seq<string>, edges: seq<EdgeKey>, size: nat, id: string)
    requires Enumerates(order, nodes.Keys) && id in nodes
    ensures (id, NodeObject(Chars(id), Chars(nodes[id]), Chars(""), true)) in ToSnapshot(nodes, order, edges, size).nodes
  {
    assert id in set x | x in order;
    var i :| 0 <= i < |order| && order[i] == id;
    assert ToSnapshot(nodes, order, edges, size).nodes[i] == (id, NodeObject(Chars(id), Chars(nodes[id]), Chars(""), true));
  }

  lemma PairReadBack(nodes: map<string, string>, order: seq<string>, edges: seq<EdgeKey>, size: nat, p: (string, string))
    requires Enumerates(order, nodes.Keys)
    ensures p in ActualNodes(ToSnapshot(nodes, order, edges, size)) <==> p in nodes.Items
  {
    var s := ToSnapshot(nodes, order, edges, size);
    hide ToSnapshot, Enumerates;
    if p in ActualNodes(s) {
      var n :| n in s.nodes && n.1.NodeObject? && !n.1.id.Missing? && p == (Spelled(n.1.id, ""), Spelled(n.1.kind, ""));
      SnapshotNode(nodes, order, edges, size, n);
    }
    if p in nodes.Items {
      NodeInSnapshot(nodes, order, edges, size, p.0);
    }
  }

  lemma IdReadBack(nodes: map<string, string>, order: seq<string>, edges: seq<EdgeKey>, size: nat, id: string)
    requires Enumerates(order, nodes.Keys)
    ensures id in SnapshotIds(ToSnapshot(nodes, order, edges, size).nodes) <==> id in nodes
  {
    var s := ToSnapshot(nodes, order, edges, size);
    hide ToSnapshot, Enumerates;
    if id in SnapshotIds(s.nodes) {
      var n :| n in s.nodes && id == NodeIdOf(n.0, n.1);
      SnapshotNode(nodes, order, edges, size, n);
    }
    if id in nodes {
      NodeInSnapshot(nodes, order, edges, size, id);
    }
  }

  /** Reading the file back gives the typed nodes and the edge list that were written. */
  lemma SnapshotReadsBack(nodes: map<string, string>, order: seq<string>, edges: seq<EdgeKey>, size: nat)
    requires Enumerates(order, nodes.Keys)
    ensures ActualNodes(ToSnapshot(nodes, order, edges, size)) == nodes.Items
    ensures ActualEdges(ToSnapshot(nodes, order, edges, size)) == edges
    ensures SnapshotIds(ToSnapshot(nodes, order, edges, size).nodes) == nodes.Keys
    ensures Explicit(ToSnapshot(nodes, order, edges, size))
  {
    var s := ToSnapshot(nodes, order, edges, size);
    EdgeKeysRoundTrip(s.edges, edges);
    hide ToSnapshot, Enumerates, ActualNodes, SnapshotIds;
    forall p ensures p in ActualNodes(s) <==> p in nodes.Items { PairReadBack(nodes, order, edges, size, p); }
    forall id ensures id in SnapshotIds(s.nodes) <==> id in nodes { IdReadBack(nodes, order, edges, size, id); }
  }

  lemma SnapshotWellFormed(nodes: map<string, string>, order: seq<string>, edges: seq<EdgeKey>, size: nat)
    requires Enumerates(order, nodes.Keys) && DistinctNames(order) && size <= VALIDATION_LIMIT
    requires forall id :: id in nodes ==> id != ""
    requires forall k :: k in edges ==> k.0 in nodes && k.1 in nodes
    ensures WellFormed(ToSnapshot(nodes, order, edges, size))
  {
    hide ActualNodes, ActualEdges, SnapshotIds;
    var s := ToSnapshot(nodes, order, edges, size);
    SnapshotReadsBack(nodes, order, edges, size);
    forall i | 0 <= i < |s.edges| ensures EdgeOk(s.edges[i], SnapshotIds(s.nodes)) {
      assert edges[i] in edges;
    }
  }

  lemma StripNonempty(s: string)
    requires Strip(s) != ""
    ensures s != ""
  {
  }

  lemma RecordIdsNonempty(nodeId: string -> string, r: Record, id: string)
    requires forall x :: x != "" ==> nodeId(x) != ""
    requires IsEligible(r) && id in NodeIds(nodeId, r)
    ensures id != ""
  {
    hide Strip;
    if r.recordType == "fact" {
      StripNonempty(r.fields["subject"]);
      StripNonempty(r.fields["object"]);
    }
  }

  lemma NodeIdsNonempty(nodeId: string -> string, records: seq<Record>)
    requires forall x :: x != "" ==> nodeId(x) != ""
    ensures forall id :: id in AllNodeIds(nodeId, Ordered(records)) ==> id != ""
  {
    OrderedMembers(records);
    hide Ordered, IsEligible, NodeIds;
    forall r, id | r in Ordered(records) && id in NodeIds(nodeId, r) ensures id != "" {
      RecordIdsNonempty(nodeId, r, id);
    }
  }

  /** What the rebuild writes, the verifier accepts exactly when no fact name shares a node id
      with a decision. */
  lemma RebuiltArtifactAccepted(nodeId: string -> string, uuid5: string -> string, records: seq<Record>, e: Expectation,
                                order: seq<string>, edges: seq<EdgeKey>, size: nat)
    requires forall x :: x != "" ==> nodeId(x) != ""
    requires var rs := Ordered(records);
      && e.nodes == ExpectedNodes(nodeId, rs) && e.edges == EdgesOf(nodeId, rs, e.nodes.Keys)
      && Enumerates(order, BuilderNodes(nodeId, rs).Keys) && DistinctNames(order)
      && NoDuplicates(edges) && EdgeSet(edges) == EdgesOf(nodeId, rs, BuilderNodes(nodeId, rs).Keys)
    requires size <= READ_LIMIT
    ensures Closed(e)
    ensures var rs := Ordered(records);
      && (Accepts(e, ToSnapshot(BuilderNodes(nodeId, rs), order, edges, size)) <==> !Collides(nodeId, rs))
      && (LoadsAsExpected(e, ToSnapshot(BuilderNodes(nodeId, rs), order, edges, size)) <==> !Collides(nodeId, rs))
  {
    hide Ordered, EdgesOf, NodeIds, IdsOfType, AllNodeIds, Collides;
    var rs := Ordered(records);
    var nodes := BuilderNodes(nodeId, rs);
    DerivationsAgree(nodeId, records);
    ExpectationClosed(nodeId, records);
    NodeIdsNonempty(nodeId, records);
    assert nodes.Keys == AllNodeIds(nodeId, rs);
    forall k | k in edges ensures k.0 in nodes && k.1 in nodes {
      assert k in EdgeSet(edges);
    }
    SnapshotWellFormed(nodes, order, edges, size);
    SnapshotReadsBack(nodes, order, edges, size);
    AcceptedLoadsAsExpectedIff(e, ToSnapshot(nodes, order, edges, size));
    hide ToSnapshot, WellFormed, BuilderNodes, ExpectedNodes, LoadsAsExpected, Explicit;
    SameItems(nodes, e.nodes);
  }

  lemma SameItems(a: map<string, string>, b: map<string, string>)
    ensures a.Items == b.Items <==> a == b
  {
    if a.Items == b.Items {
      ItemIds(a);
      ItemIds(b);
      forall id | id in a ensures a[id] == b[id] {
        assert (id, a[id]) in a.Items;
      }
    }
  }
}
