/** Canonical rows, and the node, edge and vector identities they imply. */
module ProjectionRecords {
  import opened Options
  import opened Text
  import opened Ordering
  import opened Dedup

  /** A canonical row; a field that is absent or no string is not in `fields`. */
  datatype Record = Record(recordType: string, recordId: string, lifecycle: string, fields: map<string, string>,
                           steps: Option<seq<Option<string>>>)

  type EdgeKey = (string, string, string)

  datatype Expectation = Expectation(counts: map<string, nat>, vectorIds: set<string>, nodes: map<string, string>,
                                     edges: set<EdgeKey>)

  // ----- eligibility and order -----

  predicate Nonblank(r: Record, key: string) {
    key in r.fields && Strip(r.fields[key]) != ""
  }

  predicate ValidSteps(steps: Option<seq<Option<string>>>) {
    && steps.Some? && steps.value != []
    && forall i :: 0 <= i < |steps.value| ==> steps.value[i].Some? && Strip(steps.value[i].value) != ""
  }

  /** is_eligible */
  predicate IsEligible(r: Record) {
    if r.recordType == "belief" then r.lifecycle == "active" && Nonblank(r, "proposition")
    else if r.recordType == "fact" then
      IsActive(r.lifecycle) && Nonblank(r, "subject") && Nonblank(r, "predicate") && Nonblank(r, "object")
    else if r.recordType == "decision" then
      IsActive(r.lifecycle) && Nonblank(r, "choice") && Nonblank(r, "reason") && Nonblank(r, "context")
    else if r.recordType == "skill" then IsActive(r.lifecycle) && Nonblank(r, "purpose") && ValidSteps(r.steps)
    else false
  }

  function RecordKey(r: Record): Key {
    [Str(r.recordType), Str(r.recordId)]
  }

  function Eligible(rs: seq<Record>): seq<Record> {
    if rs == [] then []
    else Eligible(rs[..|rs| - 1]) + if IsEligible(rs[|rs| - 1]) then [rs[|rs| - 1]] else []
  }

  /** The eligible records by type and id. */
  function Ordered(rs: seq<Record>): seq<Record> {
    SortBy(Eligible(rs), RecordKey, false)
  }

  lemma {:induction false} EligibleMembers(rs: seq<Record>)
    ensures forall r :: r in Eligible(rs) <==> r in rs && IsEligible(r)
  {
    hide IsEligible;
    if rs != [] {
      EligibleMembers(rs[..|rs| - 1]);
      assert rs == rs[..|rs| - 1] + [rs[|rs| - 1]];
    }
  }

  lemma OrderedMembers(rs: seq<Record>)
    ensures forall r :: r in Ordered(rs) <==> r in rs && IsEligible(r)
    ensures forall i, j :: 0 <= i < j < |Ordered(rs)| ==>
      var a, b := Ordered(rs)[i], Ordered(rs)[j];
      Before(a.recordType, b.recordType) || (a.recordType == b.recordType && !Before(b.recordId, a.recordId))
  {
    hide IsEligible, Less, RecordKey;
    var s := Ordered(rs);
    EligibleMembers(rs);
    SortBySorts(Eligible(rs), RecordKey, false);
    forall r ensures r in s <==> r in Eligible(rs) {
      assert r in multiset(s) <==> r in multiset(Eligible(rs));
    }
    forall i, j | 0 <= i < j < |s|
      ensures Before(s[i].recordType, s[j].recordType) || (s[i].recordType == s[j].recordType && !Before(s[j].recordId, s[i].recordId))
    {
      assert !Less(RecordKey(s[j]), RecordKey(s[i]));
      RecordKeyMeans(s[j], s[i]);
      BeforeTotal(s[j].recordType, s[i].recordType);
    }
  }

  lemma TypesAscend(rs: seq<Record>)
    ensures forall i, j :: 0 <= i < j < |Ordered(rs)| ==> !Before(Ordered(rs)[j].recordType, Ordered(rs)[i].recordType)
  {
    OrderedMembers(rs);
    hide Ordered;
    forall i, j | 0 <= i < j < |Ordered(rs)| ensures !Before(Ordered(rs)[j].recordType, Ordered(rs)[i].recordType) {
      BeforeTotal(Ordered(rs)[i].recordType, Ordered(rs)[j].recordType);
    }
  }

  lemma RecordKeyMeans(a: Record, b: Record)
    ensures Less(RecordKey(a), RecordKey(b)) <==> if a.recordType != b.recordType then Before(a.recordType, b.recordType) else Before(a.recordId, b.recordId)
  {
    var x, y := Str(a.recordType), Str(b.recordType);
    assert RecordKey(a) == [x] + [Str(a.recordId)] && RecordKey(b) == [y] + [Str(b.recordId)];
    LessCons(x, [Str(a.recordId)], y, [Str(b.recordId)]);
    LessStr(a.recordId, b.recordId);
    hide Less;
  }

  // ----- node and edge identities -----

  function Field(r: Record, key: string): string {
    if key in r.fields then r.fields[key] else ""
  }

  /** The ids of the nodes a record implies. */
  function NodeIds(nodeId: string -> string, r: Record): set<string> {
    if r.recordType == "fact" then {nodeId(Field(r, "subject")), nodeId(Field(r, "object"))}
    else if r.recordType == "decision" then {nodeId("decision-" + Field(r, "choice"))}
    else if r.recordType == "skill" then {nodeId("skill-" + Field(r, "purpose"))}
    else {}
  }

  function IdsOfType(nodeId: string -> string, rs: seq<Record>, t: string): set<string> {
    set r, id | r in rs && r.recordType == t && id in NodeIds(nodeId, r) :: id
  }

  function AllNodeIds(nodeId: string -> string, rs: seq<Record>): set<string> {
    IdsOfType(nodeId, rs, "fact") + IdsOfType(nodeId, rs, "decision") + IdsOfType(nodeId, rs, "skill")
  }

  function FactEdge(nodeId: string -> string, r: Record): EdgeKey {
    (nodeId(Field(r, "subject")), nodeId(Field(r, "object")), Field(r, "predicate"))
  }

  function DecisionEdge(nodeId: string -> string, r: Record): EdgeKey {
    (nodeId("decision-" + Field(r, "choice")), nodeId(Field(r, "context")), "decides")
  }

  /** The edges implied by `rs`, a decision's only if its context is one of `targets`. */
  function EdgesOf(nodeId: string -> string, rs: seq<Record>, targets: set<string>): set<EdgeKey> {
    (set r | r in rs && r.recordType == "fact" :: FactEdge(nodeId, r)) +
    (set r | r in rs && r.recordType == "decision" && DecisionEdge(nodeId, r).1 in targets :: DecisionEdge(nodeId, r))
  }

  /** Facts name their nodes first, then decisions, then skills. */
  function BuilderNodes(nodeId: string -> string, rs: seq<Record>): map<string, string> {
    map id | id in AllNodeIds(nodeId, rs) ::
      if id in IdsOfType(nodeId, rs, "fact") then "entity"
      else if id in IdsOfType(nodeId, rs, "decision") then "decision"
      else "skill"
  }

  /** Ids typed as decisions first, then as facts, then as skills. */
  function Typed(f: set<string>, d: set<string>, s: set<string>): map<string, string> {
    map id | id in f + d + s :: if id in d then "decision" else if id in f then "entity" else "skill"
  }

  /** Decisions name their nodes first: "decision" sorts before "fact". */
  function ExpectedNodes(nodeId: string -> string, rs: seq<Record>): map<string, string> {
    Typed(IdsOfType(nodeId, rs, "fact"), IdsOfType(nodeId, rs, "decision"), IdsOfType(nodeId, rs, "skill"))
  }

  lemma NodesPresent(nodeId: string -> string, rs: seq<Record>, r: Record)
    requires r in rs && (r.recordType == "fact" || r.recordType == "decision" || r.recordType == "skill")
    ensures NodeIds(nodeId, r) <= AllNodeIds(nodeId, rs)
  {
    forall id | id in NodeIds(nodeId, r) ensures id in IdsOfType(nodeId, rs, r.recordType) {
    }
  }

  // ----- vectors and counts -----

  function VectorId(uuid5: string -> string, r: Record): string {
    uuid5(r.recordType + ":" + r.recordId)
  }

  function VectorIds(uuid5: string -> string, rs: seq<Record>): set<string> {
    set r | r in rs && (r.recordType == "fact" || r.recordType == "belief") :: VectorId(uuid5, r)
  }

  function CountOf(rs: seq<Record>, t: string): nat {
    if rs == [] then 0
    else CountOf(rs[..|rs| - 1], t) + if rs[|rs| - 1].recordType == t then 1 else 0
  }
}
