/**
 * The four SQLite files the cleanup tool works on, the record it freezes for a
 * candidate, and the two pure tests that decide whether a run may go on.
 *
 * A digest is modelled as the value it digests, so comparing digests is comparing values.
 */
module CleanupModel {
  import opened Basics

  type Id = string

  const EVIDENCE: string := "evidence"
  const CLAIM_SPACE: string := "claim"

  /** What the digests see of a JSON column. */
  datatype JsonValue = JsonValue(pack: Option<string>, nodeId: Option<string>, rest: string)

  /** A JSON column as stored: two spellings of one value have equal digests. */
  datatype Json = Json(value: JsonValue, text: string)

  datatype RowId = RowId(n: int)

  // graph.db
  datatype NodeRow = NodeRow(nodeType: string, space: string, props: Json)
  datatype EdgeKey = EdgeKey(fromId: Id, relation: string, toId: Id)
  datatype EdgeRow = EdgeRow(fromType: string, toType: string, props: Json)
  datatype Graph = Graph(nodes: map<Id, NodeRow>, edges: map<EdgeKey, EdgeRow>)

  /** An edge as the plan records it. */
  datatype Edge = Edge(fromType: string, fromId: Id, relation: string, toType: string, toId: Id, value: JsonValue)

  // doc_store.db
  datatype Source = Source(text: string, metadata: Json)
  datatype FtsRow = FtsRow(sourceId: Id, text: string)
  datatype DocKey = DocKey(space: string, nodeId: Id)
  datatype DocRow = DocRow(nodeType: string, props: Json)
  datatype Docs = Docs(
    sources: map<Id, Source>,
    fts: map<RowId, FtsRow>,
    nodes: map<DocKey, DocRow>,
    integrity: Option<map<Id, string>>)

  // vectors.db
  datatype VectorRow = VectorRow(pack: string, document: string, metadata: Json, embedding: string)
  type Vectors = map<Id, VectorRow>

  // opencrab.db
  datatype RegNode = RegNode(space: string, nodeType: string, nodeId: Id, createdAt: string, updatedAt: string)
  datatype RegEdge = RegEdge(fromSpace: string, fromId: Id, relation: string, toSpace: string, toId: Id, createdAt: string)
  datatype Registry = Registry(nodes: map<RowId, RegNode>, edges: map<RowId, RegEdge>)

  datatype Stores = Stores(graph: Graph, docs: Docs, vectors: Vectors, registry: Registry)

  /** The four files by name. */
  datatype Db = GraphDb | DocDb | VectorDb | RegistryDb

  const ALL_DBS: set<Db> := {GraphDb, DocDb, VectorDb, RegistryDb}

  lemma AllDbs()
    ensures forall db: Db :: db in ALL_DBS
  {
    forall db: Db
      ensures db in ALL_DBS
    {
      match db {
        case GraphDb =>
        case DocDb =>
        case VectorDb =>
        case RegistryDb =>
      }
    }
  }

  /** Which records are candidates and which node types count as support. */
  datatype Selection = Selection(pack: string, nodeType: string, supportTypes: set<string>)

  const RESERVED_TYPES: set<string> := {"Document", "Claim"}

  // ------------------------------------------------------------------ reading

  function EdgeOf(k: EdgeKey, r: EdgeRow): Edge {
    Edge(r.fromType, k.fromId, k.relation, r.toType, k.toId, r.props.value)
  }

  function KeyOf(e: Edge): EdgeKey {
    EdgeKey(e.fromId, e.relation, e.toId)
  }

  predicate Touches(e: Edge, id: Id) {
    e.fromId == id || e.toId == id
  }

  predicate TouchesAny(e: Edge, ids: set<Id>) {
    e.fromId in ids || e.toId in ids
  }

  /** The stored edges, as records. */
  function Edges(g: Graph): set<Edge> {
    set k | k in g.edges :: EdgeOf(k, g.edges[k])
  }

  function Incident(g: Graph, id: Id): set<Edge> {
    set e | e in Edges(g) && Touches(e, id)
  }

  /** An edge is stored exactly when the row under its key spells it. */
  lemma StoredEdge(g: Graph, e: Edge)
    ensures e in Edges(g) <==> KeyOf(e) in g.edges && EdgeOf(KeyOf(e), g.edges[KeyOf(e)]) == e
  {
    if KeyOf(e) in g.edges && EdgeOf(KeyOf(e), g.edges[KeyOf(e)]) == e {
      assert e in Edges(g);
    }
  }

  function Lookup<K, V>(m: map<K, V>, k: K): Option<V> {
    if k in m then Some(m[k]) else None
  }

  function FtsRowsOf(d: Docs, id: Id): set<RowId> {
    set r | r in d.fts && d.fts[r].sourceId == id
  }

  function DocKeysOf(d: Docs, id: Id): set<DocKey> {
    set k | k in d.nodes && k.nodeId == id
  }

  function DocRowsOf(d: Docs, id: Id): map<DocKey, DocRow> {
    map k | k in d.nodes && k.nodeId == id :: d.nodes[k]
  }

  function RegNodesOf(r: Registry, id: Id): map<RowId, RegNode> {
    map i | i in r.nodes && r.nodes[i].nodeId == id :: r.nodes[i]
  }

  function RegEdgesOf(r: Registry, id: Id): map<RowId, RegEdge> {
    map i | i in r.edges && (r.edges[i].fromId == id || r.edges[i].toId == id) :: r.edges[i]
  }

  predicate TouchesTarget(e: RegEdge, id: Id) {
    (e.fromSpace == EVIDENCE && e.fromId == id) || (e.toSpace == EVIDENCE && e.toId == id)
  }

  predicate TouchesTargets(e: RegEdge, ids: set<Id>) {
    (e.fromSpace == EVIDENCE && e.fromId in ids) || (e.toSpace == EVIDENCE && e.toId in ids)
  }

  /** An edge names the id under another space; the snapshot refuses such a registry. */
  predicate ForeignTuple(r: Registry, id: Id) {
    exists i :: i in r.edges &&
      ((r.edges[i].fromId == id && r.edges[i].fromSpace != EVIDENCE)
       || (r.edges[i].toId == id && r.edges[i].toSpace != EVIDENCE))
  }

  // ---------------------------------------------------------------- snapshots

  /** The FTS rows of one id: how many, and with which texts. */
  datatype FtsView = FtsView(count: nat, texts: set<string>)

  datatype Snapshot = Snapshot(
    source: Option<Source>,
    fts: FtsView,
    doc: map<DocKey, DocRow>,
    graph: Option<NodeRow>,
    edges: set<Edge>,
    vector: Option<VectorRow>,
    regNodes: map<RowId, RegNode>,
    regEdges: map<RowId, RegEdge>)

  function FtsOf(d: Docs, id: Id): FtsView {
    FtsView(|FtsRowsOf(d, id)|, set r | r in d.fts && d.fts[r].sourceId == id :: d.fts[r].text)
  }

  function SnapshotOf(s: Stores, id: Id): Snapshot {
    Snapshot(
      Lookup(s.docs.sources, id),
      FtsOf(s.docs, id),
      DocRowsOf(s.docs, id),
      Lookup(s.graph.nodes, id),
      Incident(s.graph, id),
      Lookup(s.vectors, id),
      RegNodesOf(s.registry, id),
      RegEdgesOf(s.registry, id))
  }

  datatype Key = KSource | KFts | KDoc | KGraph | KEdges | KVector | KRegNode | KRegEdges

  const NO_FTS: FtsView := FtsView(0, {})

  /** The snapshot entries that are already empty; graph and edges only count together. */
  function DoneKeys(s: Snapshot): set<Key> {
    (if s.vector.None? then {KVector} else {})
    + (if s.graph.None? && s.edges == {} then {KGraph, KEdges} else {})
    + (if s.source.None? then {KSource} else {})
    + (if s.fts == NO_FTS then {KFts} else {})
    + (if s.doc == map[] then {KDoc} else {})
    + (if s.regNodes == map[] then {KRegNode} else {})
    + (if s.regEdges == map[] then {KRegEdges} else {})
  }

  /** Every entry is as recorded, or empty where that is already done, or a registry subset. */
  predicate Allowed(current: Snapshot, recorded: Snapshot, done: set<Key>) {
    && (current.source == recorded.source || (KSource in done && current.source.None?))
    && (current.fts == recorded.fts || (KFts in done && current.fts == NO_FTS))
    && (current.doc == recorded.doc || (KDoc in done && current.doc == map[]))
    && (current.graph == recorded.graph || (KGraph in done && current.graph.None?))
    && (current.edges == recorded.edges || (KEdges in done && current.edges == {}))
    && (current.vector == recorded.vector || (KVector in done && current.vector.None?))
    && Submap(current.regNodes, recorded.regNodes)
    && Submap(current.regEdges, recorded.regEdges)
  }

  /**
   * What a resume accepts, entry by entry: a source, the full text, the documents and the vector as
   * recorded or gone; the node as recorded, or gone together with every edge at it; in the registry
   * nothing but recorded rows.
   */
  ghost predicate Resumable(now: Snapshot, recorded: Snapshot) {
    && (now.source == None || now.source == recorded.source)
    && (now.fts == FtsView(0, {}) || now.fts == recorded.fts)
    && (now.doc == map[] || now.doc == recorded.doc)
    && (now.vector == None || now.vector == recorded.vector)
    && (now.graph == recorded.graph || (now.graph == None && now.edges == {}))
    && (forall i :: i in now.regNodes ==> i in recorded.regNodes && now.regNodes[i] == recorded.regNodes[i])
    && (forall i :: i in now.regEdges ==> i in recorded.regEdges && now.regEdges[i] == recorded.regEdges[i])
  }

  lemma ResumeTestExactly(now: Snapshot, recorded: Snapshot)
    ensures Allowed(now.(edges := recorded.edges), recorded, DoneKeys(now)) <==> Resumable(now, recorded)
  {
  }

  /** Every registry edge that names the id names it as evidence. */
  ghost predicate NamedAsEvidence(r: Registry, id: Id) {
    forall i :: i in r.edges ==>
      (r.edges[i].fromId == id ==> r.edges[i].fromSpace == "evidence") && (r.edges[i].toId == id ==> r.edges[i].toSpace == "evidence")
  }

  lemma ForeignTupleExactly(r: Registry, id: Id)
    ensures ForeignTuple(r, id) <==> !NamedAsEvidence(r, id)
  {
  }

  datatype Axis = VectorAxis | GraphAxis | DocumentAxis | RegistryAxis

  function TargetKeys(a: Axis): set<Key> {
    match a
    case VectorAxis => {KVector}
    case GraphAxis => {KGraph, KEdges}
    case DocumentAxis => {KSource, KFts, KDoc}
    case RegistryAxis => {KRegNode, KRegEdges}
  }

  // ------------------------------------------------------------ frozen records

  datatype Record = Record(
    id: Id,
    source: Source,
    docValue: JsonValue,
    graphValue: JsonValue,
    vector: VectorRow,
    edges: seq<Edge>,
    snapshot: Snapshot)

  function IdsOf(records: seq<Record>): set<Id> {
    set r | r in records :: r.id
  }

  /** What selection demands of a candidate before it freezes it. */
  predicate Eligible(s: Stores, sel: Selection, id: Id) {
    && id in s.docs.sources
    && s.docs.sources[id].metadata.value.pack == Some(sel.pack)
    && FtsOf(s.docs, id) == FtsView(1, {s.docs.sources[id].text})
    && DocKeysOf(s.docs, id) == {DocKey(EVIDENCE, id)}
    && s.docs.nodes[DocKey(EVIDENCE, id)].nodeType == sel.nodeType
    && s.docs.nodes[DocKey(EVIDENCE, id)].props.value.pack == Some(sel.pack)
    && id in s.graph.nodes
    && s.graph.nodes[id].nodeType == sel.nodeType
    && s.graph.nodes[id].space == EVIDENCE
    && s.graph.nodes[id].props.value.pack == Some(sel.pack)
    && id in s.vectors
    && s.vectors[id].pack == sel.pack
    && s.vectors[id].metadata.value.pack == Some(sel.pack)
    && s.vectors[id].metadata.value.nodeId in {None, Some(id)}
    && |RegNodesOf(s.registry, id)| == 1
    && (forall i :: i in s.registry.nodes && s.registry.nodes[i].nodeId == id
          ==> s.registry.nodes[i].space == EVIDENCE && s.registry.nodes[i].nodeType == sel.nodeType)
    && !ForeignTuple(s.registry, id)
  }

  /** Exactly one row of the full-text index is the id's, and it holds the text. */
  ghost predicate IndexedOnce(d: Docs, id: Id, text: string) {
    exists r :: r in d.fts && d.fts[r] == FtsRow(id, text) && forall q :: q in d.fts && q != r ==> d.fts[q].sourceId != id
  }

  /** The id has a document, and only in the evidence space. */
  ghost predicate OnlyEvidence(d: Docs, id: Id) {
    DocKey("evidence", id) in d.nodes && forall k :: k in d.nodes && k.nodeId == id ==> k.space == "evidence"
  }

  /** Exactly one node of the registry is the id's, of the evidence space and of the type. */
  ghost predicate RegisteredOnce(r: Registry, nodeType: string, id: Id) {
    exists i :: i in r.nodes && r.nodes[i].nodeId == id && r.nodes[i].space == "evidence" && r.nodes[i].nodeType == nodeType
      && forall j :: j in r.nodes && j != i ==> r.nodes[j].nodeId != id
  }

  /** The rows of a candidate: one of each kind, all of the pack, the type and the evidence space. */
  ghost predicate CandidateRows(s: Stores, sel: Selection, id: Id) {
    && id in s.docs.sources && s.docs.sources[id].metadata.value.pack == Some(sel.pack)
    && IndexedOnce(s.docs, id, s.docs.sources[id].text)
    && OnlyEvidence(s.docs, id)
    && s.docs.nodes[DocKey("evidence", id)].nodeType == sel.nodeType
    && s.docs.nodes[DocKey("evidence", id)].props.value.pack == Some(sel.pack)
    && id in s.graph.nodes && s.graph.nodes[id].nodeType == sel.nodeType
    && s.graph.nodes[id].space == "evidence" && s.graph.nodes[id].props.value.pack == Some(sel.pack)
    && id in s.vectors && s.vectors[id].pack == sel.pack && s.vectors[id].metadata.value.pack == Some(sel.pack)
    && (s.vectors[id].metadata.value.nodeId == None || s.vectors[id].metadata.value.nodeId == Some(id))
    && RegisteredOnce(s.registry, sel.nodeType, id)
    && NamedAsEvidence(s.registry, id)
  }

  lemma OneMember<T>(s: set<T>)
    ensures |s| == 1 <==> exists x :: x in s && forall y :: y in s ==> y == x
  {
    if |s| == 1 {
      var x :| x in s;
      assert |s - {x}| == 0;
      assert forall y :: y in s ==> y in s - {x} || y == x;
    }
    if x :| x in s && forall y :: y in s ==> y == x { assert s == {x}; }
  }

  lemma OneFtsRow(d: Docs, id: Id, text: string)
    ensures FtsOf(d, id) == FtsView(1, {text}) <==> IndexedOnce(d, id, text)
  {
    OneMember(FtsRowsOf(d, id));
    if FtsOf(d, id) == FtsView(1, {text}) {
      var r :| r in FtsRowsOf(d, id) && forall q :: q in FtsRowsOf(d, id) ==> q == r;
      assert d.fts[r].text in FtsOf(d, id).texts;
      forall q | q in d.fts && q != r
        ensures d.fts[q].sourceId != id
      {
        assert q !in FtsRowsOf(d, id);
      }
      assert d.fts[r] == FtsRow(id, text);
    }
    if r :| r in d.fts && d.fts[r] == FtsRow(id, text) && forall q :: q in d.fts && q != r ==> d.fts[q].sourceId != id {
      assert FtsRowsOf(d, id) == {r};
      assert FtsOf(d, id).texts == {text};
    }
  }

  lemma OneRegistryNode(r: Registry, nodeType: string, id: Id)
    ensures |RegNodesOf(r, id)| == 1
        && (forall i :: i in r.nodes && r.nodes[i].nodeId == id ==> r.nodes[i].space == EVIDENCE && r.nodes[i].nodeType == nodeType)
      <==> RegisteredOnce(r, nodeType, id)
  {
    var rows := RegNodesOf(r, id);
    assert |rows| == |rows.Keys|;
    OneMember(rows.Keys);
    if |rows| == 1 {
      var i :| i in rows.Keys && forall j :: j in rows.Keys ==> j == i;
      forall j | j in r.nodes && j != i
        ensures r.nodes[j].nodeId != id
      {
        assert j !in rows.Keys;
      }
    }
    if i :| i in r.nodes && r.nodes[i].nodeId == id && forall j :: j in r.nodes && j != i ==> r.nodes[j].nodeId != id {
      assert rows.Keys == {i};
    }
  }

  lemma OneDocument(d: Docs, id: Id)
    ensures DocKeysOf(d, id) == {DocKey(EVIDENCE, id)} <==> OnlyEvidence(d, id)
  {
    if DocKeysOf(d, id) == {DocKey(EVIDENCE, id)} {
      assert DocKey(EVIDENCE, id) in DocKeysOf(d, id);
      forall k | k in d.nodes && k.nodeId == id
        ensures k.space == "evidence"
      {
        assert k in DocKeysOf(d, id);
      }
    }
    if DocKey("evidence", id) in d.nodes && forall k :: k in d.nodes && k.nodeId == id ==> k.space == "evidence" {
      forall k | k in DocKeysOf(d, id)
        ensures k == DocKey(EVIDENCE, id)
      {
        assert k == DocKey(k.space, k.nodeId);
      }
    }
  }

  /** Selection accepts a candidate exactly if its rows are there, once each, and nothing foreign names it. */
  lemma EligibleByRows(s: Stores, sel: Selection, id: Id)
    ensures Eligible(s, sel, id) <==> CandidateRows(s, sel, id)
  {
    hide FtsOf, RegNodesOf, DocKeysOf, ForeignTuple, NamedAsEvidence, IndexedOnce, OnlyEvidence, RegisteredOnce;
    if id in s.docs.sources { OneFtsRow(s.docs, id, s.docs.sources[id].text); }
    OneRegistryNode(s.registry, sel.nodeType, id);
    OneDocument(s.docs, id);
    ForeignTupleExactly(s.registry, id);
  }

  /** The record select writes for an eligible candidate. */
  ghost predicate FrozenRecord(s: Stores, sel: Selection, rec: Record) {
    && Eligible(s, sel, rec.id)
    && rec.source == s.docs.sources[rec.id]
    && rec.docValue == s.docs.nodes[DocKey(EVIDENCE, rec.id)].props.value
    && rec.graphValue == s.graph.nodes[rec.id].props.value
    && rec.vector == s.vectors[rec.id]
    && Elements(rec.edges) == Incident(s.graph, rec.id)
    && Distinct(rec.edges)
    && rec.snapshot == SnapshotOf(s, rec.id)
  }
}
