/**
 * The nine protection sections as the tool really stores them: as hashes of streaming
 * scans. Deletes of candidate rows leave every one of the nine hashes as it was.
 */
module HashedSections {
  import opened Basics
  import opened CleanupModel
  import opened Protection
  import opened SectionHashing

  /** One row digest per section. */
  datatype Digests = Digests(
    nodes: NodeItem -> nat,
    raw: ((Id, NodeRow)) -> nat,
    edges: Edge -> nat,
    doc: ((DocKey, DocRow)) -> nat,
    source: ((Id, Source)) -> nat,
    vector: ((Id, VectorRow)) -> nat,
    registryNodes: ((RowId, RegNode)) -> nat,
    registryEdges: ((RowId, RegEdge)) -> nat)

  /** The rows of each section in the order one set of scans met them. */
  datatype Scans = Scans(
    nodes: seq<NodeItem>,
    evidenceGraph: seq<NodeItem>,
    evidenceGraphRaw: seq<(Id, NodeRow)>,
    edges: seq<Edge>,
    evidenceDoc: seq<(DocKey, DocRow)>,
    evidenceSource: seq<(Id, Source)>,
    evidenceVector: seq<(Id, VectorRow)>,
    registryNodes: seq<(RowId, RegNode)>,
    registryEdges: seq<(RowId, RegEdge)>)

  ghost predicate ScanOf<T>(scan: seq<T>, rows: set<T>) {
    Distinct(scan) && Elements(scan) == rows
  }

  ghost predicate ScansOf(scans: Scans, s: Sections) {
    match s
    case Sections(nodes, evidence, raw, edges, doc, source, vector, registryNodes, registryEdges) =>
      && ScanOf(scans.nodes, nodes) && ScanOf(scans.evidenceGraph, evidence) && ScanOf(scans.evidenceGraphRaw, raw)
      && ScanOf(scans.edges, edges) && ScanOf(scans.evidenceDoc, doc) && ScanOf(scans.evidenceSource, source)
      && ScanOf(scans.evidenceVector, vector) && ScanOf(scans.registryNodes, registryNodes)
      && ScanOf(scans.registryEdges, registryEdges)
  }

  lemma {:induction false} SomeScan<T>(rows: set<T>) returns (scan: seq<T>)
    ensures ScanOf(scan, rows)
  {
    scan := [];
    if rows != {} {
      var row :| row in rows;
      var rest := SomeScan(rows - {row});
      assert forall i :: 0 <= i < |rest| ==> rest[i] in Elements(rest);
      scan := rest + [row];
      assert Elements(scan) == Elements(rest) + {row};
    }
  }

  /** Every state of the sections can be scanned. */
  lemma SomeScans(s: Sections) returns (scans: Scans)
    ensures ScansOf(scans, s)
  {
    var nodes := SomeScan(s.nodes);
    var evidence := SomeScan(s.evidenceGraph);
    var raw := SomeScan(s.evidenceGraphRaw);
    var edges := SomeScan(s.edges);
    var doc := SomeScan(s.evidenceDoc);
    var source := SomeScan(s.evidenceSource);
    var vector := SomeScan(s.evidenceVector);
    var registryNodes := SomeScan(s.registryNodes);
    var registryEdges := SomeScan(s.registryEdges);
    scans := Scans(nodes, evidence, raw, edges, doc, source, vector, registryNodes, registryEdges);
  }

  /** The nine (count, sum) pairs in manifest order. */
  function SectionHashes(d: Digests, scans: Scans): seq<Hash> {
    [ HashOf(d.nodes, scans.nodes), HashOf(d.nodes, scans.evidenceGraph), HashOf(d.raw, scans.evidenceGraphRaw),
      HashOf(d.edges, scans.edges), HashOf(d.doc, scans.evidenceDoc), HashOf(d.source, scans.evidenceSource),
      HashOf(d.vector, scans.evidenceVector), HashOf(d.registryNodes, scans.registryNodes),
      HashOf(d.registryEdges, scans.registryEdges) ]
  }

  lemma SameSectionsSameHashes(d: Digests, a: Scans, b: Scans, s: Sections)
    requires ScansOf(a, s) && ScansOf(b, s)
    ensures SectionHashes(d, a) == SectionHashes(d, b)
  {
    SameRowsSameHash(d.nodes, a.nodes, b.nodes);
    SameRowsSameHash(d.nodes, a.evidenceGraph, b.evidenceGraph);
    SameRowsSameHash(d.raw, a.evidenceGraphRaw, b.evidenceGraphRaw);
    SameRowsSameHash(d.edges, a.edges, b.edges);
    SameRowsSameHash(d.doc, a.evidenceDoc, b.evidenceDoc);
    SameRowsSameHash(d.source, a.evidenceSource, b.evidenceSource);
    SameRowsSameHash(d.vector, a.evidenceVector, b.evidenceVector);
    SameRowsSameHash(d.registryNodes, a.registryNodes, b.registryNodes);
    SameRowsSameHash(d.registryEdges, a.registryEdges, b.registryEdges);
  }

  /** Scan before, delete candidate rows, scan again in any order: the nine hashes agree. */
  lemma HashesSurviveDeletes(d: Digests, s: Stores, s': Stores, sel: Selection, ids: set<Id>, before: Scans, after: Scans)
    requires Shrinks(s, s', sel, ids) && sel.nodeType !in RESERVED_TYPES
    requires ScansOf(before, SectionsOf(s, sel, ids)) && ScansOf(after, SectionsOf(s', sel, ids))
    ensures SectionHashes(d, before) == SectionHashes(d, after)
  {
    SectionsSurvive(s, s', sel, ids);
    SameSectionsSameHashes(d, before, after, SectionsOf(s, sel, ids));
  }
}
