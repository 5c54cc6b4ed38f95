/**
 * The four delete transactions. Each has a pure meaning (Tx..., None when the transaction
 * refuses and rolls back) and the step-by-step method over the open data set that is
 * proved against it. Every commit is one assignment of a whole file.
 */
module Transactions {
  import opened Basics
  import opened CleanupModel
  import opened EdgeIntent
  import opened Protection

  // -------------------------------------------------------------------- vector

  function TxVector(v: Vectors, rec: Record): Option<Vectors> {
    if rec.id in v && v[rec.id] == rec.vector then Some(v - {rec.id}) else None
  }

  // --------------------------------------------------------------------- graph

  predicate NodeCas(g: Graph, rec: Record, sel: Selection) {
    && rec.id in g.nodes
    && g.nodes[rec.id].nodeType == sel.nodeType
    && g.nodes[rec.id].space == EVIDENCE
    && g.nodes[rec.id].props.value == rec.graphValue
  }

  /** Every recorded edge is approved for deletion and is stored as recorded or not at all. */
  predicate EdgeCas(g: Graph, rec: Record, intent: Intent) {
    forall e :: e in rec.edges ==>
      && (e in intent.component || e in Approved(intent.boundary))
      && (KeyOf(e) in g.edges ==> EdgeOf(KeyOf(e), g.edges[KeyOf(e)]) == e)
  }

  function Keys(edges: seq<Edge>): set<EdgeKey> {
    set e | e in edges :: KeyOf(e)
  }

  function GraphAfter(g: Graph, rec: Record): Graph {
    Graph(g.nodes - {rec.id}, g.edges - Keys(rec.edges))
  }

  /** The post-state checks made before the commit. */
  predicate GraphPost(g: Graph, g': Graph, ids: set<Id>, rec: Record, intent: Intent) {
    && IntentHoldsFor(g', ids, intent, rec.id)
    && Touching(ComponentStored(g', ids), rec.id) == Touching(ComponentStored(g, ids), rec.id) - Elements(rec.edges)
    && Touching(BoundaryStored(g', ids), rec.id) == Touching(BoundaryStored(g, ids), rec.id) - Elements(rec.edges)
  }

  function TxGraph(s: Stores, rec: Record, plan: Plan, intent: Intent, remembered: bool): Option<Graph> {
    if && NodeCas(s.graph, rec, plan.sel)
       && IntentHoldsFor(s.graph, plan.Ids(), intent, rec.id)
       && EdgeCas(s.graph, rec, intent)
       && (remembered || ProjectedFor(s, plan, Elements(rec.edges), {rec.id}))
       && GraphPost(s.graph, GraphAfter(s.graph, rec), plan.Ids(), rec, intent)
    then Some(GraphAfter(s.graph, rec)) else None
  }

  // ------------------------------------------------------------------ document

  /** The doc_nodes row a fetch by id returns: none, or one of the rows of that id. */
  predicate FetchedRow(d: Docs, id: Id, row: Option<DocKey>) {
    match row
    case None => DocKeysOf(d, id) == {}
    case Some(k) => k in DocKeysOf(d, id)
  }

  predicate DocsCas(d: Docs, rec: Record, sel: Selection, row: Option<DocKey>)
    requires FetchedRow(d, rec.id, row)
  {
    && (rec.id in d.sources ==> d.sources[rec.id] == rec.source)
    && (FtsRowsOf(d, rec.id) != {} ==> FtsOf(d, rec.id) == FtsView(1, rec.snapshot.fts.texts))
    && (row.Some? ==> row.value.space == EVIDENCE && d.nodes[row.value].nodeType == sel.nodeType
                      && d.nodes[row.value].props.value == rec.docValue)
  }

  function DocsAfter(d: Docs, id: Id, row: Option<DocKey>): Docs {
    Docs(
      d.sources - {id},
      d.fts - FtsRowsOf(d, id),
      if row.Some? then d.nodes - {row.value} else d.nodes,
      if d.integrity.Some? then Some(d.integrity.value - {id}) else None)
  }

  function TxDocs(d: Docs, rec: Record, sel: Selection, row: Option<DocKey>): Option<Docs>
    requires FetchedRow(d, rec.id, row)
  {
    if DocsCas(d, rec, sel, row) then Some(DocsAfter(d, rec.id, row)) else None
  }

  // ------------------------------------------------------------------ registry

  function TargetEdges(r: Registry, id: Id): map<RowId, RegEdge> {
    map i | i in r.edges && TouchesTarget(r.edges[i], id) :: r.edges[i]
  }

  predicate RegistryCas(r: Registry, rec: Record) {
    && Submap(RegNodesOf(r, rec.id), rec.snapshot.regNodes)
    && Submap(TargetEdges(r, rec.id), rec.snapshot.regEdges)
    && RegEdgesOf(r, rec.id).Keys == TargetEdges(r, rec.id).Keys
  }

  function RegistryAfter(r: Registry, id: Id): Registry {
    Registry(r.nodes - RegNodesOf(r, id).Keys, r.edges - TargetEdges(r, id).Keys)
  }

  function TxRegistry(s: Stores, rec: Record, plan: Plan, remembered: bool): Option<Registry> {
    if (remembered || RegistryGlobal(s, plan)) && RegistryCas(s.registry, rec)
    then Some(RegistryAfter(s.registry, rec.id)) else None
  }

  // --------------------------------------------------- what a commit takes away

  lemma VectorTxShrinks(s: Stores, rec: Record, plan: Plan)
    requires rec in plan.records && TxVector(s.vectors, rec).Some?
    ensures Shrinks(s, s.(vectors := TxVector(s.vectors, rec).value), plan.sel, plan.Ids())
  {
  }

  lemma GraphTxShrinks(s: Stores, rec: Record, plan: Plan, intent: Intent, remembered: bool)
    requires rec in plan.records && CleanPlan(plan)
    requires TxGraph(s, rec, plan, intent, remembered).Some?
    ensures Shrinks(s, s.(graph := TxGraph(s, rec, plan, intent, remembered).value), plan.sel, plan.Ids())
  {
    forall k | k in Keys(rec.edges)
      ensures k.fromId in plan.Ids() || k.toId in plan.Ids()
    {
      var e :| e in rec.edges && KeyOf(e) == k;
      assert Touches(e, rec.id);
    }
  }

  lemma DocsTxShrinks(s: Stores, rec: Record, plan: Plan, row: Option<DocKey>)
    requires rec in plan.records && FetchedRow(s.docs, rec.id, row) && TxDocs(s.docs, rec, plan.sel, row).Some?
    ensures Shrinks(s, s.(docs := TxDocs(s.docs, rec, plan.sel, row).value), plan.sel, plan.Ids())
  {
  }

  lemma RegistryTxShrinks(s: Stores, rec: Record, plan: Plan, remembered: bool)
    requires rec in plan.records && CleanPlan(plan) && TxRegistry(s, rec, plan, remembered).Some?
    ensures Shrinks(s, s.(registry := TxRegistry(s, rec, plan, remembered).value), plan.sel, plan.Ids())
  {
  }

  // -------------------------------------------- compare and set, store by store

  /** Whatever others have written, a commit removes a row only if it is still the frozen one. */
  lemma VectorDeletesFrozenRows(v: Vectors, rec: Record)
    requires TxVector(v, rec).Some?
    ensures var v' := TxVector(v, rec).value;
      && Submap(v', v) && rec.id !in v'
      && forall id :: id in v && id !in v' ==> id == rec.id && v[id] == rec.vector
  {
  }

  lemma GraphDeletesFrozenRows(s: Stores, rec: Record, plan: Plan, intent: Intent, remembered: bool)
    requires TxGraph(s, rec, plan, intent, remembered).Some?
    ensures var g, g' := s.graph, TxGraph(s, rec, plan, intent, remembered).value;
      && Submap(g'.nodes, g.nodes) && Submap(g'.edges, g.edges)
      && (forall id :: id in g.nodes && id !in g'.nodes ==>
            id == rec.id && g.nodes[id].nodeType == plan.sel.nodeType && g.nodes[id].space == EVIDENCE && g.nodes[id].props.value == rec.graphValue)
      && (forall k :: k in g.edges && k !in g'.edges ==>
            var e := EdgeOf(k, g.edges[k]);
            e in rec.edges && (e in intent.component || (e in intent.boundary && intent.boundary[e].deletionTarget)))
  {
    var g, g' := s.graph, TxGraph(s, rec, plan, intent, remembered).value;
    forall k | k in g.edges && k !in g'.edges
      ensures EdgeOf(k, g.edges[k]) in rec.edges && (EdgeOf(k, g.edges[k]) in intent.component || EdgeOf(k, g.edges[k]) in Approved(intent.boundary))
    {
      var e :| e in rec.edges && KeyOf(e) == k;
      assert EdgeOf(KeyOf(e), g.edges[KeyOf(e)]) == e;
    }
  }

  lemma DocsDeleteFrozenRows(d: Docs, rec: Record, sel: Selection, row: Option<DocKey>)
    requires FetchedRow(d, rec.id, row) && TxDocs(d, rec, sel, row).Some?
    ensures var d' := TxDocs(d, rec, sel, row).value;
      && Submap(d'.sources, d.sources) && Submap(d'.fts, d.fts) && Submap(d'.nodes, d.nodes)
      && (forall id :: id in d.sources && id !in d'.sources ==> id == rec.id && d.sources[id] == rec.source)
      && (forall r :: r in d.fts && r !in d'.fts ==> d.fts[r].sourceId == rec.id && d.fts[r].text in rec.snapshot.fts.texts)
      && (forall k :: k in d.nodes && k !in d'.nodes ==>
            k == DocKey(EVIDENCE, rec.id) && d.nodes[k].nodeType == sel.nodeType && d.nodes[k].props.value == rec.docValue)
      && rec.id !in d'.sources && FtsRowsOf(d', rec.id) == {}
  {
    var d' := TxDocs(d, rec, sel, row).value;
    forall r | r in d.fts && r !in d'.fts
      ensures d.fts[r].sourceId == rec.id && d.fts[r].text in rec.snapshot.fts.texts
    {
      assert r in FtsRowsOf(d, rec.id);
      assert d.fts[r].text in FtsOf(d, rec.id).texts;
    }
  }

  lemma RegistryDeletesFrozenRows(s: Stores, rec: Record, plan: Plan, remembered: bool)
    requires TxRegistry(s, rec, plan, remembered).Some?
    ensures var r, r' := s.registry, TxRegistry(s, rec, plan, remembered).value;
      && Submap(r'.nodes, r.nodes) && Submap(r'.edges, r.edges)
      && (forall i :: i in r.nodes && i !in r'.nodes ==>
            r.nodes[i].nodeId == rec.id && i in rec.snapshot.regNodes && r.nodes[i] == rec.snapshot.regNodes[i])
      && (forall i :: i in r.edges && i !in r'.edges ==> i in rec.snapshot.regEdges && r.edges[i] == rec.snapshot.regEdges[i])
      && RegNodesOf(r', rec.id) == map[] && RegEdgesOf(r', rec.id) == map[]
  {
    var r, r' := s.registry, TxRegistry(s, rec, plan, remembered).value;
    forall i | i in r.nodes && i !in r'.nodes
      ensures i in rec.snapshot.regNodes && r.nodes[i] == rec.snapshot.regNodes[i]
    {
      assert i in RegNodesOf(r, rec.id);
    }
    forall i | i in r.edges && i !in r'.edges
      ensures i in rec.snapshot.regEdges && r.edges[i] == rec.snapshot.regEdges[i]
    {
      assert i in TargetEdges(r, rec.id);
    }
    forall i | i in r'.edges
      ensures r'.edges[i].fromId != rec.id && r'.edges[i].toId != rec.id
    {
      assert i in RegEdgesOf(r, rec.id) ==> i in TargetEdges(r, rec.id);
    }
  }

  /**
   * With an intent that files no edge twice, as every valid one, the checks made after the deletes
   * and before the commit never refuse: where the earlier ones passed, exactly the recorded edges are
   * gone and the rule still holds.
   */
  lemma PostChecksNeverRefuse(g: Graph, rec: Record, ids: set<Id>, intent: Intent)
    requires IntentHoldsFor(g, ids, intent, rec.id) && EdgeCas(g, rec, intent) && intent.component.Keys !! intent.boundary.Keys
    ensures GraphPost(g, GraphAfter(g, rec), ids, rec, intent)
  {
    var g' := GraphAfter(g, rec);
    forall e
      ensures e in Edges(g') <==> e in Edges(g) && e !in rec.edges
    {
      StoredEdge(g, e);
      StoredEdge(g', e);
      if e in Edges(g) && KeyOf(e) in Keys(rec.edges) {
        var r :| r in rec.edges && KeyOf(r) == KeyOf(e);
        assert EdgeOf(KeyOf(r), g.edges[KeyOf(r)]) == r;
      }
    }
    hide Edges, EdgeCas;
    assert Touching(ComponentStored(g', ids), rec.id) == Touching(ComponentStored(g, ids), rec.id) - Elements(rec.edges);
    assert Touching(BoundaryStored(g', ids), rec.id) == Touching(BoundaryStored(g, ids), rec.id) - Elements(rec.edges);
    assert EdgeCas(g, rec, intent);
    ApprovedMayGo(g, g', ids, rec, intent);
  }

  lemma ApprovedMayGo(g: Graph, g': Graph, ids: set<Id>, rec: Record, intent: Intent)
    requires IntentHoldsFor(g, ids, intent, rec.id) && EdgeCas(g, rec, intent) && intent.component.Keys !! intent.boundary.Keys
    requires Touching(ComponentStored(g', ids), rec.id) == Touching(ComponentStored(g, ids), rec.id) - Elements(rec.edges)
    requires Touching(BoundaryStored(g', ids), rec.id) == Touching(BoundaryStored(g, ids), rec.id) - Elements(rec.edges)
    ensures IntentHoldsFor(g', ids, intent, rec.id)
  {
    hide ComponentStored, BoundaryStored;
  }

  /** After a candidate's graph commit no stored edge touches it, even with foreign rows around. */
  lemma GraphCommitClears(s: Stores, rec: Record, plan: Plan, intent: Intent, remembered: bool)
    requires rec in plan.records && CleanPlan(plan) && ValidIntent(intent, plan.records)
    requires forall r, e :: r in plan.records && e in r.edges && Touches(e, rec.id) ==> e in rec.edges
    requires TxGraph(s, rec, plan, intent, remembered).Some?
    ensures Incident(TxGraph(s, rec, plan, intent, remembered).value, rec.id) == {}
  {
    ScopedIsUpperBound(s.graph, plan.records, intent, rec.id);
    var g' := TxGraph(s, rec, plan, intent, remembered).value;
    forall e | e in Edges(g')
      ensures !Touches(e, rec.id)
    {
      StoredEdge(g', e);
      StoredEdge(s.graph, e);
      assert e in Incident(s.graph, rec.id) ==> KeyOf(e) in Keys(rec.edges);
    }
  }

  // ---------------------------------------------------------- the open data set

  /** One DELETE per row id; every row must still be there to be deleted. */
  method DeleteRows<V>(rows: map<RowId, V>, ids: set<RowId>) returns (left: map<RowId, V>)
    requires ids <= rows.Keys
    ensures left == rows - ids
  {
    left := rows;
    var todo := ids;
    while todo != {}
      invariant todo <= ids
      invariant left == rows - (ids - todo)
    {
      var i :| i in todo;
      left, todo := left - {i}, todo - {i};
    }
  }

  class DataSet {
    var graph: Graph
    var docs: Docs
    var vectors: Vectors
    var registry: Registry

    constructor (s: Stores)
      ensures View() == s
    {
      graph, docs, vectors, registry := s.graph, s.docs, s.vectors, s.registry;
    }

    function View(): Stores
      reads this
    {
      Stores(graph, docs, vectors, registry)
    }

    method DeleteVector(rec: Record) returns (ok: bool)
      modifies this`vectors
      ensures ok ==> TxVector(old(vectors), rec) == Some(vectors)
      ensures !ok ==> TxVector(old(vectors), rec).None? && vectors == old(vectors)
    {
      if rec.id !in vectors || vectors[rec.id] != rec.vector {
        return false;
      }
      vectors := vectors - {rec.id};
      return true;
    }

    method DeleteGraph(rec: Record, plan: Plan, intent: Intent, remembered: bool) returns (ok: bool)
      modifies this`graph
      ensures ok ==> TxGraph(old(View()), rec, plan, intent, remembered) == Some(graph)
      ensures !ok ==> TxGraph(old(View()), rec, plan, intent, remembered).None? && graph == old(graph)
    {
      if !NodeCas(graph, rec, plan.sel) || !IntentHoldsFor(graph, plan.Ids(), intent, rec.id) {
        return false;
      }
      var approved := Approved(intent.boundary);
      var planned: seq<EdgeKey> := [];
      for i := 0 to |rec.edges|
        invariant forall e :: e in rec.edges[..i] ==>
          && (e in intent.component || e in approved)
          && (KeyOf(e) in graph.edges ==> EdgeOf(KeyOf(e), graph.edges[KeyOf(e)]) == e)
        invariant forall k :: k in planned <==> k in Keys(rec.edges[..i]) && k in graph.edges
      {
        var edge := rec.edges[i];
        assert edge in rec.edges;
        assert Keys(rec.edges[..i + 1]) == Keys(rec.edges[..i]) + {KeyOf(edge)} by {
          assert rec.edges[..i + 1] == rec.edges[..i] + [edge];
        }
        if edge !in intent.component && edge !in approved {
          return false;
        }
        var key := KeyOf(edge);
        if key in graph.edges {
          if EdgeOf(key, graph.edges[key]) != edge {
            return false;
          }
          planned := planned + [key];
        }
      }
      assert rec.edges[..|rec.edges|] == rec.edges;
      if !remembered && !ProjectedFor(View(), plan, Elements(rec.edges), {rec.id}) {
        return false;
      }
      var edges := graph.edges;
      for i := 0 to |planned|
        invariant edges == graph.edges - Elements(planned[..i])
      {
        assert Elements(planned[..i + 1]) == Elements(planned[..i]) + {planned[i]};
        edges := edges - {planned[i]};
      }
      assert planned[..|planned|] == planned;
      assert edges == graph.edges - Keys(rec.edges);
      var after := Graph(graph.nodes - {rec.id}, edges);
      if !GraphPost(graph, after, plan.Ids(), rec, intent) {
        return false;
      }
      graph := after;
      return true;
    }

    method DeleteDocument(rec: Record, sel: Selection) returns (ok: bool, row: Option<DocKey>)
      modifies this`docs
      ensures FetchedRow(old(docs), rec.id, row)
      ensures ok ==> TxDocs(old(docs), rec, sel, row) == Some(docs)
      ensures !ok ==> TxDocs(old(docs), rec, sel, row).None? && docs == old(docs)
    {
      var rows := DocKeysOf(docs, rec.id);
      if rows == {} {
        row := None;
      } else {
        var k :| k in rows;
        row := Some(k);
      }
      if !DocsCas(docs, rec, sel, row) {
        return false, row;
      }
      docs := DocsAfter(docs, rec.id, row);
      return true, row;
    }

    method DeleteRegistry(rec: Record, plan: Plan, remembered: bool) returns (ok: bool)
      modifies this`registry
      ensures ok ==> TxRegistry(old(View()), rec, plan, remembered) == Some(registry)
      ensures !ok ==> TxRegistry(old(View()), rec, plan, remembered).None? && registry == old(registry)
    {
      if !remembered && !RegistryGlobal(View(), plan) {
        return false;
      }
      if !RegistryCas(registry, rec) {
        return false;
      }
      var edges := DeleteRows(registry.edges, TargetEdges(registry, rec.id).Keys);
      var nodes := DeleteRows(registry.nodes, RegNodesOf(registry, rec.id).Keys);
      registry := Registry(nodes, edges);
      return true;
    }
  }
}
