/**
 * What the tool must not disturb: the protection sections, and the support every
 * affected Claim keeps. Both are shown to survive any step that only removes
 * candidate rows, whatever else the stores hold.
 */
module Protection {
  import opened Basics
  import opened CleanupModel
  import opened EdgeIntent

  // ------------------------------------------------------------------ sections

  datatype NodeItem = NodeItem(id: Id, nodeType: string, space: string, value: JsonValue)

  function ItemOf(id: Id, row: NodeRow): NodeItem {
    NodeItem(id, row.nodeType, row.space, row.props.value)
  }

  /** The rows behind the nine section hashes. */
  datatype Sections = Sections(
    nodes: set<NodeItem>,
    evidenceGraph: set<NodeItem>,
    evidenceGraphRaw: set<(Id, NodeRow)>,
    edges: set<Edge>,
    evidenceDoc: set<(DocKey, DocRow)>,
    evidenceSource: set<(Id, Source)>,
    evidenceVector: set<(Id, VectorRow)>,
    registryNodes: set<(RowId, RegNode)>,
    registryEdges: set<(RowId, RegEdge)>)

  predicate IsEvidence(g: Graph, sel: Selection, ids: set<Id>, id: Id) {
    id in g.nodes && g.nodes[id].nodeType !in RESERVED_TYPES && g.nodes[id].nodeType in sel.supportTypes && id !in ids
  }

  function EvidenceIds(g: Graph, sel: Selection, ids: set<Id>): set<Id> {
    set id | id in g.nodes && IsEvidence(g, sel, ids, id)
  }

  function ReservedNodes(g: Graph, excluded: set<Id>): set<NodeItem> {
    set id | id in g.nodes && id !in excluded && g.nodes[id].nodeType in RESERVED_TYPES :: ItemOf(id, g.nodes[id])
  }

  function EvidenceNodes(g: Graph, sel: Selection, ids: set<Id>, excluded: set<Id>): set<NodeItem> {
    set id | id in g.nodes && id !in excluded && IsEvidence(g, sel, ids, id) :: ItemOf(id, g.nodes[id])
  }

  function EvidenceRaw(g: Graph, sel: Selection, ids: set<Id>): set<(Id, NodeRow)> {
    set id | id in g.nodes && IsEvidence(g, sel, ids, id) :: (id, g.nodes[id])
  }

  function FreeEdges(g: Graph, ids: set<Id>): set<Edge> {
    set k | k in g.edges && k.fromId !in ids && k.toId !in ids :: EdgeOf(k, g.edges[k])
  }

  function DocSection(d: Docs, evidenceIds: set<Id>): set<(DocKey, DocRow)> {
    set k | k in d.nodes && k.nodeId in evidenceIds :: (k, d.nodes[k])
  }

  function SourceSection(d: Docs, evidenceIds: set<Id>): set<(Id, Source)> {
    set id | id in d.sources && id in evidenceIds :: (id, d.sources[id])
  }

  function VectorSection(v: Vectors, evidenceIds: set<Id>): set<(Id, VectorRow)> {
    set id | id in v && id in evidenceIds :: (id, v[id])
  }

  predicate IsTarget(n: RegNode, ids: set<Id>) {
    n.space == EVIDENCE && n.nodeId in ids
  }

  function RegistryNodes(r: Registry, ids: set<Id>): set<(RowId, RegNode)> {
    set i | i in r.nodes && !IsTarget(r.nodes[i], ids) :: (i, r.nodes[i])
  }

  function RegistryEdges(r: Registry, ids: set<Id>): set<(RowId, RegEdge)> {
    set i | i in r.edges && !TouchesTargets(r.edges[i], ids) :: (i, r.edges[i])
  }

  function SectionsOf(s: Stores, sel: Selection, ids: set<Id>): Sections {
    var evidence := EvidenceIds(s.graph, sel, ids);
    Sections(
      ReservedNodes(s.graph, {}),
      EvidenceNodes(s.graph, sel, ids, {}),
      EvidenceRaw(s.graph, sel, ids),
      FreeEdges(s.graph, ids),
      DocSection(s.docs, evidence),
      SourceSection(s.docs, evidence),
      VectorSection(s.vectors, evidence),
      RegistryNodes(s.registry, ids),
      RegistryEdges(s.registry, ids))
  }

  // ------------------------------------------------------------- the run's plan

  /** A frozen non-candidate support: its graph item, raw graph row, source row and registry rows. */
  datatype EvidenceItem = EvidenceItem(item: NodeItem, raw: NodeRow, source: Option<Source>, registry: map<RowId, RegNode>)

  /** The frozen manifest of a run. */
  datatype Plan = Plan(
    sel: Selection,
    records: seq<Record>,
    sections: Sections,
    evidenceIds: set<Id>,
    evidence: map<Id, EvidenceItem>,
    graphClaims: set<Id>,
    registryClaims: set<Id>)
  {
    function Ids(): set<Id> {
      IdsOf(records)
    }
  }

  // -------------------------------------------------------------------- claims

  function LowerChar(c: char): char {
    if 'A' <= c <= 'Z' then (c as int + 32) as char else c
  }

  function Lower(s: string): string {
    seq(|s|, i requires 0 <= i < |s| => LowerChar(s[i]))
  }

  /** Claims that lose a frozen supports edge on the graph axis. */
  function AffectedGraph(plan: Plan): set<Id> {
    set r, e | r in plan.records && e in r.edges
      && e.relation == "supports" && e.fromType == plan.sel.nodeType
      && Lower(e.toType) == CLAIM_SPACE && e.toId in plan.graphClaims :: e.toId
  }

  /** Claims that lose a frozen supports edge on the registry axis. */
  function AffectedRegistry(plan: Plan): set<Id> {
    set r, i | r in plan.records && i in r.snapshot.regEdges
      && r.snapshot.regEdges[i].relation == "supports"
      && r.snapshot.regEdges[i].fromSpace == EVIDENCE && r.snapshot.regEdges[i].fromId == r.id
      && r.snapshot.regEdges[i].toSpace == CLAIM_SPACE && r.snapshot.regEdges[i].toId in plan.registryClaims
      :: r.snapshot.regEdges[i].toId
  }

  function RegNodesAt(r: Registry, id: Id): map<RowId, RegNode> {
    map i | i in r.nodes && r.nodes[i].space == EVIDENCE && r.nodes[i].nodeId == id :: r.nodes[i]
  }

  /** _valid_claim_source: the source is still the frozen one, in type, pack, space and rows. */
  predicate ValidSource(s: Stores, plan: Plan, id: Id) {
    && id in plan.evidence
    && id in s.docs.sources
    && id in s.graph.nodes
    && var frozen := plan.evidence[id];
    && frozen.source.Some?
    && frozen.source.value.metadata.value.pack == Some(plan.sel.pack)
    && s.docs.sources[id].metadata.value.pack == Some(plan.sel.pack)
    && frozen.raw.props.value.pack == Some(plan.sel.pack)
    && frozen.item.nodeType in plan.sel.supportTypes
    && s.graph.nodes[id].nodeType == frozen.item.nodeType
    && s.graph.nodes[id].space == EVIDENCE
    && s.graph.nodes[id].props.value.pack == Some(plan.sel.pack)
    && |frozen.registry| == 1
    && RegNodesAt(s.registry, id) == frozen.registry
    && (forall i :: i in frozen.registry ==> frozen.registry[i].nodeType == frozen.item.nodeType)
    && s.docs.sources[id] == frozen.source.value
    && ItemOf(id, s.graph.nodes[id]) == frozen.item
  }

  /** A supports edge of the graph that keeps a Claim alive once the planned rows are gone. */
  predicate GraphSupport(s: Stores, plan: Plan, e: Edge, claim: Id, plannedEdges: set<Edge>) {
    && e in Edges(s.graph)
    && e.relation == "supports" && e.toId == claim && e.toType == "Claim"
    && e.fromType in plan.sel.supportTypes
    && e.fromId in plan.evidence && plan.evidence[e.fromId].item.nodeType == e.fromType
    && e.fromId !in plan.Ids()
    && e !in plannedEdges
    && ValidSource(s, plan, e.fromId)
  }

  predicate GraphClaimHeld(s: Stores, plan: Plan, claim: Id, plannedEdges: set<Edge>, plannedNodes: set<Id>) {
    && claim in s.graph.nodes
    && s.graph.nodes[claim].nodeType == "Claim" && s.graph.nodes[claim].space == CLAIM_SPACE
    && claim !in plannedNodes
    && exists e :: e in Edges(s.graph) && GraphSupport(s, plan, e, claim, plannedEdges)
  }

  predicate RegistrySupport(s: Stores, plan: Plan, i: RowId, claim: Id) {
    && i in s.registry.edges
    && var e := s.registry.edges[i];
    && e.relation == "supports" && e.toSpace == CLAIM_SPACE && e.toId == claim
    && e.fromSpace == EVIDENCE && e.fromId !in plan.Ids()
    && ValidSource(s, plan, e.fromId)
  }

  predicate RegistryClaimNode(r: Registry, i: RowId, claim: Id) {
    i in r.nodes && r.nodes[i].space == CLAIM_SPACE && r.nodes[i].nodeId == claim && r.nodes[i].nodeType == "Claim"
  }

  /** (space, node_id) is unique in the registry, so "some row" and "the row" agree. */
  predicate RegistryClaimHeld(s: Stores, plan: Plan, claim: Id) {
    && (exists i :: i in s.registry.nodes && RegistryClaimNode(s.registry, i, claim))
    && (forall i :: i in s.registry.nodes && s.registry.nodes[i].space == CLAIM_SPACE && s.registry.nodes[i].nodeId == claim
          ==> s.registry.nodes[i].nodeType == "Claim")
    && exists i :: i in s.registry.edges && RegistrySupport(s, plan, i, claim)
  }

  predicate GraphClaimsHeld(s: Stores, plan: Plan, plannedEdges: set<Edge>, plannedNodes: set<Id>) {
    forall claim :: claim in AffectedGraph(plan) ==> GraphClaimHeld(s, plan, claim, plannedEdges, plannedNodes)
  }

  predicate RegistryClaimsHeld(s: Stores, plan: Plan) {
    forall claim :: claim in AffectedRegistry(plan) ==> RegistryClaimHeld(s, plan, claim)
  }

  // ---------------------------------------------- the Claim check, row by row

  /** The word claim in any mixture of small and capital letters. */
  predicate SpellsClaim(t: string) {
    |t| == 5 && t[0] in "cC" && t[1] in "lL" && t[2] in "aA" && t[3] in "iI" && t[4] in "mM"
  }

  /** The document source, the node and the only evidence row of the registry exist, in this pack and of one support type. */
  predicate UsableSource(s: Stores, sel: Selection, id: Id) {
    && id in s.docs.sources && s.docs.sources[id].metadata.value.pack == Some(sel.pack)
    && id in s.graph.nodes && s.graph.nodes[id].space == "evidence" && s.graph.nodes[id].nodeType in sel.supportTypes
    && s.graph.nodes[id].props.value.pack == Some(sel.pack)
    && exists i :: i in s.registry.nodes && s.registry.nodes[i].nodeType == s.graph.nodes[id].nodeType
         && forall j :: j in s.registry.nodes ==> (j == i <==> s.registry.nodes[j].space == "evidence" && s.registry.nodes[j].nodeId == id)
  }

  /** A usable source whose rows are still those the manifest froze. */
  predicate StandingSource(s: Stores, plan: Plan, id: Id) {
    && UsableSource(s, plan.sel, id)
    && id in plan.evidence
    && var frozen := plan.evidence[id];
    && frozen.source == Some(s.docs.sources[id])
    && frozen.item == NodeItem(id, s.graph.nodes[id].nodeType, "evidence", s.graph.nodes[id].props.value)
    && frozen.raw.props.value.pack == Some(plan.sel.pack)
    && (forall i :: i in s.registry.nodes && s.registry.nodes[i].space == "evidence" && s.registry.nodes[i].nodeId == id ==>
          i in frozen.registry && frozen.registry[i] == s.registry.nodes[i])
    && (forall i :: i in frozen.registry ==> i in s.registry.nodes && s.registry.nodes[i].space == "evidence" && s.registry.nodes[i].nodeId == id)
  }

  predicate GraphClaimStands(s: Stores, plan: Plan, claim: Id) {
    && claim in s.graph.nodes && s.graph.nodes[claim].nodeType == "Claim" && s.graph.nodes[claim].space == "claim"
    && exists k :: k in s.graph.edges && k.relation == "supports" && k.toId == claim && s.graph.edges[k].toType == "Claim"
         && (forall r :: r in plan.records ==> r.id != k.fromId)
         && StandingSource(s, plan, k.fromId) && s.graph.edges[k].fromType == s.graph.nodes[k.fromId].nodeType
  }

  predicate RegistryClaimStands(s: Stores, plan: Plan, claim: Id) {
    && (exists i :: i in s.registry.nodes && s.registry.nodes[i].space == "claim" && s.registry.nodes[i].nodeId == claim)
    && (forall i :: i in s.registry.nodes && s.registry.nodes[i].space == "claim" && s.registry.nodes[i].nodeId == claim
          ==> s.registry.nodes[i].nodeType == "Claim")
    && exists i :: i in s.registry.edges && s.registry.edges[i].relation == "supports"
         && s.registry.edges[i].toSpace == "claim" && s.registry.edges[i].toId == claim && s.registry.edges[i].fromSpace == "evidence"
         && (forall r :: r in plan.records ==> r.id != s.registry.edges[i].fromId)
         && StandingSource(s, plan, s.registry.edges[i].fromId)
  }

  /** Every Claim of the manifest that a recorded edge of a candidate supports in the graph stands without the candidates. */
  ghost predicate GraphClaimsStand(s: Stores, plan: Plan) {
    forall r, e :: r in plan.records && e in r.edges
      && e.relation == "supports" && e.fromType == plan.sel.nodeType && SpellsClaim(e.toType) && e.toId in plan.graphClaims
      ==> GraphClaimStands(s, plan, e.toId)
  }

  /** The same for the edges the registry holds for a candidate. */
  ghost predicate RegistryClaimsStand(s: Stores, plan: Plan) {
    forall r, i :: r in plan.records && i in r.snapshot.regEdges
      && r.snapshot.regEdges[i].relation == "supports"
      && r.snapshot.regEdges[i].fromSpace == "evidence" && r.snapshot.regEdges[i].fromId == r.id
      && r.snapshot.regEdges[i].toSpace == "claim" && r.snapshot.regEdges[i].toId in plan.registryClaims
      ==> RegistryClaimStands(s, plan, r.snapshot.regEdges[i].toId)
  }

  lemma LowerIsClaim(t: string)
    ensures Lower(t) == "claim" <==> SpellsClaim(t)
    ensures SpellsClaim("Claim")
  {
    if SpellsClaim(t) { assert Lower(t) == "claim"; }
    if Lower(t) == "claim" { assert forall i :: 0 <= i < 5 ==> LowerChar(t[i]) == "claim"[i]; }
  }

  lemma OneKey<V>(m: map<RowId, V>)
    ensures |m| == 1 <==> exists i :: i in m && forall j :: j in m ==> j == i
  {
    assert |m| == |m.Keys|;
    if |m| == 1 {
      var i :| i in m.Keys;
      assert |m.Keys - {i}| == 0;
      assert forall j :: j in m ==> j in m.Keys - {i} || j == i;
    }
    if i :| i in m && forall j :: j in m ==> j == i { assert m.Keys == {i}; }
  }

  /** A source is valid exactly if it is usable now and still the frozen one. */
  lemma ValidSourceExactly(s: Stores, plan: Plan, id: Id)
    ensures ValidSource(s, plan, id) <==> StandingSource(s, plan, id)
  {
    var rows := RegNodesAt(s.registry, id);
    OneKey(rows);
    if ValidSource(s, plan, id) {
      var i :| i in rows && forall j :: j in rows ==> j == i;
      assert s.registry.nodes[i] == plan.evidence[id].registry[i];
      forall j | j in s.registry.nodes
        ensures j == i <==> s.registry.nodes[j].space == "evidence" && s.registry.nodes[j].nodeId == id
      {
        assert j in rows <==> s.registry.nodes[j].space == "evidence" && s.registry.nodes[j].nodeId == id;
      }
    }
    if StandingSource(s, plan, id) {
      assert rows == plan.evidence[id].registry;
    }
  }

  /** The graph check demands exactly that: a Claim no recorded edge supports demands nothing. */
  lemma GraphCheckExactly(s: Stores, plan: Plan)
    ensures GraphClaimsHeld(s, plan, {}, {}) <==> GraphClaimsStand(s, plan)
  {
    forall claim
      ensures GraphClaimHeld(s, plan, claim, {}, {}) <==> GraphClaimStands(s, plan, claim)
    {
      GraphClaimExactly(s, plan, claim);
    }
    hide GraphClaimHeld, GraphClaimStands, Lower, SpellsClaim;
    forall t: string
      ensures Lower(t) == "claim" <==> SpellsClaim(t)
    {
      LowerIsClaim(t);
    }
    if GraphClaimsHeld(s, plan, {}, {}) {
      forall r, e | r in plan.records && e in r.edges
          && e.relation == "supports" && e.fromType == plan.sel.nodeType && SpellsClaim(e.toType) && e.toId in plan.graphClaims
        ensures GraphClaimStands(s, plan, e.toId)
      {
        assert Lower(e.toType) == "claim";
        assert e.toId in AffectedGraph(plan);
      }
    }
  }

  lemma GraphClaimExactly(s: Stores, plan: Plan, claim: Id)
    ensures GraphClaimHeld(s, plan, claim, {}, {}) <==> GraphClaimStands(s, plan, claim)
  {
    if GraphClaimHeld(s, plan, claim, {}, {}) { HeldClaimStands(s, plan, claim); }
    if GraphClaimStands(s, plan, claim) { StandingClaimIsHeld(s, plan, claim); }
  }

  lemma HeldClaimStands(s: Stores, plan: Plan, claim: Id)
    requires GraphClaimHeld(s, plan, claim, {}, {})
    ensures GraphClaimStands(s, plan, claim)
  {
    var e :| e in Edges(s.graph) && GraphSupport(s, plan, e, claim, {});
    StoredEdge(s.graph, e);
    ValidSourceExactly(s, plan, e.fromId);
    hide ValidSource;
    assert StandingSource(s, plan, KeyOf(e).fromId);
  }

  lemma StandingClaimIsHeld(s: Stores, plan: Plan, claim: Id)
    requires GraphClaimStands(s, plan, claim)
    ensures GraphClaimHeld(s, plan, claim, {}, {})
  {
    var k :| k in s.graph.edges && k.relation == "supports" && k.toId == claim && s.graph.edges[k].toType == "Claim"
       && (forall r :: r in plan.records ==> r.id != k.fromId)
       && StandingSource(s, plan, k.fromId) && s.graph.edges[k].fromType == s.graph.nodes[k.fromId].nodeType;
    ValidSourceExactly(s, plan, k.fromId);
    hide ValidSource;
    assert GraphSupport(s, plan, EdgeOf(k, s.graph.edges[k]), claim, {});
  }

  lemma RegistryClaimExactly(s: Stores, plan: Plan, claim: Id)
    ensures RegistryClaimHeld(s, plan, claim) <==> RegistryClaimStands(s, plan, claim)
  {
    hide ValidSource;
    forall id
      ensures ValidSource(s, plan, id) <==> StandingSource(s, plan, id)
    {
      ValidSourceExactly(s, plan, id);
    }
    if RegistryClaimHeld(s, plan, claim) {
      var i :| i in s.registry.edges && RegistrySupport(s, plan, i, claim);
      assert StandingSource(s, plan, s.registry.edges[i].fromId);
    }
    if RegistryClaimStands(s, plan, claim) {
      var n :| n in s.registry.nodes && s.registry.nodes[n].space == "claim" && s.registry.nodes[n].nodeId == claim;
      assert RegistryClaimNode(s.registry, n, claim);
      var i :| i in s.registry.edges && s.registry.edges[i].relation == "supports"
         && s.registry.edges[i].toSpace == "claim" && s.registry.edges[i].toId == claim && s.registry.edges[i].fromSpace == "evidence"
         && (forall r :: r in plan.records ==> r.id != s.registry.edges[i].fromId)
         && StandingSource(s, plan, s.registry.edges[i].fromId);
      assert RegistrySupport(s, plan, i, claim);
    }
  }

  lemma RegistryCheckExactly(s: Stores, plan: Plan)
    ensures RegistryClaimsHeld(s, plan) <==> RegistryClaimsStand(s, plan)
  {
    forall claim
      ensures RegistryClaimHeld(s, plan, claim) <==> RegistryClaimStands(s, plan, claim)
    {
      RegistryClaimExactly(s, plan, claim);
    }
    hide RegistryClaimHeld, RegistryClaimStands;
  }

  // ------------------------------------------------------- the remembered checks

  /** _validate_projected_protection for a planned graph write. */
  predicate ProjectedFor(s: Stores, plan: Plan, plannedEdges: set<Edge>, plannedNodes: set<Id>) {
    && ReservedNodes(s.graph, plannedNodes) == plan.sections.nodes
    && EvidenceNodes(s.graph, plan.sel, plan.Ids(), plannedNodes) == plan.sections.evidenceGraph
    && FreeEdges(s.graph, plan.Ids()) == plan.sections.edges
    && SourceSection(s.docs, plan.evidenceIds) == plan.sections.evidenceSource
    && GraphClaimsHeld(s, plan, plannedEdges, plannedNodes)
  }

  /** The same check with nothing planned. */
  predicate Projected(s: Stores, plan: Plan) {
    ProjectedFor(s, plan, {}, {})
  }

  /** _registry_global_checks. */
  predicate RegistryGlobal(s: Stores, plan: Plan) {
    && RegistryNodes(s.registry, plan.Ids()) == plan.sections.registryNodes
    && RegistryEdges(s.registry, plan.Ids()) == plan.sections.registryEdges
    && RegistryClaimsHeld(s, plan)
    && SourceSection(s.docs, plan.evidenceIds) == plan.sections.evidenceSource
  }

  predicate ProtectionHolds(s: Stores, plan: Plan) {
    SectionsOf(s, plan.sel, plan.Ids()) == plan.sections
  }

  /** What freezing guarantees about a plan: candidates are neither reserved nodes nor supports. */
  ghost predicate CleanPlan(plan: Plan) {
    match plan
    case Plan(sel, records, sections, evidenceIds, _, graphClaims, _) =>
      && TouchingRecords(records)
      && sel.nodeType !in RESERVED_TYPES
      && (forall n :: n in sections.nodes ==> n.id !in plan.Ids())
      && (forall id :: id in graphClaims ==> id !in plan.Ids())
      && (forall id :: id in evidenceIds ==> id !in plan.Ids())
      && (forall r, i :: r in records && i in r.snapshot.regNodes ==> r.snapshot.regNodes[i].space == EVIDENCE)
  }

  // ------------------------------------------------------ the frame of a delete

  ghost predicate GraphShrinks(g: Graph, g': Graph, sel: Selection, ids: set<Id>) {
    && Submap(g'.nodes, g.nodes)
    && (forall id :: id in g.nodes && id !in g'.nodes ==> id in ids && g.nodes[id].nodeType == sel.nodeType)
    && Submap(g'.edges, g.edges)
    && (forall k :: k in g.edges && k !in g'.edges ==> k.fromId in ids || k.toId in ids)
  }

  ghost predicate DocsShrink(d: Docs, d': Docs, ids: set<Id>) {
    && Submap(d'.sources, d.sources)
    && (forall id :: id in d.sources && id !in d'.sources ==> id in ids)
    && Submap(d'.fts, d.fts)
    && (forall r :: r in d.fts && r !in d'.fts ==> d.fts[r].sourceId in ids)
    && Submap(d'.nodes, d.nodes)
    && (forall k :: k in d.nodes && k !in d'.nodes ==> k.nodeId in ids)
    && d'.integrity.Some? == d.integrity.Some?
    && (d.integrity.Some? ==>
          && Submap(d'.integrity.value, d.integrity.value)
          && forall id :: id in d.integrity.value && id !in d'.integrity.value ==> id in ids)
  }

  ghost predicate VectorsShrink(v: Vectors, v': Vectors, ids: set<Id>) {
    Submap(v', v) && forall id :: id in v && id !in v' ==> id in ids
  }

  ghost predicate RegistryShrinks(r: Registry, r': Registry, ids: set<Id>) {
    && Submap(r'.nodes, r.nodes)
    && (forall i :: i in r.nodes && i !in r'.nodes ==> IsTarget(r.nodes[i], ids))
    && Submap(r'.edges, r.edges)
    && (forall i :: i in r.edges && i !in r'.edges ==> TouchesTargets(r.edges[i], ids))
  }

  /** Only candidate rows are gone; every other row is as it was. */
  ghost predicate Shrinks(s: Stores, s': Stores, sel: Selection, ids: set<Id>) {
    match s'
    case Stores(graph, docs, vectors, registry) =>
      && GraphShrinks(s.graph, graph, sel, ids)
      && DocsShrink(s.docs, docs, ids)
      && VectorsShrink(s.vectors, vectors, ids)
      && RegistryShrinks(s.registry, registry, ids)
  }

  lemma ShrinksTransitive(a: Stores, b: Stores, c: Stores, sel: Selection, ids: set<Id>)
    requires Shrinks(a, b, sel, ids) && Shrinks(b, c, sel, ids)
    ensures Shrinks(a, c, sel, ids)
  {
  }

  lemma ShrinksReflexive(s: Stores, sel: Selection, ids: set<Id>)
    ensures Shrinks(s, s, sel, ids)
  {
  }

  lemma EvidenceIdsFrame(g: Graph, g': Graph, sel: Selection, ids: set<Id>)
    requires GraphShrinks(g, g', sel, ids)
    ensures EvidenceIds(g', sel, ids) == EvidenceIds(g, sel, ids)
  {
    assert forall id :: IsEvidence(g', sel, ids, id) <==> IsEvidence(g, sel, ids, id);
  }

  lemma GraphSectionsFrame(g: Graph, g': Graph, sel: Selection, ids: set<Id>)
    requires GraphShrinks(g, g', sel, ids) && sel.nodeType !in RESERVED_TYPES
    ensures ReservedNodes(g', {}) == ReservedNodes(g, {})
    ensures EvidenceNodes(g', sel, ids, {}) == EvidenceNodes(g, sel, ids, {})
    ensures EvidenceRaw(g', sel, ids) == EvidenceRaw(g, sel, ids)
    ensures FreeEdges(g', ids) == FreeEdges(g, ids)
  {
    assert forall id :: IsEvidence(g', sel, ids, id) <==> IsEvidence(g, sel, ids, id);
    forall id | id in g.nodes && g.nodes[id].nodeType in RESERVED_TYPES
      ensures id in g'.nodes && g'.nodes[id] == g.nodes[id]
    {
    }
  }

  lemma RowSectionsFrame(s: Stores, s': Stores, sel: Selection, ids: set<Id>, evidenceIds: set<Id>)
    requires Shrinks(s, s', sel, ids)
    requires forall id :: id in evidenceIds ==> id !in ids
    ensures DocSection(s'.docs, evidenceIds) == DocSection(s.docs, evidenceIds)
    ensures SourceSection(s'.docs, evidenceIds) == SourceSection(s.docs, evidenceIds)
    ensures VectorSection(s'.vectors, evidenceIds) == VectorSection(s.vectors, evidenceIds)
    ensures RegistryNodes(s'.registry, ids) == RegistryNodes(s.registry, ids)
    ensures RegistryEdges(s'.registry, ids) == RegistryEdges(s.registry, ids)
  {
  }

  /** Non-interference: removing candidate rows leaves all nine sections as they were. */
  lemma SectionsSurvive(s: Stores, s': Stores, sel: Selection, ids: set<Id>)
    requires Shrinks(s, s', sel, ids) && sel.nodeType !in RESERVED_TYPES
    ensures SectionsOf(s', sel, ids) == SectionsOf(s, sel, ids)
  {
    GraphSectionsFrame(s.graph, s'.graph, sel, ids);
    EvidenceIdsFrame(s.graph, s'.graph, sel, ids);
    RowSectionsFrame(s, s', sel, ids, EvidenceIds(s.graph, sel, ids));
  }

  /** Two stores hold the same protected rows, one kind of row after the other. */
  ghost predicate SameProtectedRows(s: Stores, s': Stores, sel: Selection, ids: set<Id>) {
    && SameGraphRows(s.graph, s'.graph, ids)
    && SameRegistryRows(s.registry, s'.registry, ids)
    && (forall id :: IsSupport(s, sel, ids, id) || IsSupport(s', sel, ids, id) ==>
          && Lookup(s.graph.nodes, id) == Lookup(s'.graph.nodes, id)
          && (forall space :: Lookup(s.docs.nodes, DocKey(space, id)) == Lookup(s'.docs.nodes, DocKey(space, id)))
          && Lookup(s.docs.sources, id) == Lookup(s'.docs.sources, id)
          && Lookup(s.vectors, id) == Lookup(s'.vectors, id))
  }

  /** The same Documents and Claims, and the same edges among nodes that are no candidates. */
  ghost predicate SameGraphRows(g: Graph, g': Graph, ids: set<Id>) {
    && (forall id :: HasType(g, id, {"Document", "Claim"}) || HasType(g', id, {"Document", "Claim"}) ==> SameNode(g, g', id))
    && (forall k :: (k in g.edges || k in g'.edges) && k.fromId !in ids && k.toId !in ids ==> SameEdge(g, g', k))
  }

  /** The same registry rows that name no candidate as evidence. */
  ghost predicate SameRegistryRows(r: Registry, r': Registry, ids: set<Id>) {
    && (forall i, n: RegNode :: !(n.space == "evidence" && n.nodeId in ids) ==> (Lookup(r.nodes, i) == Some(n) <==> Lookup(r'.nodes, i) == Some(n)))
    && (forall i, e: RegEdge :: !(e.fromSpace == "evidence" && e.fromId in ids) && !(e.toSpace == "evidence" && e.toId in ids) ==>
          (Lookup(r.edges, i) == Some(e) <==> Lookup(r'.edges, i) == Some(e)))
  }

  predicate HasType(g: Graph, id: Id, types: set<string>) {
    id in g.nodes && g.nodes[id].nodeType in types
  }

  /** A node that is no candidate, no Document and no Claim, and whose type counts as support. */
  predicate IsSupport(s: Stores, sel: Selection, ids: set<Id>, id: Id) {
    id !in ids && HasType(s.graph, id, sel.supportTypes) && !HasType(s.graph, id, {"Document", "Claim"})
  }

  /** The same type, space and value, however the properties are spelled. */
  predicate SameNode(g: Graph, g': Graph, id: Id) {
    && id in g.nodes && id in g'.nodes && g.nodes[id].nodeType == g'.nodes[id].nodeType
    && g.nodes[id].space == g'.nodes[id].space && g.nodes[id].props.value == g'.nodes[id].props.value
  }

  predicate SameEdge(g: Graph, g': Graph, k: EdgeKey) {
    && k in g.edges && k in g'.edges && g.edges[k].fromType == g'.edges[k].fromType
    && g.edges[k].toType == g'.edges[k].toType && g.edges[k].props.value == g'.edges[k].props.value
  }

  lemma ReservedSection(g: Graph, g': Graph)
    ensures ReservedNodes(g, {}) <= ReservedNodes(g', {}) <==>
      forall id :: HasType(g, id, {"Document", "Claim"}) ==> SameNode(g, g', id)
  {
    if ReservedNodes(g, {}) <= ReservedNodes(g', {}) {
      forall id | HasType(g, id, {"Document", "Claim"})
        ensures SameNode(g, g', id)
      {
        assert ItemOf(id, g.nodes[id]) in ReservedNodes(g', {});
      }
    }
    if forall id :: HasType(g, id, {"Document", "Claim"}) ==> SameNode(g, g', id) {
      forall id | id in g.nodes && g.nodes[id].nodeType in RESERVED_TYPES
        ensures ItemOf(id, g.nodes[id]) in ReservedNodes(g', {})
      {
        assert HasType(g, id, {"Document", "Claim"});
      }
    }
  }

  lemma EdgeSection(g: Graph, g': Graph, ids: set<Id>)
    ensures FreeEdges(g, ids) <= FreeEdges(g', ids) <==>
      forall k :: k in g.edges && k.fromId !in ids && k.toId !in ids ==> SameEdge(g, g', k)
  {
    if FreeEdges(g, ids) <= FreeEdges(g', ids) {
      forall k | k in g.edges && k.fromId !in ids && k.toId !in ids
        ensures SameEdge(g, g', k)
      {
        assert EdgeOf(k, g.edges[k]) in FreeEdges(g', ids);
      }
    }
  }

  /** One store's support rows are all in the other: the evidence sections of the graph. */
  ghost predicate SupportRowsIn(s: Stores, s': Stores, sel: Selection, ids: set<Id>) {
    forall id :: IsSupport(s, sel, ids, id) ==> id in s'.graph.nodes && s'.graph.nodes[id] == s.graph.nodes[id]
  }

  lemma SupportSections(s: Stores, s': Stores, sel: Selection, ids: set<Id>)
    ensures EvidenceRaw(s.graph, sel, ids) <= EvidenceRaw(s'.graph, sel, ids) <==> SupportRowsIn(s, s', sel, ids)
    ensures SupportRowsIn(s, s', sel, ids) ==>
      && EvidenceNodes(s.graph, sel, ids, {}) <= EvidenceNodes(s'.graph, sel, ids, {})
      && EvidenceIds(s.graph, sel, ids) <= EvidenceIds(s'.graph, sel, ids)
  {
    forall id
      ensures IsSupport(s, sel, ids, id) <==> IsEvidence(s.graph, sel, ids, id)
    {
    }
    if EvidenceRaw(s.graph, sel, ids) <= EvidenceRaw(s'.graph, sel, ids) {
      forall id | IsSupport(s, sel, ids, id)
        ensures id in s'.graph.nodes && s'.graph.nodes[id] == s.graph.nodes[id]
      {
        assert (id, s.graph.nodes[id]) in EvidenceRaw(s'.graph, sel, ids);
      }
    }
    if SupportRowsIn(s, s', sel, ids) {
      forall id | IsEvidence(s.graph, sel, ids, id)
        ensures IsEvidence(s'.graph, sel, ids, id) && s'.graph.nodes[id] == s.graph.nodes[id]
      {
        assert IsSupport(s, sel, ids, id);
      }
    }
  }

  lemma DocumentSections(s: Stores, s': Stores, evidence: set<Id>)
    ensures DocSection(s.docs, evidence) == DocSection(s'.docs, evidence) <==>
      forall space, id :: id in evidence ==> Lookup(s.docs.nodes, DocKey(space, id)) == Lookup(s'.docs.nodes, DocKey(space, id))
    ensures SourceSection(s.docs, evidence) == SourceSection(s'.docs, evidence) <==>
      forall id :: id in evidence ==> Lookup(s.docs.sources, id) == Lookup(s'.docs.sources, id)
    ensures VectorSection(s.vectors, evidence) == VectorSection(s'.vectors, evidence) <==>
      forall id :: id in evidence ==> Lookup(s.vectors, id) == Lookup(s'.vectors, id)
  {
    PairsOf(s.vectors, s'.vectors, VectorSection(s.vectors, evidence), VectorSection(s'.vectors, evidence), evidence);
    PairsOf(s.docs.sources, s'.docs.sources, SourceSection(s.docs, evidence), SourceSection(s'.docs, evidence), evidence);
    var keys := (set k | k in s.docs.nodes && k.nodeId in evidence) + (set k | k in s'.docs.nodes && k.nodeId in evidence);
    PairsOf(s.docs.nodes, s'.docs.nodes, DocSection(s.docs, evidence), DocSection(s'.docs, evidence), keys);
    if forall space, id :: id in evidence ==> Lookup(s.docs.nodes, DocKey(space, id)) == Lookup(s'.docs.nodes, DocKey(space, id)) {
      forall k | k in keys
        ensures Lookup(s.docs.nodes, k) == Lookup(s'.docs.nodes, k)
      {
        assert k == DocKey(k.space, k.nodeId);
      }
    }
  }

  /** Sets of the pairs a map has at some keys are equal exactly if the maps agree there. */
  lemma PairsOf<K, V>(m: map<K, V>, m': map<K, V>, pairs: set<(K, V)>, pairs': set<(K, V)>, keys: set<K>)
    requires forall k, v :: (k, v) in pairs <==> k in m && m[k] == v && k in keys
    requires forall k, v :: (k, v) in pairs' <==> k in m' && m'[k] == v && k in keys
    ensures pairs == pairs' <==> forall k :: k in keys ==> Lookup(m, k) == Lookup(m', k)
  {
    if pairs == pairs' {
      forall k | k in keys
        ensures Lookup(m, k) == Lookup(m', k)
      {
        if k in m { assert (k, m[k]) in pairs'; }
        if k in m' { assert (k, m'[k]) in pairs; }
      }
    }
    if forall k :: k in keys ==> Lookup(m, k) == Lookup(m', k) {
      forall p: (K, V)
        ensures p in pairs <==> p in pairs'
      {
        assert p == (p.0, p.1);
        if p.0 in keys { assert Lookup(m, p.0) == Lookup(m', p.0); }
      }
    }
  }

  lemma RegistrySections(r: Registry, r': Registry, ids: set<Id>)
    ensures RegistryNodes(r, ids) == RegistryNodes(r', ids) && RegistryEdges(r, ids) == RegistryEdges(r', ids) <==> SameRegistryRows(r, r', ids)
  {
    forall q: Registry, i, n: RegNode
      ensures (i, n) in RegistryNodes(q, ids) <==> Lookup(q.nodes, i) == Some(n) && !(n.space == "evidence" && n.nodeId in ids)
    {
    }
    forall q: Registry, i, e: RegEdge
      ensures (i, e) in RegistryEdges(q, ids) <==>
        Lookup(q.edges, i) == Some(e) && !(e.fromSpace == "evidence" && e.fromId in ids) && !(e.toSpace == "evidence" && e.toId in ids)
    {
    }
    hide RegistryNodes, RegistryEdges, Lookup;
    assert RegistryNodes(r, ids) == RegistryNodes(r', ids) <==> forall i, n :: (i, n) in RegistryNodes(r, ids) <==> (i, n) in RegistryNodes(r', ids);
    assert RegistryEdges(r, ids) == RegistryEdges(r', ids) <==> forall i, e :: (i, e) in RegistryEdges(r, ids) <==> (i, e) in RegistryEdges(r', ids);
  }

  /** The nine sections are equal exactly if no protected row was added, changed or removed. */
  lemma SectionsSeeEveryChange(s: Stores, s': Stores, sel: Selection, ids: set<Id>)
    ensures SectionsOf(s, sel, ids) == SectionsOf(s', sel, ids) <==> SameProtectedRows(s, s', sel, ids)
  {
    ReservedSection(s.graph, s'.graph);
    ReservedSection(s'.graph, s.graph);
    EdgeSection(s.graph, s'.graph, ids);
    EdgeSection(s'.graph, s.graph, ids);
    SupportSections(s, s', sel, ids);
    SupportSections(s', s, sel, ids);
    var evidence := EvidenceIds(s.graph, sel, ids);
    forall id
      ensures id in evidence <==> IsSupport(s, sel, ids, id)
    {
    }
    DocumentSections(s, s', evidence);
    RegistrySections(s.registry, s'.registry, ids);
    hide ReservedNodes, EvidenceNodes, EvidenceRaw, FreeEdges, DocSection, SourceSection, VectorSection, RegistryNodes, RegistryEdges,
      EvidenceIds, IsEvidence;
  }

  /** A valid non-candidate source stays valid. */
  lemma SourceSurvives(s: Stores, s': Stores, plan: Plan, id: Id)
    requires Shrinks(s, s', plan.sel, plan.Ids())
    requires ValidSource(s, plan, id) && id !in plan.Ids()
    ensures ValidSource(s', plan, id)
  {
    assert forall i :: i in s.registry.nodes && s.registry.nodes[i].nodeId == id ==> i in s'.registry.nodes;
    assert RegNodesAt(s'.registry, id) == RegNodesAt(s.registry, id);
  }

  /** An affected Claim that has its support keeps it, on the graph axis. */
  lemma GraphClaimSurvives(s: Stores, s': Stores, plan: Plan, claim: Id)
    requires Shrinks(s, s', plan.sel, plan.Ids()) && CleanPlan(plan)
    requires claim !in plan.Ids() && GraphClaimHeld(s, plan, claim, {}, {})
    ensures GraphClaimHeld(s', plan, claim, {}, {})
  {
    hide ValidSource, CleanPlan;
    var e :| e in Edges(s.graph) && GraphSupport(s, plan, e, claim, {});
    StoredEdge(s.graph, e);
    StoredEdge(s'.graph, e);
    SourceSurvives(s, s', plan, e.fromId);
    assert GraphSupport(s', plan, e, claim, {});
  }

  /** The same on the registry axis. */
  lemma RegistryClaimSurvives(s: Stores, s': Stores, plan: Plan, claim: Id)
    requires Shrinks(s, s', plan.sel, plan.Ids())
    requires RegistryClaimHeld(s, plan, claim)
    ensures RegistryClaimHeld(s', plan, claim)
  {
    var n :| n in s.registry.nodes && RegistryClaimNode(s.registry, n, claim);
    assert RegistryClaimNode(s'.registry, n, claim);
    var i :| i in s.registry.edges && RegistrySupport(s, plan, i, claim);
    SourceSurvives(s, s', plan, s.registry.edges[i].fromId);
    assert RegistrySupport(s', plan, i, claim);
  }

  lemma AffectedAreNotCandidates(plan: Plan)
    requires CleanPlan(plan)
    ensures forall claim :: claim in AffectedGraph(plan) ==> claim !in plan.Ids()
  {
  }

  lemma ClaimChecksSurvive(s: Stores, s': Stores, plan: Plan)
    requires Shrinks(s, s', plan.sel, plan.Ids()) && CleanPlan(plan)
    ensures GraphClaimsHeld(s, plan, {}, {}) ==> GraphClaimsHeld(s', plan, {}, {})
    ensures RegistryClaimsHeld(s, plan) ==> RegistryClaimsHeld(s', plan)
  {
    AffectedAreNotCandidates(plan);
    if GraphClaimsHeld(s, plan, {}, {}) {
      forall claim | claim in AffectedGraph(plan)
        ensures GraphClaimHeld(s', plan, claim, {}, {})
      {
        GraphClaimSurvives(s, s', plan, claim);
      }
    }
    if RegistryClaimsHeld(s, plan) {
      forall claim | claim in AffectedRegistry(plan)
        ensures RegistryClaimHeld(s', plan, claim)
      {
        RegistryClaimSurvives(s, s', plan, claim);
      }
    }
  }

  /** If every recorded Claim stands, it still stands after any candidate deletes. */
  lemma ClaimSupportSurvives(s: Stores, s': Stores, plan: Plan)
    requires Shrinks(s, s', plan.sel, plan.Ids()) && CleanPlan(plan)
    ensures GraphClaimsStand(s, plan) ==> GraphClaimsStand(s', plan)
    ensures RegistryClaimsStand(s, plan) ==> RegistryClaimsStand(s', plan)
  {
    ClaimChecksSurvive(s, s', plan);
    GraphCheckExactly(s, plan);
    GraphCheckExactly(s', plan);
    RegistryCheckExactly(s, plan);
    RegistryCheckExactly(s', plan);
  }

  /** The remembered verdicts survive the tool's own deletes. */
  lemma VerdictsSurvive(s: Stores, s': Stores, plan: Plan)
    requires Shrinks(s, s', plan.sel, plan.Ids()) && CleanPlan(plan)
    ensures Projected(s, plan) ==> Projected(s', plan)
    ensures RegistryGlobal(s, plan) ==> RegistryGlobal(s', plan)
    ensures ProtectionHolds(s, plan) ==> ProtectionHolds(s', plan)
  {
    SectionsSurvive(s, s', plan.sel, plan.Ids());
    GraphSectionsFrame(s.graph, s'.graph, plan.sel, plan.Ids());
    RowSectionsFrame(s, s', plan.sel, plan.Ids(), plan.evidenceIds);
    ClaimChecksSurvive(s, s', plan);
  }

  // ------------------------------------------- the verdict is not about one plan

  /** No stored candidate row passes for a Document or a Claim. */
  ghost predicate PlannedRowsPlain(g: Graph, planned: set<Id>) {
    forall id :: id in planned && id in g.nodes ==> g.nodes[id].nodeType !in RESERVED_TYPES
  }

  lemma PlannedEdgesAreNoSupport(s: Stores, plan: Plan, claim: Id, plannedEdges: set<Edge>, plannedNodes: set<Id>)
    requires CleanPlan(plan) && claim !in plan.Ids() && plannedNodes <= plan.Ids()
    requires forall e :: e in plannedEdges ==> TouchesAny(e, plan.Ids())
    ensures GraphClaimHeld(s, plan, claim, plannedEdges, plannedNodes) <==> GraphClaimHeld(s, plan, claim, {}, {})
  {
    if GraphClaimHeld(s, plan, claim, plannedEdges, plannedNodes) {
      var e :| e in Edges(s.graph) && GraphSupport(s, plan, e, claim, plannedEdges);
      assert GraphSupport(s, plan, e, claim, {});
    }
    if GraphClaimHeld(s, plan, claim, {}, {}) {
      var e :| e in Edges(s.graph) && GraphSupport(s, plan, e, claim, {});
      assert GraphSupport(s, plan, e, claim, plannedEdges);
    }
  }

  /**
   * Once the planned rows passed their compare-and-set, the projected check gives the
   * answer it would give with nothing planned, so one remembered pass serves every candidate.
   */
  lemma ProjectedIgnoresThePlan(s: Stores, plan: Plan, plannedEdges: set<Edge>, plannedNodes: set<Id>)
    requires CleanPlan(plan) && plannedNodes <= plan.Ids()
    requires forall e :: e in plannedEdges ==> TouchesAny(e, plan.Ids())
    requires PlannedRowsPlain(s.graph, plannedNodes)
    ensures ProjectedFor(s, plan, plannedEdges, plannedNodes) <==> Projected(s, plan)
  {
    AffectedAreNotCandidates(plan);
    forall claim | claim in AffectedGraph(plan)
      ensures GraphClaimHeld(s, plan, claim, plannedEdges, plannedNodes) <==> GraphClaimHeld(s, plan, claim, {}, {})
    {
      PlannedEdgesAreNoSupport(s, plan, claim, plannedEdges, plannedNodes);
    }
    assert ReservedNodes(s.graph, plannedNodes) == ReservedNodes(s.graph, {});
    assert EvidenceNodes(s.graph, plan.sel, plan.Ids(), plannedNodes) == EvidenceNodes(s.graph, plan.sel, plan.Ids(), {});
  }

  /** Without that compare-and-set the check would depend on whose plan it was run with. */
  lemma ProjectedDependsOnPlanWithoutCas(s: Stores, plan: Plan, c: Id)
    requires CleanPlan(plan) && c in plan.Ids() && c in s.graph.nodes && s.graph.nodes[c].nodeType in RESERVED_TYPES
    ensures forall edges :: !ProjectedFor(s, plan, edges, {})
  {
    assert ItemOf(c, s.graph.nodes[c]) in ReservedNodes(s.graph, {});
  }

  /** Two stores that differ only in graph nodes of the given ids. */
  predicate OnlyNodesDiffer(s: Stores, s': Stores, ids: set<Id>) {
    && s' == s.(graph := s.graph.(nodes := s'.graph.nodes))
    && s.graph.nodes - ids == s'.graph.nodes - ids
  }

  lemma NodesElsewhere(s: Stores, s': Stores, ids: set<Id>, id: Id)
    requires OnlyNodesDiffer(s, s', ids) && id !in ids && id in s.graph.nodes
    ensures id in s'.graph.nodes && s'.graph.nodes[id] == s.graph.nodes[id]
  {
    assert id in s.graph.nodes - ids && (s'.graph.nodes - ids)[id] == (s.graph.nodes - ids)[id];
  }

  lemma HeldWhateverIsPlanned(s: Stores, s': Stores, plan: Plan, claim: Id, plannedEdges: set<Edge>, plannedNodes: set<Id>)
    requires plannedNodes <= plan.Ids() && OnlyNodesDiffer(s, s', plannedNodes)
    requires GraphClaimHeld(s, plan, claim, plannedEdges, plannedNodes)
    ensures GraphClaimHeld(s', plan, claim, plannedEdges, plannedNodes)
  {
    NodesElsewhere(s, s', plannedNodes, claim);
    var e :| e in Edges(s.graph) && GraphSupport(s, plan, e, claim, plannedEdges);
    NodesElsewhere(s, s', plannedNodes, e.fromId);
    assert ValidSource(s', plan, e.fromId);
    hide ValidSource;
    assert Edges(s'.graph) == Edges(s.graph);
    assert GraphSupport(s', plan, e, claim, plannedEdges);
  }

  lemma ItemsWhateverIsPlanned(s: Stores, s': Stores, plan: Plan, plannedNodes: set<Id>)
    requires plannedNodes <= plan.Ids() && OnlyNodesDiffer(s, s', plannedNodes)
    ensures ReservedNodes(s.graph, plannedNodes) <= ReservedNodes(s'.graph, plannedNodes)
    ensures EvidenceNodes(s.graph, plan.sel, plan.Ids(), plannedNodes) <= EvidenceNodes(s'.graph, plan.sel, plan.Ids(), plannedNodes)
  {
    forall id | id in s.graph.nodes && id !in plannedNodes
      ensures id in s'.graph.nodes && s'.graph.nodes[id] == s.graph.nodes[id]
    {
      NodesElsewhere(s, s', plannedNodes, id);
    }
  }

  /** It does not look at the rows that are planned: whatever stands under those ids, the verdict is the same. */
  lemma PlannedRowsAreIgnored(s: Stores, s': Stores, plan: Plan, plannedEdges: set<Edge>, plannedNodes: set<Id>)
    requires plannedNodes <= plan.Ids() && OnlyNodesDiffer(s, s', plannedNodes)
    ensures ProjectedFor(s, plan, plannedEdges, plannedNodes) <==> ProjectedFor(s', plan, plannedEdges, plannedNodes)
  {
    ItemsWhateverIsPlanned(s, s', plan, plannedNodes);
    ItemsWhateverIsPlanned(s', s, plan, plannedNodes);
    forall claim
      ensures GraphClaimHeld(s, plan, claim, plannedEdges, plannedNodes) <==> GraphClaimHeld(s', plan, claim, plannedEdges, plannedNodes)
    {
      if GraphClaimHeld(s, plan, claim, plannedEdges, plannedNodes) {
        HeldWhateverIsPlanned(s, s', plan, claim, plannedEdges, plannedNodes);
      }
      if GraphClaimHeld(s', plan, claim, plannedEdges, plannedNodes) {
        HeldWhateverIsPlanned(s', s, plan, claim, plannedEdges, plannedNodes);
      }
    }
    hide GraphClaimHeld, ReservedNodes, EvidenceNodes;
  }

  // ------------------------------------------------ what the remembered checks see

  lemma SupportItems(s: Stores, s': Stores, sel: Selection, ids: set<Id>)
    ensures EvidenceNodes(s.graph, sel, ids, {}) <= EvidenceNodes(s'.graph, sel, ids, {}) <==>
      forall id :: IsSupport(s, sel, ids, id) ==> SameNode(s.graph, s'.graph, id)
  {
    if EvidenceNodes(s.graph, sel, ids, {}) <= EvidenceNodes(s'.graph, sel, ids, {}) {
      forall id | IsSupport(s, sel, ids, id)
        ensures SameNode(s.graph, s'.graph, id)
      {
        assert ItemOf(id, s.graph.nodes[id]) in EvidenceNodes(s'.graph, sel, ids, {});
      }
    }
    if forall id :: IsSupport(s, sel, ids, id) ==> SameNode(s.graph, s'.graph, id) {
      forall id | id in s.graph.nodes && IsEvidence(s.graph, sel, ids, id)
        ensures ItemOf(id, s.graph.nodes[id]) in EvidenceNodes(s'.graph, sel, ids, {})
      {
        assert IsSupport(s, sel, ids, id);
      }
    }
  }

  /** The supports that were frozen have the source row they had. */
  ghost predicate SameSources(f: Stores, s: Stores, plan: Plan) {
    forall id :: IsSupport(f, plan.sel, plan.Ids(), id) ==> Lookup(f.docs.sources, id) == Lookup(s.docs.sources, id)
  }

  /** The plan's sections and supports are those of the stores f. */
  ghost predicate FrozenFrom(f: Stores, plan: Plan) {
    plan.sections == SectionsOf(f, plan.sel, plan.Ids()) && plan.evidenceIds == EvidenceIds(f.graph, plan.sel, plan.Ids())
  }

  lemma SourcesExactly(f: Stores, s: Stores, plan: Plan)
    requires FrozenFrom(f, plan)
    ensures SourceSection(s.docs, plan.evidenceIds) == plan.sections.evidenceSource <==> SameSources(f, s, plan)
  {
    DocumentSections(f, s, plan.evidenceIds);
  }

  /**
   * The projected check passes exactly if Documents, Claims, edges, supports and their sources are as
   * frozen and every Claim that loses a support keeps another.
   */
  lemma ProjectedExactly(f: Stores, s: Stores, plan: Plan)
    requires FrozenFrom(f, plan)
    ensures Projected(s, plan) <==>
      && SameGraphRows(f.graph, s.graph, plan.Ids())
      && (forall id :: IsSupport(f, plan.sel, plan.Ids(), id) || IsSupport(s, plan.sel, plan.Ids(), id) ==> SameNode(f.graph, s.graph, id))
      && SameSources(f, s, plan)
      && GraphClaimsStand(s, plan)
  {
    var sel, ids := plan.sel, plan.Ids();
    ReservedSection(f.graph, s.graph);
    ReservedSection(s.graph, f.graph);
    EdgeSection(f.graph, s.graph, ids);
    EdgeSection(s.graph, f.graph, ids);
    SupportItems(f, s, sel, ids);
    SupportItems(s, f, sel, ids);
    SourcesExactly(f, s, plan);
    GraphCheckExactly(s, plan);
    hide ReservedNodes, EvidenceNodes, FreeEdges, SourceSection, EvidenceIds, GraphClaimsHeld, GraphClaimsStand, SameSources, IsSupport,
      SameNode, SameEdge, HasType;
  }

  /** The registry check passes exactly if the foreign rows and the sources are as frozen and every Claim keeps a support. */
  lemma RegistryGlobalExactly(f: Stores, s: Stores, plan: Plan)
    requires FrozenFrom(f, plan)
    ensures RegistryGlobal(s, plan) <==>
      SameRegistryRows(f.registry, s.registry, plan.Ids()) && SameSources(f, s, plan) && RegistryClaimsStand(s, plan)
  {
    RegistrySections(f.registry, s.registry, plan.Ids());
    SourcesExactly(f, s, plan);
    RegistryCheckExactly(s, plan);
    hide SourceSection, EvidenceIds, RegistryNodes, RegistryEdges, RegistryClaimsHeld, RegistryClaimsStand, SameSources, SameRegistryRows;
  }
}
