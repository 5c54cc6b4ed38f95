/**
 * The states a run can leave behind. After any commits the stores are exactly the frozen
 * stores minus the rows of the candidates already erased, one set of candidates per axis;
 * on such a state every check of a restart passes and every delete does its exact share.
 */
module Progress {
  import opened Basics
  import opened CleanupModel
  import opened EdgeIntent
  import opened Protection
  import opened Transactions

  /** The candidates erased so far, per store. */
  datatype Done = Done(vectors: set<Id>, graph: set<Id>, docs: set<Id>, registry: set<Id>)
  {
    function Of(a: Axis): set<Id> {
      match a
      case VectorAxis => vectors
      case GraphAxis => graph
      case DocumentAxis => docs
      case RegistryAxis => registry
    }

    function Add(a: Axis, id: Id): Done {
      match a
      case VectorAxis => this.(vectors := vectors + {id})
      case GraphAxis => this.(graph := graph + {id})
      case DocumentAxis => this.(docs := docs + {id})
      case RegistryAxis => this.(registry := registry + {id})
    }

    predicate Within(ids: set<Id>) {
      vectors <= ids && graph <= ids && docs <= ids && registry <= ids
    }

    predicate Includes(d: Done) {
      d.vectors <= vectors && d.graph <= graph && d.docs <= docs && d.registry <= registry
    }

    /** Candidates are erased from the vectors first, then the graph, the documents and the registry. */
    predicate InOrder() {
      registry <= docs && docs <= graph && graph <= vectors
    }

    /** All four axes of a candidate are erased. */
    predicate Whole(id: Id) {
      id in vectors && id in graph && id in docs && id in registry
    }

    lemma IncludesItself()
      ensures this.Includes(this)
    {
    }

    lemma IncludesKeeps(d: Done)
      requires this.Includes(d)
      ensures forall a: Axis, id :: id in d.Of(a) ==> id in this.Of(a)
      ensures forall id :: d.Whole(id) ==> this.Whole(id)
      ensures forall e: Done :: d.Includes(e) ==> this.Includes(e)
    {
    }

    lemma AddPresent(a: Axis, id: Id)
      ensures id in this.Of(a) ==> this.Add(a, id) == this
      ensures id in this.Add(a, id).Of(a) && this.Add(a, id).Includes(this)
    {
      if id in this.Of(a) {
        match a {
          case VectorAxis => assert vectors + {id} == vectors;
          case GraphAxis => assert graph + {id} == graph;
          case DocumentAxis => assert docs + {id} == docs;
          case RegistryAxis => assert registry + {id} == registry;
        }
      }
    }
  }

  const NOTHING_DONE: Done := Done({}, {}, {}, {})

  function EraseGraph(g: Graph, d: set<Id>): Graph {
    Graph(g.nodes - d, map k | k in g.edges && k.fromId !in d && k.toId !in d :: g.edges[k])
  }

  function EraseDocs(x: Docs, d: set<Id>): Docs {
    Docs(
      x.sources - d,
      map r | r in x.fts && x.fts[r].sourceId !in d :: x.fts[r],
      map k | k in x.nodes && k.nodeId !in d :: x.nodes[k],
      if x.integrity.Some? then Some(x.integrity.value - d) else None)
  }

  function EraseRegistry(r: Registry, d: set<Id>): Registry {
    Registry(
      map i | i in r.nodes && r.nodes[i].nodeId !in d :: r.nodes[i],
      map i | i in r.edges && !TouchesTargets(r.edges[i], d) :: r.edges[i])
  }

  /** The frozen stores minus the rows of the erased candidates. */
  function Erase(f: Stores, d: Done): Stores {
    Stores(EraseGraph(f.graph, d.graph), EraseDocs(f.docs, d.docs), f.vectors - d.vectors, EraseRegistry(f.registry, d.registry))
  }

  lemma NothingErased(f: Stores)
    ensures Erase(f, NOTHING_DONE) == f
  {
    var e := Erase(f, NOTHING_DONE);
    assert e.graph.edges == f.graph.edges && e.graph.nodes == f.graph.nodes;
    assert e.docs.fts == f.docs.fts && e.docs.nodes == f.docs.nodes && e.docs.sources == f.docs.sources;
    assert f.docs.integrity.Some? ==> f.docs.integrity.value - {} == f.docs.integrity.value;
    assert e.registry.nodes == f.registry.nodes && e.registry.edges == f.registry.edges;
    assert e.vectors == f.vectors;
  }

  /** A manifest an eligible dry run published for the stores f. */
  ghost predicate FrozenPlan(f: Stores, plan: Plan) {
    match plan
    case Plan(sel, records, sections, evidenceIds, _, graphClaims, _) =>
      && sel.nodeType !in RESERVED_TYPES
      && (forall r :: r in records ==> FrozenRecord(f, sel, r))
      && (forall i, j :: 0 <= i < j < |records| ==> records[i].id != records[j].id)
      && sections == SectionsOf(f, sel, plan.Ids())
      && evidenceIds == EvidenceIds(f.graph, sel, plan.Ids())
      && (forall id :: id in graphClaims ==> id in f.graph.nodes && f.graph.nodes[id].nodeType == "Claim")
      && GraphClaimsHeld(f, plan, {}, {})
      && RegistryClaimsHeld(f, plan)
  }

  lemma {:induction false} InSomeOrder(edges: set<Edge>) returns (order: seq<Edge>)
    ensures Distinct(order) && Elements(order) == edges
  {
    order := [];
    if edges != {} {
      var e :| e in edges;
      var rest := InSomeOrder(edges - {e});
      assert forall i :: 0 <= i < |rest| ==> rest[i] in Elements(rest);
      order := rest + [e];
      assert Elements(order) == Elements(rest) + {e};
    }
  }

  lemma EligibleIsFrozen(f: Stores, sel: Selection, id: Id) returns (rec: Record)
    requires Eligible(f, sel, id)
    ensures FrozenRecord(f, sel, rec) && rec.id == id
  {
    var edges := InSomeOrder(Incident(f.graph, id));
    assert DocKey(EVIDENCE, id) in DocKeysOf(f.docs, id);
    rec := Record(id, f.docs.sources[id], f.docs.nodes[DocKey(EVIDENCE, id)].props.value, f.graph.nodes[id].props.value,
                  f.vectors[id], edges, SnapshotOf(f, id));
  }

  lemma {:induction false} EligibleAreFrozen(f: Stores, sel: Selection, ids: seq<Id>) returns (records: seq<Record>)
    requires forall id :: id in ids ==> Eligible(f, sel, id)
    ensures |records| == |ids| && forall i :: 0 <= i < |ids| ==> records[i].id == ids[i] && FrozenRecord(f, sel, records[i])
  {
    hide Eligible, FrozenRecord;
    records := [];
    if ids != [] {
      records := EligibleAreFrozen(f, sel, ids[..|ids| - 1]);
      var rec := EligibleIsFrozen(f, sel, ids[|ids| - 1]);
      records := records + [rec];
    }
  }

  /**
   * Any eligible candidates of any stores can be frozen, with any Claims of the graph, provided that
   * the Claims their edges support stand without them.
   */
  lemma CandidatesFreeze(f: Stores, sel: Selection, ids: seq<Id>, evidence: map<Id, EvidenceItem>, graphClaims: set<Id>, registryClaims: set<Id>)
    returns (plan: Plan)
    requires sel.nodeType !in RESERVED_TYPES && Distinct(ids) && forall id :: id in ids ==> Eligible(f, sel, id)
    requires forall id :: id in graphClaims ==> id in f.graph.nodes && f.graph.nodes[id].nodeType == "Claim"
    ensures plan.sel == sel && plan.evidence == evidence && plan.graphClaims == graphClaims && plan.registryClaims == registryClaims
    ensures |plan.records| == |ids| && forall i :: 0 <= i < |ids| ==> plan.records[i].id == ids[i]
    ensures FrozenPlan(f, plan) <==> GraphClaimsStand(f, plan) && RegistryClaimsStand(f, plan)
  {
    var records := EligibleAreFrozen(f, sel, ids);
    plan := Plan(sel, records, SectionsOf(f, sel, IdsOf(records)), EvidenceIds(f.graph, sel, IdsOf(records)), evidence, graphClaims, registryClaims);
    GraphCheckExactly(f, plan);
    RegistryCheckExactly(f, plan);
    hide FrozenRecord, GraphClaimsHeld, RegistryClaimsHeld, GraphClaimsStand, RegistryClaimsStand, Eligible;
  }

  lemma FrozenPlanIsClean(f: Stores, plan: Plan)
    requires FrozenPlan(f, plan)
    ensures CleanPlan(plan)
  {
    forall r, e | r in plan.records && e in r.edges
      ensures Touches(e, r.id)
    {
      assert FrozenRecord(f, plan.sel, r);
      assert e in Incident(f.graph, r.id);
    }
    forall id | id in plan.Ids()
      ensures id in f.graph.nodes && f.graph.nodes[id].nodeType == plan.sel.nodeType
    {
      var r :| r in plan.records && r.id == id;
      assert FrozenRecord(f, plan.sel, r);
    }
    forall r, i | r in plan.records && i in r.snapshot.regNodes
      ensures r.snapshot.regNodes[i].space == EVIDENCE
    {
      assert FrozenRecord(f, plan.sel, r);
    }
  }

  lemma CandidateFacts(f: Stores, plan: Plan, id: Id)
    requires FrozenPlan(f, plan) && id in plan.Ids()
    ensures Eligible(f, plan.sel, id)
  {
    var r :| r in plan.records && r.id == id;
    assert FrozenRecord(f, plan.sel, r);
  }

  /** Erasing candidates only removes candidate rows. */
  lemma EraseShrinks(f: Stores, plan: Plan, d: Done)
    requires FrozenPlan(f, plan) && d.Within(plan.Ids())
    ensures Shrinks(f, Erase(f, d), plan.sel, plan.Ids())
  {
    forall id | id in plan.Ids()
      ensures id in f.graph.nodes && f.graph.nodes[id].nodeType == plan.sel.nodeType
      ensures forall i :: i in f.registry.nodes && f.registry.nodes[i].nodeId == id ==> f.registry.nodes[i].space == EVIDENCE
    {
      CandidateFacts(f, plan, id);
    }
  }

  /** Every check over protected rows and Claims passes in every state of the run. */
  lemma VerdictsHold(f: Stores, plan: Plan, d: Done)
    requires FrozenPlan(f, plan) && d.Within(plan.Ids())
    ensures Projected(Erase(f, d), plan)
    ensures RegistryGlobal(Erase(f, d), plan)
    ensures ProtectionHolds(Erase(f, d), plan)
    ensures GraphClaimsHeld(Erase(f, d), plan, {}, {})
    ensures RegistryClaimsHeld(Erase(f, d), plan)
  {
    FrozenPlanIsClean(f, plan);
    EraseShrinks(f, plan, d);
    VerdictsSurvive(f, Erase(f, d), plan);
  }

  // ------------------------------------------------ one candidate's view of it

  lemma ErasedEdges(g: Graph, d: set<Id>)
    ensures forall e :: e in Edges(EraseGraph(g, d)) <==> e in Edges(g) && !TouchesAny(e, d)
  {
    forall e
      ensures e in Edges(EraseGraph(g, d)) <==> e in Edges(g) && !TouchesAny(e, d)
    {
      StoredEdge(g, e);
      StoredEdge(EraseGraph(g, d), e);
    }
  }

  lemma ErasedGraphView(f: Stores, plan: Plan, d: set<Id>, rec: Record)
    requires FrozenPlan(f, plan) && rec in plan.records
    ensures var g := EraseGraph(f.graph, d);
      && Lookup(g.nodes, rec.id) == (if rec.id in d then None else rec.snapshot.graph)
      && Incident(g, rec.id) <= rec.snapshot.edges
      && (rec.id in d ==> Incident(g, rec.id) == {})
  {
    assert FrozenRecord(f, plan.sel, rec);
    ErasedEdges(f.graph, d);
  }

  lemma ErasedFts(x: Docs, d: set<Id>, id: Id)
    ensures FtsOf(EraseDocs(x, d), id) == if id in d then NO_FTS else FtsOf(x, id)
  {
    var y := EraseDocs(x, d);
    if id in d {
      assert FtsRowsOf(y, id) == {};
    } else {
      assert FtsRowsOf(y, id) == FtsRowsOf(x, id);
      forall r | r in FtsRowsOf(x, id)
        ensures x.fts[r].text in FtsOf(y, id).texts
      {
        assert r in y.fts && y.fts[r] == x.fts[r];
      }
    }
  }

  lemma ErasedDocsView(f: Stores, plan: Plan, d: set<Id>, rec: Record)
    requires FrozenPlan(f, plan) && rec in plan.records
    ensures var x := EraseDocs(f.docs, d);
      && Lookup(x.sources, rec.id) == (if rec.id in d then None else rec.snapshot.source)
      && FtsOf(x, rec.id) == (if rec.id in d then NO_FTS else rec.snapshot.fts)
      && DocRowsOf(x, rec.id) == (if rec.id in d then map[] else rec.snapshot.doc)
  {
    assert FrozenRecord(f, plan.sel, rec);
    ErasedFts(f.docs, d, rec.id);
  }

  lemma ErasedRegistryView(f: Stores, plan: Plan, d: set<Id>, rec: Record)
    requires FrozenPlan(f, plan) && rec in plan.records
    ensures var r := EraseRegistry(f.registry, d);
      && RegNodesOf(r, rec.id) == (if rec.id in d then map[] else rec.snapshot.regNodes)
      && Submap(RegEdgesOf(r, rec.id), rec.snapshot.regEdges)
      && (rec.id in d ==> RegEdgesOf(r, rec.id) == map[])
      && !ForeignTuple(r, rec.id)
  {
    assert FrozenRecord(f, plan.sel, rec);
    assert !ForeignTuple(f.registry, rec.id);
  }

  /** Each frozen axis is non-empty, so "empty" can only mean "erased". */
  lemma FrozenAxesAreFull(f: Stores, plan: Plan, rec: Record)
    requires FrozenPlan(f, plan) && rec in plan.records
    ensures FullSnapshot(rec.snapshot)
  {
    assert FrozenRecord(f, plan.sel, rec);
    assert DocKey(EVIDENCE, rec.id) in DocKeysOf(f.docs, rec.id);
    assert DocKey(EVIDENCE, rec.id) in DocRowsOf(f.docs, rec.id);
  }

  /** Entry by entry: either still as recorded, or erased with its axis. */
  ghost predicate PartlyErased(now: Snapshot, recorded: Snapshot, gone: set<Axis>) {
    && now.vector == (if VectorAxis in gone then None else recorded.vector)
    && now.graph == (if GraphAxis in gone then None else recorded.graph)
    && (GraphAxis in gone ==> now.edges == {})
    && now.source == (if DocumentAxis in gone then None else recorded.source)
    && now.fts == (if DocumentAxis in gone then NO_FTS else recorded.fts)
    && now.doc == (if DocumentAxis in gone then map[] else recorded.doc)
    && now.regNodes == (if RegistryAxis in gone then map[] else recorded.regNodes)
    && Submap(now.regEdges, recorded.regEdges)
    && (RegistryAxis in gone ==> now.regEdges == map[])
  }

  ghost predicate FullSnapshot(s: Snapshot) {
    && s.vector.Some? && s.graph.Some? && s.source.Some?
    && s.fts != NO_FTS && s.doc != map[] && s.regNodes != map[]
  }

  lemma PartlyErasedIsAllowed(now: Snapshot, recorded: Snapshot, gone: set<Axis>)
    requires PartlyErased(now, recorded, gone) && FullSnapshot(recorded)
    ensures forall a: Axis :: TargetKeys(a) <= DoneKeys(now) <==> a in gone
    ensures Allowed(now.(edges := recorded.edges), recorded, DoneKeys(now))
  {
    assert KVector in DoneKeys(now) <==> VectorAxis in gone;
    assert KGraph in DoneKeys(now) <==> GraphAxis in gone;
    assert KEdges in DoneKeys(now) <==> GraphAxis in gone;
    assert KSource in DoneKeys(now) <==> DocumentAxis in gone;
    assert KFts in DoneKeys(now) <==> DocumentAxis in gone;
    assert KDoc in DoneKeys(now) <==> DocumentAxis in gone;
    assert KRegNode in DoneKeys(now) <==> RegistryAxis in gone;
    assert RegistryAxis in gone ==> KRegEdges in DoneKeys(now);
    assert KVector in TargetKeys(VectorAxis) && KGraph in TargetKeys(GraphAxis);
    assert KSource in TargetKeys(DocumentAxis) && KRegNode in TargetKeys(RegistryAxis);
  }

  function Gone(d: Done, id: Id): set<Axis> {
    set a: Axis | id in d.Of(a)
  }

  /** Each entry of an erased candidate is the frozen one or empty, axis by axis. */
  lemma ErasedView(f: Stores, plan: Plan, d: Done, rec: Record)
    requires FrozenPlan(f, plan) && rec in plan.records
    ensures !ForeignTuple(Erase(f, d).registry, rec.id)
    ensures PartlyErased(SnapshotOf(Erase(f, d), rec.id), rec.snapshot, Gone(d, rec.id))
  {
    ErasedGraphView(f, plan, d.graph, rec);
    ErasedDocsView(f, plan, d.docs, rec);
    ErasedRegistryView(f, plan, d.registry, rec);
    FrozenVector(f, plan, d.vectors, rec);
  }

  /** A restart sees an axis as done exactly when the tool erased it, and refuses nothing it did itself. */
  lemma RestartAccepts(f: Stores, plan: Plan, d: Done, rec: Record)
    requires FrozenPlan(f, plan) && rec in plan.records
    ensures var now := SnapshotOf(Erase(f, d), rec.id);
      && !ForeignTuple(Erase(f, d).registry, rec.id)
      && (forall a: Axis :: TargetKeys(a) <= DoneKeys(now) <==> rec.id in d.Of(a))
      && Allowed(now.(edges := rec.snapshot.edges), rec.snapshot, DoneKeys(now))
  {
    ErasedView(f, plan, d, rec);
    FrozenAxesAreFull(f, plan, rec);
    PartlyErasedIsAllowed(SnapshotOf(Erase(f, d), rec.id), rec.snapshot, Gone(d, rec.id));
    assert forall a: Axis :: a in Gone(d, rec.id) <==> rec.id in d.Of(a);
  }

  lemma FrozenVector(f: Stores, plan: Plan, d: set<Id>, rec: Record)
    requires FrozenPlan(f, plan) && rec in plan.records
    ensures Lookup(f.vectors - d, rec.id) == (if rec.id in d then None else rec.snapshot.vector)
  {
    assert FrozenRecord(f, plan.sel, rec);
  }

  lemma RestartIntent(f: Stores, plan: Plan, intent: Intent, d: set<Id>)
    requires FrozenPlan(f, plan) && ValidIntent(intent, plan.records)
    ensures IntentHolds(EraseGraph(f.graph, d), plan.Ids(), intent)
    ensures forall id :: id in plan.Ids() ==> IntentHoldsFor(EraseGraph(f.graph, d), plan.Ids(), intent, id)
  {
    FrozenPlanIsClean(f, plan);
    var g := EraseGraph(f.graph, d);
    ErasedEdges(f.graph, d);
    forall e | e in Edges(g) && TouchesAny(e, plan.Ids())
      ensures e in Recorded(plan.records)
    {
      var r :| r in plan.records && Touches(e, r.id);
      assert FrozenRecord(f, plan.sel, r);
      assert e in Incident(f.graph, r.id);
      assert e in Elements(r.edges);
    }
    IntentIsUpperBound(g, plan.records, intent);
    ScopedRefinesGlobal(g, plan.records, intent);
  }

  // --------------------------------------------------- each delete's exact share

  lemma VectorDeleteAdvances(f: Stores, plan: Plan, d: Done, rec: Record)
    requires FrozenPlan(f, plan) && rec in plan.records && rec.id !in d.vectors
    ensures TxVector(Erase(f, d).vectors, rec) == Some(f.vectors - (d.vectors + {rec.id}))
  {
    assert FrozenRecord(f, plan.sel, rec);
    assert f.vectors - d.vectors - {rec.id} == f.vectors - (d.vectors + {rec.id});
  }

  /** The recorded keys of a candidate are those of its stored edges. */
  lemma RecordedKeys(f: Stores, plan: Plan, rec: Record, k: EdgeKey)
    requires FrozenPlan(f, plan) && rec in plan.records && k in f.graph.edges
    ensures k in Keys(rec.edges) <==> k.fromId == rec.id || k.toId == rec.id
  {
    assert FrozenRecord(f, plan.sel, rec);
    var e := EdgeOf(k, f.graph.edges[k]);
    assert KeyOf(e) == k && e in Edges(f.graph);
    assert e in Elements(rec.edges) <==> e in Incident(f.graph, rec.id);
    if k in Keys(rec.edges) {
      var e' :| e' in rec.edges && KeyOf(e') == k;
      assert e' in Incident(f.graph, rec.id);
    }
  }

  lemma GraphAfterErases(f: Stores, plan: Plan, d: set<Id>, rec: Record)
    requires FrozenPlan(f, plan) && rec in plan.records
    ensures GraphAfter(EraseGraph(f.graph, d), rec) == EraseGraph(f.graph, d + {rec.id})
  {
    hide FrozenPlan, Keys;
    var g, g1, g2 := f.graph, GraphAfter(EraseGraph(f.graph, d), rec), EraseGraph(f.graph, d + {rec.id});
    assert g1.nodes == g2.nodes;
    forall k | k in g.edges
      ensures k in Keys(rec.edges) <==> k.fromId == rec.id || k.toId == rec.id
    {
      RecordedKeys(f, plan, rec, k);
    }
    assert g1.edges == g2.edges;
  }

  lemma RecordedEdgesMatch(f: Stores, plan: Plan, intent: Intent, d: set<Id>, rec: Record)
    requires FrozenPlan(f, plan) && rec in plan.records && ValidIntent(intent, plan.records)
    ensures EdgeCas(EraseGraph(f.graph, d), rec, intent)
  {
    assert FrozenRecord(f, plan.sel, rec);
    forall e | e in rec.edges
      ensures e in intent.component || e in Approved(intent.boundary)
      ensures KeyOf(e) in f.graph.edges && EdgeOf(KeyOf(e), f.graph.edges[KeyOf(e)]) == e
    {
      assert e in Recorded(plan.records);
      assert e in Incident(f.graph, rec.id);
      StoredEdge(f.graph, e);
    }
  }

  lemma GraphPostHolds(f: Stores, plan: Plan, intent: Intent, d: set<Id>, rec: Record)
    requires FrozenPlan(f, plan) && rec in plan.records && ValidIntent(intent, plan.records)
    ensures GraphPost(EraseGraph(f.graph, d), EraseGraph(f.graph, d + {rec.id}), plan.Ids(), rec, intent)
  {
    RestartIntent(f, plan, intent, d + {rec.id});
    ErasedGraphView(f, plan, d, rec);
    ErasedGraphView(f, plan, d + {rec.id}, rec);
    assert rec.snapshot.edges == Elements(rec.edges) by {
      assert FrozenRecord(f, plan.sel, rec);
    }
    PostFromIncidence(EraseGraph(f.graph, d), EraseGraph(f.graph, d + {rec.id}), plan.Ids(), rec);
  }

  lemma PostFromIncidence(g: Graph, g': Graph, ids: set<Id>, rec: Record)
    requires Incident(g', rec.id) == {} && Incident(g, rec.id) <= Elements(rec.edges)
    ensures Touching(ComponentStored(g', ids), rec.id) == Touching(ComponentStored(g, ids), rec.id) - Elements(rec.edges)
    ensures Touching(BoundaryStored(g', ids), rec.id) == Touching(BoundaryStored(g, ids), rec.id) - Elements(rec.edges)
  {
    forall e | e in Edges(g) && Touches(e, rec.id)
      ensures e in Elements(rec.edges)
    {
      assert e in Incident(g, rec.id);
    }
    forall e | e in Edges(g')
      ensures !Touches(e, rec.id)
    {
      assert e !in Incident(g', rec.id);
    }
  }

  lemma ErasedNodeCas(f: Stores, plan: Plan, d: set<Id>, rec: Record)
    requires FrozenPlan(f, plan) && rec in plan.records && rec.id !in d
    ensures NodeCas(EraseGraph(f.graph, d), rec, plan.sel)
  {
    assert FrozenRecord(f, plan.sel, rec);
  }

  lemma ErasedProjectedFor(f: Stores, plan: Plan, d: Done, rec: Record)
    requires FrozenPlan(f, plan) && d.Within(plan.Ids()) && rec in plan.records && rec.id !in d.graph
    ensures ProjectedFor(Erase(f, d), plan, Elements(rec.edges), {rec.id})
  {
    FrozenPlanIsClean(f, plan);
    VerdictsHold(f, plan, d);
    ErasedNodeCas(f, plan, d.graph, rec);
    forall e | e in Elements(rec.edges)
      ensures TouchesAny(e, plan.Ids())
    {
      assert Touches(e, rec.id);
    }
    ProjectedIgnoresThePlan(Erase(f, d), plan, Elements(rec.edges), {rec.id});
  }

  lemma GraphDeleteAdvances(f: Stores, plan: Plan, intent: Intent, d: Done, rec: Record, remembered: bool)
    requires FrozenPlan(f, plan) && d.Within(plan.Ids()) && rec in plan.records && rec.id !in d.graph
    requires ValidIntent(intent, plan.records)
    ensures TxGraph(Erase(f, d), rec, plan, intent, remembered) == Some(EraseGraph(f.graph, d.graph + {rec.id}))
  {
    ErasedNodeCas(f, plan, d.graph, rec);
    RestartIntent(f, plan, intent, d.graph);
    RecordedEdgesMatch(f, plan, intent, d.graph, rec);
    ErasedProjectedFor(f, plan, d, rec);
    GraphPostHolds(f, plan, intent, d.graph, rec);
    GraphAfterErases(f, plan, d.graph, rec);
  }

  /** With one doc row per id the delete is the erasure. */
  lemma DocsAfterErases(x: Docs, d: set<Id>, id: Id)
    requires DocKeysOf(x, id) == {DocKey(EVIDENCE, id)} && id !in d
    ensures DocsAfter(EraseDocs(x, d), id, Some(DocKey(EVIDENCE, id))) == EraseDocs(x, d + {id})
  {
    var y, z := DocsAfter(EraseDocs(x, d), id, Some(DocKey(EVIDENCE, id))), EraseDocs(x, d + {id});
    assert y.sources == z.sources;
    assert y.fts == z.fts;
    assert forall k :: k in x.nodes && k.nodeId == id ==> k in DocKeysOf(x, id);
    assert y.nodes == z.nodes;
    assert x.integrity.Some? ==> y.integrity.value == z.integrity.value;
  }

  lemma ErasedDocsCas(f: Stores, plan: Plan, d: set<Id>, rec: Record, row: Option<DocKey>)
    requires FrozenPlan(f, plan) && rec in plan.records && rec.id !in d
    requires FetchedRow(EraseDocs(f.docs, d), rec.id, row)
    ensures row == Some(DocKey(EVIDENCE, rec.id))
    ensures DocKeysOf(f.docs, rec.id) == {DocKey(EVIDENCE, rec.id)}
    ensures DocsCas(EraseDocs(f.docs, d), rec, plan.sel, row)
  {
    ErasedDocsView(f, plan, d, rec);
    assert FrozenRecord(f, plan.sel, rec);
    assert DocKeysOf(EraseDocs(f.docs, d), rec.id) == DocRowsOf(EraseDocs(f.docs, d), rec.id).Keys;
    assert DocKeysOf(f.docs, rec.id) == DocRowsOf(f.docs, rec.id).Keys;
  }

  lemma DocumentDeleteAdvances(f: Stores, plan: Plan, d: Done, rec: Record, row: Option<DocKey>)
    requires FrozenPlan(f, plan) && rec in plan.records && rec.id !in d.docs
    requires FetchedRow(Erase(f, d).docs, rec.id, row)
    ensures TxDocs(Erase(f, d).docs, rec, plan.sel, row) == Some(EraseDocs(f.docs, d.docs + {rec.id}))
  {
    ErasedDocsCas(f, plan, d.docs, rec, row);
    DocsAfterErases(f.docs, d.docs, rec.id);
  }

  /** On a registry without foreign tuples for the id, the delete is the erasure. */
  lemma RegistryAfterErases(r: Registry, d: set<Id>, id: Id)
    requires forall i :: i in r.nodes && r.nodes[i].nodeId == id ==> r.nodes[i].space == EVIDENCE
    ensures RegistryAfter(EraseRegistry(r, d), id) == EraseRegistry(r, d + {id})
  {
    var r1, r2 := RegistryAfter(EraseRegistry(r, d), id), EraseRegistry(r, d + {id});
    assert r1.nodes == r2.nodes;
    assert r1.edges == r2.edges;
  }

  lemma ErasedRegistryCas(f: Stores, plan: Plan, d: set<Id>, rec: Record)
    requires FrozenPlan(f, plan) && rec in plan.records && rec.id !in d
    ensures RegistryCas(EraseRegistry(f.registry, d), rec)
  {
    ErasedRegistryView(f, plan, d, rec);
    var r := EraseRegistry(f.registry, d);
    assert RegEdgesOf(r, rec.id).Keys == TargetEdges(r, rec.id).Keys;
    assert Submap(TargetEdges(r, rec.id), RegEdgesOf(r, rec.id));
  }

  lemma RegistryDeleteErases(f: Stores, plan: Plan, d: set<Id>, rec: Record)
    requires FrozenPlan(f, plan) && rec in plan.records
    ensures RegistryAfter(EraseRegistry(f.registry, d), rec.id) == EraseRegistry(f.registry, d + {rec.id})
  {
    assert rec.id in plan.Ids();
    CandidateFacts(f, plan, rec.id);
    RegistryAfterErases(f.registry, d, rec.id);
  }

  lemma RegistryTxPasses(s: Stores, rec: Record, plan: Plan, remembered: bool, after: Registry)
    requires RegistryGlobal(s, plan) && RegistryCas(s.registry, rec) && RegistryAfter(s.registry, rec.id) == after
    ensures TxRegistry(s, rec, plan, remembered) == Some(after)
  {
  }

  lemma RegistryDeleteAdvances(f: Stores, plan: Plan, d: Done, rec: Record, remembered: bool)
    requires FrozenPlan(f, plan) && d.Within(plan.Ids()) && rec in plan.records && rec.id !in d.registry
    ensures TxRegistry(Erase(f, d), rec, plan, remembered) == Some(EraseRegistry(f.registry, d.registry + {rec.id}))
  {
    VerdictsHold(f, plan, d);
    RegistryDeleteErases(f, plan, d.registry, rec);
    ErasedRegistryCas(f, plan, d.registry, rec);
    RegistryTxPasses(Erase(f, d), rec, plan, remembered, EraseRegistry(f.registry, d.registry + {rec.id}));
  }
}
