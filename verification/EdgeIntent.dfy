/**
 * The receipt's edge intent and the R/D/S rule: of the recorded edges R only the
 * approved ones D may be missing from the stored edges S, and S holds nothing else.
 */
module EdgeIntent {
  import opened Basics
  import opened CleanupModel

  datatype BoundaryItem = BoundaryItem(candidate: Id, deletionTarget: bool)

  /** component: edge -> approved_absent; boundary: edge -> its item. */
  datatype Intent = Intent(component: map<Edge, bool>, boundary: map<Edge, BoundaryItem>)

  predicate IsComponent(e: Edge, ids: set<Id>) {
    e.fromId in ids && e.toId in ids
  }

  predicate IsBoundary(e: Edge, ids: set<Id>) {
    (e.fromId in ids) != (e.toId in ids)
  }

  /** The edges recorded for all candidates together. */
  function Recorded(records: seq<Record>): set<Edge> {
    set r, e | r in records && e in r.edges :: e
  }

  /** Selection records for a candidate only edges that touch it. */
  ghost predicate TouchingRecords(records: seq<Record>) {
    forall r, e :: r in records && e in r.edges ==> Touches(e, r.id)
  }

  /** What _build_component_intents must produce; _strict_equal compares a receipt with it. */
  ghost predicate ValidIntent(intent: Intent, records: seq<Record>) {
    var ids := IdsOf(records);
    && (forall e :: e in intent.component <==> e in Recorded(records) && IsComponent(e, ids))
    && (forall e :: e in intent.component ==> intent.component[e])
    && (forall e :: e in intent.boundary <==> e in Recorded(records) && !IsComponent(e, ids))
    && (forall e :: e in intent.boundary ==>
          intent.boundary[e].deletionTarget && intent.boundary[e].candidate in ids && Touches(e, intent.boundary[e].candidate))
  }

  /** The two nested loops that fill the component and boundary dictionaries. */
  method BuildIntent(records: seq<Record>) returns (intent: Intent)
    requires TouchingRecords(records)
    ensures ValidIntent(intent, records)
  {
    var ids := IdsOf(records);
    var component: map<Edge, bool> := map[];
    var boundary: map<Edge, BoundaryItem> := map[];
    for i := 0 to |records|
      invariant Partial(component, boundary, Recorded(records[..i]), ids)
    {
      var record := records[i];
      ghost var before := Recorded(records[..i]);
      for j := 0 to |record.edges|
        invariant Partial(component, boundary, before + Elements(record.edges[..j]), ids)
      {
        var edge := record.edges[j];
        assert edge in record.edges && record in records;
        assert Elements(record.edges[..j + 1]) == Elements(record.edges[..j]) + {edge};
        if edge.fromId in ids && edge.toId in ids {
          component := component[edge := true];
        } else {
          boundary := boundary[edge := BoundaryItem(record.id, true)];
        }
      }
      assert record.edges[..|record.edges|] == record.edges;
      RecordedSnoc(records, i);
    }
    assert records[..|records|] == records;
    intent := Intent(component, boundary);
  }

  ghost predicate Partial(component: map<Edge, bool>, boundary: map<Edge, BoundaryItem>, seen: set<Edge>, ids: set<Id>) {
    && (forall e :: e in component <==> e in seen && IsComponent(e, ids))
    && (forall e :: e in component ==> component[e])
    && (forall e :: e in boundary <==> e in seen && !IsComponent(e, ids))
    && (forall e :: e in boundary ==>
          boundary[e].deletionTarget && boundary[e].candidate in ids && Touches(e, boundary[e].candidate))
  }

  lemma RecordedSnoc(records: seq<Record>, i: nat)
    requires i < |records|
    ensures Recorded(records[..i + 1]) == Recorded(records[..i]) + Elements(records[i].edges)
  {
    forall e
      ensures e in Recorded(records[..i + 1]) <==> e in Recorded(records[..i]) + Elements(records[i].edges)
    {
      if e in Recorded(records[..i + 1]) {
        var r :| r in records[..i + 1] && e in r.edges;
        var k :| 0 <= k < i + 1 && records[k] == r;
        if k < i { assert records[k] in records[..i]; }
      }
      if e in Recorded(records[..i]) {
        var r :| r in records[..i] && e in r.edges;
        assert r in records[..i + 1];
      }
      if e in records[i].edges { assert records[i] == records[..i + 1][i]; }
    }
  }

  // ------------------------------------------------------------- the R/D/S rule

  predicate RDS(recorded: set<Edge>, approved: set<Edge>, stored: set<Edge>) {
    recorded - approved <= stored <= recorded
  }

  function ComponentStored(g: Graph, ids: set<Id>): set<Edge> {
    set e | e in Edges(g) && IsComponent(e, ids)
  }

  function BoundaryStored(g: Graph, ids: set<Id>): set<Edge> {
    set e | e in Edges(g) && IsBoundary(e, ids)
  }

  function Approved(boundary: map<Edge, BoundaryItem>): set<Edge> {
    set e | e in boundary && boundary[e].deletionTarget
  }

  function Touching(edges: set<Edge>, id: Id): set<Edge> {
    set e | e in edges && Touches(e, id)
  }

  /** _validate_graph_intent without a scope: one pass over the whole edge table. */
  predicate IntentHolds(g: Graph, ids: set<Id>, intent: Intent) {
    && RDS(intent.component.Keys, intent.component.Keys, ComponentStored(g, ids))
    && RDS(intent.boundary.Keys, Approved(intent.boundary), BoundaryStored(g, ids))
  }

  /** The same rule restricted to the recorded keys and stored rows of one candidate. */
  predicate ScopedRDS(recorded: set<Edge>, approved: set<Edge>, stored: set<Edge>, id: Id) {
    var keys := Touching(recorded, id);
    RDS(keys, approved * keys, Touching(stored, id))
  }

  predicate IntentHoldsFor(g: Graph, ids: set<Id>, intent: Intent, id: Id) {
    && ScopedRDS(intent.component.Keys, intent.component.Keys, ComponentStored(g, ids), id)
    && ScopedRDS(intent.boundary.Keys, Approved(intent.boundary), BoundaryStored(g, ids), id)
  }

  /** Edge by edge, the rule on the whole is the rule on every candidate's share. */
  lemma ScopedIsGlobal(recorded: set<Edge>, approved: set<Edge>, stored: set<Edge>, ids: set<Id>)
    requires forall e :: e in recorded || e in stored ==> TouchesAny(e, ids)
    ensures RDS(recorded, approved, stored) <==> forall id :: id in ids ==> ScopedRDS(recorded, approved, stored, id)
  {
    if forall id :: id in ids ==> ScopedRDS(recorded, approved, stored, id) {
      forall e | e in recorded - approved
        ensures e in stored
      {
        var id := if e.fromId in ids then e.fromId else e.toId;
        assert ScopedRDS(recorded, approved, stored, id);
        assert e in Touching(recorded, id) - approved * Touching(recorded, id);
      }
      forall e | e in stored
        ensures e in recorded
      {
        var id := if e.fromId in ids then e.fromId else e.toId;
        assert ScopedRDS(recorded, approved, stored, id);
        assert e in Touching(stored, id);
      }
    }
  }

  /** The whole-graph check passes exactly when every single candidate's check passes. */
  lemma ScopedRefinesGlobal(g: Graph, records: seq<Record>, intent: Intent)
    requires TouchingRecords(records) && ValidIntent(intent, records)
    ensures IntentHolds(g, IdsOf(records), intent)
       <==> forall id :: id in IdsOf(records) ==> IntentHoldsFor(g, IdsOf(records), intent, id)
  {
    var ids := IdsOf(records);
    forall e | e in Recorded(records)
      ensures TouchesAny(e, ids)
    {
      var r :| r in records && e in r.edges;
      assert Touches(e, r.id);
    }
    ScopedIsGlobal(intent.component.Keys, intent.component.Keys, ComponentStored(g, ids), ids);
    ScopedIsGlobal(intent.boundary.Keys, Approved(intent.boundary), BoundaryStored(g, ids), ids);
  }

  /**
   * Every accepted receipt approves all recorded edges, so the lower bound of the rule
   * never refuses: the check says exactly that nothing unrecorded touches a candidate.
   */
  lemma IntentIsUpperBound(g: Graph, records: seq<Record>, intent: Intent)
    requires TouchingRecords(records) && ValidIntent(intent, records)
    ensures IntentHolds(g, IdsOf(records), intent)
       <==> forall e :: e in Edges(g) && TouchesAny(e, IdsOf(records)) ==> e in Recorded(records)
  {
    var ids := IdsOf(records);
    assert Approved(intent.boundary) == intent.boundary.Keys;
    if IntentHolds(g, ids, intent) {
      forall e | e in Edges(g) && TouchesAny(e, ids)
        ensures e in Recorded(records)
      {
        if IsComponent(e, ids) {
          assert e in ComponentStored(g, ids);
        } else {
          assert e in BoundaryStored(g, ids);
        }
      }
    }
  }

  /** For one candidate: no stored edge touches it except those its own record lists. */
  lemma ScopedIsUpperBound(g: Graph, records: seq<Record>, intent: Intent, id: Id)
    requires TouchingRecords(records) && ValidIntent(intent, records) && id in IdsOf(records)
    ensures IntentHoldsFor(g, IdsOf(records), intent, id) <==> Incident(g, id) <= Recorded(records)
  {
    var ids := IdsOf(records);
    assert Approved(intent.boundary) == intent.boundary.Keys;
    if IntentHoldsFor(g, ids, intent, id) {
      forall e | e in Incident(g, id)
        ensures e in Recorded(records)
      {
        if IsComponent(e, ids) {
          assert e in Touching(ComponentStored(g, ids), id);
        } else {
          assert e in Touching(BoundaryStored(g, ids), id);
        }
      }
    }
    if Incident(g, id) <= Recorded(records) {
      forall e | e in Touching(ComponentStored(g, ids), id)
        ensures e in Touching(intent.component.Keys, id)
      {
        assert e in Incident(g, id);
      }
      forall e | e in Touching(BoundaryStored(g, ids), id)
        ensures e in Touching(intent.boundary.Keys, id)
      {
        assert e in Incident(g, id);
      }
    }
  }

  // ------------------------------------------------------- the per-candidate index

  /** _scoped_keys: one pass over the recorded edges files each key under both endpoints. */
  method BuildKeyIndex(recorded: seq<Edge>) returns (byNode: map<Id, set<Edge>>)
    ensures forall id :: (if id in byNode then byNode[id] else {}) == Touching(Elements(recorded), id)
  {
    byNode := map[];
    for i := 0 to |recorded|
      invariant forall id :: (if id in byNode then byNode[id] else {}) == Touching(Elements(recorded[..i]), id)
    {
      var edge := recorded[i];
      ghost var previous := byNode;
      var from := if edge.fromId in byNode then byNode[edge.fromId] else {};
      byNode := byNode[edge.fromId := from + {edge}];
      var to := if edge.toId in byNode then byNode[edge.toId] else {};
      byNode := byNode[edge.toId := to + {edge}];
      forall id
        ensures (if id in byNode then byNode[id] else {}) == Touching(Elements(recorded[..i + 1]), id)
      {
        assert (if id in previous then previous[id] else {}) == Touching(Elements(recorded[..i]), id);
        assert Elements(recorded[..i + 1]) == Elements(recorded[..i]) + {edge};
        assert Touching(Elements(recorded[..i + 1]), id)
            == Touching(Elements(recorded[..i]), id) + (if Touches(edge, id) then {edge} else {});
      }
    }
    assert recorded[..|recorded|] == recorded;
  }
}
