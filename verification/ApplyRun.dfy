/**
 * One apply run, and any number of them. A run may be killed before or after every commit
 * and every file it makes. Two promises are proved of the same code:
 *
 *  - from any stores whatever, a run only ever removes candidate rows;
 *  - from the stores a frozen manifest describes, after any kills, every axis of every
 *    candidate is whole or erased, a finished run leaves exactly the frozen stores minus the
 *    candidates, and a run refuses exactly for what earlier runs or an operator left outside
 *    the stores: a log that is not empty, or the wrong backup directory.
 */
module ApplyRun {
  import opened Basics
  import opened CleanupModel
  import opened EdgeIntent
  import opened Protection
  import opened Transactions
  import opened Progress
  import opened Backup

  datatype Outcome = Finished | Killed | Refused

  /** The checks a run remembers having passed. */
  datatype Verdict = ProjectedPass | RegistryPass

  class Scope {
    var passed: set<Verdict>

    constructor ()
      ensures passed == {}
    {
      passed := {};
    }
  }

  /** Every remembered pass is true of the stores as they are now. */
  ghost predicate Remembers(passed: set<Verdict>, s: Stores, plan: Plan) {
    && (ProjectedPass in passed ==> Projected(s, plan))
    && (RegistryPass in passed ==> RegistryGlobal(s, plan))
  }

  /** The stores are the frozen ones minus the candidates in d. */
  ghost predicate InProgress(f: Stores, plan: Plan, intent: Intent, s: Stores, d: Done) {
    match plan
    case Plan(_, records, _, _, _, _, _) =>
      && FrozenPlan(f, plan) && ValidIntent(intent, records)
      && d.Within(IdsOf(records)) && s == Erase(f, d)
  }

  // -------------------------------------------- remembering changes no decision

  /** A remembered projected pass lets exactly those deletes through that the check would. */
  lemma MemoIsTransparent(s: Stores, rec: Record, plan: Plan, intent: Intent)
    requires CleanPlan(plan) && rec in plan.records
    ensures Projected(s, plan) ==> TxGraph(s, rec, plan, intent, true) == TxGraph(s, rec, plan, intent, false)
    ensures RegistryGlobal(s, plan) ==> TxRegistry(s, rec, plan, true) == TxRegistry(s, rec, plan, false)
    ensures TxGraph(s, rec, plan, intent, false).Some? ==> Projected(s, plan)
    ensures TxRegistry(s, rec, plan, false).Some? ==> RegistryGlobal(s, plan)
  {
    if NodeCas(s.graph, rec, plan.sel) {
      assert rec.id in plan.Ids();
      forall e | e in Elements(rec.edges)
        ensures TouchesAny(e, plan.Ids())
      {
        assert Touches(e, rec.id);
      }
      ProjectedIgnoresThePlan(s, plan, Elements(rec.edges), {rec.id});
    }
  }

  // ----------------------------------------------------------------- one axis

  /** The delete action of one axis, with the scope's memory. */
  method Act(ds: DataSet, scope: Scope, rec: Record, plan: Plan, intent: Intent, axis: Axis, ghost f: Stores, ghost d: Done)
    returns (ok: bool)
    requires CleanPlan(plan) && rec in plan.records
    requires Remembers(scope.passed, ds.View(), plan)
    modifies ds, scope
    ensures Shrinks(old(ds.View()), ds.View(), plan.sel, plan.Ids())
    ensures Remembers(scope.passed, ds.View(), plan)
    ensures !ok ==> ds.View() == old(ds.View())
    ensures (axis.VectorAxis? || ds.vectors == old(ds.vectors)) && (axis.GraphAxis? || ds.graph == old(ds.graph))
    ensures (axis.DocumentAxis? || ds.docs == old(ds.docs)) && (axis.RegistryAxis? || ds.registry == old(ds.registry))
    ensures InProgress(f, plan, intent, old(ds.View()), d) && rec.id !in d.Of(axis)
        ==> ok && InProgress(f, plan, intent, ds.View(), d.Add(axis, rec.id))
  {
    hide TxGraph, TxRegistry, TxDocs, TxVector, Projected, RegistryGlobal, Shrinks, FrozenPlan, ValidIntent, CleanPlan,
      EraseGraph, EraseDocs, EraseRegistry;
    ghost var s := ds.View();
    ShrinksReflexive(s, plan.sel, plan.Ids());
    match axis {
      case VectorAxis =>
        ok := ds.DeleteVector(rec);
        if ok { VectorTxShrinks(s, rec, plan); }
      case GraphAxis =>
        ok := ds.DeleteGraph(rec, plan, intent, ProjectedPass in scope.passed);
        if ok {
          GraphTxShrinks(s, rec, plan, intent, ProjectedPass in scope.passed);
          MemoIsTransparent(s, rec, plan, intent);
          scope.passed := scope.passed + {ProjectedPass};
        }
      case DocumentAxis =>
        var row;
        ok, row := ds.DeleteDocument(rec, plan.sel);
        if ok { DocsTxShrinks(s, rec, plan, row); }
        ActDocumentAdvances(f, plan, intent, s, d, rec, row);
      case RegistryAxis =>
        ok := ds.DeleteRegistry(rec, plan, RegistryPass in scope.passed);
        if ok {
          RegistryTxShrinks(s, rec, plan, RegistryPass in scope.passed);
          MemoIsTransparent(s, rec, plan, intent);
          scope.passed := scope.passed + {RegistryPass};
        }
    }
    VerdictsSurvive(s, ds.View(), plan);
    ActAdvances(f, plan, intent, s, d, rec, axis);
  }

  lemma ActDocumentAdvances(f: Stores, plan: Plan, intent: Intent, s: Stores, d: Done, rec: Record, row: Option<DocKey>)
    requires rec in plan.records && FetchedRow(s.docs, rec.id, row)
    ensures InProgress(f, plan, intent, s, d) && rec.id !in d.docs
        ==> TxDocs(s.docs, rec, plan.sel, row) == Some(EraseDocs(f.docs, d.docs + {rec.id}))
  {
    if InProgress(f, plan, intent, s, d) && rec.id !in d.docs {
      DocumentDeleteAdvances(f, plan, d, rec, row);
    }
  }

  lemma ActAdvances(f: Stores, plan: Plan, intent: Intent, s: Stores, d: Done, rec: Record, axis: Axis)
    requires rec in plan.records
    ensures InProgress(f, plan, intent, s, d) && rec.id !in d.Of(axis) ==>
      match axis
      case VectorAxis => TxVector(s.vectors, rec) == Some(f.vectors - (d.vectors + {rec.id}))
      case GraphAxis => forall m :: TxGraph(s, rec, plan, intent, m) == Some(EraseGraph(f.graph, d.graph + {rec.id}))
      case DocumentAxis => true
      case RegistryAxis => forall m :: TxRegistry(s, rec, plan, m) == Some(EraseRegistry(f.registry, d.registry + {rec.id}))
  {
    if InProgress(f, plan, intent, s, d) && rec.id !in d.Of(axis) {
      match axis {
        case VectorAxis => VectorDeleteAdvances(f, plan, d, rec);
        case GraphAxis =>
          forall m
            ensures TxGraph(s, rec, plan, intent, m) == Some(EraseGraph(f.graph, d.graph + {rec.id}))
          {
            GraphDeleteAdvances(f, plan, intent, d, rec, m);
          }
        case DocumentAxis =>
        case RegistryAxis =>
          forall m
            ensures TxRegistry(s, rec, plan, m) == Some(EraseRegistry(f.registry, d.registry + {rec.id}))
          {
            RegistryDeleteAdvances(f, plan, d, rec, m);
          }
      }
    }
  }

  /** The snapshot check around an axis: what is already done, or None when it must refuse. */
  function Check(s: Stores, rec: Record, plan: Plan, intent: Intent): Option<set<Key>> {
    var now := SnapshotOf(s, rec.id);
    if && !ForeignTuple(s.registry, rec.id)
       && IntentHoldsFor(s.graph, plan.Ids(), intent, rec.id)
       && Allowed(now.(edges := rec.snapshot.edges), rec.snapshot, DoneKeys(now))
    then Some(DoneKeys(now)) else None
  }

  /** No row of the candidate is left on this axis. */
  ghost predicate AxisGone(s: Stores, id: Id, axis: Axis) {
    match axis
    case VectorAxis => id !in s.vectors
    case GraphAxis => id !in s.graph.nodes && forall k :: k in s.graph.edges ==> k.fromId != id && k.toId != id
    case DocumentAxis =>
      && id !in s.docs.sources && (forall r :: r in s.docs.fts ==> s.docs.fts[r].sourceId != id)
      && (forall k :: k in s.docs.nodes ==> k.nodeId != id)
    case RegistryAxis =>
      && (forall i :: i in s.registry.nodes ==> s.registry.nodes[i].nodeId != id)
      && (forall i :: i in s.registry.edges ==> s.registry.edges[i].fromId != id && s.registry.edges[i].toId != id)
  }

  ghost predicate CandidateGone(s: Stores, id: Id) {
    forall axis :: AxisGone(s, id, axis)
  }

  lemma DoneKeysMean(now: Snapshot)
    ensures KVector in DoneKeys(now) <==> now.vector.None?
    ensures KGraph in DoneKeys(now) <==> now.graph.None? && now.edges == {}
    ensures KEdges in DoneKeys(now) <==> now.graph.None? && now.edges == {}
    ensures KSource in DoneKeys(now) <==> now.source.None?
    ensures KFts in DoneKeys(now) <==> now.fts == NO_FTS
    ensures KDoc in DoneKeys(now) <==> now.doc == map[]
    ensures KRegNode in DoneKeys(now) <==> now.regNodes == map[]
    ensures KRegEdges in DoneKeys(now) <==> now.regEdges == map[]
  {
  }

  /** The keys of an axis count as done exactly if no row of the candidate is left on it. */
  lemma DoneMeansGone(s: Stores, id: Id, axis: Axis)
    ensures TargetKeys(axis) <= DoneKeys(SnapshotOf(s, id)) <==> AxisGone(s, id, axis)
  {
    DoneKeysMean(SnapshotOf(s, id));
    EdgesLeft(s.graph, id);
    DocumentsLeft(s.docs, id);
    RegistryLeft(s.registry, id);
    hide DoneKeys, Incident, FtsOf, DocRowsOf, RegNodesOf, RegEdgesOf;
    match axis {
      case VectorAxis => assert KVector in TargetKeys(axis);
      case GraphAxis => assert KGraph in TargetKeys(axis);
      case DocumentAxis => assert KSource in TargetKeys(axis) && KFts in TargetKeys(axis) && KDoc in TargetKeys(axis);
      case RegistryAxis => assert KRegNode in TargetKeys(axis) && KRegEdges in TargetKeys(axis);
    }
  }

  lemma EdgesLeft(g: Graph, id: Id)
    ensures Incident(g, id) == {} <==> forall k :: k in g.edges ==> k.fromId != id && k.toId != id
  {
    if Incident(g, id) == {} {
      forall k | k in g.edges
        ensures k.fromId != id && k.toId != id
      {
        assert EdgeOf(k, g.edges[k]) in Edges(g);
        assert EdgeOf(k, g.edges[k]) !in Incident(g, id);
      }
    }
  }

  lemma DocumentsLeft(d: Docs, id: Id)
    ensures FtsOf(d, id) == NO_FTS <==> forall r :: r in d.fts ==> d.fts[r].sourceId != id
    ensures DocRowsOf(d, id) == map[] <==> forall k :: k in d.nodes ==> k.nodeId != id
  {
    assert forall r :: r in d.fts && d.fts[r].sourceId == id <==> r in FtsRowsOf(d, id);
    assert forall k :: k in d.nodes && k.nodeId == id <==> k in DocRowsOf(d, id);
    if forall r :: r in d.fts ==> d.fts[r].sourceId != id { assert FtsRowsOf(d, id) == {} && FtsOf(d, id).texts == {}; }
    if FtsOf(d, id) == NO_FTS { assert FtsRowsOf(d, id) == {}; }
  }

  lemma RegistryLeft(r: Registry, id: Id)
    ensures RegNodesOf(r, id) == map[] <==> forall i :: i in r.nodes ==> r.nodes[i].nodeId != id
    ensures RegEdgesOf(r, id) == map[] <==> forall i :: i in r.edges ==> r.edges[i].fromId != id && r.edges[i].toId != id
  {
    assert forall i :: i in r.nodes && r.nodes[i].nodeId == id <==> i in RegNodesOf(r, id);
    assert forall i :: i in r.edges && (r.edges[i].fromId == id || r.edges[i].toId == id) <==> i in RegEdgesOf(r, id);
  }

  /** What is gone stays gone. */
  lemma GoneStays(s: Stores, s': Stores, sel: Selection, ids: set<Id>)
    requires Shrinks(s, s', sel, ids)
    ensures forall id, axis :: AxisGone(s, id, axis) ==> AxisGone(s', id, axis)
  {
    forall id, axis | AxisGone(s, id, axis)
      ensures AxisGone(s', id, axis)
    {
      match axis {
        case VectorAxis =>
        case GraphAxis =>
        case DocumentAxis =>
        case RegistryAxis =>
      }
    }
  }

  /** No foreign row names the candidate, and every stored row of it is the recorded one. */
  ghost predicate RowsAsRecorded(s: Stores, r: Record) {
    && NamedAsEvidence(s.registry, r.id)
    && (r.id in s.docs.sources ==> r.snapshot.source == Some(s.docs.sources[r.id]))
    && (r.id in s.vectors ==> r.snapshot.vector == Some(s.vectors[r.id]))
    && (r.id in s.graph.nodes ==> r.snapshot.graph == Some(s.graph.nodes[r.id]))
    && (forall space :: DocKey(space, r.id) in s.docs.nodes ==>
          DocKey(space, r.id) in r.snapshot.doc && s.docs.nodes[DocKey(space, r.id)] == r.snapshot.doc[DocKey(space, r.id)])
    && (forall row :: row in s.docs.fts && s.docs.fts[row].sourceId == r.id ==> s.docs.fts[row].text in r.snapshot.fts.texts)
    && (forall i :: i in s.registry.nodes && s.registry.nodes[i].nodeId == r.id ==>
          i in r.snapshot.regNodes && s.registry.nodes[i] == r.snapshot.regNodes[i])
    && (forall i :: i in s.registry.edges && r.id in {s.registry.edges[i].fromId, s.registry.edges[i].toId} ==>
          i in r.snapshot.regEdges && s.registry.edges[i] == r.snapshot.regEdges[i])
  }

  /** Every stored edge with an end at the candidate is one that some record lists. */
  ghost predicate EdgesAsRecorded(s: Stores, r: Record, plan: Plan) {
    forall k :: k in s.graph.edges && r.id in {k.fromId, k.toId} ==>
      exists q :: q in plan.records
        && Edge(s.graph.edges[k].fromType, k.fromId, k.relation, s.graph.edges[k].toType, k.toId, s.graph.edges[k].props.value) in q.edges
  }

  lemma RecordedRows(s: Stores, r: Record)
    requires !ForeignTuple(s.registry, r.id)
    requires var now := SnapshotOf(s, r.id); Allowed(now.(edges := r.snapshot.edges), r.snapshot, DoneKeys(now))
    ensures RowsAsRecorded(s, r)
  {
    var now := SnapshotOf(s, r.id);
    ResumeTestExactly(now, r.snapshot);
    ForeignTupleExactly(s.registry, r.id);
    hide Allowed, DoneKeys;
    forall k | k in s.docs.nodes && k.nodeId == r.id
      ensures k in r.snapshot.doc && s.docs.nodes[k] == r.snapshot.doc[k]
    {
      assert k in now.doc;
    }
    forall row | row in s.docs.fts && s.docs.fts[row].sourceId == r.id
      ensures s.docs.fts[row].text in r.snapshot.fts.texts
    {
      assert row in FtsRowsOf(s.docs, r.id);
      assert s.docs.fts[row].text in now.fts.texts;
    }
    forall i | i in s.registry.nodes && s.registry.nodes[i].nodeId == r.id
      ensures i in r.snapshot.regNodes && s.registry.nodes[i] == r.snapshot.regNodes[i]
    {
      assert i in now.regNodes;
    }
    forall i | i in s.registry.edges && r.id in {s.registry.edges[i].fromId, s.registry.edges[i].toId}
      ensures i in r.snapshot.regEdges && s.registry.edges[i] == r.snapshot.regEdges[i]
    {
      assert i in now.regEdges;
    }
  }

  lemma RecordedEdges(s: Stores, r: Record, plan: Plan)
    ensures Incident(s.graph, r.id) <= Recorded(plan.records) <==> EdgesAsRecorded(s, r, plan)
  {
    if Incident(s.graph, r.id) <= Recorded(plan.records) {
      forall k | k in s.graph.edges && r.id in {k.fromId, k.toId}
        ensures EdgeOf(k, s.graph.edges[k]) in Recorded(plan.records)
      {
        assert EdgeOf(k, s.graph.edges[k]) in Edges(s.graph);
        assert EdgeOf(k, s.graph.edges[k]) in Incident(s.graph, r.id);
      }
    }
    if EdgesAsRecorded(s, r, plan) {
      forall e | e in Incident(s.graph, r.id)
        ensures e in Recorded(plan.records)
      {
        StoredEdge(s.graph, e);
        var q :| q in plan.records && e in q.edges;
      }
    }
  }

  /**
   * The snapshot check around an axis passes exactly if every registry edge names the candidate as
   * evidence, its rows are what a resume accepts, and all edges at it are recorded.
   */
  lemma CheckExactly(s: Stores, rec: Record, plan: Plan, intent: Intent)
    requires CleanPlan(plan) && rec in plan.records && ValidIntent(intent, plan.records)
    ensures Check(s, rec, plan, intent).Some? <==>
      NamedAsEvidence(s.registry, rec.id) && Resumable(SnapshotOf(s, rec.id), rec.snapshot) && EdgesAsRecorded(s, rec, plan)
  {
    assert rec.id in plan.Ids();
    ForeignTupleExactly(s.registry, rec.id);
    ResumeTestExactly(SnapshotOf(s, rec.id), rec.snapshot);
    ScopedIsUpperBound(s.graph, plan.records, intent, rec.id);
    RecordedEdges(s, rec, plan);
    hide CleanPlan, ValidIntent, Allowed, DoneKeys, Resumable, IntentHoldsFor, ForeignTuple, NamedAsEvidence, EdgesAsRecorded, SnapshotOf;
  }

  /** The candidate's rows, and under a valid intent its edges, are recorded ones. */
  ghost predicate OnlyRecorded(s: Stores, rec: Record, plan: Plan, intent: Intent) {
    RowsAsRecorded(s, rec) && (ValidIntent(intent, plan.records) ==> EdgesAsRecorded(s, rec, plan))
  }

  lemma CheckMeans(s: Stores, rec: Record, plan: Plan, intent: Intent)
    requires CleanPlan(plan) && rec in plan.records
    ensures Check(s, rec, plan, intent).Some? ==> OnlyRecorded(s, rec, plan, intent)
  {
    if Check(s, rec, plan, intent).Some? {
      RecordedRows(s, rec);
      if ValidIntent(intent, plan.records) { CheckExactly(s, rec, plan, intent); }
    }
  }

  lemma CheckAccepts(f: Stores, plan: Plan, intent: Intent, s: Stores, d: Done, rec: Record, axis: Axis)
    requires rec in plan.records
    ensures InProgress(f, plan, intent, s, d) ==>
      Check(s, rec, plan, intent).Some? && (TargetKeys(axis) <= Check(s, rec, plan, intent).value <==> rec.id in d.Of(axis))
  {
    if InProgress(f, plan, intent, s, d) {
      RestartAccepts(f, plan, d, rec);
      RestartIntent(f, plan, intent, d.graph);
      assert rec.id in plan.Ids();
    }
  }

  function DbOf(axis: Axis): Db {
    match axis
    case VectorAxis => VectorDb
    case GraphAxis => GraphDb
    case DocumentAxis => DocDb
    case RegistryAxis => RegistryDb
  }

  /** A commit goes to the log first, and the log is not empty again before the connections close. */
  twostate predicate LogsKept(ds: DataSet, dir: RunDir)
    reads ds, dir
  {
    && old(dir.wal) <= dir.wal && dir.receipt == old(dir.receipt) && dir.backups == old(dir.backups)
    && (ds.vectors != old(ds.vectors) ==> VectorDb in dir.wal) && (ds.graph != old(ds.graph) ==> GraphDb in dir.wal)
    && (ds.docs != old(ds.docs) ==> DocDb in dir.wal) && (ds.registry != old(ds.registry) ==> RegistryDb in dir.wal)
  }

  /** The delete of an axis, through the log of its file; killed before the commit counts, if it has no step left. */
  method Logged(ds: DataSet, dir: RunDir, scope: Scope, rec: Record, plan: Plan, intent: Intent, axis: Axis, life: nat,
                ghost f: Stores, ghost d: Done)
    returns (outcome: Outcome)
    requires CleanPlan(plan) && rec in plan.records
    requires Remembers(scope.passed, ds.View(), plan)
    modifies ds, scope, dir`wal
    ensures Shrinks(old(ds.View()), ds.View(), plan.sel, plan.Ids())
    ensures Remembers(scope.passed, ds.View(), plan)
    ensures LogsKept(ds, dir)
    ensures outcome != Finished ==> ds.View() == old(ds.View())
    ensures outcome == Killed <==> life == 0
    ensures InProgress(f, plan, intent, old(ds.View()), d) && rec.id !in d.Of(axis) ==>
      && outcome != Refused
      && (outcome == Finished ==> InProgress(f, plan, intent, ds.View(), d.Add(axis, rec.id)))
  {
    hide Shrinks, Remembers, InProgress, CleanPlan;
    ShrinksReflexive(ds.View(), plan.sel, plan.Ids());
    dir.wal := dir.wal + {DbOf(axis)};
    if life == 0 { return Killed; }
    var ok := Act(ds, scope, rec, plan, intent, axis, f, d);
    outcome := if ok then Finished else Refused;
  }

  /** The delete, unless the check before it found the axis done. */
  method DeleteUnlessDone(ds: DataSet, dir: RunDir, scope: Scope, rec: Record, plan: Plan, intent: Intent, axis: Axis, keys: set<Key>, life: nat,
                          ghost f: Stores, ghost d: Done)
    returns (outcome: Outcome, left: nat)
    requires CleanPlan(plan) && rec in plan.records
    requires Remembers(scope.passed, ds.View(), plan)
    requires InProgress(f, plan, intent, ds.View(), d) ==> (TargetKeys(axis) <= keys <==> rec.id in d.Of(axis))
    modifies ds, scope, dir`wal
    ensures Shrinks(old(ds.View()), ds.View(), plan.sel, plan.Ids())
    ensures Remembers(scope.passed, ds.View(), plan)
    ensures LogsKept(ds, dir)
    ensures outcome != Finished ==> ds.View() == old(ds.View())
    ensures if outcome == Killed then life == 0 else left <= life <= left + 1
    ensures InProgress(f, plan, intent, old(ds.View()), d) ==>
      && outcome != Refused
      && (outcome == Finished ==> InProgress(f, plan, intent, ds.View(), d.Add(axis, rec.id)))
      && (rec.id !in d.Of(axis) ==> (outcome == Killed <==> life == 0) && (outcome == Finished ==> life == left + 1))
  {
    hide Shrinks, Remembers, InProgress, CleanPlan, TargetKeys;
    ShrinksReflexive(ds.View(), plan.sel, plan.Ids());
    d.AddPresent(axis, rec.id);
    outcome, left := Finished, life;
    if !(TargetKeys(axis) <= keys) {
      outcome := Logged(ds, dir, scope, rec, plan, intent, axis, left, f, d);
      if outcome == Finished { left := left - 1; }
    }
  }

  /** One axis of one candidate. It is killed between two of its steps, as soon as it has none left. */
  method ApplyAxis(ds: DataSet, dir: RunDir, scope: Scope, rec: Record, plan: Plan, intent: Intent, axis: Axis, life: nat,
                   ghost f: Stores, ghost d: Done)
    returns (outcome: Outcome, left: nat, ghost d': Done)
    requires CleanPlan(plan) && rec in plan.records
    requires Remembers(scope.passed, ds.View(), plan)
    modifies ds, scope, dir`wal
    ensures Shrinks(old(ds.View()), ds.View(), plan.sel, plan.Ids())
    ensures Remembers(scope.passed, ds.View(), plan)
    ensures LogsKept(ds, dir)
    ensures InProgress(f, plan, intent, old(ds.View()), d)
        ==> outcome != Refused && InProgress(f, plan, intent, ds.View(), d')
    ensures d'.Includes(d) && (outcome == Finished ==> rec.id in d'.Of(axis))
    ensures d' == d || d' == d.Add(axis, rec.id)
    ensures if outcome == Killed then life < 3 else left <= life <= left + 3
    ensures InProgress(f, plan, intent, old(ds.View()), d) && rec.id !in d.Of(axis) ==>
      && (outcome == Killed <==> life < 3) && (outcome == Finished ==> life == left + 3)
      && d' == if life < 2 then d else d.Add(axis, rec.id)
    ensures outcome == Finished ==> AxisGone(ds.View(), rec.id, axis)
    ensures outcome == Finished || ds.View() != old(ds.View()) ==> OnlyRecorded(old(ds.View()), rec, plan, intent)
    ensures outcome == Finished ==> OnlyRecorded(ds.View(), rec, plan, intent)
  {
    left, d' := life, d;
    d.AddPresent(axis, rec.id);
    CheckAccepts(f, plan, intent, ds.View(), d, rec, axis);
    ShrinksReflexive(ds.View(), plan.sel, plan.Ids());
    d.IncludesItself();
    assert LogsKept(ds, dir);
    hide Shrinks, Remembers, InProgress, CleanPlan, Check, TargetKeys, AxisGone, OnlyRecorded, LogsKept;
    CheckMeans(ds.View(), rec, plan, intent);
    var before := Check(ds.View(), rec, plan, intent);
    if before.None? { return Refused, left, d'; }
    if left == 0 { return Killed, left, d'; }
    outcome, left := DeleteUnlessDone(ds, dir, scope, rec, plan, intent, axis, before.value, left - 1, f, d);
    if outcome != Finished { return; }
    d' := d.Add(axis, rec.id);
    if left == 0 { return Killed, left, d'; }
    left := left - 1;
    var ok := CheckedAfter(ds, rec, plan, intent, axis, f, d');
    outcome := if ok then Finished else Refused;
  }

  /** The check at the end of an axis. */
  method CheckedAfter(ds: DataSet, rec: Record, plan: Plan, intent: Intent, axis: Axis, ghost f: Stores, ghost d: Done) returns (ok: bool)
    requires CleanPlan(plan) && rec in plan.records
    ensures InProgress(f, plan, intent, ds.View(), d) && rec.id in d.Of(axis) ==> ok
    ensures ok ==> AxisGone(ds.View(), rec.id, axis) && OnlyRecorded(ds.View(), rec, plan, intent)
  {
    CheckAccepts(f, plan, intent, ds.View(), d, rec, axis);
    hide InProgress, CleanPlan, Check, TargetKeys, AxisGone, OnlyRecorded;
    CheckMeans(ds.View(), rec, plan, intent);
    var after := Check(ds.View(), rec, plan, intent);
    ok := after.Some? && TargetKeys(axis) <= after.value;
    if ok { DoneMeansGone(ds.View(), rec.id, axis); }
  }

  /** One candidate, axis by axis. */
  method ApplyRecord(ds: DataSet, dir: RunDir, scope: Scope, rec: Record, plan: Plan, intent: Intent, life: nat,
                     ghost f: Stores, ghost d: Done)
    returns (outcome: Outcome, left: nat, ghost d': Done)
    requires CleanPlan(plan) && rec in plan.records
    requires Remembers(scope.passed, ds.View(), plan)
    modifies ds, scope, dir`wal
    ensures Shrinks(old(ds.View()), ds.View(), plan.sel, plan.Ids())
    ensures Remembers(scope.passed, ds.View(), plan)
    ensures LogsKept(ds, dir)
    ensures InProgress(f, plan, intent, old(ds.View()), d)
        ==> outcome != Refused && InProgress(f, plan, intent, ds.View(), d')
    ensures d'.Includes(d) && (outcome == Finished ==> d'.Whole(rec.id) && CandidateGone(ds.View(), rec.id))
    ensures d.InOrder() ==> d'.InOrder()
    ensures if outcome == Killed then life < 12 else left <= life <= left + 12
    ensures InProgress(f, plan, intent, old(ds.View()), d) && rec.id !in d.vectors && life == 2 ==>
      outcome == Killed && d' == d.Add(VectorAxis, rec.id)
  {
    hide Shrinks, Remembers, InProgress, CleanPlan, AxisGone, OnlyRecorded;
    left, d' := life, d;
    ghost var s := ds.View();
    ShrinksReflexive(s, plan.sel, plan.Ids());
    d'.IncludesItself();
    var axes := [VectorAxis, GraphAxis, DocumentAxis, RegistryAxis];
    for k := 0 to 4
      invariant Shrinks(s, ds.View(), plan.sel, plan.Ids())
      invariant Remembers(scope.passed, ds.View(), plan)
      invariant LogsKept(ds, dir)
      invariant InProgress(f, plan, intent, s, d) ==> InProgress(f, plan, intent, ds.View(), d')
      invariant d'.Includes(d) && (d.InOrder() ==> d'.InOrder())
      invariant left <= life <= left + 3 * k && (k == 0 ==> d' == d && ds.View() == s)
      invariant InProgress(f, plan, intent, s, d) && rec.id !in d.vectors && life == 2 ==> k == 0
      invariant forall j :: 0 <= j < k ==> rec.id in d'.Of(axes[j]) && AxisGone(ds.View(), rec.id, axes[j])
    {
      ghost var before, done := ds.View(), d';
      outcome, left, d' := ApplyAxis(ds, dir, scope, rec, plan, intent, axes[k], left, f, d');
      if done.InOrder() { NextAxisInOrder(done, d', rec.id, axes, k); }
      d'.IncludesKeeps(done);
      ShrinksTransitive(s, before, ds.View(), plan.sel, plan.Ids());
      GoneStays(before, ds.View(), plan.sel, plan.Ids());
      if outcome != Finished { return; }
    }
    outcome := Finished;
    WholeFromAxes(d', rec.id, axes);
    GoneFromAxes(ds.View(), rec.id, axes);
  }

  /** An axis is only touched once those before it are erased. */
  lemma NextAxisInOrder(d: Done, d': Done, id: Id, axes: seq<Axis>, k: nat)
    requires axes == [VectorAxis, GraphAxis, DocumentAxis, RegistryAxis] && k < 4
    requires d.InOrder() && (d' == d || d' == d.Add(axes[k], id)) && forall j :: 0 <= j < k ==> id in d.Of(axes[j])
    ensures d'.InOrder()
  {
    if k > 0 { assert id in d.Of(axes[k - 1]); }
  }

  lemma WholeFromAxes(d: Done, id: Id, axes: seq<Axis>)
    requires axes == [VectorAxis, GraphAxis, DocumentAxis, RegistryAxis]
    requires forall j :: 0 <= j < 4 ==> id in d.Of(axes[j])
    ensures d.Whole(id)
  {
    assert id in d.Of(axes[0]) && id in d.Of(axes[1]) && id in d.Of(axes[2]) && id in d.Of(axes[3]);
  }

  lemma GoneFromAxes(s: Stores, id: Id, axes: seq<Axis>)
    requires axes == [VectorAxis, GraphAxis, DocumentAxis, RegistryAxis]
    requires forall j :: 0 <= j < 4 ==> AxisGone(s, id, axes[j])
    ensures CandidateGone(s, id)
  {
    hide AxisGone;
    forall axis: Axis
      ensures AxisGone(s, id, axis)
    {
      match axis {
        case VectorAxis => assert AxisGone(s, id, axes[0]);
        case GraphAxis => assert AxisGone(s, id, axes[1]);
        case DocumentAxis => assert AxisGone(s, id, axes[2]);
        case RegistryAxis => assert AxisGone(s, id, axes[3]);
      }
    }
  }

  /** All candidates, one after another. */
  method ApplyRecords(ds: DataSet, dir: RunDir, scope: Scope, plan: Plan, intent: Intent, life: nat, ghost f: Stores, ghost d: Done)
    returns (outcome: Outcome, ghost d': Done)
    requires CleanPlan(plan)
    requires Remembers(scope.passed, ds.View(), plan)
    modifies ds, scope, dir`wal
    ensures Shrinks(old(ds.View()), ds.View(), plan.sel, plan.Ids())
    ensures LogsKept(ds, dir) && d'.Includes(d) && (d.InOrder() ==> d'.InOrder())
    ensures InProgress(f, plan, intent, old(ds.View()), d) ==> outcome != Refused && InProgress(f, plan, intent, ds.View(), d')
    ensures outcome == Finished ==> forall r :: r in plan.records ==> d'.Whole(r.id) && CandidateGone(ds.View(), r.id)
    ensures outcome == Killed ==> life < 12 * |plan.records|
    ensures InProgress(f, plan, intent, old(ds.View()), d) && plan.records != [] && plan.records[0].id !in d.vectors && life == 2 ==>
      outcome == Killed && d' == d.Add(VectorAxis, plan.records[0].id)
  {
    hide Shrinks, Remembers, InProgress, CleanPlan, AxisGone;
    d' := d;
    var left: nat := life;
    d.IncludesItself();
    ghost var s := ds.View();
    ShrinksReflexive(s, plan.sel, plan.Ids());
    for n := 0 to |plan.records|
      invariant Shrinks(s, ds.View(), plan.sel, plan.Ids())
      invariant Remembers(scope.passed, ds.View(), plan)
      invariant LogsKept(ds, dir) && d'.Includes(d) && (d.InOrder() ==> d'.InOrder())
      invariant InProgress(f, plan, intent, s, d) ==> InProgress(f, plan, intent, ds.View(), d')
      invariant left <= life <= left + 12 * n && (n == 0 ==> d' == d && ds.View() == s)
      invariant InProgress(f, plan, intent, s, d) && plan.records != [] && plan.records[0].id !in d.vectors && life == 2 ==> n == 0
      invariant forall i :: 0 <= i < n ==> d'.Whole(plan.records[i].id) && CandidateGone(ds.View(), plan.records[i].id)
    {
      ghost var before, done := ds.View(), d';
      outcome, left, d' := ApplyRecord(ds, dir, scope, plan.records[n], plan, intent, left, f, d');
      ShrinksTransitive(s, before, ds.View(), plan.sel, plan.Ids());
      d'.IncludesKeeps(done);
      GoneStays(before, ds.View(), plan.sel, plan.Ids());
      if outcome != Finished { return; }
    }
    outcome := Finished;
  }

  /** Every candidate whole on every axis, and no other: the run is complete. */
  lemma AllWhole(plan: Plan, d: Done)
    requires d.Within(plan.Ids()) && forall r :: r in plan.records ==> d.Whole(r.id)
    ensures d == Complete(plan)
  {
    assert d.vectors == plan.Ids() && d.graph == plan.Ids() && d.docs == plan.Ids() && d.registry == plan.Ids();
  }

  function Complete(plan: Plan): Done {
    Done(plan.Ids(), plan.Ids(), plan.Ids(), plan.Ids())
  }

  // ------------------------------------------------------------------ one run

  /** Two receipts that _strict_equal accepts are the same receipt. */
  lemma IntentIsUnique(a: Intent, b: Intent, records: seq<Record>)
    requires TouchingRecords(records) && ValidIntent(a, records) && ValidIntent(b, records)
    ensures a == b
  {
    assert a.component == b.component;
    forall e | e in a.boundary
      ensures a.boundary[e] == b.boundary[e]
    {
      var r :| r in records && e in r.edges;
      assert Touches(e, r.id) && r.id in IdsOf(records);
    }
    assert a.boundary == b.boundary;
  }

  predicate FullSnapshotMatches(s: Stores, plan: Plan) {
    && ProtectionHolds(s, plan)
    && forall r :: r in plan.records ==> !ForeignTuple(s.registry, r.id) && SnapshotOf(s, r.id) == r.snapshot
  }

  predicate ResumePrecheck(s: Stores, plan: Plan) {
    forall r :: r in plan.records ==>
      var now := SnapshotOf(s, r.id);
      !ForeignTuple(s.registry, r.id) && Allowed(now.(edges := r.snapshot.edges), r.snapshot, DoneKeys(now))
  }

  /** The guards between the receipt and the first write. */
  predicate Preflight(s: Stores, plan: Plan, intent: Intent) {
    && ProtectionHolds(s, plan)
    && GraphClaimsHeld(s, plan, {}, {}) && RegistryClaimsHeld(s, plan)
    && ResumePrecheck(s, plan)
    && ProjectedFor(s, plan, Recorded(plan.records), plan.Ids())
    && IntentHolds(s.graph, plan.Ids(), intent)
  }

  lemma SnapshotsMatch(s: Stores, plan: Plan)
    requires FullSnapshotMatches(s, plan)
    ensures ProtectionHolds(s, plan) && forall r :: r in plan.records ==> SnapshotOf(s, r.id) == r.snapshot
  {
  }

  lemma FrozenSnapshotMatches(f: Stores, plan: Plan)
    requires FrozenPlan(f, plan)
    ensures FullSnapshotMatches(f, plan)
  {
    forall r | r in plan.records
      ensures !ForeignTuple(f.registry, r.id) && SnapshotOf(f, r.id) == r.snapshot
    {
      assert FrozenRecord(f, plan.sel, r);
    }
  }

  lemma PreflightPasses(f: Stores, plan: Plan, intent: Intent, s: Stores, d: Done)
    ensures InProgress(f, plan, intent, s, d) ==> Preflight(s, plan, intent)
  {
    if InProgress(f, plan, intent, s, d) {
      VerdictsHold(f, plan, d);
      RestartIntent(f, plan, intent, d.graph);
      ProjectedForAll(f, plan, d);
      forall r | r in plan.records
        ensures var now := SnapshotOf(s, r.id);
          !ForeignTuple(s.registry, r.id) && Allowed(now.(edges := r.snapshot.edges), r.snapshot, DoneKeys(now))
      {
        RestartAccepts(f, plan, d, r);
      }
    }
  }

  lemma ProjectedForAll(f: Stores, plan: Plan, d: Done)
    requires FrozenPlan(f, plan) && d.Within(plan.Ids())
    ensures ProjectedFor(Erase(f, d), plan, Recorded(plan.records), plan.Ids())
  {
    FrozenPlanIsClean(f, plan);
    VerdictsHold(f, plan, d);
    hide FrozenPlan, ProjectedFor, GraphClaimsHeld, Erase;
    forall e | e in Recorded(plan.records)
      ensures TouchesAny(e, plan.Ids())
    {
      var r :| r in plan.records && e in r.edges;
      assert Touches(e, r.id);
    }
    forall id | id in plan.Ids()
      ensures f.graph.nodes[id].nodeType == plan.sel.nodeType
    {
      CandidateFacts(f, plan, id);
    }
    ProjectedIgnoresThePlan(Erase(f, d), plan, Recorded(plan.records), plan.Ids());
  }

  /**
   * What any kills can leave: no receipt and nothing done, or a receipt with the valid intent and
   * the hashes of the frozen stores, and some candidates erased.
   */
  ghost predicate Reachable(f: Stores, plan: Plan, receipt: Option<Receipt>, s: Stores, d: Done) {
    match receipt
    case None => FrozenPlan(f, plan) && s == f && d == NOTHING_DONE
    case Some(r) => InProgress(f, plan, r.intent, s, d) && r.files == FilesOf(f)
  }

  lemma CompleteState(f: Stores, plan: Plan, intent: Intent, s: Stores, d: Done)
    requires forall r :: r in plan.records ==> d.Whole(r.id)
    ensures InProgress(f, plan, intent, s, d) ==> d == Complete(plan) && s == Erase(f, Complete(plan))
  {
    if InProgress(f, plan, intent, s, d) {
      AllWhole(plan, d);
    }
  }

  /** On both axes, every Claim that a recorded edge supports is there, with a support from a standing non-candidate source. */
  ghost predicate ClaimsStand(s: Stores, plan: Plan) {
    GraphClaimsStand(s, plan) && RegistryClaimsStand(s, plan)
  }

  /** Every candidate's stored rows and edges are recorded ones. */
  ghost predicate CandidatesAsRecorded(s: Stores, plan: Plan) {
    forall r :: r in plan.records ==> RowsAsRecorded(s, r) && EdgesAsRecorded(s, r, plan)
  }

  /** The documents' sources of the frozen supports are the frozen ones. */
  ghost predicate SourcesAsFrozen(s: Stores, plan: Plan) {
    forall id, source :: (id, source) in plan.sections.evidenceSource <==>
      id in plan.evidenceIds && id in s.docs.sources && s.docs.sources[id] == source
  }

  /** The stores a run may delete from: protected rows, Claims and candidates are as the manifest says. */
  ghost predicate AsFrozen(s: Stores, plan: Plan) {
    ProtectionHolds(s, plan) && SourcesAsFrozen(s, plan) && ClaimsStand(s, plan) && CandidatesAsRecorded(s, plan)
  }

  /** Steps that are enough for a run: the backup and its receipt, and at most three for each axis of each candidate. */
  function EnoughSteps(plan: Plan): nat {
    BACKUP_STEPS + 1 + 12 * |plan.records|
  }

  /**
   * One run, from any stores and any receipt. A run that deletes anything leaves every Claim
   * it takes a support from another one. From a reachable state it refuses exactly if something outside the stores
   * blocks it. life is the number of steps it has before it is killed; with enough of them a run
   * that nothing blocks finishes.
   */
  method Apply(ds: DataSet, dir: RunDir, plan: Plan, cmd: Command, life: nat, ghost f: Stores, ghost d: Done)
    returns (outcome: Outcome, ghost d': Done)
    requires CleanPlan(plan)
    modifies ds, dir
    ensures Shrinks(old(ds.View()), ds.View(), plan.sel, plan.Ids())
    ensures ds.View() != old(ds.View()) || outcome == Finished ==>
      AsFrozen(old(ds.View()), plan) && ProtectionHolds(ds.View(), plan) && ClaimsStand(ds.View(), plan)
    ensures outcome == Finished ==> forall r :: r in plan.records ==> CandidateGone(ds.View(), r.id)
    ensures old(dir.receipt).None? && (dir.receipt.Some? || dir.backups != old(dir.backups)) ==>
      ProtectionHolds(old(ds.View()), plan) && forall r :: r in plan.records ==> SnapshotOf(old(ds.View()), r.id) == r.snapshot
    ensures old(dir.receipt).None? && dir.receipt.Some? ==>
      cmd.backup in dir.backups && BackedUp(dir.backups[cmd.backup], dir.receipt.value.files, old(ds.View()))
    ensures Blocked(old(dir.At()), cmd) ==> outcome == Refused && ds.View() == old(ds.View()) && dir.At() == old(dir.At())
    ensures outcome == Killed ==>
      && (ds.vectors != old(ds.vectors) ==> VectorDb in dir.wal) && (ds.graph != old(ds.graph) ==> GraphDb in dir.wal)
      && (ds.docs != old(ds.docs) ==> DocDb in dir.wal) && (ds.registry != old(ds.registry) ==> RegistryDb in dir.wal)
    ensures old(dir.receipt).Some? ==> dir.receipt == old(dir.receipt) && dir.backups == old(dir.backups)
    ensures outcome == Killed ==> life < EnoughSteps(plan)
    ensures Reachable(f, plan, old(dir.receipt), old(ds.View()), d) ==>
      && Reachable(f, plan, dir.receipt, ds.View(), d') && d'.Includes(d) && (d.InOrder() ==> d'.InOrder())
      && (outcome == Refused <==> Blocked(old(dir.At()), cmd))
      && (!Blocked(old(dir.At()), cmd) && life >= EnoughSteps(plan) ==> outcome == Finished)
      && (outcome == Finished ==> d' == Complete(plan) && ds.View() == Erase(f, Complete(plan)))
    ensures Reachable(f, plan, old(dir.receipt), old(ds.View()), d) && old(dir.receipt).None? && !Blocked(old(dir.At()), cmd) ==>
      && dir.backups == BackupsAfter(old(dir.backups), cmd.backup, f, life)
      && (life <= BACKUP_STEPS ==> outcome == Killed && ds.View() == old(ds.View()))
      && (life < BACKUP_STEPS ==> dir.receipt.None?)
      && (life == BACKUP_STEPS + 3 && plan.records != [] ==>
            outcome == Killed && dir.wal != {} && d' == d.Add(VectorAxis, plan.records[0].id))
  {
    assert TouchingRecords(plan.records);
    hide Shrinks, InProgress, Blocked, BackupsAfter, BackedUp, ClaimsStand, ProtectionHolds, AsFrozen, AxisGone, FilesOf,
      CleanPlan, Preflight, HoldsSet, ValidIntent;
    d' := d;
    d.IncludesItself();
    ShrinksReflexive(ds.View(), plan.sel, plan.Ids());
    var expected := BuildIntent(plan.records);
    var stop, left := Receipts(ds, dir, plan, cmd, life, expected, f, d);
    if stop.Some? { return stop.value, d'; }
    outcome, d' := Deletions(ds, dir, plan, expected, left, f, d);
  }

  /** The part of a run after the receipt: preflight, deletes and final checks. */
  method Deletions(ds: DataSet, dir: RunDir, plan: Plan, intent: Intent, life: nat, ghost f: Stores, ghost d: Done)
    returns (outcome: Outcome, ghost d': Done)
    requires CleanPlan(plan) && ValidIntent(intent, plan.records)
    modifies ds, dir
    ensures Shrinks(old(ds.View()), ds.View(), plan.sel, plan.Ids())
    ensures ds.View() != old(ds.View()) || outcome == Finished ==>
      AsFrozen(old(ds.View()), plan) && ProtectionHolds(ds.View(), plan) && ClaimsStand(ds.View(), plan)
    ensures outcome == Finished ==> forall r :: r in plan.records ==> CandidateGone(ds.View(), r.id)
    ensures dir.receipt == old(dir.receipt) && dir.backups == old(dir.backups)
    ensures outcome == Killed ==> LogsKept(ds, dir) && life < 12 * |plan.records|
    ensures InProgress(f, plan, intent, old(ds.View()), d) ==>
      && outcome != Refused && InProgress(f, plan, intent, ds.View(), d') && d'.Includes(d) && (d.InOrder() ==> d'.InOrder())
      && (outcome == Finished ==> d' == Complete(plan) && ds.View() == Erase(f, Complete(plan)))
    ensures InProgress(f, plan, intent, old(ds.View()), d) && plan.records != [] && plan.records[0].id !in d.vectors && life == 2 ==>
      outcome == Killed && d' == d.Add(VectorAxis, plan.records[0].id)
  {
    hide Shrinks, InProgress, ClaimsStand, ProtectionHolds, AsFrozen, AxisGone, CleanPlan, Preflight, ValidIntent, Erase;
    d' := d;
    d.IncludesItself();
    ghost var s := ds.View();
    ShrinksReflexive(s, plan.sel, plan.Ids());
    PreflightPasses(f, plan, intent, s, d);
    if !Preflight(ds.View(), plan, intent) {
      dir.Close();
      return Refused, d';
    }
    var scope := new Scope();
    NothingRemembered(s, plan);
    GuardsMean(s, plan, intent);
    outcome, d' := ApplyRecords(ds, dir, scope, plan, intent, life, f, d);
    ProtectionKept(s, ds.View(), plan);
    if outcome == Killed { return; }
    if outcome == Finished {
      CompleteState(f, plan, intent, ds.View(), d');
      PreflightPasses(f, plan, intent, ds.View(), d');
      FinalChecks(ds.View(), plan, intent);
      if !IntentHolds(ds.View().graph, plan.Ids(), intent) || !ProtectionHolds(ds.View(), plan) { outcome := Refused; }
    }
    dir.Close();
  }

  /** The part of a run before the preflight: logs, backup and receipt. */
  method Receipts(ds: DataSet, dir: RunDir, plan: Plan, cmd: Command, life: nat, expected: Intent, ghost f: Stores, ghost d: Done)
    returns (stop: Option<Outcome>, left: nat)
    requires CleanPlan(plan) && ValidIntent(expected, plan.records)
    modifies dir
    ensures dir.wal == old(dir.wal)
    ensures stop.None? ==> dir.receipt.Some? && dir.receipt.value.intent == expected
    ensures stop.Some? ==> stop.value != Finished
    ensures if stop == Some(Killed) then life <= BACKUP_STEPS else left <= life <= left + BACKUP_STEPS + 1
    ensures old(dir.receipt).None? && (dir.receipt.Some? || dir.backups != old(dir.backups)) ==>
      ProtectionHolds(ds.View(), plan) && forall r :: r in plan.records ==> SnapshotOf(ds.View(), r.id) == r.snapshot
    ensures old(dir.receipt).None? && dir.receipt.Some? ==>
      cmd.backup in dir.backups && BackedUp(dir.backups[cmd.backup], dir.receipt.value.files, ds.View())
    ensures Blocked(old(dir.At()), cmd) ==> stop == Some(Refused) && dir.At() == old(dir.At())
    ensures old(dir.receipt).Some? ==> dir.receipt == old(dir.receipt) && dir.backups == old(dir.backups)
    ensures Reachable(f, plan, old(dir.receipt), ds.View(), d) ==>
      && Reachable(f, plan, dir.receipt, ds.View(), d)
      && (stop == Some(Refused) <==> Blocked(old(dir.At()), cmd))
    ensures Reachable(f, plan, old(dir.receipt), ds.View(), d) && old(dir.receipt).None? && !Blocked(old(dir.At()), cmd) ==>
      && dir.backups == BackupsAfter(old(dir.backups), cmd.backup, f, life)
      && (stop == Some(Killed) <==> life <= BACKUP_STEPS) && (life < BACKUP_STEPS ==> dir.receipt.None?)
      && (life > BACKUP_STEPS ==> left == life - BACKUP_STEPS - 1)
  {
    hide InProgress, Blocked, BackupsAfter, BackedUp, FilesOf, SetAfter, CleanPlan, FullSnapshotMatches, ProtectionHolds, ValidIntent, HoldsSet;
    Guards(dir.At(), cmd);
    left := life;
    if dir.wal != {} { return Some(Refused), left; }
    if dir.receipt.None? {
      if FrozenPlan(f, plan) { FrozenSnapshotMatches(f, plan); }
      if cmd.nested || cmd.backup in dir.backups || !FullSnapshotMatches(ds.View(), plan) { return Some(Refused), left; }
      SnapshotsMatch(ds.View(), plan);
      var killed := dir.TakeBackup(cmd.backup, ds.View(), expected, life);
      if killed { return Some(Killed), 0; }
      left := life - BACKUP_STEPS;
      if FrozenPlan(f, plan) { JustStarted(f, plan, expected); }
      BackupHoldsSet(old(dir.backups), dir.backups, cmd.backup, ds.View(), life);
      if left == 0 { return Some(Killed), left; }
      left := left - 1;
    }
    var receipt := dir.receipt.value;
    if !(cmd.backup in dir.backups && HoldsSet(dir.backups[cmd.backup], receipt.files)) { return Some(Refused), left; }
    if InProgress(f, plan, receipt.intent, ds.View(), d) { IntentOf(f, plan, receipt.intent, expected, ds.View(), d); }
    if receipt.intent != expected { return Some(Refused), left; }
    stop := None;
  }

  /** The guards in the order of the run amount to Blocked. */
  lemma Guards(at: Found, cmd: Command)
    ensures at.wal != {} ==> Blocked(at, cmd)
    ensures at.wal == {} && at.receipt.None? ==> (Blocked(at, cmd) <==> cmd.nested || cmd.backup in at.backups)
    ensures at.wal == {} && at.receipt.Some? ==>
      (Blocked(at, cmd) <==> !(cmd.backup in at.backups && HoldsSet(at.backups[cmd.backup], at.receipt.value.files)))
  {
  }

  lemma BackupHoldsSet(backups: map<Name, Copies>, backups': map<Name, Copies>, name: Name, s: Stores, life: nat)
    requires life >= BACKUP_STEPS && backups' == BackupsAfter(backups, name, s, life)
    ensures name in backups' && HoldsSet(backups'[name], FilesOf(s))
  {
    WholeSet(s);
  }

  lemma JustStarted(f: Stores, plan: Plan, intent: Intent)
    requires FrozenPlan(f, plan) && ValidIntent(intent, plan.records)
    ensures InProgress(f, plan, intent, f, NOTHING_DONE)
  {
    NothingErased(f);
  }

  lemma IntentOf(f: Stores, plan: Plan, intent: Intent, expected: Intent, s: Stores, d: Done)
    requires CleanPlan(plan) && InProgress(f, plan, intent, s, d) && ValidIntent(expected, plan.records)
    ensures intent == expected
  {
    IntentIsUnique(intent, expected, plan.records);
  }

  lemma NothingRemembered(s: Stores, plan: Plan)
    ensures Remembers({}, s, plan)
  {
  }

  /** What the guards before the first delete amount to. */
  lemma GuardsMean(s: Stores, plan: Plan, intent: Intent)
    requires CleanPlan(plan) && ValidIntent(intent, plan.records) && Preflight(s, plan, intent)
    ensures AsFrozen(s, plan)
  {
    GraphCheckExactly(s, plan);
    RegistryCheckExactly(s, plan);
    EveryCandidateRecorded(s, plan, intent);
    FrozenSources(s, plan);
    hide CleanPlan, ResumePrecheck, CandidatesAsRecorded, SourcesAsFrozen, ProtectionHolds, ProjectedFor, IntentHolds, GraphClaimsHeld,
      RegistryClaimsHeld, GraphClaimsStand, RegistryClaimsStand, ValidIntent;
  }

  lemma FrozenSources(s: Stores, plan: Plan)
    ensures SourceSection(s.docs, plan.evidenceIds) == plan.sections.evidenceSource ==> SourcesAsFrozen(s, plan)
  {
  }

  lemma EveryCandidateRecorded(s: Stores, plan: Plan, intent: Intent)
    requires CleanPlan(plan) && ValidIntent(intent, plan.records)
    requires ResumePrecheck(s, plan) && IntentHolds(s.graph, plan.Ids(), intent)
    ensures CandidatesAsRecorded(s, plan)
  {
    IntentIsUpperBound(s.graph, plan.records, intent);
    hide ValidIntent, IntentHolds;
    forall r | r in plan.records
      ensures RowsAsRecorded(s, r) && EdgesAsRecorded(s, r, plan)
    {
      assert r.id in plan.Ids();
      assert Incident(s.graph, r.id) <= Recorded(plan.records);
      hide CleanPlan;
      RecordedRows(s, r);
      RecordedEdges(s, r, plan);
    }
  }

  lemma ProtectionKept(s: Stores, s': Stores, plan: Plan)
    requires CleanPlan(plan) && AsFrozen(s, plan) && Shrinks(s, s', plan.sel, plan.Ids())
    ensures ProtectionHolds(s', plan) && ClaimsStand(s', plan)
  {
    ClaimSupportSurvives(s, s', plan);
    VerdictsSurvive(s, s', plan);
    hide Shrinks, CleanPlan, ProtectionHolds, Projected, RegistryGlobal, GraphClaimsStand, RegistryClaimsStand,
      CandidatesAsRecorded, SourcesAsFrozen;
  }

  lemma FinalChecks(s: Stores, plan: Plan, intent: Intent)
    ensures Preflight(s, plan, intent) ==> IntentHolds(s.graph, plan.Ids(), intent) && ProtectionHolds(s, plan)
  {
  }

  /**
   * Any number of runs, each with its own command, each killed after any number of steps, with an
   * operator who may checkpoint, or make, change and remove backup directories between them. found is
   * what each run found outside the stores; a run refuses exactly if that blocks it, and finishes if it
   * does not and the run has steps enough.
   */
  method ApplyRepeatedly(ds: DataSet, dir: RunDir, plan: Plan, cmds: seq<Command>, lives: seq<nat>)
    returns (outcomes: seq<Outcome>, ghost found: seq<Found>, ghost d: Done)
    requires FrozenPlan(ds.View(), plan) && dir.receipt == None && |lives| == |cmds|
    modifies ds, dir
    ensures |outcomes| == |found| == |cmds|
    ensures forall i :: 0 <= i < |cmds| ==> (outcomes[i] == Refused <==> Blocked(found[i], cmds[i]))
    ensures forall i :: 0 <= i < |cmds| && lives[i] >= EnoughSteps(plan) && !Blocked(found[i], cmds[i]) ==> outcomes[i] == Finished
    ensures Reachable(old(ds.View()), plan, dir.receipt, ds.View(), d) && d.InOrder()
    ensures Finished in outcomes ==> ds.View() == Erase(old(ds.View()), Complete(plan))
  {
    hide Shrinks, InProgress, Blocked, BackupsAfter, ClaimsStand, FrozenPlan, FilesOf;
    ghost var f := ds.View();
    FrozenPlanIsClean(f, plan);
    d := NOTHING_DONE;
    outcomes, found := [], [];
    for i := 0 to |cmds|
      invariant |outcomes| == |found| == i
      invariant forall j :: 0 <= j < i ==> (outcomes[j] == Refused <==> Blocked(found[j], cmds[j]))
      invariant forall j :: 0 <= j < i && lives[j] >= EnoughSteps(plan) && !Blocked(found[j], cmds[j]) ==> outcomes[j] == Finished
      invariant Reachable(f, plan, dir.receipt, ds.View(), d) && d.InOrder()
      invariant Finished in outcomes ==> d == Complete(plan)
    {
      dir.Operator();
      ghost var at, before := dir.At(), d;
      var outcome;
      outcome, d := Apply(ds, dir, plan, cmds[i], lives[i], f, d);
      if before == Complete(plan) { CompleteStays(f, plan, ds.View(), dir.receipt, d); }
      outcomes, found := outcomes + [outcome], found + [at];
    }
    if d == Complete(plan) { CompleteStays(f, plan, ds.View(), dir.receipt, d); }
  }

  /** From the complete state nothing more can go. */
  lemma CompleteStays(f: Stores, plan: Plan, s: Stores, receipt: Option<Receipt>, d: Done)
    requires Reachable(f, plan, receipt, s, d) && d.Includes(Complete(plan))
    ensures d == Complete(plan) && s == Erase(f, Complete(plan))
  {
    NothingErased(f);
    hide FrozenPlan, ValidIntent, Erase, FilesOf;
  }

  /** A backup that is killed blocks the command it was made for, however often it is given again. */
  method KilledBackupBlocks(ds: DataSet, dir: RunDir, plan: Plan, cmd: Command, life: nat, retries: nat)
    returns (first: Outcome, outcomes: seq<Outcome>)
    requires FrozenPlan(ds.View(), plan) && dir.receipt == None && !Blocked(dir.At(), cmd) && 1 <= life < BACKUP_STEPS
    modifies ds, dir
    ensures first == Killed && |outcomes| == retries && forall o :: o in outcomes ==> o == Refused
    ensures ds.View() == old(ds.View()) && dir.receipt == None
  {
    ghost var f := ds.View();
    FrozenPlanIsClean(f, plan);
    ghost var d := NOTHING_DONE;
    first, d := Apply(ds, dir, plan, cmd, life, f, d);
    assert cmd.backup in dir.backups;
    outcomes := [];
    for i := 0 to retries
      invariant |outcomes| == i && forall o :: o in outcomes ==> o == Refused
      invariant ds.View() == f && dir.receipt == None && cmd.backup in dir.backups
    {
      var outcome;
      outcome, d := Apply(ds, dir, plan, cmd, BACKUP_STEPS, f, NOTHING_DONE);
      outcomes := outcomes + [outcome];
    }
  }

  lemma StartIsReachable(f: Stores, plan: Plan)
    requires FrozenPlan(f, plan)
    ensures Reachable(f, plan, None, f, NOTHING_DONE)
  {
  }

  lemma FirstStep(id: Id)
    ensures NOTHING_DONE.Add(VectorAxis, id) == Done({id}, {}, {}, {}) && id !in NOTHING_DONE.vectors
  {
  }

  /** A first run that is killed right after its first commit. */
  method KilledCommit(ds: DataSet, dir: RunDir, plan: Plan, cmd: Command) returns (outcome: Outcome)
    requires FrozenPlan(ds.View(), plan) && dir.receipt == None && plan.records != [] && !Blocked(dir.At(), cmd)
    modifies ds, dir
    ensures outcome == Killed && dir.wal != {}
    ensures ds.View() == Erase(old(ds.View()), Done({plan.records[0].id}, {}, {}, {}))
  {
    hide *;
    ghost var f, id := ds.View(), plan.records[0].id;
    FrozenPlanIsClean(f, plan);
    StartIsReachable(f, plan);
    FirstStep(id);
    ghost var d;
    outcome, d := Apply(ds, dir, plan, cmd, BACKUP_STEPS + 3, f, NOTHING_DONE);
    StateIsErased(f, plan, dir.receipt, ds.View(), d);
  }

  /** A run killed after its first commit leaves a log, and the next run refuses it until somebody checkpoints. */
  method KilledCommitBlocks(ds: DataSet, dir: RunDir, plan: Plan, cmd: Command, life: nat)
    returns (first: Outcome, second: Outcome)
    requires FrozenPlan(ds.View(), plan) && dir.receipt == None && plan.records != [] && !Blocked(dir.At(), cmd)
    modifies ds, dir
    ensures first == Killed && second == Refused
    ensures ds.View() == Erase(old(ds.View()), Done({plan.records[0].id}, {}, {}, {}))
  {
    FrozenPlanIsClean(ds.View(), plan);
    hide InProgress, FrozenPlan, Shrinks, ClaimsStand, BackupsAfter, HoldsSet, CleanPlan, Erase, AsFrozen, BackedUp, FilesOf,
      ProtectionHolds, AxisGone;
    first := KilledCommit(ds, dir, plan, cmd);
    ghost var d;
    second, d := Apply(ds, dir, plan, cmd, life, ds.View(), NOTHING_DONE);
  }

  /**
   * The projected and the registry check read documents and the other graph or registry file as of
   * the last checkpoint, which may be before commits of this run. For a run left alone that changes
   * nothing: every mixture of earlier and later files passes as well.
   */
  lemma OwnCommitsDoNotMislead(f: Stores, plan: Plan, intent: Intent, s: Stores, base: Stores, d: Done, e: Done)
    requires InProgress(f, plan, intent, s, d) && InProgress(f, plan, intent, base, e)
    ensures Projected(s, plan) && Projected(base.(graph := s.graph), plan)
    ensures RegistryGlobal(s, plan) && RegistryGlobal(base.(registry := s.registry), plan)
  {
    assert base.(graph := s.graph) == Erase(f, e.(graph := d.graph));
    assert base.(registry := s.registry) == Erase(f, e.(registry := d.registry));
    VerdictsHold(f, plan, d);
    VerdictsHold(f, plan, e.(graph := d.graph));
    VerdictsHold(f, plan, e.(registry := d.registry));
  }

  /** In every reachable state: an axis is whole or empty, and what may shrink is a subset of the frozen rows. */
  lemma AxesAreWholeOrErased(f: Stores, plan: Plan, receipt: Option<Receipt>, s: Stores, d: Done, rec: Record)
    requires Reachable(f, plan, receipt, s, d) && rec in plan.records
    ensures var now := SnapshotOf(s, rec.id);
      && now.vector in {None, rec.snapshot.vector}
      && now.graph in {None, rec.snapshot.graph}
      && now.edges <= rec.snapshot.edges && (now.graph.None? ==> now.edges == {})
      && ((now.source, now.fts, now.doc) == (rec.snapshot.source, rec.snapshot.fts, rec.snapshot.doc)
          || (now.source, now.fts, now.doc) == (None, NO_FTS, map[]))
      && now.regNodes in {map[], rec.snapshot.regNodes}
      && Submap(now.regEdges, rec.snapshot.regEdges)
      && (now.regNodes == map[] ==> now.regEdges == map[])
  {
    NothingErased(f);
    ErasedGraphView(f, plan, d.graph, rec);
    ErasedDocsView(f, plan, d.docs, rec);
    ErasedRegistryView(f, plan, d.registry, rec);
    FrozenVector(f, plan, d.vectors, rec);
    FrozenAxesAreFull(f, plan, rec);
  }

  lemma StateIsErased(f: Stores, plan: Plan, receipt: Option<Receipt>, s: Stores, d: Done)
    requires Reachable(f, plan, receipt, s, d)
    ensures FrozenPlan(f, plan) && s == Erase(f, d)
  {
    NothingErased(f);
  }

  lemma GoneIsErased(f: Stores, plan: Plan, d: Done, rec: Record)
    requires FrozenPlan(f, plan) && rec in plan.records
    ensures forall axis :: AxisGone(Erase(f, d), rec.id, axis) <==> rec.id in d.Of(axis)
  {
    RestartAccepts(f, plan, d, rec);
    hide DoneKeys, TargetKeys, Allowed, AxisGone, FrozenPlan, Erase, SnapshotOf;
    forall axis
      ensures AxisGone(Erase(f, d), rec.id, axis) <==> rec.id in d.Of(axis)
    {
      DoneMeansGone(Erase(f, d), rec.id, axis);
    }
  }

  /** In every state that ordered kills can leave, a candidate goes axis by axis: vector, graph, documents, registry. */
  lemma ErasedInOrder(f: Stores, plan: Plan, receipt: Option<Receipt>, s: Stores, d: Done, rec: Record)
    requires Reachable(f, plan, receipt, s, d) && d.InOrder() && rec in plan.records
    ensures forall axis :: AxisGone(s, rec.id, axis) <==> rec.id in d.Of(axis)
    ensures AxisGone(s, rec.id, RegistryAxis) ==> AxisGone(s, rec.id, DocumentAxis)
    ensures AxisGone(s, rec.id, DocumentAxis) ==> AxisGone(s, rec.id, GraphAxis)
    ensures AxisGone(s, rec.id, GraphAxis) ==> AxisGone(s, rec.id, VectorAxis)
  {
    hide Reachable, Erase, AxisGone, FrozenPlan;
    StateIsErased(f, plan, receipt, s, d);
    GoneIsErased(f, plan, d, rec);
    assert rec.id in d.Of(RegistryAxis) ==> rec.id in d.Of(DocumentAxis);
    assert rec.id in d.Of(DocumentAxis) ==> rec.id in d.Of(GraphAxis);
    assert rec.id in d.Of(GraphAxis) ==> rec.id in d.Of(VectorAxis);
  }

  /** Each Claim of the manifest that a stored edge of a candidate supported in f stands in s. */
  ghost predicate SupportedClaimsStand(f: Stores, s: Stores, plan: Plan) {
    forall k :: k in f.graph.edges && k.fromId in plan.Ids() && k.toId in plan.graphClaims
      && k.relation == "supports" && f.graph.edges[k].fromType == plan.sel.nodeType && SpellsClaim(f.graph.edges[k].toType)
      ==> GraphClaimStands(s, plan, k.toId)
  }

  lemma CandidateEdgeRecorded(f: Stores, plan: Plan, k: EdgeKey)
    requires FrozenPlan(f, plan) && k in f.graph.edges && k.fromId in plan.Ids()
    ensures exists r :: r in plan.records && EdgeOf(k, f.graph.edges[k]) in r.edges
  {
    var r :| r in plan.records && r.id == k.fromId;
    assert FrozenRecord(f, plan.sel, r);
    assert EdgeOf(k, f.graph.edges[k]) in Elements(r.edges);
  }

  lemma ClaimsOutliveCandidates(f: Stores, plan: Plan)
    requires FrozenPlan(f, plan)
    ensures SupportedClaimsStand(f, Erase(f, Complete(plan)), plan)
  {
    var s := Erase(f, Complete(plan));
    FrozenPlanIsClean(f, plan);
    VerdictsHold(f, plan, Complete(plan));
    GraphCheckExactly(s, plan);
    hide FrozenPlan, SpellsClaim, GraphClaimStands, Erase, CleanPlan, GraphClaimsHeld;
    forall k | k in f.graph.edges && k.fromId in plan.Ids()
      ensures exists r :: r in plan.records && EdgeOf(k, f.graph.edges[k]) in r.edges
    {
      CandidateEdgeRecorded(f, plan, k);
    }
  }

  /**
   * A finished run leaves no row of any candidate and every other row untouched, and each Claim of the
   * manifest that a candidate supported stands on another source.
   */
  lemma FinishedLeavesTheRest(f: Stores, plan: Plan)
    requires FrozenPlan(f, plan)
    ensures var s := Erase(f, Complete(plan));
      && Shrinks(f, s, plan.sel, plan.Ids())
      && SectionsOf(s, plan.sel, plan.Ids()) == SectionsOf(f, plan.sel, plan.Ids())
      && SupportedClaimsStand(f, s, plan)
      && forall id :: id in plan.Ids() ==>
           SnapshotOf(s, id) == Snapshot(None, NO_FTS, map[], None, {}, None, map[], map[])
  {
    var all := plan.Ids();
    var d := Complete(plan);
    EraseShrinks(f, plan, d);
    VerdictsHold(f, plan, d);
    ClaimsOutliveCandidates(f, plan);
    forall id | id in all
      ensures SnapshotOf(Erase(f, d), id) == Snapshot(None, NO_FTS, map[], None, {}, None, map[], map[])
    {
      var rec :| rec in plan.records && rec.id == id;
      ErasedGraphView(f, plan, all, rec);
      ErasedDocsView(f, plan, all, rec);
      ErasedRegistryView(f, plan, all, rec);
      FrozenVector(f, plan, all, rec);
    }
  }
}
