/**
 * Remembered verdicts under interference. Other connections may commit anything to any
 * store the tool has not locked, at any moment, also in the middle of a check that reads
 * the four files one after another, each by several statements. The tool only counts such
 * commits (data_version). Some checks read files through immutable connections, which see a
 * file as of its last checkpoint and not the commits that are still in its log.
 *
 * Proved over every interleaving: whenever the four counters equal the adopted baseline, every
 * remembered verdict whose check met no foreign commit in the log of a file it read in that way
 * holds of the stores as they are, and the position index finds every row of every candidate.
 * Without that condition it fails, and a run that deletes on a false verdict is given.
 */
module Witness {
  import opened Basics
  import opened CleanupModel
  import opened EdgeIntent
  import opened Protection
  import opened Transactions
  import opened Progress

  /** How many commits of other connections each writer connection has seen. */
  datatype Versions = Versions(graph: nat, docs: nat, vectors: nat, registry: nat)
  {
    function Of(db: Db): nat {
      match db
      case GraphDb => graph
      case DocDb => docs
      case VectorDb => vectors
      case RegistryDb => registry
    }

    function Bump(db: Db): Versions {
      match db
      case GraphDb => this.(graph := graph + 1)
      case DocDb => this.(docs := docs + 1)
      case VectorDb => this.(vectors := vectors + 1)
      case RegistryDb => this.(registry := registry + 1)
    }

    predicate AtMost(v: Versions) {
      graph <= v.graph && docs <= v.docs && vectors <= v.vectors && registry <= v.registry
    }
  }

  /** s with the file db taken from t. */
  function Replace(s: Stores, t: Stores, db: Db): Stores {
    match db
    case GraphDb => s.(graph := t.graph)
    case DocDb => s.(docs := t.docs)
    case VectorDb => s.(vectors := t.vectors)
    case RegistryDb => s.(registry := t.registry)
  }

  predicate SameFile(s: Stores, t: Stores, db: Db) {
    match db
    case GraphDb => s.graph == t.graph
    case DocDb => s.docs == t.docs
    case VectorDb => s.vectors == t.vectors
    case RegistryDb => s.registry == t.registry
  }

  /** In this file only candidate rows are gone. */
  ghost predicate FileShrinks(s: Stores, s': Stores, db: Db, plan: Plan) {
    match db
    case GraphDb => GraphShrinks(s.graph, s'.graph, plan.sel, plan.Ids())
    case DocDb => DocsShrink(s.docs, s'.docs, plan.Ids())
    case VectorDb => VectorsShrink(s.vectors, s'.vectors, plan.Ids())
    case RegistryDb => RegistryShrinks(s.registry, s'.registry, plan.Ids())
  }

  lemma FilesShrink(s: Stores, s': Stores, plan: Plan)
    ensures (forall db :: FileShrinks(s, s', db, plan)) <==> Shrinks(s, s', plan.sel, plan.Ids())
  {
    if forall db :: FileShrinks(s, s', db, plan) {
      assert FileShrinks(s, s', GraphDb, plan) && FileShrinks(s, s', DocDb, plan);
      assert FileShrinks(s, s', VectorDb, plan) && FileShrinks(s, s', RegistryDb, plan);
    }
  }

  lemma SameFileShrinks(s: Stores, s': Stores, db: Db, plan: Plan)
    requires SameFile(s, s', db)
    ensures FileShrinks(s, s', db, plan)
  {
  }

  lemma FileShrinksFurther(a: Stores, b: Stores, c: Stores, db: Db, plan: Plan)
    requires FileShrinks(a, b, db, plan) && Shrinks(b, c, plan.sel, plan.Ids())
    ensures FileShrinks(a, c, db, plan)
  {
    var a' := Replace(b, a, db);
    forall d
      ensures FileShrinks(a', b, d, plan)
    {
      if d != db { SameFileShrinks(a', b, d, plan); }
    }
    FilesShrink(a', b, plan);
    ShrinksTransitive(a', b, c, plan.sel, plan.Ids());
    FilesShrink(a', c, plan);
    assert FileShrinks(a', c, db, plan);
  }

  // ------------------------------------------------------------ position index

  /** Row ids a scan filed under candidate ids. */
  datatype Index = Index(fts: set<(RowId, Id)>, regNodes: set<(RowId, Id)>, regEdges: set<(RowId, Id)>)

  predicate CoversDocs(x: Index, d: Docs, ids: set<Id>) {
    forall r :: r in d.fts && d.fts[r].sourceId in ids ==> (r, d.fts[r].sourceId) in x.fts
  }

  predicate CoversRegistry(x: Index, r: Registry, ids: set<Id>) {
    && (forall i :: i in r.nodes && r.nodes[i].nodeId in ids ==> (i, r.nodes[i].nodeId) in x.regNodes)
    && (forall i :: i in r.edges && r.edges[i].fromId in ids ==> (i, r.edges[i].fromId) in x.regEdges)
    && (forall i :: i in r.edges && r.edges[i].toId in ids ==> (i, r.edges[i].toId) in x.regEdges)
  }

  /** fts_rows through the index: fetch each filed row id and check it still names the candidate. */
  function FtsThrough(x: Index, d: Docs, id: Id): set<RowId> {
    set p | p in x.fts && p.1 == id && p.0 in d.fts && d.fts[p.0].sourceId == id :: p.0
  }

  function RegNodesThrough(x: Index, r: Registry, id: Id): set<RowId> {
    set p | p in x.regNodes && p.1 == id && p.0 in r.nodes && r.nodes[p.0].nodeId == id :: p.0
  }

  function RegEdgesThrough(x: Index, r: Registry, id: Id): set<RowId> {
    set p | p in x.regEdges && p.1 == id && p.0 in r.edges && (r.edges[p.0].fromId == id || r.edges[p.0].toId == id) :: p.0
  }

  /** While the index covers a store, reading through it is reading the store. */
  lemma IndexedReadIsDirect(x: Index, s: Stores, ids: set<Id>, id: Id)
    requires id in ids
    ensures CoversDocs(x, s.docs, ids) ==> FtsThrough(x, s.docs, id) == FtsRowsOf(s.docs, id)
    ensures CoversRegistry(x, s.registry, ids) ==>
      && RegNodesThrough(x, s.registry, id) == RegNodesOf(s.registry, id).Keys
      && RegEdgesThrough(x, s.registry, id) == RegEdgesOf(s.registry, id).Keys
  {
    if CoversDocs(x, s.docs, ids) {
      forall r | r in FtsRowsOf(s.docs, id)
        ensures r in FtsThrough(x, s.docs, id)
      {
        assert (r, id) in x.fts;
      }
    }
    if CoversRegistry(x, s.registry, ids) {
      forall i | i in RegNodesOf(s.registry, id)
        ensures i in RegNodesThrough(x, s.registry, id)
      {
        assert (i, id) in x.regNodes;
      }
      forall i | i in RegEdgesOf(s.registry, id)
        ensures i in RegEdgesThrough(x, s.registry, id)
      {
        assert (i, id) in x.regEdges;
      }
    }
  }

  /** The scan of reload() for one file; the others keep what they had. */
  function Rescan(x: Index, s: Stores, ids: set<Id>, db: Db): Index {
    match db
    case GraphDb => x
    case VectorDb => x
    case DocDb => x.(fts := set r | r in s.docs.fts && s.docs.fts[r].sourceId in ids :: (r, s.docs.fts[r].sourceId))
    case RegistryDb =>
      x.(regNodes := (set i | i in s.registry.nodes && s.registry.nodes[i].nodeId in ids :: (i, s.registry.nodes[i].nodeId)),
         regEdges := (set i | i in s.registry.edges && s.registry.edges[i].fromId in ids :: (i, s.registry.edges[i].fromId))
                     + (set i | i in s.registry.edges && s.registry.edges[i].toId in ids :: (i, s.registry.edges[i].toId)))
  }

  predicate Covers(x: Index, s: Stores, ids: set<Id>, db: Db) {
    match db
    case GraphDb => true
    case VectorDb => true
    case DocDb => CoversDocs(x, s.docs, ids)
    case RegistryDb => CoversRegistry(x, s.registry, ids)
  }

  // ------------------------------------------------------------------ verdicts

  /** What a run remembers: the projected check of the preflight and of the deletes, the registry check, the digest, the first full snapshot. */
  datatype Memo = MPreflight | MProjected | MRegistry | MProtection | MSnapshot

  /** The files a check reads through immutable connections. */
  function BaseReads(m: Memo): set<Db> {
    match m
    case MPreflight => {GraphDb, DocDb, RegistryDb}
    case MProjected => {DocDb, RegistryDb}
    case MRegistry => {GraphDb, DocDb}
    case MProtection => {}
    case MSnapshot => {}
  }

  /** A check is evaluated clause by clause; between two clauses any file may be read again. */
  datatype Clause = GraphRows | GraphClaims | Sources | RegistryRows | RegistryClaims | AllSections | AllSnapshots

  function ClausesOf(m: Memo): set<Clause> {
    match m
    case MPreflight => {GraphRows, Sources, GraphClaims}
    case MProjected => {GraphRows, Sources, GraphClaims}
    case MRegistry => {RegistryRows, RegistryClaims, Sources}
    case MProtection => {AllSections}
    case MSnapshot => {AllSections, AllSnapshots}
  }

  /** The files a clause looks at. */
  function FilesRead(k: Clause): set<Db> {
    match k
    case GraphRows => {GraphDb}
    case GraphClaims => {GraphDb, DocDb, RegistryDb}
    case Sources => {DocDb}
    case RegistryRows => {RegistryDb}
    case RegistryClaims => {GraphDb, DocDb, RegistryDb}
    case AllSections => ALL_DBS
    case AllSnapshots => ALL_DBS
  }

  /** A running check: what it is for, and the plan it was called with. */
  datatype Check = Check(memo: Memo, plannedEdges: set<Edge>, plannedNodes: set<Id>)

  predicate ValidCheck(c: Check, plan: Plan) {
    c.plannedNodes <= plan.Ids() && forall e :: e in c.plannedEdges ==> TouchesAny(e, plan.Ids())
  }

  /** What the code tests for a clause, on whatever mixture of reads it has. */
  ghost predicate Tests(k: Clause, m: Stores, plan: Plan, c: Check) {
    match k
    case GraphRows =>
      && PlannedRowsPlain(m.graph, c.plannedNodes)
      && ReservedNodes(m.graph, c.plannedNodes) == plan.sections.nodes
      && EvidenceNodes(m.graph, plan.sel, plan.Ids(), c.plannedNodes) == plan.sections.evidenceGraph
      && FreeEdges(m.graph, plan.Ids()) == plan.sections.edges
    case GraphClaims => GraphClaimsHeld(m, plan, c.plannedEdges, c.plannedNodes)
    case Sources => SourceSection(m.docs, plan.evidenceIds) == plan.sections.evidenceSource
    case RegistryRows =>
      && RegistryNodes(m.registry, plan.Ids()) == plan.sections.registryNodes
      && RegistryEdges(m.registry, plan.Ids()) == plan.sections.registryEdges
    case RegistryClaims => RegistryClaimsHeld(m, plan)
    case AllSections => ProtectionHolds(m, plan)
    case AllSnapshots => forall r :: r in plan.records ==> SnapshotOf(m, r.id) == r.snapshot
  }

  /** What a clause means of the stores, with no plan in sight. */
  ghost predicate Means(k: Clause, s: Stores, plan: Plan) {
    Tests(k, s, plan, Check(MProjected, {}, {}))
  }

  /** A clause sees only its files. */
  lemma TestsAreLocal(k: Clause, m: Stores, m': Stores, plan: Plan, c: Check)
    requires Tests(k, m, plan, c) && forall db :: db in FilesRead(k) ==> SameFile(m, m', db)
    ensures Tests(k, m', plan, c)
  {
    match k {
      case GraphRows => assert SameFile(m, m', GraphDb);
      case GraphClaims =>
        assert SameFile(m, m', GraphDb) && SameFile(m, m', DocDb) && SameFile(m, m', RegistryDb);
        assert m' == m.(vectors := m'.vectors);
        VectorsAreNoSupport(m, m', plan, c);
      case Sources => assert SameFile(m, m', DocDb);
      case RegistryRows => assert SameFile(m, m', RegistryDb);
      case RegistryClaims =>
        assert SameFile(m, m', GraphDb) && SameFile(m, m', DocDb) && SameFile(m, m', RegistryDb);
        assert m' == m.(vectors := m'.vectors);
        VectorsAreNoSupport(m, m', plan, c);
      case AllSections => SameFiles(m, m');
      case AllSnapshots => SameFiles(m, m');
    }
  }

  lemma SameFiles(m: Stores, m': Stores)
    requires forall db :: db in ALL_DBS ==> SameFile(m, m', db)
    ensures m == m'
  {
    assert SameFile(m, m', GraphDb) && SameFile(m, m', DocDb) && SameFile(m, m', VectorDb) && SameFile(m, m', RegistryDb);
  }

  lemma VectorsAreNoSupport(m: Stores, m': Stores, plan: Plan, c: Check)
    requires m' == m.(vectors := m'.vectors)
    ensures GraphClaimsHeld(m, plan, c.plannedEdges, c.plannedNodes) ==> GraphClaimsHeld(m', plan, c.plannedEdges, c.plannedNodes)
    ensures RegistryClaimsHeld(m, plan) ==> RegistryClaimsHeld(m', plan)
  {
    if GraphClaimsHeld(m, plan, c.plannedEdges, c.plannedNodes) {
      forall claim | claim in AffectedGraph(plan)
        ensures GraphClaimHeld(m', plan, claim, c.plannedEdges, c.plannedNodes)
      {
        var e :| e in Edges(m.graph) && GraphSupport(m, plan, e, claim, c.plannedEdges);
        assert GraphSupport(m', plan, e, claim, c.plannedEdges);
      }
    }
    if RegistryClaimsHeld(m, plan) {
      forall claim | claim in AffectedRegistry(plan)
        ensures RegistryClaimHeld(m', plan, claim)
      {
        var n :| n in m.registry.nodes && RegistryClaimNode(m.registry, n, claim);
        assert RegistryClaimNode(m'.registry, n, claim);
        var i :| i in m.registry.edges && RegistrySupport(m, plan, i, claim);
        assert RegistrySupport(m', plan, i, claim);
      }
    }
  }

  lemma TestsMean(k: Clause, m: Stores, plan: Plan, c: Check)
    requires CleanPlan(plan) && ValidCheck(c, plan) && Tests(k, m, plan, c)
    ensures Means(k, m, plan)
  {
    match k {
      case GraphRows =>
        assert ReservedNodes(m.graph, c.plannedNodes) == ReservedNodes(m.graph, {});
        assert EvidenceNodes(m.graph, plan.sel, plan.Ids(), c.plannedNodes) == EvidenceNodes(m.graph, plan.sel, plan.Ids(), {});
      case GraphClaims =>
        AffectedAreNotCandidates(plan);
        forall claim | claim in AffectedGraph(plan)
          ensures GraphClaimHeld(m, plan, claim, {}, {})
        {
          PlannedEdgesAreNoSupport(m, plan, claim, c.plannedEdges, c.plannedNodes);
        }
      case Sources =>
      case RegistryRows =>
      case RegistryClaims =>
      case AllSections =>
      case AllSnapshots =>
    }
  }

  /** The tool's own deletes keep every clause except the frozen snapshots. */
  lemma MeaningSurvives(k: Clause, s: Stores, s': Stores, plan: Plan)
    requires CleanPlan(plan) && Shrinks(s, s', plan.sel, plan.Ids())
    requires k != AllSnapshots && Means(k, s, plan)
    ensures Means(k, s', plan)
  {
    match k {
      case GraphRows => GraphSectionsFrame(s.graph, s'.graph, plan.sel, plan.Ids());
      case GraphClaims => ClaimChecksSurvive(s, s', plan);
      case Sources => RowSectionsFrame(s, s', plan.sel, plan.Ids(), plan.evidenceIds);
      case RegistryRows => RowSectionsFrame(s, s', plan.sel, plan.Ids(), plan.evidenceIds);
      case RegistryClaims => ClaimChecksSurvive(s, s', plan);
      case AllSections => VerdictsSurvive(s, s', plan);
      case AllSnapshots =>
    }
  }

  // ------------------------------------------------------------- state machine

  /** The counters when a read began, and whether no foreign commit was in the log then. */
  datatype Opened = Opened(version: nat, flushes: nat, clean: bool)

  /** A read of one file: what it saw, the counter when it began, and whether the log was clean. */
  datatype Read = Read(content: Stores, version: nat, clean: bool)

  datatype Pc =
    | Idle
    | Checking(check: Check, open: map<Db, Opened>, fetched: map<Db, Read>, passed: set<Clause>, misled: bool)
    | Handling(before: map<Db, nat>, reloaded: set<Db>, again: set<Db>)

  /**
   * stores is what a connection sees that reads the logs, base what the files hold without them.
   * pending are the files with a foreign commit in the log. A check is misled if it read such a
   * file without its log; the verdicts of such checks are doubtful.
   */
  datatype State = State(
    stores: Stores,
    base: Stores,
    pending: set<Db>,
    flushes: Versions,
    version: Versions,
    seen: Versions,
    memos: set<Memo>,
    doubtful: set<Memo>,
    index: Index,
    wrote: bool,
    locked: Option<Db>,
    pc: Pc)

  /**
   * A file is read by several statements. What they see together is the file as it is now if no
   * other connection committed since the counter was at from, and anything otherwise.
   */
  predicate Sees(content: Stores, s: State, db: Db, from: nat) {
    s.version.Of(db) == from ==> SameFile(content, s.stores, db)
  }

  /**
   * Without the log they see the base file, if there was no checkpoint in between. With one, they
   * still see the file as it is, but for rows the tool deleted, if no foreign commit was or came in.
   */
  ghost predicate SeesBase(content: Stores, s: State, db: Db, from: Opened, plan: Plan) {
    && (s.flushes.Of(db) == from.flushes ==> SameFile(content, s.base, db))
    && (from.clean && s.version.Of(db) == from.version ==> FileShrinks(content, s.stores, db, plan))
  }

  datatype Delete =
    | DeleteVector(rec: Record)
    | DeleteGraph(rec: Record, intent: Intent, remembered: bool)
    | DeleteDocument(rec: Record, row: Option<DocKey>)
    | DeleteRegistry(rec: Record, remembered: bool)

  function FileOf(x: Delete): Db {
    match x
    case DeleteVector(_) => VectorDb
    case DeleteGraph(_, _, _) => GraphDb
    case DeleteDocument(_, _) => DocDb
    case DeleteRegistry(_, _) => RegistryDb
  }

  ghost predicate Deletes(x: Delete, s: Stores, s': Stores, plan: Plan) {
    match x
    case DeleteVector(rec) => rec in plan.records && TxVector(s.vectors, rec) == Some(s'.vectors) && s' == s.(vectors := s'.vectors)
    case DeleteGraph(rec, intent, m) =>
      rec in plan.records && TxGraph(s, rec, plan, intent, m) == Some(s'.graph) && s' == s.(graph := s'.graph)
    case DeleteDocument(rec, row) =>
      && rec in plan.records && FetchedRow(s.docs, rec.id, row)
      && TxDocs(s.docs, rec, plan.sel, row) == Some(s'.docs) && s' == s.(docs := s'.docs)
    case DeleteRegistry(rec, m) =>
      rec in plan.records && TxRegistry(s, rec, plan, m) == Some(s'.registry) && s' == s.(registry := s'.registry)
  }

  lemma DeletesShrink(x: Delete, s: Stores, s': Stores, plan: Plan)
    requires CleanPlan(plan) && Deletes(x, s, s', plan)
    ensures Shrinks(s, s', plan.sel, plan.Ids())
  {
    match x {
      case DeleteVector(rec) => VectorTxShrinks(s, rec, plan);
      case DeleteGraph(rec, intent, m) => GraphTxShrinks(s, rec, plan, intent, m);
      case DeleteDocument(rec, row) => DocsTxShrinks(s, rec, plan, row);
      case DeleteRegistry(rec, m) => RegistryTxShrinks(s, rec, plan, m);
    }
  }

  datatype Step =
    | Foreign(db: Db, content: Stores)   // another connection commits
    | Checkpoint(db: Db, content: Stores, complete: bool) // some connection moves commits from the log to the file
    | Lock(db: Db)                       // BEGIN IMMEDIATE
    | Unlock                             // ROLLBACK
    | Commit(x: Delete)                  // one of the tool's deletes
    | StartCheck(check: Check)
    | StartRead(db: Db)                  // a check begins to read one file
    | FinishRead(db: Db, content: Stores)
    | PassClause(clause: Clause)
    | EndCheck                           // the pass is remembered
    | AbandonCheck
    | StartHandling                      // _handle_change
    | ReadVersion(db: Db)
    | Reload(db: Db, content: Stores)
    | Forget
    | ReadAgain(db: Db)
    | Adopt

  /** The files a check has at hand: as last read, or as they are now, with or without the log. */
  function Mixture(s: State, m: Memo, fetched: map<Db, Read>): Stores {
    Stores(
      if GraphDb in fetched then fetched[GraphDb].content.graph else if GraphDb in BaseReads(m) then s.base.graph else s.stores.graph,
      if DocDb in fetched then fetched[DocDb].content.docs else if DocDb in BaseReads(m) then s.base.docs else s.stores.docs,
      if VectorDb in fetched then fetched[VectorDb].content.vectors else if VectorDb in BaseReads(m) then s.base.vectors else s.stores.vectors,
      if RegistryDb in fetched then fetched[RegistryDb].content.registry else if RegistryDb in BaseReads(m) then s.base.registry else s.stores.registry)
  }

  /** The clause looks at a file without its log while a foreign commit is in it. */
  predicate Misleads(s: State, m: Memo, fetched: map<Db, Read>, k: Clause) {
    exists db :: db in FilesRead(k) * BaseReads(m) && if db in fetched then !fetched[db].clean else db in s.pending
  }

  ghost predicate Next(s: State, s': State, step: Step, plan: Plan) {
    match step
    case Foreign(db, content) =>
      && s.locked != Some(db)
      && s' == s.(stores := Replace(s.stores, content, db), version := s.version.Bump(db), pending := s.pending + {db})
    case Checkpoint(db, content, complete) =>
      && (complete ==> FileShrinks(content, s.stores, db, plan)) && (db !in s.pending ==> complete)
      && s' == s.(base := Replace(s.base, content, db), flushes := s.flushes.Bump(db),
                  pending := if complete then s.pending - {db} else s.pending)
    case Lock(db) => s.pc.Idle? && s.locked.None? && s' == s.(locked := Some(db))
    case Unlock => s.pc.Idle? && s.locked.Some? && s' == s.(locked := None)
    case Commit(x) =>
      && s.pc.Idle? && s.locked == Some(FileOf(x)) && Deletes(x, s.stores, s'.stores, plan)
      && s' == s.(stores := s'.stores, locked := None, wrote := true)
    case StartCheck(check) =>
      && s.pc.Idle? && ValidCheck(check, plan) && (check.memo == MSnapshot ==> !s.wrote)
      && s' == s.(pc := Checking(check, map[], map[], {}, false))
    case StartRead(db) =>
      && s.pc.Checking?
      && s' == s.(pc := s.pc.(open := s.pc.open[db := Opened(s.version.Of(db), s.flushes.Of(db), db !in s.pending)]))
    case FinishRead(db, content) =>
      && s.pc.Checking? && db in s.pc.open
      && (if db in BaseReads(s.pc.check.memo) then SeesBase(content, s, db, s.pc.open[db], plan)
          else Sees(content, s, db, s.pc.open[db].version))
      && s' == s.(pc := s.pc.(fetched := s.pc.fetched[db := Read(content, s.pc.open[db].version, s.pc.open[db].clean)]))
    case PassClause(k) =>
      && s.pc.Checking? && k in ClausesOf(s.pc.check.memo)
      && Tests(k, Mixture(s, s.pc.check.memo, s.pc.fetched), plan, s.pc.check)
      && s' == s.(pc := s.pc.(passed := s.pc.passed + {k},
                              misled := s.pc.misled || Misleads(s, s.pc.check.memo, s.pc.fetched, k)))
    case EndCheck =>
      && s.pc.Checking? && ClausesOf(s.pc.check.memo) <= s.pc.passed
      && s' == s.(memos := s.memos + {s.pc.check.memo}, pc := Idle,
                  doubtful := if s.pc.misled then s.doubtful + {s.pc.check.memo} else s.doubtful - {s.pc.check.memo})
    case AbandonCheck => s.pc.Checking? && s' == s.(pc := Idle)
    case StartHandling => s.pc.Idle? && s.locked.None? && s' == s.(pc := Handling(map[], {}, {}))
    case ReadVersion(db) =>
      && s.pc.Handling? && s.pc.reloaded == {}
      && s' == s.(pc := s.pc.(before := s.pc.before[db := s.version.Of(db)]))
    case Reload(db, content) =>
      && s.pc.Handling? && s.pc.before.Keys == ALL_DBS && db in s.pc.before && Sees(content, s, db, s.pc.before[db])
      && s' == s.(index := Rescan(s.index, content, plan.Ids(), db), pc := s.pc.(reloaded := s.pc.reloaded + {db}))
    case Forget => s.pc.Handling? && s' == s.(memos := {}, doubtful := {})
    case ReadAgain(db) =>
      && s.pc.Handling? && s.memos == {} && s.pc.reloaded == ALL_DBS && db in s.pc.before
      && s.pc.before[db] == s.version.Of(db)
      && s' == s.(pc := s.pc.(again := s.pc.again + {db}))
    case Adopt =>
      && s.pc.Handling? && s.memos == {} && s.pc.reloaded == ALL_DBS && s.pc.again == ALL_DBS
      && s.pc.before.Keys == ALL_DBS
      && s' == s.(seen := Versions(s.pc.before[GraphDb], s.pc.before[DocDb], s.pc.before[VectorDb], s.pc.before[RegistryDb]),
                  pc := Idle)
  }

  /** A run starts with logs that hold foreign commits at most, counters read one by one, nothing remembered and a scanned index. */
  ghost predicate Init(s: State, plan: Plan) {
    && s.pc.Idle? && s.locked.None? && s.memos == {} && s.doubtful == {} && !s.wrote
    && (forall db :: db !in s.pending ==> SameFile(s.base, s.stores, db))
    && s.seen.AtMost(s.version)
    && forall db :: s.seen.Of(db) == s.version.Of(db) ==> Covers(s.index, s.stores, plan.Ids(), db)
  }

  // ------------------------------------------------------------------ invariant

  ghost predicate MemoTrue(m: Memo, s: Stores, plan: Plan, wrote: bool) {
    forall k :: k in ClausesOf(m) && (k == AllSnapshots ==> !wrote) ==> Means(k, s, plan)
  }

  /** A read is still good as long as its counter has not moved; without the log, if it was clean. */
  ghost predicate ReadGood(r: Read, db: Db, s: State, m: Memo, plan: Plan) {
    && s.seen.Of(db) <= r.version <= s.version.Of(db)
    && (r.version == s.version.Of(db) ==>
          if db in BaseReads(m) then r.clean ==> FileShrinks(r.content, s.stores, db, plan)
          else SameFile(r.content, s.stores, db))
  }

  ghost predicate IndexMatters(s: State, db: Db) {
    if s.pc.Handling? && db in s.pc.reloaded then db in s.pc.before && s.pc.before[db] == s.version.Of(db)
    else s.seen.Of(db) == s.version.Of(db)
  }

  /** Where the counter equals what the index was scanned under, the index covers the file. */
  ghost predicate IndexGood(s: State, plan: Plan) {
    forall db :: IndexMatters(s, db) ==> Covers(s.index, s.stores, plan.Ids(), db)
  }

  ghost predicate PcGood(s: State, plan: Plan) {
    match s.pc
    case Idle => true
    case Checking(check, open, fetched, passed, misled) =>
      && ValidCheck(check, plan)
      && (check.memo == MSnapshot ==> !s.wrote)
      && (forall db :: db in open ==> s.seen.Of(db) <= open[db].version <= s.version.Of(db))
      && (forall db :: db in fetched ==> ReadGood(fetched[db], db, s, check.memo, plan))
      && (BaseReads(check.memo) == {} ==> !misled)
      && (s.version == s.seen && !misled ==> forall k :: k in passed ==> Means(k, s.stores, plan))
    case Handling(before, reloaded, again) =>
      && (forall db :: db in before ==> before[db] <= s.version.Of(db))
      && s.locked.None?
      && (reloaded != {} ==> before.Keys == ALL_DBS)
      && (again != {} ==> reloaded == ALL_DBS && s.memos == {})
  }

  ghost predicate Inv(s: State, plan: Plan) {
    && s.seen.AtMost(s.version)
    && (forall m :: m in s.doubtful ==> BaseReads(m) != {})
    && (forall db :: db !in s.pending ==> FileShrinks(s.base, s.stores, db, plan))
    && (s.version == s.seen ==> forall m :: m in s.memos && m !in s.doubtful ==> MemoTrue(m, s.stores, plan, s.wrote))
    && IndexGood(s, plan)
    && PcGood(s, plan)
  }

  lemma InitInv(s: State, plan: Plan)
    requires Init(s, plan)
    ensures Inv(s, plan)
  {
    forall db | db !in s.pending
      ensures FileShrinks(s.base, s.stores, db, plan)
    {
      SameFileShrinks(s.base, s.stores, db, plan);
    }
  }

  /** A foreign commit moves its counter away from the baseline, so it can only make claims moot. */
  lemma ForeignKeepsInv(s: State, s': State, db: Db, content: Stores, plan: Plan)
    requires Inv(s, plan) && Next(s, s', Foreign(db, content), plan)
    ensures Inv(s', plan)
  {
    assert s'.version != s'.seen;
    hide Covers, Tests, MemoTrue, SnapshotOf, ClausesOf;
    forall d | IndexMatters(s', d)
      ensures Covers(s'.index, s'.stores, plan.Ids(), d)
    {
      assert d != db;
      assert IndexMatters(s, d);
      SameFileCovers(s.index, s.stores, s'.stores, plan.Ids(), d);
    }
    forall d | d !in s'.pending
      ensures FileShrinks(s'.base, s'.stores, d, plan)
    {
      SameLive(s.base, s.stores, s'.stores, d, plan);
    }
    if s.pc.Checking? {
      forall d | d in s.pc.fetched
        ensures ReadGood(s.pc.fetched[d], d, s', s.pc.check.memo, plan)
      {
        assert ReadGood(s.pc.fetched[d], d, s, s.pc.check.memo, plan);
        if d != db && s.pc.fetched[d].version == s.version.Of(d) && s.pc.fetched[d].clean && d in BaseReads(s.pc.check.memo) {
          SameLive(s.pc.fetched[d].content, s.stores, s'.stores, d, plan);
        }
      }
    }
  }

  lemma SameFileCovers(x: Index, s: Stores, t: Stores, ids: set<Id>, db: Db)
    requires Covers(x, s, ids, db) && SameFile(s, t, db)
    ensures Covers(x, t, ids, db)
  {
  }

  lemma SameLive(a: Stores, s: Stores, t: Stores, db: Db, plan: Plan)
    requires FileShrinks(a, s, db, plan) && SameFile(s, t, db)
    ensures FileShrinks(a, t, db, plan)
  {
  }

  lemma CheckpointKeepsInv(s: State, s': State, db: Db, content: Stores, complete: bool, plan: Plan)
    requires Inv(s, plan) && Next(s, s', Checkpoint(db, content, complete), plan)
    ensures Inv(s', plan)
  {
    hide Covers, Tests, MemoTrue;
    forall d | d !in s'.pending
      ensures FileShrinks(s'.base, s'.stores, d, plan)
    {
      if d == db {
        SameBase(content, s'.base, s.stores, d, plan);
      } else {
        SameBase(s.base, s'.base, s.stores, d, plan);
      }
    }
    assert forall d :: IndexMatters(s', d) == IndexMatters(s, d);
    if s.pc.Checking? {
      forall d | d in s.pc.fetched
        ensures ReadGood(s.pc.fetched[d], d, s', s.pc.check.memo, plan)
      {
        assert ReadGood(s.pc.fetched[d], d, s, s.pc.check.memo, plan);
      }
    }
  }

  lemma SameBase(a: Stores, b: Stores, s: Stores, db: Db, plan: Plan)
    requires FileShrinks(a, s, db, plan) && SameFile(a, b, db)
    ensures FileShrinks(b, s, db, plan)
  {
  }

  lemma CommitKeepsInv(s: State, s': State, x: Delete, plan: Plan)
    requires CleanPlan(plan) && Inv(s, plan) && Next(s, s', Commit(x), plan)
    ensures Inv(s', plan)
  {
    DeletesShrink(x, s.stores, s'.stores, plan);
    hide Deletes, Shrinks, CleanPlan, Covers, FileShrinks, Tests;
    forall m, k | s'.version == s'.seen && m in s'.memos && m !in s'.doubtful && k in ClausesOf(m) && k != AllSnapshots
      ensures Means(k, s'.stores, plan)
    {
      assert MemoTrue(m, s.stores, plan, s.wrote);
      MeaningSurvives(k, s.stores, s'.stores, plan);
    }
    forall db | IndexMatters(s', db)
      ensures Covers(s'.index, s'.stores, plan.Ids(), db)
    {
      assert IndexMatters(s, db);
      CoverageSurvives(s.index, s.stores, s'.stores, plan, db);
    }
    forall db | db !in s'.pending
      ensures FileShrinks(s'.base, s'.stores, db, plan)
    {
      FileShrinksFurther(s.base, s.stores, s'.stores, db, plan);
    }
  }

  lemma CoverageSurvives(x: Index, s: Stores, s': Stores, plan: Plan, db: Db)
    requires Shrinks(s, s', plan.sel, plan.Ids()) && Covers(x, s, plan.Ids(), db)
    ensures Covers(x, s', plan.Ids(), db)
  {
  }

  /** What a clause was tested on, restricted to its files. */
  function Localised(k: Clause, m: Stores, s: Stores): Stores {
    Stores(
      if GraphDb in FilesRead(k) then m.graph else s.graph,
      if DocDb in FilesRead(k) then m.docs else s.docs,
      if VectorDb in FilesRead(k) then m.vectors else s.vectors,
      if RegistryDb in FilesRead(k) then m.registry else s.registry)
  }

  lemma LocalisedFiles(k: Clause, m: Stores, s: Stores)
    ensures forall db :: db in FilesRead(k) ==> SameFile(m, Localised(k, m, s), db)
    ensures forall db :: db !in FilesRead(k) ==> SameFile(Localised(k, m, s), s, db)
  {
  }

  /**
   * A clause that passed on files which, as far as it looks at them, are the stores but for rows the
   * tool deleted, is true of the stores.
   */
  lemma PassedIsTrue(k: Clause, m: Stores, s: Stores, plan: Plan, c: Check)
    requires CleanPlan(plan) && ValidCheck(c, plan) && Tests(k, m, plan, c)
    requires forall db :: db in FilesRead(k) ==> FileShrinks(m, s, db, plan)
    requires k == AllSnapshots ==> m == s
    ensures Means(k, s, plan)
  {
    hide Tests, CleanPlan, Shrinks, FileShrinks, Localised;
    var m' := Localised(k, m, s);
    LocalisedFiles(k, m, s);
    TestsAreLocal(k, m, m', plan, c);
    TestsMean(k, m', plan, c);
    if k == AllSnapshots {
      AllDbs();
      SameFiles(s, m') by { assert forall db :: db in FilesRead(k); }
    } else {
      forall db
        ensures FileShrinks(m', s, db, plan)
      {
        if db in FilesRead(k) {
          SameBase(m, m', s, db, plan);
        } else {
          SameFileShrinks(m', s, db, plan);
        }
      }
      FilesShrink(m', s, plan);
      MeaningSurvives(k, m', s, plan);
    }
  }

  /** If nobody committed since the baseline and the clause is not misled, each of its files is right. */
  lemma QuietMixture(s: State, plan: Plan, k: Clause)
    requires Inv(s, plan) && s.pc.Checking? && s.version == s.seen
    requires !Misleads(s, s.pc.check.memo, s.pc.fetched, k)
    ensures forall db :: db in FilesRead(k) ==> FileShrinks(Mixture(s, s.pc.check.memo, s.pc.fetched), s.stores, db, plan)
  {
    var m, fetched := s.pc.check.memo, s.pc.fetched;
    var mix := Mixture(s, m, fetched);
    hide Covers, Tests, MemoTrue, FileShrinks, ClausesOf, FilesRead, IndexMatters;
    forall db | db in FilesRead(k)
      ensures FileShrinks(mix, s.stores, db, plan)
    {
      if db in fetched {
        assert ReadGood(fetched[db], db, s, m, plan);
        MixtureFetched(s, m, fetched, db);
        if db in BaseReads(m) {
          assert fetched[db].clean;
        } else {
          SameFileShrinks(fetched[db].content, s.stores, db, plan);
        }
        SameBase(fetched[db].content, mix, s.stores, db, plan);
      } else {
        MixtureUnfetched(s, m, fetched, db);
        if db in BaseReads(m) {
          assert db !in s.pending;
          SameBase(s.base, mix, s.stores, db, plan);
        } else {
          SameFileShrinks(mix, s.stores, db, plan);
        }
      }
    }
  }

  lemma MixtureFetched(s: State, m: Memo, fetched: map<Db, Read>, db: Db)
    requires db in fetched
    ensures SameFile(fetched[db].content, Mixture(s, m, fetched), db)
  {
  }

  lemma MixtureUnfetched(s: State, m: Memo, fetched: map<Db, Read>, db: Db)
    requires db !in fetched
    ensures SameFile(if db in BaseReads(m) then s.base else s.stores, Mixture(s, m, fetched), db)
  {
  }

  /** A check that reads the logs tests the stores themselves. */
  lemma LiveMixture(s: State, plan: Plan)
    requires Inv(s, plan) && s.pc.Checking? && s.version == s.seen && BaseReads(s.pc.check.memo) == {}
    ensures Mixture(s, s.pc.check.memo, s.pc.fetched) == s.stores
  {
    forall db | db in s.pc.fetched
      ensures SameFile(s.pc.fetched[db].content, s.stores, db)
    {
      assert ReadGood(s.pc.fetched[db], db, s, s.pc.check.memo, plan);
    }
  }

  lemma PassClauseKeepsInv(s: State, s': State, k: Clause, plan: Plan)
    requires CleanPlan(plan) && Inv(s, plan) && Next(s, s', PassClause(k), plan)
    ensures Inv(s', plan)
  {
    assert forall db :: IndexMatters(s', db) == IndexMatters(s, db);
    var m := s.pc.check.memo;
    forall d | d in s'.pc.fetched
      ensures ReadGood(s'.pc.fetched[d], d, s', m, plan)
    {
      assert ReadGood(s.pc.fetched[d], d, s, m, plan);
    }
    if s.version == s.seen && !s'.pc.misled {
      QuietMixture(s, plan, k);
      if k == AllSnapshots { LiveMixture(s, plan); }
      hide CleanPlan, FileShrinks, Mixture, Tests;
      PassedIsTrue(k, Mixture(s, m, s.pc.fetched), s.stores, plan, s.pc.check);
    }
  }

  lemma CheckStepsKeepInv(s: State, s': State, step: Step, plan: Plan)
    requires CleanPlan(plan) && Inv(s, plan) && Next(s, s', step, plan)
    requires step.StartCheck? || step.StartRead? || step.FinishRead? || step.EndCheck? || step.AbandonCheck?
    ensures Inv(s', plan)
  {
    hide Covers, Tests, CleanPlan, Deletes;
    assert forall db :: IndexMatters(s', db) == IndexMatters(s, db);
    match step {
      case StartCheck(_) =>
      case StartRead(db) =>
        forall d | d in s'.pc.fetched
          ensures ReadGood(s'.pc.fetched[d], d, s', s.pc.check.memo, plan)
        {
          assert ReadGood(s.pc.fetched[d], d, s, s.pc.check.memo, plan);
        }
      case FinishRead(db, _) =>
        forall d | d in s'.pc.fetched
          ensures ReadGood(s'.pc.fetched[d], d, s', s.pc.check.memo, plan)
        {
          if d != db { assert ReadGood(s.pc.fetched[d], d, s, s.pc.check.memo, plan); }
        }
      case EndCheck =>
      case AbandonCheck =>
    }
  }

  lemma RescanCovers(x: Index, s: Stores, ids: set<Id>, db: Db)
    ensures Covers(Rescan(x, s, ids, db), s, ids, db)
    ensures forall d, t :: d != db && Covers(x, t, ids, d) ==> Covers(Rescan(x, s, ids, db), t, ids, d)
  {
  }

  lemma CoversSameFile(x: Index, s: Stores, t: Stores, ids: set<Id>, db: Db)
    requires Covers(x, s, ids, db) && SameFile(s, t, db)
    ensures Covers(x, t, ids, db)
  {
  }

  lemma ReloadKeepsInv(s: State, s': State, db: Db, content: Stores, plan: Plan)
    requires Inv(s, plan) && Next(s, s', Reload(db, content), plan)
    ensures Inv(s', plan)
  {
    hide MemoTrue, FileShrinks, Tests, Deletes;
    RescanCovers(s.index, content, plan.Ids(), db);
    forall d | IndexMatters(s', d)
      ensures Covers(s'.index, s'.stores, plan.Ids(), d)
    {
      if d != db { assert IndexMatters(s, d); } else { CoversSameFile(s'.index, content, s.stores, plan.Ids(), db); }
    }
  }

  lemma HandlingStepsKeepInv(s: State, s': State, step: Step, plan: Plan)
    requires Inv(s, plan) && Next(s, s', step, plan)
    requires step.StartHandling? || step.ReadVersion? || step.Forget? || step.ReadAgain? || step.Adopt?
    ensures Inv(s', plan)
  {
    hide MemoTrue, FileShrinks, Tests, Deletes, Covers;
    match step {
      case StartHandling => assert forall db :: IndexMatters(s', db) == IndexMatters(s, db);
      case ReadVersion(_) => assert forall db :: IndexMatters(s', db) == IndexMatters(s, db);
      case Forget => assert forall db :: IndexMatters(s', db) == IndexMatters(s, db);
      case ReadAgain(_) => assert forall db :: IndexMatters(s', db) == IndexMatters(s, db);
      case Adopt =>
        AllDbs();
        assert forall db :: s'.seen.Of(db) == s.pc.before[db];
        assert forall db :: IndexMatters(s', db) == IndexMatters(s, db);
    }
  }

  lemma NextKeepsInv(s: State, s': State, step: Step, plan: Plan)
    requires CleanPlan(plan) && Inv(s, plan) && Next(s, s', step, plan)
    ensures Inv(s', plan)
  {
    match step {
      case Foreign(db, content) => ForeignKeepsInv(s, s', db, content, plan);
      case Checkpoint(db, content, complete) => CheckpointKeepsInv(s, s', db, content, complete, plan);
      case Commit(x) => CommitKeepsInv(s, s', x, plan);
      case Lock(_) => assert forall db :: IndexMatters(s', db) == IndexMatters(s, db);
      case Unlock => assert forall db :: IndexMatters(s', db) == IndexMatters(s, db);
      case StartCheck(_) => CheckStepsKeepInv(s, s', step, plan);
      case StartRead(_) => CheckStepsKeepInv(s, s', step, plan);
      case FinishRead(_, _) => CheckStepsKeepInv(s, s', step, plan);
      case PassClause(k) => PassClauseKeepsInv(s, s', k, plan);
      case EndCheck => CheckStepsKeepInv(s, s', step, plan);
      case AbandonCheck => CheckStepsKeepInv(s, s', step, plan);
      case StartHandling => HandlingStepsKeepInv(s, s', step, plan);
      case ReadVersion(_) => HandlingStepsKeepInv(s, s', step, plan);
      case Reload(db, content) => ReloadKeepsInv(s, s', db, content, plan);
      case Forget => HandlingStepsKeepInv(s, s', step, plan);
      case ReadAgain(_) => HandlingStepsKeepInv(s, s', step, plan);
      case Adopt => HandlingStepsKeepInv(s, s', step, plan);
    }
  }

  // ------------------------------------------------------------------ all runs

  ghost predicate Run(states: seq<State>, steps: seq<Step>, plan: Plan) {
    && |states| == |steps| + 1
    && Init(states[0], plan)
    && forall i :: 0 <= i < |steps| ==> Next(states[i], states[i + 1], steps[i], plan)
  }

  lemma {:induction false} RunKeepsInv(states: seq<State>, steps: seq<Step>, plan: Plan, i: nat)
    requires CleanPlan(plan) && Run(states, steps, plan) && i < |states|
    ensures Inv(states[i], plan)
  {
    if i == 0 {
      InitInv(states[0], plan);
    } else {
      RunKeepsInv(states, steps, plan, i - 1);
      NextKeepsInv(states[i - 1], states[i], steps[i - 1], plan);
    }
  }

  /** What each remembered verdict says, spelled out. */
  ghost predicate VerdictTrue(m: Memo, s: State, plan: Plan) {
    match m
    case MPreflight => Projected(s.stores, plan)
    case MProjected => Projected(s.stores, plan)
    case MRegistry => RegistryGlobal(s.stores, plan)
    case MProtection => ProtectionHolds(s.stores, plan)
    case MSnapshot =>
      && ProtectionHolds(s.stores, plan)
      && (!s.wrote ==> forall r :: r in plan.records ==> SnapshotOf(s.stores, r.id) == r.snapshot)
  }

  lemma VerdictByClauses(m: Memo, s: State, plan: Plan)
    requires MemoTrue(m, s.stores, plan, s.wrote)
    ensures VerdictTrue(m, s, plan)
  {
    match m {
      case MPreflight => assert Means(GraphRows, s.stores, plan) && Means(Sources, s.stores, plan) && Means(GraphClaims, s.stores, plan);
      case MProjected => assert Means(GraphRows, s.stores, plan) && Means(Sources, s.stores, plan) && Means(GraphClaims, s.stores, plan);
      case MRegistry => assert Means(RegistryRows, s.stores, plan) && Means(Sources, s.stores, plan) && Means(RegistryClaims, s.stores, plan);
      case MProtection => assert Means(AllSections, s.stores, plan);
      case MSnapshot =>
        assert Means(AllSections, s.stores, plan);
        assert !s.wrote ==> Means(AllSnapshots, s.stores, plan);
    }
  }

  /** What a run remembers of checks that were not misled. */
  function Firm(s: State): set<Memo> {
    s.memos - s.doubtful
  }

  /** Whenever the counters equal the baseline, every firm verdict is true now; digests and snapshots always are firm. */
  lemma RememberedVerdictsAreTrue(states: seq<State>, steps: seq<Step>, plan: Plan, i: nat)
    requires CleanPlan(plan) && Run(states, steps, plan) && i < |states|
    requires states[i].version == states[i].seen
    ensures forall m :: m in Firm(states[i]) ==> VerdictTrue(m, states[i], plan)
    ensures states[i].memos * {MProtection, MSnapshot} <= Firm(states[i])
  {
    RunKeepsInv(states, steps, plan, i);
    var s := states[i];
    forall m | m in Firm(s)
      ensures VerdictTrue(m, s, plan)
    {
      assert MemoTrue(m, s.stores, plan, s.wrote);
      VerdictByClauses(m, s, plan);
    }
  }

  /** No file is read while a foreign commit is in its log. */
  ghost predicate AllClean(s: State) {
    && s.pending == {} && s.doubtful == {}
    && (s.pc.Checking? ==>
          && !s.pc.misled
          && (forall db :: db in s.pc.open ==> s.pc.open[db].clean)
          && (forall db :: db in s.pc.fetched ==> s.pc.fetched[db].clean))
  }

  lemma AllCleanStep(s: State, s': State, step: Step, plan: Plan)
    requires Next(s, s', step, plan) && AllClean(s) && s'.pending == {}
    ensures AllClean(s')
  {
    hide Deletes, Tests, SeesBase, Sees, ValidCheck, Mixture, Rescan, FileShrinks;
  }

  /** As long as every foreign commit is checkpointed at once, every remembered verdict is firm. */
  lemma {:induction false} CleanLogsLeaveNoDoubt(states: seq<State>, steps: seq<Step>, plan: Plan, i: nat)
    requires Run(states, steps, plan) && i < |states| && forall j :: 0 <= j <= i ==> states[j].pending == {}
    ensures AllClean(states[i]) && Firm(states[i]) == states[i].memos
  {
    if i > 0 {
      CleanLogsLeaveNoDoubt(states, steps, plan, i - 1);
      hide Next, Init;
      AllCleanStep(states[i - 1], states[i], steps[i - 1], plan);
    }
  }

  /** Whenever the counters equal the baseline, reading through the index misses no candidate row. */
  lemma IndexIsExact(states: seq<State>, steps: seq<Step>, plan: Plan, i: nat, id: Id)
    requires CleanPlan(plan) && Run(states, steps, plan) && i < |states|
    requires states[i].version == states[i].seen && !states[i].pc.Handling? && id in plan.Ids()
    ensures FtsThrough(states[i].index, states[i].stores.docs, id) == FtsRowsOf(states[i].stores.docs, id)
    ensures RegNodesThrough(states[i].index, states[i].stores.registry, id) == RegNodesOf(states[i].stores.registry, id).Keys
    ensures RegEdgesThrough(states[i].index, states[i].stores.registry, id) == RegEdgesOf(states[i].stores.registry, id).Keys
  {
    RunKeepsInv(states, steps, plan, i);
    assert IndexMatters(states[i], DocDb) && IndexMatters(states[i], RegistryDb);
    assert Covers(states[i].index, states[i].stores, plan.Ids(), DocDb);
    assert Covers(states[i].index, states[i].stores, plan.Ids(), RegistryDb);
    IndexedReadIsDirect(states[i].index, states[i].stores, plan.Ids(), id);
  }

  lemma CountersGrow(s: State, s': State, step: Step, plan: Plan)
    requires Next(s, s', step, plan)
    ensures s.version.AtMost(s'.version)
  {
    hide Deletes, Tests, SeesBase, Sees, Misleads, ValidCheck, Mixture, Rescan, FileShrinks;
  }

  lemma {:induction false} CountersOnlyGrow(states: seq<State>, steps: seq<Step>, plan: Plan, i: nat, j: nat)
    requires Run(states, steps, plan) && i <= j < |states|
    ensures states[i].version.AtMost(states[j].version)
  {
    hide Next, Init;
    if i < j {
      CountersOnlyGrow(states, steps, plan, i, j - 1);
      CountersGrow(states[j - 1], states[j], steps[j - 1], plan);
    }
  }

  /**
   * The four counters are compared one after another while others keep committing. If each
   * matched when its turn came, all four matched at the first comparison, and every verdict
   * that was firm then was true at that moment.
   */
  lemma MatchingCompareHadAMoment(states: seq<State>, steps: seq<Step>, plan: Plan, first: nat, at: map<Db, nat>)
    requires CleanPlan(plan) && Run(states, steps, plan) && first < |states| && at.Keys == ALL_DBS
    requires forall db :: db in at ==> first <= at[db] < |states|
    requires forall db :: db in at ==>
      states[at[db]].seen == states[first].seen && states[at[db]].version.Of(db) == states[first].seen.Of(db)
    ensures states[first].version == states[first].seen
    ensures forall m :: m in Firm(states[first]) ==> VerdictTrue(m, states[first], plan)
  {
    RunKeepsInv(states, steps, plan, first);
    forall db: Db
      ensures states[first].version.Of(db) == states[first].seen.Of(db)
    {
      AllDbs();
      CountersOnlyGrow(states, steps, plan, first, at[db]);
    }
    SameCounters(states[first].version, states[first].seen);
    RememberedVerdictsAreTrue(states, steps, plan, first);
  }

  lemma HandlingStepBefore(s: State, s': State, step: Step, plan: Plan)
    requires Inv(s, plan) && Next(s, s', step, plan) && s'.pc.Handling? && s'.pc.again != {}
    ensures s.pc.Handling? && s.pc.before == s'.pc.before && s.pc.reloaded == ALL_DBS
    ensures forall db :: db in s'.pc.again && db !in s.pc.again ==> db in s.pc.before && s.pc.before[db] == s.version.Of(db)
  {
    hide Covers, Tests, MemoTrue, Deletes, FileShrinks, ReadGood, Sees, SeesBase, Mixture, Rescan, Misleads, IndexGood, ValidCheck;
  }

  /** The files whose counters were read again had, at one earlier moment of the same handling, the counters read first. */
  lemma {:induction false} ReadAgainHadAMoment(states: seq<State>, steps: seq<Step>, plan: Plan, i: nat) returns (j: nat)
    requires CleanPlan(plan) && Run(states, steps, plan) && i < |states| && states[i].pc.Handling? && states[i].pc.again != {}
    ensures j <= i && states[j].pc.Handling? && states[j].pc.before == states[i].pc.before && states[j].pc.reloaded == ALL_DBS
    ensures forall db :: db in states[i].pc.again ==>
      db in states[j].pc.before && states[j].version.Of(db) == states[j].pc.before[db]
  {
    RunKeepsInv(states, steps, plan, i);
    assert i > 0;
    RunKeepsInv(states, steps, plan, i - 1);
    HandlingStepBefore(states[i - 1], states[i], steps[i - 1], plan);
    j := i - 1;
    if states[i - 1].pc.again != {} {
      j := ReadAgainHadAMoment(states, steps, plan, i - 1);
      RunKeepsInv(states, steps, plan, j);
      CountersOnlyGrow(states, steps, plan, j, i - 1);
      hide Next, Init, CleanPlan, MemoTrue, IndexGood, FileShrinks;
      forall db | db in states[i].pc.again
        ensures db in states[j].pc.before && states[j].version.Of(db) == states[j].pc.before[db]
      {
        assert states[j].pc.before[db] <= states[j].version.Of(db);
      }
    }
  }

  /**
   * The counters a handling adopts were read one after another, and again one after another. Still
   * there was a moment in between at which all four had the adopted values and the index held every
   * candidate row.
   */
  lemma AdoptedHadAMoment(states: seq<State>, steps: seq<Step>, plan: Plan, i: nat) returns (j: nat)
    requires CleanPlan(plan) && Run(states, steps, plan) && i < |steps| && steps[i] == Adopt
    ensures j <= i && states[j].pc.Handling? && states[j].version == states[i + 1].seen
    ensures forall id :: id in plan.Ids() ==>
      && FtsThrough(states[j].index, states[j].stores.docs, id) == FtsRowsOf(states[j].stores.docs, id)
      && RegNodesThrough(states[j].index, states[j].stores.registry, id) == RegNodesOf(states[j].stores.registry, id).Keys
      && RegEdgesThrough(states[j].index, states[j].stores.registry, id) == RegEdgesOf(states[j].stores.registry, id).Keys
  {
    assert Next(states[i], states[i + 1], Adopt, plan);
    AllDbs();
    j := ReadAgainHadAMoment(states, steps, plan, i);
    RunKeepsInv(states, steps, plan, j);
    hide Next, Init, CleanPlan;
    forall db: Db
      ensures states[j].version.Of(db) == states[i + 1].seen.Of(db)
    {
      assert db in states[i].pc.again;
    }
    SameCounters(states[j].version, states[i + 1].seen);
    assert IndexMatters(states[j], DocDb) && IndexMatters(states[j], RegistryDb);
    assert Covers(states[j].index, states[j].stores, plan.Ids(), DocDb);
    assert Covers(states[j].index, states[j].stores, plan.Ids(), RegistryDb);
    forall id | id in plan.Ids()
      ensures FtsThrough(states[j].index, states[j].stores.docs, id) == FtsRowsOf(states[j].stores.docs, id)
      ensures RegNodesThrough(states[j].index, states[j].stores.registry, id) == RegNodesOf(states[j].stores.registry, id).Keys
      ensures RegEdgesThrough(states[j].index, states[j].stores.registry, id) == RegEdgesOf(states[j].stores.registry, id).Keys
    {
      IndexedReadIsDirect(states[j].index, states[j].stores, plan.Ids(), id);
    }
  }

  /** While the tool holds the write lock on a file, nothing in it changes. */
  lemma {:induction false} LockFreezesTheFile(states: seq<State>, steps: seq<Step>, plan: Plan, first: nat, i: nat, db: Db)
    requires Run(states, steps, plan) && first <= i < |states|
    requires forall j :: first <= j <= i ==> states[j].locked == Some(db)
    ensures SameFile(states[first].stores, states[i].stores, db)
  {
    if first < i {
      LockFreezesTheFile(states, steps, plan, first, i - 1, db);
      assert states[i - 1].locked == Some(db) && states[i].locked == Some(db);
      assert Next(states[i - 1], states[i], steps[i - 1], plan);
    }
  }

  /**
   * What a delete may rely on when it commits: it took the lock, then compared the four counters.
   * Every firm verdict at the first comparison is still true of the locked file as it is
   * now, with the other files as they were then. What it says of the locked file alone is true now.
   */
  lemma LockedVerdictStillTrue(states: seq<State>, steps: seq<Step>, plan: Plan, first: nat, i: nat, at: map<Db, nat>, db: Db)
    requires CleanPlan(plan) && Run(states, steps, plan) && first <= i < |states| && at.Keys == ALL_DBS
    requires forall j :: first <= j <= i ==> states[j].locked == Some(db)
    requires forall d :: d in at ==> first <= at[d] <= i
    requires forall d :: d in at ==>
      states[at[d]].seen == states[first].seen && states[at[d]].version.Of(d) == states[first].seen.Of(d)
    ensures var s := states[first].(stores := Replace(states[first].stores, states[i].stores, db));
      forall m :: m in Firm(states[first]) ==> VerdictTrue(m, s, plan)
    ensures db == GraphDb && MProjected in Firm(states[first]) ==> Means(GraphRows, states[i].stores, plan)
    ensures db == RegistryDb && MRegistry in Firm(states[first]) ==> Means(RegistryRows, states[i].stores, plan)
  {
    MatchingCompareHadAMoment(states, steps, plan, first, at);
    LockFreezesTheFile(states, steps, plan, first, i, db);
    assert Replace(states[first].stores, states[i].stores, db) == states[first].stores;
    RunKeepsInv(states, steps, plan, first);
    if db == GraphDb && MProjected in Firm(states[first]) {
      assert MemoTrue(MProjected, states[first].stores, plan, states[first].wrote);
      assert Means(GraphRows, states[first].stores, plan);
    }
    if db == RegistryDb && MRegistry in Firm(states[first]) {
      assert MemoTrue(MRegistry, states[first].stores, plan, states[first].wrote);
      assert Means(RegistryRows, states[first].stores, plan);
    }
  }

  lemma SameCounters(a: Versions, b: Versions)
    requires forall db :: a.Of(db) == b.Of(db)
    ensures a == b
  {
    assert a.Of(GraphDb) == b.Of(GraphDb) && a.Of(DocDb) == b.Of(DocDb);
    assert a.Of(VectorDb) == b.Of(VectorDb) && a.Of(RegistryDb) == b.Of(RegistryDb);
  }

  /** A commit of the tool changes only the file it locked, and there only candidate rows. */
  lemma CommitIsFramed(s: State, s': State, x: Delete, plan: Plan)
    requires CleanPlan(plan) && Next(s, s', Commit(x), plan)
    ensures Shrinks(s.stores, s'.stores, plan.sel, plan.Ids())
    ensures s'.version == s.version && s'.base == s.base && s'.pending == s.pending
    ensures forall db :: db != FileOf(x) ==> SameFile(s.stores, s'.stores, db)
  {
    DeletesShrink(x, s.stores, s'.stores, plan);
  }
}
