/**
 * Checks that read a file without its log. When a pass of such a check is sure to be true of
 * the stores, exactly; and a run of the tool that remembers a false verdict and deletes on it.
 */
module StaleReads {
  import opened Basics
  import opened CleanupModel
  import opened EdgeIntent
  import opened Protection
  import opened Transactions
  import opened Progress
  import opened Witness

  // ------------------------------------------------------- when a pass is sure

  /** Files without a foreign commit in the log are the stores but for rows the tool deleted. */
  ghost predicate Lags(base: Stores, live: Stores, pending: set<Db>, plan: Plan) {
    forall db :: db !in pending ==> FileShrinks(base, live, db, plan)
  }

  /** What a check sees. */
  function View(base: Stores, live: Stores, m: Memo): Stores {
    Stores(
      if GraphDb in BaseReads(m) then base.graph else live.graph,
      if DocDb in BaseReads(m) then base.docs else live.docs,
      if VectorDb in BaseReads(m) then base.vectors else live.vectors,
      if RegistryDb in BaseReads(m) then base.registry else live.registry)
  }

  ghost predicate Passes(m: Memo, base: Stores, live: Stores, plan: Plan, c: Check) {
    && c.memo == m && ValidCheck(c, plan)
    && forall k :: k in ClausesOf(m) ==> Tests(k, View(base, live, m), plan, c)
  }

  ghost predicate Meant(m: Memo, live: Stores, plan: Plan) {
    forall k :: k in ClausesOf(m) ==> Means(k, live, plan)
  }

  /** Whatever the files and the foreign commits in the pending logs are, a pass is true of the stores. */
  ghost predicate Sure(m: Memo, pending: set<Db>, plan: Plan) {
    forall base, live, c :: Lags(base, live, pending, plan) && Passes(m, base, live, plan, c) ==> Meant(m, live, plan)
  }

  /** The Claims a check looks for. */
  function AffectedBy(m: Memo, plan: Plan): set<Id> {
    if m == MRegistry then AffectedRegistry(plan) else AffectedGraph(plan)
  }

  /** The check reads the file without its log, and for this plan there is something in it to look for. */
  predicate Matters(m: Memo, db: Db, plan: Plan) {
    && db in BaseReads(m)
    && match db
       case GraphDb => m == MPreflight || AffectedRegistry(plan) != {}
       case DocDb => plan.evidenceIds != {} || AffectedBy(m, plan) != {}
       case VectorDb => false
       case RegistryDb => AffectedGraph(plan) != {}
  }

  lemma ViewFile(base: Stores, live: Stores, m: Memo, db: Db)
    ensures SameFile(if db in BaseReads(m) then base else live, View(base, live, m), db)
  {
  }

  lemma ClauseIsSure(m: Memo, k: Clause, base: Stores, live: Stores, pending: set<Db>, plan: Plan, c: Check)
    requires CleanPlan(plan) && Lags(base, live, pending, plan) && Passes(m, base, live, plan, c) && k in ClausesOf(m)
    requires forall db :: db in pending ==> !Matters(m, db, plan)
    ensures Means(k, live, plan)
  {
    if (k == GraphClaims && AffectedGraph(plan) == {}) || (k == RegistryClaims && AffectedRegistry(plan) == {})
      || (k == Sources && plan.evidenceIds == {}) {
      assert Tests(k, View(base, live, m), plan, c);
    } else {
      FilesMatter(m, k, plan);
      hide CleanPlan, Tests, FileShrinks, View, AffectedGraph, AffectedRegistry, Matters;
      forall db | db in FilesRead(k)
        ensures FileShrinks(View(base, live, m), live, db, plan)
      {
        ViewFile(base, live, m, db);
        if db in BaseReads(m) {
          SameBase(base, View(base, live, m), live, db, plan);
        } else {
          SameFileShrinks(View(base, live, m), live, db, plan);
        }
      }
      if k == AllSnapshots { NothingBase(base, live, m); }
      PassedIsTrue(k, View(base, live, m), live, plan, c);
    }
  }

  lemma NothingBase(base: Stores, live: Stores, m: Memo)
    ensures BaseReads(m) == {} ==> View(base, live, m) == live
    ensures AllSnapshots in ClausesOf(m) ==> BaseReads(m) == {}
  {
  }

  lemma FilesMatter(m: Memo, k: Clause, plan: Plan)
    requires k in ClausesOf(m)
    requires !((k == GraphClaims && AffectedGraph(plan) == {}) || (k == RegistryClaims && AffectedRegistry(plan) == {})
               || (k == Sources && plan.evidenceIds == {}))
    ensures forall db :: db in FilesRead(k) * BaseReads(m) ==> Matters(m, db, plan)
  {
    forall db | db in FilesRead(k) * BaseReads(m)
      ensures Matters(m, db, plan)
    {
      match db {
        case GraphDb =>
        case DocDb =>
        case VectorDb =>
        case RegistryDb =>
      }
    }
  }

  const NO_JSON: Json := Json(JsonValue(None, None, ""), "")
  const NO_GRAPH: Graph := Graph(map[], map[])
  const NO_DOCS: Docs := Docs(map[], map[], map[], None)
  const NO_REGISTRY: Registry := Registry(map[], map[])

  lemma PassesMeans(m: Memo, s: Stores, plan: Plan, c: Check)
    requires CleanPlan(plan) && Passes(m, s, s, plan, c)
    ensures Meant(m, s, plan)
  {
    assert View(s, s, m) == s;
    forall k | k in ClausesOf(m)
      ensures Means(k, s, plan)
    {
      TestsMean(k, s, plan, c);
    }
  }

  /** A foreign commit to a file that matters and makes the check false. */
  lemma ForeignCommitBreaks(m: Memo, db: Db, s: Stores, plan: Plan, c: Check) returns (t: Stores)
    requires CleanPlan(plan) && Passes(m, s, s, plan, c) && Matters(m, db, plan)
    ensures !Meant(m, Replace(s, t, db), plan)
    ensures db == DocDb && plan.evidenceIds != {} ==>
      SourceSection(t.docs, plan.evidenceIds) != plan.sections.evidenceSource
  {
    PassesMeans(m, s, plan, c);
    match db {
      case GraphDb =>
        if m == MPreflight {
          t := OtherReserved(s, plan);
          assert !Means(GraphRows, Replace(s, t, db), plan);
        } else {
          t := s.(graph := NO_GRAPH);
          NoGraphNoSupport(t, plan);
          assert !Means(RegistryClaims, Replace(s, t, db), plan);
        }
      case DocDb =>
        if plan.evidenceIds != {} {
          t := OtherSources(s, plan);
          assert Means(Sources, s, plan) && !Means(Sources, Replace(s, t, db), plan);
        } else {
          t := s.(docs := NO_DOCS);
          NoDocsNoSupport(t, plan);
          assert !Means(if m == MRegistry then RegistryClaims else GraphClaims, Replace(s, t, db), plan);
        }
      case VectorDb =>
      case RegistryDb =>
        t := s.(registry := NO_REGISTRY);
        NoRegistryNoSupport(t, plan);
        assert !Means(GraphClaims, Replace(s, t, db), plan);
    }
  }

  lemma OtherReserved(s: Stores, plan: Plan) returns (t: Stores)
    requires Means(GraphRows, s, plan)
    ensures ReservedNodes(t.graph, {}) != plan.sections.nodes
  {
    if plan.sections.nodes == {} {
      var id: Id, row := "x", NodeRow("Document", "", NO_JSON);
      t := s.(graph := Graph(map[id := row], map[]));
      assert id in t.graph.nodes && t.graph.nodes[id] == row && row.nodeType in RESERVED_TYPES;
      assert ItemOf(id, row) in ReservedNodes(t.graph, {});
    } else {
      t := s.(graph := NO_GRAPH);
      assert ReservedNodes(t.graph, {}) == {};
    }
  }

  lemma OtherSources(s: Stores, plan: Plan) returns (t: Stores)
    requires plan.evidenceIds != {}
    ensures SourceSection(t.docs, plan.evidenceIds) != plan.sections.evidenceSource
  {
    if plan.sections.evidenceSource == {} {
      var id :| id in plan.evidenceIds;
      var source := Source("", NO_JSON);
      t := s.(docs := NO_DOCS.(sources := map[id := source]));
      assert (id, source) in SourceSection(t.docs, plan.evidenceIds);
    } else {
      t := s.(docs := NO_DOCS);
      assert SourceSection(t.docs, plan.evidenceIds) == {};
    }
  }

  lemma NoGraphNoSupport(t: Stores, plan: Plan)
    requires t.graph == NO_GRAPH
    ensures AffectedRegistry(plan) != {} ==> !RegistryClaimsHeld(t, plan)
  {
    if claim :| claim in AffectedRegistry(plan) { assert !RegistryClaimHeld(t, plan, claim); }
  }

  lemma NoDocsNoSupport(t: Stores, plan: Plan)
    requires t.docs == NO_DOCS
    ensures AffectedRegistry(plan) != {} ==> !RegistryClaimsHeld(t, plan)
    ensures AffectedGraph(plan) != {} ==> !GraphClaimsHeld(t, plan, {}, {})
  {
    if claim :| claim in AffectedRegistry(plan) { assert !RegistryClaimHeld(t, plan, claim); }
    if claim :| claim in AffectedGraph(plan) { assert !GraphClaimHeld(t, plan, claim, {}, {}); }
  }

  lemma NoRegistryNoSupport(t: Stores, plan: Plan)
    requires t.registry == NO_REGISTRY
    ensures AffectedGraph(plan) != {} ==> !GraphClaimsHeld(t, plan, {}, {})
  {
    forall id
      ensures RegNodesAt(t.registry, id) == map[]
    {
    }
    if claim :| claim in AffectedGraph(plan) { assert !GraphClaimHeld(t, plan, claim, {}, {}); }
  }

  /** None of the logs that a check does not read hides a row it looks for, check by check. */
  predicate NothingHidden(m: Memo, pending: set<Db>, plan: Plan) {
    match m
    case MPreflight =>
      && GraphDb !in pending
      && (DocDb in pending ==> plan.evidenceIds == {} && AffectedGraph(plan) == {})
      && (RegistryDb in pending ==> AffectedGraph(plan) == {})
    case MProjected =>
      && (DocDb in pending ==> plan.evidenceIds == {} && AffectedGraph(plan) == {})
      && (RegistryDb in pending ==> AffectedGraph(plan) == {})
    case MRegistry =>
      && (GraphDb in pending ==> AffectedRegistry(plan) == {})
      && (DocDb in pending ==> plan.evidenceIds == {} && AffectedRegistry(plan) == {})
    case MProtection => true
    case MSnapshot => true
  }

  lemma HiddenFiles(m: Memo, pending: set<Db>, plan: Plan)
    ensures NothingHidden(m, pending, plan) <==> forall db :: db in pending ==> !Matters(m, db, plan)
  {
    hide AffectedGraph, AffectedRegistry;
    assert NothingHidden(m, pending, plan) <==>
      && (GraphDb in pending ==> !Matters(m, GraphDb, plan)) && (DocDb in pending ==> !Matters(m, DocDb, plan))
      && (VectorDb in pending ==> !Matters(m, VectorDb, plan)) && (RegistryDb in pending ==> !Matters(m, RegistryDb, plan));
  }

  /**
   * For a plan whose check can pass at all: a pass is sure to be true of the stores exactly if no
   * file that matters to it, and that it reads without its log, has a foreign commit in the log.
   */
  lemma PassIsSureExactly(m: Memo, pending: set<Db>, plan: Plan, s: Stores, c: Check)
    requires CleanPlan(plan) && Passes(m, s, s, plan, c)
    ensures Sure(m, pending, plan) <==> NothingHidden(m, pending, plan)
  {
    HiddenFiles(m, pending, plan);
    hide NothingHidden;
    if forall db :: db in pending ==> !Matters(m, db, plan) {
      forall base, live, d | Lags(base, live, pending, plan) && Passes(m, base, live, plan, d)
        ensures Meant(m, live, plan)
      {
        forall k | k in ClausesOf(m)
          ensures Means(k, live, plan)
        {
          ClauseIsSure(m, k, base, live, pending, plan, d);
        }
      }
    } else {
      var db :| db in pending && Matters(m, db, plan);
      NotSure(m, pending, plan, s, c, db);
    }
  }

  lemma NotSure(m: Memo, pending: set<Db>, plan: Plan, s: Stores, c: Check, db: Db)
    requires CleanPlan(plan) && Passes(m, s, s, plan, c) && db in pending && Matters(m, db, plan)
    ensures !Sure(m, pending, plan)
  {
    var t := ForeignCommitBreaks(m, db, s, plan, c);
    var live := Replace(s, t, db);
    assert View(s, live, m) == s == View(s, s, m);
    hide Tests, FileShrinks, Meant, CleanPlan;
    assert Passes(m, s, live, plan, c);
    forall d | d !in pending
      ensures FileShrinks(s, live, d, plan)
    {
      SameFileShrinks(s, live, d, plan);
    }
    assert Lags(s, live, pending, plan);
  }

  // ------------------------------------------------- a run on a false verdict

  ghost predicate Reached(s: State, plan: Plan) {
    exists states, steps :: Run(states, steps, plan) && states[|steps|] == s
  }

  lemma Begun(s: State, plan: Plan)
    requires Init(s, plan)
    ensures Reached(s, plan)
  {
    assert Run([s], [], plan);
  }

  lemma Goes(s: State, s': State, step: Step, plan: Plan)
    requires Reached(s, plan) && Next(s, s', step, plan)
    ensures Reached(s', plan)
  {
    hide Next, Init;
    var states, steps :| Run(states, steps, plan) && states[|steps|] == s;
    var states', steps' := states + [s'], steps + [step];
    forall i | 0 <= i < |steps'|
      ensures Next(states'[i], states'[i + 1], steps'[i], plan)
    {
    }
    assert Run(states', steps', plan);
  }

  /** _handle_change, when nobody commits meanwhile. */
  lemma ChangeIsHandled(s: State, plan: Plan) returns (t: State)
    requires Reached(s, plan) && s.pc.Idle? && s.locked.None?
    ensures Reached(t, plan) && t == s.(seen := s.version, memos := {}, doubtful := {}, index := t.index)
  {
    hide Reached;
    var a := s.(pc := Handling(map[], {}, {}));
    Goes(s, a, StartHandling, plan);
    a := VersionsAreRead(a, plan);
    a := FilesAreReloaded(a, plan);
    var b := a.(memos := {}, doubtful := {});
    Goes(a, b, Forget, plan);
    a := VersionsAreReadAgain(b, plan);
    t := a.(seen := s.version, pc := Idle);
    Goes(a, t, Adopt, plan);
  }

  function VersionMap(v: Versions): map<Db, nat> {
    map[GraphDb := v.graph, DocDb := v.docs, VectorDb := v.vectors, RegistryDb := v.registry]
  }

  lemma VersionsAreRead(s: State, plan: Plan) returns (t: State)
    requires Reached(s, plan) && s.pc == Handling(map[], {}, {})
    ensures Reached(t, plan) && t == s.(pc := Handling(VersionMap(s.version), {}, {}))
  {
    hide Reached;
    var v := s.version;
    var a := s.(pc := Handling(map[GraphDb := v.graph], {}, {}));
    Goes(s, a, ReadVersion(GraphDb), plan);
    var b := s.(pc := Handling(map[GraphDb := v.graph, DocDb := v.docs], {}, {}));
    Goes(a, b, ReadVersion(DocDb), plan);
    var c := s.(pc := Handling(map[GraphDb := v.graph, DocDb := v.docs, VectorDb := v.vectors], {}, {}));
    Goes(b, c, ReadVersion(VectorDb), plan);
    t := s.(pc := Handling(VersionMap(v), {}, {}));
    Goes(c, t, ReadVersion(RegistryDb), plan);
  }

  lemma FileIsReloaded(s: State, plan: Plan, db: Db) returns (t: State)
    requires Reached(s, plan) && s.pc.Handling? && s.pc.before == VersionMap(s.version)
    ensures Reached(t, plan) && t == s.(index := t.index, pc := s.pc.(reloaded := s.pc.reloaded + {db}))
  {
    hide Reached, Rescan;
    t := s.(index := Rescan(s.index, s.stores, plan.Ids(), db), pc := s.pc.(reloaded := s.pc.reloaded + {db}));
    AllDbs();
    assert s.pc.before.Keys == ALL_DBS;
    Goes(s, t, Reload(db, s.stores), plan);
  }

  lemma FilesAreReloaded(s: State, plan: Plan) returns (t: State)
    requires Reached(s, plan) && s.pc == Handling(VersionMap(s.version), {}, {})
    ensures Reached(t, plan) && t == s.(index := t.index, pc := Handling(VersionMap(s.version), ALL_DBS, {}))
  {
    hide Reached;
    t := FileIsReloaded(s, plan, GraphDb);
    t := FileIsReloaded(t, plan, DocDb);
    t := FileIsReloaded(t, plan, VectorDb);
    t := FileIsReloaded(t, plan, RegistryDb);
    assert {} + {GraphDb} + {DocDb} + {VectorDb} + {RegistryDb} == ALL_DBS;
  }

  lemma VersionIsReadAgain(s: State, plan: Plan, db: Db) returns (t: State)
    requires Reached(s, plan) && s.pc.Handling? && s.pc.before == VersionMap(s.version) && s.pc.reloaded == ALL_DBS && s.memos == {}
    ensures Reached(t, plan) && t == s.(pc := s.pc.(again := s.pc.again + {db}))
  {
    hide Reached;
    t := s.(pc := s.pc.(again := s.pc.again + {db}));
    Goes(s, t, ReadAgain(db), plan);
  }

  lemma VersionsAreReadAgain(s: State, plan: Plan) returns (t: State)
    requires Reached(s, plan) && s.pc == Handling(VersionMap(s.version), ALL_DBS, {}) && s.memos == {}
    ensures Reached(t, plan) && t == s.(pc := Handling(VersionMap(s.version), ALL_DBS, ALL_DBS))
  {
    hide Reached;
    t := VersionIsReadAgain(s, plan, GraphDb);
    t := VersionIsReadAgain(t, plan, DocDb);
    t := VersionIsReadAgain(t, plan, VectorDb);
    t := VersionIsReadAgain(t, plan, RegistryDb);
    assert {} + {GraphDb} + {DocDb} + {VectorDb} + {RegistryDb} == ALL_DBS;
  }

  /** The projected check of a graph delete, all four clauses one after another, remembered as passed. */
  lemma CheckIsPassed(s: State, plan: Plan, c: Check, files: Stores) returns (t: State)
    requires Reached(s, plan) && s.pc.Idle? && c.memo == MProjected && ValidCheck(c, plan)
    requires files == Stores(s.stores.graph, s.base.docs, s.stores.vectors, s.base.registry)
    requires forall k :: k in ClausesOf(MProjected) ==> Tests(k, files, plan, c)
    ensures Reached(t, plan) && t == s.(memos := s.memos + {MProjected}, doubtful := t.doubtful)
  {
    hide Reached, Tests;
    var a := s.(pc := Checking(c, map[], map[], {}, false));
    Goes(s, a, StartCheck(c), plan);
    a := ClauseIsPassed(a, plan, GraphRows, files);
    a := ClauseIsPassed(a, plan, Sources, files);
    a := ClauseIsPassed(a, plan, GraphClaims, files);
    t := s.(memos := s.memos + {MProjected}, doubtful := if a.pc.misled then s.doubtful + {MProjected} else s.doubtful - {MProjected});
    Goes(a, t, EndCheck, plan);
  }

  lemma ClauseIsPassed(s: State, plan: Plan, k: Clause, files: Stores) returns (t: State)
    requires Reached(s, plan) && s.pc.Checking? && s.pc.fetched == map[] && s.pc.check.memo == MProjected && k in ClausesOf(MProjected)
    requires files == Stores(s.stores.graph, s.base.docs, s.stores.vectors, s.base.registry) && Tests(k, files, plan, s.pc.check)
    ensures Reached(t, plan) && t.pc.Checking? && t == s.(pc := s.pc.(passed := s.pc.passed + {k}, misled := t.pc.misled))
  {
    hide Reached, Tests;
    assert Mixture(s, MProjected, map[]) == files;
    t := s.(pc := s.pc.(passed := s.pc.passed + {k}, misled := s.pc.misled || Misleads(s, MProjected, map[], k)));
    Goes(s, t, PassClause(k), plan);
  }

  /** A run that has just started on the frozen stores, with empty logs. */
  lemma FrozenStart(f: Stores, plan: Plan) returns (s: State)
    ensures Reached(s, plan) && s.stores == s.base == f && s.pc.Idle? && s.locked.None? && s.pending == {}
  {
    var none := Versions(0, 0, 0, 0);
    var x := Rescan(Index({}, {}, {}), f, plan.Ids(), DocDb);
    RescanCovers(Index({}, {}, {}), f, plan.Ids(), DocDb);
    RescanCovers(x, f, plan.Ids(), RegistryDb);
    s := State(f, f, {}, none, none, none, {}, {}, Rescan(x, f, plan.Ids(), RegistryDb), false, None, Idle);
    Begun(s, plan);
  }

  /** What the deletes of a frozen candidate test holds of the frozen stores. */
  lemma FrozenCheckPasses(f: Stores, plan: Plan, rec: Record) returns (c: Check)
    requires FrozenPlan(f, plan) && rec in plan.records
    ensures CleanPlan(plan) && Passes(MProjected, f, f, plan, c)
  {
    FrozenPlanIsClean(f, plan);
    NothingErased(f);
    ErasedProjectedFor(f, plan, NOTHING_DONE, rec);
    CandidateFacts(f, plan, rec.id);
    c := Check(MProjected, Elements(rec.edges), {rec.id});
    assert rec.id in plan.Ids();
    forall e | e in c.plannedEdges
      ensures TouchesAny(e, plan.Ids())
    {
      assert Touches(e, rec.id);
    }
    assert View(f, f, MProjected) == f;
  }

  /** Up to the false verdict: the tool holds the write lock, and no file but the documents has changed. */
  lemma FalseVerdict(f: Stores, plan: Plan, c: Check) returns (s: State)
    requires CleanPlan(plan) && Passes(MProjected, f, f, plan, c) && plan.evidenceIds != {}
    ensures Reached(s, plan) && s.version == s.seen && s.locked == Some(GraphDb) && s.pc.Idle?
    ensures s.stores == f.(docs := s.stores.docs) && MProjected in s.memos && !VerdictTrue(MProjected, s, plan)
  {
    var other := ForeignCommitBreaks(MProjected, DocDb, f, plan, c);
    var a := FrozenStart(f, plan);
    assert View(f, f, MProjected) == f;
    hide Reached, CleanPlan, Tests, Deletes, SeesBase, Sees, Misleads, FileShrinks, Rescan;
    var b := a.(stores := Replace(f, other, DocDb), version := a.version.Bump(DocDb), pending := {DocDb});
    assert a.pending + {DocDb} == {DocDb};
    Goes(a, b, Foreign(DocDb, other), plan);
    b := ChangeIsHandled(b, plan);
    a := b.(locked := Some(GraphDb));
    Goes(b, a, Lock(GraphDb), plan);
    s := CheckIsPassed(a, plan, c, f);
  }

  /**
   * The run: another connection commits a change to a protected source. It stays in the log. The
   * tool notices the commit, forgets what it remembered and adopts the counters. The check of the
   * next graph delete reads the old file, passes and is remembered. All counters equal the baseline,
   * the verdict is false, and the delete commits.
   */
  lemma DeletesOnAFalseVerdict(f: Stores, plan: Plan, intent: Intent, rec: Record) returns (s: State, s': State)
    requires FrozenPlan(f, plan) && ValidIntent(intent, plan.records) && rec in plan.records && plan.evidenceIds != {}
    ensures Reached(s, plan) && s.version == s.seen && s.locked == Some(GraphDb)
    ensures MProjected in s.memos && !VerdictTrue(MProjected, s, plan)
    ensures Next(s, s', Commit(DeleteGraph(rec, intent, true)), plan) && Reached(s', plan)
    ensures rec.id in s.stores.graph.nodes && rec.id !in s'.stores.graph.nodes
  {
    var c := FrozenCheckPasses(f, plan, rec);
    s := FalseVerdict(f, plan, c);
    GraphDeleteAdvances(f, plan, intent, NOTHING_DONE, rec, true);
    NothingErased(f);
    hide Reached, FrozenPlan, ValidIntent, CleanPlan, TxGraph, VerdictTrue, Passes;
    SameGraphSameDelete(f, s.stores, rec, plan, intent);
    s' := s.(stores := s.stores.(graph := EraseGraph(f.graph, {} + {rec.id})), locked := None, wrote := true);
    assert Deletes(DeleteGraph(rec, intent, true), s.stores, s'.stores, plan);
    Goes(s, s', Commit(DeleteGraph(rec, intent, true)), plan);
  }

  /** A delete with a remembered check looks at the graph alone. */
  lemma SameGraphSameDelete(s: Stores, t: Stores, rec: Record, plan: Plan, intent: Intent)
    requires t.graph == s.graph
    ensures TxGraph(t, rec, plan, intent, true) == TxGraph(s, rec, plan, intent, true)
    ensures TxGraph(s, rec, plan, intent, true).Some? ==> rec.id in s.graph.nodes
  {
  }
}
