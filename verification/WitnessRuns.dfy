/**
 * What the checks of a run can come to when nobody interferes: on files whose logs are empty a
 * check is remembered exactly if what it says is true, and handling a change always ends with the
 * current counters adopted, a complete index and nothing remembered.
 */
module WitnessRuns {
  import opened Basics
  import opened CleanupModel
  import opened EdgeIntent
  import opened Protection
  import opened Transactions
  import opened Progress
  import opened Witness

  ghost predicate Leads(s: State, steps: seq<Step>, t: State, plan: Plan)
    decreases |steps|
  {
    if steps == [] then s == t
    else
      var n := |steps| - 1;
      exists m :: Leads(s, steps[..n], m, plan) && Next(m, t, steps[n], plan)
  }

  /** A step of a check of the tool. */
  predicate OfACheck(step: Step) {
    step.StartCheck? || step.StartRead? || step.FinishRead? || step.PassClause? || step.EndCheck? || step.AbandonCheck?
  }

  /** A step of _handle_change. */
  predicate OfHandling(step: Step) {
    step.StartHandling? || step.ReadVersion? || step.Reload? || step.Forget? || step.ReadAgain? || step.Adopt?
  }

  lemma OneMore(s: State, steps: seq<Step>, m: State, step: Step, t: State, plan: Plan)
    requires Leads(s, steps, m, plan) && Next(m, t, step, plan)
    ensures Leads(s, steps + [step], t, plan)
  {
    hide Next;
    assert (steps + [step])[..|steps|] == steps;
  }

  // ------------------------------------------------------------------- checking

  /** Checks have changed nothing but what is remembered, and met no foreign commit in a log. */
  ghost predicate Undisturbed(s: State, t: State, m: Memo) {
    && t.stores == s.stores && t.version == s.version && t.seen == s.seen && t.wrote == s.wrote
    && t.pending == {} && (m in t.memos ==> m !in t.doubtful)
    && (t.pc.Checking? ==>
          && !t.pc.misled && (t.pc.check.memo == MSnapshot ==> !s.wrote)
          && (forall db :: db in t.pc.open ==> t.pc.open[db].clean) && (forall db :: db in t.pc.fetched ==> t.pc.fetched[db].clean))
    && (MSnapshot in t.memos && MSnapshot !in s.memos ==> !s.wrote)
  }

  lemma CheckStepIsQuiet(s: State, t: State, u: State, step: Step, m: Memo, plan: Plan)
    requires Undisturbed(s, t, m) && Next(t, u, step, plan) && OfACheck(step)
    ensures Undisturbed(s, u, m)
  {
    hide Tests, SeesBase, Sees, ValidCheck, Mixture;
  }

  lemma {:induction false} ChecksAreQuiet(s: State, steps: seq<Step>, t: State, m: Memo, plan: Plan)
    requires CleanPlan(plan) && Inv(s, plan) && Undisturbed(s, s, m) && Leads(s, steps, t, plan)
    requires forall step :: step in steps ==> OfACheck(step)
    ensures Undisturbed(s, t, m) && Inv(t, plan)
    decreases |steps|
  {
    if steps != [] {
      var n := |steps| - 1;
      var u :| Leads(s, steps[..n], u, plan) && Next(u, t, steps[n], plan);
      hide Next, Inv, Undisturbed, CleanPlan;
      assert forall step :: step in steps[..n] ==> step in steps;
      ChecksAreQuiet(s, steps[..n], u, m, plan);
      NextKeepsInv(u, t, steps[n], plan);
      CheckStepIsQuiet(s, u, t, steps[n], m, plan);
    }
  }

  function Order(m: Memo): seq<Clause> {
    match m
    case MPreflight => [GraphRows, Sources, GraphClaims]
    case MProjected => [GraphRows, Sources, GraphClaims]
    case MRegistry => [RegistryRows, RegistryClaims, Sources]
    case MProtection => [AllSections]
    case MSnapshot => [AllSections, AllSnapshots]
  }

  /** A check for which nothing has been read apart from the clauses that passed. */
  function Passed(s: State, m: Memo, n: nat): State
    requires n <= |Order(m)|
  {
    s.(pc := Checking(Check(m, {}, {}), map[], map[], Elements(Order(m)[..n]), false))
  }

  lemma ClauseHolds(s: State, m: Memo, n: nat, plan: Plan)
    requires VerdictTrue(m, s, plan) && (m == MSnapshot ==> !s.wrote) && s.base == s.stores && n < |Order(m)|
    ensures Order(m)[n] in ClausesOf(m) && Tests(Order(m)[n], s.stores, plan, Check(m, {}, {}))
    ensures Mixture(s, m, map[]) == s.stores
  {
  }

  lemma ClausePasses(s: State, m: Memo, n: nat, plan: Plan)
    requires VerdictTrue(m, s, plan) && (m == MSnapshot ==> !s.wrote) && s.base == s.stores && s.pending == {} && n < |Order(m)|
    ensures Next(Passed(s, m, n), Passed(s, m, n + 1), PassClause(Order(m)[n]), plan)
  {
    ClauseHolds(s, m, n, plan);
    hide Next, Tests, VerdictTrue, ClausesOf;
    assert Order(m)[..n + 1] == Order(m)[..n] + [Order(m)[n]];
    assert Elements(Order(m)[..n + 1]) == Elements(Order(m)[..n]) + {Order(m)[n]};
    assert Mixture(Passed(s, m, n), m, map[]) == Mixture(s, m, map[]);
    CanPass(Passed(s, m, n), Order(m)[n], plan);
  }

  lemma CheckStarts(s: State, m: Memo, plan: Plan)
    requires s.pc.Idle? && (m == MSnapshot ==> !s.wrote)
    ensures Next(s, Passed(s, m, 0), StartCheck(Check(m, {}, {})), plan)
  {
    assert Order(m)[..0] == [] && Elements<Clause>([]) == {};
  }

  lemma {:induction false} ClausesPass(s: State, m: Memo, n: nat, plan: Plan) returns (steps: seq<Step>)
    requires s.pc.Idle? && VerdictTrue(m, s, plan) && (m == MSnapshot ==> !s.wrote) && s.base == s.stores && s.pending == {}
    requires n <= |Order(m)|
    ensures Leads(s, steps, Passed(s, m, n), plan) && forall step :: step in steps ==> OfACheck(step)
  {
    if n == 0 {
      CheckStarts(s, m, plan);
      hide Next, VerdictTrue;
      assert Leads(s, [], s, plan);
      OneMore(s, [], s, StartCheck(Check(m, {}, {})), Passed(s, m, 0), plan);
      steps := [] + [StartCheck(Check(m, {}, {}))];
    } else {
      steps := ClausesPass(s, m, n - 1, plan);
      ClausePasses(s, m, n - 1, plan);
      hide Next, VerdictTrue;
      OneMore(s, steps, Passed(s, m, n - 1), PassClause(Order(m)[n - 1]), Passed(s, m, n), plan);
      steps := steps + [PassClause(Order(m)[n - 1])];
    }
  }

  lemma AllClauses(s: State, m: Memo, plan: Plan) returns (t: State)
    ensures Next(Passed(s, m, |Order(m)|), t, EndCheck, plan) && m in t.memos && m !in t.doubtful
  {
    assert Elements(Order(m)) == ClausesOf(m);
    assert Order(m)[..|Order(m)|] == Order(m);
    t := s.(memos := s.memos + {m}, doubtful := s.doubtful - {m}, pc := Idle);
  }

  /**
   * With empty logs and the counters at their baseline, a check that has not been made yet can be made
   * and remembered exactly if it is true of the stores; the frozen snapshots only before the first delete.
   */
  lemma CheckIsRemembered(s: State, m: Memo, plan: Plan)
    requires CleanPlan(plan) && Inv(s, plan) && s.pc.Idle? && s.version == s.seen && m !in s.memos
    requires s.base == s.stores && s.pending == {}
    ensures (exists steps, t :: Leads(s, steps, t, plan) && (forall step :: step in steps ==> OfACheck(step)) && m in Firm(t))
      <==> VerdictTrue(m, s, plan) && (m == MSnapshot ==> !s.wrote)
  {
    hide Next, CleanPlan, VerdictTrue;
    if VerdictTrue(m, s, plan) && (m == MSnapshot ==> !s.wrote) {
      var steps := ClausesPass(s, m, |Order(m)|, plan);
      var t := AllClauses(s, m, plan);
      OneMore(s, steps, Passed(s, m, |Order(m)|), EndCheck, t, plan);
      assert m in Firm(t);
    }
    if steps, t :| Leads(s, steps, t, plan) && (forall step :: step in steps ==> OfACheck(step)) && m in Firm(t) {
      ChecksAreQuiet(s, steps, t, m, plan);
      FirmIsTrue(t, m, plan);
      SameVerdict(s, t, m, plan);
    }
  }

  lemma FirmIsTrue(s: State, m: Memo, plan: Plan)
    requires CleanPlan(plan) && Inv(s, plan) && s.version == s.seen && m in Firm(s)
    ensures VerdictTrue(m, s, plan)
  {
    assert MemoTrue(m, s.stores, plan, s.wrote);
    VerdictByClauses(m, s, plan);
  }

  lemma SameVerdict(s: State, t: State, m: Memo, plan: Plan)
    requires t.stores == s.stores && t.wrote == s.wrote && VerdictTrue(m, t, plan)
    ensures VerdictTrue(m, s, plan)
  {
  }

  // ------------------------------------------------------------------- handling

  const FILES: seq<Db> := [GraphDb, DocDb, VectorDb, RegistryDb]

  /** The counters of the first n files. */
  function Counters(s: State, n: nat): map<Db, nat>
    requires n <= 4
  {
    map db | db in FILES[..n] :: s.version.Of(db)
  }

  /** The index once the first n files have been scanned. */
  function Scanned(s: State, ids: set<Id>, n: nat): Index
    requires n <= 4
  {
    if n == 0 then s.index else Rescan(Scanned(s, ids, n - 1), s.stores, ids, FILES[n - 1])
  }

  /** Handling after a versions read, b files scanned and c counters read again. */
  function Handled(s: State, plan: Plan, a: nat, b: nat, c: nat): State
    requires a <= 4 && b <= 4 && c <= 4
  {
    s.(memos := {}, doubtful := {}, index := Scanned(s, plan.Ids(), b),
       pc := Handling(Counters(s, a), Elements(FILES[..b]), Elements(FILES[..c])))
  }

  lemma FirstFiles(n: nat)
    requires n < 4
    ensures Elements(FILES[..n + 1]) == Elements(FILES[..n]) + {FILES[n]}
    ensures Elements(FILES[..0]) == {} && Elements(FILES[..4]) == ALL_DBS
  {
    assert FILES[..n + 1] == FILES[..n] + [FILES[n]];
    assert FILES[..4] == FILES;
    AllDbs();
    forall db: Db
      ensures db in FILES
    {
      match db {
        case GraphDb => assert FILES[0] == db;
        case DocDb => assert FILES[1] == db;
        case VectorDb => assert FILES[2] == db;
        case RegistryDb => assert FILES[3] == db;
      }
    }
  }

  lemma VersionStep(s: State, plan: Plan, n: nat)
    requires n < 4
    ensures Next(Handled(s, plan, n, 0, 0), Handled(s, plan, n + 1, 0, 0), ReadVersion(FILES[n]), plan)
  {
    FirstFiles(n);
    assert Counters(s, n + 1) == Counters(s, n)[FILES[n] := s.version.Of(FILES[n])] by {
      assert FILES[..n + 1] == FILES[..n] + [FILES[n]];
    }
  }

  lemma AllCounters(s: State)
    ensures Counters(s, 4).Keys == ALL_DBS && forall db :: db in Counters(s, 4) && Counters(s, 4)[db] == s.version.Of(db)
  {
    FirstFiles(3);
    AllDbs();
    assert forall db :: db in Elements(FILES[..4]) <==> db in FILES[..4];
  }

  lemma ReloadStep(s: State, plan: Plan, n: nat)
    requires n < 4
    ensures Next(Handled(s, plan, 4, n, 0), Handled(s, plan, 4, n + 1, 0), Reload(FILES[n], s.stores), plan)
  {
    AllCounters(s);
    FirstFiles(n);
    SameAsItself(s.stores, FILES[n]);
    hide Next, Counters, Rescan, SameFile;
    CanReload(Handled(s, plan, 4, n, 0), FILES[n], s.stores, plan);
  }

  lemma CanReadAgain(t: State, db: Db, plan: Plan)
    requires t.pc.Handling? && t.memos == {} && t.pc.reloaded == ALL_DBS && db in t.pc.before && t.pc.before[db] == t.version.Of(db)
    ensures Next(t, t.(pc := t.pc.(again := t.pc.again + {db})), ReadAgain(db), plan)
  {
  }

  lemma CanReload(t: State, db: Db, content: Stores, plan: Plan)
    requires t.pc.Handling? && t.pc.before.Keys == ALL_DBS && SameFile(content, t.stores, db)
    ensures Next(t, t.(index := Rescan(t.index, content, plan.Ids(), db), pc := t.pc.(reloaded := t.pc.reloaded + {db})), Reload(db, content), plan)
  {
    AllDbs();
  }

  lemma CanAdopt(t: State, plan: Plan)
    requires t.pc.Handling? && t.memos == {} && t.pc.reloaded == ALL_DBS && t.pc.again == ALL_DBS && t.pc.before.Keys == ALL_DBS
    ensures Next(t, t.(seen := Versions(t.pc.before[GraphDb], t.pc.before[DocDb], t.pc.before[VectorDb], t.pc.before[RegistryDb]),
                       pc := Idle), Adopt, plan)
  {
  }

  lemma CanPass(t: State, k: Clause, plan: Plan)
    requires t.pc.Checking? && k in ClausesOf(t.pc.check.memo) && t.pending == {} && t.pc.fetched == map[] && !t.pc.misled
    requires Tests(k, Mixture(t, t.pc.check.memo, map[]), plan, t.pc.check)
    ensures Next(t, t.(pc := t.pc.(passed := t.pc.passed + {k})), PassClause(k), plan)
  {
  }

  lemma SameAsItself(s: Stores, db: Db)
    ensures SameFile(s, s, db)
  {
  }

  lemma AgainStep(s: State, plan: Plan, n: nat)
    requires n < 4
    ensures Next(Handled(s, plan, 4, 4, n), Handled(s, plan, 4, 4, n + 1), ReadAgain(FILES[n]), plan)
  {
    AllCounters(s);
    FirstFiles(n);
    FirstFiles(3);
    hide Next, Counters, Rescan;
    CanReadAgain(Handled(s, plan, 4, 4, n), FILES[n], plan);
  }

  lemma {:induction false} HandlingGoesOn(s0: State, s: State, plan: Plan, steps: seq<Step>, n: nat) returns (more: seq<Step>)
    requires n <= 12 && Leads(s0, steps, Handled(s, plan, 0, 0, 0), plan) && forall step :: step in steps ==> OfHandling(step)
    ensures forall step :: step in more ==> OfHandling(step)
    ensures Leads(s0, more, Handled(s, plan, if n < 4 then n else 4, if n < 4 then 0 else if n < 8 then n - 4 else 4, if n < 8 then 0 else n - 8), plan)
  {
    if n == 0 {
      more := steps;
    } else {
      more := HandlingGoesOn(s0, s, plan, steps, n - 1);
      hide Next, Handled;
      if n <= 4 {
        VersionStep(s, plan, n - 1);
        OneMore(s0, more, Handled(s, plan, n - 1, 0, 0), ReadVersion(FILES[n - 1]), Handled(s, plan, n, 0, 0), plan);
        more := more + [ReadVersion(FILES[n - 1])];
      } else if n <= 8 {
        ReloadStep(s, plan, n - 5);
        OneMore(s0, more, Handled(s, plan, 4, n - 5, 0), Reload(FILES[n - 5], s.stores), Handled(s, plan, 4, n - 4, 0), plan);
        more := more + [Reload(FILES[n - 5], s.stores)];
      } else {
        AgainStep(s, plan, n - 9);
        OneMore(s0, more, Handled(s, plan, 4, 4, n - 9), ReadAgain(FILES[n - 9]), Handled(s, plan, 4, 4, n - 8), plan);
        more := more + [ReadAgain(FILES[n - 9])];
      }
    }
  }

  lemma AdoptStep(s: State, plan: Plan) returns (t: State)
    ensures Next(Handled(s, plan, 4, 4, 4), t, Adopt, plan)
    ensures t == s.(memos := {}, doubtful := {}, index := Scanned(s, plan.Ids(), 4), seen := s.version, pc := Idle)
  {
    AllCounters(s);
    FirstFiles(3);
    AllDbs();
    hide Next, Counters, Rescan;
    CanAdopt(Handled(s, plan, 4, 4, 4), plan);
    t := Handled(s, plan, 4, 4, 4).(seen := s.version, pc := Idle);
  }

  lemma ScannedCovers(s: State, plan: Plan)
    ensures CoversDocs(Scanned(s, plan.Ids(), 4), s.stores.docs, plan.Ids())
    ensures CoversRegistry(Scanned(s, plan.Ids(), 4), s.stores.registry, plan.Ids())
  {
    var ids := plan.Ids();
    var a := Scanned(s, ids, 1);
    var b := Scanned(s, ids, 2);
    var c := Scanned(s, ids, 3);
    assert Scanned(s, ids, 0) == s.index && FILES[0] == GraphDb && FILES[1] == DocDb && FILES[2] == VectorDb && FILES[3] == RegistryDb;
    assert a == Rescan(s.index, s.stores, ids, GraphDb) && b == Rescan(a, s.stores, ids, DocDb) && c == Rescan(b, s.stores, ids, VectorDb);
    assert Scanned(s, ids, 4) == Rescan(b, s.stores, ids, RegistryDb);
    RescanCovers(a, s.stores, ids, DocDb);
    RescanCovers(b, s.stores, ids, RegistryDb);
  }

  lemma HandlingStarts(s: State, plan: Plan) returns (steps: seq<Step>)
    requires s.pc.Idle? && s.locked.None?
    ensures Leads(s, steps, Handled(s, plan, 0, 0, 0), plan) && forall step :: step in steps ==> OfHandling(step)
  {
    var started := s.(pc := Handling(map[], {}, {}));
    var forgot := started.(memos := {}, doubtful := {});
    assert Leads(s, [], s, plan);
    OneMore(s, [], s, StartHandling, started, plan);
    OneMore(s, [] + [StartHandling], started, Forget, forgot, plan);
    steps := [] + [StartHandling] + [Forget];
    assert FILES[..0] == [] && Counters(s, 0) == map[] && Elements<Db>([]) == {};
    assert forgot == Handled(s, plan, 0, 0, 0);
  }

  /**
   * Left alone while the tool holds no lock, handling a change ends: the counters as they are become
   * the baseline, the index covers the files as they are, and nothing is remembered any more.
   */
  lemma HandlingAdopts(s: State, plan: Plan) returns (steps: seq<Step>, t: State)
    requires s.pc.Idle? && s.locked.None?
    ensures Leads(s, steps, t, plan) && forall step :: step in steps ==> OfHandling(step)
    ensures t.stores == s.stores && t.seen == t.version == s.version && t.memos == {} && t.pc.Idle?
    ensures forall id :: id in plan.Ids() ==>
      && FtsThrough(t.index, t.stores.docs, id) == FtsRowsOf(t.stores.docs, id)
      && RegNodesThrough(t.index, t.stores.registry, id) == RegNodesOf(t.stores.registry, id).Keys
      && RegEdgesThrough(t.index, t.stores.registry, id) == RegEdgesOf(t.stores.registry, id).Keys
  {
    steps := HandlingStarts(s, plan);
    hide Next;
    steps := HandlingGoesOn(s, s, plan, steps, 12);
    t := AdoptStep(s, plan);
    OneMore(s, steps, Handled(s, plan, 4, 4, 4), Adopt, t, plan);
    steps := steps + [Adopt];
    ScannedCovers(s, plan);
    forall id | id in plan.Ids()
      ensures FtsThrough(t.index, t.stores.docs, id) == FtsRowsOf(t.stores.docs, id)
      ensures RegNodesThrough(t.index, t.stores.registry, id) == RegNodesOf(t.stores.registry, id).Keys
      ensures RegEdgesThrough(t.index, t.stores.registry, id) == RegEdgesOf(t.stores.registry, id).Keys
    {
      IndexedReadIsDirect(t.index, t.stores, plan.Ids(), id);
    }
  }

  // -------------------------------------------------------------------- the lock

  /** An idle tool without a lock can take one, and from then on nobody else commits to that file, and to every other one. */
  lemma TheLockKeepsOthersOut(s: State, db: Db, content: Stores, plan: Plan)
    ensures (exists t :: Next(s, t, Lock(db), plan)) <==> s.pc.Idle? && s.locked == None
    ensures forall t :: Next(s, t, Lock(db), plan) ==> t == s.(locked := Some(db))
    ensures (exists t :: Next(s, t, Foreign(db, content), plan)) <==> s.locked != Some(db)
    ensures forall t :: Next(s, t, Foreign(db, content), plan) ==>
      SameFile(t.stores, content, db) && t.version.Of(db) == s.version.Of(db) + 1 && db in t.pending
        && forall other :: other != db ==> SameFile(t.stores, s.stores, other) && t.version.Of(other) == s.version.Of(other)
  {
    hide Tests, SeesBase, Sees, Deletes, Misleads, Mixture, Rescan, FileShrinks, ValidCheck;
    assert s.pc.Idle? && s.locked == None ==> Next(s, s.(locked := Some(db)), Lock(db), plan);
    if s.locked != Some(db) {
      assert Next(s, s.(stores := Replace(s.stores, content, db), version := s.version.Bump(db), pending := s.pending + {db}),
                  Foreign(db, content), plan);
    }
  }

  // ----------------------------------------------------------- reads and commits

  /** The check opens the file read-only and without its log. */
  predicate WithoutLog(m: Memo, db: Db) {
    match m
    case MPreflight => db != VectorDb
    case MProjected => db == DocDb || db == RegistryDb
    case MRegistry => db == GraphDb || db == DocDb
    case MProtection => false
    case MSnapshot => false
  }

  /** Left alone, a check that reads a file sees it as the file or as file and log have it, and nothing else. */
  lemma ReadsWhatIsThere(s: State, db: Db, content: Stores, plan: Plan)
    requires Inv(s, plan) && s.pc.Checking?
    ensures (exists m, t :: Next(s, m, StartRead(db), plan) && Next(m, t, FinishRead(db, content), plan)) <==>
      SameFile(content, if WithoutLog(s.pc.check.memo, db) then s.base else s.stores, db)
  {
    hide Covers, Tests, MemoTrue, FileShrinks, Deletes, Mixture, Misleads, ValidCheck, IndexGood, PcGood;
    var at := Opened(s.version.Of(db), s.flushes.Of(db), db !in s.pending);
    var m := s.(pc := s.pc.(open := s.pc.open[db := at]));
    assert Next(s, m, StartRead(db), plan);
    if SameFile(content, if WithoutLog(s.pc.check.memo, db) then s.base else s.stores, db) {
      if at.clean && WithoutLog(s.pc.check.memo, db) { SameIsBase(s.base, content, s.stores, db, plan); }
      var t := m.(pc := m.pc.(fetched := m.pc.fetched[db := Read(content, at.version, at.clean)]));
      assert Next(m, t, FinishRead(db, content), plan);
    }
  }

  lemma SameIsBase(base: Stores, content: Stores, s: Stores, db: Db, plan: Plan)
    requires FileShrinks(base, s, db, plan) && SameFile(content, base, db)
    ensures FileShrinks(content, s, db, plan)
  {
    SameBase(base, content, s, db, plan);
  }

  /** A complete checkpoint brings a file up to date; one that is not leaves the foreign commits in the log. */
  lemma CheckpointCleans(s: State, db: Db, plan: Plan)
    ensures exists t :: Next(s, t, Checkpoint(db, s.stores, true), plan) && SameFile(t.base, s.stores, db) && db !in t.pending
    ensures forall content, complete, t :: Next(s, t, Checkpoint(db, content, complete), plan) ==>
      && SameFile(t.base, content, db) && (db in t.pending <==> !complete)
      && t == s.(base := t.base, pending := t.pending, flushes := t.flushes) && t.flushes.Of(db) == s.flushes.Of(db) + 1
      && forall other :: other != db ==>
           SameFile(t.base, s.base, other) && t.flushes.Of(other) == s.flushes.Of(other) && (other in t.pending <==> other in s.pending)
  {
    hide Tests, SeesBase, Sees, Deletes, Misleads, Mixture, Rescan, FileShrinks, ValidCheck;
    SameAsItself(s.stores, db);
    SameFileShrinks(s.stores, s.stores, db, plan);
    var t := s.(base := Replace(s.base, s.stores, db), flushes := s.flushes.Bump(db), pending := s.pending - {db});
    assert Next(s, t, Checkpoint(db, s.stores, true), plan);
  }

  /** A lock that is held can be given back and a check that runs can be given up, and nothing else changes. */
  lemma ToolCanStop(s: State, plan: Plan)
    ensures (exists t :: Next(s, t, Unlock, plan)) <==> s.pc.Idle? && s.locked != None
    ensures forall t :: Next(s, t, Unlock, plan) ==> t == s.(locked := None)
    ensures (exists t :: Next(s, t, AbandonCheck, plan)) <==> s.pc.Checking?
    ensures forall t :: Next(s, t, AbandonCheck, plan) ==> t == s.(pc := Idle)
  {
    hide Tests, SeesBase, Sees, Deletes, Misleads, Mixture, Rescan, FileShrinks, ValidCheck;
    if s.pc.Idle? && s.locked != None { assert Next(s, s.(locked := None), Unlock, plan); }
    if s.pc.Checking? { assert Next(s, s.(pc := Idle), AbandonCheck, plan); }
  }

  function FileHolding(a: Axis): Db {
    match a
    case VectorAxis => VectorDb
    case GraphAxis => GraphDb
    case DocumentAxis => DocDb
    case RegistryAxis => RegistryDb
  }

  /** The delete of an axis that is left, and that it can be done. */
  lemma DeleteIsDue(f: Stores, plan: Plan, intent: Intent, d: Done, rec: Record, a: Axis) returns (x: Delete)
    requires FrozenPlan(f, plan) && ValidIntent(intent, plan.records) && d.Within(plan.Ids())
    requires rec in plan.records && rec.id !in d.Of(a)
    ensures Deletes(x, Erase(f, d), Erase(f, d.Add(a, rec.id)), plan)
    ensures FileOf(x) == FileHolding(a)
  {
    hide FrozenPlan, ValidIntent, EraseGraph, EraseDocs, EraseRegistry, TxVector, TxGraph, TxDocs, TxRegistry;
    match a {
      case VectorAxis =>
        x := DeleteVector(rec);
        VectorDeleteAdvances(f, plan, d, rec);
      case GraphAxis =>
        x := DeleteGraph(rec, intent, false);
        GraphDeleteAdvances(f, plan, intent, d, rec, false);
      case DocumentAxis =>
        var keys := DocKeysOf(Erase(f, d).docs, rec.id);
        var row := None;
        if k :| k in keys { row := Some(k); }
        x := DeleteDocument(rec, row);
        DocumentDeleteAdvances(f, plan, d, rec, row);
      case RegistryAxis =>
        x := DeleteRegistry(rec, false);
        RegistryDeleteAdvances(f, plan, d, rec, false);
    }
  }

  lemma CanCommit(s: State, stores: Stores, x: Delete, plan: Plan)
    requires s.pc.Idle? && s.locked.None? && Deletes(x, s.stores, stores, plan)
    ensures Next(s, s.(locked := Some(FileOf(x))), Lock(FileOf(x)), plan)
    ensures Next(s.(locked := Some(FileOf(x))), s.(stores := stores, wrote := true), Commit(x), plan)
  {
    hide Deletes;
  }

  /** On stores that only the tool has deleted from, each delete that is left can be locked, made and committed. */
  lemma DeletesCommit(f: Stores, plan: Plan, intent: Intent, d: Done, s: State, rec: Record, a: Axis) returns (x: Delete, m: State, t: State)
    requires FrozenPlan(f, plan) && ValidIntent(intent, plan.records) && d.Within(plan.Ids())
    requires rec in plan.records && rec.id !in d.Of(a)
    requires s.stores == Erase(f, d) && s.pc.Idle? && s.locked.None?
    ensures Next(s, m, Lock(FileOf(x)), plan) && Next(m, t, Commit(x), plan)
    ensures t == s.(stores := Erase(f, d.Add(a, rec.id)), wrote := true)
  {
    x := DeleteIsDue(f, plan, intent, d, rec, a);
    hide FrozenPlan, ValidIntent, Erase, Deletes, Next;
    CanCommit(s, Erase(f, d.Add(a, rec.id)), x, plan);
    m := s.(locked := Some(FileOf(x)));
    t := s.(stores := Erase(f, d.Add(a, rec.id)), wrote := true);
  }
}
