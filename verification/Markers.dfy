/**
 * The rollback markers of one run directory and the artifacts a restore leaves beside the
 * stores, under any number of concurrent apply, prepare and rollback processes that may each
 * be killed between any two steps.
 */
module Markers {
  import opened Basics

  type Pid = nat
  type Attempt = nat
  type Content = nat

  datatype Db = GraphDb | DocDb | VectorDb | RegistryDb

  const DB_FILES: seq<Db> := [GraphDb, DocDb, VectorDb, RegistryDb]

  /** The place of a file in DB_FILES. */
  function Rank(db: Db): nat {
    match db
    case GraphDb => 0
    case DocDb => 1
    case VectorDb => 2
    case RegistryDb => 3
  }

  /** The receipt: its identity and the hashes of the four backups. */
  datatype Receipt = Receipt(id: nat, graph: Content, doc: Content, vector: Content, registry: Content)
  {
    function Hash(db: Db): Content {
      match db
      case GraphDb => graph
      case DocDb => doc
      case VectorDb => vector
      case RegistryDb => registry
    }
  }

  datatype Data = Data(graph: Content, doc: Content, vector: Content, registry: Content)
  {
    function Of(db: Db): Content {
      match db
      case GraphDb => graph
      case DocDb => doc
      case VectorDb => vector
      case RegistryDb => registry
    }

    function With(db: Db, c: Content): Data {
      match db
      case GraphDb => this.(graph := c)
      case DocDb => this.(doc := c)
      case VectorDb => this.(vector := c)
      case RegistryDb => this.(registry := c)
    }

    predicate Restored(r: Receipt) {
      graph == r.graph && doc == r.doc && vector == r.vector && registry == r.registry
    }
  }

  // -------------------------------------------------------------- run directory

  /** The metadata of one restored file: created empty, then written. */
  datatype MetaFile = Torn | Whole

  /** One file of one attempt: names its metadata and its replacement. */
  datatype Slot = Slot(attempt: Attempt, db: Db)

  /** The files of the run directory that matter here; a marker file holds its receipt. */
  datatype Dir = Dir(
    tombTmp: bool,
    tomb: Option<Receipt>,
    doneTmp: bool,
    done: Option<Receipt>,
    attemptTmps: set<Attempt>,
    attempts: set<Attempt>,
    dirs: set<Attempt>,
    meta: map<Slot, MetaFile>)
  {
    predicate HasTmp() {
      tombTmp || doneTmp || attemptTmps != {}
    }

    predicate HasOrphan() {
      dirs != attempts
    }

    predicate HasTorn() {
      exists k :: k in meta && meta[k].Torn?
    }

    predicate Clean() {
      !HasTmp() && !HasOrphan() && !HasTorn()
    }
  }

  datatype MarkerState = Absent | Incomplete | Tombstone | Complete

  /** marker_state: any temporary file, or a completion that no tombstone matches, is incomplete. */
  function StateOf(d: Dir): MarkerState {
    if d.HasTmp() then Incomplete
    else if d.tomb.None? && d.done.None? then Absent
    else if d.tomb.None? then Incomplete
    else if d.done.None? then Tombstone
    else if d.done == d.tomb then Complete
    else Incomplete
  }

  /** The four answers of marker_state, each by the files that are there. */
  lemma StateByFiles(d: Dir)
    ensures var tmp := d.tombTmp || d.doneTmp || d.attemptTmps != {};
      && (StateOf(d) == Absent <==> !tmp && d.tomb == None && d.done == None)
      && (StateOf(d) == Tombstone <==> !tmp && d.tomb != None && d.done == None)
      && (StateOf(d) == Complete <==> !tmp && d.tomb != None && d.done == d.tomb)
      && (StateOf(d) == Incomplete <==> tmp || (d.done != None && d.done != d.tomb))
  {
  }

  // ------------------------------------------------------------------ processes

  /** How far the restore of one file is. */
  datatype Phase = Begin | MetaOpen | MetaDone | Copying | Replaced

  datatype Proc =
    // apply
    | ApplyStart | ApplyWait | ApplyLocked | ApplyArmed
    // prepare_rollback
    | PrepareStart | PrepareWait | PrepareLocked | PrepareReady | PrepareTmp
    // rollback
    | RollbackStart | RollbackWait | RollbackLocked | RollbackChecked
    | MadeDir(attempt: Attempt) | AttemptTmp(attempt: Attempt) | Published(attempt: Attempt)
    | Restoring(attempt: Attempt, db: Db, phase: Phase) | Verifying(next: nat) | CompletionTmp
    | Confirming(next: nat)

  predicate HoldsLock(p: Proc) {
    !(p.ApplyStart? || p.ApplyWait? || p.PrepareStart? || p.PrepareWait? || p.RollbackStart? || p.RollbackWait?)
  }

  /** A rollback that passed the checks under the lock. */
  predicate PastChecks(p: Proc) {
    p.RollbackChecked? || p.MadeDir? || p.AttemptTmp? || p.Published? || p.Restoring? || p.Verifying? || p.CompletionTmp? || p.Confirming?
  }

  /**
   * Beside the run directory: the four stores, the replacement files of restores, and the stores
   * that have a WAL, shared-memory or journal file.
   */
  datatype System = System(
    dir: Dir,
    data: Data,
    copies: set<Slot>,
    sidecars: set<Db>,
    lock: Option<Pid>,
    procs: map<Pid, Proc>)
  {
    /** The process moves on. */
    function Go(pid: Pid, p: Proc): System {
      this.(procs := procs[pid := p])
    }

    predicate At(pid: Pid, p: Proc) {
      pid in procs && procs[pid] == p
    }
  }

  /** _validate_attempts: every artifact of a restore is bound to a published attempt and its metadata. */
  predicate AttemptsValid(s: System) {
    && !s.dir.HasOrphan() && !s.dir.HasTorn()
    && s.sidecars == {} && s.copies <= s.dir.meta.Keys
  }

  /**
   * The artifacts it accepts: every attempt directory has its marker, every metadata file is whole,
   * every replacement has metadata, and no store has a sidecar file.
   */
  lemma ValidByFiles(s: System)
    ensures AttemptsValid(s) <==>
      && (forall a :: a in s.dir.dirs <==> a in s.dir.attempts)
      && (forall k :: k in s.dir.meta ==> s.dir.meta[k] == Whole)
      && (forall k :: k in s.copies ==> k in s.dir.meta)
      && (forall db :: db !in s.sidecars)
  {
  }

  datatype Step =
    | Spawn(pid: Pid, start: Proc)
    | Connections(present: set<Db>)        // any connection opens, closes or is killed
    | Exit(pid: Pid)                       // returns, refuses or is killed: the lock goes with it
    | Look(pid: Pid)                       // marker_state before the lock
    | Take(pid: Pid)                       // write_lock
    | Recheck(pid: Pid)                    // marker_state and _validate_attempts under the lock
    | ApplyDelete(pid: Pid, db: Db, content: Content)
    | CreateTombTmp(pid: Pid)
    | PublishTomb(pid: Pid)
    | MakeDir(pid: Pid, attempt: Attempt)
    | CreateAttemptTmp(pid: Pid)
    | PublishAttempt(pid: Pid)
    | Revalidate(pid: Pid)                 // _validate_attempts once more
    | CreateMeta(pid: Pid)                 // O_CREAT and O_EXCL
    | WriteMeta(pid: Pid)
    | CreateCopy(pid: Pid)
    | Replace(pid: Pid, content: Content)  // the copy is whole, os.replace
    | DropSidecars(pid: Pid)
    | Verify(pid: Pid)                     // hash of the next file
    | CreateCompletionTmp(pid: Pid)
    | PublishCompletion(pid: Pid)
    | Confirm(pid: Pid)                    // after completion: hash of the next file

  /** What the file after db is restored with; the last one leads to the verification. */
  function AfterFile(a: Attempt, db: Db): Proc {
    match db
    case GraphDb => Restoring(a, DocDb, Begin)
    case DocDb => Restoring(a, VectorDb, Begin)
    case VectorDb => Restoring(a, RegistryDb, Begin)
    case RegistryDb => Verifying(0)
  }

  /** The steps of apply and prepare_rollback, and those that all three share. */
  predicate NextBefore(s: System, s': System, step: Step, r: Receipt) {
    match step
    case Spawn(pid, start) =>
      && pid !in s.procs && s.lock != Some(pid)
      && (start.ApplyStart? || start.PrepareStart? || start.RollbackStart?)
      && s' == s.Go(pid, start)
    case Connections(present) => s' == s.(sidecars := present)
    case Exit(pid) =>
      && pid in s.procs
      && s' == s.(procs := s.procs - {pid}, lock := if s.lock == Some(pid) then None else s.lock)
    case Look(pid) =>
      || (s.At(pid, ApplyStart) && StateOf(s.dir) == Absent && s' == s.Go(pid, ApplyWait))
      || (s.At(pid, PrepareStart) && StateOf(s.dir) == Absent && s' == s.Go(pid, PrepareWait))
      || (s.At(pid, RollbackStart) && StateOf(s.dir) in {Tombstone, Complete} && s.dir.tomb == Some(r) && s' == s.Go(pid, RollbackWait))
    case Take(pid) =>
      && s.lock.None?
      && ((s.At(pid, ApplyWait) && s' == s.Go(pid, ApplyLocked).(lock := Some(pid)))
          || (s.At(pid, PrepareWait) && s' == s.Go(pid, PrepareLocked).(lock := Some(pid)))
          || (s.At(pid, RollbackWait) && s' == s.Go(pid, RollbackLocked).(lock := Some(pid))))
    case Recheck(pid) =>
      || (s.At(pid, ApplyLocked) && StateOf(s.dir) == Absent && s' == s.Go(pid, ApplyArmed))
      || (s.At(pid, PrepareLocked) && StateOf(s.dir) == Absent && s' == s.Go(pid, PrepareReady))
      || (s.At(pid, RollbackLocked) && StateOf(s.dir) == Tombstone && s.dir.tomb == Some(r) && AttemptsValid(s)
          && s' == s.Go(pid, RollbackChecked))
      || (s.At(pid, RollbackLocked) && StateOf(s.dir) == Complete && s.dir.tomb == Some(r) && AttemptsValid(s)
          && s' == s.Go(pid, Confirming(0)))
    case ApplyDelete(pid, db, content) => s.At(pid, ApplyArmed) && s' == s.(data := s.data.With(db, content))
    case CreateTombTmp(pid) =>
      && s.At(pid, PrepareReady) && s.dir.tomb.None? && !s.dir.tombTmp
      && s' == s.Go(pid, PrepareTmp).(dir := s.dir.(tombTmp := true))
    case PublishTomb(pid) =>
      && s.At(pid, PrepareTmp) && s.dir.tomb.None?
      && s' == s.(dir := s.dir.(tombTmp := false, tomb := Some(r)), procs := s.procs - {pid}, lock := None)
    case _ => false
  }

  /** The steps of rollback under the lock. */
  predicate NextRestore(s: System, s': System, step: Step, r: Receipt) {
    match step
    case MakeDir(pid, attempt) =>
      && s.At(pid, RollbackChecked) && attempt !in s.dir.dirs && attempt !in s.dir.attempts
      && s' == s.Go(pid, MadeDir(attempt)).(dir := s.dir.(dirs := s.dir.dirs + {attempt}))
    case CreateAttemptTmp(pid) =>
      && pid in s.procs && s.procs[pid].MadeDir?
      && var a := s.procs[pid].attempt;
      && a !in s.dir.attemptTmps
      && s' == s.Go(pid, AttemptTmp(a)).(dir := s.dir.(attemptTmps := s.dir.attemptTmps + {a}))
    case PublishAttempt(pid) =>
      && pid in s.procs && s.procs[pid].AttemptTmp?
      && var a := s.procs[pid].attempt;
      && a !in s.dir.attempts
      && s' == s.Go(pid, Published(a)).(dir := s.dir.(attemptTmps := s.dir.attemptTmps - {a}, attempts := s.dir.attempts + {a}))
    case Revalidate(pid) =>
      && pid in s.procs && s.procs[pid].Published? && AttemptsValid(s)
      && s' == s.Go(pid, Restoring(s.procs[pid].attempt, GraphDb, Begin))
    case CreateMeta(pid) =>
      && pid in s.procs && s.procs[pid].Restoring? && s.procs[pid].phase.Begin?
      && var p := s.procs[pid];
      && Slot(p.attempt, p.db) !in s.dir.meta
      && s' == s.Go(pid, p.(phase := MetaOpen)).(dir := s.dir.(meta := s.dir.meta[Slot(p.attempt, p.db) := Torn]))
    case WriteMeta(pid) =>
      && pid in s.procs && s.procs[pid].Restoring? && s.procs[pid].phase.MetaOpen?
      && var p := s.procs[pid];
      && s' == s.Go(pid, p.(phase := MetaDone)).(dir := s.dir.(meta := s.dir.meta[Slot(p.attempt, p.db) := Whole]))
    case CreateCopy(pid) =>
      && pid in s.procs && s.procs[pid].Restoring? && s.procs[pid].phase.MetaDone?
      && var p := s.procs[pid];
      && Slot(p.attempt, p.db) !in s.copies
      && s' == s.Go(pid, p.(phase := Copying)).(copies := s.copies + {Slot(p.attempt, p.db)})
    case Replace(pid, content) =>
      && pid in s.procs && s.procs[pid].Restoring? && s.procs[pid].phase.Copying?
      && var p := s.procs[pid];
      && s' == s.Go(pid, p.(phase := Replaced)).(copies := s.copies - {Slot(p.attempt, p.db)}, data := s.data.With(p.db, content))
    case DropSidecars(pid) =>
      && pid in s.procs && s.procs[pid].Restoring? && s.procs[pid].phase.Replaced?
      && var p := s.procs[pid];
      && s' == s.Go(pid, AfterFile(p.attempt, p.db)).(sidecars := s.sidecars - {p.db})
    case Verify(pid) =>
      && pid in s.procs && s.procs[pid].Verifying? && s.procs[pid].next < 4
      && var n := s.procs[pid].next;
      && s.data.Of(DB_FILES[n]) == r.Hash(DB_FILES[n])
      && s' == s.Go(pid, Verifying(n + 1))
    case CreateCompletionTmp(pid) =>
      && s.At(pid, Verifying(4)) && s.dir.done.None? && !s.dir.doneTmp
      && s' == s.Go(pid, CompletionTmp).(dir := s.dir.(doneTmp := true))
    case PublishCompletion(pid) =>
      && s.At(pid, CompletionTmp) && s.dir.done.None?
      && s' == s.(dir := s.dir.(doneTmp := false, done := Some(r)), procs := s.procs - {pid}, lock := None)
    case Confirm(pid) =>
      && pid in s.procs && s.procs[pid].Confirming? && s.procs[pid].next < 4
      && var n := s.procs[pid].next;
      && s.data.Of(DB_FILES[n]) == r.Hash(DB_FILES[n])
      && s' == s.Go(pid, Confirming(n + 1)).(sidecars := s.sidecars - {DB_FILES[n]})
    case _ => false
  }

  predicate Next(s: System, s': System, step: Step, r: Receipt) {
    NextBefore(s, s', step, r) || NextRestore(s, s', step, r)
  }

  const EMPTY_DIR: Dir := Dir(false, None, false, None, {}, {}, {}, map[])

  /** No marker and no artifact yet; the stores may be in use. */
  predicate Init(s: System) {
    s.dir == EMPTY_DIR && s.copies == {} && s.lock.None? && s.procs == map[]
  }

  // ------------------------------------------------------------------ invariant

  predicate VerifiedUpTo(data: Data, r: Receipt, n: nat) {
    && (n > 0 ==> data.graph == r.graph) && (n > 1 ==> data.doc == r.doc)
    && (n > 2 ==> data.vector == r.vector) && (n > 3 ==> data.registry == r.registry)
  }

  /** While a file is restored: its metadata and replacement are as far as the phase says, later files have none. */
  predicate RestoreGood(d: Dir, copies: set<Slot>, a: Attempt, db: Db, phase: Phase) {
    var k := Slot(a, db);
    && !d.HasTmp() && !d.HasOrphan() && a in d.attempts
    && (forall j :: j in d.meta && d.meta[j].Torn? ==> j == k && phase.MetaOpen?)
    && (k in d.meta <==> !phase.Begin?) && (phase.MetaOpen? ==> d.meta[k].Torn?)
    && (k in copies <==> phase.Copying?)
    && (forall later :: Rank(later) > Rank(db) ==> Slot(a, later) !in d.meta)
  }

  /** What a process may rely on at its program point. */
  predicate ProcGood(p: Proc, s: System, r: Receipt) {
    var d := s.dir;
    match p
    case ApplyArmed => d.tomb.None? && d.done.None?
    case PrepareReady => d.tomb.None? && d.done.None?
    case PrepareTmp => d.tomb.None? && d.done.None?
    case RollbackChecked => d.tomb == Some(r) && d.done.None? && d.Clean()
    case MadeDir(a) =>
      d.tomb == Some(r) && d.done.None? && !d.HasTmp() && !d.HasTorn() && a !in d.attempts && d.dirs == d.attempts + {a}
    case AttemptTmp(a) =>
      && d.tomb == Some(r) && d.done.None? && !d.tombTmp && !d.doneTmp && d.attemptTmps == {a}
      && !d.HasTorn() && a !in d.attempts && d.dirs == d.attempts + {a}
    case Published(a) =>
      d.tomb == Some(r) && d.done.None? && d.Clean() && a in d.attempts && forall k :: k in d.meta ==> k.attempt != a
    case Restoring(a, db, phase) => d.tomb == Some(r) && d.done.None? && RestoreGood(d, s.copies, a, db, phase)
    case Verifying(next) => d.tomb == Some(r) && d.done.None? && d.Clean() && next <= 4 && VerifiedUpTo(s.data, r, next)
    case CompletionTmp =>
      && d.tomb == Some(r) && d.done.None? && d.doneTmp && !d.tombTmp && d.attemptTmps == {}
      && !d.HasOrphan() && !d.HasTorn() && s.data.Restored(r)
    case Confirming(next) => d.tomb == Some(r) && d.done == Some(r) && next <= 4
    case _ => true
  }

  /** Artifacts come in order: directory, marker, metadata, replacement; a completion is final. */
  predicate DirGood(s: System, r: Receipt) {
    && s.dir.attempts <= s.dir.dirs
    && (forall k :: k in s.dir.meta ==> k.attempt in s.dir.attempts)
    && (forall k :: k in s.copies ==> k in s.dir.meta && s.dir.meta[k].Whole?)
    && (s.dir.tomb.Some? ==> s.dir.tomb == Some(r))
    && (s.dir.done.Some? ==> s.dir.tomb == Some(r) && s.dir.done == Some(r) && s.data.Restored(r) && s.dir.Clean())
  }

  predicate Inv(s: System, r: Receipt) {
    && (s.lock.Some? ==> s.lock.value in s.procs && HoldsLock(s.procs[s.lock.value]))
    && (forall p :: p in s.procs && HoldsLock(s.procs[p]) ==> s.lock == Some(p))
    && (forall p :: p in s.procs ==> ProcGood(s.procs[p], s, r))
    && DirGood(s, r)
  }

  /** Steps that leave directory, stores and replacements alone. */
  lemma QuietStepsKeepInv(s: System, s': System, step: Step, r: Receipt)
    requires Inv(s, r) && NextBefore(s, s', step, r)
    requires step.Spawn? || step.Connections? || step.Exit? || step.Look?
    ensures Inv(s', r)
  {
    hide StateOf, NextRestore;
    assert s'.dir == s.dir && s'.data == s.data && s'.copies == s.copies;
    forall p | p in s'.procs
      ensures ProcGood(s'.procs[p], s', r) && (HoldsLock(s'.procs[p]) ==> s'.lock == Some(p))
    {
      if p in s.procs && s'.procs[p] == s.procs[p] {
        SameProcGood(s.procs[p], s, s', r);
      } else {
        assert !HoldsLock(s'.procs[p]);
      }
    }
  }

  lemma LockStepsKeepInv(s: System, s': System, step: Step, r: Receipt)
    requires Inv(s, r) && NextBefore(s, s', step, r) && (step.Take? || step.Recheck?)
    ensures Inv(s', r)
  {
    assert s'.dir == s.dir && s'.data == s.data && s'.copies == s.copies;
    assert s'.lock == Some(step.pid) && s'.procs == s.procs[step.pid := s'.procs[step.pid]];
    assert ProcGood(s'.procs[step.pid], s', r);
    forall p | p in s'.procs && p != step.pid
      ensures ProcGood(s'.procs[p], s', r) && !HoldsLock(s'.procs[p])
    {
      SameProcGood(s.procs[p], s, s', r);
    }
  }

  lemma SameProcGood(p: Proc, s: System, s': System, r: Receipt)
    requires s'.dir == s.dir && s'.data == s.data && s'.copies == s.copies && ProcGood(p, s, r)
    ensures ProcGood(p, s', r)
  {
  }

  /** The holder of the lock moves on: nobody else relies on what it changes. */
  lemma HolderKeepsInv(s: System, s': System, pid: Pid, r: Receipt)
    requires Inv(s, r) && pid in s.procs && HoldsLock(s.procs[pid])
    requires pid in s'.procs && HoldsLock(s'.procs[pid]) && s'.lock == s.lock && s'.procs == s.procs[pid := s'.procs[pid]]
    requires ProcGood(s'.procs[pid], s', r) && DirGood(s', r)
    ensures Inv(s', r)
  {
    hide DirGood;
    forall p | p in s'.procs && p != pid
      ensures ProcGood(s'.procs[p], s', r) && !HoldsLock(s'.procs[p])
    {
      assert s'.procs[p] == s.procs[p] && !HoldsLock(s.procs[p]);
    }
  }

  /** The holder of the lock publishes its marker and is done. */
  lemma LastStepKeepsInv(s: System, s': System, pid: Pid, r: Receipt)
    requires Inv(s, r) && pid in s.procs && HoldsLock(s.procs[pid])
    requires s'.lock == None && s'.procs == s.procs - {pid} && DirGood(s', r)
    ensures Inv(s', r)
  {
    hide DirGood;
    forall p | p in s'.procs
      ensures ProcGood(s'.procs[p], s', r) && !HoldsLock(s'.procs[p])
    {
      assert s'.procs[p] == s.procs[p] && !HoldsLock(s.procs[p]);
    }
  }

  lemma DeleteKeepsInv(s: System, s': System, step: Step, r: Receipt)
    requires Inv(s, r) && NextBefore(s, s', step, r) && step.ApplyDelete?
    ensures Inv(s', r)
  {
    assert ProcGood(s.procs[step.pid], s, r);
    HolderKeepsInv(s, s', step.pid, r);
  }

  lemma TombstoneStepsKeepInv(s: System, s': System, step: Step, r: Receipt)
    requires Inv(s, r) && NextBefore(s, s', step, r) && (step.CreateTombTmp? || step.PublishTomb?)
    ensures Inv(s', r)
  {
    assert ProcGood(s.procs[step.pid], s, r);
    if step.CreateTombTmp? {
      HolderKeepsInv(s, s', step.pid, r);
    } else {
      LastStepKeepsInv(s, s', step.pid, r);
    }
  }

  lemma AttemptStepGood(s: System, s': System, step: Step, r: Receipt)
    requires Inv(s, r) && NextRestore(s, s', step, r)
    requires step.MakeDir? || step.CreateAttemptTmp? || step.PublishAttempt? || step.Revalidate?
    ensures ProcGood(s'.procs[step.pid], s', r) && DirGood(s', r)
  {
    assert ProcGood(s.procs[step.pid], s, r);
  }

  lemma MetaStepGood(s: System, s': System, step: Step, r: Receipt)
    requires Inv(s, r) && NextRestore(s, s', step, r) && (step.CreateMeta? || step.WriteMeta?)
    ensures ProcGood(s'.procs[step.pid], s', r) && DirGood(s', r)
  {
    var p := s.procs[step.pid];
    assert ProcGood(p, s, r);
    assert s'.dir.meta.Keys == s.dir.meta.Keys + {Slot(p.attempt, p.db)};
  }

  lemma CopyStepGood(s: System, s': System, step: Step, r: Receipt)
    requires Inv(s, r) && NextRestore(s, s', step, r) && (step.CreateCopy? || step.Replace? || step.DropSidecars?)
    ensures ProcGood(s'.procs[step.pid], s', r) && DirGood(s', r)
  {
    assert ProcGood(s.procs[step.pid], s, r);
  }

  lemma FinishStepGood(s: System, s': System, step: Step, r: Receipt)
    requires Inv(s, r) && NextRestore(s, s', step, r) && (step.Verify? || step.CreateCompletionTmp? || step.Confirm?)
    ensures ProcGood(s'.procs[step.pid], s', r) && DirGood(s', r)
  {
    assert ProcGood(s.procs[step.pid], s, r);
  }

  /** A step of a restore is a step of the holder of the lock. */
  lemma RestoreStepsAreTheHolders(s: System, s': System, step: Step, r: Receipt)
    requires NextRestore(s, s', step, r)
    ensures step.pid in s.procs && HoldsLock(s.procs[step.pid]) && PastChecks(s.procs[step.pid])
    ensures !step.PublishCompletion? ==>
      step.pid in s'.procs && HoldsLock(s'.procs[step.pid]) && s'.lock == s.lock && s'.procs == s.procs[step.pid := s'.procs[step.pid]]
  {
    hide AttemptsValid, StateOf;
  }

  lemma RestoreKeepsInv(s: System, s': System, step: Step, r: Receipt)
    requires Inv(s, r) && NextRestore(s, s', step, r)
    ensures Inv(s', r)
  {
    RestoreStepsAreTheHolders(s, s', step, r);
    if step.PublishCompletion? {
      assert ProcGood(s.procs[step.pid], s, r);
      LastStepKeepsInv(s, s', step.pid, r);
    } else {
      if step.MakeDir? || step.CreateAttemptTmp? || step.PublishAttempt? || step.Revalidate? {
        AttemptStepGood(s, s', step, r);
      } else if step.CreateMeta? || step.WriteMeta? {
        MetaStepGood(s, s', step, r);
      } else if step.CreateCopy? || step.Replace? || step.DropSidecars? {
        CopyStepGood(s, s', step, r);
      } else {
        FinishStepGood(s, s', step, r);
      }
      hide ProcGood, DirGood, NextRestore;
      HolderKeepsInv(s, s', step.pid, r);
    }
  }

  lemma NextKeepsInv(s: System, s': System, step: Step, r: Receipt)
    requires Inv(s, r) && Next(s, s', step, r)
    ensures Inv(s', r)
  {
    hide Inv, NextRestore;
    if !NextBefore(s, s', step, r) {
      RestoreKeepsInv(s, s', step, r);
    } else if step.Take? || step.Recheck? {
      LockStepsKeepInv(s, s', step, r);
    } else if step.PublishTomb? || step.CreateTombTmp? {
      TombstoneStepsKeepInv(s, s', step, r);
    } else if step.ApplyDelete? {
      DeleteKeepsInv(s, s', step, r);
    } else {
      QuietStepsKeepInv(s, s', step, r);
    }
  }

  // ------------------------------------------------------------------- all runs

  ghost predicate Run(states: seq<System>, steps: seq<Step>, r: Receipt) {
    && |states| == |steps| + 1
    && Init(states[0])
    && forall i :: 0 <= i < |steps| ==> Next(states[i], states[i + 1], steps[i], r)
  }

  lemma {:induction false} RunKeepsInv(states: seq<System>, steps: seq<Step>, r: Receipt, i: nat)
    requires Run(states, steps, r) && i < |states|
    ensures Inv(states[i], r)
  {
    if i > 0 {
      RunKeepsInv(states, steps, r, i - 1);
      NextKeepsInv(states[i - 1], states[i], steps[i - 1], r);
    }
  }

  lemma MarkersStay(s: System, s': System, step: Step, r: Receipt)
    requires Next(s, s', step, r)
    ensures s.dir.tomb.Some? ==> s'.dir.tomb == s.dir.tomb
    ensures s.dir.done.Some? ==> s'.dir.done == s.dir.done
    ensures s.dir.attempts <= s'.dir.attempts
  {
    hide AttemptsValid, StateOf;
    if NextBefore(s, s', step, r) {
      hide NextRestore;
    } else {
      hide NextBefore;
    }
  }

  /** A published marker is never changed or removed. */
  lemma {:induction false} PublishedMarkersStay(states: seq<System>, steps: seq<Step>, r: Receipt, i: nat, j: nat)
    requires Run(states, steps, r) && i <= j < |states|
    ensures states[i].dir.tomb.Some? ==> states[j].dir.tomb == states[i].dir.tomb
    ensures states[i].dir.done.Some? ==> states[j].dir.done == states[i].dir.done
    ensures states[i].dir.attempts <= states[j].dir.attempts
  {
    if i < j {
      PublishedMarkersStay(states, steps, r, i, j - 1);
      hide Next;
      MarkersStay(states[j - 1], states[j], steps[j - 1], r);
    }
  }

  /** A completion marker exists only beside its tombstone, and only over four restored files. */
  lemma CompletionMeansRestored(states: seq<System>, steps: seq<Step>, r: Receipt, i: nat)
    requires Run(states, steps, r) && i < |states|
    ensures states[i].dir.done.Some? ==>
      states[i].dir.done == states[i].dir.tomb == Some(r) && forall db :: states[i].data.Of(db) == r.Hash(db)
  {
    RunKeepsInv(states, steps, r, i);
  }

  /** No delete of an apply run commits once the tombstone is out. */
  lemma NoDeleteAfterTombstone(states: seq<System>, steps: seq<Step>, r: Receipt, i: nat, j: nat)
    requires Run(states, steps, r) && i <= j < |steps| && states[i].dir.tomb.Some?
    ensures !steps[j].ApplyDelete?
  {
    RunKeepsInv(states, steps, r, j);
    PublishedMarkersStay(states, steps, r, i, j);
    assert Next(states[j], states[j + 1], steps[j], r);
  }

  /** Once complete, the data never changes again, whatever processes are started. */
  lemma CompletionIsFinal(states: seq<System>, steps: seq<Step>, r: Receipt, i: nat, j: nat)
    requires Run(states, steps, r) && i <= j < |states| && states[i].dir.done.Some?
    ensures states[j].data == states[i].data
  {
    PublishedMarkersStay(states, steps, r, i, j);
    RunKeepsInv(states, steps, r, i);
    RunKeepsInv(states, steps, r, j);
  }

  // ----------------------------------------------------- where the code gives up

  /** A temporary marker file whose writer is gone. */
  predicate StaleTmp(s: System) {
    && StateOf(s.dir) == Incomplete
    && s.dir.done.None?
    && (s.dir.tombTmp || s.dir.doneTmp || s.dir.attemptTmps != {})
    && forall p :: p in s.procs ==> !HoldsLock(s.procs[p]) || s.procs[p] in {ApplyLocked, PrepareLocked, RollbackLocked}
  }

  lemma StaleTmpStep(s: System, s': System, step: Step, r: Receipt)
    requires Inv(s, r) && Next(s, s', step, r) && StaleTmp(s)
    ensures StaleTmp(s') && s'.dir == s.dir && s'.data == s.data
  {
    hide ProcGood, DirGood, AttemptsValid, NextRestore;
    if NextRestore(s, s', step, r) {
      RestoreStepsAreTheHolders(s, s', step, r);
    } else {
      match step {
        case Recheck(_) =>
        case Look(_) =>
        case _ =>
      }
    }
  }

  /**
   * A process killed while it published a marker blocks the run directory for good: nothing
   * is deleted, restored or published any more.
   */
  lemma {:induction false} StaleTmpBlocksForever(states: seq<System>, steps: seq<Step>, r: Receipt, i: nat, j: nat)
    requires Run(states, steps, r) && i <= j < |states| && StaleTmp(states[i])
    ensures StaleTmp(states[j]) && states[j].dir == states[i].dir && states[j].data == states[i].data
  {
    hide Inv, StaleTmp, Next;
    if i < j {
      StaleTmpBlocksForever(states, steps, r, i, j - 1);
      RunKeepsInv(states, steps, r, j - 1);
      StaleTmpStep(states[j - 1], states[j], steps[j - 1], r);
    }
  }

  /** An attempt directory without its marker, or torn metadata, and no rollback at work on it. */
  predicate Damaged(s: System) {
    && (s.dir.HasOrphan() || s.dir.HasTorn())
    && forall p :: p in s.procs ==> !PastChecks(s.procs[p])
  }

  lemma DamageStep(s: System, s': System, step: Step, r: Receipt)
    requires Inv(s, r) && Next(s, s', step, r) && Damaged(s)
    ensures Damaged(s') && NextBefore(s, s', step, r)
  {
    hide ProcGood, DirGood, NextRestore, StateOf;
    if NextRestore(s, s', step, r) {
      RestoreStepsAreTheHolders(s, s', step, r);
    } else {
      assert s'.dir.dirs == s.dir.dirs && s'.dir.attempts == s.dir.attempts && s'.dir.meta == s.dir.meta;
    }
  }

  /**
   * A rollback killed between mkdir and marker, or between creating a metadata file and writing
   * it, is the last one of its run directory: no file is restored and no completion published
   * any more, whatever is started.
   */
  lemma {:induction false} DamageStopsRestores(states: seq<System>, steps: seq<Step>, r: Receipt, i: nat, j: nat)
    requires Run(states, steps, r) && i <= j < |steps| && Damaged(states[i])
    ensures Damaged(states[j]) && !steps[j].Replace? && !steps[j].PublishCompletion?
  {
    hide Inv, Damaged, NextRestore;
    if i < j {
      DamageStopsRestores(states, steps, r, i, j - 1);
      RunKeepsInv(states, steps, r, j - 1);
      DamageStep(states[j - 1], states[j], steps[j - 1], r);
    }
    RunKeepsInv(states, steps, r, j);
    DamageStep(states[j], states[j + 1], steps[j], r);
  }

  // --------------------------------------------------------- entering it again

  predicate IsBy(step: Step, pid: Pid) {
    !step.Connections? && !step.Spawn? && step.pid == pid
  }

  ghost predicate Leads(s: System, steps: seq<Step>, t: System, r: Receipt)
    decreases |steps|
  {
    if steps == [] then s == t
    else
      var n := |steps| - 1;
      exists m :: Leads(s, steps[..n], m, r) && Next(m, t, steps[n], r)
  }

  /** The process can bring s to t while nobody else moves. */
  ghost predicate Alone(s: System, t: System, pid: Pid, r: Receipt) {
    exists steps :: Leads(s, steps, t, r) && forall step :: step in steps ==> IsBy(step, pid)
  }

  ghost predicate CanComplete(s: System, pid: Pid, r: Receipt) {
    exists t :: Alone(s, t, pid, r) && t.dir.done.Some?
  }

  lemma NotYet(s: System, pid: Pid, r: Receipt)
    ensures Alone(s, s, pid, r)
  {
    assert Leads(s, [], s, r);
  }

  lemma OneStep(s: System, m: System, t: System, step: Step, pid: Pid, r: Receipt)
    requires Alone(s, m, pid, r) && Inv(m, r) && Next(m, t, step, r) && IsBy(step, pid)
    ensures Alone(s, t, pid, r) && Inv(t, r)
  {
    hide Next, Inv;
    NextKeepsInv(m, t, step, r);
    var steps :| Leads(s, steps, m, r) && forall step :: step in steps ==> IsBy(step, pid);
    assert (steps + [step])[..|steps|] == steps;
    assert Leads(s, steps + [step], t, r);
  }

  /** What stands in the way of the next rollback. */
  predicate Resumable(s: System) {
    s.dir.Clean() && s.sidecars == {}
  }

  function MetaCreated(s: System, pid: Pid, k: Slot): System {
    s.Go(pid, Restoring(k.attempt, k.db, MetaOpen)).(dir := s.dir.(meta := s.dir.meta[k := Torn]))
  }

  function MetaWritten(s: System, pid: Pid, k: Slot): System {
    s.Go(pid, Restoring(k.attempt, k.db, MetaDone)).(dir := s.dir.(meta := s.dir.meta[k := Whole]))
  }

  lemma MetadataSteps(s: System, m: System, t: System, pid: Pid, k: Slot, r: Receipt)
    requires s.At(pid, Restoring(k.attempt, k.db, Begin)) && k !in s.dir.meta
    requires m == MetaCreated(s, pid, k) && t == MetaWritten(m, pid, k)
    ensures NextRestore(s, m, CreateMeta(pid), r) && NextRestore(m, t, WriteMeta(pid), r)
    ensures t.At(pid, Restoring(k.attempt, k.db, MetaDone)) && t.data == s.data
  {
  }

  lemma MetadataIsWritten(s0: System, s: System, pid: Pid, a: Attempt, db: Db, r: Receipt) returns (t: System)
    requires Alone(s0, s, pid, r) && Inv(s, r) && s.At(pid, Restoring(a, db, Begin))
    ensures Alone(s0, t, pid, r) && Inv(t, r) && t.At(pid, Restoring(a, db, MetaDone)) && t.data == s.data
  {
    Startable(s, pid, a, db, r);
    var m := MetaCreated(s, pid, Slot(a, db));
    t := MetaWritten(m, pid, Slot(a, db));
    MetadataSteps(s, m, t, pid, Slot(a, db), r);
    hide Alone, Inv, NextBefore, NextRestore, MetaCreated, MetaWritten;
    OneStep(s0, s, m, CreateMeta(pid), pid, r);
    OneStep(s0, m, t, WriteMeta(pid), pid, r);
  }

  function CopyCreated(s: System, pid: Pid, k: Slot): System {
    s.Go(pid, Restoring(k.attempt, k.db, Copying)).(copies := s.copies + {k})
  }

  function CopyMoved(s: System, pid: Pid, k: Slot, content: Content): System {
    s.Go(pid, Restoring(k.attempt, k.db, Replaced)).(copies := s.copies - {k}, data := s.data.With(k.db, content))
  }

  lemma CopySteps(s: System, m: System, t: System, pid: Pid, k: Slot, content: Content, r: Receipt)
    requires s.At(pid, Restoring(k.attempt, k.db, MetaDone)) && k !in s.copies
    requires m == CopyCreated(s, pid, k) && t == CopyMoved(m, pid, k, content)
    ensures NextRestore(s, m, CreateCopy(pid), r) && NextRestore(m, t, Replace(pid, content), r)
    ensures t.At(pid, Restoring(k.attempt, k.db, Replaced)) && t.data == s.data.With(k.db, content)
  {
  }

  lemma FileIsCopied(s0: System, s: System, pid: Pid, a: Attempt, db: Db, r: Receipt) returns (t: System)
    requires Alone(s0, s, pid, r) && Inv(s, r) && s.At(pid, Restoring(a, db, MetaDone))
    ensures Alone(s0, t, pid, r) && Inv(t, r) && t.At(pid, Restoring(a, db, Replaced)) && t.data == s.data.With(db, r.Hash(db))
  {
    Startable(s, pid, a, db, r);
    var m := CopyCreated(s, pid, Slot(a, db));
    t := CopyMoved(m, pid, Slot(a, db), r.Hash(db));
    CopySteps(s, m, t, pid, Slot(a, db), r.Hash(db), r);
    hide Alone, Inv, NextBefore, NextRestore, CopyCreated, CopyMoved;
    OneStep(s0, s, m, CreateCopy(pid), pid, r);
    OneStep(s0, m, t, Replace(pid, r.Hash(db)), pid, r);
  }

  /** One file: metadata, copy, rename, sidecars. */
  lemma FileIsRestored(s0: System, s: System, pid: Pid, a: Attempt, db: Db, r: Receipt) returns (t: System)
    requires Alone(s0, s, pid, r) && Inv(s, r) && s.At(pid, Restoring(a, db, Begin))
    ensures Alone(s0, t, pid, r) && Inv(t, r) && t.At(pid, AfterFile(a, db))
    ensures t.data == s.data.With(db, r.Hash(db))
  {
    hide Alone, Inv, NextBefore;
    var m := MetadataIsWritten(s0, s, pid, a, db, r);
    m := FileIsCopied(s0, m, pid, a, db, r);
    t := m.Go(pid, AfterFile(a, db)).(sidecars := m.sidecars - {db});
    OneStep(s0, m, t, DropSidecars(pid), pid, r);
  }

  lemma Startable(s: System, pid: Pid, a: Attempt, db: Db, r: Receipt)
    requires Inv(s, r)
    ensures s.At(pid, Restoring(a, db, Begin)) ==> Slot(a, db) !in s.dir.meta
    ensures s.At(pid, Restoring(a, db, MetaDone)) ==> Slot(a, db) !in s.copies
  {
    if pid !in s.procs { return; }
    assert ProcGood(s.procs[pid], s, r);
  }

  lemma {:induction false} FilesAreVerified(s0: System, s: System, pid: Pid, n: nat, r: Receipt) returns (t: System)
    requires Alone(s0, s, pid, r) && Inv(s, r) && n <= 4 && s.At(pid, Verifying(n)) && s.data.Restored(r)
    ensures Alone(s0, t, pid, r) && Inv(t, r) && t.At(pid, Verifying(4))
    decreases 4 - n
  {
    hide Alone, Inv;
    t := s;
    if n < 4 {
      var m := s.Go(pid, Verifying(n + 1));
      OneStep(s0, s, m, Verify(pid), pid, r);
      t := FilesAreVerified(s0, m, pid, n + 1, r);
    }
  }

  /** From the checks to the completion marker. */
  lemma ChecksLeadToCompletion(s0: System, s: System, pid: Pid, r: Receipt)
    requires Alone(s0, s, pid, r) && Inv(s, r) && s.At(pid, RollbackChecked) && s.sidecars == {}
    ensures CanComplete(s0, pid, r)
  {
    hide Inv, Alone, CanComplete, AttemptsValid, NextBefore;
    var a := FreshAttempt(s);
    CheckedIsClean(s, pid, r);
    var s1 := s.Go(pid, MadeDir(a)).(dir := s.dir.(dirs := s.dir.dirs + {a}));
    var s2 := s1.Go(pid, AttemptTmp(a)).(dir := s1.dir.(attemptTmps := s1.dir.attemptTmps + {a}));
    var s3 := s2.Go(pid, Published(a)).(dir := s2.dir.(attemptTmps := s2.dir.attemptTmps - {a}, attempts := s2.dir.attempts + {a}));
    var s4 := s3.Go(pid, Restoring(a, GraphDb, Begin));
    OneStep(s0, s, s1, MakeDir(pid, a), pid, r);
    OneStep(s0, s1, s2, CreateAttemptTmp(pid), pid, r);
    OneStep(s0, s2, s3, PublishAttempt(pid), pid, r);
    PublishedIsValid(s3, pid, a, r);
    OneStep(s0, s3, s4, Revalidate(pid), pid, r);
    RestoreLeadsToCompletion(s0, s4, pid, a, r);
  }

  lemma CheckedIsClean(s: System, pid: Pid, r: Receipt)
    requires Inv(s, r) && s.At(pid, RollbackChecked)
    ensures s.dir.Clean()
  {
    assert ProcGood(s.procs[pid], s, r);
  }

  lemma PublishedIsValid(s: System, pid: Pid, a: Attempt, r: Receipt)
    requires Inv(s, r) && s.At(pid, Published(a)) && s.sidecars == {}
    ensures AttemptsValid(s)
  {
    assert ProcGood(s.procs[pid], s, r);
  }

  lemma RestoreLeadsToCompletion(s0: System, s: System, pid: Pid, a: Attempt, r: Receipt)
    requires Alone(s0, s, pid, r) && Inv(s, r) && s.At(pid, Restoring(a, GraphDb, Begin))
    ensures CanComplete(s0, pid, r)
  {
    hide Inv, Alone, NextBefore;
    var t := FileIsRestored(s0, s, pid, a, GraphDb, r);
    t := FileIsRestored(s0, t, pid, a, DocDb, r);
    t := FileIsRestored(s0, t, pid, a, VectorDb, r);
    t := FileIsRestored(s0, t, pid, a, RegistryDb, r);
    t := FilesAreVerified(s0, t, pid, 0, r);
    NothingPublished(t, pid, r);
    var u := t.Go(pid, CompletionTmp).(dir := t.dir.(doneTmp := true));
    OneStep(s0, t, u, CreateCompletionTmp(pid), pid, r);
    var v := u.(dir := u.dir.(doneTmp := false, done := Some(r)), procs := u.procs - {pid}, lock := None);
    OneStep(s0, u, v, PublishCompletion(pid), pid, r);
  }

  lemma NothingPublished(s: System, pid: Pid, r: Receipt)
    requires Inv(s, r) && s.At(pid, Verifying(4))
    ensures s.dir.done.None? && !s.dir.doneTmp
  {
    assert ProcGood(s.procs[pid], s, r);
  }

  /** A UUID that is not in use. */
  lemma FreshAttempt(s: System) returns (a: Attempt)
    ensures a !in s.dir.dirs && a !in s.dir.attempts
  {
    a := Above(s.dir.dirs + s.dir.attempts);
  }

  lemma {:induction false} Above(ids: set<nat>) returns (n: nat)
    ensures forall i :: i in ids ==> i < n
    decreases |ids|
  {
    n := 0;
    if ids != {} {
      var i :| i in ids;
      var m := Above(ids - {i});
      n := if m <= i then i + 1 else m;
      forall j | j in ids
        ensures j < n
      {
        assert j == i || j in ids - {i};
      }
    }
  }

  /** What the checks do not let pass: a sidecar file always, anything unclean until completion. */
  predicate Obstructed(s: System) {
    s.sidecars != {} || (s.dir.done.None? && !s.dir.Clean())
  }

  /** A rollback that does not get past the checks changes nothing. */
  predicate Refused(s: System, t: System, pid: Pid) {
    && t.dir == s.dir && t.sidecars == s.sidecars
    && (pid in t.procs ==> t.procs[pid] in {RollbackStart, RollbackWait, RollbackLocked})
  }

  lemma {:induction false} ChecksRefuse(s: System, steps: seq<Step>, t: System, pid: Pid, r: Receipt)
    requires Obstructed(s) && s.At(pid, RollbackStart)
    requires Leads(s, steps, t, r) && forall step :: step in steps ==> IsBy(step, pid)
    ensures Refused(s, t, pid)
    decreases |steps|
  {
    if steps != [] {
      var n := |steps| - 1;
      var m :| Leads(s, steps[..n], m, r) && Next(m, t, steps[n], r);
      assert forall step :: step in steps[..n] ==> step in steps;
      ChecksRefuse(s, steps[..n], m, pid, r);
      assert IsBy(steps[n], pid);
      RefusedStep(s, m, t, steps[n], pid, r);
    }
  }

  lemma RefusedStep(s: System, m: System, t: System, step: Step, pid: Pid, r: Receipt)
    requires Obstructed(s) && Refused(s, m, pid) && Next(m, t, step, r) && IsBy(step, pid)
    ensures Refused(s, t, pid)
  {
    hide NextRestore;
    if NextRestore(m, t, step, r) {
      RestoreStepsAreTheHolders(m, t, step, r);
    } else {
      match step {
        case Exit(_) =>
        case Look(_) =>
        case Take(_) =>
        case Recheck(_) =>
        case _ =>
      }
    }
  }

  /** The state is looked at and the lock taken; a clean directory with a tombstone lets both pass. */
  lemma LockIsTaken(s: System, pid: Pid, r: Receipt) returns (t: System)
    requires Inv(s, r) && s.lock.None? && s.At(pid, RollbackStart) && s.dir.tomb.Some? && s.dir.Clean()
    ensures Alone(s, t, pid, r) && Inv(t, r) && t.At(pid, RollbackLocked)
    ensures t.dir == s.dir && t.copies == s.copies && t.sidecars == s.sidecars && t.data == s.data
    ensures StateOf(t.dir) == (if s.dir.done.None? then Tombstone else Complete) && t.dir.tomb == Some(r)
  {
    TombstoneIsTheReceipts(s, r);
    hide Inv, Alone, NextRestore;
    NotYet(s, pid, r);
    var m := s.Go(pid, RollbackWait);
    OneStep(s, s, m, Look(pid), pid, r);
    t := m.Go(pid, RollbackLocked).(lock := Some(pid));
    OneStep(s, m, t, Take(pid), pid, r);
  }

  lemma TombstoneIsTheReceipts(s: System, r: Receipt)
    requires Inv(s, r) && s.dir.tomb.Some?
    ensures s.dir.tomb == Some(r) && (s.dir.done.Some? ==> s.dir.done == Some(r) && s.dir.Clean())
  {
  }

  /** Every replacement file has its metadata, so it never stands in the way. */
  lemma ArtifactsAreBound(s: System, r: Receipt)
    requires Inv(s, r) && Resumable(s)
    ensures AttemptsValid(s)
  {
  }

  /**
   * With a tombstone and no completion, a rollback started now and left alone can restore and
   * complete exactly if there is no temporary marker, no attempt directory without a marker, no
   * torn metadata and no sidecar file. Replacement files of killed restores do not matter.
   */
  lemma RestartCompletes(s: System, pid: Pid, r: Receipt)
    requires Inv(s, r) && s.lock.None? && s.At(pid, RollbackStart) && s.dir.tomb.Some? && s.dir.done.None?
    ensures CanComplete(s, pid, r) <==> Resumable(s)
  {
    if Resumable(s) {
      var m := LockIsTaken(s, pid, r);
      var t := m.Go(pid, RollbackChecked);
      ArtifactsAreBound(m, r);
      hide Inv, Alone, CanComplete, AttemptsValid, NextRestore;
      OneStep(s, m, t, Recheck(pid), pid, r);
      ChecksLeadToCompletion(s, t, pid, r);
    } else if CanComplete(s, pid, r) {
      var t :| Alone(s, t, pid, r) && t.dir.done.Some?;
      var steps :| Leads(s, steps, t, r) && forall step :: step in steps ==> IsBy(step, pid);
      ChecksRefuse(s, steps, t, pid, r);
    }
  }

  /** Between creating a file that has to be whole and making it so. */
  predicate MidArtifact(p: Proc) {
    p.MadeDir? || p.AttemptTmp? || p.CompletionTmp? || (p.Restoring? && p.phase.MetaOpen?)
  }

  /**
   * From which kill points rollback can be entered again: a restore killed at p can be completed
   * by the next rollback exactly if p is not between the directory and its marker, the temporary
   * marker and its rename or the creation and the writing of metadata, and no connection left a
   * sidecar file behind.
   */
  lemma KilledRestoreCanReenter(s: System, killed: System, s': System, pid: Pid, next: Pid, r: Receipt)
    requires Inv(s, r) && pid in s.procs && PastChecks(s.procs[pid]) && !s.procs[pid].Confirming?
    requires Next(s, killed, Exit(pid), r) && Next(killed, s', Spawn(next, RollbackStart), r)
    ensures CanComplete(s', next, r) <==> s.sidecars == {} && !MidArtifact(s.procs[pid])
  {
    assert ProcGood(s.procs[pid], s, r);
    assert s'.dir == s.dir && s'.sidecars == s.sidecars;
    NextKeepsInv(s, killed, Exit(pid), r);
    NextKeepsInv(killed, s', Spawn(next, RollbackStart), r);
    hide Inv;
    KillPoints(s, pid, r);
    RestartCompletes(s', next, r);
  }

  lemma KillPoints(s: System, pid: Pid, r: Receipt)
    requires pid in s.procs && PastChecks(s.procs[pid]) && !s.procs[pid].Confirming? && ProcGood(s.procs[pid], s, r)
    ensures s.dir.Clean() <==> !MidArtifact(s.procs[pid])
  {
    match s.procs[pid] {
      case MadeDir(a) => assert a in s.dir.dirs;
      case Restoring(a, db, phase) => if phase.MetaOpen? { assert s.dir.meta[Slot(a, db)].Torn?; }
      case _ =>
    }
  }

  /** After completion, a rollback left alone confirms the four files exactly if there is no sidecar file. */
  lemma CompletedIsConfirmed(s: System, pid: Pid, r: Receipt)
    requires Inv(s, r) && s.lock.None? && s.At(pid, RollbackStart) && s.dir.done.Some?
    ensures (exists t :: Alone(s, t, pid, r) && t.At(pid, Confirming(4))) <==> s.sidecars == {}
  {
    if s.sidecars == {} {
      var m := LockIsTaken(s, pid, r);
      var t := m.Go(pid, Confirming(0));
      ArtifactsAreBound(m, r);
      hide Inv, Alone, AttemptsValid, NextRestore;
      OneStep(s, m, t, Recheck(pid), pid, r);
      t := FilesAreConfirmed(s, t, pid, 0, r);
    } else if t :| Alone(s, t, pid, r) && t.At(pid, Confirming(4)) {
      var steps :| Leads(s, steps, t, r) && forall step :: step in steps ==> IsBy(step, pid);
      ChecksRefuse(s, steps, t, pid, r);
    }
  }

  lemma StillAsVerified(s: System, m: System, pid: Pid, n: nat, r: Receipt)
    requires Inv(s, r) && s.At(pid, Confirming(n)) && n < 4
    requires m == s.Go(pid, Confirming(n + 1)).(sidecars := s.sidecars - {DB_FILES[n]})
    ensures NextRestore(s, m, Confirm(pid), r) && m.At(pid, Confirming(n + 1))
  {
    assert ProcGood(s.procs[pid], s, r);
  }

  lemma {:induction false} FilesAreConfirmed(s0: System, s: System, pid: Pid, n: nat, r: Receipt) returns (t: System)
    requires Alone(s0, s, pid, r) && Inv(s, r) && n <= 4 && s.At(pid, Confirming(n))
    ensures Alone(s0, t, pid, r) && t.At(pid, Confirming(4))
    decreases 4 - n
  {
    t := s;
    if n < 4 {
      var m := s.Go(pid, Confirming(n + 1)).(sidecars := s.sidecars - {DB_FILES[n]});
      StillAsVerified(s, m, pid, n, r);
      hide Alone, Inv, NextBefore, NextRestore;
      OneStep(s0, s, m, Confirm(pid), pid, r);
      t := FilesAreConfirmed(s0, m, pid, n + 1, r);
    }
  }

  // -------------------------------------------------------- what can come about

  /** No marker and no temporary file. */
  predicate Unmarked(d: Dir) {
    !d.tombTmp && !d.doneTmp && d.attemptTmps == {} && d.tomb == None && d.done == None
  }

  /** An apply or prepare process that finds a marker or a temporary file gets nowhere. */
  lemma {:induction false} MarkersRefuse(s: System, steps: seq<Step>, t: System, pid: Pid, start: Proc, r: Receipt)
    requires !Unmarked(s.dir) && s.At(pid, start) && (start.ApplyStart? || start.PrepareStart?)
    requires Leads(s, steps, t, r) && forall step :: step in steps ==> IsBy(step, pid)
    ensures t.dir == s.dir && (pid in t.procs ==> t.procs[pid] == start)
    decreases |steps|
  {
    if steps != [] {
      var n := |steps| - 1;
      var m :| Leads(s, steps[..n], m, r) && Next(m, t, steps[n], r);
      assert forall step :: step in steps[..n] ==> step in steps;
      MarkersRefuse(s, steps[..n], m, pid, start, r);
      assert IsBy(steps[n], pid);
      MarkedStep(m, t, steps[n], pid, start, r);
    }
  }

  lemma MarkedStep(m: System, t: System, step: Step, pid: Pid, start: Proc, r: Receipt)
    requires !Unmarked(m.dir) && (start.ApplyStart? || start.PrepareStart?) && (pid in m.procs ==> m.procs[pid] == start)
    requires Next(m, t, step, r) && IsBy(step, pid)
    ensures t.dir == m.dir && (pid in t.procs ==> t.procs[pid] == start)
  {
    hide NextRestore;
    if NextRestore(m, t, step, r) {
      RestoreStepsAreTheHolders(m, t, step, r);
    }
  }

  function Without(s: System, pid: Pid): System {
    s.(procs := s.procs - {pid}, lock := None)
  }

  lemma PrepareGoesThrough(s: System, pid: Pid, r: Receipt) returns (m: System, t: System)
    requires Inv(s, r) && s.lock.None? && s.At(pid, PrepareStart) && Unmarked(s.dir)
    ensures Alone(s, m, pid, r) && Next(m, t, PublishTomb(pid), r) && Alone(s, t, pid, r) && Inv(t, r)
    ensures t == Without(s, pid).(dir := s.dir.(tomb := Some(r)))
  {
    hide Inv, Alone, NextRestore;
    NotYet(s, pid, r);
    var waits := s.Go(pid, PrepareWait);
    OneStep(s, s, waits, Look(pid), pid, r);
    var locked := waits.Go(pid, PrepareLocked).(lock := Some(pid));
    OneStep(s, waits, locked, Take(pid), pid, r);
    var ready := locked.Go(pid, PrepareReady);
    OneStep(s, locked, ready, Recheck(pid), pid, r);
    m := ready.Go(pid, PrepareTmp).(dir := ready.dir.(tombTmp := true));
    OneStep(s, ready, m, CreateTombTmp(pid), pid, r);
    t := m.(dir := m.dir.(tombTmp := false, tomb := Some(r)), procs := m.procs - {pid}, lock := None);
    OneStep(s, m, t, PublishTomb(pid), pid, r);
    assert t.procs == s.procs - {pid};
  }

  /**
   * A prepare process left alone can publish the tombstone exactly if there is no marker and no
   * temporary file; then the directory has the tombstone of the receipt and is otherwise as it was.
   */
  lemma PrepareCanPublish(s: System, pid: Pid, r: Receipt)
    requires Inv(s, r) && s.lock.None? && s.At(pid, PrepareStart)
    ensures (exists m, t :: Alone(s, m, pid, r) && Next(m, t, PublishTomb(pid), r) && t.dir == s.dir.(tomb := Some(r)))
      <==> Unmarked(s.dir)
  {
    if Unmarked(s.dir) {
      var m, t := PrepareGoesThrough(s, pid, r);
    } else if m, t :| Alone(s, m, pid, r) && Next(m, t, PublishTomb(pid), r) && t.dir == s.dir.(tomb := Some(r)) {
      var steps :| Leads(s, steps, m, r) && forall step :: step in steps ==> IsBy(step, pid);
      MarkersRefuse(s, steps, m, pid, PrepareStart, r);
    }
  }

  lemma ApplyGoesThrough(s: System, pid: Pid, db: Db, content: Content, r: Receipt) returns (m: System, t: System)
    requires Inv(s, r) && s.lock.None? && s.At(pid, ApplyStart) && Unmarked(s.dir)
    ensures Alone(s, m, pid, r) && Next(m, t, ApplyDelete(pid, db, content), r) && Inv(t, r)
    ensures t == s.Go(pid, ApplyArmed).(lock := Some(pid), data := s.data.With(db, content))
  {
    hide Inv, Alone, NextRestore;
    NotYet(s, pid, r);
    var waits := s.Go(pid, ApplyWait);
    OneStep(s, s, waits, Look(pid), pid, r);
    var locked := waits.Go(pid, ApplyLocked).(lock := Some(pid));
    OneStep(s, waits, locked, Take(pid), pid, r);
    m := locked.Go(pid, ApplyArmed);
    OneStep(s, locked, m, Recheck(pid), pid, r);
    t := m.(data := m.data.With(db, content));
    OneStep(s, m, t, ApplyDelete(pid, db, content), pid, r);
    assert t.procs == s.procs[pid := ApplyArmed];
  }

  /** And exactly then an apply process left alone can delete, in whichever file. */
  lemma ApplyCanDelete(s: System, pid: Pid, db: Db, content: Content, r: Receipt)
    requires Inv(s, r) && s.lock.None? && s.At(pid, ApplyStart)
    ensures (exists m, t :: Alone(s, m, pid, r) && Next(m, t, ApplyDelete(pid, db, content), r) && t.data == s.data.With(db, content))
      <==> Unmarked(s.dir)
  {
    if Unmarked(s.dir) {
      var m, t := ApplyGoesThrough(s, pid, db, content, r);
    } else if m, t :| Alone(s, m, pid, r) && Next(m, t, ApplyDelete(pid, db, content), r) && t.data == s.data.With(db, content) {
      var steps :| Leads(s, steps, m, r) && forall step :: step in steps ==> IsBy(step, pid);
      MarkersRefuse(s, steps, m, pid, ApplyStart, r);
    }
  }

  /** s comes to t by steps of anybody, one of which is via. */
  ghost predicate Via(s: System, via: Step, t: System, r: Receipt) {
    exists steps :: Leads(s, steps, t, r) && via in steps
  }

  lemma {:induction false} LeadsOn(s: System, a: seq<Step>, m: System, b: seq<Step>, t: System, r: Receipt)
    requires Leads(s, a, m, r) && Leads(m, b, t, r)
    ensures Leads(s, a + b, t, r)
    decreases |b|
  {
    if b == [] {
      assert a + b == a;
    } else {
      hide Next;
      var n := |b| - 1;
      var q :| Leads(m, b[..n], q, r) && Next(q, t, b[n], r);
      LeadsOn(s, a, m, b[..n], q, r);
      assert (a + b)[..|a + b| - 1] == a + b[..n] && (a + b)[|a + b| - 1] == b[n];
    }
  }

  lemma ViaAlone(s: System, via: Step, m: System, t: System, pid: Pid, r: Receipt)
    requires Via(s, via, m, r) && Alone(m, t, pid, r)
    ensures Via(s, via, t, r)
  {
    var a :| Leads(s, a, m, r) && via in a;
    var b :| Leads(m, b, t, r) && forall step :: step in b ==> IsBy(step, pid);
    LeadsOn(s, a, m, b, t, r);
  }

  lemma ViaStep(s: System, via: Step, m: System, t: System, step: Step, r: Receipt)
    requires Via(s, via, m, r) && Next(m, t, step, r)
    ensures Via(s, via, t, r)
  {
    hide Next;
    var a :| Leads(s, a, m, r) && via in a;
    assert (a + [step])[..|a|] == a;
    assert Leads(s, a + [step], t, r);
  }

  lemma {:induction false} LeadsIsRun(s: System, steps: seq<Step>, t: System, r: Receipt) returns (states: seq<System>)
    requires Init(s) && Leads(s, steps, t, r)
    ensures Run(states, steps, r) && states[0] == s && states[|steps|] == t
    decreases |steps|
  {
    if steps == [] {
      states := [s];
    } else {
      hide Next, Init;
      var n := |steps| - 1;
      var m :| Leads(s, steps[..n], m, r) && Next(m, t, steps[n], r);
      states := LeadsIsRun(s, steps[..n], m, r);
      states := states + [t];
      assert steps[..n] + [steps[n]] == steps;
      forall i | 0 <= i < |steps|
        ensures Next(states[i], states[i + 1], steps[i], r)
      {
        if i < n { assert steps[..n][i] == steps[i]; }
      }
    }
  }

  /** An apply run deletes and is killed; nothing is left but its delete and no sidecar file. */
  lemma DeleteThenKill(s: System, db: Db, content: Content, r: Receipt) returns (t: System)
    requires Init(s)
    ensures t.dir == EMPTY_DIR && t.lock.None? && t.procs == map[] && t.sidecars == {}
    ensures t.data == s.data.With(db, content) && t.copies == {}
    ensures Via(s, ApplyDelete(0, db, content), t, r)
  {
    var started := s.Go(0, ApplyStart);
    assert Next(s, started, Spawn(0, ApplyStart), r);
    NextKeepsInv(s, started, Spawn(0, ApplyStart), r);
    var armed, deleted := ApplyGoesThrough(started, 0, db, content, r);
    assert Leads(s, [], s, r);
    assert [Spawn(0, ApplyStart)][..0] == [];
    assert Leads(s, [Spawn(0, ApplyStart)], started, r);
    var steps :| Leads(started, steps, armed, r) && forall step :: step in steps ==> IsBy(step, 0);
    LeadsOn(s, [Spawn(0, ApplyStart)], started, steps, armed, r);
    var all := [Spawn(0, ApplyStart)] + steps + [ApplyDelete(0, db, content)];
    assert all[..|all| - 1] == [Spawn(0, ApplyStart)] + steps;
    assert Leads(s, all, deleted, r);
    assert Via(s, ApplyDelete(0, db, content), deleted, r);
    var gone := deleted.(procs := deleted.procs - {0}, lock := None);
    ViaStep(s, ApplyDelete(0, db, content), deleted, gone, Exit(0), r);
    t := gone.(sidecars := {});
    ViaStep(s, ApplyDelete(0, db, content), gone, t, Connections({}), r);
    assert t.procs == map[];
  }

  /**
   * From every start there is a run in which an apply process deletes, in whichever file, and is
   * killed, a prepare process publishes the tombstone and a rollback completes.
   */
  lemma CompletionComesAbout(s: System, db: Db, content: Content, r: Receipt) returns (states: seq<System>, steps: seq<Step>)
    requires Init(s)
    ensures Run(states, steps, r) && states[0] == s && ApplyDelete(0, db, content) in steps && states[|steps|].dir.done == Some(r)
  {
    var via := ApplyDelete(0, db, content);
    var killed := DeleteThenKill(s, db, content, r);
    EmptyIsGood(killed, r);
    hide Inv, Alone, Init, Via, NextRestore, Run;
    var preparing := killed.Go(1, PrepareStart);
    ViaStep(s, via, killed, preparing, Spawn(1, PrepareStart), r);
    NextKeepsInv(killed, preparing, Spawn(1, PrepareStart), r);
    var _, prepared := PrepareGoesThrough(preparing, 1, r);
    ViaAlone(s, via, preparing, prepared, 1, r);
    var restoring := prepared.Go(2, RollbackStart);
    ViaStep(s, via, prepared, restoring, Spawn(2, RollbackStart), r);
    NextKeepsInv(prepared, restoring, Spawn(2, RollbackStart), r);
    RestartCompletes(restoring, 2, r);
    var t :| Alone(restoring, t, 2, r) && t.dir.done.Some?;
    ViaAlone(s, via, restoring, t, 2, r);
    states, steps := ViaIsRun(s, via, t, r);
  }

  lemma EmptyIsGood(s: System, r: Receipt)
    requires s.dir == EMPTY_DIR && s.lock.None? && s.procs == map[] && s.copies == {}
    ensures Inv(s, r)
  {
  }

  lemma ViaIsRun(s: System, via: Step, t: System, r: Receipt) returns (states: seq<System>, steps: seq<Step>)
    requires Init(s) && Via(s, via, t, r) && t.dir.done.Some?
    ensures Run(states, steps, r) && states[0] == s && via in steps && states[|steps|].dir.done == Some(r)
  {
    steps :| Leads(s, steps, t, r) && via in steps;
    states := LeadsIsRun(s, steps, t, r);
    RunKeepsInv(states, steps, r, |steps|);
  }
}
