/**
 * The re-entrant, cross-process lock on one path: an in-process recursive lock, a lock on an
 * open file, and a depth table per thread. Any number of processes and threads, any nesting,
 * timeouts and failures at every step, and processes killed at any point.
 */
module FileLocks {
  import opened Basics

  type Process = nat
  type FileId = nat

  datatype ThreadId = ThreadId(process: Process, number: nat)

  datatype Mode = Shared | Exclusive

  /** One call of file_lock, from its entry to its exit. */
  datatype Frame =
    | Entering(mode: Mode)               // waits for the in-process lock
    | Looking(mode: Mode)                // holds it; about to read the depth table
    | Acquiring(mode: Mode, file: FileId) // the outermost call: its file is open
    | Outer(mode: Mode, file: FileId)    // inside the block of an outermost call
    | Nested(mode: Mode)                 // inside the block of a nested call
    | Leaving(file: FileId)              // depth entry removed
    | Closing(file: FileId)              // OS lock released, or the release failed
    | Exiting                            // only the in-process lock is left to release

  predicate Inside(f: Frame) {
    f.Outer? || f.Nested?
  }

  datatype Entry = Entry(depth: nat, file: FileId)

  datatype Thread = Thread(frames: seq<Frame>, entry: Option<Entry>)

  datatype Owner = Owner(thread: ThreadId, count: nat)

  /** An open file and the thread that opened it; acquired and unlocked count the calls made on it. */
  datatype File = File(thread: ThreadId, open: bool, mode: Option<Mode>, acquired: nat, unlocked: nat, killed: bool)

  datatype System = System(
    windows: bool,
    threads: map<ThreadId, Thread>,
    rlocks: map<Process, Owner>,
    files: map<FileId, File>)

  const IDLE: Thread := Thread([], None)

  function ThreadOf(s: System, t: ThreadId): Thread {
    if t in s.threads then s.threads[t] else IDLE
  }

  function Holds(s: System, t: ThreadId): nat {
    if t.process in s.rlocks && s.rlocks[t.process].thread == t then s.rlocks[t.process].count else 0
  }

  /** msvcrt has no shared lock. */
  function OsMode(windows: bool, mode: Mode): Mode {
    if windows then Exclusive else mode
  }

  predicate Compatible(s: System, file: FileId, mode: Mode) {
    forall f :: f in s.files && f != file ==>
      !(s.files[f].mode == Some(Exclusive)) && (mode.Exclusive? ==> s.files[f].mode.None?)
  }

  // -------------------------------------------------------------------- steps

  datatype Step =
    | Enter(t: ThreadId, mode: Mode)
    | TakeProcessLock(t: ThreadId)
    | ProcessLockTimesOut(t: ThreadId)
    | Look(t: ThreadId, file: FileId)
    | OpenFails(t: ThreadId)
    | TakeFile(t: ThreadId)
    | AcquireFails(t: ThreadId)         // timeout, error or interrupt
    | LeaveBlock(t: ThreadId)           // normally or by an exception
    | Unlock(t: ThreadId, works: bool)
    | Close(t: ThreadId)
    | ReleaseProcessLock(t: ThreadId)
    | Kill(process: Process)

  function Top(th: Thread): Option<Frame> {
    if th.frames == [] then None else Some(th.frames[|th.frames| - 1])
  }

  function SetTop(th: Thread, f: Frame): Thread
    requires th.frames != []
  {
    th.(frames := th.frames[|th.frames| - 1 := f])
  }

  function Pop(th: Thread): Thread
    requires th.frames != []
  {
    th.(frames := th.frames[..|th.frames| - 1])
  }

  function WithThread(s: System, t: ThreadId, th: Thread): System {
    s.(threads := s.threads[t := th])
  }

  function Next(s: System, step: Step): Option<System> {
    match step
    case Enter(t, mode) =>
      var th := ThreadOf(s, t);
      if th.frames == [] || Inside(Top(th).value)
      then Some(WithThread(s, t, th.(frames := th.frames + [Entering(mode)]))) else None
    case TakeProcessLock(t) =>
      var th := ThreadOf(s, t);
      if Top(th).Some? && Top(th).value.Entering? && (t.process !in s.rlocks || s.rlocks[t.process].thread == t)
      then Some(WithThread(s, t, SetTop(th, Looking(Top(th).value.mode)))
                .(rlocks := s.rlocks[t.process := Owner(t, Holds(s, t) + 1)])) else None
    case ProcessLockTimesOut(t) =>
      var th := ThreadOf(s, t);
      if Top(th).Some? && Top(th).value.Entering? then Some(WithThread(s, t, Pop(th))) else None
    case Look(t, file) =>
      var th := ThreadOf(s, t);
      if !(Top(th).Some? && Top(th).value.Looking?) then None
      else if th.entry.Some? then
        Some(WithThread(s, t, SetTop(th, Nested(Top(th).value.mode)).(entry := Some(Entry(th.entry.value.depth + 1, th.entry.value.file)))))
      else if file !in s.files then
        Some(WithThread(s, t, SetTop(th, Acquiring(Top(th).value.mode, file)))
             .(files := s.files[file := File(t, true, None, 0, 0, false)]))
      else None
    case OpenFails(t) =>
      var th := ThreadOf(s, t);
      if Top(th).Some? && Top(th).value.Looking? && th.entry.None? then Some(WithThread(s, t, SetTop(th, Exiting))) else None
    case TakeFile(t) =>
      var th := ThreadOf(s, t);
      if !(Top(th).Some? && Top(th).value.Acquiring?) then None
      else
        var Acquiring(mode, file) := Top(th).value;
        if file in s.files && Compatible(s, file, OsMode(s.windows, mode)) then
          var f := s.files[file];
          Some(WithThread(s, t, SetTop(th, Outer(mode, file)).(entry := Some(Entry(1, file))))
               .(files := s.files[file := f.(mode := Some(OsMode(s.windows, mode)), acquired := f.acquired + 1)]))
        else None
    case AcquireFails(t) =>
      var th := ThreadOf(s, t);
      if Top(th).Some? && Top(th).value.Acquiring? && Top(th).value.file in s.files then
        var file := Top(th).value.file;
        Some(WithThread(s, t, SetTop(th, Exiting)).(files := s.files[file := s.files[file].(open := false, mode := None)]))
      else None
    case LeaveBlock(t) =>
      var th := ThreadOf(s, t);
      if !(Top(th).Some? && Inside(Top(th).value)) then None
      else if Top(th).value.Outer? then Some(WithThread(s, t, SetTop(th, Leaving(Top(th).value.file)).(entry := None)))
      else if th.entry.None? then None
      else
        var Entry(depth, file) := th.entry.value;
        Some(WithThread(s, t, SetTop(th, Exiting).(entry := if depth <= 1 then None else Some(Entry(depth - 1, file)))))
    case Unlock(t, works) =>
      var th := ThreadOf(s, t);
      if Top(th).Some? && Top(th).value.Leaving? && Top(th).value.file in s.files then
        var file := Top(th).value.file;
        var f := s.files[file];
        Some(WithThread(s, t, SetTop(th, Closing(file)))
             .(files := s.files[file := f.(mode := if works then None else f.mode, unlocked := f.unlocked + 1)]))
      else None
    case Close(t) =>
      var th := ThreadOf(s, t);
      if Top(th).Some? && Top(th).value.Closing? && Top(th).value.file in s.files then
        var file := Top(th).value.file;
        Some(WithThread(s, t, SetTop(th, Exiting)).(files := s.files[file := s.files[file].(open := false, mode := None)]))
      else None
    case ReleaseProcessLock(t) =>
      var th := ThreadOf(s, t);
      if Top(th).Some? && Top(th).value.Exiting? && Holds(s, t) > 0 then
        Some(WithThread(s, t, Pop(th))
             .(rlocks := if Holds(s, t) == 1 then s.rlocks - {t.process} else s.rlocks[t.process := Owner(t, Holds(s, t) - 1)]))
      else None
    case Kill(p) =>
      Some(s.(threads := map t | t in s.threads && t.process != p :: s.threads[t],
              rlocks := s.rlocks - {p},
              files := map f | f in s.files :: if s.files[f].thread.process == p && s.files[f].open
                                               then s.files[f].(open := false, mode := None, killed := true) else s.files[f]))
  }

  // ---------------------------------------------------------------- invariant

  /** Only the last call can be outside its block, and only the first one deals with the file. */
  predicate Stacked(frames: seq<Frame>) {
    && (forall i :: 0 <= i < |frames| - 1 ==> Inside(frames[i]))
    && (forall i :: 0 < i < |frames| ==> frames[i].Entering? || frames[i].Looking? || frames[i].Nested? || frames[i].Exiting?)
    && (frames != [] ==> !frames[0].Nested?)
  }

  /** How many blocks are open: all but perhaps the last. */
  function Depth(frames: seq<Frame>): nat {
    if frames == [] then 0 else |frames| - if Inside(frames[|frames| - 1]) then 0 else 1
  }

  /** How often the in-process lock is held: by all but a last call that still waits for it. */
  function Count(frames: seq<Frame>): nat {
    if frames == [] then 0 else |frames| - if frames[|frames| - 1].Entering? then 1 else 0
  }

  predicate EntryGood(th: Thread) {
    th.entry == if th.frames != [] && th.frames[0].Outer? then Some(Entry(Depth(th.frames), th.frames[0].file)) else None
  }

  /** What a thread's first call knows of its file. */
  predicate FileGood(windows: bool, t: ThreadId, f: Frame, file: File) {
    && file.open && file.thread == t && !file.killed
    && match f
       case Acquiring(_, _) => file.mode.None? && file.acquired == 0 && file.unlocked == 0
       case Outer(mode, _) => file.mode == Some(OsMode(windows, mode)) && file.acquired == 1 && file.unlocked == 0
       case Leaving(_) => file.acquired == 1 && file.unlocked == 0
       case Closing(_) => file.acquired == 1 && file.unlocked == 1
       case _ => false
  }

  /** A file no call deals with: closed, and unlocked as often as it was locked. */
  predicate FileDone(file: File) {
    !file.open && file.mode.None? && file.acquired <= 1 && (file.killed || file.unlocked == file.acquired)
  }

  predicate ThreadGood(windows: bool, t: ThreadId, th: Thread, holds: nat, files: map<FileId, File>) {
    match th
    case Thread(frames, _) =>
      && Stacked(frames) && EntryGood(th) && holds == Count(frames)
      && (frames != [] && HasFile(frames[0]) ==>
            frames[0].file in files && FileGood(windows, t, frames[0], files[frames[0].file]))
  }

  predicate HasFile(f: Frame) {
    f.Acquiring? || f.Outer? || f.Leaving? || f.Closing?
  }

  predicate Good(s: System, t: ThreadId) {
    ThreadGood(s.windows, t, ThreadOf(s, t), Holds(s, t), s.files)
  }

  predicate Dealing(s: System, t: ThreadId, file: FileId) {
    var frames := ThreadOf(s, t).frames;
    frames != [] && HasFile(frames[0]) && frames[0].file == file
  }

  ghost predicate Exclusion(s: System) {
    forall f, g :: f in s.files && g in s.files && f != g && s.files[f].mode == Some(Exclusive) ==> s.files[g].mode.None?
  }

  ghost predicate FilesAccounted(s: System) {
    forall file :: file in s.files ==> FileDone(s.files[file]) || Dealing(s, s.files[file].thread, file)
  }

  ghost predicate LocksOwned(s: System) {
    forall p :: p in s.rlocks ==> s.rlocks[p].count > 0 && s.rlocks[p].thread.process == p
  }

  ghost predicate Inv(s: System) {
    && (forall t :: Good(s, t))
    && FilesAccounted(s) && LocksOwned(s) && Exclusion(s)
  }

  /** Threads other than t, and the files they opened, are as before. */
  ghost predicate OnlyTouches(s: System, s': System, t: ThreadId) {
    && s'.windows == s.windows
    && (forall u :: u != t ==> ThreadOf(s', u) == ThreadOf(s, u) && Holds(s', u) == Holds(s, u))
    && (forall f :: f in s.files ==> f in s'.files && s'.files[f].thread == s.files[f].thread)
    && (forall f :: f in s.files && s.files[f].thread != t ==> s'.files[f] == s.files[f])
    && (forall f :: f in s'.files && f !in s.files ==> s'.files[f].thread == t)
  }

  /** A step of one thread keeps the invariant if that thread and its files are in order after it. */
  lemma StepOfOneThread(s: System, s': System, t: ThreadId)
    requires Inv(s) && OnlyTouches(s, s', t)
    requires Good(s', t) && LocksOwned(s') && Exclusion(s')
    requires forall f :: f in s'.files && s'.files[f].thread == t ==> FileDone(s'.files[f]) || Dealing(s', t, f)
    ensures Inv(s')
  {
    hide FileDone, Stacked, EntryGood, Exclusion, LocksOwned, Holds, Count, Depth, ThreadOf, Next;
    forall u
      ensures Good(s', u)
    {
      assert Good(s, u);
    }
    forall file | file in s'.files && s'.files[file].thread != t
      ensures FileDone(s'.files[file]) || Dealing(s', s'.files[file].thread, file)
    {
      assert file in s.files;
      assert FileDone(s.files[file]) || Dealing(s, s.files[file].thread, file);
    }
  }

  lemma EnterKeepsInv(s: System, s': System, t: ThreadId, mode: Mode)
    requires Inv(s) && Next(s, Enter(t, mode)) == Some(s')
    ensures Inv(s')
  {
    assert Good(s, t);
    StepOfOneThread(s, s', t);
  }

  lemma TakeProcessLockKeepsInv(s: System, s': System, t: ThreadId)
    requires Inv(s) && Next(s, TakeProcessLock(t)) == Some(s')
    ensures Inv(s')
  {
    assert Good(s, t);
    StepOfOneThread(s, s', t);
  }

  lemma ProcessLockTimesOutKeepsInv(s: System, s': System, t: ThreadId)
    requires Inv(s) && Next(s, ProcessLockTimesOut(t)) == Some(s')
    ensures Inv(s')
  {
    assert Good(s, t);
    StepOfOneThread(s, s', t);
  }

  lemma LookKeepsInv(s: System, s': System, t: ThreadId, file: FileId)
    requires Inv(s) && Next(s, Look(t, file)) == Some(s')
    ensures Inv(s')
  {
    assert Good(s, t);
    StepOfOneThread(s, s', t);
  }

  lemma OpenFailsKeepsInv(s: System, s': System, t: ThreadId)
    requires Inv(s) && Next(s, OpenFails(t)) == Some(s')
    ensures Inv(s')
  {
    assert Good(s, t);
    StepOfOneThread(s, s', t);
  }

  lemma TakeFileKeepsInv(s: System, s': System, t: ThreadId)
    requires Inv(s) && Next(s, TakeFile(t)) == Some(s')
    ensures Inv(s')
  {
    assert Good(s, t);
    StepOfOneThread(s, s', t);
  }

  lemma AcquireFailsKeepsInv(s: System, s': System, t: ThreadId)
    requires Inv(s) && Next(s, AcquireFails(t)) == Some(s')
    ensures Inv(s')
  {
    assert Good(s, t);
    StepOfOneThread(s, s', t);
  }

  lemma LeaveBlockKeepsInv(s: System, s': System, t: ThreadId)
    requires Inv(s) && Next(s, LeaveBlock(t)) == Some(s')
    ensures Inv(s')
  {
    assert Good(s, t);
    StepOfOneThread(s, s', t);
  }

  lemma UnlockKeepsInv(s: System, s': System, t: ThreadId, works: bool)
    requires Inv(s) && Next(s, Unlock(t, works)) == Some(s')
    ensures Inv(s')
  {
    assert Good(s, t);
    StepOfOneThread(s, s', t);
  }

  lemma CloseKeepsInv(s: System, s': System, t: ThreadId)
    requires Inv(s) && Next(s, Close(t)) == Some(s')
    ensures Inv(s')
  {
    assert Good(s, t);
    StepOfOneThread(s, s', t);
  }

  lemma ReleaseProcessLockKeepsInv(s: System, s': System, t: ThreadId)
    requires Inv(s) && Next(s, ReleaseProcessLock(t)) == Some(s')
    ensures Inv(s')
  {
    assert Good(s, t);
    StepOfOneThread(s, s', t);
  }

  lemma KillKeepsInv(s: System, s': System, p: Process)
    requires Inv(s) && Next(s, Kill(p)) == Some(s')
    ensures Inv(s')
  {
    forall t
      ensures Good(s', t)
    {
      assert Good(s, t);
    }
    forall file | file in s'.files
      ensures FileDone(s'.files[file]) || Dealing(s', s'.files[file].thread, file)
    {
      assert Good(s, s.files[file].thread);
    }
  }

  // ------------------------------------------------------------------ all runs

  lemma NextKeepsInv(s: System, s': System, step: Step)
    requires Inv(s) && Next(s, step) == Some(s')
    ensures Inv(s')
  {
    hide Inv, Next;
    match step {
      case Enter(t, mode) => EnterKeepsInv(s, s', t, mode);
      case TakeProcessLock(t) => TakeProcessLockKeepsInv(s, s', t);
      case ProcessLockTimesOut(t) => ProcessLockTimesOutKeepsInv(s, s', t);
      case Look(t, file) => LookKeepsInv(s, s', t, file);
      case OpenFails(t) => OpenFailsKeepsInv(s, s', t);
      case TakeFile(t) => TakeFileKeepsInv(s, s', t);
      case AcquireFails(t) => AcquireFailsKeepsInv(s, s', t);
      case LeaveBlock(t) => LeaveBlockKeepsInv(s, s', t);
      case Unlock(t, works) => UnlockKeepsInv(s, s', t, works);
      case Close(t) => CloseKeepsInv(s, s', t);
      case ReleaseProcessLock(t) => ReleaseProcessLockKeepsInv(s, s', t);
      case Kill(p) => KillKeepsInv(s, s', p);
    }
  }

  predicate Init(s: System) {
    s.threads == map[] && s.rlocks == map[] && s.files == map[]
  }

  ghost predicate Run(states: seq<System>, steps: seq<Step>) {
    && |states| == |steps| + 1
    && Init(states[0])
    && forall n :: 0 <= n < |steps| ==> Next(states[n], steps[n]) == Some(states[n + 1])
  }

  lemma {:induction false} RunKeepsInv(states: seq<System>, steps: seq<Step>, n: nat)
    requires Run(states, steps) && n < |states|
    ensures Inv(states[n])
  {
    hide Next;
    if n > 0 {
      RunKeepsInv(states, steps, n - 1);
      NextKeepsInv(states[n - 1], states[n], steps[n - 1]);
    }
  }

  /** The i-th nested block of a thread is open, and was asked for in this mode. */
  predicate Open(s: System, t: ThreadId, i: nat, mode: Mode) {
    var frames := ThreadOf(s, t).frames;
    i < |frames| && Inside(frames[i]) && frames[i].mode == mode
  }

  /** A thread asked for an exclusive block inside a shared one. */
  predicate Upgraded(s: System, t: ThreadId, i: nat) {
    i > 0 && Open(s, t, 0, Shared) && Open(s, t, i, Exclusive)
  }

  /**
   * Exclusive blocks never overlap another thread's block, in any process, unless the exclusive
   * request was nested inside a shared one; on Windows, and within one process, not even then.
   */
  lemma ExclusiveMeansAlone(states: seq<System>, steps: seq<Step>, n: nat, t: ThreadId, u: ThreadId, i: nat, j: nat, mode: Mode)
    requires Run(states, steps) && n < |states| && t != u
    requires Open(states[n], t, i, Exclusive) && Open(states[n], u, j, mode)
    ensures Upgraded(states[n], t, i) && !states[n].windows && t.process != u.process
  {
    hide Next;
    RunKeepsInv(states, steps, n);
    var s := states[n];
    assert Good(s, t) && Good(s, u);
    var f, g := ThreadOf(s, t).frames[0], ThreadOf(s, u).frames[0];
    assert f.Outer? && g.Outer?;
    assert Holds(s, t) > 0 && Holds(s, u) > 0;
    assert s.files[f.file].thread == t && s.files[g.file].thread == u;
  }

  /** Blocks of two threads of one process never overlap, not even shared ones. */
  lemma ProcessLockSerialises(states: seq<System>, steps: seq<Step>, n: nat, t: ThreadId, u: ThreadId, i: nat, j: nat, a: Mode, b: Mode)
    requires Run(states, steps) && n < |states| && t.process == u.process
    requires Open(states[n], t, i, a) && Open(states[n], u, j, b)
    ensures t == u
  {
    hide Next;
    RunKeepsInv(states, steps, n);
    assert Good(states[n], t) && Good(states[n], u);
    assert Holds(states[n], t) > 0 && Holds(states[n], u) > 0;
  }

  // ------------------------------------------------------------- bookkeeping

  function OpenScopes(frames: seq<Frame>): nat {
    if frames == [] then 0
    else OpenScopes(frames[..|frames| - 1]) + if Inside(frames[|frames| - 1]) then 1 else 0
  }

  function CallsPastProcessLock(frames: seq<Frame>): nat {
    if frames == [] then 0
    else CallsPastProcessLock(frames[..|frames| - 1]) + if frames[|frames| - 1].Entering? then 0 else 1
  }

  lemma {:induction false} CountsOfStack(frames: seq<Frame>)
    requires Stacked(frames)
    ensures OpenScopes(frames) == Depth(frames) && CallsPastProcessLock(frames) == Count(frames)
  {
    if frames != [] {
      var below := frames[..|frames| - 1];
      CountsOfStack(below);
      assert below != [] ==> Inside(below[|below| - 1]);
    }
  }

  /**
   * The depth table has an entry exactly while a block is open, and its depth is the number of
   * open blocks; the in-process lock is held once for every call that has passed it.
   */
  lemma TableCountsScopes(states: seq<System>, steps: seq<Step>, n: nat, t: ThreadId)
    requires Run(states, steps) && n < |states|
    ensures var th := ThreadOf(states[n], t);
      && (th.entry.Some? <==> OpenScopes(th.frames) > 0)
      && (th.entry.Some? ==> th.entry.value.depth == OpenScopes(th.frames))
      && Holds(states[n], t) == CallsPastProcessLock(th.frames)
      && (th.frames != [] && Inside(Top(th).value) ==> th.entry.Some? && Holds(states[n], t) == th.entry.value.depth)
  {
    hide Next;
    RunKeepsInv(states, steps, n);
    assert Good(states[n], t);
    CountsOfStack(ThreadOf(states[n], t).frames);
  }

  /** A nested exit always leaves an entry behind: its "depth == 1" branch is never taken. */
  lemma NestedExitKeepsTheEntry(states: seq<System>, steps: seq<Step>, n: nat, t: ThreadId)
    requires Run(states, steps) && n < |states|
    requires Top(ThreadOf(states[n], t)).Some? && Top(ThreadOf(states[n], t)).value.Nested?
    ensures ThreadOf(states[n], t).entry.Some? && ThreadOf(states[n], t).entry.value.depth >= 2
  {
    hide Next;
    RunKeepsInv(states, steps, n);
    assert Good(states[n], t);
  }

  /**
   * Whatever failed on the way: once a thread has left all its calls, it holds nothing, and every
   * file it opened is closed and was unlocked exactly if it had been locked, and then once.
   */
  lemma NothingIsLeftBehind(states: seq<System>, steps: seq<Step>, n: nat, t: ThreadId, file: FileId)
    requires Run(states, steps) && n < |states| && ThreadOf(states[n], t).frames == []
    requires file in states[n].files && states[n].files[file].thread == t
    ensures ThreadOf(states[n], t).entry.None? && Holds(states[n], t) == 0
    ensures FileDone(states[n].files[file])
  {
    hide Next;
    RunKeepsInv(states, steps, n);
    assert Good(states[n], t);
  }

  /** Every exit can go on to its end: no step of it waits for anyone. */
  lemma ExitNeverWaits(states: seq<System>, steps: seq<Step>, n: nat, t: ThreadId, works: bool)
    requires Run(states, steps) && n < |states| && Top(ThreadOf(states[n], t)).Some?
    ensures match Top(ThreadOf(states[n], t)).value
      case Outer(_, _) => Next(states[n], LeaveBlock(t)).Some?
      case Nested(_) => Next(states[n], LeaveBlock(t)).Some?
      case Leaving(_) => Next(states[n], Unlock(t, works)).Some?
      case Closing(_) => Next(states[n], Close(t)).Some?
      case Exiting => Next(states[n], ReleaseProcessLock(t)).Some?
      case _ => true
  {
    RunKeepsInv(states, steps, n) by { hide Next; }
    assert Good(states[n], t);
  }

  // ---------------------------------------------------------- the one exception

  /** One uncontended call of file_lock, seen from the thread that makes it: an outermost or a nested one. */
  ghost predicate Calls(s: System, t: ThreadId, mode: Mode, file: FileId, path: seq<System>) {
    && |path| == (if ThreadOf(s, t).frames == [] then 5 else 4) && path[0] == s
    && Next(s, Enter(t, mode)) == Some(path[1])
    && Next(path[1], TakeProcessLock(t)) == Some(path[2])
    && Next(path[2], Look(t, file)) == Some(path[3])
    && (|path| == 5 ==> Next(path[3], TakeFile(t)) == Some(path[4]))
    && var s' := path[|path| - 1];
    && s'.windows == s.windows
    && (forall u :: u != t ==> ThreadOf(s', u) == ThreadOf(s, u))
    && Open(s', t, |ThreadOf(s, t).frames|, mode)
    && (forall i, m :: Open(s, t, i, m) ==> Open(s', t, i, m))
    && ThreadOf(s', t).entry.Some? && |ThreadOf(s', t).frames| == |ThreadOf(s, t).frames| + 1
    && t.process in s'.rlocks && s'.rlocks[t.process].thread == t
  }

  ghost predicate OthersStay(s: System, s': System, t: ThreadId) {
    s'.windows == s.windows && forall u :: u != t ==> ThreadOf(s', u) == ThreadOf(s, u)
  }

  lemma TakesProcessLock(s: System, t: ThreadId, mode: Mode) returns (a: System, b: System)
    requires ThreadOf(s, t) == IDLE && t.process !in s.rlocks
    ensures Next(s, Enter(t, mode)) == Some(a) && Next(a, TakeProcessLock(t)) == Some(b)
    ensures OthersStay(s, b, t) && b.files == s.files && ThreadOf(b, t) == Thread([Looking(mode)], None)
    ensures t.process in b.rlocks && b.rlocks[t.process].thread == t
  {
    a := Next(s, Enter(t, mode)).value;
    b := Next(a, TakeProcessLock(t)).value;
  }

  lemma TakesFile(b: System, t: ThreadId, mode: Mode, file: FileId) returns (c: System, d: System)
    requires ThreadOf(b, t) == Thread([Looking(mode)], None) && file !in b.files
    requires Compatible(b, file, OsMode(b.windows, mode))
    ensures Next(b, Look(t, file)) == Some(c) && Next(c, TakeFile(t)) == Some(d)
    ensures OthersStay(b, d, t) && ThreadOf(d, t) == Thread([Outer(mode, file)], Some(Entry(1, file))) && d.rlocks == b.rlocks
  {
    c := Next(b, Look(t, file)).value;
    d := Next(c, TakeFile(t)).value;
  }

  lemma OutermostCall(s: System, t: ThreadId, mode: Mode, file: FileId)
    requires ThreadOf(s, t) == IDLE && t.process !in s.rlocks && file !in s.files
    requires Compatible(s, file, OsMode(s.windows, mode))
    ensures exists path :: Calls(s, t, mode, file, path)
  {
    hide Next;
    var a, b := TakesProcessLock(s, t, mode);
    var c, d := TakesFile(b, t, mode, file);
    assert Calls(s, t, mode, file, [s, a, b, c, d]);
  }

  lemma NestedCall(s: System, t: ThreadId, mode: Mode, file: FileId)
    requires ThreadOf(s, t).frames != [] && Inside(Top(ThreadOf(s, t)).value) && ThreadOf(s, t).entry.Some?
    requires t.process in s.rlocks && s.rlocks[t.process].thread == t
    ensures exists path :: Calls(s, t, mode, file, path)
  {
    var a := Next(s, Enter(t, mode)).value;
    var b := Next(a, TakeProcessLock(t)).value;
    var c := Next(b, Look(t, file)).value;
    assert Calls(s, t, mode, file, [s, a, b, c]);
  }

  lemma EnteredIdle(s: System, a: System, b: System, t: ThreadId, mode: Mode)
    requires ThreadOf(s, t) == IDLE && Next(s, Enter(t, mode)) == Some(a) && Next(a, TakeProcessLock(t)) == Some(b)
    ensures t.process !in s.rlocks || s.rlocks[t.process].thread == t
    ensures b.files == s.files && b.windows == s.windows && ThreadOf(b, t) == Thread([Looking(mode)], None)
  {
  }

  lemma TookFile(b: System, c: System, d: System, t: ThreadId, mode: Mode, file: FileId)
    requires ThreadOf(b, t) == Thread([Looking(mode)], None) && file !in b.files
    requires Next(b, Look(t, file)) == Some(c) && Next(c, TakeFile(t)) == Some(d)
    ensures Compatible(b, file, OsMode(b.windows, mode))
  {
    assert c.files == b.files[file := File(t, true, None, 0, 0, false)];
    assert Compatible(c, file, OsMode(b.windows, mode));
    forall f | f in b.files && f != file
      ensures f in c.files && c.files[f] == b.files[f]
    {
    }
  }

  /**
   * An idle thread that nobody disturbs gets its block exactly if no thread of its process holds the
   * in-process lock, no file is locked exclusively, and, for an exclusive block or on Windows, none
   * is locked at all.
   */
  lemma CallPassesExactly(s: System, t: ThreadId, mode: Mode, file: FileId)
    requires Inv(s) && ThreadOf(s, t) == IDLE && file !in s.files
    ensures (exists path :: Calls(s, t, mode, file, path)) <==>
      && t.process !in s.rlocks
      && forall f :: f in s.files ==> s.files[f].mode != Some(Exclusive) && (mode == Exclusive || s.windows ==> s.files[f].mode == None)
  {
    assert Good(s, t) && LocksOwned(s);
    hide Next, Good;
    if path: seq<System> :| Calls(s, t, mode, file, path) {
      EnteredIdle(s, path[1], path[2], t, mode);
      TookFile(path[2], path[3], path[4], t, mode, file);
      assert Compatible(s, file, OsMode(s.windows, mode));
      if t.process in s.rlocks { IdleHoldsNothing(s, t); }
    }
    if t.process !in s.rlocks && forall f :: f in s.files ==>
         s.files[f].mode != Some(Exclusive) && (mode == Exclusive || s.windows ==> s.files[f].mode == None) {
      assert Compatible(s, file, OsMode(s.windows, mode));
      OutermostCall(s, t, mode, file);
    }
  }

  lemma IdleHoldsNothing(s: System, t: ThreadId)
    requires Good(s, t) && LocksOwned(s) && ThreadOf(s, t) == IDLE && t.process in s.rlocks
    ensures s.rlocks[t.process].thread != t
  {
  }

  /** The steps of one thread alone: nobody else's stack, lock or file changes. */
  ghost predicate Steps(s: System, steps: seq<Step>, s': System)
    decreases |steps|
  {
    if steps == [] then s == s'
    else exists m :: Next(s, steps[0]) == Some(m) && Steps(m, steps[1..], s')
  }

  lemma FirstStep(s: System, m: System, step: Step, rest: seq<Step>, s': System)
    requires Next(s, step) == Some(m) && Steps(m, rest, s')
    ensures Steps(s, [step] + rest, s')
  {
    hide Next;
    assert ([step] + rest)[1..] == rest;
  }

  lemma NoStep(s: System)
    ensures Steps(s, [], s)
  {
  }

  /** The thread has left its calls; of everything else only the file may have changed. */
  ghost predicate BackOut(s: System, s': System, t: ThreadId, file: FileId, closed: File) {
    && s'.windows == s.windows && ThreadOf(s', t) == IDLE && t.process !in s'.rlocks
    && (forall u :: u != t ==> ThreadOf(s', u) == ThreadOf(s, u))
    && (forall p :: p != t.process ==> (p in s'.rlocks <==> p in s.rlocks) && (p in s.rlocks ==> s'.rlocks[p] == s.rlocks[p]))
    && s'.files == s.files[file := closed]
  }

  lemma ReleasesProcessLock(s: System, t: ThreadId) returns (s': System)
    requires ThreadOf(s, t) == Thread([Exiting], None) && Holds(s, t) == 1
    ensures Next(s, ReleaseProcessLock(t)) == Some(s')
    ensures s'.files == s.files && BackOutLock(s, s', t)
  {
    s' := Next(s, ReleaseProcessLock(t)).value;
  }

  ghost predicate BackOutLock(s: System, s': System, t: ThreadId) {
    && s'.windows == s.windows && ThreadOf(s', t) == IDLE && s'.rlocks == s.rlocks - {t.process}
    && (forall u :: u != t ==> ThreadOf(s', u) == ThreadOf(s, u))
  }

  lemma FileIsReleased(s: System, t: ThreadId, works: bool) returns (a: System, b: System, c: System)
    requires Inv(s) && |ThreadOf(s, t).frames| == 1 && ThreadOf(s, t).frames[0].Outer?
    ensures Next(s, LeaveBlock(t)) == Some(a) && Next(a, Unlock(t, works)) == Some(b) && Next(b, Close(t)) == Some(c)
    ensures OthersStay(s, c, t) && ThreadOf(c, t) == Thread([Exiting], None) && c.rlocks == s.rlocks
    ensures c.files == s.files[ThreadOf(s, t).frames[0].file := File(t, false, None, 1, 1, false)]
  {
    assert Good(s, t);
    a := Next(s, LeaveBlock(t)).value;
    b := Next(a, Unlock(t, works)).value;
    c := Next(b, Close(t)).value;
  }

  /**
   * Left in four steps, an outermost block leaves its file closed, unlocked once, and nothing else
   * behind, whether or not the unlock itself worked.
   */
  lemma BlockIsLeft(s: System, t: ThreadId, works: bool) returns (s': System)
    requires Inv(s) && |ThreadOf(s, t).frames| == 1 && ThreadOf(s, t).frames[0].Outer?
    ensures Steps(s, [LeaveBlock(t), Unlock(t, works), Close(t), ReleaseProcessLock(t)], s')
    ensures BackOut(s, s', t, ThreadOf(s, t).frames[0].file, File(t, false, None, 1, 1, false))
  {
    var a, b, c := FileIsReleased(s, t, works);
    HeldOnce(s, t);
    hide Next, Inv;
    s' := ReleasesProcessLock(c, t);
    FourSteps(s, a, b, c, s', LeaveBlock(t), Unlock(t, works), Close(t), ReleaseProcessLock(t));
  }

  lemma HeldOnce(s: System, t: ThreadId)
    requires Inv(s) && |ThreadOf(s, t).frames| == 1 && !ThreadOf(s, t).frames[0].Entering?
    ensures Holds(s, t) == 1
  {
    assert Good(s, t);
  }

  lemma FourSteps(s: System, a: System, b: System, c: System, s': System, w: Step, x: Step, y: Step, z: Step)
    requires Next(s, w) == Some(a) && Next(a, x) == Some(b) && Next(b, y) == Some(c) && Next(c, z) == Some(s')
    ensures Steps(s, [w, x, y, z], s')
  {
    hide Next;
    NoStep(s');
    FirstStep(c, s', z, [], s');
    FirstStep(b, c, y, [z], s');
    FirstStep(a, b, x, [y, z], s');
    FirstStep(s, a, w, [x, y, z], s');
  }

  /**
   * What a failure leaves: a wait for the in-process lock that times out leaves nothing at all, a
   * file that cannot be opened no file, and a file that cannot be locked one that was closed and
   * never unlocked.
   */
  lemma FailuresLeaveNothing(s: System, t: ThreadId) returns (s': System)
    requires Inv(s) && |ThreadOf(s, t).frames| == 1
    ensures ThreadOf(s, t).frames[0].Entering? ==>
      Next(s, ProcessLockTimesOut(t)) == Some(s') && s'.files == s.files && s'.rlocks == s.rlocks && ThreadOf(s', t) == IDLE
    ensures ThreadOf(s, t).frames[0].Looking? ==>
      Steps(s, [OpenFails(t), ReleaseProcessLock(t)], s') && s'.files == s.files && BackOutLock(s, s', t)
    ensures ThreadOf(s, t).frames[0].Acquiring? ==>
      && Steps(s, [AcquireFails(t), ReleaseProcessLock(t)], s')
      && BackOut(s, s', t, ThreadOf(s, t).frames[0].file, File(t, false, None, 0, 0, false))
  {
    assert Good(s, t);
    s' := s;
    match ThreadOf(s, t).frames[0] {
      case Entering(_) => s' := Next(s, ProcessLockTimesOut(t)).value;
      case Looking(_) =>
        var m := Next(s, OpenFails(t)).value;
        s' := ReleasesProcessLock(m, t);
        TwoSteps(s, m, s', OpenFails(t), ReleaseProcessLock(t));
      case Acquiring(_, file) =>
        var m := Next(s, AcquireFails(t)).value;
        assert m.files[file] == File(t, false, None, 0, 0, false);
        s' := ReleasesProcessLock(m, t);
        TwoSteps(s, m, s', AcquireFails(t), ReleaseProcessLock(t));
      case _ =>
    }
  }

  lemma TwoSteps(s: System, m: System, s': System, x: Step, y: Step)
    requires Next(s, x) == Some(m) && Next(m, y) == Some(s')
    ensures Steps(s, [x, y], s')
  {
    hide Next;
    NoStep(s');
    FirstStep(m, s', y, [], s');
    FirstStep(s, m, x, [y], s');
  }

  lemma NestedEntered(s: System, t: ThreadId, mode: Mode, file: FileId) returns (a: System, b: System, c: System)
    requires Inv(s) && ThreadOf(s, t).frames != [] && Inside(Top(ThreadOf(s, t)).value)
    ensures Next(s, Enter(t, mode)) == Some(a) && Next(a, TakeProcessLock(t)) == Some(b) && Next(b, Look(t, file)) == Some(c)
    ensures ThreadOf(s, t).entry.Some? && t.process in s.rlocks && s.rlocks[t.process] == Owner(t, Holds(s, t))
    ensures var th := ThreadOf(s, t);
      ThreadOf(c, t) == Thread(th.frames + [Nested(mode)], Some(Entry(th.entry.value.depth + 1, th.entry.value.file)))
    ensures c.files == s.files && c.rlocks == s.rlocks[t.process := Owner(t, Holds(s, t) + 1)]
  {
    assert Good(s, t);
    var th := ThreadOf(s, t);
    a := Next(s, Enter(t, mode)).value;
    assert ThreadOf(a, t).frames == th.frames + [Entering(mode)];
    b := Next(a, TakeProcessLock(t)).value;
    assert ThreadOf(b, t).frames == th.frames + [Looking(mode)];
    c := Next(b, Look(t, file)).value;
    assert ThreadOf(c, t).frames == th.frames + [Nested(mode)];
  }

  lemma NestedExited(c: System, t: ThreadId, frames: seq<Frame>, mode: Mode, depth: nat, file: FileId, count: nat) returns (d: System, s': System)
    requires depth > 0 && count > 0 && ThreadOf(c, t) == Thread(frames + [Nested(mode)], Some(Entry(depth + 1, file)))
    requires t.process in c.rlocks && c.rlocks[t.process] == Owner(t, count + 1)
    ensures Next(c, LeaveBlock(t)) == Some(d) && Next(d, ReleaseProcessLock(t)) == Some(s')
    ensures ThreadOf(s', t) == Thread(frames, Some(Entry(depth, file))) && s'.files == c.files
    ensures s'.rlocks == c.rlocks[t.process := Owner(t, count)]
  {
    d := Next(c, LeaveBlock(t)).value;
    assert ThreadOf(d, t).frames == frames + [Exiting];
    s' := Next(d, ReleaseProcessLock(t)).value;
    assert ThreadOf(s', t).frames == frames;
  }

  /** A nested block, left, takes the depth back to what it was before the call and touches no file. */
  lemma NestedBlockIsLeft(s: System, t: ThreadId, mode: Mode, file: FileId) returns (s': System)
    requires Inv(s) && ThreadOf(s, t).frames != [] && Inside(Top(ThreadOf(s, t)).value)
    ensures Steps(s, [Enter(t, mode), TakeProcessLock(t), Look(t, file), LeaveBlock(t), ReleaseProcessLock(t)], s')
    ensures ThreadOf(s', t) == ThreadOf(s, t) && s'.files == s.files && s'.rlocks == s.rlocks
  {
    var th := ThreadOf(s, t);
    var a, b, c := NestedEntered(s, t, mode, file);
    NestedIsDeep(s, t);
    hide Next, Inv;
    var d;
    d, s' := NestedExited(c, t, th.frames, mode, th.entry.value.depth, th.entry.value.file, Holds(s, t));
    assert s.rlocks[t.process := Owner(t, Holds(s, t))] == s.rlocks;
    FourSteps(a, b, c, d, s', TakeProcessLock(t), Look(t, file), LeaveBlock(t), ReleaseProcessLock(t));
    FirstStep(s, a, Enter(t, mode), [TakeProcessLock(t), Look(t, file), LeaveBlock(t), ReleaseProcessLock(t)], s');
  }

  lemma NestedIsDeep(s: System, t: ThreadId)
    requires Inv(s) && ThreadOf(s, t).frames != [] && Inside(Top(ThreadOf(s, t)).value)
    ensures ThreadOf(s, t).entry.Some? && ThreadOf(s, t).entry.value.depth > 0 && Holds(s, t) > 0
  {
    assert Good(s, t);
  }

  /** Once it has the process lock, a nested call cannot fail: its thread's only step is into the block. */
  lemma NestedCallNeverFails(s: System, t: ThreadId, step: Step)
    requires Inv(s) && |ThreadOf(s, t).frames| > 1 && Top(ThreadOf(s, t)).value.Looking?
    requires !step.Kill? && step.t == t && Next(s, step).Some?
    ensures var th, th' := ThreadOf(s, t), ThreadOf(Next(s, step).value, t);
      && th'.frames == th.frames[..|th.frames| - 1] + [Nested(Top(th).value.mode)]
      && th.entry.Some? && th'.entry == Some(Entry(th.entry.value.depth + 1, th.entry.value.file))
      && Next(s, step).value.files == s.files && Next(s, step).value.rlocks == s.rlocks
  {
    assert Good(s, t);
    assert Inside(ThreadOf(s, t).frames[0]);
    hide Count, Depth;
  }

  /** A killed process has no calls, locks nothing and keeps no file open; the others do not notice. */
  lemma KillFrees(s: System, p: Process)
    ensures Next(s, Kill(p)).Some?
    ensures var s' := Next(s, Kill(p)).value;
      && p !in s'.rlocks && s'.windows == s.windows && s'.files.Keys == s.files.Keys
      && (forall t :: ThreadOf(s', t) == if t.process == p then IDLE else ThreadOf(s, t))
      && (forall q :: q != p ==> (q in s'.rlocks <==> q in s.rlocks) && (q in s.rlocks ==> s'.rlocks[q] == s.rlocks[q]))
      && (forall f :: f in s.files ==>
            if s.files[f].thread.process != p || !s.files[f].open then s'.files[f] == s.files[f]
            else !s'.files[f].open && s'.files[f].mode == None && s'.files[f].killed)
  {
  }

  /**
   * The condition is exact: while a thread has asked for an exclusive block inside a shared one,
   * any idle process can open a shared block beside it.
   */
  lemma UpgradeLetsOthersIn(s: System, t: ThreadId, i: nat, u: ThreadId, file: FileId)
    requires Inv(s) && !s.windows && Upgraded(s, t, i)
    requires ThreadOf(s, u) == IDLE && u.process !in s.rlocks && file !in s.files
    ensures exists path ::
      Calls(s, u, Shared, file, path) && Open(path[4], u, 0, Shared) && Open(path[4], t, i, Exclusive)
  {
    assert Good(s, t);
    OutermostCall(s, u, Shared, file);
    var path :| Calls(s, u, Shared, file, path);
    assert ThreadOf(path[4], t) == ThreadOf(s, t);
  }

  /** And such a state is reached: a shared block, then an exclusive request inside it. */
  lemma UpgradeIsReachable(t: ThreadId, file: FileId)
    ensures exists states: seq<System>, steps: seq<Step> ::
      Run(states, steps) && |states| == 8 && !states[7].windows && Upgraded(states[7], t, 1)
  {
    hide Next;
    var s := System(false, map[], map[], map[]);
    OutermostCall(s, t, Shared, file);
    var first :| Calls(s, t, Shared, file, first);
    NestedCall(first[4], t, Exclusive, file);
    var second :| Calls(first[4], t, Exclusive, file, second);
    var states := first + second[1..];
    var steps := [Enter(t, Shared), TakeProcessLock(t), Look(t, file), TakeFile(t), Enter(t, Exclusive), TakeProcessLock(t), Look(t, file)];
    assert Run(states, steps);
    assert Upgraded(states[7], t, 1);
  }
}
