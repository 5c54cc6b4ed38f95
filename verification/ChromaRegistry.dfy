/**
 * chroma.lock on Windows, for one persist path: the lock is taken once per process and kept
 * in a registry, under a guard that spans acquisition and client initialisation.
 */
module ChromaRegistry {
  import opened Basics

  type Process = nat
  type FileId = nat

  datatype StoreId = StoreId(process: Process, number: nat)

  /** A ChromaStore on its way through _connect and close. */
  datatype Phase =
    | New
    | InGuard
    | Unregistered                               // saw no registration
    | HasFile(file: FileId)                      // took the OS lock, not registered yet
    | Initialising(handle: Option<FileId>, owns: bool) // may already have a client
    | Failing(handle: Option<FileId>, owns: bool)  // client closed, lock not released yet
    | Retracted(file: FileId)                    // registration deleted, OS lock not released yet
    | Live(handle: Option<FileId>, owns: bool)     // initialised
    | Gone

  /** Holds an open client, or may do so. */
  predicate HasClient(p: Phase) {
    p.Initialising? || p.Live?
  }

  predicate UnderGuard(p: Phase) {
    !(p.New? || p.Live? || p.Gone?)
  }

  datatype Lock = Lock(file: FileId, process: Process)

  /** guarded is false for the design without chroma_init_guard. */
  datatype System = System(
    guarded: bool,
    stores: map<StoreId, Phase>,
    guards: map<Process, StoreId>,
    registry: map<Process, FileId>,
    lock: Option<Lock>)

  datatype Step =
    | Create(i: StoreId)
    | EnterGuard(i: StoreId)
    | LookUp(i: StoreId)
    | TakeFile(i: StoreId, file: FileId)
    | Register(i: StoreId)
    | Succeed(i: StoreId)
    | Fail(i: StoreId)          // timeout, error or interrupt; the client, if any, is closed
    | Release(i: StoreId)       // _release_local_lock(initialisation_failed=True)
    | CloseStore(i: StoreId)
    | Kill(process: Process)

  function Put(s: System, i: StoreId, p: Phase): System {
    s.(stores := s.stores[i := p])
  }

  /** The with-block of the guard is left. */
  function Out(s: System, i: StoreId, p: Phase): System {
    Put(s, i, p).(guards := if s.guarded then s.guards - {i.process} else s.guards)
  }

  function Next(s: System, step: Step): Option<System> {
    match step
    case Kill(p) =>
      Some(s.(stores := map i | i in s.stores && i.process != p :: s.stores[i],
              guards := s.guards - {p}, registry := s.registry - {p},
              lock := if s.lock.Some? && s.lock.value.process == p then None else s.lock))
    case Create(i) => if i in s.stores then None else Some(Put(s, i, New))
    case _ =>
      var i := step.i;
      if i !in s.stores then None else NextOf(s, step, i, s.stores[i])
  }

  function NextOf(s: System, step: Step, i: StoreId, phase: Phase): Option<System>
    requires !step.Kill? && !step.Create?
  {
    match (step, phase)
    case (EnterGuard(_), New) =>
      if s.guarded && i.process in s.guards then None
      else Some(Put(s, i, InGuard).(guards := if s.guarded then s.guards[i.process := i] else s.guards))
    case (LookUp(_), InGuard) =>
      Some(Put(s, i, if i.process in s.registry then Initialising(None, false) else Unregistered))
    case (TakeFile(_, file), Unregistered) =>
      if s.lock.Some? then None else Some(Put(s, i, HasFile(file)).(lock := Some(Lock(file, i.process))))
    case (Register(_), HasFile(file)) =>
      if i.process in s.registry then Some(Put(s, i, Initialising(None, false)).(lock := None))
      else Some(Put(s, i, Initialising(Some(file), true)).(registry := s.registry[i.process := file]))
    case (Fail(_), HasFile(_)) => Some(Put(s, i, Failing(None, false)).(lock := None)) // the only reference to the handle is gone
    case (Succeed(_), Initialising(file, owns)) => Some(Out(s, i, Live(file, owns)))
    case (Fail(_), Initialising(file, owns)) => Some(Put(s, i, Failing(file, owns)))
    case (Fail(_), InGuard) => Some(Put(s, i, Failing(None, false)))
    case (Fail(_), Unregistered) => Some(Put(s, i, Failing(None, false)))
    case (Release(_), Failing(file, owns)) =>
      if file.None? || !owns then Some(Out(s, i, Gone))
      else if !(i.process in s.registry && s.registry[i.process] == file.value) then Some(Out(s, i, Gone))
      else Some(Put(s, i, Retracted(file.value)).(registry := s.registry - {i.process}))
    case (Release(_), Retracted(file)) =>
      Some(Out(s, i, Gone).(lock := if s.lock == Some(Lock(file, i.process)) then None else s.lock))
    case (CloseStore(_), Live(_, _)) => Some(Put(s, i, Gone))
    case _ => None
  }

  // ---------------------------------------------------------------- invariant

  /** What holds of a store at its program point, with the guard in place. */
  ghost predicate StoreGood(s: System, i: StoreId, phase: Phase) {
    match phase
    case Unregistered => i.process !in s.registry
    case HasFile(file) => i.process !in s.registry && s.lock == Some(Lock(file, i.process))
    case Initialising(file, owns) =>
      && i.process in s.registry && (owns ==> file == Some(s.registry[i.process]) && NoLive(s, i.process)) && (!owns ==> file.None?)
    case Failing(file, owns) =>
      && (owns ==> i.process in s.registry && file == Some(s.registry[i.process]) && NoLive(s, i.process)) && (!owns ==> file.None?)
    case Retracted(file) => i.process !in s.registry && s.lock == Some(Lock(file, i.process))
    case Live(_, _) => i.process in s.registry
    case _ => true
  }

  ghost predicate NoLive(s: System, p: Process) {
    forall j :: j in s.stores && j.process == p ==> !s.stores[j].Live?
  }

  ghost predicate Inv(s: System) {
    && (forall i :: i in s.stores ==> StoreGood(s, i, s.stores[i]))
    && (forall i :: i in s.stores && UnderGuard(s.stores[i]) ==> i.process in s.guards && s.guards[i.process] == i)
    && (forall p :: p in s.guards ==> s.guards[p].process == p)
    && (forall p :: p in s.registry ==> s.lock == Some(Lock(s.registry[p], p)))
  }

  lemma KillKeepsInv(s: System, s': System, p: Process)
    requires s.guarded && Inv(s) && Next(s, Kill(p)) == Some(s')
    ensures s'.guarded && Inv(s')
  {
    forall i | i in s'.stores
      ensures StoreGood(s', i, s'.stores[i])
    {
      assert StoreGood(s, i, s.stores[i]);
    }
  }

  /** A step of one store leaves every other store's facts alone. */
  lemma OthersStayGood(s: System, s': System, step: Step)
    requires s.guarded && Inv(s) && !step.Kill? && Next(s, step) == Some(s')
    ensures forall j :: j in s.stores && j != step.i ==> StoreGood(s', j, s.stores[j])
    ensures forall j :: j in s'.stores && j != step.i ==> j in s.stores && s'.stores[j] == s.stores[j]
  {
    if step.i in s.stores { assert StoreGood(s, step.i, s.stores[step.i]); }
    forall j | j in s.stores && j != step.i
      ensures StoreGood(s', j, s.stores[j])
    {
      assert StoreGood(s, j, s.stores[j]);
    }
  }

  lemma StepperStaysGood(s: System, s': System, step: Step)
    requires s.guarded && Inv(s) && !step.Kill? && Next(s, step) == Some(s')
    ensures step.i in s'.stores && StoreGood(s', step.i, s'.stores[step.i])
  {
    if step.i in s.stores { assert StoreGood(s, step.i, s.stores[step.i]); }
  }

  lemma GuardsStayGood(s: System, s': System, step: Step)
    requires s.guarded && Inv(s) && !step.Kill? && Next(s, step) == Some(s')
    ensures s'.guarded
    ensures forall i :: i in s'.stores && UnderGuard(s'.stores[i]) ==> i.process in s'.guards && s'.guards[i.process] == i
    ensures forall p :: p in s'.guards ==> s'.guards[p].process == p
    ensures forall p :: p in s'.registry ==> s'.lock == Some(Lock(s'.registry[p], p))
  {
    if step.i in s.stores { assert StoreGood(s, step.i, s.stores[step.i]); }
  }

  lemma NextKeepsInv(s: System, s': System, step: Step)
    requires s.guarded && Inv(s) && Next(s, step) == Some(s')
    ensures s'.guarded && Inv(s')
  {
    if step.Kill? {
      KillKeepsInv(s, s', step.process);
    } else {
      OthersStayGood(s, s', step);
      StepperStaysGood(s, s', step);
      GuardsStayGood(s, s', step);
      hide StoreGood, NextOf;
    }
  }

  // ------------------------------------------------------------------ all runs

  predicate Init(s: System) {
    s.stores == map[] && s.guards == map[] && s.registry == map[] && s.lock.None?
  }

  ghost predicate Run(states: seq<System>, steps: seq<Step>) {
    && |states| == |steps| + 1
    && Init(states[0])
    && forall n :: 0 <= n < |steps| ==> Next(states[n], steps[n]) == Some(states[n + 1])
  }

  lemma {:induction false} RunKeepsInv(states: seq<System>, steps: seq<Step>, n: nat)
    requires Run(states, steps) && n < |states| && states[0].guarded
    ensures Inv(states[n]) && states[n].guarded
  {
    if n > 0 {
      RunKeepsInv(states, steps, n - 1);
      NextKeepsInv(states[n - 1], states[n], steps[n - 1]);
    }
  }

  /** With the guard: an open client means a registered handle, and that handle holds the OS lock. */
  lemma ClientsAreCovered(states: seq<System>, steps: seq<Step>, n: nat, i: StoreId)
    requires Run(states, steps) && n < |states| && states[0].guarded
    requires i in states[n].stores && HasClient(states[n].stores[i])
    ensures i.process in states[n].registry
    ensures states[n].lock == Some(Lock(states[n].registry[i.process], i.process))
  {
    RunKeepsInv(states, steps, n);
    assert StoreGood(states[n], i, states[n].stores[i]);
  }

  /** So two processes never have the store open together. */
  lemma OneProcessAtATime(states: seq<System>, steps: seq<Step>, n: nat, i: StoreId, j: StoreId)
    requires Run(states, steps) && n < |states| && states[0].guarded
    requires i in states[n].stores && HasClient(states[n].stores[i])
    requires j in states[n].stores && HasClient(states[n].stores[j])
    ensures i.process == j.process
  {
    ClientsAreCovered(states, steps, n, i);
    ClientsAreCovered(states, steps, n, j);
  }

  /**
   * A registration is never replaced. It ends with its process, or by the store that made it and
   * whose initialisation failed; and then no store of the process has a client any more.
   */
  lemma OnlyTheFailingOwnerRetracts(states: seq<System>, steps: seq<Step>, n: nat, p: Process)
    requires Run(states, steps) && n < |steps| && states[0].guarded && p in states[n].registry
    requires !(p in states[n + 1].registry && states[n + 1].registry[p] == states[n].registry[p])
    ensures p !in states[n + 1].registry
    ensures steps[n] == Kill(p)
      || (steps[n].Release? && steps[n].i.process == p && steps[n].i in states[n].stores
          && states[n].stores[steps[n].i] == Failing(Some(states[n].registry[p]), true)
          && forall j :: j in states[n + 1].stores && j.process == p ==> !HasClient(states[n + 1].stores[j]))
  {
    RunKeepsInv(states, steps, n);
    RunKeepsInv(states, steps, n + 1);
    assert Next(states[n], steps[n]) == Some(states[n + 1]);
    if !steps[n].Kill? && steps[n].i in states[n].stores {
      assert StoreGood(states[n], steps[n].i, states[n].stores[steps[n].i]);
    }
    forall j | j in states[n + 1].stores && j.process == p && p !in states[n + 1].registry
      ensures !HasClient(states[n + 1].stores[j])
    {
      assert StoreGood(states[n + 1], j, states[n + 1].stores[j]);
    }
  }

  /** The two fallback branches are for no one: nobody registers first, and the handle is the registered one. */
  lemma FallbacksAreNotNeeded(states: seq<System>, steps: seq<Step>, n: nat, i: StoreId)
    requires Run(states, steps) && n < |states| && states[0].guarded && i in states[n].stores
    ensures states[n].stores[i].HasFile? ==> i.process !in states[n].registry
    ensures states[n].stores[i].Failing? && states[n].stores[i].handle.Some? ==>
      && states[n].stores[i].owns
      && i.process in states[n].registry && states[n].stores[i].handle == Some(states[n].registry[i.process])
  {
    RunKeepsInv(states, steps, n);
    assert StoreGood(states[n], i, states[n].stores[i]);
  }

  // -------------------------------------------------- one store, left alone

  ghost predicate Steps(s: System, steps: seq<Step>, t: System)
    decreases |steps|
  {
    if steps == [] then s == t
    else exists m :: Next(s, steps[0]) == Some(m) && Steps(m, steps[1..], t)
  }

  predicate IsOf(step: Step, i: StoreId) {
    !step.Kill? && !step.Create? && step.i == i
  }

  ghost predicate Alone(s: System, i: StoreId, t: System) {
    exists steps :: Steps(s, steps, t) && forall step :: step in steps ==> IsOf(step, i)
  }

  lemma NoStep(s: System, i: StoreId)
    ensures Alone(s, i, s)
  {
    assert Steps(s, [], s);
  }

  lemma FirstStep(s: System, step: Step, m: System, i: StoreId, t: System)
    requires IsOf(step, i) && Next(s, step) == Some(m) && Alone(m, i, t)
    ensures Alone(s, i, t)
  {
    hide Next;
    var steps :| Steps(m, steps, t) && forall step :: step in steps ==> IsOf(step, i);
    assert ([step] + steps)[1..] == steps;
    assert Steps(s, [step] + steps, t);
  }

  /** With the store of another process in the way, a new store never gets past taking the file. */
  predicate Barred(s: System, i: StoreId) {
    && s.lock.Some? && i.process !in s.registry && i in s.stores
    && (s.stores[i] in {New, InGuard, Unregistered, Gone} || s.stores[i] == Failing(None, false))
  }

  lemma {:induction false} BarredStays(s: System, steps: seq<Step>, i: StoreId, t: System)
    requires Barred(s, i) && Steps(s, steps, t) && forall step :: step in steps ==> IsOf(step, i)
    ensures Barred(t, i) && t.lock == s.lock && t.registry == s.registry
    decreases |steps|
  {
    if steps != [] {
      var m :| Next(s, steps[0]) == Some(m) && Steps(m, steps[1..], t);
      assert IsOf(steps[0], i);
      BarredStays(m, steps[1..], i, t);
    }
  }

  /** It registers its process with the file it locked, or uses the registration that is there. */
  ghost predicate Opened(s: System, i: StoreId, file: FileId, t: System) {
    && i in t.stores && t.guards == s.guards
    && (forall j :: j in s.stores && j != i ==> j in t.stores && t.stores[j] == s.stores[j])
    && if i.process in s.registry then t.stores[i] == Live(None, false) && t.registry == s.registry && t.lock == s.lock
       else t.stores[i] == Live(Some(file), true) && t.registry == s.registry[i.process := file] && t.lock == Some(Lock(file, i.process))
  }

  lemma GuardIsLeft(s: System, t: System, i: StoreId, phase: Phase)
    requires s.guarded && i.process !in s.guards && t.guarded && t.guards == s.guards[i.process := i]
    ensures Out(t, i, phase).guards == s.guards
  {
  }

  lemma GoesThrough(s: System, i: StoreId, file: FileId) returns (t: System)
    requires s.guarded && i in s.stores && s.stores[i].New? && i.process !in s.guards
    requires i.process in s.registry || s.lock.None?
    ensures Alone(s, i, t) && Opened(s, i, file, t)
  {
    var a := Next(s, EnterGuard(i)).value;
    var b := Next(a, LookUp(i)).value;
    if i.process in s.registry {
      t := Next(b, Succeed(i)).value;
      GuardIsLeft(s, b, i, Live(None, false));
      NoStep(t, i);
      FirstStep(b, Succeed(i), t, i, t);
    } else {
      var c := Next(b, TakeFile(i, file)).value;
      var d := Next(c, Register(i)).value;
      t := Next(d, Succeed(i)).value;
      GuardIsLeft(s, d, i, Live(Some(file), true));
      NoStep(t, i);
      FirstStep(d, Succeed(i), t, i, t);
      FirstStep(c, Register(i), d, i, t);
      FirstStep(b, TakeFile(i, file), c, i, t);
    }
    FirstStep(a, LookUp(i), b, i, t);
    FirstStep(s, EnterGuard(i), a, i, t);
  }

  /**
   * A new store, left alone while no other one of its process is under the guard, opens exactly if its
   * process is registered or nobody holds the OS lock.
   */
  lemma OpensExactly(s: System, i: StoreId, file: FileId)
    requires s.guarded && Inv(s) && i in s.stores && s.stores[i].New? && i.process !in s.guards
    ensures (exists t :: Alone(s, i, t) && Opened(s, i, file, t)) <==> i.process in s.registry || s.lock == None
    ensures (exists t :: Alone(s, i, t) && i in t.stores && t.stores[i].Live?) <==> i.process in s.registry || s.lock == None
  {
    if i.process in s.registry || s.lock.None? {
      var t := GoesThrough(s, i, file);
    } else {
      forall t | Alone(s, i, t)
        ensures Barred(t, i)
      {
        var steps :| Steps(s, steps, t) && forall step :: step in steps ==> IsOf(step, i);
        BarredStays(s, steps, i, t);
      }
    }
  }

  /**
   * How a store that fails leaves: with a file that it has not registered it gives up the OS lock; as
   * the owner it takes back its registration and the lock; otherwise it changes neither. The guard is
   * left in each case.
   */
  lemma FailureLeaves(s: System, i: StoreId) returns (t: System)
    requires s.guarded && Inv(s) && i in s.stores && UnderGuard(s.stores[i]) && !s.stores[i].Retracted?
    ensures Alone(s, i, t) && i in t.stores && t.stores[i] == Gone && t.guards == s.guards - {i.process}
    ensures match s.stores[i]
      case HasFile(_) => t.registry == s.registry && t.lock == None
      case Initialising(_, owns) =>
        if owns then t.registry == s.registry - {i.process} && t.lock == None else t.registry == s.registry && t.lock == s.lock
      case Failing(_, owns) => if owns then t.registry == s.registry - {i.process} && t.lock == None else t.registry == s.registry && t.lock == s.lock
      case _ => t.registry == s.registry && t.lock == s.lock
  {
    assert StoreGood(s, i, s.stores[i]);
    var a := if s.stores[i].Failing? then s else Next(s, Fail(i)).value;
    var owner := a.stores[i].owns;
    var b := Next(a, Release(i)).value;
    if owner {
      t := Next(b, Release(i)).value;
      NoStep(t, i);
      FirstStep(b, Release(i), t, i, t);
    } else {
      t := b;
      NoStep(t, i);
    }
    FirstStep(a, Release(i), b, i, t);
    if !s.stores[i].Failing? { FirstStep(s, Fail(i), a, i, t); }
  }

  /** Closing a store keeps the registration and the lock; only a kill of the process drops both. */
  lemma CloseAndKill(s: System, i: StoreId, p: Process)
    requires i in s.stores && s.stores[i].Live?
    ensures Next(s, CloseStore(i)) == Some(s.(stores := s.stores[i := Gone]))
    ensures Next(s, Kill(p)).Some?
    ensures var t := Next(s, Kill(p)).value;
      && (forall j :: j in t.stores <==> j in s.stores && j.process != p) && (forall j :: j in t.stores ==> t.stores[j] == s.stores[j])
      && p !in t.guards && p !in t.registry
      && (forall q :: q != p ==> (q in t.registry <==> q in s.registry) && (q in s.registry ==> t.registry[q] == s.registry[q]))
      && t.lock == if s.lock.Some? && s.lock.value.process == p then None else s.lock
  {
  }

  // ------------------------------------------------------ without the guard

  /**
   * What the two fallbacks do where the guard does not exclude them: a second registration uses the
   * first and gives its own file up, and a store whose registration is gone retracts nobody else's.
   */
  lemma FallbacksYield(s: System, i: StoreId, file: FileId)
    requires i in s.stores
    ensures s.stores[i] == HasFile(file) && i.process in s.registry ==>
      Next(s, Register(i)) == Some(s.(stores := s.stores[i := Initialising(None, false)], lock := None))
    ensures s.stores[i] == Failing(Some(file), true) && !(i.process in s.registry && s.registry[i.process] == file) ==>
      && Next(s, Release(i)).Some?
      && var t := Next(s, Release(i)).value;
         t.stores == s.stores[i := Gone] && t.registry == s.registry && t.lock == s.lock
  {
  }

  const A: StoreId := StoreId(0, 0)
  const B: StoreId := StoreId(0, 1)

  function Duo(x: Phase, y: Phase): map<StoreId, Phase> {
    map[A := x, B := y]
  }

  /** Two stores of one process, both created, with no guard. */
  function Unguarded(x: Phase, y: Phase, registry: map<Process, FileId>, lock: Option<Lock>): System {
    System(false, Duo(x, y), map[], registry, lock)
  }

  lemma StepOfA(x: Phase, x': Phase, y: Phase, registry: map<Process, FileId>, registry': map<Process, FileId>,
                lock: Option<Lock>, lock': Option<Lock>, step: Step)
    requires !step.Kill? && !step.Create? && step.i == A
    requires NextOf(Unguarded(x, y, registry, lock), step, A, x)
          == Some(Put(Unguarded(x, y, registry, lock), A, x').(registry := registry', lock := lock'))
    ensures Next(Unguarded(x, y, registry, lock), step) == Some(Unguarded(x', y, registry', lock'))
  {
    assert Duo(x, y)[A := x'] == Duo(x', y);
  }

  lemma StepOfB(x: Phase, y: Phase, y': Phase, registry: map<Process, FileId>, lock: Option<Lock>, step: Step)
    requires !step.Kill? && !step.Create? && step.i == B
    requires NextOf(Unguarded(x, y, registry, lock), step, B, y) == Some(Put(Unguarded(x, y, registry, lock), B, y'))
    ensures Next(Unguarded(x, y, registry, lock), step) == Some(Unguarded(x, y', registry, lock))
  {
    assert Duo(x, y)[B := y'] == Duo(x, y');
  }

  const NONE: map<Process, FileId> := map[]
  const ONE: map<Process, FileId> := map[0 := 7]
  const LOCK: Option<Lock> := Some(Lock(7, 0))
  const OWNER: Phase := Initialising(Some(7), true)
  const GUEST: Phase := Live(None, false)

  /** The n-th state of the interleaving that the guard exists to close. */
  function UnguardedState(n: nat): System {
    match n
    case 0 => System(false, map[], map[], NONE, None)
    case 1 => System(false, map[A := New], map[], NONE, None)
    case 2 => Unguarded(New, New, NONE, None)
    case 3 => Unguarded(InGuard, New, NONE, None)
    case 4 => Unguarded(Unregistered, New, NONE, None)
    case 5 => Unguarded(HasFile(7), New, NONE, LOCK)
    case 6 => Unguarded(OWNER, New, ONE, LOCK)
    case 7 => Unguarded(OWNER, InGuard, ONE, LOCK)
    case 8 => Unguarded(OWNER, Initialising(None, false), ONE, LOCK)
    case 9 => Unguarded(OWNER, GUEST, ONE, LOCK)
    case 10 => Unguarded(Failing(Some(7), true), GUEST, ONE, LOCK)
    case 11 => Unguarded(Retracted(7), GUEST, NONE, LOCK)
    case _ => Unguarded(Gone, GUEST, NONE, None)
  }

  function UnguardedStepAt(n: nat): Step {
    match n
    case 0 => Create(A)
    case 1 => Create(B)
    case 2 => EnterGuard(A)
    case 3 => LookUp(A)
    case 4 => TakeFile(A, 7)
    case 5 => Register(A)
    case 6 => EnterGuard(B)
    case 7 => LookUp(B)
    case 8 => Succeed(B)
    case 9 => Fail(A)
    case _ => Release(A)
  }

  lemma FirstUnguardedSteps(n: nat)
    requires n < 6
    ensures Next(UnguardedState(n), UnguardedStepAt(n)) == Some(UnguardedState(n + 1))
  {
    match n {
      case 0 =>
      case 1 => assert map[A := New][B := New] == Duo(New, New);
      case 2 => StepOfA(New, InGuard, New, NONE, NONE, None, None, EnterGuard(A));
      case 3 => StepOfA(InGuard, Unregistered, New, NONE, NONE, None, None, LookUp(A));
      case 4 => StepOfA(Unregistered, HasFile(7), New, NONE, NONE, None, LOCK, TakeFile(A, 7));
      case 5 => StepOfA(HasFile(7), OWNER, New, NONE, ONE, LOCK, LOCK, Register(A));
    }
  }

  lemma LaterUnguardedSteps(n: nat)
    requires 6 <= n < 12
    ensures Next(UnguardedState(n), UnguardedStepAt(n)) == Some(UnguardedState(n + 1))
  {
    match n {
      case 6 => StepOfB(OWNER, New, InGuard, ONE, LOCK, EnterGuard(B));
      case 7 => StepOfB(OWNER, InGuard, Initialising(None, false), ONE, LOCK, LookUp(B));
      case 8 => StepOfB(OWNER, Initialising(None, false), GUEST, ONE, LOCK, Succeed(B));
      case 9 => StepOfA(OWNER, Failing(Some(7), true), GUEST, ONE, ONE, LOCK, LOCK, Fail(A));
      case 10 =>
        assert ONE - {0} == NONE;
        StepOfA(Failing(Some(7), true), Retracted(7), GUEST, ONE, NONE, LOCK, LOCK, Release(A));
      case 11 => StepOfA(Retracted(7), Gone, GUEST, NONE, NONE, LOCK, None, Release(A));
    }
  }

  /**
   * Without the guard it fails: the second store finds the first one's registration, initialises
   * on it, and keeps its client after the first one failed and retracted.
   */
  lemma GuardIsNeeded()
    ensures exists states: seq<System>, steps: seq<Step> ::
      && Run(states, steps) && |states| == 13 && !states[0].guarded
      && B in states[12].stores && states[12].stores[B].Live? && states[12].registry == map[] && states[12].lock.None?
  {
    hide Next;
    var states, steps := seq(13, n requires 0 <= n < 13 => UnguardedState(n)), seq(12, n requires 0 <= n < 12 => UnguardedStepAt(n));
    forall n | 0 <= n < |steps|
      ensures Next(states[n], steps[n]) == Some(states[n + 1])
    {
      if n < 6 { FirstUnguardedSteps(n); } else { LaterUnguardedSteps(n); }
    }
    assert Run(states, steps);
  }
}
