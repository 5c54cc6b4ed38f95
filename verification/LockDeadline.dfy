/**
 * The two waits of file_lock: first for the in-process lock, then for the lock on the file.
 * Both are meant to share one deadline; the second one reads the clock again and so may
 * sleep past it, by exactly the time between two readings.
 */
module LockDeadline {

  const POLL: real := 0.1

  /** How long each of the next calls takes; those after them take no time. */
  type Gaps = seq<real>

  predicate NonNegative(gaps: Gaps) {
    forall i :: 0 <= i < |gaps| ==> gaps[i] >= 0.0
  }

  function Gap(gaps: Gaps, k: nat): (g: real)
    requires NonNegative(gaps)
    ensures g >= 0.0
  {
    if k < |gaps| then gaps[k] else 0.0
  }

  function From(gaps: Gaps, k: nat): (r: Gaps)
    requires NonNegative(gaps)
    ensures NonNegative(r)
  {
    if k <= |gaps| then gaps[k..] else []
  }

  lemma FromFrom(gaps: Gaps, j: nat, k: nat)
    requires NonNegative(gaps)
    ensures From(From(gaps, j), k) == From(gaps, j + k) && Gap(From(gaps, j), k) == Gap(gaps, j + k)
  {
  }

  /** The monotonic clock. Time passes in every call, and a sleep is never cut short. */
  class Clock {
    var now: real
    var gaps: Gaps

    ghost predicate Valid()
      reads this
    {
      NonNegative(gaps)
    }

    constructor (now: real, gaps: Gaps)
      requires NonNegative(gaps)
      ensures Valid() && this.now == now && this.gaps == gaps
    {
      this.now, this.gaps := now, gaps;
    }

    method Pass()
      requires Valid()
      modifies this
      ensures Valid() && now == old(now) + Gap(old(gaps), 0) && gaps == From(old(gaps), 1)
    {
      now, gaps := now + Gap(gaps, 0), From(gaps, 1);
    }

    method Monotonic() returns (t: real)
      requires Valid()
      modifies this
      ensures Valid() && t == now == old(now) + Gap(old(gaps), 0) && gaps == From(old(gaps), 1)
    {
      Pass();
      t := now;
    }

    method Sleep(d: real)
      requires Valid() && d >= 0.0
      modifies this
      ensures Valid() && now == old(now) + d + Gap(old(gaps), 0) && gaps == From(old(gaps), 1)
    {
      now := now + d;
      Pass();
    }
  }

  function Min(a: real, b: real): real {
    if a < b then a else b
  }

  function Max(a: real, b: real): real {
    if a < b then b else a
  }

  /** A sleep: when it was decided and how long it was asked to last. */
  datatype Nap = Nap(from: real, length: real)
  {
    function End(): real {
      from + length
    }
  }

  function PollsLeft(deadline: real, now: real): nat {
    if now < deadline then ((deadline - now) * 10.0).Floor + 1 else 0
  }

  /** A full poll interval uses up one of the polls left. */
  lemma PollUsedUp(deadline: real, t: real, now: real)
    requires t < deadline && t + Min(POLL, deadline - t) <= now
    ensures PollsLeft(deadline, now) < PollsLeft(deadline, t)
  {
    if now < deadline {
      assert t + POLL <= now;
      assert (deadline - now) * 10.0 <= (deadline - t) * 10.0 - 1.0;
    }
  }

  lemma LaterHasFewerPolls(deadline: real, t: real, now: real)
    requires t <= now
    ensures PollsLeft(deadline, now) <= PollsLeft(deadline, t)
  {
    if now < deadline {
      assert (deadline - now) * 10.0 <= (deadline - t) * 10.0;
    }
  }

  /** The sleeps of the polling loop, if the lock is refused so many times before it is granted. */
  function PollNaps(gaps: Gaps, now: real, deadline: real, busy: nat): seq<Nap>
    requires NonNegative(gaps)
    decreases busy
  {
    var t := now + Gap(gaps, 0);
    if busy == 0 || deadline <= t then []
    else
      var length := Min(POLL, deadline - t);
      [Nap(t, length)] + PollNaps(From(gaps, 2), t + length + Gap(gaps, 1), deadline, busy - 1)
  }

  lemma PollOnce(gaps: Gaps, now: real, deadline: real, busy: nat)
    requires NonNegative(gaps)
    ensures var t := now + Gap(gaps, 0);
      PollNaps(gaps, now, deadline, busy) ==
        if busy == 0 || deadline <= t then []
        else [Nap(t, Min(POLL, deadline - t))]
             + PollNaps(From(gaps, 2), t + Min(POLL, deadline - t) + Gap(gaps, 1), deadline, busy - 1)
  {
  }

  /** A tenth of a second or what is left, and over by the deadline. */
  ghost predicate Fits(n: Nap, first: real, deadline: real) {
    first <= n.from && 0.0 < n.length <= 0.1 && n.End() <= deadline && (n.length == 0.1 || n.End() == deadline)
  }

  lemma NapFits(first: real, t: real, deadline: real)
    requires first <= t < deadline
    ensures Fits(Nap(t, Min(POLL, deadline - t)), first, deadline)
  {
  }

  /** _acquire: poll the file lock until it is free or the deadline has passed. It always ends. */
  method Acquire(clock: Clock, timeout: real, busy: nat) returns (ok: bool, naps: seq<Nap>, ghost first: real)
    requires clock.Valid() && timeout >= 0.0
    modifies clock
    ensures clock.Valid() && old(clock.now) + Gap(old(clock.gaps), 0) == first <= clock.now
    ensures naps == PollNaps(From(old(clock.gaps), 1), first, first + timeout, busy)
    ensures forall n :: n in naps ==> Fits(n, first, first + timeout)
    ensures ok <==> |naps| == busy
    ensures !ok ==> first + timeout <= clock.now
  {
    hide PollNaps, From, NonNegative, Gap, PollsLeft, Min, Fits;
    naps := [];
    var start := clock.Monotonic();
    first := start;
    var deadline, refused := start + timeout, 0;
    ghost var gaps := clock.gaps;
    while true
      invariant clock.Valid() && first <= clock.now && deadline == first + timeout && refused <= busy
      invariant PollNaps(gaps, first, deadline, busy) == naps + PollNaps(clock.gaps, clock.now, deadline, busy - refused)
      invariant forall n :: n in naps ==> Fits(n, first, deadline)
      invariant |naps| == refused
      decreases PollsLeft(deadline, clock.now)
    {
      ghost var before, ahead, done := clock.now, clock.gaps, naps;
      PollOnce(ahead, before, deadline, busy - refused);
      assert done + [] == done;
      if refused == busy { return true, naps, first; }
      refused := refused + 1;
      FromFrom(ahead, 1, 0);
      FromFrom(ahead, 1, 1);
      var t := clock.Monotonic();
      var remaining := deadline - t;
      if remaining <= 0.0 { return false, naps, first; }
      var length := Min(POLL, remaining);
      NapFits(first, t, deadline);
      naps := naps + [Nap(t, length)];
      clock.Sleep(length);
      assert done + ([Nap(t, length)] + PollNaps(clock.gaps, clock.now, deadline, busy - refused))
          == naps + PollNaps(clock.gaps, clock.now, deadline, busy - refused);
      LaterHasFewerPolls(deadline, before, t);
      PollUsedUp(deadline, t, clock.now);
    }
  }

  lemma LaterGaps(gaps: Gaps)
    requires NonNegative(gaps)
    ensures From(From(gaps, 1), 1) == From(gaps, 2) && Gap(From(gaps, 1), 0) == Gap(gaps, 1)
    ensures From(From(gaps, 2), 1) == From(gaps, 3) && Gap(From(gaps, 2), 0) == Gap(gaps, 2)
    ensures From(From(gaps, 3), 1) == From(gaps, 4) && Gap(From(gaps, 3), 0) == Gap(gaps, 3)
    ensures From(From(gaps, 4), 1) == From(gaps, 5) && Gap(From(gaps, 4), 0) == Gap(gaps, 4)
  {
    for k := 1 to 5
      invariant forall j :: 1 <= j < k ==> From(From(gaps, j), 1) == From(gaps, j + 1) && Gap(From(gaps, j), 0) == Gap(gaps, j)
    {
      FromFrom(gaps, k, 0);
      FromFrom(gaps, k, 1);
    }
  }

  datatype Waited = GotBoth | NoProcessLock | NoFileLock

  /** When the remaining time is handed over to the second wait. */
  function AskedAt(gaps: Gaps, now: real): real
    requires NonNegative(gaps)
  {
    now + Gap(gaps, 0) + Gap(gaps, 1) + Gap(gaps, 2) + Gap(gaps, 3)
  }

  /** The sleeps of a file_lock that gets the process lock at once. */
  function FileNaps(gaps: Gaps, now: real, timeout: real, busy: nat): seq<Nap>
    requires NonNegative(gaps)
  {
    var deadline, asked := now + Gap(gaps, 0) + timeout, AskedAt(gaps, now);
    var first := asked + Gap(gaps, 4);
    PollNaps(From(gaps, 5), first, first + Max(0.0, deadline - asked), busy)
  }

  /**
   * The waits of file_lock: when the process lock was waited for, and the sleeps for the file
   * lock. Giving up never happens early; no sleep ends later than the drift allows.
   */
  method FileLockWaits(clock: Clock, timeout: real, processFree: bool, busy: nat)
    returns (result: Waited, processWait: Nap, naps: seq<Nap>, ghost deadline: real, ghost asked: real, ghost first: real)
    requires clock.Valid() && timeout >= 0.0
    modifies clock
    ensures old(clock.now) + Gap(old(clock.gaps), 0) + timeout == deadline
    ensures processWait.End() == Max(deadline, processWait.from)
    ensures result.NoProcessLock? <==> !processFree
    ensures result.NoProcessLock? ==> deadline <= clock.now && naps == []
    ensures result.NoFileLock? ==> deadline <= clock.now
    ensures result.GotBoth? <==> processFree && |naps| == busy
    ensures processFree ==> naps == FileNaps(old(clock.gaps), old(clock.now), timeout, busy)
    ensures deadline - timeout <= asked <= first
    ensures forall n :: n in naps ==> asked < deadline && n.End() <= deadline + (first - asked)
    ensures forall n :: n in naps ==> 0.0 < n.length <= 0.1 && (n.length == 0.1 || n.End() == deadline + (first - asked))
  {
    hide PollNaps, NonNegative, From, Gap;
    ghost var gaps := clock.gaps;
    LaterGaps(gaps);
    naps := [];
    var start := clock.Monotonic();
    var limit := start + timeout;
    deadline := limit;
    var t := clock.Monotonic();
    processWait := Nap(t, Max(0.0, limit - t));
    asked, first := t, t;
    var taken := ProcessLock(clock, processWait.length, processFree);
    if !taken { return NoProcessLock, processWait, naps, deadline, asked, first; }
    var again := clock.Monotonic();
    asked := again;
    var ok;
    ok, naps, first := Acquire(clock, Max(0.0, limit - again), busy);
    result := if ok then GotBoth else NoFileLock;
  }

  /** RLock.acquire with a timeout. */
  method ProcessLock(clock: Clock, timeout: real, free: bool) returns (taken: bool)
    requires clock.Valid() && timeout >= 0.0
    modifies clock
    ensures clock.Valid() && clock.gaps == From(old(clock.gaps), 1) && taken == free
    ensures clock.now == old(clock.now) + Gap(old(clock.gaps), 0) + if taken then 0.0 else timeout
  {
    taken := free;
    if taken { clock.Pass(); } else { clock.Sleep(timeout); }
  }

  ghost predicate Overruns(naps: seq<Nap>, deadline: real) {
    exists n :: n in naps && n.End() > deadline
  }

  /** A sleep that ends after the shared deadline needs time left when it was handed over, and a clock that moved then. */
  lemma OverrunNeedsDrift(gaps: Gaps, now: real, timeout: real, busy: nat)
    requires NonNegative(gaps) && timeout >= 0.0
    requires Overruns(FileNaps(gaps, now, timeout, busy), now + Gap(gaps, 0) + timeout)
    ensures AskedAt(gaps, now) < now + Gap(gaps, 0) + timeout && Gap(gaps, 4) > 0.0
  {
    var deadline, asked := now + Gap(gaps, 0) + timeout, AskedAt(gaps, now);
    var first := asked + Gap(gaps, 4);
    var n :| n in FileNaps(gaps, now, timeout, busy) && n.End() > deadline;
    NapsEndInTime(From(gaps, 5), first, first + Max(0.0, deadline - asked), busy, n);
  }

  lemma {:induction false} NapsEndInTime(gaps: Gaps, now: real, deadline: real, busy: nat, n: Nap)
    requires NonNegative(gaps) && n in PollNaps(gaps, now, deadline, busy)
    ensures now <= n.from < deadline && n.End() <= deadline
    decreases busy
  {
    var t := now + Gap(gaps, 0);
    var length := Min(POLL, deadline - t);
    if n != Nap(t, length) {
      NapsEndInTime(From(gaps, 2), t + length + Gap(gaps, 1), deadline, busy - 1, n);
    }
  }

  /**
   * Once the remaining time has been handed over and its counting begun, what the five calls so
   * far took decides: a later sleep can end after the deadline exactly if time was left and the
   * clock moved in between.
   */
  lemma DriftDecides(gaps: Gaps, now: real, timeout: real)
    requires NonNegative(gaps) && |gaps| == 5 && timeout >= 0.0
    ensures (exists rest: Gaps, busy :: NonNegative(gaps + rest) && Overruns(FileNaps(gaps + rest, now, timeout, busy), now + gaps[0] + timeout))
       <==> AskedAt(gaps, now) < now + gaps[0] + timeout && gaps[4] > 0.0
  {
    var deadline, asked := now + gaps[0] + timeout, AskedAt(gaps, now);
    var first := asked + gaps[4];
    if asked < deadline && gaps[4] > 0.0 {
      var t := Max(first, deadline);
      var rest: Gaps := [t - first];
      var all := gaps + rest;
      assert NonNegative(all) && From(all, 5) == rest;
      var nap := Nap(t, Min(POLL, first + (deadline - asked) - t));
      assert FileNaps(all, now, timeout, 1)[0] == nap;
      assert nap in FileNaps(all, now, timeout, 1) && nap.End() > deadline;
    } else if rest: Gaps, busy :| NonNegative(gaps + rest) && Overruns(FileNaps(gaps + rest, now, timeout, busy), deadline) {
      OverrunNeedsDrift(gaps + rest, now, timeout, busy);
    }
  }

  /** Over all executions: a sleep of file_lock can end after the shared deadline exactly if a timeout was given. */
  lemma SleepCanOverrun(now: real, timeout: real)
    requires timeout >= 0.0
    ensures (exists gaps, busy :: NonNegative(gaps) && Overruns(FileNaps(gaps, now, timeout, busy), now + Gap(gaps, 0) + timeout))
       <==> timeout > 0.0
  {
    if timeout > 0.0 {
      var gaps: Gaps := [0.0, 0.0, 0.0, 0.0, timeout];
      var nap := Nap(now + timeout, Min(POLL, timeout));
      assert FileNaps(gaps, now, timeout, 1)[0] == nap;
      assert nap in FileNaps(gaps, now, timeout, 1);
    } else if gaps, busy :| NonNegative(gaps) && Overruns(FileNaps(gaps, now, timeout, busy), now + Gap(gaps, 0) + timeout) {
      OverrunNeedsDrift(gaps, now, timeout, busy);
    }
  }
}
