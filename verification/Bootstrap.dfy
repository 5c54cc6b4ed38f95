/**
 * Concurrent creation of the one local user: `init` calls without a lock and stdio calls under
 * bootstrap.lock, any number of them, failing or killed anywhere, beside ordinary user creation.
 */
module Bootstrap {
  import opened Basics

  datatype UserId = UserId(n: nat)
  type TokenId = nat
  type CallId = nat

  datatype User = User(isLocal: bool, disabled: bool)

  /** users, the owners of default packs, and tokens by owner. */
  datatype Db = Db(users: map<UserId, User>, packs: set<UserId>, tokens: map<TokenId, UserId>)

  /** The transaction hit idx_users_single_local, the primary key, or was rolled back for another reason. */
  datatype Insert = Inserted(db: Db) | SecondLocal | OtherError

  predicate HasLocal(db: Db) {
    exists u :: u in db.users && db.users[u].isLocal
  }

  /** The one transaction of bootstrap_local_user and of create_user. */
  function Create(db: Db, u: UserId, isLocal: bool, token: Option<TokenId>): Insert {
    if isLocal && HasLocal(db) then SecondLocal
    else if u in db.users || (token.Some? && token.value in db.tokens) then OtherError
    else Inserted(Db(db.users[u := User(isLocal, false)], db.packs + {u},
                     if token.Some? then db.tokens[token.value := u] else db.tokens))
  }

  /** get_local_user, disabled or not. */
  ghost predicate IsLocalUser(db: Db, u: UserId) {
    u in db.users && db.users[u].isLocal
  }

  // -------------------------------------------------------------------- calls

  datatype Phase =
    | Probe                                          // stdio, before the lock
    | WaitLock                                       // stdio
    | Recheck                                        // stdio, under the lock, before the tables are created
    | RecheckOpen                                    // stdio, once more with the tables in place
    | Check                                          // get_local_user of the idempotent creation
    | Insert                                         // about to run the transaction
    | Lost                                           // someone else's local user is there
    | Returned(user: UserId, created: bool)          // the idempotent creation has returned
    | Answered(principal: Option<UserId>, made: bool) // stdio has returned
    | Failed

  predicate InLock(p: Phase, stdio: bool) {
    stdio && (p.Recheck? || p.RecheckOpen? || p.Check? || p.Insert? || p.Lost? || p.Returned?)
  }

  datatype Call = Call(stdio: bool, token: bool, phase: Phase)

  /** creator is the call whose transaction made the local user, if one of them did. */
  datatype System = System(db: Db, calls: map<CallId, Call>, lock: Option<CallId>, creator: Option<CallId>)

  datatype Step =
    | Start(c: CallId, stdio: bool, token: bool)
    | Advance(c: CallId, newId: UserId, secret: TokenId)
    | Fail(c: CallId)                     // raises: the transaction is rolled back, the lock released
    | Kill(c: CallId)
    | CreateUser(newId: UserId, isLocal: bool, secret: TokenId)
    | SetDisabled(u: UserId, disabled: bool)

  function Release(s: System, c: CallId): System {
    s.(lock := if s.lock == Some(c) then None else s.lock)
  }

  function To(s: System, c: CallId, p: Phase): System
    requires c in s.calls
  {
    s.(calls := s.calls[c := s.calls[c].(phase := p)])
  }

  ghost predicate Next(s: System, s': System, step: Step) {
    match step
    case Start(c, stdio, token) =>
      c !in s.calls && (stdio ==> !token) && s.creator != Some(c) && s.lock != Some(c)
      && s' == s.(calls := s.calls[c := Call(stdio, token, if stdio then Probe else Check)])
    case Fail(c) => c in s.calls && s' == Release(To(s, c, Failed), c)
    case Kill(c) => c in s.calls && s' == Release(s.(calls := s.calls - {c}), c)
    case CreateUser(u, isLocal, secret) =>
      var made := Create(s.db, u, isLocal, Some(secret));
      made.Inserted? && s' == s.(db := made.db)
    case SetDisabled(u, disabled) =>
      u in s.db.users && s' == s.(db := s.db.(users := s.db.users[u := s.db.users[u].(disabled := disabled)]))
    case Advance(c, newId, secret) => c in s.calls && Advances(s, s', c, s.calls[c], newId, secret)
  }

  /** What a probe for stdio does: answer if a local user is there, go on if not. */
  ghost predicate Probes(s: System, s': System, c: CallId, onward: Phase)
    requires c in s.calls
  {
    if HasLocal(s.db) then
      exists u :: IsLocalUser(s.db, u)
        && s' == Release(To(s, c, Answered(if s.db.users[u].disabled then None else Some(u), false)), c)
    else s' == To(s, c, onward)
  }

  ghost predicate Advances(s: System, s': System, c: CallId, call: Call, newId: UserId, secret: TokenId)
    requires c in s.calls
  {
    match call.phase
    case Probe => Probes(s, s', c, WaitLock)
    case WaitLock => s.lock.None? && s' == To(s, c, Recheck).(lock := Some(c))
    case Recheck => Probes(s, s', c, RecheckOpen)
    case RecheckOpen => Probes(s, s', c, Check)
    case Check =>
      if HasLocal(s.db) then exists u :: IsLocalUser(s.db, u) && s' == To(s, c, Returned(u, false))
      else s' == To(s, c, Insert)
    case Insert =>
      (match Create(s.db, newId, true, if call.token then Some(secret) else None)
       case Inserted(db) => s' == To(s, c, Returned(newId, true)).(db := db, creator := Some(c))
       case SecondLocal => s' == To(s, c, Lost)
       case OtherError => s' == Release(To(s, c, Failed), c))
    case Lost =>
      if HasLocal(s.db) then exists u :: IsLocalUser(s.db, u) && s' == To(s, c, Returned(u, false))
      else s' == Release(To(s, c, Failed), c)
    case Returned(_, created) =>
      && call.stdio
      && (if HasLocal(s.db) then
            exists u :: IsLocalUser(s.db, u)
              && s' == Release(To(s, c, Answered(if s.db.users[u].disabled then None else Some(u), created)), c)
          else s' == Release(To(s, c, Answered(None, created)), c))
    case _ => false
  }

  // ---------------------------------------------------------------- invariant

  ghost predicate DbGood(db: Db) {
    && (forall u, v :: IsLocalUser(db, u) && IsLocalUser(db, v) ==> u == v)
    && (forall u :: u in db.users ==> u in db.packs)
    && (forall t :: t in db.tokens ==> db.tokens[t] in db.users)
  }

  predicate SaysCreated(p: Phase) {
    (p.Returned? && p.created) || (p.Answered? && p.made)
  }

  ghost predicate CallGood(s: System, c: CallId, call: Call) {
    && (call.phase.Probe? || call.phase.WaitLock? || call.phase.Recheck? || call.phase.RecheckOpen? || call.phase.Answered? ==> call.stdio)
    && (call.phase.Lost? ==> HasLocal(s.db))
    && (call.phase.Returned? ==> IsLocalUser(s.db, call.phase.user))
    && (call.phase.Answered? && call.phase.principal.Some? ==> IsLocalUser(s.db, call.phase.principal.value))
    && (SaysCreated(call.phase) ==> s.creator == Some(c))
    && (InLock(call.phase, call.stdio) ==> s.lock == Some(c))
    && (s.creator == Some(c) ==> SaysCreated(call.phase) || call.phase.Failed?)
  }

  ghost predicate Inv(s: System) {
    && DbGood(s.db)
    && (s.creator.Some? ==> HasLocal(s.db))
    && forall c :: c in s.calls ==> CallGood(s, c, s.calls[c])
  }

  /** Local users are never removed, and the transaction adds a user with everything that belongs to it. */
  lemma CreateIsWhole(db: Db, u: UserId, isLocal: bool, token: Option<TokenId>)
    requires DbGood(db) && Create(db, u, isLocal, token).Inserted?
    ensures var db' := Create(db, u, isLocal, token).db;
      && DbGood(db')
      && u !in db.users && db'.users == db.users[u := User(isLocal, false)]
      && u in db'.packs && (forall t :: t in db'.tokens && t !in db.tokens <==> token == Some(t))
      && (forall v :: IsLocalUser(db', v) <==> IsLocalUser(db, v) || (isLocal && v == u))
      && (HasLocal(db') <==> HasLocal(db) || isLocal)
  {
    var db' := Create(db, u, isLocal, token).db;
    forall v
      ensures IsLocalUser(db', v) <==> IsLocalUser(db, v) || (isLocal && v == u)
    {
    }
    if isLocal { assert IsLocalUser(db', u); }
    if HasLocal(db) {
      var v :| v in db.users && db.users[v].isLocal;
      assert v in db'.users && db'.users[v].isLocal;
    }
    if HasLocal(db') {
      var v :| v in db'.users && db'.users[v].isLocal;
      assert IsLocalUser(db', v);
    }
  }

  /** Steps that change the database but no call. */
  lemma OutsideKeepsInv(s: System, s': System, step: Step)
    requires Inv(s) && Next(s, s', step) && (step.CreateUser? || step.SetDisabled?)
    ensures Inv(s')
  {
    match step {
      case CreateUser(u, isLocal, secret) => CreateIsWhole(s.db, u, isLocal, Some(secret));
      case SetDisabled(u, disabled) =>
        assert forall v :: IsLocalUser(s'.db, v) <==> IsLocalUser(s.db, v);
        DisablingKeepsLocal(s.db, s'.db);
    }
    forall c | c in s'.calls
      ensures CallGood(s', c, s'.calls[c])
    {
      assert CallGood(s, c, s.calls[c]);
    }
  }

  lemma DisablingKeepsLocal(db: Db, db': Db)
    requires forall v :: IsLocalUser(db', v) <==> IsLocalUser(db, v)
    ensures HasLocal(db') <==> HasLocal(db)
  {
    if HasLocal(db) {
      var v :| v in db.users && db.users[v].isLocal;
      assert IsLocalUser(db', v);
    }
    if HasLocal(db') {
      var v :| v in db'.users && db'.users[v].isLocal;
      assert IsLocalUser(db, v);
    }
  }

  /** A call's own step, with the database as it was. */
  lemma CallKeepsInv(s: System, s': System, c: CallId, call': Call)
    requires Inv(s) && c in s.calls && s'.db == s.db && s'.creator == s.creator
    requires s'.calls == s.calls[c := call'] && CallGood(s', c, call')
    requires s'.lock == s.lock || (s.lock == Some(c) && s'.lock.None?) || (s.lock.None? && s'.lock == Some(c))
    ensures Inv(s')
  {
    forall d | d in s'.calls
      ensures CallGood(s', d, s'.calls[d])
    {
      if d != c { assert CallGood(s, d, s.calls[d]); }
    }
  }

  lemma AdvanceKeepsInv(s: System, s': System, c: CallId, newId: UserId, secret: TokenId)
    requires Inv(s) && Next(s, s', Advance(c, newId, secret))
    ensures Inv(s')
  {
    var call := s.calls[c];
    assert CallGood(s, c, call);
    match call.phase {
      case Insert =>
        var made := Create(s.db, newId, true, if call.token then Some(secret) else None);
        if made.Inserted? {
          CreateIsWhole(s.db, newId, true, if call.token then Some(secret) else None);
          forall d | d in s'.calls
            ensures CallGood(s', d, s'.calls[d])
          {
            if d != c { assert CallGood(s, d, s.calls[d]); }
          }
        } else {
          CallKeepsInv(s, s', c, s'.calls[c]);
        }
      case Answered(_, _) =>
      case Failed =>
      case _ => CallKeepsInv(s, s', c, s'.calls[c]);
    }
  }

  lemma NextKeepsInv(s: System, s': System, step: Step)
    requires Inv(s) && Next(s, s', step)
    ensures Inv(s')
  {
    match step {
      case Start(c, stdio, token) =>
        forall d | d in s'.calls
          ensures CallGood(s', d, s'.calls[d])
        {
          if d != c { assert CallGood(s, d, s.calls[d]); }
        }
      case Fail(c) =>
        assert CallGood(s, c, s.calls[c]);
        CallKeepsInv(s, s', c, s'.calls[c]);
      case Kill(c) =>
        forall d | d in s'.calls
          ensures CallGood(s', d, s'.calls[d])
        {
          assert CallGood(s, d, s.calls[d]);
        }
      case Advance(c, newId, secret) => AdvanceKeepsInv(s, s', c, newId, secret);
      case CreateUser(_, _, _) => OutsideKeepsInv(s, s', step);
      case SetDisabled(_, _) => OutsideKeepsInv(s, s', step);
    }
  }

  // --------------------------------------------------------- what calls return

  /**
   * Through whichever probe a stdio call is answered: with a user exactly if that is the enabled
   * local user of the database it reads, with nobody exactly if there is none or it is disabled.
   */
  lemma AnswerIsTheEnabledUser(s: System, s': System, step: Step, c: CallId)
    requires Inv(s) && Next(s, s', step)
    requires c in s'.calls && s'.calls[c].phase.Answered? && !(c in s.calls && s.calls[c].phase.Answered?)
    ensures var p := s'.calls[c].phase.principal;
      && (forall u :: p == Some(u) <==> u in s.db.users && s.db.users[u].isLocal && !s.db.users[u].disabled)
      && (p == None <==> forall u :: u in s.db.users && s.db.users[u].isLocal ==> s.db.users[u].disabled)
    ensures s'.db == s.db && s'.calls[c].stdio
    ensures s'.calls[c].phase.made <==> s.calls[c].phase.Returned? && s.calls[c].phase.created
  {
    AnsweredBy(s, s', step, c);
    NextKeepsInv(s, s', step);
    hide Next;
    assert CallGood(s', c, s'.calls[c]);
    if HasLocal(s.db) { TheOnlyLocal(s.db, s'.calls[c].phase.principal); }
  }

  /** Some local user, if it is enabled. */
  ghost predicate AnswersFor(db: Db, p: Option<UserId>) {
    exists u :: u in db.users && db.users[u].isLocal && p == if db.users[u].disabled then None else Some(u)
  }

  lemma AnsweredBy(s: System, s': System, step: Step, c: CallId)
    requires Inv(s) && Next(s, s', step)
    requires c in s'.calls && s'.calls[c].phase.Answered? && !(c in s.calls && s.calls[c].phase.Answered?)
    ensures c in s.calls && s'.db == s.db
    ensures if HasLocal(s.db) then AnswersFor(s.db, s'.calls[c].phase.principal) else s'.calls[c].phase.principal == None
    ensures s'.calls[c].phase.made <==> s.calls[c].phase.Returned? && s.calls[c].phase.created
  {
    hide Create, CallGood, DbGood;
  }

  lemma TheOnlyLocal(db: Db, p: Option<UserId>)
    requires DbGood(db) && AnswersFor(db, p)
    ensures forall u :: p == Some(u) <==> u in db.users && db.users[u].isLocal && !db.users[u].disabled
    ensures p == None <==> forall u :: u in db.users && db.users[u].isLocal ==> db.users[u].disabled
  {
    var u :| IsLocalUser(db, u) && p == if db.users[u].disabled then None else Some(u);
    forall v | v in db.users && db.users[v].isLocal
      ensures v == u
    {
      assert IsLocalUser(db, v);
    }
  }

  /** The idempotent creation returns the local user: one it has just inserted, enabled, or one that was there. */
  lemma ReturnIsTheLocalUser(s: System, s': System, step: Step, c: CallId)
    requires Inv(s) && Next(s, s', step)
    requires c in s'.calls && s'.calls[c].phase.Returned? && !(c in s.calls && s.calls[c].phase.Returned?)
    ensures var u := s'.calls[c].phase.user;
      && u in s'.db.users && s'.db.users[u].isLocal
      && (if s'.calls[c].phase.created
          then u !in s.db.users && s'.db.users == s.db.users[u := User(true, false)] && forall v :: v in s.db.users ==> !s.db.users[v].isLocal
          else s'.db == s.db)
  {
    hide CallGood, DbGood;
  }

  ghost predicate Leads(s: System, steps: seq<Step>, t: System)
    decreases |steps|
  {
    if steps == [] then s == t
    else
      var n := |steps| - 1;
      exists m :: Leads(s, steps[..n], m) && Next(m, t, steps[n])
  }

  /** The call can bring s to t while nobody else moves, neither failing nor killed. */
  ghost predicate Alone(s: System, t: System, c: CallId) {
    exists steps :: Leads(s, steps, t) && forall step: Step :: step in steps ==> step.Advance? && step.c == c
  }

  lemma NotYet(s: System, c: CallId)
    ensures Alone(s, s, c)
  {
    assert Leads(s, [], s);
  }

  lemma OneStep(s: System, m: System, t: System, c: CallId, newId: UserId, secret: TokenId)
    requires Alone(s, m, c) && Next(m, t, Advance(c, newId, secret))
    ensures Alone(s, t, c)
  {
    hide Next;
    var steps :| Leads(s, steps, m) && forall step: Step :: step in steps ==> step.Advance? && step.c == c;
    var step := Advance(c, newId, secret);
    assert (steps + [step])[..|steps|] == steps;
    assert Leads(s, steps + [step], t);
  }

  /** From the look-up on, a creation left alone inserts the user it was given, with its pack and token, unless one is there. */
  lemma CreationGoesThrough(s0: System, s: System, c: CallId, newId: UserId, secret: TokenId) returns (t: System)
    requires Alone(s0, s, c) && c in s.calls && s.calls[c].phase.Check? && newId !in s.db.users && secret !in s.db.tokens
    ensures Alone(s0, t, c) && c in t.calls && t.calls[c].stdio == s.calls[c].stdio && t.lock == s.lock
    ensures if HasLocal(s.db) then t.db == s.db && (exists u :: IsLocalUser(s.db, u) && t.calls[c].phase == Returned(u, false))
      else t.calls[c].phase == Returned(newId, true) && t.db == Db(s.db.users[newId := User(true, false)], s.db.packs + {newId},
        if s.calls[c].token then s.db.tokens[secret := newId] else s.db.tokens)
  {
    if HasLocal(s.db) {
      var u :| u in s.db.users && s.db.users[u].isLocal;
      assert IsLocalUser(s.db, u);
      t := To(s, c, Returned(u, false));
      OneStep(s0, s, t, c, newId, secret);
    } else {
      var m := To(s, c, Insert);
      OneStep(s0, s, m, c, newId, secret);
      var made := Create(m.db, newId, true, if s.calls[c].token then Some(secret) else None);
      t := To(m, c, Returned(newId, true)).(db := made.db, creator := Some(c));
      OneStep(s0, m, t, c, newId, secret);
    }
  }

  /** A probe that finds a local user answers; one that finds none goes on. */
  lemma ProbeGoesThrough(s0: System, s: System, c: CallId, onward: Phase) returns (t: System)
    requires Alone(s0, s, c) && c in s.calls
    requires (s.calls[c].phase, onward) in {(Probe, WaitLock), (Recheck, RecheckOpen), (RecheckOpen, Check)}
    ensures Alone(s0, t, c) && c in t.calls && t.db == s.db && t.calls[c].stdio == s.calls[c].stdio
    ensures if HasLocal(s.db) then t.calls[c].phase.Answered? && !t.calls[c].phase.made && AnswersFor(s.db, t.calls[c].phase.principal)
      else t == To(s, c, onward)
  {
    if HasLocal(s.db) {
      var u :| u in s.db.users && s.db.users[u].isLocal;
      assert IsLocalUser(s.db, u);
      t := Release(To(s, c, Answered(if s.db.users[u].disabled then None else Some(u), false)), c);
    } else {
      t := To(s, c, onward);
    }
    assert Probes(s, t, c, onward);
    OneStep(s0, s, t, c, UserId(0), 0);
  }

  /**
   * A stdio call left alone is answered: with the enabled local user, if there is a local user, and
   * else with a new one, which it created with its pack and no token.
   */
  lemma StdioIsAnswered(s: System, c: CallId, newId: UserId) returns (t: System)
    requires Inv(s) && c in s.calls && s.calls[c] == Call(true, false, Probe) && s.lock.None? && newId !in s.db.users
    ensures Alone(s, t, c) && c in t.calls && t.calls[c].phase.Answered?
    ensures HasLocal(s.db) ==> t.db == s.db && !t.calls[c].phase.made && AnswersFor(s.db, t.calls[c].phase.principal)
    ensures !HasLocal(s.db) ==>
      && t.db == Db(s.db.users[newId := User(true, false)], s.db.packs + {newId}, s.db.tokens)
      && t.calls[c].phase == Answered(Some(newId), true)
  {
    hide Alone, Probes;
    NotYet(s, c);
    t := ProbeGoesThrough(s, s, c, WaitLock);
    if HasLocal(s.db) { return; }
    var locked := To(t, c, Recheck).(lock := Some(c));
    OneStep(s, t, locked, c, newId, 0);
    t := ProbeGoesThrough(s, locked, c, RecheckOpen);
    t := ProbeGoesThrough(s, t, c, Check);
    var secret := FreshToken(t.db.tokens.Keys);
    t := CreationGoesThrough(s, t, c, newId, secret);
    var answered := Release(To(t, c, Answered(Some(newId), true)), c);
    CreatedIsLocal(t.db, newId);
    OneStep(s, t, answered, c, newId, secret);
    t := answered;
  }

  lemma CreatedIsLocal(db: Db, u: UserId)
    requires u in db.users && db.users[u] == User(true, false)
    ensures HasLocal(db) && IsLocalUser(db, u)
  {
  }

  lemma {:induction false} FreshToken(ids: set<TokenId>) returns (n: TokenId)
    ensures forall i :: i in ids ==> i < n
    decreases |ids|
  {
    n := 0;
    if ids != {} {
      var i :| i in ids;
      var m := FreshToken(ids - {i});
      n := if m <= i then i + 1 else m;
      forall j | j in ids
        ensures j < n
      {
        assert j == i || j in ids - {i};
      }
    }
  }

  /**
   * The transaction of the idempotent creation: it is lost to a local user that is there, fails on
   * an id or a token that is taken, and else inserts.
   */
  lemma InsertOutcome(s: System, s': System, c: CallId, newId: UserId, secret: TokenId)
    requires c in s.calls && s.calls[c].phase.Insert? && Next(s, s', Advance(c, newId, secret))
    ensures var p := s'.calls[c].phase;
      if exists u :: u in s.db.users && s.db.users[u].isLocal then p == Lost && s'.db == s.db && s'.lock == s.lock
      else if newId in s.db.users || (s.calls[c].token && secret in s.db.tokens) then p == Failed && s'.db == s.db && s'.lock != Some(c)
      else p == Returned(newId, true) && newId in s'.db.users && s'.db.users[newId] == User(true, false) && s'.creator == Some(c)
  {
  }

  /** A call can fail or be killed at any point; the database stays and the lock is not kept. */
  lemma CallsCanEnd(s: System, c: CallId) returns (failed: System, killed: System)
    requires c in s.calls
    ensures Next(s, failed, Fail(c)) && Next(s, killed, Kill(c))
    ensures failed.db == killed.db == s.db && failed.lock != Some(c) && killed.lock != Some(c)
    ensures failed.calls.Keys == s.calls.Keys && failed.calls[c].phase.Failed? && killed.calls == s.calls - {c}
  {
    failed := Release(To(s, c, Failed), c);
    killed := Release(s.(calls := s.calls - {c}), c);
  }

  /** User administration is refused exactly a second local user, a taken id and a taken token, and an unknown user. */
  lemma AdministrationIsFree(s: System, u: UserId, isLocal: bool, secret: TokenId, disabled: bool)
    ensures (exists s' :: Next(s, s', CreateUser(u, isLocal, secret))) <==>
      u !in s.db.users && secret !in s.db.tokens && (isLocal ==> forall v :: v in s.db.users ==> !s.db.users[v].isLocal)
    ensures (exists s' :: Next(s, s', SetDisabled(u, disabled))) <==> u in s.db.users
    ensures forall s' :: Next(s, s', SetDisabled(u, disabled)) ==> s'.db.users == s.db.users[u := User(s.db.users[u].isLocal, disabled)]
  {
    var made := Create(s.db, u, isLocal, Some(secret));
    if made.Inserted? { assert Next(s, s.(db := made.db), CreateUser(u, isLocal, secret)); }
    if u in s.db.users {
      assert Next(s, s.(db := s.db.(users := s.db.users[u := s.db.users[u].(disabled := disabled)])), SetDisabled(u, disabled));
    }
  }

  // ------------------------------------------------------------------ all runs

  ghost predicate Init(s: System) {
    DbGood(s.db) && s.calls == map[] && s.lock.None? && s.creator.None?
  }

  ghost predicate Run(states: seq<System>, steps: seq<Step>) {
    && |states| == |steps| + 1
    && Init(states[0])
    && forall n :: 0 <= n < |steps| ==> Next(states[n], states[n + 1], steps[n])
  }

  lemma {:induction false} RunKeepsInv(states: seq<System>, steps: seq<Step>, n: nat)
    requires Run(states, steps) && n < |states|
    ensures Inv(states[n])
  {
    if n > 0 {
      RunKeepsInv(states, steps, n - 1);
      NextKeepsInv(states[n - 1], states[n], steps[n - 1]);
    }
  }

  lemma {:induction false} LocalUserStays(states: seq<System>, steps: seq<Step>, m: nat, n: nat, u: UserId)
    requires Run(states, steps) && m <= n < |states| && IsLocalUser(states[m].db, u)
    ensures IsLocalUser(states[n].db, u)
  {
    if m < n {
      LocalUserStays(states, steps, m, n - 1, u);
      assert Next(states[n - 1], states[n], steps[n - 1]);
    }
  }

  /** The user a call that has returned speaks of. */
  function UserOf(p: Phase): Option<UserId> {
    match p
    case Returned(u, _) => Some(u)
    case Answered(principal, _) => principal
    case _ => None
  }

  /** All calls that return a user, at whatever time and through whichever path, return the same one. */
  lemma AllCallsAgree(states: seq<System>, steps: seq<Step>, m: nat, n: nat, c: CallId, d: CallId)
    requires Run(states, steps) && m <= n < |states| && c in states[m].calls && d in states[n].calls
    requires UserOf(states[m].calls[c].phase).Some? && UserOf(states[n].calls[d].phase).Some?
    ensures UserOf(states[m].calls[c].phase) == UserOf(states[n].calls[d].phase)
    ensures IsLocalUser(states[n].db, UserOf(states[n].calls[d].phase).value)
  {
    RunKeepsInv(states, steps, m);
    RunKeepsInv(states, steps, n);
    assert CallGood(states[m], c, states[m].calls[c]) && CallGood(states[n], d, states[n].calls[d]);
    LocalUserStays(states, steps, m, n, UserOf(states[m].calls[c].phase).value);
  }

  lemma {:induction false} CreatorStays(states: seq<System>, steps: seq<Step>, m: nat, n: nat)
    requires Run(states, steps) && m <= n < |states| && states[m].creator.Some?
    ensures states[n].creator == states[m].creator
  {
    if m < n {
      CreatorStays(states, steps, m, n - 1);
      RunKeepsInv(states, steps, n - 1);
      assert Next(states[n - 1], states[n], steps[n - 1]);
    }
  }

  /** At most one call ever says that it created the user, and it is the one whose transaction did. */
  lemma OneCreator(states: seq<System>, steps: seq<Step>, m: nat, n: nat, c: CallId, d: CallId)
    requires Run(states, steps) && m <= n < |states| && c in states[m].calls && d in states[n].calls
    requires SaysCreated(states[m].calls[c].phase) && SaysCreated(states[n].calls[d].phase)
    ensures c == d && states[n].creator == Some(c)
  {
    RunKeepsInv(states, steps, m);
    RunKeepsInv(states, steps, n);
    assert CallGood(states[m], c, states[m].calls[c]) && CallGood(states[n], d, states[n].calls[d]);
    CreatorStays(states, steps, m, n);
  }

  predicate OnlyCalls(steps: seq<Step>) {
    forall step :: step in steps ==> !(step.CreateUser? && step.isLocal)
  }

  /** Where no local user existed and nobody else makes one, a local user means exactly one creator. */
  lemma {:induction false} SomeoneCreatedIt(states: seq<System>, steps: seq<Step>, n: nat)
    requires Run(states, steps) && n < |states| && !HasLocal(states[0].db) && OnlyCalls(steps)
    ensures HasLocal(states[n].db) <==> states[n].creator.Some?
  {
    if n > 0 {
      SomeoneCreatedIt(states, steps, n - 1);
      RunKeepsInv(states, steps, n);
      var s, s', step := states[n - 1], states[n], steps[n - 1];
      RunKeepsInv(states, steps, n - 1);
      assert step in steps && Next(s, s', step);
      if step.CreateUser? {
        CreateIsWhole(s.db, step.newId, step.isLocal, Some(step.secret));
      } else if s'.creator.None? {
        DisablingKeepsLocal(s.db, s'.db);
      }
    }
  }

  /**
   * So if some call returned a user, exactly one transaction made it; and unless that call was
   * killed or failed afterwards, exactly that one says so.
   */
  lemma ExactlyOneSaysSo(states: seq<System>, steps: seq<Step>, n: nat, c: CallId)
    requires Run(states, steps) && n < |states| && !HasLocal(states[0].db) && OnlyCalls(steps)
    requires c in states[n].calls && UserOf(states[n].calls[c].phase).Some?
    ensures states[n].creator.Some?
    ensures var k := states[n].creator.value;
      && (forall d :: d in states[n].calls && SaysCreated(states[n].calls[d].phase) ==> d == k)
      && (k in states[n].calls && !states[n].calls[k].phase.Failed? ==> SaysCreated(states[n].calls[k].phase))
  {
    RunKeepsInv(states, steps, n);
    var s := states[n];
    assert CallGood(s, c, s.calls[c]);
    SomeoneCreatedIt(states, steps, n);
    forall d | d in s.calls
      ensures CallGood(s, d, s.calls[d])
    {
    }
  }

  /** A call that lost the race always finds the winner: the code's RuntimeError is for no one. */
  lemma LoserFindsTheWinner(states: seq<System>, steps: seq<Step>, n: nat, c: CallId)
    requires Run(states, steps) && n < |states| && c in states[n].calls && states[n].calls[c].phase.Lost?
    ensures HasLocal(states[n].db)
  {
    RunKeepsInv(states, steps, n);
    assert CallGood(states[n], c, states[n].calls[c]);
  }

  /** User row, default pack and token come together or not at all, whatever step is taken. */
  lemma AllOrNothing(states: seq<System>, steps: seq<Step>, n: nat)
    requires Run(states, steps) && n < |steps|
    ensures var a, b := states[n].db, states[n + 1].db;
      && (forall u :: u in b.users ==> u in b.packs) && (forall t :: t in b.tokens ==> b.tokens[t] in b.users)
      && ((b.users.Keys == a.users.Keys && b.packs == a.packs && b.tokens == a.tokens)
          || exists u ::
               && b.users.Keys == a.users.Keys + {u} && u !in a.users && b.packs == a.packs + {u}
               && (forall t :: t in b.tokens && t !in a.tokens ==> b.tokens[t] == u)
               && (steps[n].Advance? && steps[n].c in states[n].calls && states[n].calls[steps[n].c].token
                   ==> steps[n].secret in b.tokens && b.tokens[steps[n].secret] == u))
  {
    RunKeepsInv(states, steps, n + 1);
    RunKeepsInv(states, steps, n);
    var s, s', step := states[n], states[n + 1], steps[n];
    assert Next(s, s', step);
    match step {
      case Advance(c, newId, secret) =>
        if s.calls[c].phase.Insert? && Create(s.db, newId, true, if s.calls[c].token then Some(secret) else None).Inserted? {
          CreateIsWhole(s.db, newId, true, if s.calls[c].token then Some(secret) else None);
          assert s'.db.users.Keys == s.db.users.Keys + {newId};
        }
      case CreateUser(newId, isLocal, secret) =>
        CreateIsWhole(s.db, newId, isLocal, Some(secret));
        assert s'.db.users.Keys == s.db.users.Keys + {newId};
      case SetDisabled(_, _) => assert s'.db.users.Keys == s.db.users.Keys;
      case _ =>
    }
  }

  // ------------------------------------------------------------- under the lock

  predicate OnlyStdio(steps: seq<Step>) {
    OnlyCalls(steps) && forall step :: step in steps && step.Start? ==> step.stdio
  }

  /** Between stdio calls alone there is no race to lose: the lock covers probe and creation. */
  lemma {:induction false} NoRaceUnderTheLock(states: seq<System>, steps: seq<Step>, n: nat)
    requires Run(states, steps) && n < |states| && OnlyStdio(steps)
    ensures forall c :: c in states[n].calls ==>
      && states[n].calls[c].stdio && !states[n].calls[c].phase.Lost?
      && (states[n].calls[c].phase.Insert? ==> !HasLocal(states[n].db))
  {
    if n > 0 {
      NoRaceUnderTheLock(states, steps, n - 1);
      RunKeepsInv(states, steps, n - 1);
      RunKeepsInv(states, steps, n);
      assert steps[n - 1] in steps;
      NoRaceStep(states[n - 1], states[n], steps[n - 1]);
    }
  }

  lemma NoRaceStep(s: System, s': System, step: Step)
    requires Inv(s) && Inv(s') && Next(s, s', step)
    requires !(step.CreateUser? && step.isLocal) && (step.Start? ==> step.stdio)
    requires forall c :: c in s.calls ==> s.calls[c].stdio && !s.calls[c].phase.Lost? && (s.calls[c].phase.Insert? ==> !HasLocal(s.db))
    ensures forall c :: c in s'.calls ==> s'.calls[c].stdio && !s'.calls[c].phase.Lost? && (s'.calls[c].phase.Insert? ==> !HasLocal(s'.db))
  {
    if step.CreateUser? {
      CreateIsWhole(s.db, step.newId, step.isLocal, Some(step.secret));
    } else if step.SetDisabled? {
      DisablingKeepsLocal(s.db, s'.db);
    }
    forall c | c in s'.calls
      ensures s'.calls[c].stdio && !s'.calls[c].phase.Lost? && (s'.calls[c].phase.Insert? ==> !HasLocal(s'.db))
    {
      assert CallGood(s', c, s'.calls[c]);
      if step.Advance? && c != step.c {
        assert CallGood(s, c, s.calls[c]) && CallGood(s, step.c, s.calls[step.c]);
      }
    }
  }

  // -------------------------------------------------------------- runs there are

  lemma {:induction false} LeadsOn(s: System, a: seq<Step>, m: System, b: seq<Step>, t: System)
    requires Leads(s, a, m) && Leads(m, b, t)
    ensures Leads(s, a + b, t)
    decreases |b|
  {
    if b == [] {
      assert a + b == a;
    } else {
      hide Next;
      var n := |b| - 1;
      var q :| Leads(m, b[..n], q) && Next(q, t, b[n]);
      LeadsOn(s, a, m, b[..n], q);
      assert (a + b)[..|a + b| - 1] == a + b[..n] && (a + b)[|a + b| - 1] == b[n];
    }
  }

  lemma {:induction false} LeadsIsRun(s: System, steps: seq<Step>, t: System) returns (states: seq<System>)
    requires Init(s) && Leads(s, steps, t)
    ensures Run(states, steps) && states[0] == s && states[|steps|] == t
    decreases |steps|
  {
    if steps == [] {
      states := [s];
    } else {
      hide Next, Init;
      var n := |steps| - 1;
      var m :| Leads(s, steps[..n], m) && Next(m, t, steps[n]);
      states := LeadsIsRun(s, steps[..n], m);
      states := states + [t];
      forall i | 0 <= i < |steps|
        ensures Next(states[i], states[i + 1], steps[i])
      {
        if i < n { assert steps[..n][i] == steps[i]; }
      }
    }
  }

  /** From every database there is a run in which a stdio call starts and is answered. */
  lemma StdioRuns(s: System, c: CallId, newId: UserId) returns (states: seq<System>, steps: seq<Step>)
    requires Init(s) && newId !in s.db.users
    ensures Run(states, steps) && states[0] == s
    ensures var t := states[|steps|];
      && c in t.calls && t.calls[c].phase.Answered?
      && (if HasLocal(s.db) then t.db == s.db && !t.calls[c].phase.made && AnswersFor(s.db, t.calls[c].phase.principal)
          else t.db == Db(s.db.users[newId := User(true, false)], s.db.packs + {newId}, s.db.tokens)
               && t.calls[c].phase == Answered(Some(newId), true))
  {
    var started := s.(calls := s.calls[c := Call(true, false, Probe)]);
    assert Next(s, started, Start(c, true, false));
    NextKeepsInv(s, started, Start(c, true, false));
    assert [Start(c, true, false)][..0] == [] && Leads(s, [], s);
    assert Leads(s, [Start(c, true, false)], started);
    var t := StdioIsAnswered(started, c, newId);
    hide Next, Init, Inv;
    var more :| Leads(started, more, t) && forall step: Step :: step in more ==> step.Advance? && step.c == c;
    LeadsOn(s, [Start(c, true, false)], started, more, t);
    steps := [Start(c, true, false)] + more;
    states := LeadsIsRun(s, steps, t);
  }

  /** Both calls have looked, found nobody and are about to run the transaction. */
  predicate BothInsert(s: System, c: CallId, d: CallId) {
    c in s.calls && d in s.calls && s.calls[c].phase.Insert? && s.calls[d].phase.Insert?
  }

  lemma RaceSteps(s2: System, s3: System, s4: System, s5: System, c: CallId, d: CallId, token: bool, a: UserId, b: UserId, x: TokenId, y: TokenId)
    requires !HasLocal(s2.db) && c != d && a !in s2.db.users && x !in s2.db.tokens && c in s2.calls && d in s2.calls
    requires s2.calls[c] == s2.calls[d] == Call(false, token, Check)
    requires s3 == To(s2, c, Insert) && s4 == To(s3, d, Insert)
    requires Create(s2.db, a, true, if token then Some(x) else None).Inserted?
    requires s5 == To(s4, c, Returned(a, true)).(db := Create(s2.db, a, true, if token then Some(x) else None).db, creator := Some(c))
    ensures Next(s2, s3, Advance(c, a, x)) && Next(s3, s4, Advance(d, b, y)) && Next(s4, s5, Advance(c, a, x))
  {
  }

  /** From every database without a local user two init calls can race: one inserts, the other loses and returns its user. */
  lemma TheRace(s: System, c: CallId, d: CallId, token: bool, a: UserId, b: UserId, x: TokenId, y: TokenId)
    returns (states: seq<System>, steps: seq<Step>)
    requires Init(s) && !HasLocal(s.db) && c != d && a !in s.db.users && x !in s.db.tokens
    ensures Run(states, steps) && states[0] == s
    ensures exists i :: 0 <= i < |states| && BothInsert(states[i], c, d)
    ensures var t := states[|steps|];
      && c in t.calls && t.calls[c] == Call(false, token, Returned(a, true)) && d in t.calls && t.calls[d] == Call(false, token, Returned(a, false))
      && t.db.users == s.db.users[a := User(true, false)]
  {
    var s1 := s.(calls := s.calls[c := Call(false, token, Check)]);
    var s2 := s1.(calls := s1.calls[d := Call(false, token, Check)]);
    var s3 := To(s2, c, Insert);
    var s4 := To(s3, d, Insert);
    var made := Create(s.db, a, true, if token then Some(x) else None);
    var s5 := To(s4, c, Returned(a, true)).(db := made.db, creator := Some(c));
    var s6 := To(s5, d, Lost);
    var s7 := To(s6, d, Returned(a, false));
    CreatedIsLocal(made.db, a);
    RaceSteps(s2, s3, s4, s5, c, d, token, a, b, x, y);
    states := [s, s1, s2, s3, s4, s5, s6, s7];
    steps := [Start(c, false, token), Start(d, false, token), Advance(c, a, x), Advance(d, b, y),
              Advance(c, a, x), Advance(d, b, y), Advance(d, b, y)];
    assert Next(s, s1, steps[0]) && Next(s1, s2, steps[1]);
    assert Next(s5, s6, steps[5]);
    assert IsLocalUser(s6.db, a) && Next(s6, s7, steps[6]);
    assert BothInsert(states[4], c, d);
  }
}
