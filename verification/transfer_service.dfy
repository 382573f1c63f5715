/** The transfer handler as the program runs it: middleware, validation, the transaction
    closure inside its retry loop, and the post-commit writes, with every other actor
    free to move before each remote call. */
module TransferService {
  import opened Base
  import opened Decimal
  import opened Ledger
  import T = Transactions
  import TI = TransactionInvariants
  import G = Guarantees
  import O = Outcomes
  import opened Attempts
  import opened System
  import SI = SystemInvariants
  import opened Runtime
  import P = Projection

  ghost predicate SameAttempt(q: T.Request, q': T.Request) {
    TI.SameParameters(q, q') && q'.attempt == q.attempt
  }

  /** The world stays valid and keeps what every call keeps. */
  twostate predicate Carried(w: World, r: nat, quiet: bool)
    reads w
  {
    r in w.now.db.reqs && w.Valid() && CarriedOver(old(w.now), w.now, r, quiet)
  }

  /** Others move; then the call may fail, which rolls the attempt back. */
  method Arrive(w: World, r: nat, m: Move) returns (err: Option<T.Error>)
    requires w.Valid() && T.Active(w.now.db, r)
    modifies w
    ensures Carried(w, r, m.others == []) && w.now.db.reqs[r].res == old(w.now.db.reqs[r].res)
    ensures err.None? <==> m.fault.NoFault?
    ensures err.None? ==> w.now.db.reqs[r] == old(w.now.db.reqs[r])
    ensures err.None? && m.others == [] ==> w.now.db == old(w.now.db)
    ensures err.Some? ==> AttemptEnded(old(w.now.db.reqs[r]), w.now.db, r, m, err)
  {
    ghost var was := w.now;
    w.Interfere(Tx(r), m.others);
    ghost var arrived := w.now;
    OthersCarry(was, arrived, r, m.others == []);
    err := None;
    if m.fault.Serialization? {
      err := Retract(w, r, m);
    } else if m.fault.Broken? {
      err := GiveUp(w, r, m);
    } else {
      NothingCarries(arrived, r);
    }
    CarriedTransitive(was, arrived, w.now, r, m.others == [], true, m.others == []);
  }

  /** SQLSTATE 40001: roll back, and sleep unless this was the last attempt. */
  method Retract(w: World, r: nat, m: Move) returns (err: Option<T.Error>)
    requires w.Valid() && T.Active(w.now.db, r)
    requires m.fault.Serialization? || (m.fault.NoFault? && Outdated(w.now.db, r))
    modifies w
    ensures Carried(w, r, true) && w.now.db.reqs[r].res == old(w.now.db.reqs[r].res)
    ensures err == Some(T.SerializationFailure) && AttemptEnded(old(w.now.db.reqs[r]), w.now.db, r, m, err)
    ensures
      && var attempt, was := old(w.now.db.reqs[r].attempt), old(w.now.db.reqs[r].slept);
      && attempt < 5
      && w.now.db.reqs[r].slept - was ==
           if attempt < 4 then m.jitter % ([1, 2, 4, 8][attempt] * 2_000_000) else 0
  {
    ReadyForStatement(w.now, r);
    var attempt := w.now.db.reqs[r].attempt;
    TI.ShiftMonotone(attempt);
    var delay := if attempt < T.MAX_RETRIES - 1 then m.jitter % T.MaxDelay(attempt) else 0;
    ghost var last := w.now;
    w.Statement(T.Abort(r, delay));
    AbortEnds(last, w.now, r, delay, m);
    err := Some(T.SerializationFailure);
  }

  lemma AbortEnds(s: Sys, s': Sys, r: nat, delay: nat, m: Move)
    requires Sound(s) && T.Enabled(s.db, T.Abort(r, delay)) && s' == s.(db := T.Apply(s.db, T.Abort(r, delay)))
    requires m.fault.Serialization? || (m.fault.NoFault? && Outdated(s.db, r))
    ensures CarriedOver(s, s', r, true) && r in s'.db.reqs && s'.db.reqs[r].res == s.db.reqs[r].res
    ensures s'.db.reqs[r].slept == s.db.reqs[r].slept + (if s.db.reqs[r].attempt < 4 then delay else 0)
    ensures AttemptEnded(s.db.reqs[r], s'.db, r, m, Some(T.SerializationFailure))
  {
    ReadyForStatement(s, r);
    OwnStatementCarries(s, T.Abort(r, delay), r);
    EndedByStatement(s, T.Abort(r, delay), r, m);
  }

  /** Any other failure of a call, or a lock that was not granted in time: roll back. */
  method GiveUp(w: World, r: nat, m: Move) returns (err: Option<T.Error>)
    requires w.Valid() && T.Active(w.now.db, r)
    requires m.fault.Broken? || (m.fault.NoFault? && Stuck(w.now.db, r))
    modifies w
    ensures Carried(w, r, true) && w.now.db.reqs[r].res == old(w.now.db.reqs[r].res)
    ensures err == Some(T.Internal) && AttemptEnded(old(w.now.db.reqs[r]), w.now.db, r, m, err)
  {
    ghost var last := w.now;
    w.Statement(T.Break(r));
    OwnStatementCarries(last, T.Break(r), r);
    EndedByStatement(last, T.Break(r), r, m);
    err := Some(T.Internal);
  }

  /** The receiver lookup: a found id matches the identifier, not-found means that no row
      does, and finding oneself ends the attempt like any error. */
  ghost predicate Resolved(q: T.Request, now: T.Db, r: nat, m: Move, err: Option<T.Error>, id: int)
    requires r in now.reqs
  {
    var q', users := now.reqs[r], T.Current(now).users;
    && (err.Some? ==> AttemptEnded(q, now, r, m, err) && q'.res == q.res)
    && (m.fault.NoFault? && err.Some? ==> err == Some(T.ReceiverNotFound) && MayReturn(users, q.key, None))
    && (err.None? ==> m.fault.NoFault? && MayReturn(users, q.key, Some(id)))
    && (err.None? && id == q.sender ==> AttemptEnded(q, now, r, m, Some(T.SelfTransfer)) && q'.res == q.res)
    && (err.None? && id != q.sender ==>
          && SameAttempt(q, q') && q'.res == q.res.(receiverId := id)
          && q'.phase == T.Locking(|now.hist| - 1, id, 0) && now.hist != [])
  }

  /** SELECT id FROM users WHERE the identifier matches. */
  method ResolveReceiver(w: World, r: nat, m: Move) returns (err: Option<T.Error>, id: int)
    requires w.Valid() && r in w.now.db.reqs && w.now.db.reqs[r].phase.Ready?
    modifies w
    ensures Carried(w, r, m.others == []) && Resolved(old(w.now.db.reqs[r]), w.now.db, r, m, err, id)
  {
    ghost var was := w.now;
    id := 0;
    err := Arrive(w, r, m);
    if err.None? {
      ghost var arrived := w.now;
      err, id := QueryReceiver(w, r, m);
      CarriedTransitive(was, arrived, w.now, r, m.others == [], true, m.others == []);
    }
  }

  method QueryReceiver(w: World, r: nat, m: Move) returns (err: Option<T.Error>, id: int)
    requires w.Valid() && r in w.now.db.reqs && w.now.db.reqs[r].phase.Ready? && m.fault.NoFault?
    modifies w
    ensures Carried(w, r, true) && Resolved(old(w.now.db.reqs[r]), w.now.db, r, m, err, id)
  {
    id := 0;
    ghost var last := w.now;
    var users, key := T.Current(w.now.db).users, w.now.db.reqs[r].key;
    if found :| found in users && Matches(users[found], key) {
      w.Statement(T.Resolve(r, Some(found)));
      LookupEnds(last, w.now, r, Some(found), m);
      return None, found;
    }
    w.Statement(T.Resolve(r, None));
    LookupEnds(last, w.now, r, None, m);
    err := Some(T.ReceiverNotFound);
  }

  lemma LookupEnds(s: Sys, s': Sys, r: nat, pick: Option<int>, m: Move)
    requires Sound(s) && T.Enabled(s.db, T.Resolve(r, pick)) && m.fault.NoFault?
    requires s' == s.(db := T.Apply(s.db, T.Resolve(r, pick)))
    ensures CarriedOver(s, s', r, true) && r in s'.db.reqs
    ensures Resolved(s.db.reqs[r], s'.db, r, m,
      if pick.None? then Some(T.ReceiverNotFound) else None, if pick.None? then 0 else pick.value)
  {
    assert s.db.hist != [] by {
      assert Spelled(0);
    }
    OwnStatementCarries(s, T.Resolve(r, pick), r);
    EndedByStatement(s, T.Resolve(r, pick), r, m);
  }

  ghost predicate OneMoreLocked(db: T.Db, db': T.Db, r: nat, m: Move, err: Option<T.Error>)
    requires T.InLocking(db, r) && r in db'.reqs
  {
    && (err.Some? ==> AttemptEnded(db.reqs[r], db', r, m, err))
    && (err.None? ==>
          && m.fault.NoFault? && T.InLocking(db', r) && T.LockOrder(db', r) == T.LockOrder(db, r)
          && SameAttempt(db.reqs[r], db'.reqs[r])
          && db'.reqs[r].phase == db.reqs[r].phase.(held := db.reqs[r].phase.held + 1))
  }

  /** The lock wait for one row: a row that stays locked until the statement timeout, or
      that changed after the snapshot, ends the attempt. */
  method LockRow(w: World, r: nat, m: Move) returns (err: Option<T.Error>)
    requires w.Valid() && T.Awaited(w.now.db, r).Some?
    modifies w
    ensures Carried(w, r, m.others == []) && w.now.db.reqs[r].res == old(w.now.db.reqs[r].res)
    ensures OneMoreLocked(old(w.now.db), w.now.db, r, m, err)
    ensures m.others == [] && m.fault.NoFault? && err.Some? ==> Stuck(old(w.now.db), r) || Outdated(old(w.now.db), r)
  {
    ghost var was := w.now;
    ghost var before := w.now.db;
    ReceiverLocked(w.now, r);
    err := Arrive(w, r, m);
    if err.None? {
      ghost var arrived := w.now;
      CarriedExtends(was, arrived, r, m.others == []);
      SameOrder(before, w.now.db, r);
      err := TakeRow(w, r, m);
      CarriedTransitive(was, arrived, w.now, r, m.others == [], true, m.others == []);
    }
  }

  method TakeRow(w: World, r: nat, m: Move) returns (err: Option<T.Error>)
    requires w.Valid() && T.Awaited(w.now.db, r).Some? && m.fault.NoFault?
    modifies w
    ensures Carried(w, r, true) && w.now.db.reqs[r].res == old(w.now.db.reqs[r].res)
    ensures OneMoreLocked(old(w.now.db), w.now.db, r, m, err)
    ensures err.Some? <==> Stuck(old(w.now.db), r) || Outdated(old(w.now.db), r)
  {
    var row := T.Awaited(w.now.db, r).value;
    if row in w.now.db.locks {
      err := GiveUp(w, r, m);
    } else if !T.Unchanged(w.now.db.ver, w.now.db.reqs[r].phase.at, row) {
      err := Retract(w, r, m);
    } else {
      ghost var free := w.now;
      w.Statement(T.Lock(r));
      OwnStatementCarries(free, T.Lock(r), r);
      err := None;
    }
  }

  /** The snapshot, hence the rows to lock and their order, stays while others commit. */
  lemma SameOrder(db: T.Db, db': T.Db, r: nat)
    requires T.InLocking(db, r) && db.reqs[r].phase.at < |db.hist| && SI.Extends(db, db')
    requires r in db'.reqs && db'.reqs[r] == db.reqs[r]
    ensures T.LockOrder(db', r) == T.LockOrder(db, r) && T.LockedRows(db', r) == T.LockedRows(db, r)
  {
    assert db'.hist[db.reqs[r].phase.at] == db.hist[db.reqs[r].phase.at];
  }

  /** u is the row of user id as committed now. */
  predicate IsCurrentRow(db: T.Db, u: User, id: int) {
    u.id == id && id in T.Current(db).users && T.Current(db).users[id] == u
  }

  /** What success of both locks means. */
  ghost predicate BothLocked(q: T.Request, db: T.Db, r: nat, pair: (User, User))
    requires r in db.reqs
  {
    && SameAttempt(q, db.reqs[r]) && T.Enabled(db, T.Debit(r)) && |T.LockedRows(db, r)| == 2
    && q.phase.Locking? && db.reqs[r].phase == q.phase.(held := 2)
    && pair == T.MapBack(T.LockedRows(db, r), q.sender)
    && IsCurrentRow(db, pair.0, q.sender) && IsCurrentRow(db, pair.1, q.phase.receiver)
  }

  /** SELECT ... ORDER BY id FOR UPDATE: rows are locked one by one, lowest id first;
      anything but two rows is an error. */
  method LockBothUsers(w: World, r: nat, env: Env, start: nat)
    returns (err: Option<T.Error>, pair: (User, User), t: nat)
    requires w.Valid() && r in w.now.db.reqs && w.now.db.reqs[r].phase.Locking? && w.now.db.reqs[r].phase.held == 0
    modifies w
    ensures Carried(w, r, Quiet(env)) && w.now.db.reqs[r].res == old(w.now.db.reqs[r].res)
    ensures start < t && Clean(env, start, t - 1)
    ensures err.Some? ==> AttemptEnded(old(w.now.db.reqs[r]), w.now.db, r, env(t - 1), err)
    ensures err.None? ==> env(t - 1).fault.NoFault? && BothLocked(old(w.now.db.reqs[r]), w.now.db, r, pair)
    ensures Quiet(env) && OnlyMine(old(w.now.db), r) && AtCurrent(old(w.now.db), r) && env(t - 1).fault.NoFault? ==>
      if old(w.now.db.reqs[r].sender in T.Current(w.now.db).users) then err.None? else err == Some(T.Internal)
  {
    ghost var was := w.now;
    pair := (NO_USER, NO_USER);
    ReceiverLocked(w.now, r);
    ghost var calm := Quiet(env) && OnlyMine(w.now.db, r) && AtCurrent(w.now.db, r);
    err, t := LockRows(w, r, env, start);
    if err.None? {
      ghost var locked := w.now;
      if calm {
        CarriedQuietly(was, locked, r);
        RowsFound(w.now, r);
      }
      err, pair := PairUp(w, r, env(t - 1));
      CarriedTransitive(was, locked, w.now, r, Quiet(env), true, Quiet(env));
    }
  }

  method LockRows(w: World, r: nat, env: Env, start: nat) returns (err: Option<T.Error>, t: nat)
    requires w.Valid() && T.InLocking(w.now.db, r) && w.now.db.reqs[r].phase.held == 0 && |T.LockOrder(w.now.db, r)| > 0
    modifies w
    ensures Carried(w, r, Quiet(env)) && w.now.db.reqs[r].res == old(w.now.db.reqs[r].res)
    ensures start < t && Clean(env, start, t - 1)
    ensures err.Some? ==> AttemptEnded(old(w.now.db.reqs[r]), w.now.db, r, env(t - 1), err)
    ensures err.None? ==>
      && env(t - 1).fault.NoFault? && SameAttempt(old(w.now.db.reqs[r]), w.now.db.reqs[r]) && T.InLocking(w.now.db, r)
      && w.now.db.reqs[r].phase == old(w.now.db.reqs[r].phase).(held := |T.LockOrder(w.now.db, r)|)
    ensures Quiet(env) && OnlyMine(old(w.now.db), r) && AtCurrent(old(w.now.db), r) && env(t - 1).fault.NoFault? ==>
      err.None?
  {
    t, err := start, None;
    ghost var was, q, calm := w.now, w.now.db.reqs[r], Quiet(env) && OnlyMine(w.now.db, r) && AtCurrent(w.now.db, r);
    NothingCarries(was, r);
    while err.None? && w.now.db.reqs[r].phase.held < |T.LockOrder(w.now.db, r)|
      invariant Carried(w, r, Quiet(env)) && w.now.db.reqs[r].res == q.res
      invariant LockProgress(q, w.now, r, env, start, t, err, calm)
      decreases err.None?, if err.None? then |T.LockOrder(w.now.db, r)| - w.now.db.reqs[r].phase.held else 0
    {
      ghost var before := w.now;
      err := NextRow(w, r, env, start, t, q, calm);
      CarriedTransitive(was, before, w.now, r, Quiet(env), env(t).others == [], Quiet(env));
      t := t + 1;
    }
  }

  /** Between two rows: those so far are locked, and no call failed; or the attempt ended.
      When nobody else acts (calm) only a failed call ends it. */
  ghost predicate LockProgress(
    q: T.Request, s: Sys, r: nat, env: Env, start: nat, t: nat, err: Option<T.Error>, calm: bool)
  {
    && start <= t && Clean(env, start, if err.None? then t else t - 1)
    && (err.Some? ==>
          && start < t && AttemptEnded(q, s.db, r, env(t - 1), err) && (calm ==> !env(t - 1).fault.NoFault?))
    && (err.None? ==>
          && T.InLocking(s.db, r) && SameAttempt(q, s.db.reqs[r])
          && |T.LockOrder(s.db, r)| > 0 && s.db.reqs[r].phase.held <= |T.LockOrder(s.db, r)|
          && q.phase.Locking? && s.db.reqs[r].phase == q.phase.(held := s.db.reqs[r].phase.held)
          && (s.db.reqs[r].phase.held > 0 ==> start < t && env(t - 1).fault.NoFault?)
          && (calm ==> Quiet(env) && OnlyMine(s.db, r) && AtCurrent(s.db, r)))
  }

  method NextRow(w: World, r: nat, env: Env, start: nat, t: nat, ghost q: T.Request, ghost calm: bool)
    returns (err: Option<T.Error>)
    requires w.Valid() && LockProgress(q, w.now, r, env, start, t, None, calm)
    requires w.now.db.reqs[r].phase.held < |T.LockOrder(w.now.db, r)|
    modifies w
    ensures Carried(w, r, env(t).others == []) && w.now.db.reqs[r].res == old(w.now.db.reqs[r].res)
    ensures LockProgress(q, w.now, r, env, start, t + 1, err, calm)
    ensures err.None? ==>
      && T.InLocking(w.now.db, r) && T.LockOrder(w.now.db, r) == old(T.LockOrder(w.now.db, r))
      && w.now.db.reqs[r].phase.held == old(w.now.db.reqs[r].phase.held) + 1
  {
    ghost var was, q1 := w.now, w.now.db.reqs[r];
    if calm {
      NoContention(w.now, r);
    }
    err := LockRow(w, r, env(t));
    if calm {
      CarriedQuietly(was, w.now, r);
    }
    if err.Some? {
      LaterAttempt(q, q1, w.now.db, r, env(t), err);
    }
  }

  /** The two rows as (sender, receiver), or an error when they are not two. */
  method PairUp(w: World, r: nat, m: Move) returns (err: Option<T.Error>, pair: (User, User))
    requires w.Valid() && T.Enabled(w.now.db, T.Debit(r)) && m.fault.NoFault?
    modifies w
    ensures Carried(w, r, true) && w.now.db.reqs[r].res == old(w.now.db.reqs[r].res)
    ensures err.None? <==> old(|T.LockedRows(w.now.db, r)|) == 2
    ensures err.Some? ==> err == Some(T.Internal) && AttemptEnded(old(w.now.db.reqs[r]), w.now.db, r, m, err)
    ensures err.None? ==>
      && w.now.db == old(w.now.db)
      && pair == T.MapBack(T.LockedRows(w.now.db, r), w.now.db.reqs[r].sender) && w.now.db.reqs[r].phase.held == 2
      && IsCurrentRow(w.now.db, pair.0, w.now.db.reqs[r].sender)
      && IsCurrentRow(w.now.db, pair.1, w.now.db.reqs[r].phase.receiver)
  {
    pair := (NO_USER, NO_USER);
    NothingCarries(w.now, r);
    if |T.LockedRows(w.now.db, r)| != 2 {
      ghost var last := w.now;
      w.Statement(T.Debit(r));
      OwnStatementCarries(last, T.Debit(r), r);
      EndedByStatement(last, T.Debit(r), r, m);
      err := Some(T.Internal);
    } else {
      PairIsCurrent(w.now, r);
      err, pair := None, T.MapBack(T.LockedRows(w.now.db, r), w.now.db.reqs[r].sender);
    }
  }

  lemma PairIsCurrent(s: Sys, r: nat)
    requires Sound(s) && T.Enabled(s.db, T.Debit(r)) && |T.LockedRows(s.db, r)| == 2
    ensures
      && var q := s.db.reqs[r];
      && var pair := T.MapBack(T.LockedRows(s.db, r), q.sender);
      && IsCurrentRow(s.db, pair.0, q.sender) && IsCurrentRow(s.db, pair.1, q.phase.receiver)
  {
    assert Spelled(0);
    TI.MapBackIsSenderReceiver(s.db, r);
  }

  /** The CASE update; the funds were checked on the locked sender row. With them there it
      fails, on a call that went through, exactly when the credit leaves the BIGINT range. */
  method UpdateBalances(w: World, r: nat, pair: (User, User), m: Move) returns (err: Option<T.Error>)
    requires w.Valid() && T.Enabled(w.now.db, T.Debit(r)) && |T.LockedRows(w.now.db, r)| == 2
    requires pair == T.MapBack(T.LockedRows(w.now.db, r), w.now.db.reqs[r].sender)
    requires pair.0.balance >= w.now.db.reqs[r].amount
    modifies w
    ensures Carried(w, r, m.others == []) && w.now.db.reqs[r].res == old(w.now.db.reqs[r].res)
    ensures err.Some? ==> AttemptEnded(old(w.now.db.reqs[r]), w.now.db, r, m, err)
    ensures err.None? ==> m.fault.NoFault? && DebitedBy(old(w.now.db.reqs[r]), w.now.db.reqs[r], pair)
    ensures m.fault.NoFault? ==>
      err == if IsInt64(pair.1.balance + old(w.now.db.reqs[r].amount)) then None else Some(T.Internal)
  {
    ghost var was := w.now;
    ghost var before := w.now.db;
    ReceiverLocked(w.now, r);
    err := Arrive(w, r, m);
    if err.None? {
      ghost var arrived := w.now;
      CarriedExtends(was, arrived, r, m.others == []);
      SameOrder(before, w.now.db, r);
      err := ExecUpdate(w, r, pair, m);
      CarriedTransitive(was, arrived, w.now, r, m.others == [], true, m.others == []);
    }
  }

  ghost predicate DebitedBy(q: T.Request, q': T.Request, pair: (User, User)) {
    SameAttempt(q, q') && q'.phase.Debited? && q'.phase.s == pair.0 && q'.phase.rc == pair.1
  }

  method ExecUpdate(w: World, r: nat, pair: (User, User), m: Move) returns (err: Option<T.Error>)
    requires w.Valid() && T.Enabled(w.now.db, T.Debit(r)) && |T.LockedRows(w.now.db, r)| == 2 && m.fault.NoFault?
    requires pair == T.MapBack(T.LockedRows(w.now.db, r), w.now.db.reqs[r].sender)
    requires pair.0.balance >= w.now.db.reqs[r].amount
    modifies w
    ensures Carried(w, r, true) && w.now.db.reqs[r].res == old(w.now.db.reqs[r].res)
    ensures err == if IsInt64(pair.1.balance + old(w.now.db.reqs[r].amount)) then None else Some(T.Internal)
    ensures err.Some? ==> AttemptEnded(old(w.now.db.reqs[r]), w.now.db, r, m, err)
    ensures err.None? ==> DebitedBy(old(w.now.db.reqs[r]), w.now.db.reqs[r], pair)
  {
    UpdateOutcomes(w.now, r, pair);
    ghost var last := w.now;
    w.Statement(T.Debit(r));
    OwnStatementCarries(last, T.Debit(r), r);
    EndedByStatement(last, T.Debit(r), r, m);
    err := if w.now.db.reqs[r].phase.Debited? then None else Some(T.Internal);
  }

  /** With the funds there, the update affects both rows or fails as a statement; the
      defensive row-count check never fires. */
  lemma UpdateOutcomes(s: Sys, r: nat, pair: (User, User))
    requires Sound(s) && T.Enabled(s.db, T.Debit(r)) && |T.LockedRows(s.db, r)| == 2
    requires pair == T.MapBack(T.LockedRows(s.db, r), s.db.reqs[r].sender) && pair.0.balance >= s.db.reqs[r].amount
    ensures
      var q, q' := s.db.reqs[r], T.DebitStep(s.db, r).reqs[r];
      && SameAttempt(q, q') && q'.res == q.res
      && if IsInt64(pair.1.balance + q.amount) then DebitedBy(q, q', pair) else q'.phase == T.Failed(T.Internal)
  {
    assert Spelled(0);
    TI.MapBackIsSenderReceiver(s.db, r);
    G.DebitSucceedsIff(s.db, r);
    O.DebitFailsForReason(s.db, r, T.Internal);
  }

  /** What the closure captures for the post-commit writes, in Go's int64 arithmetic. */
  function Filled(res: T.Captured, s: User, rc: User, amount: int): T.Captured {
    res.(
      senderId := s.id, senderPhone := s.phone, senderBalance := Wrap64(s.balance - amount),
      receiverPhone := rc.phone, receiverBalance := Wrap64(rc.balance + amount))
  }

  method InsertTransferRecord(w: World, r: nat, m: Move) returns (err: Option<T.Error>, id: int)
    requires w.Valid() && r in w.now.db.reqs && w.now.db.reqs[r].phase.Debited?
    modifies w
    ensures Carried(w, r, m.others == [])
    ensures err.None? <==> m.fault.NoFault?
    ensures err.Some? ==> AttemptEnded(old(w.now.db.reqs[r]), w.now.db, r, m, err)
    ensures err.Some? ==> w.now.db.reqs[r].res == old(w.now.db.reqs[r].res)
    ensures err.None? ==>
      && SameAttempt(old(w.now.db.reqs[r]), w.now.db.reqs[r]) && w.now.db.reqs[r].phase.Recorded?
      && var s, rc, amount := old(w.now.db.reqs[r].phase.s), old(w.now.db.reqs[r].phase.rc), w.now.db.reqs[r].amount;
         w.now.db.reqs[r].res == Filled(old(w.now.db.reqs[r].res).(transferId := id), s, rc, amount)
  {
    ghost var was := w.now;
    id := 0;
    err := Arrive(w, r, m);
    if err.None? {
      ghost var arrived := w.now;
      id := w.now.db.nextTransfer;
      w.Statement(T.InsertTransfer(r));
      OwnStatementCarries(arrived, T.InsertTransfer(r), r);
      CarriedTransitive(was, arrived, w.now, r, m.others == [], true, m.others == []);
    }
  }

  method InsertNotifications(w: World, r: nat, m: Move) returns (err: Option<T.Error>)
    requires w.Valid() && r in w.now.db.reqs && w.now.db.reqs[r].phase.Recorded?
    modifies w
    ensures Carried(w, r, m.others == []) && w.now.db.reqs[r].res == old(w.now.db.reqs[r].res)
    ensures err.None? <==> m.fault.NoFault?
    ensures err.Some? ==> AttemptEnded(old(w.now.db.reqs[r]), w.now.db, r, m, err)
    ensures err.None? ==>
      && SameAttempt(old(w.now.db.reqs[r]), w.now.db.reqs[r]) && w.now.db.reqs[r].phase.Notified?
      && var s, rc := old(w.now.db.reqs[r].phase.s), old(w.now.db.reqs[r].phase.rc);
         var amount := Itoa(w.now.db.reqs[r].amount);
         var was, now := old(w.now.db.reqs[r].phase.w), w.now.db.reqs[r].phase.w;
         && now == was.(notes := now.notes) && |now.notes| == 2
         && var id := now.notes[0].id;
         && now.notes[0] == Notification(id, s.id, "You sent " + amount + " to " + rc.username, false)
         && now.notes[1] == Notification(id + 1, rc.id, "You received " + amount + " from " + s.username, false)
  {
    ghost var was := w.now;
    err := Arrive(w, r, m);
    if err.None? {
      ghost var arrived := w.now;
      ReadyForStatement(arrived, r);
      w.Statement(T.InsertNotes(r));
      OwnStatementCarries(arrived, T.InsertNotes(r), r);
      CarriedTransitive(was, arrived, w.now, r, m.others == [], true, m.others == []);
    }
  }

  method CommitTx(w: World, r: nat, m: Move) returns (err: Option<T.Error>)
    requires w.Valid() && r in w.now.db.reqs && w.now.db.reqs[r].phase.Notified?
    modifies w
    ensures Carried(w, r, m.others == []) && w.now.db.reqs[r].res == old(w.now.db.reqs[r].res)
    ensures err.None? <==> m.fault.NoFault?
    ensures AttemptEnded(old(w.now.db.reqs[r]), w.now.db, r, m, err)
  {
    ghost var was := w.now;
    err := Arrive(w, r, m);
    if err.None? {
      ghost var arrived := w.now;
      Commit(w, r, m);
      CarriedTransitive(was, arrived, w.now, r, m.others == [], true, m.others == []);
    }
  }

  method Commit(w: World, r: nat, m: Move)
    requires w.Valid() && r in w.now.db.reqs && w.now.db.reqs[r].phase.Notified? && m.fault.NoFault?
    modifies w
    ensures Carried(w, r, true) && w.now.db.reqs[r].res == old(w.now.db.reqs[r].res)
    ensures AttemptEnded(old(w.now.db.reqs[r]), w.now.db, r, m, None)
  {
    ReadyForStatement(w.now, r);
    ghost var last := w.now;
    w.Statement(T.Commit(r));
    OwnStatementCarries(last, T.Commit(r), r);
    EndedByStatement(last, T.Commit(r), r, m);
  }

  /** Leaving the closure on a failed balance check rolls back; m is the call before. */
  method RefuseDebit(w: World, r: nat, m: Move)
    requires w.Valid() && T.Enabled(w.now.db, T.Debit(r)) && |T.LockedRows(w.now.db, r)| == 2 && m.fault.NoFault?
    requires T.MapBack(T.LockedRows(w.now.db, r), w.now.db.reqs[r].sender).0.balance < w.now.db.reqs[r].amount
    modifies w
    ensures Carried(w, r, true) && w.now.db.reqs[r].res == old(w.now.db.reqs[r].res)
    ensures AttemptEnded(old(w.now.db.reqs[r]), w.now.db, r, m, Some(T.InsufficientFunds))
  {
    ghost var last := w.now;
    w.Statement(T.Debit(r));
    OwnStatementCarries(last, T.Debit(r), r);
    EndedByStatement(last, T.Debit(r), r, m);
  }

  /** What the closure must answer on the locked rows when its calls go through. */
  predicate DebitVerdict(pair: (User, User), amount: int, err: Option<T.Error>) {
    err ==
      if pair.0.balance < amount then Some(T.InsufficientFunds)
      else if !IsInt64(pair.1.balance + amount) then Some(T.Internal)
      else None
  }

  /** The closure once both rows are locked: balance check, update, transfer row,
      captured result, notifications, commit. */
  method DebitAndRecord(w: World, r: nat, env: Env, start: nat, pair: (User, User), captured: T.Captured)
    returns (err: Option<T.Error>, res: T.Captured, t: nat)
    requires w.Valid() && T.Enabled(w.now.db, T.Debit(r)) && |T.LockedRows(w.now.db, r)| == 2
    requires pair == T.MapBack(T.LockedRows(w.now.db, r), w.now.db.reqs[r].sender) && w.now.db.reqs[r].res == captured
    requires start > 0 && env(start - 1).fault.NoFault?
    modifies w
    ensures Carried(w, r, Quiet(env)) && w.now.db.reqs[r].res == res
    ensures start <= t && Clean(env, start, t - 1)
    ensures AttemptEnded(old(w.now.db.reqs[r]), w.now.db, r, env(t - 1), err)
    ensures env(t - 1).fault.NoFault? ==> DebitVerdict(pair, old(w.now.db.reqs[r].amount), err)
  {
    if pair.0.balance < w.now.db.reqs[r].amount {
      RefuseDebit(w, r, env(start - 1));
      err, res, t := Some(T.InsufficientFunds), captured, start;
    } else {
      err, res, t := UpdateAndRecord(w, r, env, start, pair, captured);
    }
  }

  /** The same, with the funds there. */
  method UpdateAndRecord(w: World, r: nat, env: Env, start: nat, pair: (User, User), captured: T.Captured)
    returns (err: Option<T.Error>, res: T.Captured, t: nat)
    requires w.Valid() && T.Enabled(w.now.db, T.Debit(r)) && |T.LockedRows(w.now.db, r)| == 2
    requires pair == T.MapBack(T.LockedRows(w.now.db, r), w.now.db.reqs[r].sender)
    requires pair.0.balance >= w.now.db.reqs[r].amount && w.now.db.reqs[r].res == captured
    modifies w
    ensures Carried(w, r, Quiet(env)) && w.now.db.reqs[r].res == res
    ensures start < t && Clean(env, start, t - 1)
    ensures AttemptEnded(old(w.now.db.reqs[r]), w.now.db, r, env(t - 1), err)
    ensures env(t - 1).fault.NoFault? ==> DebitVerdict(pair, old(w.now.db.reqs[r].amount), err)
  {
    ghost var was, q := w.now, w.now.db.reqs[r];
    res := captured;
    err := UpdateBalances(w, r, pair, env(start));
    t := start + 1;
    if err.None? {
      ghost var updated := w.now;
      res, err, t := RecordAndFinish(w, r, env, t, pair, res);
      CarriedTransitive(was, updated, w.now, r, env(start).others == [], Quiet(env), Quiet(env));
      LaterAttempt(q, updated.db.reqs[r], w.now.db, r, env(t - 1), err);
    }
  }

  method RecordAndFinish(w: World, r: nat, env: Env, start: nat, pair: (User, User), captured: T.Captured)
    returns (res: T.Captured, err: Option<T.Error>, t: nat)
    requires w.Valid() && r in w.now.db.reqs && w.now.db.reqs[r].phase.Debited? && w.now.db.reqs[r].res == captured
    requires w.now.db.reqs[r].phase.s == pair.0 && w.now.db.reqs[r].phase.rc == pair.1
    modifies w
    ensures Carried(w, r, Quiet(env)) && w.now.db.reqs[r].res == res
    ensures start < t && Clean(env, start, t - 1)
    ensures AttemptEnded(old(w.now.db.reqs[r]), w.now.db, r, env(t - 1), err)
    ensures env(t - 1).fault.NoFault? ==> err.None?
  {
    ghost var was, q := w.now, w.now.db.reqs[r];
    res := captured;
    var sender, receiver, amount := pair.0, pair.1, w.now.db.reqs[r].amount;
    var id;
    err, id := InsertTransferRecord(w, r, env(start));
    t := start + 1;
    if err.None? {
      res := res.(transferId := id);
      res := Filled(res, sender, receiver, amount);
      ghost var recorded := w.now;
      err, t := NotifyAndCommit(w, r, env, t);
      CarriedTransitive(was, recorded, w.now, r, env(start).others == [], Quiet(env), Quiet(env));
      LaterAttempt(q, recorded.db.reqs[r], w.now.db, r, env(t - 1), err);
    }
  }

  method NotifyAndCommit(w: World, r: nat, env: Env, start: nat) returns (err: Option<T.Error>, t: nat)
    requires w.Valid() && r in w.now.db.reqs && w.now.db.reqs[r].phase.Recorded?
    modifies w
    ensures Carried(w, r, Quiet(env)) && w.now.db.reqs[r].res == old(w.now.db.reqs[r].res)
    ensures start < t && Clean(env, start, t - 1)
    ensures AttemptEnded(old(w.now.db.reqs[r]), w.now.db, r, env(t - 1), err)
    ensures env(t - 1).fault.NoFault? ==> err.None?
  {
    ghost var was, q := w.now, w.now.db.reqs[r];
    t := start + 1;
    err := InsertNotifications(w, r, env(start));
    if err.None? {
      ghost var notified := w.now;
      err := CommitTx(w, r, env(t));
      CarriedTransitive(was, notified, w.now, r, env(start).others == [], env(start + 1).others == [], Quiet(env));
      LaterAttempt(q, notified.db.reqs[r], w.now.db, r, env(t), err);
      t := t + 1;
    }
  }

  /** One run of the transaction closure. captured is the variable the closure writes;
      it arrives with whatever an earlier attempt left in it. When nobody else acts and no
      call fails, the tables decide the answer. */
  method RunTransferTx(w: World, r: nat, env: Env, start: nat, captured: T.Captured)
    returns (err: Option<T.Error>, res: T.Captured, t: nat)
    requires w.Valid() && r in w.now.db.reqs && w.now.db.reqs[r].phase.Ready? && w.now.db.reqs[r].res == captured
    modifies w
    ensures Carried(w, r, Quiet(env)) && w.now.db.reqs[r].res == res
    ensures start < t && Clean(env, start, t - 1)
    ensures AttemptEnded(old(w.now.db.reqs[r]), w.now.db, r, env(t - 1), err)
    ensures Quiet(env) && old(w.now.db.locks) == map[] && env(t - 1).fault.NoFault? ==>
      Decides(T.Current(old(w.now.db)).users, old(w.now.db.reqs[r]), err)
  {
    ghost var was := w.now;
    res, t := captured, start;
    var sender := w.now.db.reqs[r].sender;
    var id;
    ghost var q := w.now.db.reqs[r];
    err, id := ResolveReceiver(w, r, env(t));
    t := t + 1;
    ghost var resolved := w.now;
    ghost var pick := if err.None? then Some(id) else None;
    if err.None? && sender == id {
      err := Some(T.SelfTransfer);
      EndOf(q, w.now.db, r, env(start), err);
    } else if err.Some? {
      EndOf(q, w.now.db, r, env(start), err);
    } else {
      res := res.(receiverId := id);
      err, res, t := LockAndTransfer(w, r, env, t, res);
      CarriedTransitive(was, resolved, w.now, r, env(start).others == [], Quiet(env), Quiet(env));
      LaterAttempt(q, resolved.db.reqs[r], w.now.db, r, env(t - 1), err);
    }
    if Quiet(env) && old(w.now.db.locks) == map[] && env(t - 1).fault.NoFault? {
      CarriedQuietly(was, resolved, r);
      assert Verdict(T.Current(old(w.now.db)).users, q.sender, q.key, q.amount, pick, err);
    }
  }

  /** The closure from the locks on. */
  method LockAndTransfer(w: World, r: nat, env: Env, start: nat, captured: T.Captured)
    returns (err: Option<T.Error>, res: T.Captured, t: nat)
    requires w.Valid() && r in w.now.db.reqs && w.now.db.reqs[r].phase.Locking? && w.now.db.reqs[r].phase.held == 0
    requires w.now.db.reqs[r].res == captured
    modifies w
    ensures Carried(w, r, Quiet(env)) && w.now.db.reqs[r].res == res
    ensures start < t && Clean(env, start, t - 1)
    ensures AttemptEnded(old(w.now.db.reqs[r]), w.now.db, r, env(t - 1), err)
    ensures Quiet(env) && OnlyMine(old(w.now.db), r) && AtCurrent(old(w.now.db), r) && env(t - 1).fault.NoFault? ==>
      LockedVerdict(T.Current(old(w.now.db)).users, old(w.now.db.reqs[r]), err)
  {
    ghost var was := w.now;
    res := captured;
    var pair;
    ghost var q := w.now.db.reqs[r];
    ReceiverLocked(w.now, r);
    err, pair, t := LockBothUsers(w, r, env, start);
    if Quiet(env) && OnlyMine(old(w.now.db), r) {
      CarriedQuietly(was, w.now, r);
    }
    if err.None? {
      ghost var locked := w.now;
      err, res, t := DebitAndRecord(w, r, env, t, pair, res);
      CarriedTransitive(was, locked, w.now, r, Quiet(env), Quiet(env), Quiet(env));
      LaterAttempt(q, locked.db.reqs[r], w.now.db, r, env(t - 1), err);
    }
  }

  predicate LockedVerdict(users: map<int, User>, q: T.Request, err: Option<T.Error>) {
    && q.phase.Locking? && q.phase.receiver in users
    && if q.sender in users then DebitVerdict((users[q.sender], users[q.phase.receiver]), q.amount, err)
       else err == Some(T.Internal)
  }

  /** Runs the closure until it commits, fails for good, or has met 40001 five times.
      nil comes back exactly when one attempt committed, and then the captured result is
      that attempt's; any error leaves no trace in the tables and was true at the step that
      ended the request. When nobody else acts, the calls and the tables decide which. */
  method SerializableTx(w: World, r: nat, env: Env, start: nat)
    returns (err: Option<T.Error>, res: T.Captured, t: nat)
    requires w.Valid() && r in w.now.db.reqs && w.now.db.reqs[r].phase.Ready? && w.now.db.reqs[r].attempt == 0
    requires w.now.db.reqs[r].res == T.ZERO_RESULT
    modifies w
    ensures Carried(w, r, Quiet(env)) && TI.SameParameters(old(w.now.db.reqs[r]), w.now.db.reqs[r])
    ensures err.None? ==> w.now.db.reqs[r].phase.Committed?
    ensures err.Some? ==> w.now.db.reqs[r].phase == T.Failed(err.value)
    ensures |w.now.db.hist| == |w.now.db.log| + 1 && (err.None? <==> exists k :: G.CommitsAt(w.now.db, r, k))
    ensures forall k :: G.CommitsAt(w.now.db, r, k) ==> res == TI.ResultOf(w.now.db.hist[k + 1], w.now.db.log[k])
    ensures w.now.db.reqs[r].attempt < 5 && w.now.db.reqs[r].slept < 30_000_000
    ensures w.now.db.reqs[r].res == res
    ensures err == Some(T.SerializationFailure) ==> w.now.db.reqs[r].attempt == 4
    ensures start < t && (err.Some? ==> FailedFor(w.now.db, r, env(t - 1), err.value))
    ensures Quiet(env) && old(w.now.db.locks) == map[] ==>
      QuietOutcome(T.Current(old(w.now.db)).users, old(w.now.db.reqs[r]), env, start, t, err)
  {
    ghost var q;
    err, res, t, q := Retry(w, r, env, start);
    TxEnded(w.now, q, r, env(t - 1), err);
    EndOf(q, w.now.db, r, env(t - 1), err);
  }

  /** The loop; q is the request as its last attempt found it. */
  method Retry(w: World, r: nat, env: Env, start: nat)
    returns (err: Option<T.Error>, res: T.Captured, t: nat, ghost q: T.Request)
    requires w.Valid() && r in w.now.db.reqs && w.now.db.reqs[r].phase.Ready? && w.now.db.reqs[r].attempt == 0
    requires w.now.db.reqs[r].res == T.ZERO_RESULT
    modifies w
    ensures Carried(w, r, Quiet(env)) && TI.SameParameters(old(w.now.db.reqs[r]), q)
    ensures w.now.db.reqs[r].res == res && start < t && AttemptEnded(q, w.now.db, r, env(t - 1), err)
    ensures q.attempt < 5 && (err != Some(T.SerializationFailure) || q.attempt == 4)
    ensures Quiet(env) && old(w.now.db.locks) == map[] ==>
      QuietOutcome(T.Current(old(w.now.db)).users, old(w.now.db.reqs[r]), env, start, t, err)
  {
    ghost var was, q0 := w.now, w.now.db.reqs[r];
    ghost var users, calm := T.Current(w.now.db).users, Quiet(env) && w.now.db.locks == map[];
    t, res := start, T.ZERO_RESULT;
    var attempt := 0;
    NothingCarries(was, r);
    while attempt < T.MAX_RETRIES
      invariant Carried(w, r, Quiet(env)) && TI.SameParameters(q0, w.now.db.reqs[r])
      invariant attempt < 5 && w.now.db.reqs[r].phase.Ready? && w.now.db.reqs[r].attempt == attempt
      invariant w.now.db.reqs[r].res == res && start <= t
      invariant calm ==> QuietSoFar(users, w.now, env, start, t, attempt)
    {
      ghost var before, from := w.now, t;
      q := w.now.db.reqs[r];
      err, res, t := RunTransferTx(w, r, env, t, res);
      CarriedTransitive(was, before, w.now, r, Quiet(env), Quiet(env), Quiet(env));
      if err != Some(T.SerializationFailure) || attempt == T.MAX_RETRIES - 1 {
        if calm {
          QuietEnd(users, q0, q, before, w.now, r, env, start, from, t, err);
        }
        return;
      }
      EndOf(q, w.now.db, r, env(t - 1), err);
      if calm {
        QuietRetry(users, q, before, w.now, r, env, start, from, t, err);
      }
      attempt := attempt + 1;
    }
  }

  /** What the caller may rely on once an attempt was the last. */
  lemma TxEnded(s: Sys, q: T.Request, r: nat, m: Move, err: Option<T.Error>)
    requires r in s.db.reqs && Sound(s) && AttemptEnded(q, s.db, r, m, err) && q.attempt < 5
    requires err != Some(T.SerializationFailure) || q.attempt == 4
    ensures err.None? <==> exists k :: G.CommitsAt(s.db, r, k)
    ensures |s.db.hist| == |s.db.log| + 1
    ensures forall k :: G.CommitsAt(s.db, r, k) ==>
      s.db.reqs[r].phase == T.Committed(k) && s.db.reqs[r].res == TI.ResultOf(s.db.hist[k + 1], s.db.log[k])
    ensures s.db.reqs[r].attempt < 5 && s.db.reqs[r].slept < 30_000_000
    ensures err.Some? ==> FailedFor(s.db, r, m, err.value)
  {
    EndOf(q, s.db, r, m, err);
    assert Spelled(0);
    SleepBound(s.db, r);
    CommittedResult(s.db, r);
    if err.Some? {
      EndHasReason(s.db, r, m, err.value);
    }
  }

  /** The tables hold the request's transfer exactly when the request is committed, and
      the captured result is read off the state that commit produced. */
  lemma CommittedResult(db: T.Db, r: nat)
    requires TI.Inv(db) && r in db.reqs
    ensures |db.hist| == |db.log| + 1
    ensures db.reqs[r].phase.Committed? <==> exists k :: G.CommitsAt(db, r, k)
    ensures forall k :: G.CommitsAt(db, r, k) ==>
      db.reqs[r].phase == T.Committed(k) && db.reqs[r].res == TI.ResultOf(db.hist[k + 1], db.log[k])
  {
    G.CommitsOnce(db, r);
    assert TI.ReqOK(db, r, db.reqs[r]);
  }

  lemma SleepBound(db: T.Db, r: nat)
    requires TI.Inv(db) && r in db.reqs
    ensures db.reqs[r].attempt < T.MAX_RETRIES && db.reqs[r].slept < 30 * T.MILLISECOND
  {
    assert TI.ReqOK(db, r, db.reqs[r]);
    TI.ShiftMonotone(db.reqs[r].attempt);
  }

  // ---------------------------------------------------------------- after the commit

  function PostCommand(r: nat, step: nat): Event {
    if step == 0 then DelPhones(r) else if step == 1 then HsetSender(r) else HsetReceiver(r)
  }

  /** The command takes effect or not, whatever its reply says. */
  function PipelineEvent(r: nat, step: nat, m: Move): Event {
    if m.Executed() then PostCommand(r, step) else CommandFailed(r)
  }

  /** before leads to after by others' steps and then the command of that step, taken on
      the state seen. */
  ghost predicate CommandRan(r: nat, step: nat, m: Move, before: Sys, seen: Sys, after: Sys) {
    && Rely(Tx(r), before, seen) && (m.others == [] ==> seen == before)
    && Enabled(seen, PipelineEvent(r, step, m)) && after == Apply(seen, PipelineEvent(r, step, m))
  }

  /** DEL of both phone keys, then HSET of both balances. The pipeline is no transaction:
      others act between its commands, and one that fails does not stop the next. Errors
      are logged and the request goes on. seen are the states the commands met. */
  method PublishTransferCompleted(w: World, r: nat, env: Env, start: nat)
    returns (ok: bool, t: nat, ghost seen: (Sys, Sys, Sys), ghost left: (Sys, Sys))
    requires w.Valid() && Posting(w.now, r, 0)
    modifies w
    ensures w.Valid() && Posting(w.now, r, 3)
    ensures w.now.db.reqs[r] == old(w.now.db.reqs[r]) && SI.Extends(old(w.now.db), w.now.db)
    ensures t == start + 3
    ensures ok <==> env(start).Replied() && env(start + 1).Replied() && env(start + 2).Replied()
    ensures CommandRan(r, 0, env(start), old(w.now), seen.0, left.0)
    ensures CommandRan(r, 1, env(start + 1), left.0, seen.1, left.1)
    ensures CommandRan(r, 2, env(start + 2), left.1, seen.2, w.now)
  {
    ghost var s0, s1, s2, l1;
    var ok0, ok1;
    ok0, s0 := PipelineCommand(w, r, env(start), 0);
    ghost var l0 := w.now;
    ok1, s1, s2, l1 := PipelineHsets(w, r, env(start + 1), env(start + 2));
    ExtendsTransitive(old(w.now.db), l0.db, w.now.db);
    ok, t, seen, left := ok0 && ok1, start + 3, (s0, s1, s2), (l0, l1);
  }

  method PipelineHsets(w: World, r: nat, m1: Move, m2: Move)
    returns (ok: bool, ghost s1: Sys, ghost s2: Sys, ghost l1: Sys)
    requires w.Valid() && Posting(w.now, r, 1)
    modifies w
    ensures w.Valid() && Posting(w.now, r, 3)
    ensures w.now.db.reqs[r] == old(w.now.db.reqs[r]) && SI.Extends(old(w.now.db), w.now.db)
    ensures ok <==> m1.Replied() && m2.Replied()
    ensures CommandRan(r, 1, m1, old(w.now), s1, l1) && CommandRan(r, 2, m2, l1, s2, w.now)
  {
    var ok1, ok2;
    ok1, s1 := PipelineCommand(w, r, m1, 1);
    l1 := w.now;
    ok2, s2 := PipelineCommand(w, r, m2, 2);
    ExtendsTransitive(old(w.now.db), l1.db, w.now.db);
    ok := ok1 && ok2;
  }

  method PipelineCommand(w: World, r: nat, m: Move, step: nat) returns (replied: bool, ghost seen: Sys)
    requires step < 3 && w.Valid() && Posting(w.now, r, step)
    modifies w
    ensures replied <==> m.Replied()
    ensures w.Valid() && Posting(w.now, r, step + 1)
    ensures w.now.db.reqs[r] == old(w.now.db.reqs[r]) && SI.Extends(old(w.now.db), w.now.db)
    ensures CommandRan(r, step, m, old(w.now), seen, w.now)
  {
    w.Interfere(Tx(r), m.others);
    seen := w.now;
    w.Do(PipelineEvent(r, step, m));
    replied := m.Replied();
  }

  /** Undisturbed, the pipeline deletes both phone keys and applies the transfer's event to
      the hash, as far as its commands execute. */
  lemma UndisturbedPipeline(
    r: nat, m0: Move, m1: Move, m2: Move, s: Sys, seen: (Sys, Sys, Sys), left: (Sys, Sys), s': Sys)
    requires m0.others == m1.others == m2.others == []
    requires CommandRan(r, 0, m0, s, seen.0, left.0) && CommandRan(r, 1, m1, left.0, seen.1, left.1)
    requires CommandRan(r, 2, m2, left.1, seen.2, s')
    ensures r in s.db.reqs
    ensures
      && var res := s.db.reqs[r].res;
      && s' == s.(
           cache := if m0.Executed()
                    then s.cache - {PhoneKey(res.senderPhone), PhoneKey(res.receiverPhone)} else s.cache,
           hash := P.Delivery(s.hash, EventOf(s, r), P.Mark(m1.Executed(), m2.Executed())), posts := s'.posts)
    ensures m1.Executed() && m2.Executed() ==> s'.hash == P.ApplyEvent(s.hash, EventOf(s, r))
  {
    UndisturbedCommand(r, 0, m0, s, seen.0, left.0);
    UndisturbedCommand(r, 1, m1, left.0, seen.1, left.1);
    UndisturbedCommand(r, 2, m2, left.1, seen.2, s');
  }

  lemma UndisturbedCommand(r: nat, step: nat, m: Move, s: Sys, seen: Sys, s': Sys)
    requires step < 3 && m.others == [] && CommandRan(r, step, m, s, seen, s')
    ensures r in s.db.reqs
    ensures
      && var res, evt := s.db.reqs[r].res, EventOf(s, r);
      && s' == s.(
           cache := if step == 0 && m.Executed()
                    then s.cache - {PhoneKey(res.senderPhone), PhoneKey(res.receiverPhone)} else s.cache,
           hash := if step == 1 && m.Executed() then Hset(s.hash, evt.senderId, evt.senderBalance)
                   else if step == 2 && m.Executed() then Hset(s.hash, evt.receiverId, evt.receiverBalance)
                   else s.hash,
           posts := s'.posts)
  {
    assert s' == PostStep(s, PipelineEvent(r, step, m));
  }

  /** One durable publish, unless JetStream is unavailable or the call fails; seen is the
      state the publish met. */
  method PublishTransferEvent(w: World, r: nat, m: Move, available: bool) returns (ghost seen: Sys)
    requires w.Valid() && Posting(w.now, r, 3)
    modifies w
    ensures w.Valid() && Posting(w.now, r, 4)
    ensures w.now.db.reqs[r] == old(w.now.db.reqs[r]) && SI.Extends(old(w.now.db), w.now.db)
    ensures Rely(Tx(r), old(w.now), seen) && (m.others == [] ==> seen == old(w.now))
    ensures w.now == seen.(
      stream := if available && m.Executed() then PublishMsg(seen, EventOf(w.now, r)).stream else seen.stream,
      posts := seen.posts[r := 4])
  {
    w.Interfere(Tx(r), m.others);
    seen := w.now;
    StoreEvent(w, r, available && m.Executed());
    w.Do(FinishPost(r));
  }

  method StoreEvent(w: World, r: nat, executed: bool)
    requires w.Valid() && Posting(w.now, r, 3)
    modifies w
    ensures w.Valid() && Posting(w.now, r, 3)
    ensures w.now == old(w.now).(
      stream := if executed then PublishMsg(old(w.now), EventOf(w.now, r)).stream else old(w.now.stream))
  {
    if executed {
      w.Do(Publish(r));
    }
  }

  // ---------------------------------------------------------------- the handler

  function StatusOf(err: Option<T.Error>): int {
    match err
    case None => 200
    case Some(InsufficientFunds) => 400
    case Some(ReceiverNotFound) => 404
    case Some(SelfTransfer) => 400
    case Some(SerializationFailure) => 503
    case Some(Internal) => 500
  }

  datatype Payload = Payload(accountNumber: string, phone: string, username: string, amount: int)

  /** The k-th operation is this transfer of user's. */
  ghost predicate Charges(db: T.Db, k: int, user: int, transferId: int, p: Payload)
    requires 0 <= k < |db.log| && db.log[k].Transferred?
  {
    var op := db.log[k];
    && op.sender == user && op.amount == p.amount && op.transferId == transferId
    && k < |db.hist| && op.receiver in db.hist[k].users
    && var u := db.hist[k].users[op.receiver];
       if p.accountNumber != "" then u.accountNumber == p.accountNumber
       else if p.phone != "" then u.phone == p.phone
       else u.username == p.username
  }

  /** RequireSession around handleTransfer, for invocation r. Whatever everybody else does
      meanwhile, user is whom the session names in the state checked, and the status tells
      how the request ended: 200 exactly when the tables hold one transfer of this
      invocation, debiting that user by the amount asked for, in favour of a user with the
      identifier asked for, under the id answered. When nobody else acts, the calls up to
      used and the tables at the start decide how it ends, and a committed transfer's
      post-commit writes arrive as far as they execute. */
  method HandleTransfer(w: World, r: nat, sid: string, p: Payload, env: Env, jetStream: bool)
    returns (status: int, transferId: int, user: Option<int>, ghost checked: Sys, used: nat)
    requires w.Valid() && r !in w.now.db.reqs && r !in w.now.posts
    modifies w
    ensures w.Valid()
    ensures Rely(Tx(r), old(w.now), checked) && SI.Extends(checked.db, w.now.db)
    ensures (env(0).others == [] ==> checked == old(w.now)) && user == SessionUser(checked.sessions, sid)
    ensures status == 401 <==> env(0).Replied() && user.None?
    ensures !env(0).Replied() ==> status == 500 && r !in w.now.db.reqs
    ensures env(0).Replied() && user.Some?
            && (p.amount <= 0 || (p.accountNumber == "" && p.phone == "" && p.username == "")) ==>
      status == 400
    ensures r in w.now.db.reqs <==>
      env(0).Replied() && user.Some? && p.amount > 0 && !(p.accountNumber == "" && p.phone == "" && p.username == "")
    ensures r in w.now.db.reqs ==>
      && var phase := w.now.db.reqs[r].phase;
      && (phase.Committed? || phase.Failed?)
      && (phase.Committed? ==> status == 200)
      && (phase == T.Failed(T.InsufficientFunds) ==> status == 400)
      && (phase == T.Failed(T.ReceiverNotFound) ==> status == 404)
      && (phase == T.Failed(T.SelfTransfer) ==> status == 400)
      && (phase == T.Failed(T.SerializationFailure) ==> status == 503)
      && (phase == T.Failed(T.Internal) ==> status == 500)
    ensures status in {200, 400, 401, 404, 500, 503}
    ensures status == 200 <==> exists k :: G.CommitsAt(w.now.db, r, k)
    ensures status == 200 ==> Posting(w.now, r, 4)
    ensures forall k :: G.CommitsAt(w.now.db, r, k) ==>
      && user == Some(w.now.db.log[k].sender) && p.amount > 0
      && w.now.db.log[k].amount == p.amount && w.now.db.log[k].transferId == transferId
      && k < |w.now.db.hist| && w.now.db.log[k].receiver in w.now.db.hist[k].users
      && var u := w.now.db.hist[k].users[w.now.db.log[k].receiver];
         if p.accountNumber != "" then u.accountNumber == p.accountNumber
         else if p.phone != "" then u.phone == p.phone
         else u.username == p.username
    ensures r in w.now.db.reqs && Quiet(env) && old(w.now.db.locks) == map[] ==>
      && var err := if status == 200 then None else Some(w.now.db.reqs[r].phase.error);
      && (status != 200 ==> w.now.db.reqs[r].phase.Failed?)
      && QuietOutcome(T.Current(old(w.now.db)).users, w.now.db.reqs[r], env, 1, used, err)
    ensures status == 200 && Quiet(env) && old(w.now.db.locks) == map[] ==>
      PostEffects(old(w.now).(db := w.now.db), w.now, r, env, used, jetStream)
  {
    transferId, used := 0, 1;
    w.Interfere(Tx(r), env(0).others);
    checked := w.now;
    user := SessionUser(w.now.sessions, sid);
    var valid := p.amount > 0 && !(p.accountNumber == "" && p.phone == "" && p.username == "");
    if !env(0).Replied() || user.None? || !valid {
      status := if !env(0).Replied() then 500 else if user.None? then 401 else 400;
      NoRequestNoCommit(w.now, r);
      return;
    }
    var err;
    err, transferId, used := TransferForUser(w, r, sid, p, env, jetStream);
    status := StatusOf(err);
  }

  lemma NoRequestNoCommit(s: Sys, r: nat)
    requires Sound(s) && r !in s.db.reqs
    ensures forall k :: !G.CommitsAt(s.db, r, k)
  {
    assert Spelled(0);
    G.CommitsOnce(s.db, r);
  }

  /** What the post-commit calls from t on leave when nobody else acts. */
  ghost predicate PostEffects(s: Sys, s': Sys, r: nat, env: Env, t: nat, jetStream: bool) {
    && r in s.db.reqs
    && var res, evt := s.db.reqs[r].res, EventOf(s, r);
    && s'.db == s.db && s'.sessions == s.sessions
    && s'.cache ==
         (if env(t).Executed() then s.cache - {PhoneKey(res.senderPhone), PhoneKey(res.receiverPhone)} else s.cache)
    && s'.hash == P.Delivery(s.hash, evt, P.Mark(env(t + 1).Executed(), env(t + 2).Executed()))
    && s'.stream == if jetStream && env(t + 3).Executed() then PublishMsg(s, evt).stream else s.stream
  }

  /** The post-commit writes; their failures are logged only. */
  method PostCommit(w: World, r: nat, env: Env, start: nat, jetStream: bool)
    requires w.Valid() && Posting(w.now, r, 0)
    modifies w
    ensures w.Valid() && Posting(w.now, r, 4) && w.now.db.reqs[r] == old(w.now.db.reqs[r])
    ensures SI.Extends(old(w.now.db), w.now.db)
    ensures Quiet(env) ==> PostEffects(old(w.now), w.now, r, env, start, jetStream)
  {
    var ok, t;
    ghost var was, seen, left, met := w.now, (w.now, w.now, w.now), (w.now, w.now), w.now;
    ok, t, seen, left := PublishTransferCompleted(w, r, env, start);
    ghost var written := w.now;
    if Quiet(env) {
      UndisturbedPipeline(r, env(start), env(start + 1), env(start + 2), was, seen, left, written);
    }
    met := PublishTransferEvent(w, r, env(t), jetStream);
    ExtendsTransitive(was.db, written.db, w.now.db);
  }

  method TransferForUser(w: World, r: nat, sid: string, p: Payload, env: Env, jetStream: bool)
    returns (err: Option<T.Error>, transferId: int, used: nat)
    requires w.Valid() && r !in w.now.db.reqs && DonePosts(w.now, r) == 0
    requires SessionUser(w.now.sessions, sid).Some? && p.amount > 0
    modifies w
    ensures w.Valid() && r in w.now.db.reqs && SI.Extends(old(w.now.db), w.now.db)
    ensures err.None? ==> Posting(w.now, r, 4)
    ensures err.Some? ==> w.now.db.reqs[r].phase == T.Failed(err.value)
    ensures err.None? <==> exists k :: G.CommitsAt(w.now.db, r, k)
    ensures forall k :: G.CommitsAt(w.now.db, r, k) ==>
      Charges(w.now.db, k, old(SessionUser(w.now.sessions, sid).value), transferId, p)
    ensures Quiet(env) && old(w.now.db.locks) == map[] ==>
      QuietOutcome(T.Current(old(w.now.db)).users, w.now.db.reqs[r], env, 1, used, err)
    ensures err.None? && Quiet(env) && old(w.now.db.locks) == map[] ==>
      PostEffects(old(w.now).(db := w.now.db), w.now, r, env, used, jetStream)
  {
    ghost var was := w.now;
    err, transferId, used := Transact(w, r, sid, p, env);
    ghost var committed := w.now;
    if err.None? {
      PostCommit(w, r, env, used, jetStream);
      ExtendsTransitive(was.db, committed.db, w.now.db);
    }
    ChargedAsAsked(w.now, r, SessionUser(was.sessions, sid).value, p);
  }

  /** The transaction for a new request of the session's user. */
  method Transact(w: World, r: nat, sid: string, p: Payload, env: Env)
    returns (err: Option<T.Error>, transferId: int, used: nat)
    requires w.Valid() && r !in w.now.db.reqs && DonePosts(w.now, r) == 0
    requires SessionUser(w.now.sessions, sid).Some? && p.amount > 0
    modifies w
    ensures w.Valid() && SI.Extends(old(w.now.db), w.now.db) && DonePosts(w.now, r) == 0
    ensures r in w.now.db.reqs && AskedFor(w.now.db.reqs[r], old(SessionUser(w.now.sessions, sid).value), p)
    ensures w.now.db.reqs[r].res.transferId == transferId
    ensures err.None? ==> w.now.db.reqs[r].phase.Committed?
    ensures err.Some? ==> w.now.db.reqs[r].phase == T.Failed(err.value)
    ensures Quiet(env) && old(w.now.db.locks) == map[] ==>
      && w.now == old(w.now).(db := w.now.db)
      && QuietOutcome(T.Current(old(w.now.db)).users, w.now.db.reqs[r], env, 1, used, err)
  {
    ghost var was := w.now;
    Submit(w, r, sid, UserIdentifierCol(p.accountNumber, p.phone, p.username), p.amount);
    ghost var submitted := w.now;
    var res;
    err, res, used := SerializableTx(w, r, env, 1);
    transferId := res.transferId;
    CarriedExtends(submitted, w.now, r, Quiet(env));
    if Quiet(env) && was.db.locks == map[] {
      CarriedQuietly(submitted, w.now, r);
      SameOutcome(T.Current(was.db).users, submitted.db.reqs[r], w.now.db.reqs[r], env, 1, used, err);
    }
    ExtendsTransitive(was.db, submitted.db, w.now.db);
  }

  predicate AskedFor(q: T.Request, sender: int, p: Payload) {
    && q.sender == sender && q.amount == p.amount
    && q.key == UserIdentifierCol(p.accountNumber, p.phone, p.username)
  }

  /** A transfer of request r is the one asked for. */
  lemma ChargedAsAsked(s: Sys, r: nat, sender: int, p: Payload)
    requires Sound(s) && r in s.db.reqs && AskedFor(s.db.reqs[r], sender, p)
    ensures s.db.reqs[r].phase.Committed? <==> exists k :: G.CommitsAt(s.db, r, k)
    ensures forall k :: G.CommitsAt(s.db, r, k) ==> Charges(s.db, k, sender, s.db.reqs[r].res.transferId, p)
  {
    assert Spelled(0);
    CommittedResult(s.db, r);
    CommittedParameters(s.db, r);
    forall k | G.CommitsAt(s.db, r, k)
      ensures Charges(s.db, k, sender, s.db.reqs[r].res.transferId, p)
    {
      assert TI.LinkOK(s.db, k);
      var u := s.db.hist[k].users[s.db.log[k].receiver];
      IdentifierByFields(u, p.accountNumber, p.phone, p.username);
    }
  }

  lemma CommittedParameters(db: T.Db, r: nat)
    requires TI.Inv(db) && r in db.reqs
    ensures forall k :: G.CommitsAt(db, r, k) ==>
      && db.log[k].sender == db.reqs[r].sender && db.log[k].amount == db.reqs[r].amount
      && db.log[k].key == db.reqs[r].key && db.log[k].transferId == db.reqs[r].res.transferId
  {
    G.CommitsOnce(db, r);
    assert TI.ReqOK(db, r, db.reqs[r]);
  }

  /** The session check's user becomes the sender of a new request. */
  method Submit(w: World, r: nat, sid: string, key: Key, amount: int)
    requires w.Valid() && r !in w.now.db.reqs && SessionUser(w.now.sessions, sid).Some? && amount > 0
    modifies w
    ensures w.Valid() && w.now == old(w.now).(db := w.now.db) && SI.Extends(old(w.now.db), w.now.db)
    ensures SameHistory(old(w.now.db), w.now.db) && w.now.db.locks == old(w.now.db.locks)
    ensures r in w.now.db.reqs && w.now.db.reqs[r] ==
      T.Request(old(SessionUser(w.now.sessions, sid).value), key, amount, T.ZERO_RESULT, 0, 0, T.Ready)
  {
    SI.StepExtends(w.now.db, T.Submit(r, SessionUser(w.now.sessions, sid).value, key, amount));
    w.Do(StartTransfer(r, sid, key, amount));
  }
}
