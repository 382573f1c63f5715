/** How one attempt of a transfer may end, why, and what it must answer when nobody else
    acts. */
module Attempts {
  import opened Base
  import opened Decimal
  import opened Ledger
  import T = Transactions
  import TI = TransactionInvariants
  import O = Outcomes
  import opened System
  import SI = SystemInvariants
  import opened Runtime

  // ---------------------------------------------------------------- the step that ends it

  /** The row to lock next is held by somebody else. */
  predicate Stuck(db: T.Db, r: nat) {
    T.Awaited(db, r).Some? && T.Awaited(db, r).value in db.locks
  }

  /** It is free, but changed after the snapshot. */
  predicate Outdated(db: T.Db, r: nat) {
    T.Awaited(db, r).Some? && T.Awaited(db, r).value !in db.locks
    && !T.Unchanged(db.ver, db.reqs[r].phase.at, T.Awaited(db, r).value)
  }

  /** The request's own step e led from last to now. It gave up only because its last remote
      call broke or the row it wanted stayed locked, and rolled back with 40001 only because
      the call said so or the row was outdated. */
  ghost predicate EndingRule(last: T.Db, e: T.Event, now: T.Db, r: nat, m: Move) {
    && TI.Inv(last) && T.Enabled(last, e) && e.OfRequest() && e.r == r && now == T.Apply(last, e)
    && (e.Break? ==> m.fault.Broken? || Stuck(last, r))
    && (e.Abort? ==> m.fault.Serialization? || Outdated(last, r))
  }

  predicate SpelledEnd(k: nat) { true }

  predicate SpelledCarry(k: nat) { true }

  /** The rule, spelled out only in proofs that mention SpelledEnd. */
  ghost predicate EndedBy(last: T.Db, e: T.Event, now: T.Db, r: nat, m: Move) {
    forall k: nat {:trigger SpelledEnd(k)} :: SpelledEnd(k) ==> EndingRule(last, e, now, r, m)
  }

  ghost predicate EndsRight(now: T.Db, r: nat, m: Move) {
    exists last, e :: EndedBy(last, e, now, r, m)
  }

  lemma EndedByStatement(s: Sys, e: T.Event, r: nat, m: Move)
    requires Sound(s) && T.Enabled(s.db, e) && e.OfRequest() && e.r == r
    requires e.Break? ==> m.fault.Broken? || Stuck(s.db, r)
    requires e.Abort? ==> m.fault.Serialization? || Outdated(s.db, r)
    ensures EndsRight(T.Apply(s.db, e), r, m)
  {
    assert TI.Inv(s.db) by {
      assert Spelled(0);
    }
    assert EndedBy(s.db, e, T.Apply(s.db, e), r, m);
  }

  /** The request's standing, as far as its own statements need it. */
  lemma ReadyForStatement(s: Sys, r: nat)
    requires Sound(s) && r in s.db.reqs
    ensures s.db.reqs[r].attempt < 5
    ensures s.db.reqs[r].phase.Recorded? ==> T.Enabled(s.db, T.InsertNotes(r))
    ensures s.db.reqs[r].phase.Notified? ==> T.Enabled(s.db, T.Commit(r))
  {
    assert Spelled(0);
    assert TI.ReqOK(s.db, r, s.db.reqs[r]);
  }

  /** It failed with error, and the error's reason held at the step that ended it. */
  ghost predicate FailedFor(now: T.Db, r: nat, m: Move, error: T.Error) {
    exists last, e :: EndedBy(last, e, now, r, m) && ReasonHeld(last, e, r, error)
  }

  ghost predicate ReasonHeld(last: T.Db, e: T.Event, r: nat, error: T.Error) {
    forall k: nat {:trigger SpelledEnd(k)} :: SpelledEnd(k) ==>
      e.OfRequest() && e.r == r && r in last.reqs && O.Reason(last, e, error)
  }

  lemma EndHasReason(now: T.Db, r: nat, m: Move, error: T.Error)
    requires EndsRight(now, r, m) && r in now.reqs && now.reqs[r].phase == T.Failed(error)
    ensures FailedFor(now, r, m, error)
  {
    var last, e :| EndedBy(last, e, now, r, m);
    assert SpelledEnd(0);
    O.FailsForReason(last, e, error);
    assert ReasonHeld(last, e, r, error);
  }

  function FaultError(fault: Fault): T.Error {
    if fault.Serialization? then T.SerializationFailure else T.Internal
  }

  /** How an attempt of request q may end whose last remote call met m: the retry state, the
      error reported, the fault and the step that ended it always fit together. */
  ghost predicate AttemptRule(q: T.Request, now: T.Db, r: nat, m: Move, err: Option<T.Error>) {
    && r in now.reqs && TI.SameParameters(q, now.reqs[r]) && EndsRight(now, r, m)
    && (!m.fault.NoFault? ==> err == Some(FaultError(m.fault)))
    && match err
       case None => now.reqs[r].phase.Committed?
       case Some(SerializationFailure) =>
         if q.attempt < 4 then now.reqs[r].phase.Ready? && now.reqs[r].attempt == q.attempt + 1
         else now.reqs[r].phase == T.Failed(T.SerializationFailure) && now.reqs[r].attempt == 4
       case Some(e) => now.reqs[r].phase == T.Failed(e)
  }

  predicate SpelledAttempt(k: nat) { true }

  ghost predicate AttemptEnded(q: T.Request, now: T.Db, r: nat, m: Move, err: Option<T.Error>) {
    forall k: nat {:trigger SpelledAttempt(k)} :: SpelledAttempt(k) ==> AttemptRule(q, now, r, m, err)
  }

  lemma EndOf(q: T.Request, now: T.Db, r: nat, m: Move, err: Option<T.Error>)
    requires AttemptEnded(q, now, r, m, err)
    ensures AttemptRule(q, now, r, m, err)
  {
    assert SpelledAttempt(0);
  }

  lemma LaterAttempt(q: T.Request, q1: T.Request, now: T.Db, r: nat, m: Move, err: Option<T.Error>)
    requires TI.SameParameters(q, q1) && q1.attempt == q.attempt && AttemptEnded(q1, now, r, m, err)
    ensures AttemptEnded(q, now, r, m, err)
  {
    EndOf(q1, now, r, m, err);
  }

  // ---------------------------------------------------------------- moves

  /** No call from a up to b failed. */
  ghost predicate Clean(env: Env, a: nat, b: int) {
    forall n: nat :: a <= n < b ==> env(n).fault.NoFault?
  }

  /** None broke, though some may have met 40001. */
  ghost predicate NoneBroke(env: Env, a: nat, b: int) {
    forall n: nat :: a <= n < b ==> !env(n).fault.Broken?
  }

  /** How many met 40001. */
  function Serials(env: Env, a: nat, b: nat): nat {
    if b <= a then 0 else Serials(env, a, b - 1) + (if env(b - 1).fault.Serialization? then 1 else 0)
  }

  lemma {:induction false} SerialsSplit(env: Env, a: nat, b: nat, c: nat)
    requires a <= b < c && Clean(env, b, c - 1)
    ensures Serials(env, a, c) == Serials(env, a, b) + (if env(c - 1).fault.Serialization? then 1 else 0)
    decreases c
  {
    if b < c - 1 {
      SerialsSplit(env, a, b, c - 1);
    }
  }

  // ---------------------------------------------------------------- nobody else acts

  /** All locks, if any, are r's own. */
  ghost predicate OnlyMine(db: T.Db, r: nat) {
    forall id :: id in db.locks ==> db.locks[id] == r
  }

  ghost predicate SameHistory(a: T.Db, b: T.Db) {
    a.hist == b.hist && a.log == b.log && a.ver == b.ver
  }

  /** What the calls of the closure keep besides their own effect. When nobody else acts
      (quiet) or holds a lock, nothing but the request's own commit reaches the committed
      tables, and nothing outside the database changes. */
  ghost predicate CarryRule(s: Sys, s': Sys, r: nat, quiet: bool) {
    && r in s.db.reqs && r in s'.db.reqs && SI.Extends(s.db, s'.db) && DonePosts(s', r) == DonePosts(s, r)
    && (quiet && OnlyMine(s.db, r) ==>
          && OnlyMine(s'.db, r) && s' == s.(db := s'.db)
          && (SameHistory(s.db, s'.db) || s'.db.reqs[r].phase.Committed?))
  }

  ghost predicate CarriedOver(s: Sys, s': Sys, r: nat, quiet: bool) {
    forall k: nat {:trigger SpelledCarry(k)} :: SpelledCarry(k) ==> CarryRule(s, s', r, quiet)
  }

  lemma CarriedTransitive(a: Sys, b: Sys, c: Sys, r: nat, first: bool, second: bool, quiet: bool)
    requires CarriedOver(a, b, r, first) && CarriedOver(b, c, r, second) && (quiet ==> first && second)
    requires r in b.db.reqs && !b.db.reqs[r].phase.Committed?
    ensures CarriedOver(a, c, r, quiet)
  {
    assert SpelledCarry(0);
    ExtendsTransitive(a.db, b.db, c.db);
  }

  lemma CarriedExtends(s: Sys, s': Sys, r: nat, quiet: bool)
    requires CarriedOver(s, s', r, quiet)
    ensures r in s.db.reqs && r in s'.db.reqs && SI.Extends(s.db, s'.db) && DonePosts(s', r) == DonePosts(s, r)
  {
    assert SpelledCarry(0);
  }

  lemma CarriedQuietly(s: Sys, s': Sys, r: nat)
    requires CarriedOver(s, s', r, true) && OnlyMine(s.db, r)
    ensures OnlyMine(s'.db, r) && s' == s.(db := s'.db) && r in s'.db.reqs
    ensures SameHistory(s.db, s'.db) || s'.db.reqs[r].phase.Committed?
  {
    assert SpelledCarry(0);
  }

  lemma NothingCarries(s: Sys, r: nat)
    requires r in s.db.reqs
    ensures CarriedOver(s, s, r, true)
  {
  }

  lemma OthersCarry(s: Sys, s': Sys, r: nat, quiet: bool)
    requires r in s.db.reqs && Rely(Tx(r), s, s') && (quiet ==> s' == s)
    ensures CarriedOver(s, s', r, quiet)
  {
  }

  /** A statement of the request itself. */
  lemma OwnStatementCarries(s: Sys, d: T.Event, r: nat)
    requires T.Enabled(s.db, d) && d.OfRequest() && d.r == r
    ensures CarriedOver(s, s.(db := T.Apply(s.db, d)), r, true)
  {
    SI.StepExtends(s.db, d);
    OwnStatement(s.db, d, r);
  }

  lemma OwnStatement(db: T.Db, d: T.Event, r: nat)
    requires T.Enabled(db, d) && d.OfRequest() && d.r == r
    ensures
      var db' := T.Apply(db, d);
      && r in db.reqs && r in db'.reqs && (OnlyMine(db, r) ==> OnlyMine(db', r))
      && (SameHistory(db, db') || db'.reqs[r].phase.Committed?)
  {
  }

  lemma NoLocksLeft(s: Sys, r: nat)
    requires Sound(s) && OnlyMine(s.db, r) && r in s.db.reqs
    requires s.db.reqs[r].phase.Ready? || s.db.reqs[r].Finished()
    ensures s.db.locks == map[]
  {
    assert Spelled(0);
    assert forall id :: id !in s.db.locks;
  }

  /** The snapshot is the current state. */
  predicate AtCurrent(db: T.Db, r: nat) {
    T.InLocking(db, r) && db.reqs[r].phase.at + 1 == |db.hist|
  }

  /** Without other lockers and commits, the next row is free and unchanged. */
  lemma NoContention(s: Sys, r: nat)
    requires Sound(s) && OnlyMine(s.db, r) && AtCurrent(s.db, r)
    ensures !Stuck(s.db, r) && !Outdated(s.db, r)
  {
    assert Spelled(0);
    assert TI.ReqOK(s.db, r, s.db.reqs[r]);
  }

  /** Both rows are found exactly when the sender has one. */
  lemma RowsFound(s: Sys, r: nat)
    requires Sound(s) && AtCurrent(s.db, r)
    ensures 1 <= |T.LockedRows(s.db, r)| == |T.LockOrder(s.db, r)| <= 2
    ensures |T.LockedRows(s.db, r)| == 2 <==> s.db.reqs[r].sender in T.Current(s.db).users
  {
    assert Spelled(0);
    assert TI.ReqOK(s.db, r, s.db.reqs[r]);
  }

  lemma ReceiverLocked(s: Sys, r: nat)
    requires Sound(s) && T.InLocking(s.db, r)
    ensures |T.LockOrder(s.db, r)| > 0 && s.db.reqs[r].phase.at < |s.db.hist|
    ensures AtCurrent(s.db, r) ==> s.db.reqs[r].phase.receiver in T.Current(s.db).users
  {
    assert Spelled(0);
    assert TI.ReqOK(s.db, r, s.db.reqs[r]);
  }

  /** What a transfer must answer on the given tables, if the lookup returns pick. */
  predicate Verdict(
    users: map<int, User>, sender: int, key: Key, amount: int, pick: Option<int>, err: Option<T.Error>)
  {
    && MayReturn(users, key, pick)
    && err ==
       if pick.None? then Some(T.ReceiverNotFound)
       else if pick.value == sender then Some(T.SelfTransfer)
       else if sender !in users then Some(T.Internal)
       else if users[sender].balance < amount then Some(T.InsufficientFunds)
       else if !IsInt64(users[pick.value].balance + amount) then Some(T.Internal)
       else None
  }

  ghost predicate Decides(users: map<int, User>, q: T.Request, err: Option<T.Error>) {
    exists pick :: Verdict(users, q.sender, q.key, q.amount, pick, err)
  }

  /** The verdict accepts exactly what the reference operation accepts. */
  lemma VerdictIsReference(t: Tables, op: Op)
    requires op.Transferred? && op.amount > 0 && MayReturn(t.users, op.key, Some(op.receiver))
    requires FreshTransferId(t.transfers, op.transferId) && FreshNoteIds(t.notes, op.noteId)
    ensures Verdict(t.users, op.sender, op.key, op.amount, Some(op.receiver), None) <==> SerialApply(t, op).Some?
  {
  }

  /** What the retry loop must answer after the calls from start up to t, when nobody else
      acts: a broken call ends it, 40001 does so only the fifth time, and otherwise the
      tables decide. */
  ghost predicate QuietOutcome(
    users: map<int, User>, q: T.Request, env: Env, start: nat, t: nat, err: Option<T.Error>)
  {
    && start < t && NoneBroke(env, start, t - 1) && Serials(env, start, t) <= 5
    && if env(t - 1).fault.Broken? then err == Some(T.Internal)
       else if Serials(env, start, t) == 5 then err == Some(T.SerializationFailure)
       else env(t - 1).fault.NoFault? && Decides(users, q, err)
  }

  lemma SameOutcome(
    users: map<int, User>, q: T.Request, q': T.Request, env: Env, start: nat, t: nat, err: Option<T.Error>)
    requires QuietOutcome(users, q, env, start, t, err) && TI.SameParameters(q, q')
    ensures QuietOutcome(users, q', env, start, t, err)
  {
    if pick :| Verdict(users, q.sender, q.key, q.amount, pick, err) {
      assert Verdict(users, q'.sender, q'.key, q'.amount, pick, err);
    }
  }

  /** Before an attempt, with nobody else acting: no lock is held, the tables are those of
      the start, and the calls so far met 40001 once per attempt. */
  ghost predicate QuietSoFar(users: map<int, User>, s: Sys, env: Env, start: nat, t: nat, attempt: nat) {
    && s.db.locks == map[] && T.Current(s.db).users == users && start <= t
    && NoneBroke(env, start, t) && Serials(env, start, t) == attempt
  }

  /** What one attempt tells the loop. */
  ghost predicate QuietAttempt(
    users: map<int, User>, q: T.Request, s: Sys, r: nat, env: Env, from: nat, t: nat, err: Option<T.Error>)
  {
    && from < t && Clean(env, from, t - 1) && AttemptEnded(q, s.db, r, env(t - 1), err)
    && (env(t - 1).fault.NoFault? ==> Decides(users, q, err))
  }

  lemma QuietRetry(
    users: map<int, User>, q: T.Request, before: Sys, after: Sys, r: nat, env: Env,
    start: nat, from: nat, t: nat, err: Option<T.Error>)
    requires QuietSoFar(users, before, env, start, from, q.attempt) && q.attempt < 4
    requires QuietAttempt(users, q, after, r, env, from, t, err) && err == Some(T.SerializationFailure)
    requires CarriedOver(before, after, r, true) && Sound(after)
    ensures QuietSoFar(users, after, env, start, t, q.attempt + 1)
  {
    EndOf(q, after.db, r, env(t - 1), err);
    CarriedQuietly(before, after, r);
    NoLocksLeft(after, r);
    SerialsSplit(env, start, from, t);
  }

  lemma QuietEnd(
    users: map<int, User>, q0: T.Request, q: T.Request, before: Sys, after: Sys, r: nat, env: Env,
    start: nat, from: nat, t: nat, err: Option<T.Error>)
    requires QuietSoFar(users, before, env, start, from, q.attempt) && q.attempt < 5
    requires QuietAttempt(users, q, after, r, env, from, t, err) && TI.SameParameters(q0, q)
    requires err != Some(T.SerializationFailure) || q.attempt == 4
    ensures QuietOutcome(users, q0, env, start, t, err)
  {
    EndOf(q, after.db, r, env(t - 1), err);
    SerialsSplit(env, start, from, t);
    if env(t - 1).fault.NoFault? {
      var pick :| Verdict(users, q.sender, q.key, q.amount, pick, err);
      assert Verdict(users, q0.sender, q0.key, q0.amount, pick, err);
    }
  }
}
