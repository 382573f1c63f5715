/** Many transfer requests interleaving over one PostgreSQL database: each event is one
    statement of one request's transaction, or one single-statement write of another
    service. Snapshots, row locks, private writes and 40001 are explicit. */
module Transactions {
  import opened Base
  import opened Decimal
  import opened Ledger

  // ---------------------------------------------------------------- state

  /** The variable captured by the transaction closure; every attempt writes the same one. */
  datatype Captured = Captured(
    transferId: int, senderId: int, receiverId: int,
    senderPhone: string, receiverPhone: string,
    senderBalance: int, receiverBalance: int)

  const ZERO_RESULT: Captured := Captured(0, 0, 0, "", "", 0, 0)

  datatype Error =
    | InsufficientFunds | ReceiverNotFound | SelfTransfer | SerializationFailure | Internal

  /** Rows written by a transaction and not yet visible to anyone else. */
  datatype Writes = Writes(users: map<int, User>, transfers: seq<Transfer>, notes: seq<Notification>)

  /** Where a request stands. at is the snapshot, an index into the committed history;
      s and rc are the sender and receiver rows read under the row locks. */
  datatype Phase =
    | Ready
    | Locking(at: nat, receiver: int, held: nat)
    | Debited(at: nat, s: User, rc: User, w: Writes)
    | Recorded(at: nat, s: User, rc: User, w: Writes)
    | Notified(at: nat, s: User, rc: User, w: Writes)
    | Committed(index: nat)
    | Failed(error: Error)

  /** slept counts the nanoseconds spent in retry backoff. */
  datatype Request = Request(
    sender: int, key: Key, amount: int,
    res: Captured, attempt: nat, slept: nat, phase: Phase)
  {
    predicate Finished() { phase.Committed? || phase.Failed? }
  }

  /** hist lists the committed states; log the operation between each two of them.
      ver[id] is the index of the committed state that last wrote row id. */
  datatype Db = Db(
    hist: seq<Tables>, log: seq<Op>, ver: map<int, nat>,
    locks: map<int, nat>, reqs: map<nat, Request>,
    nextUser: int, nextTransfer: int, nextNote: int)

  const INITIAL_DB: Db := Db([EMPTY_TABLES], [], map[], map[], map[], 1, 1, 1)

  function Current(db: Db): Tables {
    if db.hist == [] then EMPTY_TABLES else db.hist[|db.hist| - 1]
  }

  function Snapshot(hist: seq<Tables>, at: nat): map<int, User> {
    if at < |hist| then hist[at].users else map[]
  }

  // ---------------------------------------------------------------- statements

  const MAX_RETRIES: nat := 5
  const MILLISECOND: nat := 1_000_000

  /** 1 << n. */
  function Shift(n: nat): (s: nat)
    ensures s >= 1
  {
    if n == 0 then 1 else 2 * Shift(n - 1)
  }

  /** Full-jitter backoff: the exclusive upper bound of the sleep after an attempt. */
  function MaxDelay(attempt: nat): nat {
    var d := Shift(attempt) * 2 * MILLISECOND;
    if d > 100 * MILLISECOND then 100 * MILLISECOND else d
  }

  /** SELECT ... WHERE id IN (a, b) ORDER BY id: the visible ids, lowest first. */
  function Targets(users: map<int, User>, a: int, b: int): (ids: seq<int>)
    ensures forall i :: 0 <= i < |ids| ==> ids[i] in users && (ids[i] == a || ids[i] == b)
    ensures forall i, j :: 0 <= i < j < |ids| ==> ids[i] < ids[j]
  {
    var lo, hi := if a <= b then a else b, if a <= b then b else a;
    (if lo in users then [lo] else []) + (if hi in users && hi != lo then [hi] else [])
  }

  /** The two rows come lowest id first; the pair is (sender, receiver). */
  function MapBack(rows: seq<User>, sender: int): (User, User)
    requires |rows| == 2
  {
    if rows[0].id == sender then (rows[0], rows[1]) else (rows[1], rows[0])
  }

  predicate Unchanged(ver: map<int, nat>, at: nat, id: int) {
    id in ver && ver[id] <= at
  }

  function Release(locks: map<int, nat>, r: nat): map<int, nat> {
    map id | id in locks && locks[id] != r :: locks[id]
  }

  function Install(t: Tables, w: Writes): Tables {
    Tables(t.users + w.users, t.transfers + w.transfers, t.notes + w.notes)
  }

  // ---------------------------------------------------------------- events

  datatype Event =
    | Submit(r: nat, sender: int, key: Key, amount: int)
    | Resolve(r: nat, pick: Option<int>)
    | Lock(r: nat)
    | Debit(r: nat)
    | InsertTransfer(r: nat)
    | InsertNotes(r: nat)
    | Commit(r: nat)
    | Abort(r: nat, jitter: nat)   // SQLSTATE 40001 anywhere inside the attempt
    | Break(r: nat)                // any other error, e.g. a statement timeout
    | InsertUser(phone: string, accountNumber: string, username: string, passwordHash: string)
    | BurnUserId
    | Ack(user: int, note: int)
  {
    predicate OfRequest() {
      !Submit? && !InsertUser? && !BurnUserId? && !Ack?
    }
  }

  predicate Active(db: Db, r: nat) {
    r in db.reqs && !db.reqs[r].Finished()
  }

  predicate InLocking(db: Db, r: nat) {
    r in db.reqs && db.reqs[r].phase.Locking?
  }

  function LockOrder(db: Db, r: nat): seq<int>
    requires InLocking(db, r)
  {
    var q := db.reqs[r];
    Targets(Snapshot(db.hist, q.phase.at), q.sender, q.phase.receiver)
  }

  /** The row the request has to lock next. */
  function Awaited(db: Db, r: nat): Option<int> {
    if InLocking(db, r) && db.reqs[r].phase.held < |LockOrder(db, r)|
    then Some(LockOrder(db, r)[db.reqs[r].phase.held]) else None
  }

  function RegisterOp(db: Db, e: Event): Op
    requires e.InsertUser?
  {
    Registered(db.nextUser, e.phone, e.accountNumber, e.username, e.passwordHash)
  }

  predicate Enabled(db: Db, e: Event) {
    match e
    case Submit(r, _, _, amount) => r !in db.reqs && amount > 0
    case Resolve(r, pick) =>
      r in db.reqs && db.reqs[r].phase.Ready? && MayReturn(Current(db).users, db.reqs[r].key, pick)
    case Lock(r) =>
      Awaited(db, r).Some? && Awaited(db, r).value !in db.locks
      && Unchanged(db.ver, db.reqs[r].phase.at, Awaited(db, r).value)
    case Debit(r) => InLocking(db, r) && db.reqs[r].phase.held == |LockOrder(db, r)|
    case InsertTransfer(r) => r in db.reqs && db.reqs[r].phase.Debited?
    case InsertNotes(r) => r in db.reqs && db.reqs[r].phase.Recorded? && |db.reqs[r].phase.w.transfers| == 1
    case Commit(r) => r in db.reqs && db.reqs[r].phase.Notified?
      && |db.reqs[r].phase.w.transfers| == 1 && |db.reqs[r].phase.w.notes| == 2
    case Abort(r, jitter) =>
      && Active(db, r)
      && (if db.reqs[r].attempt < MAX_RETRIES - 1 then jitter < MaxDelay(db.reqs[r].attempt) else jitter == 0)
    case Break(r) => Active(db, r)
    case InsertUser(_, _, _, _) => CanRegister(Current(db), RegisterOp(db, e))
    case BurnUserId => true
    case Ack(_, _) => true
  }

  function WithPhase(db: Db, r: nat, phase: Phase): Db
    requires r in db.reqs
  {
    db.(reqs := db.reqs[r := db.reqs[r].(phase := phase)])
  }

  /** Roll back: private writes vanish, locks are released, the request ends with an error. */
  function Fail(db: Db, r: nat, error: Error): Db
    requires r in db.reqs
  {
    WithPhase(db, r, Failed(error)).(locks := Release(db.locks, r))
  }

  function ResolveStep(db: Db, r: nat, pick: Option<int>): Db
    requires r in db.reqs
  {
    match pick
    case None => Fail(db, r, ReceiverNotFound)
    case Some(id) =>
      var q := db.reqs[r];
      if q.sender == id then Fail(db, r, SelfTransfer)
      else db.(reqs := db.reqs[r := q.(
        res := q.res.(receiverId := id), phase := Locking(if db.hist == [] then 0 else |db.hist| - 1, id, 0))])
  }

  function LockedRows(db: Db, r: nat): seq<User>
    requires InLocking(db, r)
  {
    var users, ids := Snapshot(db.hist, db.reqs[r].phase.at), LockOrder(db, r);
    seq(|ids|, i requires 0 <= i < |ids| => users[ids[i]])
  }

  /** Balance check in Go on the locked rows, then the CASE update. */
  function DebitPhase(q: Request, rows: seq<User>, users: map<int, User>): (p: Phase)
    requires q.phase.Locking?
    ensures p.Failed? || (p.Debited? && p.at == q.phase.at)
  {
    if |rows| != 2 then Failed(Internal)
    else
      var (s, rc) := MapBack(rows, q.sender);
      if s.balance < q.amount then Failed(InsufficientFunds)
      else
        var out := UpdateBalances(users, s.id, rc.id, q.amount);
        if !out.Updated? then Failed(Internal)
        else if |out.rows| != 2 then Failed(InsufficientFunds)
        else Debited(q.phase.at, s, rc, Writes(out.rows, [], []))
  }

  function DebitStep(db: Db, r: nat): Db
    requires InLocking(db, r)
  {
    var q := db.reqs[r];
    var p := DebitPhase(q, LockedRows(db, r), Snapshot(db.hist, q.phase.at));
    if p.Failed? then Fail(db, r, p.error) else WithPhase(db, r, p)
  }

  /** INSERT INTO transfers, then the closure fills the captured result. */
  function RecordStep(db: Db, r: nat): Db
    requires r in db.reqs && db.reqs[r].phase.Debited?
  {
    var q := db.reqs[r];
    var Debited(at, s, rc, w) := q.phase;
    var x := Transfer(db.nextTransfer, s.id, rc.id, q.amount);
    db.(nextTransfer := db.nextTransfer + 1,
        reqs := db.reqs[r := q.(
          res := q.res.(
            transferId := x.id, senderId := s.id, senderPhone := s.phone, receiverPhone := rc.phone,
            senderBalance := Wrap64(s.balance - q.amount),
            receiverBalance := Wrap64(rc.balance + q.amount)),
          phase := Recorded(at, s, rc, w.(transfers := [x])))])
  }

  function NotifyStep(db: Db, r: nat): Db
    requires r in db.reqs && db.reqs[r].phase.Recorded?
  {
    var q := db.reqs[r];
    var Recorded(at, s, rc, w) := q.phase;
    WithPhase(db, r, Notified(at, s, rc, w.(notes := NotesFor(s, rc, q.amount, db.nextNote))))
      .(nextNote := db.nextNote + 2)
  }

  function TransferOp(r: nat, q: Request): Op
    requires q.phase.Notified? && |q.phase.w.transfers| == 1 && |q.phase.w.notes| == 2
  {
    Transferred(r, q.sender, q.key, q.amount, q.phase.rc.id, q.phase.w.transfers[0].id, q.phase.w.notes[0].id)
  }

  function CommitStep(db: Db, r: nat): Db
    requires Enabled(db, Commit(r))
  {
    var q := db.reqs[r];
    WithPhase(db, r, Committed(|db.log|)).(
      hist := db.hist + [Install(Current(db), q.phase.w)],
      log := db.log + [TransferOp(r, q)],
      ver := db.ver + (map id | id in q.phase.w.users :: |db.hist|),
      locks := Release(db.locks, r))
  }

  /** 40001: roll back and sleep before the next attempt, or give up after the fifth. */
  function AbortStep(db: Db, r: nat, jitter: nat): Db
    requires r in db.reqs
  {
    var q := db.reqs[r];
    if q.attempt < MAX_RETRIES - 1 then
      db.(locks := Release(db.locks, r),
          reqs := db.reqs[r := q.(attempt := q.attempt + 1, slept := q.slept + jitter, phase := Ready)])
    else Fail(db, r, SerializationFailure)
  }

  function Apply(db: Db, e: Event): Db
    requires Enabled(db, e)
  {
    match e
    case Submit(r, sender, key, amount) =>
      db.(reqs := db.reqs[r := Request(sender, key, amount, ZERO_RESULT, 0, 0, Ready)])
    case Resolve(r, pick) => ResolveStep(db, r, pick)
    case Lock(r) =>
      var p := db.reqs[r].phase;
      WithPhase(db, r, p.(held := p.held + 1)).(locks := db.locks[Awaited(db, r).value := r])
    case Debit(r) => DebitStep(db, r)
    case InsertTransfer(r) => RecordStep(db, r)
    case InsertNotes(r) => NotifyStep(db, r)
    case Commit(r) => CommitStep(db, r)
    case Abort(r, jitter) => AbortStep(db, r, jitter)
    case Break(r) => Fail(db, r, Internal)
    case InsertUser(_, _, _, _) =>
      var op := RegisterOp(db, e);
      db.(nextUser := db.nextUser + 1,
          ver := db.ver[op.id := |db.hist|],
          hist := db.hist + [SerialApply(Current(db), op).value],
          log := db.log + [op])
    case BurnUserId => db.(nextUser := db.nextUser + 1)
    case Ack(user, note) =>
      var op := Acked(user, note);
      db.(hist := db.hist + [SerialApply(Current(db), op).value], log := db.log + [op])
  }

  // ---------------------------------------------------------------- runs

  predicate Legal(db: Db, es: seq<Event>)
    decreases |es|
  {
    es == [] || (Enabled(db, es[0]) && Legal(Apply(db, es[0]), es[1..]))
  }

  function Exec(db: Db, es: seq<Event>): Db
    requires Legal(db, es)
    decreases |es|
  {
    if es == [] then db else Exec(Apply(db, es[0]), es[1..])
  }
}
