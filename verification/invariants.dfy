/** What every reachable state of the transfer database satisfies, one step at a time. */
module TransactionInvariants {
  import opened Base
  import opened Decimal
  import opened Ledger
  import opened Transactions

  // ---------------------------------------------------------------- the invariant

  /** Each committed state is the reference operation applied to the one before. */
  ghost predicate HistoryOK(db: Db) {
    && |db.hist| == |db.log| + 1
    && db.hist[0] == EMPTY_TABLES
    && forall k {:trigger LinkOK(db, k)} :: 0 <= k < |db.log| ==> LinkOK(db, k)
  }

  ghost predicate LinkOK(db: Db, k: nat)
    requires |db.hist| == |db.log| + 1 && k < |db.log|
  {
    SerialApply(db.hist[k], db.log[k]) == Some(db.hist[k + 1])
  }

  /** A row whose version is at most k looks the same in committed state k and now. */
  ghost predicate VersionsOK(db: Db) {
    && db.ver.Keys == Current(db).users.Keys
    && (forall id :: id in db.ver ==> db.ver[id] < |db.hist|)
    && (forall id, k: nat {:trigger SameRow(db, id, k)} ::
          id in db.ver && db.ver[id] <= k < |db.hist| ==> SameRow(db, id, k))
  }

  ghost predicate SameRow(db: Db, id: int, k: nat)
    requires k < |db.hist| && id in Current(db).users
  {
    id in db.hist[k].users && db.hist[k].users[id] == Current(db).users[id]
  }

  /** The rows an unfinished request holds locked. */
  function Held(hist: seq<Tables>, q: Request): set<int> {
    match q.phase
    case Locking(at, receiver, held) =>
      var ids := Targets(Snapshot(hist, at), q.sender, receiver);
      if held <= |ids| then set i | 0 <= i < held :: ids[i] else {}
    case Debited(_, s, rc, _) => {s.id, rc.id}
    case Recorded(_, s, rc, _) => {s.id, rc.id}
    case Notified(_, s, rc, _) => {s.id, rc.id}
    case _ => {}
  }

  ghost predicate LocksOK(db: Db) {
    && (forall id :: id in db.locks ==>
          db.locks[id] in db.reqs && id in Held(db.hist, db.reqs[db.locks[id]]))
    && (forall r, id {:trigger id in Held(db.hist, db.reqs[r])} :: r in db.reqs && id in Held(db.hist, db.reqs[r]) ==>
          id in db.locks && db.locks[id] == r)
  }

  /** The private row writes of a transaction past its update: the reference debit and
      credit of rows that nobody has changed since the snapshot. */
  ghost predicate DebitOK(db: Db, q: Request, at: nat, s: User, rc: User, w: Writes) {
    && at < |db.hist|
    && s.id == q.sender && s.id != rc.id
    && s.id in db.hist[at].users && db.hist[at].users[s.id] == s
    && rc.id in db.hist[at].users && db.hist[at].users[rc.id] == rc
    && Matches(rc, q.key)
    && Unchanged(db.ver, at, s.id) && Unchanged(db.ver, at, rc.id)
    && s.balance >= q.amount && IsInt64(rc.balance + q.amount)
    && w.users == map[
         s.id := s.(balance := s.balance - q.amount),
         rc.id := rc.(balance := rc.balance + q.amount)]
  }

  /** The captured result describes this attempt and nothing of an earlier one. */
  ghost predicate CapturedOK(db: Db, q: Request, s: User, rc: User, w: Writes) {
    && |w.transfers| == 1
    && w.transfers[0] == Transfer(q.res.transferId, s.id, rc.id, q.amount)
    && q.res == Captured(q.res.transferId, s.id, rc.id, s.phone, rc.phone, s.balance - q.amount, rc.balance + q.amount)
    && q.res.transferId < db.nextTransfer
    && FreshTransferId(Current(db).transfers, q.res.transferId)
  }

  ghost predicate NotesOK(db: Db, q: Request, s: User, rc: User, w: Writes) {
    && |w.notes| == 2
    && w.notes == NotesFor(s, rc, q.amount, w.notes[0].id)
    && w.notes[0].id + 1 < db.nextNote
    && FreshNoteIds(Current(db).notes, w.notes[0].id)
  }

  /** What a committed request left behind. */
  ghost predicate CommitOK(db: Db, r: nat, q: Request, k: nat) {
    && k < |db.log| && k + 1 < |db.hist|
    && db.log[k].Transferred?
    && db.log[k] == Transferred(r, q.sender, q.key, q.amount, q.res.receiverId, q.res.transferId, db.log[k].noteId)
    && q.res == ResultOf(db.hist[k + 1], db.log[k])
  }

  /** What the result should be, read off the state the operation produced. */
  function ResultOf(after: Tables, op: Op): Captured
    requires op.Transferred?
  {
    if op.sender in after.users && op.receiver in after.users then
      var s, rc := after.users[op.sender], after.users[op.receiver];
      Captured(op.transferId, op.sender, op.receiver, s.phone, rc.phone, s.balance, rc.balance)
    else ZERO_RESULT
  }

  /** Total sleep stays below the sum of the backoff bounds used so far. */
  predicate SleepOK(q: Request) {
    && q.attempt < MAX_RETRIES
    && q.slept <= (Shift(q.attempt) - 1) * 2 * MILLISECOND
    && (q.attempt > 0 ==> q.slept < (Shift(q.attempt) - 1) * 2 * MILLISECOND)
  }

  ghost predicate ReqOK(db: Db, r: nat, q: Request) {
    && q.amount > 0
    && SleepOK(q)
    && match q.phase
       case Ready => true
       case Locking(at, receiver, held) =>
         && at < |db.hist| && receiver != q.sender && q.res.receiverId == receiver
         && receiver in db.hist[at].users && Matches(db.hist[at].users[receiver], q.key)
         && held <= |Targets(db.hist[at].users, q.sender, receiver)|
         && (forall id :: id in Held(db.hist, q) ==> Unchanged(db.ver, at, id))
       case Debited(at, s, rc, w) =>
         DebitOK(db, q, at, s, rc, w) && w.transfers == [] && w.notes == [] && q.res.receiverId == rc.id
       case Recorded(at, s, rc, w) =>
         DebitOK(db, q, at, s, rc, w) && CapturedOK(db, q, s, rc, w) && w.notes == []
       case Notified(at, s, rc, w) =>
         DebitOK(db, q, at, s, rc, w) && CapturedOK(db, q, s, rc, w) && NotesOK(db, q, s, rc, w)
       case Committed(k) => CommitOK(db, r, q, k)
       case Failed(_) => true
  }

  ghost predicate ReqsOK(db: Db) {
    forall r {:trigger ReqOK(db, r, db.reqs[r])} :: r in db.reqs ==> ReqOK(db, r, db.reqs[r])
  }

  predicate HasTransferId(q: Request) {
    (q.phase.Recorded? || q.phase.Notified?) && |q.phase.w.transfers| == 1
  }

  predicate HasNoteIds(q: Request) {
    q.phase.Notified? && |q.phase.w.notes| == 2
  }

  /** Sequence values are drawn once: committed ids lie below the sequence, and two
      transactions in flight hold different ones. */
  ghost predicate IdsOK(db: Db) {
    && SequencesOK(db)
    && (forall r, r' {:trigger IdsApart(db.reqs[r], db.reqs[r'])} ::
          r in db.reqs && r' in db.reqs && r != r' ==> IdsApart(db.reqs[r], db.reqs[r']))
  }

  ghost predicate SequencesOK(db: Db) {
    && (forall k :: 0 <= k < |Current(db).transfers| ==> Current(db).transfers[k].id < db.nextTransfer)
    && (forall k :: 0 <= k < |Current(db).notes| ==> Current(db).notes[k].id < db.nextNote)
    && (forall id :: id in Current(db).users ==> 0 < id < db.nextUser)
    && 0 < db.nextUser
  }

  predicate IdsApart(q: Request, q': Request) {
    && (HasTransferId(q) && HasTransferId(q') ==> q.phase.w.transfers[0].id != q'.phase.w.transfers[0].id)
    && (HasNoteIds(q) && HasNoteIds(q') ==> q.phase.w.notes[0].id - q'.phase.w.notes[0].id !in {-1, 0, 1})
  }

  /** Every transfer in the log belongs to exactly the request that is committed there. */
  ghost predicate OnceOK(db: Db) {
    forall k {:trigger OnceAt(db, k)} :: 0 <= k < |db.log| ==> OnceAt(db, k)
  }

  ghost predicate OnceAt(db: Db, k: nat)
    requires k < |db.log|
  {
    db.log[k].Transferred? ==>
      db.log[k].req in db.reqs && db.reqs[db.log[k].req].phase == Committed(k)
  }

  ghost predicate Inv(db: Db) {
    && HistoryOK(db) && VersionsOK(db) && LocksOK(db)
    && ReqsOK(db) && IdsOK(db) && OnceOK(db)
  }

  lemma InitialInv()
    ensures Inv(INITIAL_DB)
  {
  }

  // ---------------------------------------------------------------- consequences of the history

  /** Every committed state has an agreeing ledger. */
  lemma {:induction false} HistoryLedger(db: Db, k: nat)
    requires HistoryOK(db) && k < |db.hist|
    ensures LedgerOK(db.hist[k])
  {
    if k == 0 {
      LedgerOfEmpty();
    } else {
      HistoryLedger(db, k - 1);
      assert LinkOK(db, k - 1);
      SerialKeepsLedger(db.hist[k - 1], db.log[k - 1]);
    }
  }

  lemma SnapshotRows(db: Db, k: nat)
    requires HistoryOK(db) && k < |db.hist|
    ensures RowsWellFormed(db.hist[k].users)
  {
    HistoryLedger(db, k);
  }

  /** Users stay, and keep everything but their balance. */
  lemma {:induction false} HistoryUsers(db: Db, j: nat, k: nat)
    requires HistoryOK(db) && j <= k < |db.hist|
    ensures UsersExtend(db.hist[j], db.hist[k])
    decreases k
  {
    if j < k {
      HistoryUsers(db, j, k - 1);
      assert LinkOK(db, k - 1);
      SerialExtendsUsers(db.hist[k - 1], db.log[k - 1]);
    }
  }

  // ---------------------------------------------------------------- steps inside one request

  /** A step that touches one request, the locks it holds and the sequences only. */
  ghost predicate LocalStep(db: Db, db': Db, r: nat, q': Request) {
    && db'.hist == db.hist && db'.log == db.log && db'.ver == db.ver
    && db'.reqs == db.reqs[r := q']
    && db'.nextUser >= db.nextUser && db'.nextTransfer >= db.nextTransfer && db'.nextNote >= db.nextNote
    && (r in db.reqs ==> !db.reqs[r].phase.Committed?)
  }

  lemma LocalKeeps(db: Db, db': Db, r: nat, q': Request)
    requires Inv(db) && LocalStep(db, db', r, q')
    requires ReqOK(db', r, q') && LocksOK(db')
    requires forall r' :: r' in db.reqs && r' != r ==> IdsApart(q', db.reqs[r']) && IdsApart(db.reqs[r'], q')
    ensures Inv(db')
  {
    forall r1, r2 | r1 in db'.reqs && r2 in db'.reqs && r1 != r2
      ensures IdsApart(db'.reqs[r1], db'.reqs[r2])
    {
      if r1 != r && r2 != r {
        assert IdsApart(db.reqs[r1], db.reqs[r2]);
      }
    }
    forall r' | r' in db'.reqs
      ensures ReqOK(db', r', db'.reqs[r'])
    {
      if r' != r {
        assert ReqOK(db, r', db.reqs[r']);
      }
    }
    forall k | 0 <= k < |db'.log|
      ensures LinkOK(db', k) && OnceAt(db', k)
    {
      assert LinkOK(db, k) && OnceAt(db, k);
    }
    forall id, k: nat | id in db'.ver && db'.ver[id] <= k < |db'.hist|
      ensures SameRow(db', id, k)
    {
      assert SameRow(db, id, k);
    }
  }

  /** Giving up all locks of r together with its phase keeps lock ownership exact. */
  lemma ReleaseKeepsLocks(db: Db, db': Db, r: nat)
    requires LocksOK(db) && r in db.reqs
    requires db'.hist == db.hist && db'.locks == Release(db.locks, r)
    requires r in db'.reqs && db'.reqs == db.reqs[r := db'.reqs[r]] && Held(db.hist, db'.reqs[r]) == {}
    ensures LocksOK(db')
  {
  }

  lemma FailKeepsInv(db: Db, r: nat, error: Error)
    requires Inv(db) && Active(db, r)
    ensures Inv(Fail(db, r, error))
  {
    var db' := Fail(db, r, error);
    assert ReqOK(db, r, db.reqs[r]);
    ReleaseKeepsLocks(db, db', r);
    LocalKeeps(db, db', r, db'.reqs[r]);
  }

  lemma ShiftMonotone(n: nat)
    requires n < 5
    ensures Shift(n) == [1, 2, 4, 8, 16][n] && MaxDelay(n) == Shift(n) * 2 * MILLISECOND
  {
    assert Shift(1) == 2 && Shift(2) == 4 && Shift(3) == 8 && Shift(4) == 16;
  }

  lemma AbortKeepsInv(db: Db, r: nat, jitter: nat)
    requires Inv(db) && Enabled(db, Abort(r, jitter))
    ensures Inv(AbortStep(db, r, jitter))
  {
    var q := db.reqs[r];
    assert ReqOK(db, r, q);
    if q.attempt < MAX_RETRIES - 1 {
      var db' := AbortStep(db, r, jitter);
      ShiftMonotone(q.attempt);
      ReleaseKeepsLocks(db, db', r);
      LocalKeeps(db, db', r, db'.reqs[r]);
    } else {
      FailKeepsInv(db, r, SerializationFailure);
    }
  }

  lemma SubmitKeepsInv(db: Db, e: Event)
    requires Inv(db) && e.Submit? && Enabled(db, e)
    ensures Inv(Apply(db, e))
  {
    var db' := Apply(db, e);
    LocalKeeps(db, db', e.r, db'.reqs[e.r]);
  }

  lemma ResolveKeepsInv(db: Db, r: nat, pick: Option<int>)
    requires Inv(db) && Enabled(db, Resolve(r, pick))
    ensures Inv(ResolveStep(db, r, pick))
  {
    var q := db.reqs[r];
    assert ReqOK(db, r, q);
    if pick.None? {
      FailKeepsInv(db, r, ReceiverNotFound);
    } else if q.sender == pick.value {
      FailKeepsInv(db, r, SelfTransfer);
    } else {
      var db' := ResolveStep(db, r, pick);
      LocalKeeps(db, db', r, db'.reqs[r]);
    }
  }

  lemma LockKeepsInv(db: Db, r: nat)
    requires Inv(db) && Enabled(db, Lock(r))
    ensures Inv(Apply(db, Lock(r)))
  {
    var q, db' := db.reqs[r], Apply(db, Lock(r));
    assert ReqOK(db, r, q);
    assert Held(db.hist, db'.reqs[r]) == Held(db.hist, q) + {Awaited(db, r).value};
    LockKeepsLocks(db, db', r, Awaited(db, r).value);
    assert ReqOK(db', r, db'.reqs[r]);
    LocalKeeps(db, db', r, db'.reqs[r]);
  }

  lemma LockKeepsLocks(db: Db, db': Db, r: nat, row: int)
    requires LocksOK(db) && r in db.reqs && row !in db.locks
    requires db'.hist == db.hist && db'.locks == db.locks[row := r]
    requires r in db'.reqs && db'.reqs == db.reqs[r := db'.reqs[r]]
    requires Held(db.hist, db'.reqs[r]) == Held(db.hist, db.reqs[r]) + {row}
    ensures LocksOK(db')
  {
  }

  /** Both rows locked: the pair read is (sender, receiver), and the rows are current. */
  lemma MapBackIsSenderReceiver(db: Db, r: nat)
    requires Inv(db) && Enabled(db, Debit(r)) && |LockedRows(db, r)| == 2
    ensures
      var q, users := db.reqs[r], Snapshot(db.hist, db.reqs[r].phase.at);
      && q.sender in users && q.phase.receiver in users
      && MapBack(LockedRows(db, r), q.sender) == (users[q.sender], users[q.phase.receiver])
      && users[q.sender].id == q.sender && users[q.phase.receiver].id == q.phase.receiver
      && q.sender in Current(db).users && Current(db).users[q.sender] == users[q.sender]
      && q.phase.receiver in Current(db).users && Current(db).users[q.phase.receiver] == users[q.phase.receiver]
      && Held(db.hist, q) == {q.sender, q.phase.receiver}
  {
    var q := db.reqs[r];
    assert ReqOK(db, r, q);
    SnapshotRows(db, q.phase.at);
    var ids := LockOrder(db, r);
    var users := Snapshot(db.hist, q.phase.at);
    assert |ids| == 2 && LockedRows(db, r) == [users[ids[0]], users[ids[1]]];
    assert ids[0] != ids[1];
    assert Held(db.hist, q) == {ids[0], ids[1]};
    assert SameRow(db, ids[0], q.phase.at) && SameRow(db, ids[1], q.phase.at);
  }

  lemma DebitKeepsInv(db: Db, r: nat)
    requires Inv(db) && Enabled(db, Debit(r))
    ensures Inv(DebitStep(db, r))
  {
    var p := DebitStep(db, r).reqs[r].phase;
    if p.Failed? {
      FailKeepsInv(db, r, p.error);
    } else {
      DebitIsRight(db, r);
      DebitSuccessKeepsInv(db, r, p.s, p.rc, p.w.users);
    }
  }

  /** A debit that goes through wrote one debit and one credit of the locked rows. */
  lemma DebitIsRight(db: Db, r: nat)
    requires Inv(db) && Enabled(db, Debit(r)) && !DebitStep(db, r).reqs[r].phase.Failed?
    ensures
      var q, p := db.reqs[r], DebitStep(db, r).reqs[r].phase;
      && p == Debited(q.phase.at, p.s, p.rc, Writes(p.w.users, [], []))
      && Held(db.hist, q) == {p.s.id, p.rc.id} && q.phase.receiver == p.rc.id
      && DebitOK(db, q, q.phase.at, p.s, p.rc, p.w)
  {
    var q := db.reqs[r];
    assert ReqOK(db, r, q);
    DebitShape(q, LockedRows(db, r), Snapshot(db.hist, q.phase.at));
    MapBackIsSenderReceiver(db, r);
    SnapshotRows(db, q.phase.at);
    CaseUpdateTwoRows(Snapshot(db.hist, q.phase.at), q.sender, q.phase.receiver, q.amount);
  }

  /** A debit that goes through used both rows, had the funds, and updated two rows. */
  lemma DebitShape(q: Request, rows: seq<User>, users: map<int, User>)
    requires q.phase.Locking? && !DebitPhase(q, rows, users).Failed?
    ensures
      |rows| == 2 &&
      var (s, rc), out := MapBack(rows, q.sender), DebitPhase(q, rows, users);
      && out == Debited(q.phase.at, s, rc, Writes(out.w.users, [], [])) && s.balance >= q.amount
      && UpdateBalances(users, s.id, rc.id, q.amount) == Updated(out.w.users) && |out.w.users| == 2
  {
  }

  lemma DebitSuccessKeepsInv(db: Db, r: nat, s: User, rc: User, rows: map<int, User>)
    requires Inv(db) && InLocking(db, r)
    requires Held(db.hist, db.reqs[r]) == {s.id, rc.id}
    requires DebitOK(db, db.reqs[r], db.reqs[r].phase.at, s, rc, Writes(rows, [], []))
    requires db.reqs[r].phase.receiver == rc.id
    ensures Inv(WithPhase(db, r, Debited(db.reqs[r].phase.at, s, rc, Writes(rows, [], []))))
  {
    var q := db.reqs[r];
    assert ReqOK(db, r, q);
    var db' := WithPhase(db, r, Debited(q.phase.at, s, rc, Writes(rows, [], [])));
    assert Held(db'.hist, db'.reqs[r]) == Held(db.hist, q);
    LocalKeeps(db, db', r, db'.reqs[r]);
  }

  lemma RecordKeepsInv(db: Db, r: nat)
    requires Inv(db) && Enabled(db, InsertTransfer(r))
    ensures Inv(RecordStep(db, r))
  {
    var q, db' := db.reqs[r], RecordStep(db, r);
    assert ReqOK(db, r, q);
    SnapshotRows(db, q.phase.at);
    Wrap64Identity(q.phase.s.balance - q.amount);
    Wrap64Identity(q.phase.rc.balance + q.amount);
    assert Held(db'.hist, db'.reqs[r]) == Held(db.hist, q);
    forall r' | r' in db.reqs && r' != r
      ensures IdsApart(db'.reqs[r], db.reqs[r']) && IdsApart(db.reqs[r'], db'.reqs[r])
    {
      assert ReqOK(db, r', db.reqs[r']);
    }
    LocalKeeps(db, db', r, db'.reqs[r]);
  }

  lemma NoteIdsBelow(db: Db, r: nat)
    requires Inv(db) && r in db.reqs && HasNoteIds(db.reqs[r])
    ensures db.reqs[r].phase.w.notes[0].id + 1 < db.nextNote
  {
    assert ReqOK(db, r, db.reqs[r]);
  }

  lemma NotifyKeepsInv(db: Db, r: nat)
    requires Inv(db) && Enabled(db, InsertNotes(r))
    ensures Inv(NotifyStep(db, r))
  {
    var q, db' := db.reqs[r], NotifyStep(db, r);
    assert ReqOK(db, r, q);
    assert Held(db'.hist, db'.reqs[r]) == Held(db.hist, q);
    forall r' | r' in db.reqs && r' != r
      ensures IdsApart(db'.reqs[r], db.reqs[r']) && IdsApart(db.reqs[r'], db'.reqs[r])
    {
      if HasNoteIds(db.reqs[r']) {
        NoteIdsBelow(db, r');
      }
      assert IdsApart(q, db.reqs[r']) && IdsApart(db.reqs[r'], q);
    }
    assert ReqOK(db', r, db'.reqs[r]);
    LocalKeeps(db, db', r, db'.reqs[r]);
  }

  // ---------------------------------------------------------------- steps that commit

  /** A step that appends one committed state: op changes the rows in dirty. */
  ghost predicate GlobalStep(db: Db, db': Db, op: Op, dirty: set<int>) {
    && db.hist != [] && SerialApply(Current(db), op).Some?
    && db'.hist == db.hist + [SerialApply(Current(db), op).value]
    && db'.log == db.log + [op]
    && db'.ver == db.ver + (map id | id in dirty :: |db.hist|)
    && (forall id :: id in Current(db').users && id !in dirty ==>
          id in Current(db).users && Current(db').users[id] == Current(db).users[id])
    && dirty <= Current(db').users.Keys
  }

  lemma GlobalKeepsHistory(db: Db, db': Db, op: Op, dirty: set<int>)
    requires HistoryOK(db) && VersionsOK(db) && GlobalStep(db, db', op, dirty)
    ensures HistoryOK(db') && VersionsOK(db')
  {
    SerialExtendsUsers(Current(db), op);
    assert Current(db') == db'.hist[|db.hist|];
    forall k | 0 <= k < |db'.log|
      ensures LinkOK(db', k)
    {
      assert k < |db.log| ==> LinkOK(db, k);
    }
    forall id, k: nat | id in db'.ver && db'.ver[id] <= k < |db'.hist|
      ensures SameRow(db', id, k)
    {
      if k < |db.hist| {
        assert id !in dirty;
        assert SameRow(db, id, k);
      }
    }
  }

  /** Another request's standing survives a commit that touches none of its locked rows. */
  lemma GlobalKeepsReq(db: Db, db': Db, op: Op, dirty: set<int>, r: nat)
    requires HistoryOK(db) && GlobalStep(db, db', op, dirty)
    requires r in db.reqs && ReqOK(db, r, db.reqs[r]) && Held(db.hist, db.reqs[r]) !! dirty
    requires db'.nextTransfer >= db.nextTransfer && db'.nextNote >= db.nextNote
    requires op.Transferred? && HasTransferId(db.reqs[r]) ==> op.transferId != db.reqs[r].phase.w.transfers[0].id
    requires op.Transferred? && HasNoteIds(db.reqs[r]) ==>
      op.noteId - db.reqs[r].phase.w.notes[0].id !in {-1, 0, 1}
    ensures ReqOK(db', r, db.reqs[r])
    ensures Held(db'.hist, db.reqs[r]) == Held(db.hist, db.reqs[r])
  {
    var q := db.reqs[r];
    assert Current(db') == SerialApply(Current(db), op).value;
    assert q.phase.Locking? ==> Snapshot(db'.hist, q.phase.at) == Snapshot(db.hist, q.phase.at);
    FreshAfter(db, db', op, q);
  }

  lemma FreshAfter(db: Db, db': Db, op: Op, q: Request)
    requires SerialApply(Current(db), op) == Some(Current(db'))
    requires op.Transferred? && HasTransferId(q) ==> op.transferId != q.phase.w.transfers[0].id
    requires op.Transferred? && HasNoteIds(q) ==>
      op.noteId - q.phase.w.notes[0].id !in {-1, 0, 1}
    ensures HasTransferId(q) && FreshTransferId(Current(db).transfers, q.phase.w.transfers[0].id) ==>
      FreshTransferId(Current(db').transfers, q.phase.w.transfers[0].id)
    ensures HasNoteIds(q) && FreshNoteIds(Current(db).notes, q.phase.w.notes[0].id) ==>
      FreshNoteIds(Current(db').notes, q.phase.w.notes[0].id)
  {
  }

  predicate OpApart(op: Op, q: Request) {
    op.Transferred? ==>
      && (HasTransferId(q) ==> op.transferId != q.phase.w.transfers[0].id)
      && (HasNoteIds(q) ==> op.noteId - q.phase.w.notes[0].id !in {-1, 0, 1})
  }

  /** What a committing step does to the requests: mine are the ones it finishes (none
      or one), and the locked rows of all others stay clean. */
  ghost predicate RequestsAfter(db: Db, db': Db, op: Op, dirty: set<int>, mine: set<nat>) {
    && db'.reqs.Keys == db.reqs.Keys
    && (forall r :: r in db.reqs && r !in mine ==>
          db'.reqs[r] == db.reqs[r] && Held(db.hist, db.reqs[r]) !! dirty && OpApart(op, db.reqs[r]))
    && (forall r :: r in db.reqs && r in mine ==>
          ReqOK(db', r, db'.reqs[r]) && db'.reqs[r].Finished() && !db.reqs[r].phase.Committed?)
    && (forall id :: id in db'.locks <==> id in db.locks && db.locks[id] !in mine)
    && (forall id :: id in db'.locks ==> db'.locks[id] == db.locks[id])
    && db'.nextTransfer >= db.nextTransfer && db'.nextNote >= db.nextNote
  }

  lemma GlobalKeepsReqs(db: Db, db': Db, op: Op, dirty: set<int>, mine: set<nat>)
    requires Inv(db) && GlobalStep(db, db', op, dirty) && RequestsAfter(db, db', op, dirty, mine)
    ensures ReqsOK(db')
    ensures forall r :: r in db.reqs && r !in mine ==> Held(db'.hist, db'.reqs[r]) == Held(db.hist, db.reqs[r])
  {
    forall r | r in db.reqs && r !in mine
      ensures ReqOK(db', r, db'.reqs[r]) && Held(db'.hist, db'.reqs[r]) == Held(db.hist, db.reqs[r])
    {
      GlobalKeepsReq(db, db', op, dirty, r);
    }
  }

  lemma GlobalKeepsIds(db: Db, db': Db, op: Op, dirty: set<int>, mine: set<nat>)
    requires Inv(db) && GlobalStep(db, db', op, dirty) && RequestsAfter(db, db', op, dirty, mine)
    requires SequencesOK(db') && OnceAt(db', |db.log|)
    ensures IdsOK(db') && OnceOK(db')
  {
    forall r, r' | r in db'.reqs && r' in db'.reqs && r != r'
      ensures IdsApart(db'.reqs[r], db'.reqs[r'])
    {
      assert IdsApart(db.reqs[r], db.reqs[r']);
    }
    forall k | 0 <= k < |db'.log|
      ensures OnceAt(db', k)
    {
      assert k < |db.log| ==> OnceAt(db, k);
    }
  }

  lemma GlobalKeeps(db: Db, db': Db, op: Op, dirty: set<int>, mine: set<nat>)
    requires Inv(db) && GlobalStep(db, db', op, dirty) && RequestsAfter(db, db', op, dirty, mine)
    requires SequencesOK(db') && OnceAt(db', |db.log|)
    ensures Inv(db')
  {
    GlobalKeepsHistory(db, db', op, dirty);
    GlobalKeepsReqs(db, db', op, dirty, mine);
    GlobalKeepsIds(db, db', op, dirty, mine);
    GlobalKeepsLocks(db, db', mine);
  }

  lemma GlobalKeepsLocks(db: Db, db': Db, mine: set<nat>)
    requires LocksOK(db) && db'.reqs.Keys == db.reqs.Keys
    requires forall r :: r in db.reqs && r !in mine ==> Held(db'.hist, db'.reqs[r]) == Held(db.hist, db.reqs[r])
    requires forall r :: r in db.reqs && r in mine ==> db'.reqs[r].Finished()
    requires forall id :: id in db'.locks <==> id in db.locks && db.locks[id] !in mine
    requires forall id :: id in db'.locks ==> db'.locks[id] == db.locks[id]
    ensures LocksOK(db')
  {
  }

  lemma CommittedOp(db: Db, r: nat)
    requires Inv(db) && Enabled(db, Commit(r))
    ensures
      var q := db.reqs[r];
      && ReqOK(db, r, q)
      && SerialApply(Current(db), TransferOp(r, q)) == Some(Install(Current(db), q.phase.w))
  {
    var q := db.reqs[r];
    assert ReqOK(db, r, q);
    var t, op := Current(db), TransferOp(r, q);
    var Notified(at, s, rc, w) := q.phase;
    assert SameRow(db, s.id, at) && SameRow(db, rc.id, at);
    assert CanTransfer(t, op);
    assert w.transfers == [Transfer(op.transferId, s.id, rc.id, q.amount)];
    assert t.users + w.users == t.users[s.id := w.users[s.id]][rc.id := w.users[rc.id]];
  }

  lemma CommitLeavesOthers(db: Db, r: nat, r': nat)
    requires Inv(db) && Enabled(db, Commit(r)) && r' in db.reqs && r' != r
    ensures Held(db.hist, db.reqs[r']) !! Held(db.hist, db.reqs[r])
    ensures ReqOK(db, r, db.reqs[r]) && OpApart(TransferOp(r, db.reqs[r]), db.reqs[r'])
  {
    assert ReqOK(db, r, db.reqs[r]);
    assert forall id :: id in Held(db.hist, db.reqs[r]) ==> db.locks[id] == r;
    assert IdsApart(db.reqs[r], db.reqs[r']);
  }

  lemma CommitRecordsResult(db: Db, r: nat)
    requires Inv(db) && Enabled(db, Commit(r))
    ensures
      var db' := CommitStep(db, r);
      ReqOK(db', r, db'.reqs[r]) && OnceAt(db', |db.log|) && SequencesOK(db')
  {
    var q, db' := db.reqs[r], CommitStep(db, r);
    CommittedOp(db, r);
    CommitLogs(db, r);
    assert Current(db') == Install(Current(db), q.phase.w);
  }

  lemma CommitLogs(db: Db, r: nat)
    requires HistoryOK(db) && Enabled(db, Commit(r)) && ReqOK(db, r, db.reqs[r])
    ensures CommitOK(CommitStep(db, r), r, CommitStep(db, r).reqs[r], |db.log|)
  {
    var q, db' := db.reqs[r], CommitStep(db, r);
    assert db'.hist[|db.log| + 1] == Install(Current(db), q.phase.w);
  }

  lemma CommitIsGlobal(db: Db, r: nat)
    requires Inv(db) && Enabled(db, Commit(r))
    ensures GlobalStep(db, CommitStep(db, r), TransferOp(r, db.reqs[r]), Held(db.hist, db.reqs[r]))
  {
    var q, db' := db.reqs[r], CommitStep(db, r);
    CommittedOp(db, r);
    assert Current(db') == Install(Current(db), q.phase.w);
    assert q.phase.w.users.Keys == Held(db.hist, q);
  }

  lemma CommitKeepsInv(db: Db, r: nat)
    requires Inv(db) && Enabled(db, Commit(r))
    ensures Inv(CommitStep(db, r))
  {
    var q, db' := db.reqs[r], CommitStep(db, r);
    CommitIsGlobal(db, r);
    CommitRecordsResult(db, r);
    CommitRequests(db, r);
    GlobalKeeps(db, db', TransferOp(r, q), Held(db.hist, q), {r});
  }

  lemma CommitRequests(db: Db, r: nat)
    requires Inv(db) && Enabled(db, Commit(r))
    ensures RequestsAfter(db, CommitStep(db, r), TransferOp(r, db.reqs[r]), Held(db.hist, db.reqs[r]), {r})
  {
    CommitRecordsResult(db, r);
    forall r' | r' in db.reqs && r' != r
      ensures Held(db.hist, db.reqs[r']) !! Held(db.hist, db.reqs[r]) && OpApart(TransferOp(r, db.reqs[r]), db.reqs[r'])
    {
      CommitLeavesOthers(db, r, r');
    }
  }

  lemma HeldRowsExist(db: Db, r: nat)
    requires Inv(db) && r in db.reqs
    ensures Held(db.hist, db.reqs[r]) <= Current(db).users.Keys
  {
    assert ReqOK(db, r, db.reqs[r]);
  }

  lemma InsertUserKeepsInv(db: Db, e: Event)
    requires Inv(db) && e.InsertUser? && Enabled(db, e)
    ensures Inv(Apply(db, e))
  {
    var op, db' := RegisterOp(db, e), Apply(db, e);
    var one := {op.id};
    assert db'.ver == db.ver + (map id | id in one :: |db.hist|);
    forall r | r in db.reqs
      ensures Held(db.hist, db.reqs[r]) !! one
    {
      HeldRowsExist(db, r);
    }
    GlobalKeeps(db, db', op, one, {});
  }

  lemma AckKeepsInv(db: Db, e: Event)
    requires Inv(db) && e.Ack? && Enabled(db, e)
    ensures Inv(Apply(db, e))
  {
    var op, db' := Acked(e.user, e.note), Apply(db, e);
    var none: set<int> := {};
    GlobalKeeps(db, db', op, none, {});
  }

  lemma BurnKeepsInv(db: Db)
    requires Inv(db)
    ensures Inv(Apply(db, BurnUserId))
  {
    var db' := Apply(db, BurnUserId);
    assert HistoryOK(db') && VersionsOK(db') by {
      assert forall k :: 0 <= k < |db.log| ==> LinkOK(db', k) == LinkOK(db, k);
      assert forall id, k: nat :: id in db.ver && k < |db.hist| ==> SameRow(db', id, k) == SameRow(db, id, k);
    }
    assert forall r :: r in db.reqs ==> ReqOK(db', r, db'.reqs[r]) == ReqOK(db, r, db.reqs[r]);
    assert forall k :: 0 <= k < |db.log| ==> OnceAt(db', k) == OnceAt(db, k);
  }

  /** What a request never changes. */
  predicate SameParameters(q: Request, q': Request) {
    q'.sender == q.sender && q'.key == q.key && q'.amount == q.amount
  }

  // ---------------------------------------------------------------- every step, every run

  lemma StepKeepsInv(db: Db, e: Event)
    requires Inv(db) && Enabled(db, e)
    ensures Inv(Apply(db, e))
  {
    match e
    case Submit(_, _, _, _) => SubmitKeepsInv(db, e);
    case Resolve(r, pick) => ResolveKeepsInv(db, r, pick);
    case Lock(r) => LockKeepsInv(db, r);
    case Debit(r) => DebitKeepsInv(db, r);
    case InsertTransfer(r) => RecordKeepsInv(db, r);
    case InsertNotes(r) => NotifyKeepsInv(db, r);
    case Commit(r) => CommitKeepsInv(db, r);
    case Abort(r, jitter) => AbortKeepsInv(db, r, jitter);
    case Break(r) => FailKeepsInv(db, r, Internal);
    case InsertUser(_, _, _, _) => InsertUserKeepsInv(db, e);
    case BurnUserId => BurnKeepsInv(db);
    case Ack(_, _) => AckKeepsInv(db, e);
  }

  lemma {:induction false} RunKeepsInv(db: Db, es: seq<Event>)
    requires Inv(db) && Legal(db, es)
    ensures Inv(Exec(db, es))
    decreases |es|
  {
    if es != [] {
      StepKeepsInv(db, es[0]);
      RunKeepsInv(Apply(db, es[0]), es[1..]);
    }
  }

  /** The invariant holds after every run from the empty database. */
  lemma ReachableInv(es: seq<Event>)
    requires Legal(INITIAL_DB, es)
    ensures Inv(Exec(INITIAL_DB, es))
  {
    InitialInv();
    RunKeepsInv(INITIAL_DB, es);
  }
}
