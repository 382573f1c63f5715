/** What the transfer database guarantees over every interleaved run: serializability,
    an agreeing ledger, exactly-once commits and results that match the rows. */
module Guarantees {
  import opened Base
  import opened Decimal
  import opened Ledger
  import opened Transactions
  import opened TransactionInvariants

  // ---------------------------------------------------------------- serializability

  lemma {:induction false} SerialPrefix(db: Db, k: nat)
    requires HistoryOK(db) && k < |db.hist|
    ensures SerialRun(db.log[..k]) == Some(db.hist[k])
  {
    if k > 0 {
      SerialPrefix(db, k - 1);
      assert db.log[..k][..k - 1] == db.log[..k - 1];
      assert LinkOK(db, k - 1);
    }
  }

  /** Whatever the interleaving, the committed tables are those of running the committed
      operations alone, one after the other, in commit order. */
  lemma Serializable(es: seq<Event>)
    requires Legal(INITIAL_DB, es)
    ensures
      var db := Exec(INITIAL_DB, es);
      && |db.hist| == |db.log| + 1
      && SerialRun(db.log) == Some(Current(db))
      && forall k :: 0 <= k < |db.hist| ==> SerialRun(db.log[..k]) == Some(db.hist[k])
  {
    var db := Exec(INITIAL_DB, es);
    ReachableInv(es);
    forall k | 0 <= k < |db.hist|
      ensures SerialRun(db.log[..k]) == Some(db.hist[k])
    {
      SerialPrefix(db, k);
    }
    SerialPrefix(db, |db.log|);
    assert db.log[..|db.log|] == db.log;
  }

  /** One request with no other request in between. */
  function AloneEvents(r: nat, op: Op): seq<Event>
    requires op.Transferred?
  {
    [Submit(r, op.sender, op.key, op.amount), Resolve(r, Some(op.receiver)), Lock(r), Lock(r), Debit(r),
     InsertTransfer(r), InsertNotes(r), Commit(r)]
  }

  lemma {:induction false} LegalStep(db: Db, es: seq<Event>)
    requires es != []
    ensures Legal(db, es) <==> Enabled(db, es[0]) && Legal(Apply(db, es[0]), es[1..])
    ensures Legal(db, es) ==> Exec(db, es) == Exec(Apply(db, es[0]), es[1..])
  {
  }

  /** The request carries the operation's parameters, and the sequences its ids. */
  ghost predicate Carries(db: Db, op: Op)
    requires op.Transferred?
  {
    && op.req in db.reqs && db.hist != []
    && db.reqs[op.req].sender == op.sender && db.reqs[op.req].key == op.key && db.reqs[op.req].amount == op.amount
    && db.nextTransfer == op.transferId && db.nextNote == op.noteId
  }

  ghost predicate AloneIs(db: Db, op: Op, from: nat)
    requires op.Transferred? && from <= 8
  {
    var es := AloneEvents(op.req, op)[from..];
    && (Legal(db, es) <==> SerialApply(Current(db), op).Some?)
    && (Legal(db, es) ==> Completes(db, Exec(db, es), op))
  }

  /** From db to db' exactly op was committed, for the request it names. */
  ghost predicate Completes(db: Db, db': Db, op: Op)
    requires op.Transferred?
  {
    && SerialApply(Current(db), op).Some? && db'.hist == db.hist + [SerialApply(Current(db), op).value]
    && db'.log == db.log + [op]
    && op.req in db'.reqs && db'.reqs[op.req].phase == Committed(|db.log|)
    && db'.reqs.Keys == db.reqs.Keys + {op.req}
  }

  /** The reference operation is the transaction itself run alone: on an idle database
      the eight statements go through exactly when the reference allows the operation,
      and then they commit the request and add one state, exactly the reference's. */
  lemma ReferenceIsRunningAlone(db: Db, op: Op)
    requires Inv(db) && db.locks == map[] && op.Transferred? && op.req !in db.reqs && op.amount > 0
    requires op.transferId == db.nextTransfer && op.noteId == db.nextNote
    ensures Legal(db, AloneEvents(op.req, op)) <==> SerialApply(Current(db), op).Some?
    ensures Legal(db, AloneEvents(op.req, op)) ==> Completes(db, Exec(db, AloneEvents(op.req, op)), op)
  {
    var es := AloneEvents(op.req, op);
    SubmitKeepsInv(db, es[0]);
    LegalStep(db, es);
    AloneFromResolve(Apply(db, es[0]), op);
  }

  lemma AloneFromResolve(db: Db, op: Op)
    requires Inv(db) && op.Transferred? && op.amount > 0 && Carries(db, op)
    requires db.reqs[op.req].phase.Ready? && db.locks == map[]
    ensures AloneIs(db, op, 1)
  {
    var es, r := AloneEvents(op.req, op)[1..], op.req;
    LegalStep(db, es);
    if Enabled(db, es[0]) {
      var db' := Apply(db, es[0]);
      if op.sender == op.receiver {
        LegalStep(db', es[1..]);
      } else {
        ResolveKeepsInv(db, r, Some(op.receiver));
        AloneFromLocks(db', op);
        assert es[1..] == AloneEvents(r, op)[2..];
      }
    }
  }

  lemma AloneFromLocks(db: Db, op: Op)
    requires Inv(db) && op.Transferred? && op.amount > 0 && Carries(db, op)
    requires db.reqs[op.req].phase == Locking(|db.hist| - 1, op.receiver, 0) && db.locks == map[]
    ensures AloneIs(db, op, 2)
  {
    var es, r := AloneEvents(op.req, op)[2..], op.req;
    assert ReqOK(db, r, db.reqs[r]);
    if op.sender in Current(db).users {
      LegalStep(db, es);
      LockKeepsInv(db, r);
      AloneFromSecondLock(Apply(db, es[0]), op);
      assert es[1..] == AloneEvents(r, op)[3..];
    } else {
      AloneWithoutSender(db, op);
    }
  }

  lemma AloneFromSecondLock(db: Db, op: Op)
    requires Inv(db) && op.Transferred? && op.amount > 0 && Carries(db, op) && op.sender in Current(db).users
    requires db.reqs[op.req].phase == Locking(|db.hist| - 1, op.receiver, 1)
    requires |LockOrder(db, op.req)| == 2 && Enabled(db, Lock(op.req))
    ensures AloneIs(db, op, 3)
  {
    var es, r := AloneEvents(op.req, op)[3..], op.req;
    LegalStep(db, es);
    LockKeepsInv(db, r);
    AloneFromDebit(Apply(db, es[0]), op);
    assert es[1..] == AloneEvents(r, op)[4..];
  }

  /** Without a sender row only one row is locked, and there is no second one to lock. */
  lemma AloneWithoutSender(db: Db, op: Op)
    requires op.Transferred? && Carries(db, op) && op.sender !in Current(db).users
    requires db.reqs[op.req].phase == Locking(|db.hist| - 1, op.receiver, 0)
    ensures !Legal(db, AloneEvents(op.req, op)[2..])
  {
    var es, r := AloneEvents(op.req, op)[2..], op.req;
    LegalStep(db, es);
    if Enabled(db, es[0]) {
      var d1 := Apply(db, es[0]);
      assert |LockOrder(d1, r)| <= 1;
      LegalStep(d1, es[1..]);
    }
  }

  lemma AloneFromDebit(db: Db, op: Op)
    requires Inv(db) && op.Transferred? && op.amount > 0 && Carries(db, op)
    requires db.reqs[op.req].phase == Locking(|db.hist| - 1, op.receiver, 2)
    requires op.sender in Current(db).users && Enabled(db, Debit(op.req)) && |LockedRows(db, op.req)| == 2
    ensures AloneIs(db, op, 4)
  {
    DebitKeepsInv(db, op.req);
    var d1 := DebitStep(db, op.req);
    if d1.reqs[op.req].phase.Debited? {
      DebitSucceedsIff(db, op.req);
      AloneFromRecord(d1, op);
      AloneStep(db, d1, op, 4);
    } else {
      RefusedByReference(db, op);
      AloneStuck(db, d1, op, 4);
    }
  }

  /** What the debit refuses, the reference refuses. */
  lemma RefusedByReference(db: Db, op: Op)
    requires Inv(db) && op.Transferred? && op.req in db.reqs
    requires db.reqs[op.req].sender == op.sender && db.reqs[op.req].amount == op.amount
    requires Enabled(db, Debit(op.req)) && |LockedRows(db, op.req)| == 2
    requires db.reqs[op.req].phase.receiver == op.receiver && db.reqs[op.req].phase.at == |db.hist| - 1
    requires !DebitStep(db, op.req).reqs[op.req].phase.Debited?
    ensures SerialApply(Current(db), op).None?
  {
    DebitSucceedsIff(db, op.req);
  }

  /** A statement that leaves the committed history alone hands on what the rest does. */
  lemma AloneStep(db: Db, db': Db, op: Op, from: nat)
    requires op.Transferred? && from < 8
    requires Enabled(db, AloneEvents(op.req, op)[from]) && db' == Apply(db, AloneEvents(op.req, op)[from])
    requires db'.hist == db.hist && db'.log == db.log
    requires db'.reqs.Keys + {op.req} == db.reqs.Keys + {op.req}
    requires AloneIs(db', op, from + 1)
    ensures AloneIs(db, op, from)
  {
    var es := AloneEvents(op.req, op);
    LegalStep(db, es[from..]);
    assert es[from..][1..] == es[from + 1..];
  }

  lemma AloneStuck(db: Db, db': Db, op: Op, from: nat)
    requires op.Transferred? && from < 7
    requires Enabled(db, AloneEvents(op.req, op)[from]) && db' == Apply(db, AloneEvents(op.req, op)[from])
    requires !Enabled(db', AloneEvents(op.req, op)[from + 1]) && SerialApply(Current(db), op).None?
    ensures AloneIs(db, op, from)
  {
    var es := AloneEvents(op.req, op);
    LegalStep(db, es[from..]);
    LegalStep(db', es[from..][1..]);
  }

  /** With both rows locked the check and the update go through exactly when the sender
      row has the funds and the credit fits; missing funds are reported as such. */
  lemma DebitSucceedsIff(db: Db, r: nat)
    requires Inv(db) && Enabled(db, Debit(r)) && |LockedRows(db, r)| == 2
    ensures
      var q, q', users := db.reqs[r], DebitStep(db, r).reqs[r], Snapshot(db.hist, db.reqs[r].phase.at);
      && q.sender in users && q.phase.receiver in users && SameParameters(q, q') && q'.res == q.res
      && (q'.phase.Debited? <==>
            users[q.sender].balance >= q.amount && IsInt64(users[q.phase.receiver].balance + q.amount))
      && (q'.phase.Debited? ==>
            && q'.phase.s == users[q.sender] && q'.phase.rc == users[q.phase.receiver]
            && q'.phase.rc.id == q.phase.receiver)
      && (users[q.sender].balance < q.amount ==> q'.phase == Failed(InsufficientFunds))
  {
    var q := db.reqs[r];
    assert ReqOK(db, r, q);
    MapBackIsSenderReceiver(db, r);
    SnapshotRows(db, q.phase.at);
    CaseUpdateTwoRows(Snapshot(db.hist, q.phase.at), q.sender, q.phase.receiver, q.amount);
  }

  lemma AloneFromRecord(db: Db, op: Op)
    requires Inv(db) && op.Transferred? && Carries(db, op)
    requires db.reqs[op.req].phase.Debited? && db.reqs[op.req].phase.rc.id == op.receiver
    ensures AloneIs(db, op, 5) && SerialApply(Current(db), op).Some?
  {
    var d1 := RecordStep(db, op.req);
    RecordKeepsInv(db, op.req);
    AloneFromNotify(d1, op);
    AloneStep(db, d1, op, 5);
  }

  lemma AloneFromNotify(db: Db, op: Op)
    requires Inv(db) && op.Transferred? && op.req in db.reqs && db.reqs[op.req].phase.Recorded?
    requires db.reqs[op.req].sender == op.sender && db.reqs[op.req].key == op.key && db.reqs[op.req].amount == op.amount
    requires db.reqs[op.req].phase.rc.id == op.receiver && db.reqs[op.req].res.transferId == op.transferId
    requires db.nextNote == op.noteId
    ensures AloneIs(db, op, 6) && SerialApply(Current(db), op).Some?
  {
    assert ReqOK(db, op.req, db.reqs[op.req]);
    var d1 := NotifyStep(db, op.req);
    NotifyKeepsInv(db, op.req);
    AloneFromCommit(d1, op);
    AloneStep(db, d1, op, 6);
  }

  lemma AloneFromCommit(db: Db, op: Op)
    requires Inv(db) && op.Transferred? && Enabled(db, Commit(op.req))
    requires TransferOp(op.req, db.reqs[op.req]) == op
    ensures AloneIs(db, op, 7) && SerialApply(Current(db), op).Some?
  {
    var es := AloneEvents(op.req, op)[7..];
    CommittedOp(db, op.req);
    LegalStep(db, es);
    assert es[1..] == [];
  }

  // ---------------------------------------------------------------- the ledger, always

  /** In every committed state of every run each balance is the opening balance plus
      receipts minus payments, never negative; transfers are positive between distinct
      users; each has its two notifications; phones and account numbers are unique; and
      the balances add up to the opening balance times the number of users. */
  lemma LedgerAgrees(es: seq<Event>, k: nat)
    requires Legal(INITIAL_DB, es) && k < |Exec(INITIAL_DB, es).hist|
    ensures LedgerOK(Exec(INITIAL_DB, es).hist[k])
    ensures
      var t := Exec(INITIAL_DB, es).hist[k];
      && TotalBalance(t.users) == 100000 * |t.users|
      && forall u :: u in t.users ==>
           && t.users[u].balance == 100000 + Received(t.transfers, u) - Sent(t.transfers, u)
           && 0 <= t.users[u].balance && |t.users[u].accountNumber| == 12
  {
    ReachableInv(es);
    HistoryLedger(Exec(INITIAL_DB, es), k);
  }

  // ---------------------------------------------------------------- commits and results

  lemma {:induction false} TransfersOnlyGrow(db: Db, j: nat, k: nat)
    requires HistoryOK(db) && j <= k < |db.hist|
    ensures db.hist[j].transfers <= db.hist[k].transfers
    decreases k
  {
    if j < k {
      TransfersOnlyGrow(db, j, k - 1);
      assert LinkOK(db, k - 1);
    }
  }

  /** Different committed transfers carry different ids. */
  lemma TransferIdsDistinct(db: Db, j: nat, k: nat)
    requires HistoryOK(db) && j < k < |db.log| && db.log[j].Transferred? && db.log[k].Transferred?
    ensures db.log[j].transferId != db.log[k].transferId
  {
    assert LinkOK(db, j) && LinkOK(db, k);
    TransfersOnlyGrow(db, j + 1, k);
    var ts := db.hist[j + 1].transfers;
    assert db.hist[k].transfers[|ts| - 1] == ts[|ts| - 1];
  }

  ghost predicate CommitsAt(db: Db, r: nat, k: int) {
    0 <= k < |db.log| && db.log[k].Transferred? && db.log[k].req == r
  }

  /** A request reported as committed committed exactly once; any other, never. */
  lemma CommittedExactlyOnce(es: seq<Event>, r: nat)
    requires Legal(INITIAL_DB, es)
    ensures
      var db := Exec(INITIAL_DB, es);
      && ((exists k :: CommitsAt(db, r, k)) <==> r in db.reqs && db.reqs[r].phase.Committed?)
      && (forall j, k :: CommitsAt(db, r, j) && CommitsAt(db, r, k) ==> j == k)
  {
    var db := Exec(INITIAL_DB, es);
    ReachableInv(es);
    CommitsOnce(db, r);
  }

  lemma CommitsOnce(db: Db, r: nat)
    requires Inv(db)
    ensures (exists k :: CommitsAt(db, r, k)) <==> r in db.reqs && db.reqs[r].phase.Committed?
    ensures forall j, k :: CommitsAt(db, r, j) && CommitsAt(db, r, k) ==> j == k
    ensures forall k :: CommitsAt(db, r, k) ==> r in db.reqs && db.reqs[r].phase == Committed(k)
    ensures r in db.reqs && db.reqs[r].phase.Committed? ==> CommitsAt(db, r, db.reqs[r].phase.index)
  {
    forall k | CommitsAt(db, r, k)
      ensures r in db.reqs && db.reqs[r].phase == Committed(k)
    {
      assert OnceAt(db, k);
    }
    if r in db.reqs && db.reqs[r].phase.Committed? {
      assert ReqOK(db, r, db.reqs[r]);
      assert CommitsAt(db, r, db.reqs[r].phase.index);
    }
  }

  /** Exactly the sender's and the receiver's rows differ between the two states. */
  ghost predicate OnlyTwoRowsMoved(before: Tables, after: Tables, a: int, b: int, amount: int) {
    && a != b && a in before.users && b in before.users && a in after.users && b in after.users
    && after.users == before.users[a := after.users[a]][b := after.users[b]]
    && after.users[a] == before.users[a].(balance := before.users[a].balance - amount)
    && after.users[b] == before.users[b].(balance := before.users[b].balance + amount)
  }

  /** The captured result of a committed request comes from the attempt that committed,
      whatever earlier attempts wrote into the same variable: its balances and phones
      are the committed rows, and nothing else about the users moved. */
  lemma ResultMatchesRows(es: seq<Event>, r: nat)
    requires Legal(INITIAL_DB, es)
    requires r in Exec(INITIAL_DB, es).reqs && Exec(INITIAL_DB, es).reqs[r].phase.Committed?
    ensures
      var db := Exec(INITIAL_DB, es);
      var q, k := db.reqs[r], db.reqs[r].phase.index;
      && k + 1 < |db.hist|
      && q.res.senderId == q.sender
      && OnlyTwoRowsMoved(db.hist[k], db.hist[k + 1], q.sender, q.res.receiverId, q.amount)
      && q.res.senderBalance == db.hist[k + 1].users[q.sender].balance
      && q.res.receiverBalance == db.hist[k + 1].users[q.res.receiverId].balance
      && q.res.senderPhone == db.hist[k].users[q.sender].phone
      && q.res.receiverPhone == db.hist[k].users[q.res.receiverId].phone
      && Matches(db.hist[k].users[q.res.receiverId], q.key)
      && db.hist[k + 1].transfers ==
           db.hist[k].transfers + [Transfer(q.res.transferId, q.sender, q.res.receiverId, q.amount)]
  {
    var db := Exec(INITIAL_DB, es);
    ReachableInv(es);
    var q, k := db.reqs[r], db.reqs[r].phase.index;
    assert ReqOK(db, r, q);
    assert LinkOK(db, k);
    var a, b := db.hist[k].users, db.hist[k + 1].users;
    assert b == a[q.sender := b[q.sender]][q.res.receiverId := b[q.res.receiverId]];
  }

  /** While the opening balances of all users fit in a BIGINT, the update and the Go
      arithmetic never overflow: with both rows locked, the update succeeds exactly when
      the funds are there, and the wrapped results are the true ones. */
  lemma NoOverflow(es: seq<Event>, r: nat)
    requires Legal(INITIAL_DB, es) && Enabled(Exec(INITIAL_DB, es), Debit(r))
    requires 100000 * |Current(Exec(INITIAL_DB, es)).users| <= MAX_INT64
    requires |LockedRows(Exec(INITIAL_DB, es), r)| == 2
    ensures
      var db := Exec(INITIAL_DB, es);
      var q := db.reqs[r];
      var (s, rc) := MapBack(LockedRows(db, r), q.sender);
      && (DebitStep(db, r).reqs[r].phase.Debited? <==> s.balance >= q.amount)
      && (s.balance < q.amount ==> DebitStep(db, r).reqs[r].phase == Failed(InsufficientFunds))
      && (s.balance >= q.amount ==>
            && Wrap64(s.balance - q.amount) == s.balance - q.amount
            && Wrap64(rc.balance + q.amount) == rc.balance + q.amount)
  {
    ReachableInv(es);
    DebitNeverOverflows(Exec(INITIAL_DB, es), r);
  }

  lemma DebitNeverOverflows(db: Db, r: nat)
    requires Inv(db) && Enabled(db, Debit(r)) && |LockedRows(db, r)| == 2
    requires OPENING_BALANCE * |Current(db).users| <= MAX_INT64
    ensures
      var q := db.reqs[r];
      var (s, rc) := MapBack(LockedRows(db, r), q.sender);
      && (DebitStep(db, r).reqs[r].phase.Debited? <==> s.balance >= q.amount)
      && (s.balance < q.amount ==> DebitStep(db, r).reqs[r].phase == Failed(InsufficientFunds))
      && (s.balance >= q.amount ==>
            && Wrap64(s.balance - q.amount) == s.balance - q.amount
            && Wrap64(rc.balance + q.amount) == rc.balance + q.amount)
  {
    var q := db.reqs[r];
    DebitSucceedsIff(db, r);
    MapBackIsSenderReceiver(db, r);
    LockedPairFits(db, r);
    var (s, rc) := MapBack(LockedRows(db, r), q.sender);
    if s.balance >= q.amount {
      Wrap64Identity(s.balance - q.amount);
      Wrap64Identity(rc.balance + q.amount);
    }
  }

  lemma LockedPairFits(db: Db, r: nat)
    requires Inv(db) && Enabled(db, Debit(r)) && |LockedRows(db, r)| == 2
    requires OPENING_BALANCE * |Current(db).users| <= MAX_INT64
    ensures
      var q, (s, rc) := db.reqs[r], MapBack(LockedRows(db, r), db.reqs[r].sender);
      && q.phase.at < |db.hist| && q.amount > 0 && q.sender != q.phase.receiver
      && 0 <= s.balance && 0 <= rc.balance && s.balance + rc.balance <= MAX_INT64
  {
    var q := db.reqs[r];
    assert ReqOK(db, r, q);
    MapBackIsSenderReceiver(db, r);
    HistoryLedger(db, q.phase.at);
    TwoBalancesBelowTotal(db.hist[q.phase.at], q.sender, q.phase.receiver);
    UserCountGrows(db, q.phase.at);
  }

  lemma UserCountGrows(db: Db, k: nat)
    requires HistoryOK(db) && k < |db.hist|
    ensures |db.hist[k].users| <= |Current(db).users|
  {
    HistoryUsers(db, k, |db.hist| - 1);
    assert forall id :: id in db.hist[k].users.Keys ==> id in Current(db).users.Keys;
    SubsetSize(db.hist[k].users.Keys, Current(db).users.Keys);
  }

  lemma {:induction false} SubsetSize(a: set<int>, b: set<int>)
    requires a <= b
    ensures |a| <= |b|
    decreases a
  {
    if exists x :: x in a {
      var x :| x in a;
      SubsetSize(a - {x}, b - {x});
    }
  }
}
