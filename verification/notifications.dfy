/** Acknowledging notifications: an owner-guarded update in place. */
module Notifications {
  import opened Base
  import opened Decimal
  import opened Ledger
  import opened Transactions
  import opened TransactionInvariants

  ghost predicate AckedBetween(db: Db, from: nat, to: nat, n: Notification) {
    exists m :: from <= m < to && m < |db.log| && db.log[m] == Acked(n.userId, n.id)
  }

  /** From one committed state to a later one a notification keeps everything but its
      read mark, and it is read later exactly when it was read before or its own owner
      acknowledged it in between. */
  lemma {:induction false} ReadOnlyByOwner(db: Db, j: nat, k: nat, i: nat)
    requires HistoryOK(db) && j <= k < |db.hist| && i < |db.hist[j].notes|
    ensures i < |db.hist[k].notes|
    ensures db.hist[k].notes[i] == db.hist[j].notes[i].(isRead := db.hist[k].notes[i].isRead)
    ensures db.hist[k].notes[i].isRead <==>
            db.hist[j].notes[i].isRead || AckedBetween(db, j, k, db.hist[j].notes[i])
    decreases k
  {
    if j < k {
      ReadOnlyByOwner(db, j, k - 1, i);
      assert LinkOK(db, k - 1);
      var n, op := db.hist[j].notes[i], db.log[k - 1];
      assert op.Registered? ==> db.hist[k].notes == db.hist[k - 1].notes;
      assert op == Acked(n.userId, n.id) ==> AckedBetween(db, j, k, n);
      if m :| j <= m < k && m < |db.log| && db.log[m] == Acked(n.userId, n.id) {
        assert m < k - 1 ==> AckedBetween(db, j, k - 1, n);
      }
    }
  }

  /** In every run: a notification of a committed transfer is unread when it is written,
      belongs to that transfer's sender (first) or receiver (second), and names the amount
      and the other party. */
  lemma TransferWritesTwoNotes(es: seq<Event>, k: nat)
    requires Legal(INITIAL_DB, es) && k < |Exec(INITIAL_DB, es).log| && Exec(INITIAL_DB, es).log[k].Transferred?
    ensures
      var db := Exec(INITIAL_DB, es);
      |db.hist| == |db.log| + 1 &&
      var op, was, now := db.log[k], db.hist[k].notes, db.hist[k + 1].notes;
      && |now| == |was| + 2 && now[..|was|] == was
      && now[|was|].userId == op.sender && now[|was| + 1].userId == op.receiver
      && !now[|was|].isRead && !now[|was| + 1].isRead
      && op.sender in db.hist[k].users && op.receiver in db.hist[k].users
      && now[|was|].message == "You sent " + Itoa(op.amount) + " to " + db.hist[k].users[op.receiver].username
      && now[|was| + 1].message == "You received " + Itoa(op.amount) + " from " + db.hist[k].users[op.sender].username
  {
    var db := Exec(INITIAL_DB, es);
    ReachableInv(es);
    assert LinkOK(db, k);
    SnapshotRows(db, k);
  }
}
