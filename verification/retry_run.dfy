/** A caller who repeats a transfer request is charged again: deduplication of the event
    stream goes by transfer id, and the repetition is another transfer. */
module RetryRun {
  import opened Base
  import opened Decimal
  import opened Ledger
  import T = Transactions
  import TI = TransactionInvariants
  import G = Guarantees
  import opened System
  import opened SystemInvariants
  import W = Witness
  import SR = StaleRun

  // ---------------------------------------------------------------- in any state

  /** Two committed requests publish under different message ids. */
  lemma IdsDiffer(s: Sys, r: nat, other: nat)
    requires Inv(s) && r != other && r in s.db.reqs && other in s.db.reqs
    requires s.db.reqs[r].phase.Committed? && s.db.reqs[other].phase.Committed?
    ensures Itoa(EventOf(s, r).transferId) != Itoa(EventOf(s, other).transferId)
  {
    RequestEventGenuine(s, r);
    RequestEventGenuine(s, other);
    var j, k := s.db.reqs[r].phase.index, s.db.reqs[other].phase.index;
    assert TI.ReqOK(s.db, r, s.db.reqs[r]) && TI.ReqOK(s.db, other, s.db.reqs[other]);
    if j < k {
      G.TransferIdsDistinct(s.db, j, k);
    } else {
      G.TransferIdsDistinct(s.db, k, j);
    }
    if Itoa(EventOf(s, r).transferId) == Itoa(EventOf(s, other).transferId) {
      ItoaInjective(EventOf(s, r).transferId, EventOf(s, other).transferId);
    }
  }

  /** From any state: after the event of one request was published, the event of another is
      dropped if and only if a copy of that other event itself is inside the duplicate
      window, however alike the two requests are and however quickly they follow. */
  lemma RetryIsNotDeduplicated(s: Sys, r: nat, other: nat)
    requires Inv(s) && r != other && r in s.db.reqs && other in s.db.reqs
    requires s.db.reqs[r].phase.Committed? && s.db.reqs[other].phase.Committed?
    ensures
      var s', id := PublishMsg(s, EventOf(s, r)), Itoa(EventOf(s, other).transferId);
      PublishMsg(s', EventOf(s, other)) == s' <==> IsDuplicate(s, id)
  {
    IdsDiffer(s, r, other);
    var s' := PublishMsg(s, EventOf(s, r));
    OthersDoNotCount(s, EventOf(s, r), Itoa(EventOf(s, other).transferId));
    DroppedIffDuplicate(s', EventOf(s, other));
  }

  lemma OthersDoNotCount(s: Sys, evt: TransferCompleted, id: string)
    requires Itoa(evt.transferId) != id
    ensures IsDuplicate(PublishMsg(s, evt), id) <==> IsDuplicate(s, id)
  {
    if !IsDuplicate(s, Itoa(evt.transferId)) {
      var m := Message(Itoa(evt.transferId), evt, s.clock, [], false);
      OtherCopyDoesNotCount(s, s.(stream := s.stream + [m]), m, id);
    }
  }

  lemma OtherCopyDoesNotCount(s: Sys, s': Sys, m: Message, id: string)
    requires s' == s.(stream := s.stream + [m]) && m.msgId != id
    ensures IsDuplicate(s', id) <==> IsDuplicate(s, id)
  {
    if i :| 0 <= i < |s.stream| && CopyInWindow(s.stream[i], id, s.clock) {
      assert CopyInWindow(s'.stream[i], id, s'.clock);
    }
    if i :| 0 <= i < |s'.stream| && CopyInWindow(s'.stream[i], id, s'.clock) {
      assert s'.stream[i] == s.stream[i];
    }
  }

  lemma DroppedIffDuplicate(s: Sys, evt: TransferCompleted)
    ensures PublishMsg(s, evt) == s <==> IsDuplicate(s, Itoa(evt.transferId))
  {
    assert |PublishMsg(s, evt).stream| > |s.stream| <==> !IsDuplicate(s, Itoa(evt.transferId));
  }

  // ---------------------------------------------------------------- one run

  lemma NoLocksLeft(db: T.Db)
    requires TI.Inv(db) && forall r :: r in db.reqs ==> db.reqs[r].Finished()
    ensures db.locks == map[]
  {
    assert forall id :: id !in db.locks;
  }

  /** The request, repeated. */
  function Repeated(db: T.Db): Op {
    Op.Transferred(1, 1, ByPhone("2"), 5, 2, db.nextTransfer, db.nextNote)
  }

  lemma CanRepeat(db: T.Db)
    requires TI.Inv(db) && db.reqs.Keys == {0} && db.reqs[0].phase == T.Committed(2) && |db.log| == 3
    requires 1 in T.Current(db).users && T.Current(db).users[1].balance == OPENING_BALANCE - 5
    requires 2 in T.Current(db).users
    requires T.Current(db).users[2] == W.TWO_USERS.users[2].(balance := OPENING_BALANCE + 5)
    ensures T.Legal(db, G.AloneEvents(1, Repeated(db)))
    ensures G.Completes(db, T.Exec(db, G.AloneEvents(1, Repeated(db))), Repeated(db))
  {
    NoLocksLeft(db);
    assert CanTransfer(T.Current(db), Repeated(db));
    G.ReferenceIsRunningAlone(db, Repeated(db));
  }

  /** The first transfer is committed and its event stored; the answer got lost. */
  lemma FirstStored() returns (s: Sys)
    ensures SR.Reachable(s) && SessionUser(s.sessions, "t") == Some(1) && s.posts == map[0 := 3]
    ensures s.db.reqs.Keys == {0} && s.db.reqs[0].phase == T.Committed(2)
    ensures |s.db.hist| == 4 && |s.db.log| == 3 && s.db.log[2] == W.TRANSFER
    ensures 1 in T.Current(s.db).users && T.Current(s.db).users[1].balance == OPENING_BALANCE - 5
    ensures 2 in T.Current(s.db).users
    ensures T.Current(s.db).users[2] == W.TWO_USERS.users[2].(balance := OPENING_BALANCE + 5)
    ensures s.stream == [Message(Itoa(EventOf(s, 0).transferId), EventOf(s, 0), s.clock, [], false)]
  {
    var s0 := SR.AfterTransfer();
    SR.PipelineRuns(s0, 0);
    var s1 := SR.AfterPipeline(s0, 0);
    SR.ReachPipeline(s0, 0, s1);
    s := SR.ReachPublish(s1, 0);
    assert !IsDuplicate(s1, Itoa(EventOf(s1, 0).transferId));
  }

  /** The second one has committed too. */
  lemma SecondCommitted() returns (s: Sys)
    ensures SR.Reachable(s) && Posting(s, 1, 0) && 0 in s.db.reqs && s.db.reqs[0].phase == T.Committed(2)
    ensures |s.db.log| == 4 && s.db.log[2] == W.TRANSFER && s.db.log[3].Transferred?
    ensures s.db.log[3] == W.TRANSFER.(req := 1, transferId := s.db.log[3].transferId, noteId := s.db.log[3].noteId)
    ensures 1 in T.Current(s.db).users && T.Current(s.db).users[1].balance == OPENING_BALANCE - 10
    ensures |s.stream| == 1 && s.stream[0].evt == EventOf(s, 0) && s.stream[0].storedAt == s.clock
    ensures s.stream[0].msgId == Itoa(EventOf(s, 0).transferId)
  {
    var s0 := FirstStored();
    SR.ReachableInv(s0);
    CanRepeat(s0.db);
    SR.ReachTransfer(s0, "t", Repeated(s0.db));
    s := s0.(db := T.Exec(s0.db, G.AloneEvents(1, Repeated(s0.db))));
    SR.ReachableInv(s);
    SameEvent(s0, s);
  }

  /** What a request committed is read off the history, so its event stays the same. */
  lemma SameEvent(s: Sys, s': Sys)
    requires Inv(s) && Inv(s') && 0 in s.db.reqs && 0 in s'.db.reqs
    requires s.db.reqs[0].phase == T.Committed(2) && |s.db.hist| == 4 && |s.db.log| == 3
    requires Extends(s.db, s'.db) && s.db.log[2].Transferred? && s.db.log[2].req == 0
    ensures EventOf(s', 0) == EventOf(s, 0) && s'.db.reqs[0].phase == T.Committed(2)
  {
    assert s'.db.log[2] == s.db.log[2] && s'.db.hist[3] == s.db.hist[3];
    assert TI.OnceAt(s'.db, 2);
    RequestEventGenuine(s, 0);
    RequestEventGenuine(s', 0);
  }

  /** A reachable state in which one user was charged twice for the same request: both
      transfers are committed, and both events stored within one duplicate window. */
  lemma ChargedTwice() returns (s: Sys)
    ensures SR.Reachable(s) && |s.db.log| == 4 && s.db.log[2] == W.TRANSFER
    ensures s.db.log[3].Transferred? && s.db.log[3].transferId != s.db.log[2].transferId
    ensures s.db.log[3] == W.TRANSFER.(req := 1, transferId := s.db.log[3].transferId, noteId := s.db.log[3].noteId)
    ensures 1 in T.Current(s.db).users && T.Current(s.db).users[1].balance == OPENING_BALANCE - 10
    ensures |s.stream| == 2 && s.stream[0].storedAt == s.stream[1].storedAt
    ensures s.stream[0].evt.transferId == s.db.log[2].transferId && s.stream[1].evt.transferId == s.db.log[3].transferId
  {
    var s0 := SecondCommitted();
    SR.PipelineRuns(s0, 1);
    var s1 := SR.AfterPipeline(s0, 1);
    SR.ReachPipeline(s0, 1, s1);
    SR.ReachableInv(s1);
    IdsDiffer(s1, 1, 0);
    assert TI.OnceAt(s1.db, 2) && TI.OnceAt(s1.db, 3);
    RequestEventGenuine(s1, 0);
    RequestEventGenuine(s1, 1);
    s := SR.ReachPublish(s1, 1);
    StoredSecond(s1, EventOf(s1, 1));
  }

  lemma StoredSecond(s: Sys, evt: TransferCompleted)
    requires |s.stream| == 1 && s.stream[0].msgId != Itoa(evt.transferId)
    ensures PublishMsg(s, evt).stream ==
            s.stream + [Message(Itoa(evt.transferId), evt, s.clock, [], false)]
  {
  }
}
