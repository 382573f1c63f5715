/** The balance projection: applying event after event to the Redis balance hash. */
module Projection {
  import opened Base
  import opened Decimal
  import opened Ledger
  import T = Transactions
  import TI = TransactionInvariants
  import opened System
  import opened SystemInvariants

  function ApplyEvent(hash: map<string, string>, evt: TransferCompleted): map<string, string> {
    Hset(Hset(hash, evt.senderId, evt.senderBalance), evt.receiverId, evt.receiverBalance)
  }

  /** All events fully applied, in order. */
  function Project(hash: map<string, string>, evts: seq<TransferCompleted>): map<string, string> {
    if evts == [] then hash else ApplyEvent(Project(hash, evts[..|evts| - 1]), evts[|evts| - 1])
  }

  // ---------------------------------------------------------------- last event wins

  function BalanceIn(evt: TransferCompleted, user: int): Option<int> {
    if evt.receiverId == user then Some(evt.receiverBalance)
    else if evt.senderId == user then Some(evt.senderBalance)
    else None
  }

  /** The balance in the last event that touches the user. */
  function LastBalance(evts: seq<TransferCompleted>, user: int): Option<int> {
    if evts == [] then None
    else
      var last := BalanceIn(evts[|evts| - 1], user);
      if last.Some? then last else LastBalance(evts[..|evts| - 1], user)
  }

  /** After any sequence of fully applied deliveries, in any order and with repeats, a
      touched field holds the last applied event's balance and every other field is as
      it was. */
  lemma {:induction false} LastEventWins(hash: map<string, string>, evts: seq<TransferCompleted>, user: int)
    ensures LastBalance(evts, user).Some? ==>
      Itoa(user) in Project(hash, evts) && Project(hash, evts)[Itoa(user)] == Itoa(LastBalance(evts, user).value)
    ensures LastBalance(evts, user).None? ==>
      (Itoa(user) in Project(hash, evts) <==> Itoa(user) in hash)
      && (Itoa(user) in hash ==> Project(hash, evts)[Itoa(user)] == hash[Itoa(user)])
  {
    if evts != [] {
      var evt := evts[|evts| - 1];
      LastEventWins(hash, evts[..|evts| - 1], user);
      if Itoa(user) == Itoa(evt.senderId) {
        ItoaInjective(user, evt.senderId);
      }
      if Itoa(user) == Itoa(evt.receiverId) {
        ItoaInjective(user, evt.receiverId);
      }
    }
  }

  ghost predicate FieldOf(f: string, user: int) { f == Itoa(user) }

  /** Fields that are no user's decimal id are never written. */
  lemma {:induction false} OtherFieldsStay(hash: map<string, string>, evts: seq<TransferCompleted>, f: string)
    requires forall user :: !FieldOf(f, user)
    ensures f in Project(hash, evts) <==> f in hash
    ensures f in hash ==> Project(hash, evts)[f] == hash[f]
  {
    if evts != [] {
      var evt := evts[|evts| - 1];
      OtherFieldsStay(hash, evts[..|evts| - 1], f);
      assert !FieldOf(f, evt.senderId) && !FieldOf(f, evt.receiverId);
    }
  }

  /** A second pass over the same events changes nothing. */
  lemma ReplayIdempotent(hash: map<string, string>, evts: seq<TransferCompleted>)
    ensures Project(Project(hash, evts), evts) == Project(hash, evts)
  {
    var once := Project(hash, evts);
    var twice := Project(once, evts);
    forall f: string
      ensures f in twice <==> f in once
      ensures f in once ==> twice[f] == once[f]
    {
      if user :| FieldOf(f, user) {
        LastEventWins(hash, evts, user);
        LastEventWins(once, evts, user);
      } else {
        OtherFieldsStay(once, evts, f);
      }
    }
  }

  // ---------------------------------------------------------------- the full stream

  /** The events of all transfers among the first n committed operations, in commit order. */
  function CommittedEvents(db: T.Db, n: nat): seq<TransferCompleted>
    requires |db.hist| == |db.log| + 1 && n <= |db.log|
  {
    if n == 0 then []
    else CommittedEvents(db, n - 1) + (if db.log[n - 1].Transferred? then [CommittedEventAt(db, n - 1)] else [])
  }

  lemma LastOfAppended(evts: seq<TransferCompleted>, evt: TransferCompleted, user: int)
    ensures LastBalance(evts + [evt], user) ==
            if BalanceIn(evt, user).Some? then BalanceIn(evt, user) else LastBalance(evts, user)
  {
    assert (evts + [evt])[..|evts + [evt]| - 1] == evts;
  }

  lemma BalanceMoves(t: Tables, op: Op, u: int)
    requires SerialApply(t, op).Some?
    ensures
      var t' := SerialApply(t, op).value;
      && (u in t.users ==> u in t'.users)
      && (u in t.users && !(op.Transferred? && (u == op.sender || u == op.receiver)) ==>
            t'.users[u].balance == t.users[u].balance)
      && (u !in t.users && u in t'.users ==> t'.users[u].balance == OPENING_BALANCE)
      && (op.Transferred? ==> op.sender in t.users && op.receiver in t.users && op.sender != op.receiver)
  {
  }

  /** The last event about a user carries the user's committed balance; a user without
      an event still has the opening balance. */
  lemma {:induction false} LastEventIsCurrent(db: T.Db, n: nat, user: int)
    requires TI.HistoryOK(db) && n <= |db.log|
    ensures LastBalance(CommittedEvents(db, n), user).Some? ==>
      user in db.hist[n].users && LastBalance(CommittedEvents(db, n), user).value == db.hist[n].users[user].balance
    ensures LastBalance(CommittedEvents(db, n), user).None? && user in db.hist[n].users ==>
      db.hist[n].users[user].balance == OPENING_BALANCE
  {
    if n > 0 {
      LastEventIsCurrent(db, n - 1, user);
      assert TI.LinkOK(db, n - 1);
      BalanceMoves(db.hist[n - 1], db.log[n - 1], user);
      var before := CommittedEvents(db, n - 1);
      if db.log[n - 1].Transferred? {
        LastOfAppended(before, CommittedEventAt(db, n - 1), user);
      } else {
        assert CommittedEvents(db, n) == before;
      }
    }
  }

  /** From any hash whatever, one in-order pass over all committed transfers leaves the
      committed balance of every user a transfer touched. */
  lemma ReplayRebuildsBalances(es: seq<T.Event>, hash: map<string, string>, user: int)
    requires T.Legal(T.INITIAL_DB, es)
    ensures
      var db := T.Exec(T.INITIAL_DB, es);
      && |db.hist| == |db.log| + 1
      && var evts := CommittedEvents(db, |db.log|);
      && (LastBalance(evts, user).Some? ==>
            && user in T.Current(db).users && Itoa(user) in Project(hash, evts)
            && Project(hash, evts)[Itoa(user)] == Itoa(T.Current(db).users[user].balance))
      && (LastBalance(evts, user).None? && user in T.Current(db).users ==>
            T.Current(db).users[user].balance == OPENING_BALANCE)
  {
    var db := T.Exec(T.INITIAL_DB, es);
    TI.ReachableInv(es);
    LastEventIsCurrent(db, |db.log|, user);
    LastEventWins(hash, CommittedEvents(db, |db.log|), user);
  }

  /** The events of the messages at the given positions. */
  function EventsAt(stream: seq<Message>, order: seq<nat>): seq<TransferCompleted>
    requires forall p :: 0 <= p < |order| ==> order[p] < |stream|
  {
    seq(|order|, p requires 0 <= p < |order| => stream[order[p]].evt)
  }

  // ---------------------------------------------------------------- partial deliveries

  /** Which of a delivery's two pipelined writes took effect. */
  datatype Mark = Mark(sender: bool, receiver: bool)

  function Delivery(hash: map<string, string>, evt: TransferCompleted, m: Mark): map<string, string> {
    var first := if m.sender then Hset(hash, evt.senderId, evt.senderBalance) else hash;
    if m.receiver then Hset(first, evt.receiverId, evt.receiverBalance) else first
  }

  function Deliveries(hash: map<string, string>, evts: seq<TransferCompleted>, marks: seq<Mark>): map<string, string>
    requires |marks| == |evts|
  {
    if evts == [] then hash
    else
      var n := |evts| - 1;
      Delivery(Deliveries(hash, evts[..n], marks[..n]), evts[n], marks[n])
  }

  /** The events of the deliveries whose writes both took effect. */
  function Applied(evts: seq<TransferCompleted>, marks: seq<Mark>): seq<TransferCompleted>
    requires |marks| == |evts|
  {
    if evts == [] then []
    else
      var n := |evts| - 1;
      Applied(evts[..n], marks[..n]) + (if marks[n] == Mark(true, true) then [evts[n]] else [])
  }

  /** When no pipeline is left half done, the hash is the projection of the applied events. */
  lemma {:induction false} WholeDeliveriesProject(
    hash: map<string, string>, evts: seq<TransferCompleted>, marks: seq<Mark>)
    requires |marks| == |evts| && forall i :: 0 <= i < |marks| ==> (marks[i].sender <==> marks[i].receiver)
    ensures Deliveries(hash, evts, marks) == Project(hash, Applied(evts, marks))
  {
    if evts != [] {
      var n := |evts| - 1;
      WholeDeliveriesProject(hash, evts[..n], marks[..n]);
      if marks[n].sender {
        ProjectAppend(hash, Applied(evts[..n], marks[..n]), evts[n]);
      } else {
        assert Applied(evts, marks) == Applied(evts[..n], marks[..n]);
      }
    }
  }

  lemma ProjectAppend(hash: map<string, string>, evts: seq<TransferCompleted>, evt: TransferCompleted)
    ensures Project(hash, evts + [evt]) == ApplyEvent(Project(hash, evts), evt)
  {
    assert (evts + [evt])[..|evts + [evt]| - 1] == evts;
  }

  lemma DeliveriesAppend(
    hash: map<string, string>, evts: seq<TransferCompleted>, marks: seq<Mark>, evt: TransferCompleted, m: Mark)
    requires |marks| == |evts|
    ensures Deliveries(hash, evts + [evt], marks + [m]) == Delivery(Deliveries(hash, evts, marks), evt, m)
  {
    assert (evts + [evt])[..|evts|] == evts && (marks + [m])[..|evts|] == marks;
  }
}
