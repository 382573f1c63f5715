/** Every error a transfer request ends with is the truth about the tables at the moment
    the request ended. */
module Outcomes {
  import opened Base
  import opened Decimal
  import opened Ledger
  import opened Transactions
  import opened TransactionInvariants
  import G = Guarantees
  import L = Liveness

  /** The sender and receiver rows are locked, and the sender's lacks the funds. */
  ghost predicate FundsMissing(db: Db, r: nat)
    requires r in db.reqs
  {
    var q, users := db.reqs[r], Current(db).users;
    && InLocking(db, r) && |LockedRows(db, r)| == 2
    && q.sender in users && users[q.sender].balance < q.amount
  }

  /** A row is gone, or the credit leaves the range of BIGINT. */
  ghost predicate DebitImpossible(db: Db, r: nat)
    requires r in db.reqs
  {
    var q, users := db.reqs[r], Current(db).users;
    InLocking(db, r) && (|LockedRows(db, r)| != 2 ||
      (q.sender in users && users[q.sender].balance >= q.amount
       && q.phase.receiver in users && !IsInt64(users[q.phase.receiver].balance + q.amount)))
  }

  /** What error says about the tables current when step e ends its request. */
  ghost predicate Reason(db: Db, e: Event, error: Error)
    requires e.OfRequest() && e.r in db.reqs
  {
    var q, users := db.reqs[e.r], Current(db).users;
    match error
    case ReceiverNotFound => e == Resolve(e.r, None) && forall id :: id in users ==> !Matches(users[id], q.key)
    case SelfTransfer => e == Resolve(e.r, Some(q.sender)) && q.sender in users && Matches(users[q.sender], q.key)
    case InsufficientFunds => e.Debit? && FundsMissing(db, e.r)
    case SerializationFailure => e.Abort? && q.attempt == MAX_RETRIES - 1
    case Internal => e.Break? || (e.Debit? && DebitImpossible(db, e.r))
  }

  /** A step ends its request with an error if and only if the error's reason holds. */
  lemma FailsForReason(db: Db, e: Event, error: Error)
    requires Inv(db) && Enabled(db, e) && e.OfRequest()
    ensures e.r in db.reqs && e.r in Apply(db, e).reqs
    ensures Apply(db, e).reqs[e.r].phase == Failed(error) <==> Reason(db, e, error)
  {
    match e
    case Debit(r) => DebitFailsForReason(db, r, error);
    case Resolve(r, pick) => ResolveFailsForReason(db, r, pick, error);
    case Lock(_) =>
    case InsertTransfer(_) =>
    case InsertNotes(_) =>
    case Commit(_) =>
    case Abort(r, jitter) => AbortFailsForReason(db, r, jitter, error);
    case Break(_) =>
  }

  lemma ResolveFailsForReason(db: Db, r: nat, pick: Option<int>, error: Error)
    requires Enabled(db, Resolve(r, pick))
    ensures ResolveStep(db, r, pick).reqs[r].phase == Failed(error) <==> Reason(db, Resolve(r, pick), error)
  {
  }

  lemma AbortFailsForReason(db: Db, r: nat, jitter: nat, error: Error)
    requires Inv(db) && Enabled(db, Abort(r, jitter))
    ensures AbortStep(db, r, jitter).reqs[r].phase == Failed(error) <==> Reason(db, Abort(r, jitter), error)
  {
    assert ReqOK(db, r, db.reqs[r]);
  }

  lemma DebitFailsForReason(db: Db, r: nat, error: Error)
    requires Inv(db) && Enabled(db, Debit(r))
    ensures DebitStep(db, r).reqs[r].phase == Failed(error) <==> Reason(db, Debit(r), error)
  {
    if |LockedRows(db, r)| == 2 {
      MapBackIsSenderReceiver(db, r);
      G.DebitSucceedsIff(db, r);
    }
  }

  // ---------------------------------------------------------------- over whole runs

  lemma FinishedStays(db: Db, e: Event, r: nat)
    requires Inv(db) && Enabled(db, e) && r in db.reqs && db.reqs[r].Finished()
    ensures r in Apply(db, e).reqs && Apply(db, e).reqs[r] == db.reqs[r]
  {
    if e.OfRequest() {
      L.WeightDrops(db, e);
    }
  }

  lemma {:induction false} FinishedForGood(db: Db, es: seq<Event>, r: nat)
    requires Inv(db) && Legal(db, es) && r in db.reqs && db.reqs[r].Finished()
    ensures r in Exec(db, es).reqs && Exec(db, es).reqs[r] == db.reqs[r]
    decreases |es|
  {
    if es != [] {
      FinishedStays(db, es[0], r);
      StepKeepsInv(db, es[0]);
      FinishedForGood(Apply(db, es[0]), es[1..], r);
    }
  }

  lemma OnlyOwnStepsFail(db: Db, e: Event, r: nat)
    requires Inv(db) && Enabled(db, e) && r in Apply(db, e).reqs && Apply(db, e).reqs[r].phase.Failed?
    requires !(r in db.reqs && db.reqs[r].phase.Failed?)
    ensures e.OfRequest() && e.r == r && Active(db, r)
  {
    if e.OfRequest() {
      L.WeightDrops(db, e);
    }
  }

  /** The step that ended a failed request. */
  lemma {:induction false} EndingStep(db: Db, es: seq<Event>, r: nat) returns (j: nat)
    requires Inv(db) && Legal(db, es) && !(r in db.reqs && db.reqs[r].phase.Failed?)
    requires r in Exec(db, es).reqs && Exec(db, es).reqs[r].phase.Failed?
    ensures j < |es| && Legal(db, es[..j])
    ensures
      var was, e := Exec(db, es[..j]), es[j];
      && Inv(was) && Enabled(was, e) && e.OfRequest() && e.r == r && Active(was, r)
      && r in Apply(was, e).reqs && Apply(was, e).reqs[r] == Exec(db, es).reqs[r]
    decreases |es|
  {
    var next := Apply(db, es[0]);
    StepKeepsInv(db, es[0]);
    if r in next.reqs && next.reqs[r].phase.Failed? {
      j := 0;
      OnlyOwnStepsFail(db, es[0], r);
      FinishedForGood(next, es[1..], r);
    } else {
      j := EndingStep(next, es[1..], r);
      j := j + 1;
      assert es[..j][1..] == es[1..][..j - 1];
    }
  }

  /** In every run, a failed request was ended by one step of its own, and the error it
      reports was true of the tables current at that very step: no row matched the
      identifier, it matched the sender's own row, the locked sender row lacked the funds,
      or 40001 had met the last of the five attempts. */
  lemma ErrorsAreTruthful(es: seq<Event>, r: nat) returns (j: nat)
    requires Legal(INITIAL_DB, es) && r in Exec(INITIAL_DB, es).reqs && Exec(INITIAL_DB, es).reqs[r].phase.Failed?
    ensures j < |es| && Legal(INITIAL_DB, es[..j])
    ensures
      var was, e, q := Exec(INITIAL_DB, es[..j]), es[j], Exec(INITIAL_DB, es).reqs[r];
      && Enabled(was, e) && e.OfRequest() && e.r == r && Active(was, r) && SameParameters(was.reqs[r], q)
      && Reason(was, e, q.phase.error)
  {
    InitialInv();
    j := EndingStep(INITIAL_DB, es, r);
    var was := Exec(INITIAL_DB, es[..j]);
    FailsForReason(was, es[j], Exec(INITIAL_DB, es).reqs[r].phase.error);
    KeepsParameters(was, es[j]);
  }

  lemma KeepsParameters(db: Db, e: Event)
    requires Enabled(db, e) && e.OfRequest()
    ensures e.r in db.reqs && e.r in Apply(db, e).reqs && SameParameters(db.reqs[e.r], Apply(db, e).reqs[e.r])
  {
  }
}
