/** Locks are taken in ascending row order, so waiting never forms a cycle and somebody
    can always move; and every schedule of a finite set of requests ends. */
module Liveness {
  import opened Base
  import opened Ledger
  import opened Transactions
  import opened TransactionInvariants

  // ---------------------------------------------------------------- waiting

  /** r has to lock a row that another request holds. */
  predicate Waits(db: Db, r: nat) {
    Awaited(db, r).Some? && Awaited(db, r).value in db.locks
  }

  function WaitsOn(db: Db, r: nat): nat
    requires Waits(db, r)
  {
    db.locks[Awaited(db, r).value]
  }

  /** A waiting request holds only rows below the one it waits for, and the holder of
      that row is another, unfinished request. */
  lemma WaitsUpward(db: Db, r: nat)
    requires Inv(db) && Waits(db, r)
    ensures forall id :: id in Held(db.hist, db.reqs[r]) ==> id < Awaited(db, r).value
    ensures WaitsOn(db, r) != r && Active(db, WaitsOn(db, r))
    ensures Awaited(db, r).value in Held(db.hist, db.reqs[WaitsOn(db, r)])
  {
    assert ReqOK(db, r, db.reqs[r]);
  }

  /** Following one edge of the waits-for graph strictly raises the awaited row. */
  lemma WaitChainRises(db: Db, r: nat)
    requires Inv(db) && Waits(db, r) && Waits(db, WaitsOn(db, r))
    ensures Awaited(db, r).value < Awaited(db, WaitsOn(db, r)).value
  {
    WaitsUpward(db, r);
    WaitsUpward(db, WaitsOn(db, r));
  }

  /** chain[i] waits for chain[i + 1]. */
  ghost predicate WaitChain(db: Db, chain: seq<nat>) {
    && |chain| > 0
    && forall i :: 0 <= i < |chain| - 1 ==> Waits(db, chain[i]) && WaitsOn(db, chain[i]) == chain[i + 1]
  }

  lemma {:induction false} ChainRises(db: Db, chain: seq<nat>)
    requires Inv(db) && WaitChain(db, chain) && |chain| >= 2 && Waits(db, chain[|chain| - 1])
    ensures Awaited(db, chain[0]).value < Awaited(db, chain[|chain| - 1]).value
    decreases |chain|
  {
    assert WaitsOn(db, chain[0]) == chain[1];
    WaitChainRises(db, chain[0]);
    if |chain| > 2 {
      ChainRises(db, chain[1..]);
    }
  }

  /** No reachable state has a cycle in its waits-for graph. */
  lemma NoDeadlock(es: seq<Event>, chain: seq<nat>)
    requires Legal(INITIAL_DB, es) && WaitChain(Exec(INITIAL_DB, es), chain) && |chain| >= 2
    ensures chain[0] != chain[|chain| - 1]
  {
    var db := Exec(INITIAL_DB, es);
    ReachableInv(es);
    if chain[0] == chain[|chain| - 1] {
      assert Waits(db, chain[0]);
      ChainRises(db, chain);
    }
  }

  // ---------------------------------------------------------------- progress

  /** A step the code takes of its own accord: not an injected failure, and 40001 only
      as the lock statement's answer when the free row it wants is newer than the snapshot. */
  predicate OwnStep(db: Db, e: Event) {
    && e.OfRequest() && Enabled(db, e) && !e.Break?
    && (e.Abort? ==>
          && Awaited(db, e.r).Some? && Awaited(db, e.r).value !in db.locks
          && !Unchanged(db.ver, db.reqs[e.r].phase.at, Awaited(db, e.r).value))
  }

  /** The step the code takes next when it is not waiting. */
  lemma NextStep(db: Db, r: nat) returns (e: Event)
    requires Inv(db) && Active(db, r) && !Waits(db, r)
    ensures OwnStep(db, e) && e.r == r
  {
    var q := db.reqs[r];
    assert ReqOK(db, r, q);
    match q.phase
    case Ready =>
      if id :| id in Current(db).users && Matches(Current(db).users[id], q.key) {
        e := Resolve(r, Some(id));
      } else {
        e := Resolve(r, None);
      }
    case Locking(at, _, held) =>
      if held == |LockOrder(db, r)| {
        e := Debit(r);
      } else if Unchanged(db.ver, at, Awaited(db, r).value) {
        e := Lock(r);
      } else {
        DelayPositive(q.attempt);
        e := Abort(r, 0);
      }
    case Debited(_, _, _, _) => e := InsertTransfer(r);
    case Recorded(_, _, _, _) => e := InsertNotes(r);
    case Notified(_, _, _, _) => e := Commit(r);
  }

  lemma DelayPositive(attempt: nat)
    ensures MaxDelay(attempt) > 0
  {
  }

  /** Follow the waits-for edges from r to a request that can step. */
  lemma {:induction false} FollowWaits(db: Db, r: nat) returns (h: nat)
    requires Inv(db) && Active(db, r)
    ensures Active(db, h) && !Waits(db, h)
    decreases if Waits(db, r) then db.nextUser - Awaited(db, r).value else -1
  {
    if !Waits(db, r) {
      h := r;
    } else {
      WaitsUpward(db, r);
      AwaitedBelowSequence(db, r);
      var next := WaitsOn(db, r);
      if Waits(db, next) {
        WaitChainRises(db, r);
        AwaitedBelowSequence(db, next);
      }
      h := FollowWaits(db, next);
    }
  }

  lemma AwaitedBelowSequence(db: Db, r: nat)
    requires Inv(db) && Awaited(db, r).Some?
    ensures Awaited(db, r).value < db.nextUser
  {
    var q := db.reqs[r];
    assert ReqOK(db, r, q);
    HistoryUsers(db, q.phase.at, |db.hist| - 1);
  }

  /** In every reachable state with an unfinished request, some unfinished request has a
      step of its own to take, without any injected failure. */
  lemma SomebodyCanStep(es: seq<Event>, r: nat) returns (e: Event)
    requires Legal(INITIAL_DB, es) && Active(Exec(INITIAL_DB, es), r)
    ensures OwnStep(Exec(INITIAL_DB, es), e)
  {
    var db := Exec(INITIAL_DB, es);
    ReachableInv(es);
    var h := FollowWaits(db, r);
    e := NextStep(db, h);
  }

  // ---------------------------------------------------------------- termination

  const STEPS_PER_ATTEMPT: nat := 7
  const STEPS_PER_REQUEST: nat := STEPS_PER_ATTEMPT * MAX_RETRIES

  /** Statements left in the current attempt. */
  function StepsLeft(p: Phase): nat {
    match p
    case Ready => 7
    case Locking(_, _, held) => if held == 0 then 6 else if held == 1 then 5 else 4
    case Debited(_, _, _, _) => 3
    case Recorded(_, _, _, _) => 2
    case Notified(_, _, _, _) => 1
    case _ => 0
  }

  function Weight(q: Request): nat {
    if q.Finished() || q.attempt >= MAX_RETRIES then 0
    else STEPS_PER_ATTEMPT * (MAX_RETRIES - 1 - q.attempt) + StepsLeft(q.phase)
  }

  ghost function Weights(db: Db): map<int, int> {
    map r: int | r in db.reqs :: Weight(db.reqs[r])
  }

  ghost function Measure(db: Db): int {
    Sum(Weights(db))
  }

  function CountRequestSteps(es: seq<Event>): nat {
    if es == [] then 0 else (if es[0].OfRequest() then 1 else 0) + CountRequestSteps(es[1..])
  }

  function CountSubmits(es: seq<Event>): nat {
    if es == [] then 0 else (if es[0].Submit? then 1 else 0) + CountSubmits(es[1..])
  }

  lemma WeightDrops(db: Db, e: Event)
    requires Inv(db) && Enabled(db, e) && e.OfRequest()
    ensures Weight(Apply(db, e).reqs[e.r]) < Weight(db.reqs[e.r])
    ensures Apply(db, e).reqs == db.reqs[e.r := Apply(db, e).reqs[e.r]]
  {
    assert ReqOK(db, e.r, db.reqs[e.r]);
    StatementDrops(db, e);
  }

  lemma StatementDrops(db: Db, e: Event)
    requires Enabled(db, e) && e.OfRequest() && SleepOK(db.reqs[e.r])
    ensures Weight(Apply(db, e).reqs[e.r]) < Weight(db.reqs[e.r])
    ensures Apply(db, e).reqs == db.reqs[e.r := Apply(db, e).reqs[e.r]]
  {
    match e
    case Resolve(r, pick) =>
      var p := ResolveStep(db, r, pick).reqs[r].phase;
      assert p.Failed? || p.Locking?;
    case Lock(r) => TargetsAtMostTwo(db, r);
    case Debit(r) =>
      TargetsAtMostTwo(db, r);
      DebitOutcome(db, r);
    case InsertTransfer(_) =>
    case InsertNotes(_) =>
    case Commit(_) =>
    case Abort(_, _) =>
    case Break(_) =>
  }

  lemma DebitOutcome(db: Db, r: nat)
    requires InLocking(db, r)
    ensures
      var q' := DebitStep(db, r).reqs[r];
      && DebitStep(db, r).reqs == db.reqs[r := q']
      && (q'.phase.Failed? || (q'.phase.Debited? && q'.attempt == db.reqs[r].attempt))
  {
  }

  lemma TargetsAtMostTwo(db: Db, r: nat)
    requires InLocking(db, r)
    ensures |LockOrder(db, r)| <= 2
  {
  }

  /** Every statement, abort or failure of a request lowers the measure; nothing but a
      new request raises it. */
  lemma MeasureStep(db: Db, e: Event)
    requires Inv(db) && Enabled(db, e)
    ensures e.OfRequest() ==> Measure(Apply(db, e)) < Measure(db)
    ensures e.Submit? ==> Measure(Apply(db, e)) == Measure(db) + STEPS_PER_REQUEST
    ensures !e.OfRequest() && !e.Submit? ==> Measure(Apply(db, e)) == Measure(db)
  {
    var db' := Apply(db, e);
    if e.OfRequest() || e.Submit? {
      if e.OfRequest() {
        WeightDrops(db, e);
      }
      SumUpdate(Weights(db), e.r, Weight(db'.reqs[e.r]));
      assert Weights(db') == Weights(db)[e.r := Weight(db'.reqs[e.r])];
    } else {
      assert Weights(db') == Weights(db);
    }
  }

  lemma {:induction false} RunBound(db: Db, es: seq<Event>)
    requires Inv(db) && Legal(db, es)
    ensures CountRequestSteps(es) + Measure(Exec(db, es)) <= Measure(db) + STEPS_PER_REQUEST * CountSubmits(es)
    decreases |es|
  {
    if es != [] {
      MeasureStep(db, es[0]);
      StepKeepsInv(db, es[0]);
      RunBound(Apply(db, es[0]), es[1..]);
    }
  }

  /** Every schedule terminates: n requests take at most 35 n steps together, whatever
      the interleaving, the conflicts and the failures. */
  lemma EveryScheduleTerminates(es: seq<Event>)
    requires Legal(INITIAL_DB, es)
    ensures CountRequestSteps(es) <= 35 * CountSubmits(es)
  {
    InitialInv();
    RunBound(INITIAL_DB, es);
    ReachableInv(es);
    var w := Weights(Exec(INITIAL_DB, es));
    assert forall j :: j in w ==> w[j] >= 0;
    SumNonNegative(w);
    assert Weights(INITIAL_DB) == map[];
  }

  /** A request makes at most five attempts and sleeps less than 30 ms in all. */
  lemma RetryBudget(es: seq<Event>, r: nat)
    requires Legal(INITIAL_DB, es) && r in Exec(INITIAL_DB, es).reqs
    ensures Exec(INITIAL_DB, es).reqs[r].attempt < 5
    ensures Exec(INITIAL_DB, es).reqs[r].slept < 30_000_000
  {
    var db := Exec(INITIAL_DB, es);
    ReachableInv(es);
    assert ReqOK(db, r, db.reqs[r]);
    ShiftMonotone(db.reqs[r].attempt);
  }

  /** When no step of its own is left to any request, every request has ended: with a
      commit or with exactly one error. */
  lemma MaximalScheduleEndsAll(es: seq<Event>, r: nat)
    requires Legal(INITIAL_DB, es) && r in Exec(INITIAL_DB, es).reqs
    requires forall e: Event :: !OwnStep(Exec(INITIAL_DB, es), e)
    ensures Exec(INITIAL_DB, es).reqs[r].Finished()
  {
    if !Exec(INITIAL_DB, es).reqs[r].Finished() {
      var e := SomebodyCanStep(es, r);
      assert false;
    }
  }
}
