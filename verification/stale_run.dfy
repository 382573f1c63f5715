/** Runs in which the hash and the user cache do lag behind the users table. */
module StaleRun {
  import opened Base
  import opened Decimal
  import opened Ledger
  import T = Transactions
  import TI = TransactionInvariants
  import G = Guarantees
  import opened System
  import opened SystemInvariants
  import P = Projection
  import S = Staleness
  import W = Witness

  // ---------------------------------------------------------------- reachable states

  ghost predicate Step(s: Sys, e: Event, s': Sys) {
    Enabled(s, e) && s' == Apply(s, e)
  }

  /** Some run ends in s. */
  ghost predicate Reachable(s: Sys) {
    exists ss, es :: EndsIn(ss, es, s)
  }

  ghost predicate EndsIn(ss: seq<Sys>, es: seq<Event>, s: Sys) {
    IsRun(ss, es) && ss[|es|] == s
  }

  lemma ReachStep(s: Sys, e: Event)
    requires Reachable(s) && Enabled(s, e)
    ensures Reachable(Apply(s, e))
  {
    var ss, es :| EndsIn(ss, es, s);
    var ss', es' := ss + [Apply(s, e)], es + [e];
    forall i | 0 <= i < |es'|
      ensures Follows(ss', es', i)
    {
      assert i < |es| ==> Follows(ss, es, i);
    }
    assert EndsIn(ss', es', Apply(s, e));
  }

  lemma ReachPublish(s: Sys, r: nat) returns (s': Sys)
    requires Reachable(s) && Posting(s, r, 3)
    ensures Reachable(s') && s' == PublishMsg(s, EventOf(s, r))
  {
    s' := PublishMsg(s, EventOf(s, r));
    assert s' == Apply(s, Publish(r));
    ReachStep(s, Publish(r));
  }

  lemma ReachableInv(s: Sys)
    requires Reachable(s)
    ensures Inv(s)
  {
    var ss, es :| EndsIn(ss, es, s);
    RunInv(ss, es, |es|);
  }

  /** Statements of the database are steps of the whole machine. */
  lemma {:induction false} ReachDb(s: Sys, ds: seq<T.Event>)
    requires Reachable(s) && T.Legal(s.db, ds) && forall d :: d in ds ==> !d.Submit? && !d.Ack?
    ensures Reachable(s.(db := T.Exec(s.db, ds)))
    decreases |ds|
  {
    if ds != [] {
      ReachStep(s, InDb(ds[0]));
      ReachDb(Apply(s, InDb(ds[0])), ds[1..]);
    } else {
      assert s.(db := s.db) == s;
    }
  }

  // ---------------------------------------------------------------- the older pipeline last

  /** The three commands of r's pipeline lead from s over s1 and s2 to s'. */
  ghost predicate PipelineVia(s: Sys, r: nat, s1: Sys, s2: Sys, s': Sys) {
    Step(s, DelPhones(r), s1) && Step(s1, HsetSender(r), s2) && Step(s2, HsetReceiver(r), s')
  }

  ghost predicate Pipelined(s: Sys, r: nat, s': Sys) {
    exists s1, s2 :: PipelineVia(s, r, s1, s2, s')
  }

  function AfterPipeline(s: Sys, r: nat): Sys
    requires Posting(s, r, 0)
  {
    var res := s.db.reqs[r].res;
    s.(hash := P.ApplyEvent(s.hash, EventOf(s, r)), posts := s.posts[r := 3],
       cache := s.cache - {PhoneKey(res.senderPhone), PhoneKey(res.receiverPhone)})
  }

  lemma HsetsOnly(s: Sys, r: nat)
    requires Posting(s, r, 1)
    ensures PostStep(PostStep(s, HsetSender(r)), HsetReceiver(r)) ==
            s.(hash := P.ApplyEvent(s.hash, EventOf(s, r)), posts := s.posts[r := 3])
  {
    var s1 := PostStep(s, HsetSender(r));
    assert s1 == s.(hash := s1.hash, posts := s.posts[r := 2]);
  }

  lemma AfterPipelineIs(s: Sys, r: nat, s1: Sys)
    requires Posting(s, r, 0) && s1 == PostStep(s, DelPhones(r))
    ensures PostEnabled(s1, HsetSender(r)) && PostEnabled(PostStep(s1, HsetSender(r)), HsetReceiver(r))
    ensures PostStep(PostStep(s1, HsetSender(r)), HsetReceiver(r)) == AfterPipeline(s, r)
  {
    HsetsOnly(s1, r);
  }

  /** A whole pipeline deletes the phone keys, keeps the username keys, and applies the
      transfer's event to the hash. */
  lemma PipelineRuns(s: Sys, r: nat)
    requires Posting(s, r, 0)
    ensures Pipelined(s, r, AfterPipeline(s, r))
  {
    var s1 := PostStep(s, DelPhones(r));
    AfterPipelineIs(s, r, s1);
    StepsOfPipeline(s, r, s1, PostStep(s1, HsetSender(r)), AfterPipeline(s, r));
  }

  lemma StepsOfPipeline(s: Sys, r: nat, s1: Sys, s2: Sys, s': Sys)
    requires PostEnabled(s, DelPhones(r)) && s1 == PostStep(s, DelPhones(r))
    requires PostEnabled(s1, HsetSender(r)) && s2 == PostStep(s1, HsetSender(r))
    requires PostEnabled(s2, HsetReceiver(r)) && s' == PostStep(s2, HsetReceiver(r))
    ensures Pipelined(s, r, s')
  {
    PostIsStep(s, DelPhones(r), s1);
    PostIsStep(s1, HsetSender(r), s2);
    PostIsStep(s2, HsetReceiver(r), s');
    ThreeSteps(s, r, s1, s2, s');
  }

  lemma ThreeSteps(s: Sys, r: nat, s1: Sys, s2: Sys, s': Sys)
    requires Step(s, DelPhones(r), s1) && Step(s1, HsetSender(r), s2) && Step(s2, HsetReceiver(r), s')
    ensures Pipelined(s, r, s')
  {
    assert PipelineVia(s, r, s1, s2, s');
  }

  lemma PostIsStep(s: Sys, e: Event, s': Sys)
    requires OfPost(e) && PostEnabled(s, e) && s' == PostStep(s, e)
    ensures Step(s, e, s')
  {
  }

  lemma BalanceIsStep(s: Sys, e: Event)
    requires OfBalance(e) && BalanceEnabled(s, e)
    ensures Step(s, e, BalanceStep(s, e))
  {
  }

  lemma LoginIsStep(s: Sys, e: Event)
    requires OfLogin(e) && LoginEnabled(s, e)
    ensures Step(s, e, LoginStep(s, e))
  {
  }

  lemma PipelineKeepsInv(s: Sys, r: nat, s': Sys)
    requires Inv(s) && Pipelined(s, r, s')
    ensures Inv(s')
  {
    var s1, s2 :| PipelineVia(s, r, s1, s2, s');
    StepKeepsInv(s, DelPhones(r));
    StepKeepsInv(s1, HsetSender(r));
    StepKeepsInv(s2, HsetReceiver(r));
  }

  lemma ReachPipeline(s: Sys, r: nat, s': Sys)
    requires Reachable(s) && Pipelined(s, r, s')
    ensures Reachable(s')
  {
    var s1, s2 :| PipelineVia(s, r, s1, s2, s');
    ReachStep(s, DelPhones(r));
    ReachStep(s1, HsetSender(r));
    ReachStep(s2, HsetReceiver(r));
  }

  predicate PartyOf(db: T.Db, r: nat, u: int)
    requires r in db.reqs
  {
    db.reqs[r].res.senderId == u || db.reqs[r].res.receiverId == u
  }

  lemma PipelineWrites(s: Sys, r: nat, u: int)
    requires Inv(s) && Posting(s, r, 0) && PartyOf(s.db, r, u)
    ensures
      var k, hash := s.db.reqs[r].phase.index + 1, P.ApplyEvent(s.hash, EventOf(s, r));
      && k < |s.db.hist| && u in s.db.hist[k].users
      && Itoa(u) in hash && hash[Itoa(u)] == Itoa(s.db.hist[k].users[u].balance)
  {
    RequestEventGenuine(s, r);
    var evt := EventOf(s, r);
    S.EventBalances(s.db, evt, s.db.reqs[r].phase.index + 1);
    if Itoa(evt.senderId) == Itoa(evt.receiverId) {
      ItoaInjective(evt.senderId, evt.receiverId);
    }
  }

  /** From any state the machine can be in: let a later transfer post first and an earlier
      one, r, last. Then the field of each party of r holds the balance as of r's commit,
      which differs from the users table exactly when the user's transfers committed after
      r do not net to zero. */
  lemma OlderPipelineLast(s: Sys, r: nat, later: nat, u: int) returns (mid: Sys, s': Sys)
    requires Inv(s) && Posting(s, r, 0) && Posting(s, later, 0) && PartyOf(s.db, r, u)
    requires s.db.reqs[r].phase.index < s.db.reqs[later].phase.index
    ensures Pipelined(s, later, mid) && Pipelined(mid, r, s') && s'.db == s.db
    ensures
      var k := s.db.reqs[r].phase.index + 1;
      && k < |s.db.hist| && u in s.db.hist[k].users && u in T.Current(s.db).users
      && Itoa(u) in s'.hash && s'.hash[Itoa(u)] == Itoa(s.db.hist[k].users[u].balance)
      && (s'.hash[Itoa(u)] != Itoa(T.Current(s.db).users[u].balance) <==> S.Net(S.After(s.db, k), u) != 0)
  {
    mid := AfterPipeline(s, later);
    PipelineRuns(s, later);
    s' := AfterPipeline(mid, r);
    PipelineRuns(mid, r);
    PipelineKeepsInv(s, later, mid);
    PipelineWrites(mid, r, u);
    FieldLags(s.db, s.db.reqs[r].phase.index + 1, u);
  }

  /** Printed balances of two committed states agree when no net amount moved in between. */
  lemma FieldLags(db: T.Db, k: nat, u: int)
    requires TI.Inv(db) && k < |db.hist| && u in db.hist[k].users
    ensures u in T.Current(db).users
    ensures Itoa(db.hist[k].users[u].balance) == Itoa(T.Current(db).users[u].balance) <==> S.Net(S.After(db, k), u) == 0
  {
    S.BalanceMovesByNet(db, k, u);
    var was, now := db.hist[k].users[u].balance, T.Current(db).users[u].balance;
    if Itoa(was) == Itoa(now) {
      ItoaInjective(was, now);
    }
  }

  // ---------------------------------------------------------------- one stale run

  lemma ReachBalance(s: Sys, e: Event) returns (s': Sys)
    requires Reachable(s) && OfBalance(e) && BalanceEnabled(s, e)
    ensures Reachable(s') && s' == BalanceStep(s, e)
  {
    BalanceIsStep(s, e);
    ReachStep(s, e);
    s' := BalanceStep(s, e);
  }

  lemma ReachLogin(s: Sys, e: Event) returns (s': Sys)
    requires Reachable(s) && OfLogin(e) && LoginEnabled(s, e)
    ensures Reachable(s') && s' == LoginStep(s, e)
  {
    LoginIsStep(s, e);
    ReachStep(s, e);
    s' := LoginStep(s, e);
  }

  /** Two registered users and nothing else. */
  lemma AfterRegistrations() returns (s: Sys)
    ensures Reachable(s) && W.TwoUsersOnly(s.db) && s == INITIAL.(db := s.db)
  {
    var db := W.TwoUsers();
    assert IsRun([INITIAL], []);
    assert EndsIn([INITIAL], [], INITIAL);
    ReachStep(INITIAL, InDb(W.FIRST));
    var s1 := Apply(INITIAL, InDb(W.FIRST));
    ReachStep(s1, InDb(W.OTHER));
    s := Apply(s1, InDb(W.OTHER));
  }

  const FIRST_ROW: User := User(1, "1", "000000000001", "a", "h", OPENING_BALANCE, false)

  /** User 1 has logged in, which cached the row under both keys. */
  lemma AfterLogin() returns (s: Sys)
    ensures Reachable(s) && W.TwoUsersOnly(s.db) && s.queries == map[] && s.posts == map[] && s.stream == []
    ensures SessionUser(s.sessions, "t") == Some(1)
    ensures s.hash == map[] && s.cache == map[PhoneKey("1") := FIRST_ROW, UsernameKey("a") := FIRST_ROW]
  {
    var s0 := AfterRegistrations();
    var s1 := ReachLogin(s0, LoginLookup(0, ByPhone("1"), "p"));
    var s2 := ReachLogin(s1, LoginQuery(0, Some(1)));
    var s3 := ReachLogin(s2, CachePhone(0, true, true));
    var s4 := ReachLogin(s3, CacheUsername(0, true));
    s := ReachLogin(s4, LoginVerify(0, true, "t", true));
    AtoiItoa(1);
  }

  /** A balance request of user 1 has read 100000 and not yet filled the hash. */
  lemma AboutToFill() returns (s: Sys)
    ensures Reachable(s) && W.TwoUsersOnly(s.db) && s.posts == map[] && SessionUser(s.sessions, "t") == Some(1)
    ensures s.queries == map[0 := Filling(1, OPENING_BALANCE)] && s.stream == []
    ensures s.cache == map[PhoneKey("1") := FIRST_ROW, UsernameKey("a") := FIRST_ROW]
  {
    var s0 := AfterLogin();
    var s1 := ReachBalance(s0, BalanceStart(0, "t"));
    var s2 := ReachBalance(s1, BalanceGet(0));
    s := ReachBalance(s2, BalanceQuery(0));
  }

  /** Meanwhile user 1 sends 5 to user 2. */
  lemma AfterTransfer() returns (s: Sys)
    ensures Reachable(s) && s.queries == map[0 := Filling(1, OPENING_BALANCE)] && Posting(s, 0, 0) && s.stream == []
    ensures s.cache == map[PhoneKey("1") := FIRST_ROW, UsernameKey("a") := FIRST_ROW]
    ensures s.posts == map[] && SessionUser(s.sessions, "t") == Some(1) && s.db.reqs.Keys == {0}
    ensures 1 in T.Current(s.db).users && T.Current(s.db).users[1].balance == OPENING_BALANCE - 5
    ensures 2 in T.Current(s.db).users
    ensures T.Current(s.db).users[2] == W.TWO_USERS.users[2].(balance := OPENING_BALANCE + 5)
    ensures s.db.reqs[0].res.senderPhone == "1" && s.db.reqs[0].res.senderId == 1
    ensures |s.db.hist| == 4 && |s.db.log| == 3 && s.db.log[2] == W.TRANSFER && s.db.reqs[0].phase == T.Committed(2)
  {
    var s0 := AboutToFill();
    W.FirstTransfer(s0.db);
    s := s0.(db := T.Exec(s0.db, G.AloneEvents(0, W.TRANSFER)));
    ReachTransfer(s0, "t", W.TRANSFER);
    ReachableInv(s);
    assert |s0.db.log| == 2 by {
      assert TI.HistoryOK(s0.db);
    }
    SenderPhone(s.db);
  }

  /** The pipeline of the transfer has run; the balance request is still pending. */
  lemma AfterPost() returns (s: Sys)
    ensures Reachable(s) && s.queries == map[0 := Filling(1, OPENING_BALANCE)]
    ensures 1 in T.Current(s.db).users && T.Current(s.db).users[1].balance == OPENING_BALANCE - 5
    ensures PhoneKey("1") !in s.cache && UsernameKey("a") in s.cache && s.cache[UsernameKey("a")] == FIRST_ROW
  {
    var s0 := AfterTransfer();
    PipelineRuns(s0, 0);
    s := AfterPipeline(s0, 0);
    ReachPipeline(s0, 0, s);
  }

  /** A transfer that nobody disturbs, under a session of its sender. */
  lemma ReachTransfer(s: Sys, sid: string, op: Op)
    requires Reachable(s) && op.Transferred? && T.Legal(s.db, G.AloneEvents(op.req, op))
    requires SessionUser(s.sessions, sid) == Some(op.sender)
    ensures Reachable(s.(db := T.Exec(s.db, G.AloneEvents(op.req, op))))
  {
    var es, start := G.AloneEvents(op.req, op), StartTransfer(op.req, sid, op.key, op.amount);
    G.LegalStep(s.db, es);
    ReachStep(s, start);
    var s1 := Apply(s, start);
    assert s1 == s.(db := T.Apply(s.db, es[0]));
    ReachDb(s1, es[1..]);
  }

  lemma SenderPhone(db: T.Db)
    requires TI.Inv(db) && 0 in db.reqs && db.reqs[0].phase == T.Committed(2) && |db.hist| == 4
    requires |db.log| == 3 && db.log[2] == W.TRANSFER && db.hist[2] == W.TWO_USERS
    ensures db.reqs[0].res.senderPhone == "1" && db.reqs[0].res.senderId == 1
  {
    assert TI.ReqOK(db, 0, db.reqs[0]);
    assert TI.LinkOK(db, 2);
  }

  /** A reachable state in which the hash says 100000 for user 1, and so does the record
      cached under the user's name, while the users table says 99995. */
  lemma HashAndCacheCanBeStale() returns (s: Sys)
    ensures Reachable(s) && 1 in T.Current(s.db).users && Itoa(1) in s.hash && UsernameKey("a") in s.cache
    ensures T.Current(s.db).users[1].balance == OPENING_BALANCE - 5
    ensures s.hash[Itoa(1)] == Itoa(OPENING_BALANCE) != Itoa(T.Current(s.db).users[1].balance)
    ensures s.cache[UsernameKey("a")].id == 1 && s.cache[UsernameKey("a")].balance == OPENING_BALANCE
    ensures PhoneKey("1") !in s.cache
  {
    var s0 := AfterPost();
    s := ReachBalance(s0, BalanceFill(0, true));
    if Itoa(OPENING_BALANCE) == Itoa(OPENING_BALANCE - 5) {
      ItoaInjective(OPENING_BALANCE, OPENING_BALANCE - 5);
    }
  }
}
