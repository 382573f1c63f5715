/** What the caches, the stream and the handlers in flight always agree on with the
    committed tables, over every interleaving. */
module SystemInvariants {
  import opened Base
  import opened Decimal
  import opened Ledger
  import T = Transactions
  import TI = TransactionInvariants
  import opened System

  // ---------------------------------------------------------------- real values

  /** v was the balance of u in some committed state. */
  ghost predicate Had(db: T.Db, u: int, v: int) {
    exists k :: HadAt(db, u, v, k)
  }

  ghost predicate HadAt(db: T.Db, u: int, v: int, k: int) {
    0 <= k < |db.hist| && u in db.hist[k].users && db.hist[k].users[u].balance == v
  }

  ghost predicate EntryReal(db: T.Db, field: string, value: string) {
    exists u, v :: IsEntry(field, value, u, v) && Had(db, u, v)
  }

  predicate IsEntry(field: string, value: string, u: int, v: int) {
    field == Itoa(u) && value == Itoa(v)
  }

  /** Every field of the balance hash holds a balance its user really had. */
  ghost predicate HashOK(s: Sys) {
    forall f {:trigger EntryReal(s.db, f, s.hash[f])} :: f in s.hash ==> EntryReal(s.db, f, s.hash[f])
  }

  /** The event of the k-th committed operation, read off the state it produced. */
  function CommittedEventAt(db: T.Db, k: nat): TransferCompleted
    requires k < |db.log| && k + 1 < |db.hist| && db.log[k].Transferred?
  {
    var op, users := db.log[k], db.hist[k + 1].users;
    TransferCompleted(op.transferId, op.amount,
      op.sender, if op.sender in users then users[op.sender].balance else 0,
      op.receiver, if op.receiver in users then users[op.receiver].balance else 0)
  }

  ghost predicate CommittedEvent(db: T.Db, evt: TransferCompleted, k: int) {
    && 0 <= k < |db.log| && k + 1 < |db.hist| && db.log[k].Transferred?
    && db.log[k].sender in db.hist[k + 1].users && db.log[k].receiver in db.hist[k + 1].users
    && evt == CommittedEventAt(db, k)
  }

  ghost predicate GenuineEvent(db: T.Db, evt: TransferCompleted) {
    exists k :: CommittedEvent(db, evt, k)
  }

  /** One delivery wrote both balances. */
  ghost predicate Confirmed(m: Message) {
    exists d :: 0 <= d < |m.attempts| && m.attempts[d] == BOTH_LANDED
  }

  ghost predicate MessageOK(db: T.Db, clock: nat, m: Message) {
    && GenuineEvent(db, m.evt) && m.msgId == Itoa(m.evt.transferId) && m.storedAt <= clock
    && |m.attempts| <= MAX_DELIVER && (m.acked ==> Confirmed(m))
  }

  /** Two stored copies of one message id lie at least a duplicate window apart. */
  predicate WindowApart(a: Message, b: Message) {
    a.msgId == b.msgId ==> a.storedAt + DUPLICATE_WINDOW <= b.storedAt
  }

  ghost predicate StreamOK(s: Sys) {
    && (forall i {:trigger MessageOK(s.db, s.clock, s.stream[i])} :: 0 <= i < |s.stream| ==>
          MessageOK(s.db, s.clock, s.stream[i]))
    && (forall i, j {:trigger WindowApart(s.stream[i], s.stream[j])} :: 0 <= i < j < |s.stream| ==>
          WindowApart(s.stream[i], s.stream[j]))
  }

  /** A user record that answers to key: in everything but the balance it is the row of
      today, and the balance is one the user had. */
  ghost predicate EntryOK(db: T.Db, key: Key, u: User) {
    var users := T.Current(db).users;
    u.id in users && SameIdentity(u, users[u.id]) && Matches(u, key) && Had(db, u.id, u.balance)
  }

  function KeyOf(k: CacheKey): Key {
    match k
    case PhoneKey(p) => ByPhone(p)
    case UsernameKey(n) => ByUsername(n)
  }

  ghost predicate CacheOK(s: Sys) {
    forall k {:trigger EntryOK(s.db, KeyOf(k), s.cache[k])} :: k in s.cache ==> EntryOK(s.db, KeyOf(k), s.cache[k])
  }

  ghost predicate SessionOK(s: Sys, sid: string)
    requires sid in s.sessions
  {
    && sid in s.usedSids
    && exists u :: u in T.Current(s.db).users && s.sessions[sid] == Itoa(u)
  }

  ghost predicate SessionsOK(s: Sys) {
    forall sid {:trigger SessionOK(s, sid)} :: sid in s.sessions ==> SessionOK(s, sid)
  }

  ghost predicate QueryOK(db: T.Db, q: Query) {
    match q
    case Entered(u) => u in T.Current(db).users
    case Missed(u) => u in T.Current(db).users
    case Filling(u, v) => Had(db, u, v)
    case Answered(u, v) => Had(db, u, v)
    case NoSuchUser(_) => false
    case Garbled(_) => false
  }

  ghost predicate LoginOK(db: T.Db, l: Login) {
    match l
    case Missing(key, _) => !key.ByAccount?
    case Caching(key, _, u, _) => !key.ByAccount? && EntryOK(db, key, u)
    case Checking(key, _, u) => !key.ByAccount? && EntryOK(db, key, u)
    case Accepted(_, u) => u in T.Current(db).users
    case Rejected => true
    case Errored => true
  }

  ghost predicate HandlersOK(s: Sys) {
    && (forall q {:trigger QueryOK(s.db, s.queries[q])} :: q in s.queries ==> QueryOK(s.db, s.queries[q]))
    && (forall l {:trigger LoginOK(s.db, s.logins[l])} :: l in s.logins ==> LoginOK(s.db, s.logins[l]))
  }

  ghost predicate Inv(s: Sys) {
    TI.Inv(s.db) && HashOK(s) && StreamOK(s) && CacheOK(s) && SessionsOK(s) && HandlersOK(s)
  }

  lemma InitialInv()
    ensures Inv(INITIAL)
  {
    TI.InitialInv();
  }

  // ---------------------------------------------------------------- the database moves on

  /** Committed history only grows. */
  ghost predicate Extends(db: T.Db, db': T.Db) {
    && |db.hist| <= |db'.hist| && db'.hist[..|db.hist|] == db.hist
    && |db.log| <= |db'.log| && db'.log[..|db.log|] == db.log
  }

  lemma StepExtends(db: T.Db, d: T.Event)
    requires T.Enabled(db, d)
    ensures Extends(db, T.Apply(db, d))
  {
  }

  lemma ExtendsKeepsHad(db: T.Db, db': T.Db, u: int, v: int)
    requires Extends(db, db') && Had(db, u, v)
    ensures Had(db', u, v)
  {
    var k :| HadAt(db, u, v, k);
    assert db'.hist[k] == db.hist[k];
    assert HadAt(db', u, v, k);
  }

  lemma ExtendsKeepsEvent(db: T.Db, db': T.Db, evt: TransferCompleted)
    requires Extends(db, db') && GenuineEvent(db, evt)
    ensures GenuineEvent(db', evt)
  {
    var k :| CommittedEvent(db, evt, k);
    assert db'.hist[k + 1] == db.hist[k + 1] && db'.log[k] == db.log[k];
    assert CommittedEvent(db', evt, k);
  }

  lemma ExtendsKeepsUsers(db: T.Db, db': T.Db)
    requires Extends(db, db') && TI.Inv(db) && TI.Inv(db')
    ensures UsersExtend(T.Current(db), T.Current(db'))
  {
    TI.HistoryUsers(db', |db.hist| - 1, |db'.hist| - 1);
    assert db'.hist[|db.hist| - 1] == db.hist[|db.hist| - 1];
  }

  lemma ExtendsKeepsEntry(db: T.Db, db': T.Db, key: Key, u: User)
    requires Extends(db, db') && TI.Inv(db) && TI.Inv(db') && EntryOK(db, key, u)
    ensures EntryOK(db', key, u)
  {
    ExtendsKeepsUsers(db, db');
    ExtendsKeepsHad(db, db', u.id, u.balance);
  }

  /** Everything Redis, the stream and the handlers hold stays true when the database
      commits more. */
  lemma DbMoves(s: Sys, db': T.Db)
    requires Inv(s) && TI.Inv(db') && Extends(s.db, db')
    ensures Inv(s.(db := db'))
  {
    var s' := s.(db := db');
    ExtendsKeepsUsers(s.db, db');
    forall f | f in s'.hash
      ensures EntryReal(db', f, s'.hash[f])
    {
      assert EntryReal(s.db, f, s.hash[f]);
      var u, v :| IsEntry(f, s.hash[f], u, v) && Had(s.db, u, v);
      ExtendsKeepsHad(s.db, db', u, v);
    }
    forall i | 0 <= i < |s'.stream|
      ensures MessageOK(s'.db, s'.clock, s'.stream[i])
    {
      assert MessageOK(s.db, s.clock, s.stream[i]);
      ExtendsKeepsEvent(s.db, db', s.stream[i].evt);
    }
    forall k | k in s'.cache
      ensures EntryOK(db', KeyOf(k), s'.cache[k])
    {
      ExtendsKeepsEntry(s.db, db', KeyOf(k), s.cache[k]);
    }
    forall sid | sid in s'.sessions
      ensures SessionOK(s', sid)
    {
      assert SessionOK(s, sid);
    }
    DbMovesHandlers(s, db');
  }

  lemma DbMovesHandlers(s: Sys, db': T.Db)
    requires Inv(s) && TI.Inv(db') && Extends(s.db, db')
    ensures HandlersOK(s.(db := db'))
  {
    ExtendsKeepsUsers(s.db, db');
    forall q | q in s.queries
      ensures QueryOK(db', s.queries[q])
    {
      assert QueryOK(s.db, s.queries[q]);
      match s.queries[q]
      case Filling(u, v) => ExtendsKeepsHad(s.db, db', u, v);
      case Answered(u, v) => ExtendsKeepsHad(s.db, db', u, v);
      case _ =>
    }
    forall l | l in s.logins
      ensures LoginOK(db', s.logins[l])
    {
      assert LoginOK(s.db, s.logins[l]);
      match s.logins[l]
      case Caching(key, _, u, _) => ExtendsKeepsEntry(s.db, db', key, u);
      case Checking(key, _, u) => ExtendsKeepsEntry(s.db, db', key, u);
      case _ =>
    }
  }

  // ---------------------------------------------------------------- one kind of step each

  /** Writing a real balance keeps the hash real. */
  lemma HsetKeepsHash(s: Sys, s': Sys, u: int, v: int)
    requires HashOK(s) && s'.db == s.db && s'.hash == Hset(s.hash, u, v) && Had(s.db, u, v)
    ensures HashOK(s')
  {
    forall f | f in s'.hash
      ensures EntryReal(s'.db, f, s'.hash[f])
    {
      if f == Itoa(u) {
        assert IsEntry(f, s'.hash[f], u, v);
      } else {
        assert EntryReal(s.db, f, s.hash[f]);
      }
    }
  }

  lemma RequestEventGenuine(s: Sys, r: nat)
    requires TI.Inv(s.db) && r in s.db.reqs && s.db.reqs[r].phase.Committed?
    ensures CommittedEvent(s.db, EventOf(s, r), s.db.reqs[r].phase.index) && GenuineEvent(s.db, EventOf(s, r))
  {
    var q := s.db.reqs[r];
    assert TI.ReqOK(s.db, r, q);
    var k := q.phase.index;
    assert TI.LinkOK(s.db, k);
    assert CommittedEvent(s.db, EventOf(s, r), k);
  }

  lemma GenuineBalances(db: T.Db, evt: TransferCompleted)
    requires GenuineEvent(db, evt)
    ensures Had(db, evt.senderId, evt.senderBalance) && Had(db, evt.receiverId, evt.receiverBalance)
  {
    var k :| CommittedEvent(db, evt, k);
    assert HadAt(db, evt.senderId, evt.senderBalance, k + 1);
    assert HadAt(db, evt.receiverId, evt.receiverBalance, k + 1);
  }

  /** Parts of the state that a step leaves alone keep their invariants. */
  ghost predicate SameBus(s: Sys, s': Sys) {
    s'.stream == s.stream && s'.clock == s.clock
  }

  lemma SameBusKeeps(s: Sys, s': Sys)
    requires StreamOK(s) && SameBus(s, s') && s'.db == s.db
    ensures StreamOK(s')
  {
    assert forall i :: 0 <= i < |s.stream| ==>
      MessageOK(s'.db, s'.clock, s.stream[i]) == MessageOK(s.db, s.clock, s.stream[i]);
    assert forall i, j :: 0 <= i < j < |s.stream| ==> WindowApart(s.stream[i], s.stream[j]);
  }

  lemma FewerKeysKeep(s: Sys, s': Sys)
    requires CacheOK(s) && SessionsOK(s) && s'.db == s.db && s'.usedSids == s.usedSids
    requires forall k :: k in s'.cache ==> k in s.cache && s'.cache[k] == s.cache[k]
    requires forall sid :: sid in s'.sessions ==> sid in s.sessions && s'.sessions[sid] == s.sessions[sid]
    ensures CacheOK(s') && SessionsOK(s')
  {
    forall k | k in s'.cache
      ensures EntryOK(s'.db, KeyOf(k), s'.cache[k])
    {
      assert EntryOK(s.db, KeyOf(k), s.cache[k]);
    }
    forall sid | sid in s'.sessions
      ensures SessionOK(s', sid)
    {
      assert SessionOK(s, sid);
    }
  }

  lemma SameHandlersKeep(s: Sys, s': Sys)
    requires HandlersOK(s) && s'.db == s.db && s'.queries == s.queries && s'.logins == s.logins
    ensures HandlersOK(s')
  {
    assert forall q :: q in s.queries ==> QueryOK(s'.db, s.queries[q]) == QueryOK(s.db, s.queries[q]);
    assert forall l :: l in s.logins ==> LoginOK(s'.db, s.logins[l]) == LoginOK(s.db, s.logins[l]);
  }

  lemma SameHashKeeps(s: Sys, s': Sys)
    requires HashOK(s) && s'.db == s.db && s'.hash == s.hash
    ensures HashOK(s')
  {
    assert forall f :: f in s.hash ==> EntryReal(s'.db, f, s.hash[f]) == EntryReal(s.db, f, s.hash[f]);
  }

  lemma PostKeepsInv(s: Sys, e: Event)
    requires Inv(s) && OfPost(e) && PostEnabled(s, e)
    ensures Inv(PostStep(s, e))
  {
    var s', evt := PostStep(s, e), EventOf(s, e.r);
    RequestEventGenuine(s, e.r);
    GenuineBalances(s.db, evt);
    if e.HsetSender? {
      HsetKeepsHash(s, s', evt.senderId, evt.senderBalance);
    } else if e.HsetReceiver? {
      HsetKeepsHash(s, s', evt.receiverId, evt.receiverBalance);
    } else {
      SameHashKeeps(s, s');
    }
    SameBusKeeps(s, s');
    FewerKeysKeep(s, s');
    SameHandlersKeep(s, s');
  }

  lemma PublishKeepsInv(s: Sys, r: nat)
    requires Inv(s) && Posting(s, r, 3)
    ensures Inv(PublishMsg(s, EventOf(s, r)))
  {
    RequestEventGenuine(s, r);
    StoredEventKeepsInv(s, EventOf(s, r));
  }

  lemma StoredEventKeepsInv(s: Sys, evt: TransferCompleted)
    requires Inv(s) && GenuineEvent(s.db, evt)
    ensures Inv(PublishMsg(s, evt))
  {
    PublishKeepsStream(s, evt);
    OtherStreamKeepsInv(s, PublishMsg(s, evt));
  }

  lemma OtherStreamKeepsInv(s: Sys, s': Sys)
    requires Inv(s) && StreamOK(s') && s' == s.(stream := s'.stream)
    ensures Inv(s')
  {
    SameHashKeeps(s, s');
    FewerKeysKeep(s, s');
    SameHandlersKeep(s, s');
  }

  lemma PublishKeepsStream(s: Sys, evt: TransferCompleted)
    requires StreamOK(s) && GenuineEvent(s.db, evt)
    ensures StreamOK(PublishMsg(s, evt))
  {
    var m := Message(Itoa(evt.transferId), evt, s.clock, [], false);
    if !IsDuplicate(s, m.msgId) {
      forall i | 0 <= i < |s.stream|
        ensures WindowApart(s.stream[i], m)
      {
      }
      AppendKeepsStream(s, PublishMsg(s, evt), m);
    }
  }

  lemma AppendKeepsStream(s: Sys, s': Sys, m: Message)
    requires StreamOK(s) && s'.db == s.db && s'.clock == s.clock && s'.stream == s.stream + [m]
    requires MessageOK(s.db, s.clock, m)
    requires forall i :: 0 <= i < |s.stream| ==> WindowApart(s.stream[i], m)
    ensures StreamOK(s')
  {
    var n := |s.stream|;
    forall i | 0 <= i < |s'.stream|
      ensures MessageOK(s'.db, s'.clock, s'.stream[i])
    {
      assert i < n ==> MessageOK(s.db, s.clock, s.stream[i]);
    }
    forall i, j | 0 <= i < j < |s'.stream|
      ensures WindowApart(s'.stream[i], s'.stream[j])
    {
      if j < n {
        assert WindowApart(s.stream[i], s.stream[j]);
      } else {
        assert s'.stream[i] == s.stream[i];
      }
    }
  }

  /** The consumer changes only the delivery marks of one message. */
  lemma MarkKeepsStream(s: Sys, s': Sys, i: nat, m: Message)
    requires StreamOK(s) && i < |s.stream| && s'.db == s.db && s'.clock == s.clock && s'.stream == s.stream[i := m]
    requires m.evt == s.stream[i].evt && m.msgId == s.stream[i].msgId && m.storedAt == s.stream[i].storedAt
    requires |m.attempts| <= MAX_DELIVER && (m.acked ==> Confirmed(m))
    ensures StreamOK(s')
  {
    forall j | 0 <= j < |s'.stream|
      ensures MessageOK(s'.db, s'.clock, s'.stream[j])
    {
      assert MessageOK(s.db, s.clock, s.stream[j]);
    }
    forall j, k | 0 <= j < k < |s'.stream|
      ensures WindowApart(s'.stream[j], s'.stream[k])
    {
      assert WindowApart(s.stream[j], s.stream[k]);
    }
  }

  lemma ConsumerKeepsHash(s: Sys, e: Event)
    requires Inv(s) && OfConsumer(e) && ConsumerEnabled(s, e)
    ensures HashOK(ConsumerStep(s, e))
  {
    var s', m := ConsumerStep(s, e), s.stream[e.i];
    assert MessageOK(s.db, s.clock, m);
    GenuineBalances(s.db, m.evt);
    if e.ProjectSender? && e.done {
      HsetKeepsHash(s, s', m.evt.senderId, m.evt.senderBalance);
    } else if e.ProjectReceiver? && e.done {
      HsetKeepsHash(s, s', m.evt.receiverId, m.evt.receiverBalance);
    } else {
      SameHashKeeps(s, s');
    }
  }

  /** A delivery that wrote both balances stays so. */
  lemma AttemptsStay(m: Message, e: Event)
    requires OfConsumer(e) && (m.acked ==> Confirmed(m))
    requires e.ProjectSender? ==> e.d < |m.attempts| && m.attempts[e.d].sender.Pending?
    requires e.ProjectReceiver? ==> e.d < |m.attempts| && m.attempts[e.d].receiver.Pending?
    requires e.AckMessage? ==> e.d < |m.attempts| && m.attempts[e.d] == BOTH_LANDED
    ensures MessageAfter(m, e).acked ==> Confirmed(MessageAfter(m, e))
  {
    var m' := MessageAfter(m, e);
    if m.acked {
      var d :| 0 <= d < |m.attempts| && m.attempts[d] == BOTH_LANDED;
      assert m'.attempts[d] == BOTH_LANDED;
    } else if e.AckMessage? {
      assert m'.attempts[e.d] == BOTH_LANDED;
    }
  }

  lemma ConsumerKeepsInv(s: Sys, e: Event)
    requires Inv(s) && OfConsumer(e) && ConsumerEnabled(s, e)
    ensures Inv(ConsumerStep(s, e))
  {
    var s', m := ConsumerStep(s, e), s.stream[e.i];
    assert MessageOK(s.db, s.clock, m);
    ConsumerKeepsHash(s, e);
    AttemptsStay(m, e);
    MarkKeepsStream(s, s', e.i, s'.stream[e.i]);
    FewerKeysKeep(s, s');
    SameHandlersKeep(s, s');
  }

  /** Time passes and Redis forgets. */
  lemma EnvironmentKeepsInv(s: Sys, s': Sys)
    requires Inv(s) && s' == s.(clock := s'.clock, hash := s'.hash, cache := s'.cache, sessions := s'.sessions)
    requires s'.clock >= s.clock && (s'.hash == s.hash || s'.hash == map[])
    requires forall k :: k in s'.cache ==> k in s.cache && s'.cache[k] == s.cache[k]
    requires forall sid :: sid in s'.sessions ==> sid in s.sessions && s'.sessions[sid] == s.sessions[sid]
    ensures Inv(s')
  {
    if s'.hash == s.hash {
      SameHashKeeps(s, s');
    }
    FewerKeysKeep(s, s');
    SameHandlersKeep(s, s');
    forall i | 0 <= i < |s'.stream|
      ensures MessageOK(s'.db, s'.clock, s'.stream[i])
    {
      assert MessageOK(s.db, s.clock, s.stream[i]);
    }
    assert forall i, j :: 0 <= i < j < |s.stream| ==> WindowApart(s.stream[i], s.stream[j]);
  }

  /** A live session resolves to the existing user it was created for. */
  lemma SessionResolves(s: Sys, sid: string)
    requires Inv(s) && sid != "" && sid in s.sessions
    ensures SessionUser(s.sessions, sid).Some? && SessionUser(s.sessions, sid).value in T.Current(s.db).users
    ensures s.sessions[sid] == Itoa(SessionUser(s.sessions, sid).value)
  {
    assert SessionOK(s, sid);
    var u :| u in T.Current(s.db).users && s.sessions[sid] == Itoa(u);
    CurrentLedger(s.db);
    AtoiItoa(u);
  }

  lemma CurrentLedger(db: T.Db)
    requires TI.Inv(db)
    ensures UsersDistinct(T.Current(db)) && RowsWellFormed(T.Current(db).users)
  {
    TI.HistoryLedger(db, |db.hist| - 1);
  }

  /** A value in the hash reads back as a balance the user had. */
  lemma HitIsReal(s: Sys, user: int)
    requires Inv(s) && Itoa(user) in s.hash
    ensures
      var value := Atoi(s.hash[Itoa(user)]);
      value.Some? && s.hash[Itoa(user)] == Itoa(value.value) && Had(s.db, user, value.value)
  {
    var f := Itoa(user);
    assert EntryReal(s.db, f, s.hash[f]);
    var u, v :| IsEntry(f, s.hash[f], u, v) && Had(s.db, u, v);
    ItoaInjective(u, user);
    var k :| HadAt(s.db, u, v, k);
    TI.SnapshotRows(s.db, k);
    AtoiItoa(v);
  }

  lemma CurrentHad(db: T.Db, u: int)
    requires TI.Inv(db) && u in T.Current(db).users
    ensures Had(db, u, T.Current(db).users[u].balance)
  {
    assert HadAt(db, u, T.Current(db).users[u].balance, |db.hist| - 1);
  }

  lemma VerdictOK(s: Sys, user: int)
    requires Inv(s) && user in T.Current(s.db).users
    ensures QueryOK(s.db, HashVerdict(s.hash, user)) && QueryOK(s.db, DatabaseRow(T.Current(s.db).users, user))
  {
    CurrentHad(s.db, user);
    if Itoa(user) in s.hash {
      HitIsReal(s, user);
    }
  }

  lemma QueryStepOK(s: Sys, e: Event)
    requires Inv(s) && OfBalance(e) && BalanceEnabled(s, e)
    ensures QueryOK(s.db, BalanceStep(s, e).queries[e.q])
  {
    if e.BalanceStart? {
      SessionResolves(s, e.sid);
    } else {
      assert QueryOK(s.db, s.queries[e.q]);
      if e.BalanceGet? || e.BalanceQuery? {
        VerdictOK(s, s.queries[e.q].user);
      }
    }
  }

  lemma FillKeepsHash(s: Sys, e: Event)
    requires Inv(s) && OfBalance(e) && BalanceEnabled(s, e)
    ensures HashOK(BalanceStep(s, e))
  {
    var s' := BalanceStep(s, e);
    if e.BalanceFill? && e.done {
      assert QueryOK(s.db, s.queries[e.q]);
      HsetKeepsHash(s, s', s.queries[e.q].user, s.queries[e.q].balance);
    } else {
      SameHashKeeps(s, s');
    }
  }

  lemma BalanceKeepsInv(s: Sys, e: Event)
    requires Inv(s) && OfBalance(e) && BalanceEnabled(s, e)
    ensures Inv(BalanceStep(s, e))
  {
    var s' := BalanceStep(s, e);
    QueryStepOK(s, e);
    FillKeepsHash(s, e);
    SameBusKeeps(s, s');
    FewerKeysKeep(s, s');
    forall q | q in s'.queries
      ensures QueryOK(s'.db, s'.queries[q])
    {
      assert q != e.q ==> QueryOK(s.db, s.queries[q]);
    }
    assert forall l :: l in s.logins ==> LoginOK(s'.db, s.logins[l]) == LoginOK(s.db, s.logins[l]);
  }

  lemma EntryUnderOtherKeys(db: T.Db, key: Key, u: User)
    requires EntryOK(db, key, u)
    ensures EntryOK(db, ByPhone(u.phone), u) && EntryOK(db, ByUsername(u.username), u)
  {
  }

  /** One login moves; it may also have written cache entries or one session. */
  ghost predicate LoginMoves(s: Sys, s': Sys, l: nat, login: Login) {
    && s'.db == s.db && s'.hash == s.hash && SameBus(s, s') && s'.queries == s.queries
    && s'.logins == s.logins[l := login]
  }

  lemma LoginStepKeeps(s: Sys, s': Sys, l: nat, login: Login)
    requires HashOK(s) && StreamOK(s) && HandlersOK(s) && LoginMoves(s, s', l, login) && LoginOK(s.db, login)
    ensures HashOK(s') && StreamOK(s') && HandlersOK(s')
  {
    SameHashKeeps(s, s');
    SameBusKeeps(s, s');
    forall j | j in s'.logins
      ensures LoginOK(s'.db, s'.logins[j])
    {
      assert j != l ==> LoginOK(s.db, s.logins[j]);
    }
    assert forall q :: q in s.queries ==> QueryOK(s'.db, s.queries[q]) == QueryOK(s.db, s.queries[q]);
  }

  lemma CacheWriteKeeps(s: Sys, s': Sys, k: CacheKey, u: User)
    requires CacheOK(s) && s'.db == s.db && s'.cache == s.cache[k := u] && EntryOK(s.db, KeyOf(k), u)
    ensures CacheOK(s')
  {
    forall j | j in s'.cache
      ensures EntryOK(s'.db, KeyOf(j), s'.cache[j])
    {
      assert j != k ==> EntryOK(s.db, KeyOf(j), s.cache[j]);
    }
  }

  lemma LookupKeepsInv(s: Sys, l: nat, key: Key, password: string)
    requires Inv(s) && LoginEnabled(s, LoginLookup(l, key, password))
    ensures Inv(LoginLookupStep(s, l, key, password))
  {
    var s', k := LoginLookupStep(s, l, key, password), KeyOfCache(key);
    if k in s.cache {
      assert EntryOK(s.db, KeyOf(k), s.cache[k]);
    }
    LoginStepKeeps(s, s', l, s'.logins[l]);
    FewerKeysKeep(s, s');
  }

  lemma QueryKeepsInv(s: Sys, l: nat, pick: Option<int>)
    requires Inv(s) && LoginEnabled(s, LoginQuery(l, pick))
    ensures Inv(LoginQueryStep(s, l, pick))
  {
    var s' := LoginQueryStep(s, l, pick);
    assert LoginOK(s.db, s.logins[l]);
    if pick.Some? {
      CurrentHad(s.db, pick.value);
      CurrentLedger(s.db);
    }
    LoginStepKeeps(s, s', l, s'.logins[l]);
    FewerKeysKeep(s, s');
  }

  lemma CachePhoneKeepsInv(s: Sys, l: nat, done: bool, replied: bool)
    requires Inv(s) && LoginEnabled(s, CachePhone(l, done, replied))
    ensures Inv(CachePhoneStep(s, l, done, replied))
  {
    var s', login := CachePhoneStep(s, l, done, replied), s.logins[l];
    assert LoginOK(s.db, login);
    LoginStepKeeps(s, s', l, s'.logins[l]);
    if done {
      EntryUnderOtherKeys(s.db, login.key, login.entry);
      CacheWriteKeeps(s, s', PhoneKey(login.entry.phone), login.entry);
      assert forall sid :: sid in s.sessions ==> SessionOK(s', sid) == SessionOK(s, sid);
    } else {
      FewerKeysKeep(s, s');
    }
  }

  lemma CacheUsernameKeepsInv(s: Sys, l: nat, done: bool)
    requires Inv(s) && LoginEnabled(s, CacheUsername(l, done))
    ensures Inv(CacheUsernameStep(s, l, done))
  {
    var s', login := CacheUsernameStep(s, l, done), s.logins[l];
    assert LoginOK(s.db, login);
    LoginStepKeeps(s, s', l, s'.logins[l]);
    if done {
      EntryUnderOtherKeys(s.db, login.key, login.entry);
      CacheWriteKeeps(s, s', UsernameKey(login.entry.username), login.entry);
      assert forall sid :: sid in s.sessions ==> SessionOK(s', sid) == SessionOK(s, sid);
    } else {
      FewerKeysKeep(s, s');
    }
  }

  lemma VerifyKeepsInv(s: Sys, l: nat, ok: bool, sid: string, replied: bool)
    requires Inv(s) && LoginEnabled(s, LoginVerify(l, ok, sid, replied))
    ensures Inv(LoginVerifyStep(s, l, ok, sid, replied))
  {
    var s' := LoginVerifyStep(s, l, ok, sid, replied);
    assert LoginOK(s.db, s.logins[l]);
    LoginStepKeeps(s, s', l, s'.logins[l]);
    forall other | other in s'.sessions
      ensures SessionOK(s', other)
    {
      assert other in s.sessions ==> SessionOK(s, other);
    }
    forall k | k in s'.cache
      ensures EntryOK(s'.db, KeyOf(k), s'.cache[k])
    {
      assert EntryOK(s.db, KeyOf(k), s.cache[k]);
    }
  }

  lemma LoginErrorKeepsInv(s: Sys, l: nat)
    requires Inv(s) && LoginEnabled(s, LoginError(l))
    ensures Inv(LoginStep(s, LoginError(l)))
  {
    var s' := LoginStep(s, LoginError(l));
    LoginStepKeeps(s, s', l, Errored);
    FewerKeysKeep(s, s');
  }

  lemma LoginKeepsInv(s: Sys, e: Event)
    requires Inv(s) && OfLogin(e) && LoginEnabled(s, e)
    ensures Inv(LoginStep(s, e))
  {
    match e
    case LoginLookup(l, key, password) => LookupKeepsInv(s, l, key, password);
    case LoginQuery(l, pick) => QueryKeepsInv(s, l, pick);
    case CachePhone(l, done, replied) => CachePhoneKeepsInv(s, l, done, replied);
    case CacheUsername(l, done) => CacheUsernameKeepsInv(s, l, done);
    case LoginVerify(l, ok, sid, replied) => VerifyKeepsInv(s, l, ok, sid, replied);
    case LoginError(l) => LoginErrorKeepsInv(s, l);
  }

  // ---------------------------------------------------------------- every step, every run

  /** Only statements and new requests move the database. */
  lemma DbOfStep(s: Sys, e: Event)
    requires Enabled(s, e)
    ensures e.InDb? ==> Apply(s, e).db == T.Apply(s.db, e.e)
    ensures e.StartTransfer? ==>
      Apply(s, e).db == T.Apply(s.db, T.Submit(e.r, SessionUser(s.sessions, e.sid).value, e.key, e.amount))
    ensures e.RunAck? ==> Apply(s, e).db == T.Apply(s.db, T.Ack(s.acks[e.a].user, s.acks[e.a].note))
    ensures !MovesDb(e) ==> Apply(s, e).db == s.db
  {
  }

  lemma DbEventKeepsInv(s: Sys, d: T.Event)
    requires Inv(s) && T.Enabled(s.db, d)
    ensures Inv(s.(db := T.Apply(s.db, d)))
  {
    TI.StepKeepsInv(s.db, d);
    StepExtends(s.db, d);
    DbMoves(s, T.Apply(s.db, d));
  }

  /** The table of pending acknowledgements carries no obligation. */
  lemma AcksKeepInv(s: Sys, s': Sys)
    requires Inv(s) && s' == s.(acks := s'.acks)
    ensures Inv(s')
  {
    SameHashKeeps(s, s');
    SameBusKeeps(s, s');
    FewerKeysKeep(s, s');
    SameHandlersKeep(s, s');
  }

  lemma RunAckKeepsInv(s: Sys, a: nat)
    requires Inv(s) && a in s.acks && s.acks[a].Acking?
    ensures Inv(Apply(s, RunAck(a)))
  {
    var d := T.Ack(s.acks[a].user, s.acks[a].note);
    DbEventKeepsInv(s, d);
    AcksKeepInv(s.(db := T.Apply(s.db, d)), Apply(s, RunAck(a)));
  }

  predicate OfHandler(e: Event) {
    OfPost(e) || OfConsumer(e) || OfBalance(e) || OfLogin(e)
  }

  lemma HandlerKeepsInv(s: Sys, e: Event)
    requires Inv(s) && Enabled(s, e) && OfHandler(e)
    ensures Inv(Apply(s, e))
  {
    if OfPost(e) {
      PostKeepsInv(s, e);
    } else if OfConsumer(e) {
      ConsumerKeepsInv(s, e);
    } else if OfBalance(e) {
      BalanceKeepsInv(s, e);
    } else {
      LoginKeepsInv(s, e);
    }
  }

  lemma DbMoveKeepsInv(s: Sys, e: Event)
    requires Inv(s) && Enabled(s, e) && MovesDb(e)
    ensures Inv(Apply(s, e))
  {
    match e
    case InDb(d) => DbEventKeepsInv(s, d);
    case StartTransfer(r, sid, key, amount) =>
      DbEventKeepsInv(s, T.Submit(r, SessionUser(s.sessions, sid).value, key, amount));
    case RunAck(a) => RunAckKeepsInv(s, a);
  }

  lemma StepKeepsInv(s: Sys, e: Event)
    requires Inv(s) && Enabled(s, e)
    ensures Inv(Apply(s, e))
  {
    if OfHandler(e) {
      HandlerKeepsInv(s, e);
    } else if MovesDb(e) {
      DbMoveKeepsInv(s, e);
    } else if e.StartAck? {
      AcksKeepInv(s, Apply(s, e));
    } else if e.Publish? {
      PublishKeepsInv(s, e.r);
    } else {
      EnvironmentKeepsInv(s, Apply(s, e));
    }
  }

  lemma {:induction false} RunInv(ss: seq<Sys>, es: seq<Event>, n: nat)
    requires IsRun(ss, es) && n < |ss|
    ensures Inv(ss[n])
  {
    if n == 0 {
      InitialInv();
    } else {
      RunInv(ss, es, n - 1);
      assert Follows(ss, es, n - 1);
      StepKeepsInv(ss[n - 1], es[n - 1]);
    }
  }
}
