/** What callers of the whole service can rely on, over every run of the system machine. */
module SystemGuarantees {
  import opened Base
  import opened Decimal
  import opened Ledger
  import T = Transactions
  import TI = TransactionInvariants
  import G = Guarantees
  import opened System
  import opened SystemInvariants

  // ---------------------------------------------------------------- balance reads

  /** Whatever the order of commits, partial pipelines, back-fills, deliveries,
      redeliveries and wipes: a hash field reads back as a balance its user had in some
      committed state. */
  lemma HashHoldsRealBalances(ss: seq<Sys>, es: seq<Event>, n: nat, user: int)
    requires IsRun(ss, es) && n < |ss| && Itoa(user) in ss[n].hash
    ensures Atoi(ss[n].hash[Itoa(user)]).Some?
    ensures Had(ss[n].db, user, Atoi(ss[n].hash[Itoa(user)]).value)
  {
    RunInv(ss, es, n);
    HitIsReal(ss[n], user);
  }

  /** The i-th step answered query q from the hash. */
  ghost predicate HitAt(ss: seq<Sys>, es: seq<Event>, i: nat, q: nat, user: int, balance: int)
    requires |ss| == |es| + 1
  {
    && i < |es| && es[i] == BalanceGet(q) && q in ss[i].queries && ss[i].queries[q] == Entered(user)
    && Itoa(user) in ss[i].hash && Atoi(ss[i].hash[Itoa(user)]) == Some(balance)
  }

  /** The i-th step read the committed balance of the user for query q. */
  ghost predicate ReadAt(ss: seq<Sys>, es: seq<Event>, i: nat, q: nat, user: int, balance: int)
    requires |ss| == |es| + 1
  {
    && i < |es| && es[i] == BalanceQuery(q)
    && user in T.Current(ss[i].db).users && T.Current(ss[i].db).users[user].balance == balance
  }

  ghost predicate AnswerHasSource(ss: seq<Sys>, es: seq<Event>, n: nat, q: nat, user: int, balance: int)
    requires |ss| == |es| + 1
  {
    exists i: nat :: i < n && (HitAt(ss, es, i, q, user, balance) || ReadAt(ss, es, i, q, user, balance))
  }

  /** Every balance answered was either found in the hash or, on a miss, is the balance
      committed at the moment the query ran; a query never ends in an unreadable value or
      a missing user, and every answer is a balance the user had. */
  lemma {:induction false} BalanceAnswers(ss: seq<Sys>, es: seq<Event>, n: nat, q: nat)
    requires IsRun(ss, es) && n < |ss| && q in ss[n].queries
    ensures !ss[n].queries[q].Garbled? && !ss[n].queries[q].NoSuchUser?
    ensures match ss[n].queries[q]
            case Answered(u, v) => Had(ss[n].db, u, v) && AnswerHasSource(ss, es, n, q, u, v)
            case Filling(u, v) => Had(ss[n].db, u, v) && AnswerHasSource(ss, es, n, q, u, v)
            case _ => true
  {
    RunInv(ss, es, n);
    assert QueryOK(ss[n].db, ss[n].queries[q]);
    if n > 0 {
      var s, e := ss[n - 1], es[n - 1];
      assert Follows(ss, es, n - 1);
      if q in s.queries && ss[n].queries[q] == s.queries[q] {
        BalanceAnswers(ss, es, n - 1, q);
      } else if e.BalanceFill? {
        BalanceAnswers(ss, es, n - 1, q);
      } else if e.BalanceGet? {
        BalanceAnswers(ss, es, n - 1, q);
        if ss[n].queries[q].Answered? {
          assert HitAt(ss, es, n - 1, q, ss[n].queries[q].user, ss[n].queries[q].balance);
        }
      } else {
        QueryChangedBy(s, e, q);
        if ss[n].queries[q].Filling? {
          assert ReadAt(ss, es, n - 1, q, ss[n].queries[q].user, ss[n].queries[q].balance);
        }
      }
    }
  }

  lemma QueryChangedBy(s: Sys, e: Event, q: nat)
    requires Enabled(s, e) && q in Apply(s, e).queries
    requires !(q in s.queries && Apply(s, e).queries[q] == s.queries[q])
    ensures OfBalance(e) && e.q == q
  {
  }

  // ---------------------------------------------------------------- the event stream

  /** Every stored message is the event of a committed transfer with its true
      post-transaction balances, under the decimal transfer id; it is delivered at most
      five times and acknowledged only after both balances were written. */
  lemma StreamHoldsCommittedTransfers(ss: seq<Sys>, es: seq<Event>, n: nat, i: nat) returns (k: nat)
    requires IsRun(ss, es) && n < |ss| && i < |ss[n].stream|
    ensures
      var m, db := ss[n].stream[i], ss[n].db;
      && k < |db.log| && k + 1 < |db.hist| && db.log[k].Transferred?
      && m.msgId == Itoa(db.log[k].transferId) && m.evt.transferId == db.log[k].transferId
      && m.evt.amount == db.log[k].amount
      && m.evt.senderId == db.log[k].sender && m.evt.receiverId == db.log[k].receiver
      && db.log[k].sender in db.hist[k + 1].users && db.log[k].receiver in db.hist[k + 1].users
      && m.evt.senderBalance == db.hist[k + 1].users[db.log[k].sender].balance
      && m.evt.receiverBalance == db.hist[k + 1].users[db.log[k].receiver].balance
      && |m.attempts| <= 5 && (m.acked ==> Confirmed(m))
  {
    RunInv(ss, es, n);
    assert MessageOK(ss[n].db, ss[n].clock, ss[n].stream[i]);
    k :| CommittedEvent(ss[n].db, ss[n].stream[i].evt, k);
  }

  /** A publish is dropped if and only if a copy under its decimal transfer id was stored
      less than five minutes ago; otherwise exactly one message is appended. */
  lemma PublishStores(s: Sys, evt: TransferCompleted)
    ensures
      if exists i :: 0 <= i < |s.stream| && s.stream[i].msgId == Itoa(evt.transferId)
           && s.clock < s.stream[i].storedAt + 300
      then PublishMsg(s, evt) == s
      else PublishMsg(s, evt) == s.(stream := s.stream + [Message(Itoa(evt.transferId), evt, s.clock, [], false)])
  {
    var id := Itoa(evt.transferId);
    if i :| 0 <= i < |s.stream| && s.stream[i].msgId == id && s.clock < s.stream[i].storedAt + 300 {
      assert CopyInWindow(s.stream[i], id, s.clock);
    }
  }

  /** Two stored messages under one id belong to the same transfer and were stored at
      least a duplicate window apart, so publishes inside one window leave one copy. */
  lemma AtMostOneCopyPerWindow(ss: seq<Sys>, es: seq<Event>, n: nat, i: nat, j: nat)
    requires IsRun(ss, es) && n < |ss| && i < j < |ss[n].stream|
    requires ss[n].stream[i].msgId == ss[n].stream[j].msgId
    ensures ss[n].stream[i].storedAt + 300 <= ss[n].stream[j].storedAt
    ensures ss[n].stream[i].evt == ss[n].stream[j].evt
  {
    var s := ss[n];
    RunInv(ss, es, n);
    var a, b := s.stream[i], s.stream[j];
    assert WindowApart(a, b);
    assert MessageOK(s.db, s.clock, a) && MessageOK(s.db, s.clock, b);
    ItoaInjective(a.evt.transferId, b.evt.transferId);
    var k :| CommittedEvent(s.db, a.evt, k);
    var l :| CommittedEvent(s.db, b.evt, l);
    if k < l {
      G.TransferIdsDistinct(s.db, k, l);
    } else if l < k {
      G.TransferIdsDistinct(s.db, l, k);
    }
  }

  // ---------------------------------------------------------------- login

  /** The user a login that only asks the database lets in, when its query returns pick. */
  function DatabaseVerdict(
    verify: (string, string) -> bool, users: map<int, User>, pick: Option<int>, password: string): Option<int>
    requires pick.Some? ==> pick.value in users
  {
    if pick.Some? && verify(password, users[pick.value].passwordHash) then pick else None
  }

  function CacheVerdict(verify: (string, string) -> bool, entry: User, password: string): Option<int> {
    if verify(password, entry.passwordHash) then Some(entry.id) else None
  }

  /** At any moment the record a login is about to check, cached or not, gives the
      verdict of a login that asks the database now: the same one by phone, and by
      username the one for a row with that name. Its other fields are those of the row,
      and its balance is one the user had. */
  lemma CacheFirstLogin(ss: seq<Sys>, es: seq<Event>, n: nat, l: nat, verify: (string, string) -> bool)
    requires IsRun(ss, es) && n < |ss| && l in ss[n].logins && ss[n].logins[l].Checking?
    ensures
      var Checking(key, password, entry), users := ss[n].logins[l], T.Current(ss[n].db).users;
      && MayReturn(users, key, Some(entry.id))
      && SameIdentity(entry, users[entry.id]) && Had(ss[n].db, entry.id, entry.balance)
      && CacheVerdict(verify, entry, password) == DatabaseVerdict(verify, users, Some(entry.id), password)
      && (key.ByPhone? ==> forall pick | MayReturn(users, key, pick) ::
            pick == Some(entry.id)
            && CacheVerdict(verify, entry, password) == DatabaseVerdict(verify, users, pick, password))
  {
    RunInv(ss, es, n);
    assert LoginOK(ss[n].db, ss[n].logins[l]);
    CurrentLedger(ss[n].db);
  }

  // ---------------------------------------------------------------- who may cause a debit

  /** The i-th step is a login that found a user record and opened session sid. */
  ghost predicate LoginAt(ss: seq<Sys>, es: seq<Event>, i: nat, sid: string, user: int)
    requires |ss| == |es| + 1
  {
    && i < |es| && es[i].LoginVerify? && es[i].ok && es[i].sid == sid
    && es[i].l in ss[i].logins && ss[i].logins[es[i].l].Checking? && ss[i].logins[es[i].l].entry.id == user
  }

  ghost predicate LiveThroughout(ss: seq<Sys>, from: nat, to: nat, sid: string) {
    forall i :: from <= i <= to && i < |ss| ==> sid in ss[i].sessions
  }

  lemma {:induction false} SessionOrigin(ss: seq<Sys>, es: seq<Event>, n: nat, sid: string) returns (i: nat, user: int)
    requires IsRun(ss, es) && n < |ss| && sid in ss[n].sessions
    ensures i < n && LoginAt(ss, es, i, sid, user)
    ensures ss[n].sessions[sid] == Itoa(user) && LiveThroughout(ss, i + 1, n, sid)
  {
    SessionBefore(ss, es, n, sid);
    if sid in ss[n - 1].sessions {
      i, user := SessionOrigin(ss, es, n - 1, sid);
    } else {
      i, user := n - 1, ss[n - 1].logins[es[n - 1].l].entry.id;
    }
  }

  /** A session was there before the last step, unchanged, or that step opened it. */
  lemma SessionBefore(ss: seq<Sys>, es: seq<Event>, n: nat, sid: string)
    requires IsRun(ss, es) && n < |ss| && sid in ss[n].sessions
    ensures n > 0
    ensures sid in ss[n - 1].sessions ==> ss[n].sessions[sid] == ss[n - 1].sessions[sid]
    ensures sid !in ss[n - 1].sessions ==>
      && es[n - 1].LoginVerify? && es[n - 1].l in ss[n - 1].logins && ss[n - 1].logins[es[n - 1].l].Checking?
      && var user := ss[n - 1].logins[es[n - 1].l].entry.id;
         LoginAt(ss, es, n - 1, sid, user) && ss[n].sessions[sid] == Itoa(user)
  {
    RunInv(ss, es, n - 1);
    assert Follows(ss, es, n - 1);
    assert sid in ss[n - 1].sessions ==> SessionOK(ss[n - 1], sid);
    SessionStep(ss[n - 1], es[n - 1], sid);
  }

  lemma SessionStep(s: Sys, e: Event, sid: string)
    requires Enabled(s, e) && sid in Apply(s, e).sessions
    requires sid in s.sessions ==> sid in s.usedSids
    ensures sid in s.sessions ==> Apply(s, e).sessions[sid] == s.sessions[sid]
    ensures sid !in s.sessions ==>
      && e.LoginVerify? && e.ok && e.sid == sid && LoginEnabled(s, e)
      && Apply(s, e).sessions[sid] == Itoa(s.logins[e.l].entry.id)
  {
    if OfLogin(e) {
      SessionOfLogin(s, e, sid);
    } else {
      SessionOfOther(s, e, sid);
    }
  }

  lemma SessionOfOther(s: Sys, e: Event, sid: string)
    requires Enabled(s, e) && !OfLogin(e) && sid in Apply(s, e).sessions
    ensures sid in s.sessions && Apply(s, e).sessions[sid] == s.sessions[sid]
  {
  }

  lemma SessionOfLogin(s: Sys, e: Event, sid: string)
    requires OfLogin(e) && LoginEnabled(s, e) && sid in LoginStep(s, e).sessions
    requires sid in s.sessions ==> sid in s.usedSids
    ensures sid in s.sessions ==> LoginStep(s, e).sessions[sid] == s.sessions[sid]
    ensures sid !in s.sessions ==>
      && e.LoginVerify? && e.ok && e.sid == sid
      && LoginStep(s, e).sessions[sid] == Itoa(s.logins[e.l].entry.id)
  {
  }

  /** A request in the database was started by a handler that had just resolved a live
      session, and acts for that session's user with the amount asked for. */
  lemma {:induction false} RequestOrigin(ss: seq<Sys>, es: seq<Event>, n: nat, r: nat) returns (j: nat, sid: string)
    requires IsRun(ss, es) && n < |ss| && r in ss[n].db.reqs
    ensures
      var q := ss[n].db.reqs[r];
      j < n && es[j] == StartTransfer(r, sid, q.key, q.amount) && SessionUser(ss[j].sessions, sid) == Some(q.sender)
  {
    var s, e := ss[n - 1], es[n - 1];
    assert Follows(ss, es, n - 1);
    RequestStep(s, e, r);
    if r in s.db.reqs {
      j, sid := RequestOrigin(ss, es, n - 1, r);
    } else {
      j, sid := n - 1, e.sid;
    }
  }

  lemma RequestStep(s: Sys, e: Event, r: nat)
    requires Enabled(s, e) && r in Apply(s, e).db.reqs
    ensures r in s.db.reqs ==> TI.SameParameters(s.db.reqs[r], Apply(s, e).db.reqs[r])
    ensures r !in s.db.reqs ==>
      && e.StartTransfer? && e.r == r
      && e.key == Apply(s, e).db.reqs[r].key && e.amount == Apply(s, e).db.reqs[r].amount
      && SessionUser(s.sessions, e.sid) == Some(Apply(s, e).db.reqs[r].sender)
  {
    DbOfStep(s, e);
    if e.InDb? {
      DbRequestStep(s.db, e.e, r);
    } else if e.RunAck? {
      DbRequestStep(s.db, T.Ack(s.acks[e.a].user, s.acks[e.a].note), r);
    }
  }

  lemma DbRequestStep(db: T.Db, d: T.Event, r: nat)
    requires T.Enabled(db, d) && r in T.Apply(db, d).reqs && !d.Submit?
    ensures r in db.reqs && TI.SameParameters(db.reqs[r], T.Apply(db, d).reqs[r])
  {
  }

  // ---------------------------------------------------------------- who acknowledges

  /** The i-th step checks the session of an acknowledgement by user. */
  ghost predicate AckStartedAt(ss: seq<Sys>, es: seq<Event>, i: nat, a: nat, sid: string, user: int, note: int)
    requires |ss| == |es| + 1
  {
    i < |es| && es[i] == StartAck(a, sid, note) && SessionUser(ss[i].sessions, sid) == Some(user)
  }

  lemma {:induction false} AckStart(ss: seq<Sys>, es: seq<Event>, n: nat, a: nat) returns (i: nat, sid: string)
    requires IsRun(ss, es) && n < |ss| && a in ss[n].acks && ss[n].acks[a].Acking?
    ensures i < n && AckStartedAt(ss, es, i, a, sid, ss[n].acks[a].user, ss[n].acks[a].note)
  {
    var s, e := ss[n - 1], es[n - 1];
    assert Follows(ss, es, n - 1);
    if a in s.acks && s.acks[a] == ss[n].acks[a] {
      i, sid := AckStart(ss, es, n - 1, a);
    } else {
      i, sid := n - 1, e.sid;
    }
  }

  lemma LogOfStep(s: Sys, e: Event, k: nat)
    requires Enabled(s, e) && k < |Apply(s, e).db.log| && Apply(s, e).db.log[k].Acked?
    ensures k < |s.db.log| ==> Apply(s, e).db.log[k] == s.db.log[k]
    ensures k >= |s.db.log| ==> e.RunAck? && Apply(s, e).db.log[k] == Acked(s.acks[e.a].user, s.acks[e.a].note)
  {
    DbOfStep(s, e);
    if e.InDb? {
      DbLogStep(s.db, e.e, k);
    }
  }

  lemma DbLogStep(db: T.Db, d: T.Event, k: nat)
    requires T.Enabled(db, d) && !d.Ack? && k < |T.Apply(db, d).log| && T.Apply(db, d).log[k].Acked?
    ensures k < |db.log| && T.Apply(db, d).log[k] == db.log[k]
  {
  }

  /** Every acknowledgement in the tables was asked for under a session that resolved to
      its user, so only the owner's own session turns a notification read. */
  lemma {:induction false} AckOrigin(ss: seq<Sys>, es: seq<Event>, n: nat, k: nat)
    returns (i: nat, j: nat, a: nat, sid: string)
    requires IsRun(ss, es) && n < |ss| && k < |ss[n].db.log| && ss[n].db.log[k].Acked?
    ensures i < j < n && es[j] == RunAck(a)
    ensures AckStartedAt(ss, es, i, a, sid, ss[n].db.log[k].user, ss[n].db.log[k].note)
  {
    var s, e := ss[n - 1], es[n - 1];
    assert Follows(ss, es, n - 1);
    LogOfStep(s, e, k);
    if k < |s.db.log| {
      i, j, a, sid := AckOrigin(ss, es, n - 1, k);
    } else {
      j, a := n - 1, e.a;
      i, sid := AckStart(ss, es, n - 1, a);
    }
  }

  // ---------------------------------------------------------------- from debit to login

  /** bcrypt's answers in the run are those of one function of password and hash. */
  ghost predicate AnswersOf(verify: (string, string) -> bool, ss: seq<Sys>, es: seq<Event>)
    requires |ss| == |es| + 1
  {
    forall i :: 0 <= i < |es| && es[i].LoginVerify? && Enabled(ss[i], es[i]) ==>
      es[i].ok == verify(ss[i].logins[es[i].l].password, ss[i].logins[es[i].l].entry.passwordHash)
  }

  /** Every committed debit of a user traces back to a login that verified a password
      against that user's own hash; the session it opened stayed live, neither deleted
      nor expired nor wiped, until the transfer's session check. */
  lemma DebitTracesToLogin(
    ss: seq<Sys>, es: seq<Event>, n: nat, k: nat, verify: (string, string) -> bool)
    returns (i: nat, j: nat, sid: string)
    requires IsRun(ss, es) && n < |ss| && AnswersOf(verify, ss, es)
    requires k < |ss[n].db.log| && ss[n].db.log[k].Transferred?
    ensures
      var op := ss[n].db.log[k];
      && i < j < n
      && es[j] == StartTransfer(op.req, sid, op.key, op.amount)
      && LiveThroughout(ss, i + 1, j, sid)
      && LoginAt(ss, es, i, sid, op.sender)
      && op.sender in T.Current(ss[i].db).users
      && verify(ss[i].logins[es[i].l].password, T.Current(ss[i].db).users[op.sender].passwordHash)
  {
    var s, op := ss[n], ss[n].db.log[k];
    RunInv(ss, es, n);
    assert TI.OnceAt(s.db, k);
    assert TI.ReqOK(s.db, op.req, s.db.reqs[op.req]);
    j, sid := RequestOrigin(ss, es, n, op.req);
    var user;
    i, user := SessionOrigin(ss, es, j, sid);
    RunInv(ss, es, i);
    assert Follows(ss, es, i);
    var login := ss[i].logins[es[i].l];
    assert LoginOK(ss[i].db, login);
    CurrentLedger(ss[i].db);
    AtoiItoa(user);
  }
}
