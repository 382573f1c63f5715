/** How far the balance hash and the user cache may lag behind the users table, and exactly
    when they do not. */
module Staleness {
  import opened Base
  import opened Decimal
  import opened Ledger
  import T = Transactions
  import TI = TransactionInvariants
  import G = Guarantees
  import opened System
  import opened SystemInvariants
  import SG = SystemGuarantees
  import R = Runtime

  // ---------------------------------------------------------------- what later transfers move

  /** Receipts minus payments of u. */
  function Net(ts: seq<Transfer>, u: int): int {
    Received(ts, u) - Sent(ts, u)
  }

  lemma {:induction false} NetSplits(a: seq<Transfer>, b: seq<Transfer>, u: int)
    ensures Net(a + b, u) == Net(a, u) + Net(b, u)
    decreases |b|
  {
    if b == [] {
      assert a + b == a;
    } else {
      var n := |b| - 1;
      NetSplits(a, b[..n], u);
      assert a + b == (a + b[..n]) + [b[n]] && b == b[..n] + [b[n]];
      SumsAppend(a + b[..n], b[n], u);
      SumsAppend(b[..n], b[n], u);
    }
  }

  /** The transfers committed after state k. */
  function After(db: T.Db, k: nat): seq<Transfer>
    requires k < |db.hist|
  {
    var ts, n := T.Current(db).transfers, |db.hist[k].transfers|;
    if n <= |ts| then ts[n..] else []
  }

  lemma BalanceIsNet(db: T.Db, k: nat, u: int)
    requires TI.HistoryOK(db) && k < |db.hist| && u in db.hist[k].users
    ensures db.hist[k].users[u].balance == OPENING_BALANCE + Net(db.hist[k].transfers, u)
  {
    TI.HistoryLedger(db, k);
  }

  /** From a committed state to now a balance moves by the net of the transfers since. */
  lemma BalanceMovesByNet(db: T.Db, k: nat, u: int)
    requires TI.Inv(db) && k < |db.hist| && u in db.hist[k].users
    ensures u in T.Current(db).users
    ensures T.Current(db).users[u].balance == db.hist[k].users[u].balance + Net(After(db, k), u)
  {
    var last := |db.hist| - 1;
    TI.HistoryUsers(db, k, last);
    BalanceIsNet(db, k, u);
    BalanceIsNet(db, last, u);
    G.TransfersOnlyGrow(db, k, last);
    var was, now := db.hist[k].transfers, db.hist[last].transfers;
    assert now == was + After(db, k);
    NetSplits(was, After(db, k), u);
  }

  lemma {:induction false} RunExtends(ss: seq<Sys>, es: seq<Event>, i: nat, n: nat)
    requires IsRun(ss, es) && i <= n < |ss|
    ensures Extends(ss[i].db, ss[n].db)
    decreases n
  {
    if i < n {
      RunExtends(ss, es, i, n - 1);
      assert Follows(ss, es, n - 1);
      R.StepExtends(ss[n - 1], es[n - 1]);
      R.ExtendsTransitive(ss[i].db, ss[n - 1].db, ss[n].db);
    }
  }

  // ---------------------------------------------------------------- writes to the hash

  datatype Write = Write(user: int, balance: int)

  /** The field a step writes, if any. */
  function WriteOf(s: Sys, e: Event): Option<Write> {
    match e
    case HsetSender(r) =>
      if r in s.db.reqs then Some(Write(EventOf(s, r).senderId, EventOf(s, r).senderBalance)) else None
    case HsetReceiver(r) =>
      if r in s.db.reqs then Some(Write(EventOf(s, r).receiverId, EventOf(s, r).receiverBalance)) else None
    case ProjectSender(i, _, done) =>
      if done && i < |s.stream| then Some(Write(s.stream[i].evt.senderId, s.stream[i].evt.senderBalance)) else None
    case ProjectReceiver(i, _, done) =>
      if done && i < |s.stream| then Some(Write(s.stream[i].evt.receiverId, s.stream[i].evt.receiverBalance)) else None
    case BalanceFill(q, done) =>
      if done && q in s.queries && s.queries[q].Filling?
      then Some(Write(s.queries[q].user, s.queries[q].balance)) else None
    case _ => None
  }

  function HashAfter(s: Sys, w: Option<Write>): map<string, string> {
    if w.Some? then Hset(s.hash, w.value.user, w.value.balance) else s.hash
  }

  lemma HashOfPost(s: Sys, e: Event)
    requires OfPost(e) && PostEnabled(s, e)
    ensures PostStep(s, e).hash == HashAfter(s, WriteOf(s, e))
  {
  }

  lemma HashOfConsumer(s: Sys, e: Event)
    requires OfConsumer(e) && ConsumerEnabled(s, e)
    ensures ConsumerStep(s, e).hash == HashAfter(s, WriteOf(s, e))
  {
  }

  lemma HashOfBalance(s: Sys, e: Event)
    requires OfBalance(e) && BalanceEnabled(s, e)
    ensures BalanceStep(s, e).hash == HashAfter(s, WriteOf(s, e))
  {
  }

  lemma HashOfStep(s: Sys, e: Event)
    requires Enabled(s, e)
    ensures Apply(s, e).hash == if e.WipeRedis? then map[] else HashAfter(s, WriteOf(s, e))
  {
    if OfPost(e) {
      HashOfPost(s, e);
    } else if OfConsumer(e) {
      HashOfConsumer(s, e);
    } else if OfBalance(e) {
      HashOfBalance(s, e);
    }
  }

  predicate Writes(s: Sys, e: Event, u: int) {
    WriteOf(s, e).Some? && WriteOf(s, e).value.user == u
  }

  /** The step writes a balance of the state that its transfer's commit produced. */
  ghost predicate WritesEventOf(s: Sys, e: Event, k: nat) {
    match e
    case HsetSender(r) => r in s.db.reqs && s.db.reqs[r].phase.Committed? && k == s.db.reqs[r].phase.index + 1
    case HsetReceiver(r) => r in s.db.reqs && s.db.reqs[r].phase.Committed? && k == s.db.reqs[r].phase.index + 1
    case ProjectSender(m, _, _) => m < |s.stream| && CommittedEvent(s.db, s.stream[m].evt, k - 1)
    case ProjectReceiver(m, _, _) => m < |s.stream| && CommittedEvent(s.db, s.stream[m].evt, k - 1)
    case _ => false
  }

  /** The i-th step wrote u's field, with a balance taken from committed state k: the state
      the transfer produced, or the one the back-filling request read. */
  ghost predicate Carries(ss: seq<Sys>, es: seq<Event>, i: nat, u: int, k: nat)
    requires |ss| == |es| + 1
  {
    && i < |es| && Writes(ss[i], es[i], u) && k < |ss[i].db.hist| && u in ss[i].db.hist[k].users
    && if es[i].BalanceFill? then
         exists j: nat :: j < i && FillReadAt(ss, es, i, es[i].q, u, j) && k == |ss[j].db.hist| - 1
       else WritesEventOf(ss[i], es[i], k)
  }

  /** The balance about to be filled in was read by the j-th step. */
  ghost predicate FillReadAt(ss: seq<Sys>, es: seq<Event>, i: nat, q: nat, u: int, j: nat)
    requires |ss| == |es| + 1 && i < |ss|
  {
    && q in ss[i].queries && ss[i].queries[q].Filling? && ss[i].queries[q].user == u
    && SG.ReadAt(ss, es, j, q, u, ss[i].queries[q].balance)
  }

  lemma {:induction false} FillSource(ss: seq<Sys>, es: seq<Event>, n: nat, q: nat) returns (j: nat)
    requires IsRun(ss, es) && n < |ss| && q in ss[n].queries && ss[n].queries[q].Filling?
    ensures j < n && FillReadAt(ss, es, n, q, ss[n].queries[q].user, j)
  {
    var s, e := ss[n - 1], es[n - 1];
    assert Follows(ss, es, n - 1);
    if q in s.queries && s.queries[q] == ss[n].queries[q] {
      j := FillSource(ss, es, n - 1, q);
    } else {
      j := n - 1;
      RunInv(ss, es, n - 1);
      SG.QueryChangedBy(s, e, q);
      FillingOnlyByQuery(s, e, q);
    }
  }

  lemma FillingOnlyByQuery(s: Sys, e: Event, q: nat)
    requires OfBalance(e) && BalanceEnabled(s, e) && e.q == q && BalanceStep(s, e).queries[q].Filling?
    ensures e == BalanceQuery(q)
    ensures
      var users, now := T.Current(s.db).users, BalanceStep(s, e).queries[q];
      now.user in users && users[now.user].balance == now.balance
  {
  }

  /** Every write carries the balance of some committed state. */
  lemma WriteCarries(ss: seq<Sys>, es: seq<Event>, i: nat, u: int) returns (k: nat)
    requires IsRun(ss, es) && i < |es| && Writes(ss[i], es[i], u)
    ensures Carries(ss, es, i, u, k)
  {
    assert Follows(ss, es, i);
    if es[i].BalanceFill? {
      var j := FillSource(ss, es, i, es[i].q);
      RunInv(ss, es, j);
      FillBalance(ss, es, i, es[i].q, u, j);
      k := |ss[j].db.hist| - 1;
    } else {
      RunInv(ss, es, i);
      k := EventState(ss[i], es[i]);
      EventBalance(ss[i], es[i], u, k);
    }
  }

  lemma EventState(s: Sys, e: Event) returns (k: nat)
    requires Inv(s) && Enabled(s, e) && WriteOf(s, e).Some? && !e.BalanceFill?
    ensures WritesEventOf(s, e, k)
  {
    match e
    case HsetSender(r) => k := s.db.reqs[r].phase.index + 1;
    case HsetReceiver(r) => k := s.db.reqs[r].phase.index + 1;
    case ProjectSender(m, _, _) => k := MessageState(s, m);
    case ProjectReceiver(m, _, _) => k := MessageState(s, m);
  }

  lemma MessageState(s: Sys, m: nat) returns (k: nat)
    requires StreamOK(s) && m < |s.stream|
    ensures k > 0 && CommittedEvent(s.db, s.stream[m].evt, k - 1)
  {
    assert MessageOK(s.db, s.clock, s.stream[m]);
    var j :| CommittedEvent(s.db, s.stream[m].evt, j);
    k := j + 1;
  }

  lemma EventBalances(db: T.Db, evt: TransferCompleted, k: nat)
    requires k > 0 && CommittedEvent(db, evt, k - 1)
    ensures evt.senderId in db.hist[k].users && evt.senderBalance == db.hist[k].users[evt.senderId].balance
    ensures evt.receiverId in db.hist[k].users && evt.receiverBalance == db.hist[k].users[evt.receiverId].balance
  {
  }

  lemma FillBalance(ss: seq<Sys>, es: seq<Event>, i: nat, q: nat, u: int, j: nat)
    requires IsRun(ss, es) && j < i < |ss| && FillReadAt(ss, es, i, q, u, j) && ss[j].db.hist != []
    ensures
      var k := |ss[j].db.hist| - 1;
      && k < |ss[i].db.hist| && u in ss[i].db.hist[k].users
      && ss[i].queries[q] == Filling(u, ss[i].db.hist[k].users[u].balance)
  {
    RunExtends(ss, es, j, i);
    var k := |ss[j].db.hist| - 1;
    assert ss[i].db.hist[k] == ss[j].db.hist[k];
  }

  lemma EventBalance(s: Sys, e: Event, u: int, k: nat)
    requires Inv(s) && Writes(s, e, u) && WritesEventOf(s, e, k)
    ensures k < |s.db.hist| && u in s.db.hist[k].users
    ensures WriteOf(s, e) == Some(Write(u, s.db.hist[k].users[u].balance))
  {
    match e
    case HsetSender(r) =>
      RequestEventGenuine(s, r);
      EventBalances(s.db, EventOf(s, r), k);
    case HsetReceiver(r) =>
      RequestEventGenuine(s, r);
      EventBalances(s.db, EventOf(s, r), k);
    case ProjectSender(m, _, _) =>
      EventBalances(s.db, s.stream[m].evt, k);
    case ProjectReceiver(m, _, _) =>
      EventBalances(s.db, s.stream[m].evt, k);
  }

  lemma CarriedBalance(ss: seq<Sys>, es: seq<Event>, i: nat, u: int, k: nat)
    requires IsRun(ss, es) && Carries(ss, es, i, u, k)
    ensures WriteOf(ss[i], es[i]) == Some(Write(u, ss[i].db.hist[k].users[u].balance))
  {
    if es[i].BalanceFill? {
      var j: nat :| j < i && FillReadAt(ss, es, i, es[i].q, u, j) && k == |ss[j].db.hist| - 1;
      FillBalance(ss, es, i, es[i].q, u, j);
    } else {
      RunInv(ss, es, i);
      EventBalance(ss[i], es[i], u, k);
    }
  }

  // ---------------------------------------------------------------- the hash, exactly

  /** From the n-th state back to the i-th no step writes u's field or empties the hash. */
  ghost predicate Undisturbed(ss: seq<Sys>, es: seq<Event>, i: nat, n: nat, u: int)
    requires |ss| == |es| + 1
  {
    forall m {:trigger es[m]} :: i <= m < n && m < |es| ==> !es[m].WipeRedis? && !Writes(ss[m], es[m], u)
  }

  /** i is the last write of u's field before the n-th state, and it carried state k. */
  ghost predicate LastWrite(ss: seq<Sys>, es: seq<Event>, n: nat, u: int, i: nat, k: nat)
    requires |ss| == |es| + 1
  {
    i < n < |ss| && Carries(ss, es, i, u, k) && Undisturbed(ss, es, i + 1, n, u)
  }

  lemma FieldStays(s: Sys, e: Event, u: int)
    requires Enabled(s, e) && !e.WipeRedis? && !Writes(s, e, u)
    ensures Itoa(u) in Apply(s, e).hash <==> Itoa(u) in s.hash
    ensures Itoa(u) in s.hash ==> Apply(s, e).hash[Itoa(u)] == s.hash[Itoa(u)]
  {
    HashOfStep(s, e);
    var w := WriteOf(s, e);
    if w.Some? && Itoa(w.value.user) == Itoa(u) {
      ItoaInjective(w.value.user, u);
    }
  }

  /** Every field in the hash has a last write. */
  lemma {:induction false} FieldHasLastWrite(ss: seq<Sys>, es: seq<Event>, n: nat, u: int) returns (i: nat, k: nat)
    requires IsRun(ss, es) && n < |ss| && Itoa(u) in ss[n].hash
    ensures LastWrite(ss, es, n, u, i, k)
  {
    var s, e := ss[n - 1], es[n - 1];
    assert Follows(ss, es, n - 1);
    HashOfStep(s, e);
    if Writes(s, e, u) {
      i := n - 1;
      k := WriteCarries(ss, es, i, u);
    } else {
      FieldStays(s, e, u);
      i, k := FieldHasLastWrite(ss, es, n - 1, u);
    }
  }

  lemma {:induction false} FieldUntouched(ss: seq<Sys>, es: seq<Event>, i: nat, n: nat, u: int)
    requires IsRun(ss, es) && i <= n < |ss| && Undisturbed(ss, es, i, n, u) && Itoa(u) in ss[i].hash
    ensures Itoa(u) in ss[n].hash && ss[n].hash[Itoa(u)] == ss[i].hash[Itoa(u)]
    decreases n
  {
    if i < n {
      FieldUntouched(ss, es, i, n - 1, u);
      assert Follows(ss, es, n - 1);
      FieldStays(ss[n - 1], es[n - 1], u);
    }
  }

  lemma FieldIsCarried(ss: seq<Sys>, es: seq<Event>, n: nat, u: int, i: nat, k: nat)
    requires IsRun(ss, es) && LastWrite(ss, es, n, u, i, k)
    ensures k < |ss[n].db.hist| && u in ss[n].db.hist[k].users
    ensures Itoa(u) in ss[n].hash && ss[n].hash[Itoa(u)] == Itoa(ss[n].db.hist[k].users[u].balance)
  {
    CarriedBalance(ss, es, i, u, k);
    assert Follows(ss, es, i);
    HashOfStep(ss[i], es[i]);
    FieldUntouched(ss, es, i + 1, n, u);
    RunExtends(ss, es, i, n);
    assert ss[n].db.hist[k] == ss[i].db.hist[k];
  }

  /** In every run: the field of a user, last written from committed state k, is the
      balance of state k; and it equals the users table if and only if the user's
      transfers after state k net to zero. */
  lemma HashFieldCurrentIff(ss: seq<Sys>, es: seq<Event>, n: nat, u: int, i: nat, k: nat)
    requires IsRun(ss, es) && LastWrite(ss, es, n, u, i, k)
    ensures k < |ss[n].db.hist| && u in ss[n].db.hist[k].users && u in T.Current(ss[n].db).users
    ensures Itoa(u) in ss[n].hash && ss[n].hash[Itoa(u)] == Itoa(ss[n].db.hist[k].users[u].balance)
    ensures ss[n].hash[Itoa(u)] == Itoa(T.Current(ss[n].db).users[u].balance) <==> Net(After(ss[n].db, k), u) == 0
  {
    FieldIsCarried(ss, es, n, u, i, k);
    RunInv(ss, es, n);
    BalanceMovesByNet(ss[n].db, k, u);
    var was, now := ss[n].db.hist[k].users[u].balance, T.Current(ss[n].db).users[u].balance;
    if Itoa(was) == Itoa(now) {
      ItoaInjective(was, now);
    }
  }

  /** In particular the field is current when no transfer of the user committed since. */
  lemma HashFieldCurrentWithoutTransfers(ss: seq<Sys>, es: seq<Event>, n: nat, u: int, i: nat, k: nat)
    requires IsRun(ss, es) && LastWrite(ss, es, n, u, i, k) && k < |ss[n].db.hist|
    requires forall x :: x in After(ss[n].db, k) ==> x.fromUser != u && x.toUser != u
    ensures Itoa(u) in ss[n].hash && u in T.Current(ss[n].db).users
    ensures ss[n].hash[Itoa(u)] == Itoa(T.Current(ss[n].db).users[u].balance)
  {
    SumsOfStranger(After(ss[n].db, k), u);
    HashFieldCurrentIff(ss, es, n, u, i, k);
  }

  // ---------------------------------------------------------------- the user cache, exactly

  /** The j-th step queried the user record u, on committed state k. */
  ghost predicate RecordReadAt(ss: seq<Sys>, es: seq<Event>, j: nat, u: User, k: nat)
    requires |ss| == |es| + 1
  {
    && j < |es| && es[j].LoginQuery? && es[j].pick == Some(u.id)
    && k + 1 == |ss[j].db.hist| && u.id in ss[j].db.hist[k].users && ss[j].db.hist[k].users[u.id] == u
  }

  lemma {:induction false} LoginRecordSource(ss: seq<Sys>, es: seq<Event>, n: nat, l: nat) returns (j: nat, k: nat)
    requires IsRun(ss, es) && n < |ss| && l in ss[n].logins && ss[n].logins[l].Caching?
    ensures j < n && RecordReadAt(ss, es, j, ss[n].logins[l].entry, k)
  {
    var s, e := ss[n - 1], es[n - 1];
    assert Follows(ss, es, n - 1);
    RunInv(ss, es, n - 1);
    if l in s.logins && s.logins[l].Caching? && (!OfLogin(e) || e.l != l || e.CachePhone?) {
      j, k := LoginRecordSource(ss, es, n - 1, l);
      CachingKeepsRecord(s, e, l);
    } else {
      CachingStarts(s, e, l);
      CurrentLedger(s.db);
      j, k := n - 1, |s.db.hist| - 1;
    }
  }

  lemma CachingKeepsRecord(s: Sys, e: Event, l: nat)
    requires Enabled(s, e) && l in s.logins && s.logins[l].Caching?
    requires l in Apply(s, e).logins && Apply(s, e).logins[l].Caching?
    ensures Apply(s, e).logins[l].entry == s.logins[l].entry
  {
  }

  /** A record to cache comes from the login's own query. */
  lemma CachingStarts(s: Sys, e: Event, l: nat)
    requires Enabled(s, e) && l in Apply(s, e).logins && Apply(s, e).logins[l].Caching?
    requires !(l in s.logins && s.logins[l].Caching? && (!OfLogin(e) || e.l != l || e.CachePhone?))
    ensures e.LoginQuery? && e.l == l && e.pick.Some? && e.pick.value in T.Current(s.db).users
    ensures Apply(s, e).logins[l].entry == T.Current(s.db).users[e.pick.value]
  {
    if OfLogin(e) {
      LoginCaching(s, e, l);
    }
  }

  lemma LoginCaching(s: Sys, e: Event, l: nat)
    requires OfLogin(e) && LoginEnabled(s, e) && l in LoginStep(s, e).logins && LoginStep(s, e).logins[l].Caching?
    requires !(l in s.logins && s.logins[l].Caching? && (e.l != l || e.CachePhone?))
    ensures e.LoginQuery? && e.l == l && e.pick.Some? && e.pick.value in T.Current(s.db).users
    ensures LoginStep(s, e).logins[l].entry == T.Current(s.db).users[e.pick.value]
  {
  }

  ghost predicate CacheWrite(s: Sys, e: Event, u: User) {
    (e.CachePhone? || e.CacheUsername?) && e.l in s.logins && s.logins[e.l].Caching? && u == s.logins[e.l].entry
  }

  lemma CacheOfLogin(s: Sys, e: Event, key: CacheKey)
    requires OfLogin(e) && LoginEnabled(s, e) && key in LoginStep(s, e).cache
    ensures
      var now := LoginStep(s, e).cache;
      (key in s.cache && now[key] == s.cache[key]) || CacheWrite(s, e, now[key])
  {
  }

  lemma CacheOfPost(s: Sys, e: Event, key: CacheKey)
    requires OfPost(e) && PostEnabled(s, e) && key in PostStep(s, e).cache
    ensures key in s.cache && PostStep(s, e).cache[key] == s.cache[key]
  {
  }

  lemma CacheOfStep(s: Sys, e: Event, key: CacheKey)
    requires Enabled(s, e) && key in Apply(s, e).cache
    ensures (key in s.cache && Apply(s, e).cache[key] == s.cache[key]) || CacheWrite(s, e, Apply(s, e).cache[key])
  {
    if OfLogin(e) {
      CacheOfLogin(s, e, key);
    } else if OfPost(e) {
      CacheOfPost(s, e, key);
    } else {
      CacheOfOther(s, e, key);
    }
  }

  lemma CacheOfOther(s: Sys, e: Event, key: CacheKey)
    requires Enabled(s, e) && !OfLogin(e) && !OfPost(e) && key in Apply(s, e).cache
    ensures key in s.cache && Apply(s, e).cache[key] == s.cache[key]
  {
  }

  lemma {:induction false} CacheRecordSource(ss: seq<Sys>, es: seq<Event>, n: nat, key: CacheKey)
    returns (j: nat, k: nat)
    requires IsRun(ss, es) && n < |ss| && key in ss[n].cache
    ensures j < n && RecordReadAt(ss, es, j, ss[n].cache[key], k)
  {
    var s, e := ss[n - 1], es[n - 1];
    assert Follows(ss, es, n - 1);
    CacheOfStep(s, e, key);
    if key in s.cache && ss[n].cache[key] == s.cache[key] {
      j, k := CacheRecordSource(ss, es, n - 1, key);
    } else {
      j, k := LoginRecordSource(ss, es, n - 1, e.l);
    }
  }

  /** In every run: a cached record was read by a login's query on some committed state k,
      and its balance equals the users table if and only if the user's transfers after
      state k net to zero. */
  lemma CachedBalanceCurrentIff(ss: seq<Sys>, es: seq<Event>, n: nat, key: CacheKey) returns (j: nat, k: nat)
    requires IsRun(ss, es) && n < |ss| && key in ss[n].cache
    ensures j < n && RecordReadAt(ss, es, j, ss[n].cache[key], k)
    ensures
      var u := ss[n].cache[key];
      && k < |ss[n].db.hist| && u.id in T.Current(ss[n].db).users
      && (u.balance == T.Current(ss[n].db).users[u.id].balance <==> Net(After(ss[n].db, k), u.id) == 0)
  {
    j, k := CacheRecordSource(ss, es, n, key);
    RunExtends(ss, es, j, n);
    RunInv(ss, es, n);
    assert ss[n].db.hist[k] == ss[j].db.hist[k];
    BalanceMovesByNet(ss[n].db, k, ss[n].cache[key].id);
  }
}
