/** Balance reads as the program runs them. */
module AccountService {
  import opened Base
  import opened Decimal
  import opened Ledger
  import T = Transactions
  import TI = TransactionInvariants
  import opened System
  import SI = SystemInvariants
  import opened Runtime

  /** HGET: a hit, a miss, or None when the stored value does not parse. */
  method GetBalance(w: World, user: int) returns (found: bool, balance: Option<int>)
    requires w.Valid()
    ensures found <==> Itoa(user) in w.now.hash
    ensures found ==>
      && balance.Some? && Atoi(w.now.hash[Itoa(user)]) == balance
      && w.now.hash[Itoa(user)] == Itoa(balance.value) && SI.Had(w.now.db, user, balance.value)
  {
    found := Itoa(user) in w.now.hash;
    balance := None;
    if found {
      assert Spelled(0);
      SI.HitIsReal(w.now, user);
      balance := Atoi(w.now.hash[Itoa(user)]);
    }
  }

  /** RequireSession around handleBalance, for invocation q. checked and looked are the
      states that the session check and the HGET met, readAt the database the query read.
      Whatever everybody else does meanwhile, the answer is for the session's user: on a
      hit it is the hash's value, on a miss the balance committed when the query ran, even
      when the back-fill fails; and it is always a balance the user really had. A valid
      session is never told that its user does not exist. */
  method HandleBalance(w: World, q: nat, sid: string, env: Env)
    returns (status: int, user: int, balance: int, missed: bool,
      ghost checked: Sys, ghost looked: Sys, ghost readAt: T.Db)
    requires w.Valid() && q !in w.now.queries
    modifies w
    ensures w.Valid() && status in {200, 401, 500}
    ensures Rely(Reader(q), old(w.now), checked) && (env(0).others == [] ==> checked == old(w.now))
    ensures status == 401 <==> env(0).Replied() && SessionUser(checked.sessions, sid).None?
    ensures status == 500 <==>
      || !env(0).Replied()
      || (SessionUser(checked.sessions, sid).Some?
          && (!env(1).Replied() || (missed && !env(2).Replied())))
    ensures env(0).Replied() && SessionUser(checked.sessions, sid).Some? && env(1).Replied() ==>
      (missed <==> Itoa(SessionUser(checked.sessions, sid).value) !in looked.hash)
    ensures status == 200 ==>
      && SessionUser(checked.sessions, sid) == Some(user)
      && q in w.now.queries && w.now.queries[q] == Answered(user, balance) && SI.Had(w.now.db, user, balance)
    ensures status == 200 ==>
      && SI.Extends(checked.db, looked.db) && SI.Extends(looked.db, w.now.db)
      && (missed <==> Itoa(user) !in looked.hash)
    ensures status == 200 && env(1).others == [] ==> looked == checked.(queries := looked.queries)
    ensures status == 200 && !missed ==> looked.hash[Itoa(user)] == Itoa(balance)
    ensures status == 200 && !missed ==> w.now == looked.(queries := w.now.queries)
    ensures status == 200 && missed && env(2).others == [] ==> readAt == looked.db
    ensures status == 200 && missed && env(3).Executed() ==>
      Itoa(user) in w.now.hash && Atoi(w.now.hash[Itoa(user)]) == Some(balance)
    ensures status == 200 && missed ==>
      && SI.Extends(looked.db, readAt) && SI.Extends(readAt, w.now.db)
      && user in T.Current(readAt).users && T.Current(readAt).users[user].balance == balance
  {
    user, balance, missed, readAt := 0, 0, false, w.now.db;
    w.Interfere(Reader(q), env(0).others);
    checked, looked := w.now, w.now;
    var id := SessionUser(w.now.sessions, sid);
    if !env(0).Replied() || id.None? {
      return if env(0).Replied() then 401 else 500, user, balance, missed, checked, looked, readAt;
    }
    user := id.value;
    w.Do(BalanceStart(q, sid));
    status, balance, missed, looked, readAt := AnswerQuery(w, q, env);
  }

  /** handleBalance behind its session check. */
  method AnswerQuery(w: World, q: nat, env: Env)
    returns (status: int, balance: int, missed: bool, ghost looked: Sys, ghost readAt: T.Db)
    requires w.Valid() && q in w.now.queries && w.now.queries[q].Entered?
    modifies w
    ensures w.Valid() && status in {200, 500} && SI.Extends(old(w.now.db), looked.db)
    ensures env(1).others == [] ==> looked == old(w.now)
    ensures status == 500 <==> !env(1).Replied() || (missed && !env(2).Replied())
    ensures env(1).Replied() ==> (missed <==> Itoa(old(w.now.queries[q].user)) !in looked.hash)
    ensures status == 200 && missed && env(3).Executed() ==>
      && var field := Itoa(old(w.now.queries[q].user));
      && field in w.now.hash && Atoi(w.now.hash[field]) == Some(balance)
    ensures status == 200 && !missed ==> w.now == looked.(queries := w.now.queries)
    ensures status == 200 && missed && env(2).others == [] ==> readAt == looked.db
    ensures status == 200 ==>
      && var user := old(w.now.queries[q].user);
      && q in w.now.queries && w.now.queries[q] == Answered(user, balance) && SI.Had(w.now.db, user, balance)
      && SI.Extends(looked.db, w.now.db) && (missed <==> Itoa(user) !in looked.hash)
      && (!missed ==> looked.hash[Itoa(user)] == Itoa(balance))
      && (missed ==>
            && SI.Extends(looked.db, readAt) && SI.Extends(readAt, w.now.db)
            && user in T.Current(readAt).users && T.Current(readAt).users[user].balance == balance)
  {
    balance, missed, readAt := 0, false, w.now.db;
    w.Interfere(Reader(q), env(1).others);
    looked := w.now;
    if !env(1).Replied() {
      return 500, balance, missed, looked, readAt;
    }
    missed, balance := ReadHash(w, q);
    status := 200;
    if missed {
      status, balance, readAt := QueryAndFill(w, q, env);
      if status == 200 {
        ExtendsTransitive(looked.db, readAt, w.now.db);
      }
    }
  }

  /** The cached balance, which answers the request, or a miss. */
  method ReadHash(w: World, q: nat) returns (missed: bool, balance: int)
    requires w.Valid() && q in w.now.queries && w.now.queries[q].Entered?
    modifies w
    ensures w.Valid() && q in w.now.queries && w.now == old(w.now).(queries := w.now.queries)
    ensures missed <==> Itoa(old(w.now.queries[q].user)) !in old(w.now.hash)
    ensures missed ==> w.now.queries[q] == Missed(old(w.now.queries[q].user))
    ensures !missed ==>
      && var user := old(w.now.queries[q].user);
      && w.now.queries[q] == Answered(user, balance) && old(w.now.hash)[Itoa(user)] == Itoa(balance)
      && SI.Had(w.now.db, user, balance)
  {
    var found, value := GetBalance(w, w.now.queries[q].user);
    w.Do(BalanceGet(q));
    missed := !found;
    balance := if found then value.value else 0;
  }

  /** Cache miss: read the committed balance, then warm the hash; a failing write is
      ignored. */
  method QueryAndFill(w: World, q: nat, env: Env) returns (status: int, balance: int, ghost readAt: T.Db)
    requires w.Valid() && q in w.now.queries && w.now.queries[q].Missed?
    modifies w
    ensures w.Valid() && status in {200, 500}
    ensures status == 500 <==> !env(2).Replied()
    ensures status == 200 && env(2).others == [] ==> readAt == old(w.now.db)
    ensures status == 200 && env(3).Executed() ==>
      && var field := Itoa(old(w.now.queries[q].user));
      && field in w.now.hash && Atoi(w.now.hash[field]) == Some(balance)
    ensures status == 200 ==>
      && var user := old(w.now.queries[q].user);
      && q in w.now.queries && w.now.queries[q] == Answered(user, balance) && SI.Had(w.now.db, user, balance)
      && SI.Extends(old(w.now.db), readAt) && SI.Extends(readAt, w.now.db)
      && user in T.Current(readAt).users && T.Current(readAt).users[user].balance == balance
  {
    ghost var user := w.now.queries[q].user;
    w.Interfere(Reader(q), env(2).others);
    balance, readAt := 0, w.now.db;
    if !env(2).Replied() {
      return 500, balance, readAt;
    }
    balance := QueryBalanceFromDB(w, q);
    ghost var seen := SetBalance(w, q, env(3));
    SI.ExtendsKeepsHad(readAt, w.now.db, user, balance);
    status := 200;
  }

  /** SELECT balance FROM users WHERE id is the session's user. */
  method QueryBalanceFromDB(w: World, q: nat) returns (balance: int)
    requires w.Valid() && q in w.now.queries && w.now.queries[q].Missed?
    modifies w
    ensures w.Valid() && w.now.db == old(w.now.db)
    ensures
      && var user := old(w.now.queries[q].user);
      && user in T.Current(w.now.db).users && T.Current(w.now.db).users[user].balance == balance
      && SI.Had(w.now.db, user, balance) && q in w.now.queries && w.now.queries[q] == Filling(user, balance)
  {
    assert Spelled(0);
    assert SI.QueryOK(w.now.db, w.now.queries[q]);
    SI.CurrentHad(w.now.db, w.now.queries[q].user);
    balance := T.Current(w.now.db).users[w.now.queries[q].user].balance;
    w.Do(BalanceQuery(q));
  }

  predicate SameField(hash: map<string, string>, hash': map<string, string>, user: int) {
    var f := Itoa(user);
    (f in hash <==> f in hash') && (f in hash ==> hash'[f] == hash[f])
  }

  /** HSET of the balance just read; seen is the state it met. When it takes effect, the
      user's field reads back as the balance; no other user's field changes. */
  method SetBalance(w: World, q: nat, m: Move) returns (ghost seen: Sys)
    requires w.Valid() && q in w.now.queries && w.now.queries[q].Filling?
    modifies w
    ensures w.Valid() && SI.Extends(old(w.now.db), w.now.db) && Rely(Reader(q), old(w.now), seen)
    ensures m.others == [] ==> seen == old(w.now)
    ensures w.now == seen.(hash := w.now.hash, queries := w.now.queries)
    ensures q in w.now.queries
    ensures w.now.queries[q] == Answered(old(w.now.queries[q].user), old(w.now.queries[q].balance))
    ensures
      && var user := old(w.now.queries[q].user);
      && (forall other :: other != user ==> SameField(seen.hash, w.now.hash, other))
      && (m.Executed() ==>
            Itoa(user) in w.now.hash && Atoi(w.now.hash[Itoa(user)]) == Some(old(w.now.queries[q].balance)))
      && (!m.Executed() ==> SameField(seen.hash, w.now.hash, user))
  {
    w.Interfere(Reader(q), m.others);
    seen := w.now;
    FillingFits(w.now, q);
    ghost var user := w.now.queries[q].user;
    w.Do(BalanceFill(q, m.Executed()));
    forall other | other != user
      ensures SameField(seen.hash, w.now.hash, other)
    {
      if Itoa(other) == Itoa(user) {
        ItoaInjective(other, user);
      }
    }
  }

  /** A balance read from the database survives printing and parsing. */
  lemma FillingFits(s: Sys, q: nat)
    requires Sound(s) && q in s.queries && s.queries[q].Filling?
    ensures Atoi(Itoa(s.queries[q].balance)) == Some(s.queries[q].balance)
  {
    assert Spelled(0);
    var Filling(u, v) := s.queries[q];
    assert SI.QueryOK(s.db, s.queries[q]);
    var k :| SI.HadAt(s.db, u, v, k);
    TI.SnapshotRows(s.db, k);
    AtoiItoa(v);
  }
}
