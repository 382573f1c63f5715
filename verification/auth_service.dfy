/** Registration, login and logout as the program runs them. */
module AuthService {
  import opened Base
  import opened Decimal
  import opened Ledger
  import T = Transactions
  import TI = TransactionInvariants
  import opened System
  import SI = SystemInvariants
  import opened Runtime

  const MAX_ATTEMPTS: nat := 20

  /** n random digits; draw supplies the randomness. */
  method RandomDigits(n: nat, draw: nat -> nat) returns (s: string)
    ensures |s| == n && AllDigits(s)
    ensures forall i :: 0 <= i < n ==> s[i] == Digit(draw(i) % 10)
  {
    s := "";
    for i := 0 to n
      invariant |s| == i && AllDigits(s)
      invariant forall j :: 0 <= j < i ==> s[j] == Digit(draw(j) % 10)
    {
      s := s + [Digit(draw(i) % 10)];
    }
  }

  method IsDigits(s: string) returns (yes: bool)
    ensures yes <==> s != "" && AllDigits(s)
  {
    if s == "" {
      return false;
    }
    for i := 0 to |s|
      invariant AllDigits(s[..i])
    {
      if !IsDigit(s[i]) {
        return false;
      }
    }
    assert s[..|s|] == s;
    yes := true;
  }

  predicate PhoneTaken(users: map<int, User>, phone: string) {
    exists id :: id in users && users[id].phone == phone
  }

  predicate AccountTaken(users: map<int, User>, account: string) {
    exists id :: id in users && users[id].accountNumber == account
  }

  datatype Insert = Inserted(id: int) | AccountConflict | PhoneConflict | InsertError

  /** The values fit their columns, and the id sequence its type. */
  predicate Storable(db: T.Db, phone: string, username: string, hash: string) {
    |phone| <= 20 && |username| <= 50 && |hash| <= 255 && IsInt64(db.nextUser)
  }

  /** What an INSERT must answer on the given database. */
  ghost predicate InsertAnswer(
    db: T.Db, phone: string, account: string, username: string, hash: string, out: Insert)
  {
    var users := T.Current(db).users;
    && (out.InsertError? <==> !Storable(db, phone, username, hash))
    && (Storable(db, phone, username, hash) ==>
          && (out.AccountConflict? <==> AccountTaken(users, account))
          && (out.PhoneConflict? <==> !AccountTaken(users, account) && PhoneTaken(users, phone)))
  }

  /** INSERT ... ON CONFLICT (account_number) DO NOTHING: a taken account number is
      noticed before the phone constraint. A conflicting insert still burns an id. */
  method InsertUser(w: World, phone: string, account: string, username: string, hash: string) returns (out: Insert)
    requires w.Valid() && AllDigits(account) && |account| == ACCOUNT_DIGITS
    modifies w
    ensures w.Valid() && SI.Extends(old(w.now.db), w.now.db)
    ensures out.Inserted? ==>
      && |w.now.db.log| == |old(w.now.db.log)| + 1
      && w.now.db.log[|w.now.db.log| - 1] == Registered(out.id, phone, account, username, hash)
    ensures !out.Inserted? ==> w.now.db.hist == old(w.now.db.hist) && w.now.db.log == old(w.now.db.log)
    ensures InsertAnswer(old(w.now.db), phone, account, username, hash, out)
  {
    var users := T.Current(w.now.db).users;
    var id := w.now.db.nextUser;
    if |phone| > MAX_PHONE || |username| > MAX_USERNAME || |hash| > MAX_HASH || !IsInt64(id) {
      return InsertError;
    }
    if AccountTaken(users, account) || PhoneTaken(users, phone) {
      w.Statement(T.BurnUserId);
      return if AccountTaken(users, account) then AccountConflict else PhoneConflict;
    }
    assert Spelled(0);
    assert id !in users;
    w.Statement(T.InsertUser(phone, account, username, hash));
    out := Inserted(id);
  }

  /** The account number of one try. */
  function DrawnAccount(draw: (nat, nat) -> nat, attempt: nat): string {
    seq(ACCOUNT_DIGITS, j requires 0 <= j < ACCOUNT_DIGITS => Digit(draw(attempt, j) % 10))
  }

  /** The INSERT of one try: the states before and after it. */
  datatype Try = Try(before: Sys, after: Sys)

  ghost function LastState(start: Sys, tries: seq<Try>): Sys {
    if tries == [] then start else tries[|tries| - 1].after
  }

  /** Between two tries only others act. */
  ghost predicate Chained(start: Sys, tries: seq<Try>, env: Env) {
    tries != [] ==>
      var n := |tries| - 1;
      && Chained(start, tries[..n], env)
      && Rely(Anyone, LastState(start, tries[..n]), tries[n].before)
      && (env(n).others == [] ==> tries[n].before == LastState(start, tries[..n]))
  }

  /** The operations committed by the tries themselves. */
  ghost function Growth(tries: seq<Try>): int {
    if tries == [] then 0
    else
      var n := |tries| - 1;
      Growth(tries[..n]) + |tries[n].after.db.log| - |tries[n].before.db.log|
  }

  /** The tries lead from start to now and committed added operations of their own. */
  ghost predicate Tried(start: Sys, tries: seq<Try>, env: Env, now: Sys, added: int) {
    Chained(start, tries, env) && now == LastState(start, tries) && added == Growth(tries)
  }

  lemma OneMoreTry(start: Sys, tries: seq<Try>, env: Env, met: Sys, added: int, t: Try, rows: int)
    requires Tried(start, tries, env, met, added) && Rely(Anyone, met, t.before)
    requires env(|tries|).others == [] ==> t.before == met
    requires |t.after.db.log| == |t.before.db.log| + rows
    ensures Tried(start, tries + [t], env, t.after, added + rows)
  {
    assert (tries + [t])[..|tries|] == tries;
  }

  /** When nobody else acts, the log grows by what the tries committed. */
  lemma {:induction false} QuietGrowth(start: Sys, tries: seq<Try>, env: Env)
    requires Chained(start, tries, env) && Quiet(env)
    ensures |LastState(start, tries).db.log| == |start.db.log| + Growth(tries)
    decreases |tries|
  {
    if tries != [] {
      QuietGrowth(start, tries[..|tries| - 1], env);
    }
  }

  /** What one try answers: its INSERT's verdict on the state it met, if that arrived. */
  ghost predicate TryAnswer(
    t: Try, phone: string, username: string, hash: string, account: string, m: Move, out: Insert)
  {
    if m.Replied() then InsertAnswer(t.before.db, phone, account, username, hash, out) else out.InsertError?
  }

  /** A try whose answer arrived met a taken account number. */
  ghost predicate MetConflict(t: Try, phone: string, username: string, hash: string, account: string, m: Move) {
    && m.Replied() && Storable(t.before.db, phone, username, hash)
    && AccountTaken(T.Current(t.before.db).users, account)
  }

  ghost predicate AllConflict(
    tries: seq<Try>, n: nat, phone: string, username: string, hash: string, draw: (nat, nat) -> nat, env: Env)
    requires n <= |tries|
  {
    forall k :: 0 <= k < n ==> MetConflict(tries[k], phone, username, hash, DrawnAccount(draw, k), env(k))
  }

  /** How the status follows from the tries: all but the last met a taken number; the last
      decides, and 503 takes twenty. */
  ghost predicate StatusFits(
    status: int, tries: seq<Try>, phone: string, username: string, hash: string, draw: (nat, nat) -> nat, env: Env)
  {
    0 < |tries| <= 20 &&
    var n := |tries| - 1;
    var db, account := tries[n].before.db, DrawnAccount(draw, n);
    var users := T.Current(db).users;
    && AllConflict(tries, n, phone, username, hash, draw, env)
    && (status == 500 <==> !env(n).Replied() || !Storable(db, phone, username, hash))
    && (status == 503 <==>
          env(n).Replied() && Storable(db, phone, username, hash) && AccountTaken(users, account))
    && (status == 503 ==> |tries| == 20)
    && (status == 409 <==>
          && env(n).Replied() && Storable(db, phone, username, hash)
          && !AccountTaken(users, account) && PhoneTaken(users, phone))
    && (status == 201 <==>
          && env(n).Replied() && Storable(db, phone, username, hash)
          && !AccountTaken(users, account) && !PhoneTaken(users, phone))
  }

  /** One registration, with a fresh random account number for each of up to 20 tries, which
      are the only moments it changes anything. added counts the operations its own
      statements commit: exactly one when it answers 201, none otherwise. Which answer it
      gives is decided by the states the tries met. */
  method HandleRegister(
    w: World, phone: string, username: string, hash: Option<string>, draw: (nat, nat) -> nat, env: Env)
    returns (status: int, id: int, account: string, added: int, ghost tries: seq<Try>)
    requires w.Valid()
    modifies w
    ensures w.Valid() && SI.Extends(old(w.now.db), w.now.db)
    ensures status in {201, 400, 409, 500, 503}
    ensures Tried(old(w.now), tries, env, w.now, added) && added == if status == 201 then 1 else 0
    ensures Quiet(env) ==> |w.now.db.log| == |old(w.now.db.log)| + added
    ensures status == 400 <==> phone == "" || !AllDigits(phone)
    ensures status == 400 || hash.None? ==> tries == []
    ensures status != 400 && hash.None? ==> status == 500
    ensures status != 400 && hash.Some? ==> StatusFits(status, tries, phone, username, hash.value, draw, env)
    ensures status == 201 ==>
      hash.Some? && NewRow(old(w.now.db), w.now.db, id, Registered(id, phone, account, username, hash.value))
  {
    id, account, added, tries := 0, "", 0, [];
    var digits := IsDigits(phone);
    if !digits {
      status := 400;
      return;
    }
    if hash.None? {
      status := 500;
      return;
    }
    status, id, account, added, tries := InsertRetrying(w, phone, username, hash.value, draw, env);
    if Quiet(env) {
      QuietGrowth(old(w.now), tries, env);
    }
  }

  method InsertRetrying(
    w: World, phone: string, username: string, hash: string, draw: (nat, nat) -> nat, env: Env)
    returns (status: int, id: int, account: string, added: int, ghost tries: seq<Try>)
    requires w.Valid()
    modifies w
    ensures w.Valid() && SI.Extends(old(w.now.db), w.now.db) && status in {201, 409, 500, 503}
    ensures Tried(old(w.now), tries, env, w.now, added) && added == if status == 201 then 1 else 0
    ensures StatusFits(status, tries, phone, username, hash, draw, env)
    ensures status == 201 ==> NewRow(old(w.now.db), w.now.db, id, Registered(id, phone, account, username, hash))
  {
    id, account, added, tries := 0, "", 0, [];
    ghost var start := w.now;
    for attempt := 0 to MAX_ATTEMPTS
      invariant w.Valid() && SI.Extends(start.db, w.now.db) && |tries| == attempt
      invariant Tried(start, tries, env, w.now, 0) && added == 0
      invariant AllConflict(tries, attempt, phone, username, hash, draw, env)
      invariant attempt == 20 ==> StatusFits(503, tries, phone, username, hash, draw, env)
    {
      var out;
      account, out, added, tries := NextTry(w, phone, username, hash, draw, env, attempt, start, tries);
      if !out.AccountConflict? {
        status := StatusOf(out);
        id := if out.Inserted? then out.id else 0;
        StatusFollows(tries, phone, username, hash, draw, env, out);
        return;
      }
      AnotherConflict(tries, phone, username, hash, draw, env, out);
    }
    status := 503;
  }

  function StatusOf(out: Insert): int {
    match out
    case Inserted(_) => 201
    case AccountConflict => 503
    case PhoneConflict => 409
    case InsertError => 500
  }

  lemma StatusFollows(
    tries: seq<Try>, phone: string, username: string, hash: string, draw: (nat, nat) -> nat, env: Env, out: Insert)
    requires 0 < |tries| <= 20 && AllConflict(tries, |tries| - 1, phone, username, hash, draw, env)
    requires
      var n := |tries| - 1;
      TryAnswer(tries[n], phone, username, hash, DrawnAccount(draw, n), env(n), out)
    requires out.AccountConflict? ==> |tries| == 20
    ensures StatusFits(StatusOf(out), tries, phone, username, hash, draw, env)
  {
  }

  lemma AnotherConflict(
    tries: seq<Try>, phone: string, username: string, hash: string, draw: (nat, nat) -> nat, env: Env, out: Insert)
    requires 0 < |tries| <= 20 && AllConflict(tries, |tries| - 1, phone, username, hash, draw, env)
    requires
      var n := |tries| - 1;
      TryAnswer(tries[n], phone, username, hash, DrawnAccount(draw, n), env(n), out)
    requires out.AccountConflict?
    ensures AllConflict(tries, |tries|, phone, username, hash, draw, env)
    ensures |tries| == 20 ==> StatusFits(503, tries, phone, username, hash, draw, env)
  {
    if |tries| == 20 {
      StatusFollows(tries, phone, username, hash, draw, env, out);
    }
  }

  /** One more try after those already done. */
  method NextTry(
    w: World, phone: string, username: string, hash: string, draw: (nat, nat) -> nat, env: Env, attempt: nat,
    ghost start: Sys, ghost done: seq<Try>)
    returns (account: string, out: Insert, rows: int, ghost tries: seq<Try>)
    requires w.Valid() && SI.Extends(start.db, w.now.db) && |done| == attempt
    requires Tried(start, done, env, w.now, 0) && AllConflict(done, attempt, phone, username, hash, draw, env)
    modifies w
    ensures w.Valid() && SI.Extends(start.db, w.now.db) && |tries| == attempt + 1
    ensures Tried(start, tries, env, w.now, rows) && rows == if out.Inserted? then 1 else 0
    ensures out.Inserted? ==> NewRow(start.db, w.now.db, out.id, Registered(out.id, phone, account, username, hash))
    ensures AllConflict(tries, attempt, phone, username, hash, draw, env)
    ensures TryAnswer(tries[attempt], phone, username, hash, DrawnAccount(draw, attempt), env(attempt), out)
  {
    ghost var before := w.now;
    ghost var t;
    account, out, rows, t := TryInsert(w, phone, username, hash, draw, attempt, env(attempt));
    ExtendsTransitive(start.db, before.db, w.now.db);
    OneMoreTry(start, done, env, before, 0, t, rows);
    tries := done + [t];
  }

  /** op was committed last, and its row is there with the opening balance. */
  ghost predicate NewRow(was: T.Db, now: T.Db, id: int, op: Op)
    requires op.Registered?
  {
    && |op.accountNumber| == 12 && AllDigits(op.accountNumber)
    && |now.log| > |was.log| && now.log[|now.log| - 1] == op
    && id in T.Current(now).users
    && T.Current(now).users[id] ==
         User(id, op.phone, op.accountNumber, op.username, op.passwordHash, 100000, false)
  }

  /** One try: a fresh account number, and one INSERT of it; rows is what the INSERT
      added to the committed operations. */
  method TryInsert(
    w: World, phone: string, username: string, hash: string, draw: (nat, nat) -> nat, attempt: nat, m: Move)
    returns (account: string, out: Insert, rows: int, ghost t: Try)
    requires w.Valid()
    modifies w
    ensures w.Valid() && SI.Extends(old(w.now.db), w.now.db) && t.after == w.now
    ensures Rely(Anyone, old(w.now), t.before) && (m.others == [] ==> t.before == old(w.now))
    ensures |w.now.db.log| == |t.before.db.log| + rows && rows == if out.Inserted? then 1 else 0
    ensures out.Inserted? ==>
      NewRow(old(w.now.db), w.now.db, out.id, Registered(out.id, phone, account, username, hash))
    ensures TryAnswer(t, phone, username, hash, DrawnAccount(draw, attempt), m, out)
  {
    account, rows := "", 0;
    w.Interfere(Anyone, m.others);
    ghost var arrived := w.now;
    out := InsertError;
    if m.Replied() {
      account := RandomDigits(ACCOUNT_DIGITS, i => draw(attempt, i));
      assert account == DrawnAccount(draw, attempt);
      out, rows := CountedInsert(w, phone, account, username, hash);
      ExtendsTransitive(old(w.now.db), arrived.db, w.now.db);
    }
    t := Try(arrived, w.now);
  }

  method CountedInsert(w: World, phone: string, account: string, username: string, hash: string)
    returns (out: Insert, rows: int)
    requires w.Valid() && AllDigits(account) && |account| == ACCOUNT_DIGITS
    modifies w
    ensures w.Valid() && SI.Extends(old(w.now.db), w.now.db)
    ensures |w.now.db.log| == |old(w.now.db.log)| + rows && rows == if out.Inserted? then 1 else 0
    ensures out.Inserted? ==>
      NewRow(old(w.now.db), w.now.db, out.id, Registered(out.id, phone, account, username, hash))
    ensures InsertAnswer(old(w.now.db), phone, account, username, hash, out)
  {
    var committed := |w.now.db.log|;
    out := InsertUser(w, phone, account, username, hash);
    rows := |w.now.db.log| - committed;
    if out.Inserted? {
      assert Spelled(0);
      NewestUser(w.now.db);
    }
  }

  /** A registration that was the last operation has its row in the current state. */
  lemma NewestUser(db: T.Db)
    requires TI.Inv(db) && db.log != [] && db.log[|db.log| - 1].Registered?
    ensures
      && var op, users := db.log[|db.log| - 1], T.Current(db).users;
      && op.id in users
      && users[op.id] == User(op.id, op.phone, op.accountNumber, op.username, op.passwordHash, OPENING_BALANCE, false)
  {
    assert TI.LinkOK(db, |db.log| - 1);
  }

  /** The key the cache is asked for. */
  function LookupKey(phone: string, username: string): CacheKey {
    if phone != "" then PhoneKey(phone) else UsernameKey(username)
  }

  /** The cache after a login that found the record u, in it (hit) or in the database. */
  function CacheAfter(cache: map<CacheKey, User>, hit: bool, u: User, m0: Move, m1: Move): map<CacheKey, User> {
    if hit then cache
    else
      var c := if m0.Executed() then cache[PhoneKey(u.phone) := u] else cache;
      if m0.Replied() && u.username != "" && m1.Executed() then c[UsernameKey(u.username) := u] else c
  }

  /** One login, cache first. token is the session id generated for it, which nobody else
      has; looked is the state the cache lookup met, found the record checked. 200 is
      answered only with a live session for a user with the identifier given, whose own
      password hash, as stored now, accepts the password; 401 only when no user has that
      identifier or one who has it refuses the password; 500 only when a call was not
      answered. A session may exist without a 200 only when the reply to its write was
      lost, and then too it is for a user whose hash accepts the password. */
  method HandleLogin(
    w: World, l: nat, phone: string, username: string, password: string, token: string,
    verify: (string, string) -> bool, env: Env)
    returns (status: int, user: int, ghost looked: Sys, ghost found: Option<User>)
    requires w.Valid() && l !in w.now.logins && token != "" && token !in w.now.usedSids
    modifies w
    ensures w.Valid() && status in {200, 400, 401, 500}
    ensures env(0).others == [] ==> looked == old(w.now)
    ensures status == 200 ==> token in w.now.usedSids
    ensures token in w.now.usedSids ==>
      && status in {200, 500} && SessionUser(w.now.sessions, token) == Some(user)
      && user in T.Current(w.now.db).users
      && (if phone != "" then T.Current(w.now.db).users[user].phone == phone
          else T.Current(w.now.db).users[user].username == username)
      && verify(password, T.Current(w.now.db).users[user].passwordHash)
    ensures status == 400 <==> (phone == "" && username == "") || (phone != "" && !AllDigits(phone))
    ensures status == 401 ==>
      && var users := T.Current(w.now.db).users;
      || (forall id :: id in users ==> if phone != "" then users[id].phone != phone else users[id].username != username)
      || (exists id :: id in users && !verify(password, users[id].passwordHash)
            && if phone != "" then users[id].phone == phone else users[id].username == username)
    ensures status == 500 ==>
      || !env(0).Replied() || (LookupKey(phone, username) !in looked.cache && !env(1).Replied())
      || (found.Some? && verify(password, found.value.passwordHash) && !env(4).Replied())
    ensures status != 400 && !env(0).Replied() ==> status == 500
    ensures status != 400 && LookupKey(phone, username) !in looked.cache && !env(1).Replied() ==> status == 500
    ensures Quiet(env) && found.Some? ==>
      w.now.cache ==
        CacheAfter(old(w.now.cache), LookupKey(phone, username) in looked.cache, found.value, env(2), env(3))
  {
    user, looked, found := 0, w.now, None;
    if phone == "" && username == "" {
      status := 400;
      return;
    }
    var digits := IsDigits(phone);
    if phone != "" && !digits {
      status := 400;
      return;
    }
    var key := UserIdentifierCol("", phone, username);
    var entry;
    status, entry, looked := FindEntry(w, l, token, key, password, env);
    IdentifiersByFields(T.Current(w.now.db).users, phone, username);
    if status == 200 {
      found := Some(entry);
      status := CheckPassword(w, l, token, verify(password, entry.passwordHash), env(4));
      user := entry.id;
      IdentifierByFields(T.Current(w.now.db).users[user], "", phone, username);
      assert status == 401 ==> !verify(password, T.Current(w.now.db).users[user].passwordHash);
    }
  }

  lemma IdentifiersByFields(users: map<int, User>, phone: string, username: string)
    ensures MayReturn(users, UserIdentifierCol("", phone, username), None) <==>
      forall id :: id in users ==> if phone != "" then users[id].phone != phone else users[id].username != username
  {
    forall id | id in users
      ensures Matches(users[id], UserIdentifierCol("", phone, username)) <==>
              if phone != "" then users[id].phone == phone else users[id].username == username
    {
      IdentifierByFields(users[id], "", phone, username);
    }
  }

  /** The password verdict, and the session it opens. */
  method CheckPassword(w: World, l: nat, token: string, ok: bool, m: Move) returns (status: int)
    requires w.Valid() && token != "" && token !in w.now.usedSids && l in w.now.logins && w.now.logins[l].Checking?
    modifies w
    ensures w.Valid() && status in {200, 401, 500}
    ensures status == 200 <==> ok && m.Replied()
    ensures status == 401 <==> !ok
    ensures token in w.now.usedSids <==> ok && m.Executed()
    ensures token in w.now.usedSids ==> SessionUser(w.now.sessions, token) == Some(old(w.now.logins[l].entry.id))
    ensures SI.EntryOK(w.now.db, old(w.now.logins[l].key), old(w.now.logins[l].entry))
    ensures m.others == [] ==>
      w.now == old(w.now).(sessions := w.now.sessions, usedSids := w.now.usedSids, logins := w.now.logins)
  {
    w.Interfere(Visitor(l, token), m.others);
    EntryHolds(w.now, l);
    if !ok {
      w.Do(LoginVerify(l, false, token, true));
      return 401;
    }
    if m.Executed() {
      OpenSession(w, l, token, m.Replied());
    }
    status := if m.Replied() then 200 else 500;
  }

  lemma EntryHolds(s: Sys, l: nat)
    requires Sound(s) && l in s.logins && s.logins[l].Checking?
    ensures SI.EntryOK(s.db, s.logins[l].key, s.logins[l].entry) && IsInt64(s.logins[l].entry.id)
  {
    assert Spelled(0);
    assert SI.LoginOK(s.db, s.logins[l]);
    SI.CurrentLedger(s.db);
  }

  /** SET of a fresh session key, answered or not. */
  method OpenSession(w: World, l: nat, token: string, replied: bool)
    requires w.Valid() && token != "" && token !in w.now.usedSids && l in w.now.logins && w.now.logins[l].Checking?
    modifies w
    ensures w.Valid() && token in w.now.usedSids
    ensures w.now == old(w.now).(sessions := w.now.sessions, usedSids := w.now.usedSids, logins := w.now.logins)
    ensures SessionUser(w.now.sessions, token) == Some(old(w.now.logins[l].entry.id))
  {
    EntryHolds(w.now, l);
    AtoiItoa(w.now.logins[l].entry.id);
    w.Do(LoginVerify(l, true, token, replied));
  }

  /** The cached user, or the queried one with a back-fill of both cache keys. */
  method FindEntry(w: World, l: nat, token: string, key: Key, password: string, env: Env)
    returns (status: int, entry: User, ghost looked: Sys)
    requires w.Valid() && l !in w.now.logins && token !in w.now.usedSids && !key.ByAccount? && key.value != ""
    modifies w
    ensures w.Valid() && token !in w.now.usedSids && status in {200, 401, 500}
    ensures env(0).others == [] ==> looked == old(w.now)
    ensures status == 200 ==> l in w.now.logins && w.now.logins[l] == Checking(key, password, entry)
    ensures status == 401 ==> MayReturn(T.Current(w.now.db).users, key, None)
    ensures status == 500 <==> !env(0).Replied() || (KeyOfCache(key) !in looked.cache && !env(1).Replied())
    ensures Quiet(env) && status == 200 ==>
      w.now.cache == CacheAfter(old(w.now.cache), KeyOfCache(key) in looked.cache, entry, env(2), env(3))
  {
    entry := NO_USER;
    w.Interfere(Visitor(l, token), env(0).others);
    looked := w.now;
    if !env(0).Replied() {
      status := 500;
      return;
    }
    w.Do(LoginLookup(l, key, password));
    if w.now.logins[l].Checking? {
      status, entry := 200, w.now.logins[l].entry;
      return;
    }
    status, entry := QueryEntry(w, l, token, env(1));
    if status == 200 {
      ghost var seen, left, met := BackFill(w, l, token, env(2), env(3));
    }
  }

  method QueryEntry(w: World, l: nat, token: string, m: Move) returns (status: int, entry: User)
    requires w.Valid() && token !in w.now.usedSids && l in w.now.logins && w.now.logins[l].Missing?
    modifies w
    ensures w.Valid() && token !in w.now.usedSids && status in {200, 401, 500} && l in w.now.logins
    ensures status == 200 ==>
      w.now.logins[l] == Caching(old(w.now.logins[l].key), old(w.now.logins[l].password), entry, false)
    ensures status == 401 ==> MayReturn(T.Current(w.now.db).users, old(w.now.logins[l].key), None)
    ensures status == 500 <==> !m.Replied()
    ensures m.others == [] ==> w.now == old(w.now).(logins := w.now.logins)
  {
    entry := NO_USER;
    w.Interfere(Visitor(l, token), m.others);
    if !m.Replied() {
      return 500, entry;
    }
    var users, key := T.Current(w.now.db).users, w.now.logins[l].key;
    if id :| id in users && Matches(users[id], key) {
      entry := users[id];
      w.Do(LoginQuery(l, Some(id)));
      return 200, entry;
    }
    w.Do(LoginQuery(l, None));
    status := 401;
  }

  /** SetUserCache; a failure is logged and the login goes on with the record it has. The
      phone key is written first, on the state seen, which leaves left; the username key
      follows on the state met, if there is a username and the first write was answered. */
  method BackFill(w: World, l: nat, token: string, m0: Move, m1: Move)
    returns (ghost seen: Sys, ghost left: Sys, ghost met: Sys)
    requires w.Valid() && token !in w.now.usedSids
    requires l in w.now.logins && w.now.logins[l].Caching? && !w.now.logins[l].phoneDone
    modifies w
    ensures w.Valid() && token !in w.now.usedSids && l in w.now.logins
    ensures
      && var login := old(w.now.logins[l]);
      && w.now.logins[l] == Checking(login.key, login.password, login.entry)
    ensures Rely(Visitor(l, token), old(w.now), seen) && (m0.others == [] ==> seen == old(w.now))
    ensures
      && var u := old(w.now.logins[l].entry);
      && left == seen.(
           cache := if m0.Executed() then seen.cache[PhoneKey(u.phone) := u] else seen.cache, logins := left.logins)
    ensures Rely(Visitor(l, token), left, met)
    ensures m1.others == [] || !m0.Replied() || old(w.now.logins[l].entry.username) == "" ==> met == left
    ensures
      && var u := old(w.now.logins[l].entry);
      && var second := m0.Replied() && u.username != "" && m1.Executed();
      && w.now == met.(
           cache := if second then met.cache[UsernameKey(u.username) := u] else met.cache, logins := w.now.logins)
  {
    w.Interfere(Visitor(l, token), m0.others);
    seen := w.now;
    w.Do(CachePhone(l, m0.Executed(), m0.Replied()));
    left, met := w.now, w.now;
    if w.now.logins[l].Caching? {
      met := CacheName(w, l, token, m1);
    } else {
      RelyReflexive(Visitor(l, token), left);
    }
  }

  method CacheName(w: World, l: nat, token: string, m: Move) returns (ghost met: Sys)
    requires w.Valid() && token !in w.now.usedSids
    requires l in w.now.logins && w.now.logins[l].Caching? && w.now.logins[l].phoneDone
    modifies w
    ensures w.Valid() && token !in w.now.usedSids && l in w.now.logins
    ensures
      && var login := old(w.now.logins[l]);
      && w.now.logins[l] == Checking(login.key, login.password, login.entry)
    ensures Rely(Visitor(l, token), old(w.now), met) && (m.others == [] ==> met == old(w.now))
    ensures
      && var u := old(w.now.logins[l].entry);
      && w.now == met.(
           cache := if m.Executed() then met.cache[UsernameKey(u.username) := u] else met.cache, logins := w.now.logins)
  {
    w.Interfere(Visitor(l, token), m.others);
    met := w.now;
    w.Do(CacheUsername(l, m.Executed()));
  }

  /** RequireSession around handleLogout; checked is the state the session check met.
      Afterwards the token resolves to nobody. */
  method HandleLogout(w: World, sid: string, env: Env) returns (status: int, ghost checked: Sys)
    requires w.Valid()
    modifies w
    ensures w.Valid() && status in {204, 401, 500}
    ensures env(0).others == [] ==> checked == old(w.now)
    ensures status == 401 <==> env(0).Replied() && SessionUser(checked.sessions, sid).None?
    ensures status == 204 <==> env(0).Replied() && SessionUser(checked.sessions, sid).Some? && env(1).Replied()
    ensures status == 204 || status == 401 ==> SessionUser(w.now.sessions, sid).None?
    ensures env(0).others == env(1).others == [] ==>
      && w.now == old(w.now).(sessions := w.now.sessions)
      && (w.now.sessions == old(w.now.sessions) || w.now.sessions == old(w.now.sessions) - {sid})
  {
    w.Interfere(Anyone, env(0).others);
    checked := w.now;
    if !env(0).Replied() || SessionUser(w.now.sessions, sid).None? {
      status := if env(0).Replied() then 401 else 500;
      return;
    }
    w.Interfere(Anyone, env(1).others);
    if env(1).Executed() {
      w.Do(DeleteSession(sid));
    }
    status := if env(1).Replied() then 204 else 500;
  }
}
