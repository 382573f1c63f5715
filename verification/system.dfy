/** The whole service as one step machine: the transfer database, the Redis keys, the
    JetStream stream with its durable consumer, and every handler between two of its
    remote calls. Each Redis command, each query and each statement is its own step. */
module System {
  import opened Base
  import opened Decimal
  import opened Ledger
  import T = Transactions

  // ---------------------------------------------------------------- state

  /** Post-commit event: balances are absolute, post-transaction values. */
  datatype TransferCompleted = TransferCompleted(
    transferId: int, amount: int, senderId: int, senderBalance: int, receiverId: int, receiverBalance: int)

  /** What became of one command of a pipeline. */
  datatype Command = Pending | Landed | Dropped

  /** One delivery of a message: the two writes of its callback. */
  datatype Attempt = Attempt(sender: Command, receiver: Command)

  /** A stored message and what the durable consumer did with it, delivery by delivery. */
  datatype Message = Message(
    msgId: string, evt: TransferCompleted, storedAt: nat, attempts: seq<Attempt>, acked: bool)

  const DUPLICATE_WINDOW: nat := 300   // seconds
  const MAX_DELIVER: nat := 5

  datatype CacheKey = PhoneKey(phone: string) | UsernameKey(username: string)

  /** A balance request after its session check. */
  datatype Query =
    | Entered(user: int)
    | Missed(user: int)
    | Filling(user: int, balance: int)
    | Answered(user: int, balance: int)
    | NoSuchUser(user: int)
    | Garbled(user: int)

  /** A login between two remote calls; entry is the cached or queried user. */
  datatype Login =
    | Missing(key: Key, password: string)
    | Caching(key: Key, password: string, entry: User, phoneDone: bool)
    | Checking(key: Key, password: string, entry: User)
    | Accepted(sid: string, user: int)
    | Rejected
    | Errored

  /** An acknowledgement after its session check. */
  datatype Acking = Acking(user: int, note: int) | AckDone

  /** posts[r] counts the post-commit commands request r is done with: the DEL, the two
      HSETs, then the publish. usedSids are the session tokens ever generated. */
  datatype Sys = Sys(
    db: T.Db,
    hash: map<string, string>, cache: map<CacheKey, User>, sessions: map<string, string>, usedSids: set<string>,
    stream: seq<Message>, clock: nat,
    posts: map<nat, nat>, queries: map<nat, Query>, logins: map<nat, Login>, acks: map<nat, Acking>)

  const INITIAL: Sys := Sys(T.INITIAL_DB, map[], map[], map[], {}, [], 0, map[], map[], map[], map[])

  // ---------------------------------------------------------------- commands

  function Hset(hash: map<string, string>, user: int, balance: int): map<string, string> {
    hash[Itoa(user) := Itoa(balance)]
  }

  function SessionUser(sessions: map<string, string>, sid: string): Option<int> {
    if sid == "" || sid !in sessions then None else Atoi(sessions[sid])
  }

  function KeyOfCache(key: Key): CacheKey {
    match key
    case ByUsername(v) => UsernameKey(v)
    case ByPhone(v) => PhoneKey(v)
    case ByAccount(v) => PhoneKey(v)
  }

  function EventOf(s: Sys, r: nat): TransferCompleted
    requires r in s.db.reqs
  {
    var q := s.db.reqs[r];
    TransferCompleted(q.res.transferId, q.amount,
      q.res.senderId, q.res.senderBalance, q.res.receiverId, q.res.receiverBalance)
  }

  function DonePosts(s: Sys, r: nat): nat {
    if r in s.posts then s.posts[r] else 0
  }

  predicate CopyInWindow(m: Message, msgId: string, clock: nat) {
    m.msgId == msgId && clock < m.storedAt + DUPLICATE_WINDOW
  }

  /** A stored copy with this message id is still inside the duplicate window. */
  predicate IsDuplicate(s: Sys, msgId: string) {
    exists i :: 0 <= i < |s.stream| && CopyInWindow(s.stream[i], msgId, s.clock)
  }

  function PublishMsg(s: Sys, evt: TransferCompleted): Sys {
    var id := Itoa(evt.transferId);
    if IsDuplicate(s, id) then s
    else s.(stream := s.stream + [Message(id, evt, s.clock, [], false)])
  }

  // ---------------------------------------------------------------- steps

  datatype Event =
    | InDb(e: T.Event)
    | StartTransfer(r: nat, sid: string, key: Key, amount: int)
    | DelPhones(r: nat)
    | HsetSender(r: nat)
    | HsetReceiver(r: nat)
    | CommandFailed(r: nat)          // a pipelined command that did not execute
    | Publish(r: nat)
    | FinishPost(r: nat)
    | Deliver(i: nat)
    | ProjectSender(i: nat, d: nat, done: bool)
    | ProjectReceiver(i: nat, d: nat, done: bool)
    | AckMessage(i: nat, d: nat)
    | Tick(seconds: nat)
    | WipeRedis
    | BalanceStart(q: nat, sid: string)
    | BalanceGet(q: nat)
    | BalanceQuery(q: nat)
    | BalanceFill(q: nat, done: bool)
    | LoginLookup(l: nat, key: Key, password: string)
    | LoginQuery(l: nat, pick: Option<int>)
    | CachePhone(l: nat, done: bool, replied: bool)
    | CacheUsername(l: nat, done: bool)
    | LoginVerify(l: nat, ok: bool, sid: string, replied: bool)
    | LoginError(l: nat)
    | StartAck(a: nat, sid: string, note: int)
    | RunAck(a: nat)
    | DeleteSession(sid: string)
    | ExpireCache(entryKey: CacheKey)

  predicate OfPost(e: Event) {
    e.DelPhones? || e.HsetSender? || e.HsetReceiver? || e.CommandFailed? || e.FinishPost?
  }

  predicate OfConsumer(e: Event) {
    e.Deliver? || e.ProjectSender? || e.ProjectReceiver? || e.AckMessage?
  }

  predicate OfBalance(e: Event) {
    e.BalanceStart? || e.BalanceGet? || e.BalanceQuery? || e.BalanceFill?
  }

  predicate OfLogin(e: Event) {
    e.LoginLookup? || e.LoginQuery? || e.CachePhone? || e.CacheUsername? || e.LoginVerify? || e.LoginError?
  }

  predicate OfAck(e: Event) {
    e.StartAck? || e.RunAck?
  }

  predicate MovesDb(e: Event) {
    e.InDb? || e.StartTransfer? || e.RunAck?
  }

  // ---------------------------------------------------------------- after a commit

  predicate Posting(s: Sys, r: nat, done: nat) {
    r in s.db.reqs && s.db.reqs[r].phase.Committed? && DonePosts(s, r) == done
  }

  predicate PostEnabled(s: Sys, e: Event)
    requires OfPost(e)
  {
    match e
    case DelPhones(r) => Posting(s, r, 0)
    case HsetSender(r) => Posting(s, r, 1)
    case HsetReceiver(r) => Posting(s, r, 2)
    case CommandFailed(r) => Posting(s, r, 0) || Posting(s, r, 1) || Posting(s, r, 2)
    case FinishPost(r) => Posting(s, r, 3)
  }

  function PostStep(s: Sys, e: Event): (s': Sys)
    requires OfPost(e) && PostEnabled(s, e)
    ensures s' == s.(hash := s'.hash, cache := s'.cache, posts := s.posts[e.r := DonePosts(s, e.r) + 1])
  {
    var evt, res := EventOf(s, e.r), s.db.reqs[e.r].res;
    var next := s.(posts := s.posts[e.r := DonePosts(s, e.r) + 1]);
    match e
    case DelPhones(_) => next.(cache := s.cache - {PhoneKey(res.senderPhone), PhoneKey(res.receiverPhone)})
    case HsetSender(_) => next.(hash := Hset(s.hash, evt.senderId, evt.senderBalance))
    case HsetReceiver(_) => next.(hash := Hset(s.hash, evt.receiverId, evt.receiverBalance))
    case _ => next
  }

  // ---------------------------------------------------------------- the durable consumer

  const BOTH_LANDED: Attempt := Attempt(Landed, Landed)

  /** Each delivery runs its two writes once, in order; only a delivery whose writes both
      took effect acks. */
  predicate ConsumerEnabled(s: Sys, e: Event)
    requires OfConsumer(e)
  {
    e.i < |s.stream| &&
    var m := s.stream[e.i];
    match e
    case Deliver(_) => !m.acked && |m.attempts| < MAX_DELIVER
    case ProjectSender(_, d, _) => d < |m.attempts| && m.attempts[d].sender.Pending?
    case ProjectReceiver(_, d, _) =>
      d < |m.attempts| && !m.attempts[d].sender.Pending? && m.attempts[d].receiver.Pending?
    case AckMessage(_, d) => d < |m.attempts| && m.attempts[d] == BOTH_LANDED
  }

  function Outcome(done: bool): Command {
    if done then Landed else Dropped
  }

  function MessageAfter(m: Message, e: Event): Message
    requires OfConsumer(e)
    requires e.ProjectSender? || e.ProjectReceiver? ==> e.d < |m.attempts|
  {
    match e
    case Deliver(_) => m.(attempts := m.attempts + [Attempt(Pending, Pending)])
    case ProjectSender(_, d, done) =>
      m.(attempts := m.attempts[d := m.attempts[d].(sender := Outcome(done))])
    case ProjectReceiver(_, d, done) =>
      m.(attempts := m.attempts[d := m.attempts[d].(receiver := Outcome(done))])
    case AckMessage(_, _) => m.(acked := true)
  }

  function ConsumerStep(s: Sys, e: Event): (s': Sys)
    requires OfConsumer(e) && ConsumerEnabled(s, e)
    ensures s' == s.(hash := s'.hash, stream := s.stream[e.i := MessageAfter(s.stream[e.i], e)])
  {
    var evt := s.stream[e.i].evt;
    var next := s.(stream := s.stream[e.i := MessageAfter(s.stream[e.i], e)]);
    match e
    case ProjectSender(_, _, true) => next.(hash := Hset(s.hash, evt.senderId, evt.senderBalance))
    case ProjectReceiver(_, _, true) => next.(hash := Hset(s.hash, evt.receiverId, evt.receiverBalance))
    case _ => next
  }

  // ---------------------------------------------------------------- balance requests

  predicate BalanceEnabled(s: Sys, e: Event)
    requires OfBalance(e)
  {
    match e
    case BalanceStart(q, sid) => q !in s.queries && SessionUser(s.sessions, sid).Some?
    case BalanceGet(q) => q in s.queries && s.queries[q].Entered?
    case BalanceQuery(q) => q in s.queries && s.queries[q].Missed?
    case BalanceFill(q, _) => q in s.queries && s.queries[q].Filling?
  }

  /** HGET on a balance request: a hit answers at once. */
  function HashVerdict(hash: map<string, string>, user: int): Query {
    var field := Itoa(user);
    if field !in hash then Missed(user)
    else match Atoi(hash[field])
         case Some(v) => Answered(user, v)
         case None => Garbled(user)
  }

  function DatabaseRow(users: map<int, User>, user: int): Query {
    if user in users then Filling(user, users[user].balance) else NoSuchUser(user)
  }

  function BalanceStep(s: Sys, e: Event): (s': Sys)
    requires OfBalance(e) && BalanceEnabled(s, e)
    ensures s' == s.(hash := s'.hash, queries := s'.queries)
    ensures e.q in s'.queries && s'.queries == s.queries[e.q := s'.queries[e.q]]
  {
    match e
    case BalanceStart(q, sid) => s.(queries := s.queries[q := Entered(SessionUser(s.sessions, sid).value)])
    case BalanceGet(q) => s.(queries := s.queries[q := HashVerdict(s.hash, s.queries[q].user)])
    case BalanceQuery(q) => s.(queries := s.queries[q := DatabaseRow(T.Current(s.db).users, s.queries[q].user)])
    case BalanceFill(q, done) =>
      var Filling(user, balance) := s.queries[q];
      s.(hash := if done then Hset(s.hash, user, balance) else s.hash,
         queries := s.queries[q := Answered(user, balance)])
  }

  // ---------------------------------------------------------------- logins

  predicate LoginEnabled(s: Sys, e: Event)
    requires OfLogin(e)
  {
    match e
    case LoginLookup(l, key, _) => l !in s.logins && !key.ByAccount? && key.value != ""
    case LoginQuery(l, pick) =>
      l in s.logins && s.logins[l].Missing? && MayReturn(T.Current(s.db).users, s.logins[l].key, pick)
    case CachePhone(l, done, replied) =>
      (replied ==> done) && l in s.logins && s.logins[l].Caching? && !s.logins[l].phoneDone
    case CacheUsername(l, _) => l in s.logins && s.logins[l].Caching? && s.logins[l].phoneDone
    case LoginVerify(l, _, sid, _) => l in s.logins && s.logins[l].Checking? && sid != "" && sid !in s.usedSids
    case LoginError(l) => l in s.logins && !s.logins[l].Accepted?
  }

  function LoginLookupStep(s: Sys, l: nat, key: Key, password: string): Sys {
    var k := KeyOfCache(key);
    s.(logins := s.logins[l :=
      if k in s.cache then Checking(key, password, s.cache[k]) else Missing(key, password)])
  }

  function LoginQueryStep(s: Sys, l: nat, pick: Option<int>): Sys
    requires l in s.logins && s.logins[l].Missing?
    requires MayReturn(T.Current(s.db).users, s.logins[l].key, pick)
  {
    var Missing(key, password) := s.logins[l];
    s.(logins := s.logins[l :=
      match pick
      case None => Rejected
      case Some(id) => Caching(key, password, T.Current(s.db).users[id], false)])
  }

  /** SetUserCache: the phone key first. An error reply, even to a write that took effect,
      skips the username key. */
  function CachePhoneStep(s: Sys, l: nat, done: bool, replied: bool): Sys
    requires l in s.logins && s.logins[l].Caching?
  {
    var Caching(key, password, u, _) := s.logins[l];
    s.(cache := if done then s.cache[PhoneKey(u.phone) := u] else s.cache,
       logins := s.logins[l :=
         if replied && u.username != "" then Caching(key, password, u, true) else Checking(key, password, u)])
  }

  function CacheUsernameStep(s: Sys, l: nat, done: bool): Sys
    requires l in s.logins && s.logins[l].Caching?
  {
    var Caching(key, password, u, _) := s.logins[l];
    s.(cache := if done then s.cache[UsernameKey(u.username) := u] else s.cache,
       logins := s.logins[l := Checking(key, password, u)])
  }

  /** bcrypt says ok or not; on ok a session with a fresh token is stored. The reply to
      that write may be lost: then the login reports an error. */
  function LoginVerifyStep(s: Sys, l: nat, ok: bool, sid: string, replied: bool): Sys
    requires l in s.logins && s.logins[l].Checking?
  {
    var u := s.logins[l].entry;
    if !ok then s.(logins := s.logins[l := Rejected])
    else s.(sessions := s.sessions[sid := Itoa(u.id)], usedSids := s.usedSids + {sid},
            logins := s.logins[l := if replied then Accepted(sid, u.id) else Errored])
  }

  function LoginStep(s: Sys, e: Event): (s': Sys)
    requires OfLogin(e) && LoginEnabled(s, e)
    ensures s' == s.(cache := s'.cache, sessions := s'.sessions, usedSids := s'.usedSids, logins := s'.logins)
    ensures e.l in s'.logins && s'.logins == s.logins[e.l := s'.logins[e.l]]
    ensures s'.usedSids == s.usedSids || (e.LoginVerify? && s'.usedSids == s.usedSids + {e.sid})
  {
    match e
    case LoginLookup(l, key, password) => LoginLookupStep(s, l, key, password)
    case LoginQuery(l, pick) => LoginQueryStep(s, l, pick)
    case CachePhone(l, done, replied) => CachePhoneStep(s, l, done, replied)
    case CacheUsername(l, done) => CacheUsernameStep(s, l, done)
    case LoginVerify(l, ok, sid, replied) => LoginVerifyStep(s, l, ok, sid, replied)
    case LoginError(l) => s.(logins := s.logins[l := Errored])
  }

  // ---------------------------------------------------------------- acknowledgements

  predicate AckEnabled(s: Sys, e: Event)
    requires OfAck(e)
  {
    match e
    case StartAck(a, sid, _) => a !in s.acks && SessionUser(s.sessions, sid).Some?
    case RunAck(a) => a in s.acks && s.acks[a].Acking?
  }

  /** The session check, then UPDATE notifications ... WHERE id = note AND user_id = user. */
  function AckStep(s: Sys, e: Event): (s': Sys)
    requires OfAck(e) && AckEnabled(s, e)
    ensures s' == s.(db := s'.db, acks := s'.acks)
    ensures e.a in s'.acks && s'.acks == s.acks[e.a := s'.acks[e.a]]
  {
    match e
    case StartAck(a, sid, note) => s.(acks := s.acks[a := Acking(SessionUser(s.sessions, sid).value, note)])
    case RunAck(a) =>
      s.(db := T.Apply(s.db, T.Ack(s.acks[a].user, s.acks[a].note)), acks := s.acks[a := AckDone])
  }

  // ---------------------------------------------------------------- any step

  predicate Enabled(s: Sys, e: Event) {
    if OfPost(e) then PostEnabled(s, e)
    else if OfConsumer(e) then ConsumerEnabled(s, e)
    else if OfBalance(e) then BalanceEnabled(s, e)
    else if OfLogin(e) then LoginEnabled(s, e)
    else if OfAck(e) then AckEnabled(s, e)
    else
      match e
      case InDb(d) => !d.Submit? && !d.Ack? && T.Enabled(s.db, d)
      case StartTransfer(r, sid, key, amount) =>
        SessionUser(s.sessions, sid).Some?
        && T.Enabled(s.db, T.Submit(r, SessionUser(s.sessions, sid).value, key, amount))
      case Publish(r) => Posting(s, r, 3)
      case _ => true
  }

  /** Only statements, acknowledgements and new requests move the database, and each
      handler its own rows. */
  function Apply(s: Sys, e: Event): (s': Sys)
    requires Enabled(s, e)
    ensures !MovesDb(e) ==> s'.db == s.db
    ensures !OfPost(e) ==> s'.posts == s.posts
    ensures !OfConsumer(e) && !e.Publish? ==> s'.stream == s.stream
    ensures !OfPost(e) && !OfConsumer(e) && !OfBalance(e) && !e.WipeRedis? ==> s'.hash == s.hash
    ensures !OfPost(e) && !OfLogin(e) && !e.WipeRedis? && !e.ExpireCache? ==> s'.cache == s.cache
    ensures !OfLogin(e) && !e.WipeRedis? && !e.DeleteSession? ==> s'.sessions == s.sessions
    ensures !OfBalance(e) ==> s'.queries == s.queries
    ensures !OfLogin(e) ==> s'.logins == s.logins && s'.usedSids == s.usedSids
    ensures !OfAck(e) ==> s'.acks == s.acks
  {
    if OfPost(e) then PostStep(s, e)
    else if OfConsumer(e) then ConsumerStep(s, e)
    else if OfBalance(e) then BalanceStep(s, e)
    else if OfLogin(e) then LoginStep(s, e)
    else if OfAck(e) then AckStep(s, e)
    else
      match e
      case InDb(d) => s.(db := T.Apply(s.db, d))
      case StartTransfer(r, sid, key, amount) =>
        s.(db := T.Apply(s.db, T.Submit(r, SessionUser(s.sessions, sid).value, key, amount)))
      case Publish(r) => PublishMsg(s, EventOf(s, r))
      case Tick(seconds) => s.(clock := s.clock + seconds)
      case WipeRedis => s.(hash := map[], cache := map[], sessions := map[])
      case DeleteSession(sid) => s.(sessions := s.sessions - {sid})
      case ExpireCache(key) => s.(cache := s.cache - {key})
  }

  // ---------------------------------------------------------------- runs

  predicate Follows(ss: seq<Sys>, es: seq<Event>, i: nat)
    requires |ss| == |es| + 1 && i < |es|
  {
    Enabled(ss[i], es[i]) && ss[i + 1] == Apply(ss[i], es[i])
  }

  /** ss[i + 1] follows ss[i] by the enabled step es[i], starting from nothing. */
  ghost predicate IsRun(ss: seq<Sys>, es: seq<Event>) {
    && |ss| == |es| + 1 && ss[0] == INITIAL
    && forall i {:trigger Follows(ss, es, i)} :: 0 <= i < |es| ==> Follows(ss, es, i)
  }
}
