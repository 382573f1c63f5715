/** The shared world the handlers run in: they change it one enabled step at a time, and
    between any two steps every other handler, consumer and clock may act. */
module Runtime {
  import opened Base
  import opened Ledger
  import T = Transactions
  import opened System
  import SI = SystemInvariants

  // ---------------------------------------------------------------- what a remote call meets

  datatype Fault = NoFault | Serialization | Broken

  /** What happens before one remote call returns: the steps of others, whether the call
      reports a failure, whether a failing write to Redis or the stream took effect all
      the same (only its reply was lost), and the random part of a backoff. */
  datatype Move = Move(others: seq<Event>, fault: Fault, lost: bool, jitter: nat)
  {
    predicate Replied() { fault.NoFault? }
    predicate Executed() { fault.NoFault? || lost }
  }

  /** The n-th remote call of a handler meets env(n). */
  type Env = nat -> Move

  /** Nobody else acts. */
  ghost predicate Quiet(env: Env) {
    forall n: nat :: env(n).others == []
  }

  const NO_USER: User := User(0, "", "", "", "", 0, false)

  // ---------------------------------------------------------------- everybody else

  /** Who a handler is: the rows of the world only it may move. */
  datatype Actor =
    Tx(r: nat) | Reader(q: nat) | Visitor(l: nat, token: string) | Acker(a: nat) | Callback(i: nat, d: nat) | Anyone

  /** Steps of everybody but me. A session token generated for me is mine alone. */
  predicate Foreign(me: Actor, e: Event) {
    match me
    case Tx(r) =>
      && !(e.InDb? && e.e.OfRequest() && e.e.r == r)
      && !((e.StartTransfer? || e.Publish? || OfPost(e)) && e.r == r)
    case Reader(q) => !(OfBalance(e) && e.q == q)
    case Visitor(l, token) => !(OfLogin(e) && e.l == l) && !(e.LoginVerify? && e.sid == token)
    case Acker(a) => !(OfAck(e) && e.a == a)
    case Callback(i, d) => !((e.ProjectSender? || e.ProjectReceiver?) && e.i == i && e.d == d)
    case Anyone => true
  }

  predicate CommandLater(c: Command, c': Command) {
    c.Pending? || c' == c
  }

  predicate AttemptLater(a: Attempt, a': Attempt) {
    CommandLater(a.sender, a'.sender) && CommandLater(a.receiver, a'.receiver)
  }

  /** A stored message keeps what was published; its deliveries only go on. */
  predicate Later(m: Message, m': Message) {
    && m'.msgId == m.msgId && m'.evt == m.evt && m'.storedAt == m.storedAt && (m.acked ==> m'.acked)
    && |m.attempts| <= |m'.attempts|
    && forall d {:trigger AttemptLater(m.attempts[d], m'.attempts[d])} :: 0 <= d < |m.attempts| ==>
         AttemptLater(m.attempts[d], m'.attempts[d])
  }

  predicate StreamGrows(was: seq<Message>, now: seq<Message>) {
    |was| <= |now| && forall i {:trigger Later(was[i], now[i])} :: 0 <= i < |was| ==> Later(was[i], now[i])
  }

  predicate IsAttempt(stream: seq<Message>, i: nat, d: nat) {
    i < |stream| && d < |stream[i].attempts|
  }

  predicate SameAttemptIn(was: seq<Message>, now: seq<Message>, i: nat, d: nat)
    requires IsAttempt(was, i, d)
  {
    IsAttempt(now, i, d) && now[i].attempts[d] == was[i].attempts[d]
  }

  /** What any number of foreign steps leaves me: the history and the messages I saw and
      my own rows. */
  ghost predicate Rely(me: Actor, s: Sys, s': Sys) {
    && SI.Extends(s.db, s'.db) && StreamGrows(s.stream, s'.stream)
    && match me
       case Tx(r) =>
         && (r in s'.db.reqs <==> r in s.db.reqs)
         && (r in s.db.reqs ==> s'.db.reqs[r] == s.db.reqs[r])
         && DonePosts(s', r) == DonePosts(s, r)
       case Reader(q) =>
         && (q in s'.queries <==> q in s.queries)
         && (q in s.queries ==> s'.queries[q] == s.queries[q])
       case Visitor(l, token) =>
         && (l in s'.logins <==> l in s.logins)
         && (l in s.logins ==> s'.logins[l] == s.logins[l])
         && (token in s'.usedSids <==> token in s.usedSids)
       case Acker(a) =>
         && (a in s'.acks <==> a in s.acks)
         && (a in s.acks ==> s'.acks[a] == s.acks[a])
       case Callback(i, d) => IsAttempt(s.stream, i, d) ==> SameAttemptIn(s.stream, s'.stream, i, d)
       case Anyone => true
  }

  lemma ExtendsTransitive(a: T.Db, b: T.Db, c: T.Db)
    requires SI.Extends(a, b) && SI.Extends(b, c)
    ensures SI.Extends(a, c)
  {
    assert c.hist[..|a.hist|] == c.hist[..|b.hist|][..|a.hist|];
    assert c.log[..|a.log|] == c.log[..|b.log|][..|a.log|];
  }

  lemma RelyReflexive(me: Actor, s: Sys)
    ensures Rely(me, s, s)
  {
  }

  lemma RelyTransitive(me: Actor, a: Sys, b: Sys, c: Sys)
    requires Rely(me, a, b) && Rely(me, b, c)
    ensures Rely(me, a, c)
  {
    ExtendsTransitive(a.db, b.db, c.db);
    StreamTransitive(a.stream, b.stream, c.stream);
  }

  lemma LaterTransitive(a: Message, b: Message, c: Message)
    requires Later(a, b) && Later(b, c)
    ensures Later(a, c)
  {
    forall d | 0 <= d < |a.attempts|
      ensures AttemptLater(a.attempts[d], c.attempts[d])
    {
      assert AttemptLater(a.attempts[d], b.attempts[d]) && AttemptLater(b.attempts[d], c.attempts[d]);
    }
  }

  lemma StreamTransitive(a: seq<Message>, b: seq<Message>, c: seq<Message>)
    requires StreamGrows(a, b) && StreamGrows(b, c)
    ensures StreamGrows(a, c)
  {
    forall i | 0 <= i < |a|
      ensures Later(a[i], c[i])
    {
      assert Later(a[i], b[i]) && Later(b[i], c[i]);
      LaterTransitive(a[i], b[i], c[i]);
    }
  }

  lemma ForeignDbStep(db: T.Db, d: T.Event, r: nat)
    requires T.Enabled(db, d) && !((d.OfRequest() || d.Submit?) && d.r == r)
    ensures r in T.Apply(db, d).reqs <==> r in db.reqs
    ensures r in db.reqs ==> T.Apply(db, d).reqs[r] == db.reqs[r]
  {
  }

  lemma StepExtends(s: Sys, e: Event)
    requires Enabled(s, e)
    ensures SI.Extends(s.db, Apply(s, e).db)
  {
    SI.DbOfStep(s, e);
    if e.InDb? {
      SI.StepExtends(s.db, e.e);
    } else if e.StartTransfer? {
      SI.StepExtends(s.db, T.Submit(e.r, SessionUser(s.sessions, e.sid).value, e.key, e.amount));
    } else if e.RunAck? {
      SI.StepExtends(s.db, T.Ack(s.acks[e.a].user, s.acks[e.a].note));
    }
  }

  lemma StreamOfStep(s: Sys, e: Event)
    requires Enabled(s, e)
    ensures StreamGrows(s.stream, Apply(s, e).stream)
  {
    if OfConsumer(e) {
      ConsumerStreamGrows(s, e);
    } else if e.Publish? {
      PublishStreamGrows(s, EventOf(s, e.r));
    }
  }

  lemma PublishStreamGrows(s: Sys, evt: TransferCompleted)
    ensures StreamGrows(s.stream, PublishMsg(s, evt).stream)
  {
  }

  lemma ConsumerStreamGrows(s: Sys, e: Event)
    requires OfConsumer(e) && ConsumerEnabled(s, e)
    ensures StreamGrows(s.stream, ConsumerStep(s, e).stream)
  {
    MessageGoesOn(s.stream[e.i], e);
  }

  lemma MessageGoesOn(m: Message, e: Event)
    requires OfConsumer(e)
    requires e.ProjectSender? ==> e.d < |m.attempts| && m.attempts[e.d].sender.Pending?
    requires e.ProjectReceiver? ==> e.d < |m.attempts| && m.attempts[e.d].receiver.Pending?
    ensures Later(m, MessageAfter(m, e))
  {
  }

  lemma ForeignKeepsRequest(s: Sys, e: Event, r: nat)
    requires Enabled(s, e) && Foreign(Tx(r), e)
    ensures r in Apply(s, e).db.reqs <==> r in s.db.reqs
    ensures r in s.db.reqs ==> Apply(s, e).db.reqs[r] == s.db.reqs[r]
  {
    SI.DbOfStep(s, e);
    if e.InDb? {
      ForeignDbStep(s.db, e.e, r);
    } else if e.StartTransfer? {
      ForeignDbStep(s.db, T.Submit(e.r, SessionUser(s.sessions, e.sid).value, e.key, e.amount), r);
    } else if e.RunAck? {
      ForeignDbStep(s.db, T.Ack(s.acks[e.a].user, s.acks[e.a].note), r);
    }
  }

  lemma PostStepMovesOne(s: Sys, e: Event, r: nat)
    requires OfPost(e) && PostEnabled(s, e) && e.r != r
    ensures DonePosts(PostStep(s, e), r) == DonePosts(s, r)
  {
  }

  lemma ForeignKeepsPosts(s: Sys, e: Event, r: nat)
    requires Enabled(s, e) && Foreign(Tx(r), e)
    ensures DonePosts(Apply(s, e), r) == DonePosts(s, r)
  {
    if OfPost(e) {
      PostStepMovesOne(s, e, r);
    }
  }

  lemma ForeignKeepsReader(s: Sys, e: Event, q: nat)
    requires Enabled(s, e) && Foreign(Reader(q), e)
    ensures q in Apply(s, e).queries <==> q in s.queries
    ensures q in s.queries ==> Apply(s, e).queries[q] == s.queries[q]
  {
    if OfBalance(e) {
      assert Apply(s, e) == BalanceStep(s, e);
    }
  }

  lemma LoginStepMovesOne(s: Sys, e: Event, l: nat, token: string)
    requires OfLogin(e) && LoginEnabled(s, e) && e.l != l && !(e.LoginVerify? && e.sid == token)
    ensures l in LoginStep(s, e).logins <==> l in s.logins
    ensures l in s.logins ==> LoginStep(s, e).logins[l] == s.logins[l]
    ensures token in LoginStep(s, e).usedSids <==> token in s.usedSids
  {
  }

  lemma ForeignKeepsVisitor(s: Sys, e: Event, l: nat, token: string)
    requires Enabled(s, e) && Foreign(Visitor(l, token), e)
    ensures l in Apply(s, e).logins <==> l in s.logins
    ensures l in s.logins ==> Apply(s, e).logins[l] == s.logins[l]
    ensures token in Apply(s, e).usedSids <==> token in s.usedSids
  {
    if OfLogin(e) {
      LoginStepMovesOne(s, e, l, token);
    }
  }

  lemma ForeignKeepsAcker(s: Sys, e: Event, a: nat)
    requires Enabled(s, e) && Foreign(Acker(a), e)
    ensures a in Apply(s, e).acks <==> a in s.acks
    ensures a in s.acks ==> Apply(s, e).acks[a] == s.acks[a]
  {
    if OfAck(e) {
      assert Apply(s, e) == AckStep(s, e);
    }
  }

  lemma ForeignKeepsCallback(s: Sys, e: Event, i: nat, d: nat)
    requires Enabled(s, e) && Foreign(Callback(i, d), e) && IsAttempt(s.stream, i, d)
    ensures SameAttemptIn(s.stream, Apply(s, e).stream, i, d)
  {
    if OfConsumer(e) {
      assert Apply(s, e) == ConsumerStep(s, e);
    } else if e.Publish? {
      PublishKeepsAttempt(s, EventOf(s, e.r), i, d);
    }
  }

  lemma PublishKeepsAttempt(s: Sys, evt: TransferCompleted, i: nat, d: nat)
    requires IsAttempt(s.stream, i, d)
    ensures SameAttemptIn(s.stream, PublishMsg(s, evt).stream, i, d)
  {
  }

  lemma ForeignKeeps(me: Actor, s: Sys, e: Event)
    requires Enabled(s, e) && Foreign(me, e)
    ensures Rely(me, s, Apply(s, e))
  {
    StepExtends(s, e);
    StreamOfStep(s, e);
    match me
    case Tx(r) =>
      ForeignKeepsRequest(s, e, r);
      ForeignKeepsPosts(s, e, r);
    case Reader(q) => ForeignKeepsReader(s, e, q);
    case Visitor(l, token) => ForeignKeepsVisitor(s, e, l, token);
    case Acker(a) => ForeignKeepsAcker(s, e, a);
    case Callback(i, d) =>
      if IsAttempt(s.stream, i, d) {
        ForeignKeepsCallback(s, e, i, d);
      }
    case Anyone =>
  }

  // ---------------------------------------------------------------- the world

  /** Large facts are carried as they are, and spelled out only in proofs that mention this. */
  predicate Spelled(k: nat) { true }

  ghost predicate Sound(s: Sys) {
    forall k: nat {:trigger Spelled(k)} :: Spelled(k) ==> SI.Inv(s)
  }

  class World {
    var now: Sys

    ghost predicate Valid()
      reads this
    {
      Sound(now)
    }

    constructor ()
      ensures Valid() && now == INITIAL
    {
      now := INITIAL;
      new;
      SI.InitialInv();
    }

    /** One atomic step of the machine. */
    method Do(e: Event)
      requires Valid() && Enabled(now, e)
      modifies this
      ensures Valid() && now == Apply(old(now), e)
    {
      assert Spelled(0);
      SI.StepKeepsInv(now, e);
      now := Apply(now, e);
    }

    /** One statement, commit or rollback in the database. */
    method Statement(d: T.Event)
      requires Valid() && !d.Submit? && !d.Ack? && T.Enabled(now.db, d)
      modifies this
      ensures Valid() && now == old(now).(db := T.Apply(old(now.db), d)) && SI.Extends(old(now.db), now.db)
    {
      SI.StepExtends(now.db, d);
      Do(InDb(d));
    }

    /** Everybody else acts for a while: any of the given steps that can happen, does. */
    method Interfere(me: Actor, others: seq<Event>)
      requires Valid()
      modifies this
      ensures Valid() && Rely(me, old(now), now)
      ensures others == [] ==> now == old(now)
    {
      for i := 0 to |others|
        invariant Valid() && Rely(me, old(now), now)
        invariant i == 0 ==> now == old(now)
      {
        if Foreign(me, others[i]) && Enabled(now, others[i]) {
          ghost var before := now;
          ForeignKeeps(me, before, others[i]);
          Do(others[i]);
          RelyTransitive(me, old(now), before, now);
        }
      }
    }
  }
}
