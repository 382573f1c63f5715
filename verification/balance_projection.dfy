/** The durable consumer as the program runs it: message after message writes two balances
    to the shared hash, and is acked or nak'ed, while everybody else may act in between. */
module BalanceProjection {
  import opened Base
  import opened Decimal
  import opened System
  import opened Runtime
  import opened Projection

  /** before leads to after by others' steps and then the step e of this callback, taken on
      the state seen. */
  ghost predicate WriteRan(e: Event, m: Move, before: Sys, seen: Sys, after: Sys)
    requires e.ProjectSender? || e.ProjectReceiver?
  {
    && Rely(Callback(e.i, e.d), before, seen) && (m.others == [] ==> seen == before)
    && Enabled(seen, e) && e.done == m.Executed() && after == Apply(seen, e)
  }

  /** The d-th delivery of message i has got as far as a. */
  predicate At(stream: seq<Message>, i: nat, d: nat, a: Attempt) {
    IsAttempt(stream, i, d) && stream[i].attempts[d] == a
  }

  method WriteSender(w: World, i: nat, d: nat, m: Move) returns (ghost seen: Sys)
    requires w.Valid() && At(w.now.stream, i, d, Attempt(Pending, Pending))
    modifies w
    ensures w.Valid() && StreamGrows(old(w.now.stream), w.now.stream)
    ensures WriteRan(ProjectSender(i, d, m.Executed()), m, old(w.now), seen, w.now)
    ensures At(w.now.stream, i, d, Attempt(Outcome(m.Executed()), Pending))
  {
    w.Interfere(Callback(i, d), m.others);
    seen := w.now;
    StreamOfStep(seen, ProjectSender(i, d, m.Executed()));
    w.Do(ProjectSender(i, d, m.Executed()));
    StreamTransitive(old(w.now.stream), seen.stream, w.now.stream);
  }

  method WriteReceiver(w: World, i: nat, d: nat, m: Move) returns (ghost seen: Sys)
    requires w.Valid() && IsAttempt(w.now.stream, i, d)
    requires !w.now.stream[i].attempts[d].sender.Pending? && w.now.stream[i].attempts[d].receiver.Pending?
    modifies w
    ensures w.Valid() && StreamGrows(old(w.now.stream), w.now.stream)
    ensures WriteRan(ProjectReceiver(i, d, m.Executed()), m, old(w.now), seen, w.now)
    ensures At(w.now.stream, i, d, old(w.now.stream[i].attempts[d]).(receiver := Outcome(m.Executed())))
  {
    w.Interfere(Callback(i, d), m.others);
    seen := w.now;
    StreamOfStep(seen, ProjectReceiver(i, d, m.Executed()));
    w.Do(ProjectReceiver(i, d, m.Executed()));
    StreamTransitive(old(w.now.stream), seen.stream, w.now.stream);
  }

  /** Both HSETs of one delivery in a pipeline, which is no transaction: each takes effect or
      not on its own, and success is reported only when both replies came back. */
  method SetBalanceBatch(w: World, i: nat, d: nat, m0: Move, m1: Move)
    returns (ok: bool, ghost seen: (Sys, Sys), ghost left: Sys)
    requires w.Valid() && At(w.now.stream, i, d, Attempt(Pending, Pending))
    modifies w
    ensures w.Valid() && StreamGrows(old(w.now.stream), w.now.stream)
    ensures ok <==> m0.Replied() && m1.Replied()
    ensures WriteRan(ProjectSender(i, d, m0.Executed()), m0, old(w.now), seen.0, left)
    ensures WriteRan(ProjectReceiver(i, d, m1.Executed()), m1, left, seen.1, w.now)
    ensures At(w.now.stream, i, d, Attempt(Outcome(m0.Executed()), Outcome(m1.Executed())))
  {
    ghost var s0 := WriteSender(w, i, d, m0);
    ghost var l := w.now;
    ghost var s1 := WriteReceiver(w, i, d, m1);
    StreamTransitive(old(w.now.stream), l.stream, w.now.stream);
    ok, seen, left := m0.Replied() && m1.Replied(), (s0, s1), l;
  }

  /** Undisturbed, the batch is one delivery of the event, as far as its commands execute. */
  lemma UndisturbedBatch(i: nat, d: nat, m0: Move, m1: Move, s: Sys, seen: (Sys, Sys), left: Sys, s': Sys)
    requires m0.others == m1.others == [] && i < |s.stream|
    requires WriteRan(ProjectSender(i, d, m0.Executed()), m0, s, seen.0, left)
    requires WriteRan(ProjectReceiver(i, d, m1.Executed()), m1, left, seen.1, s')
    ensures s'.hash == Delivery(s.hash, s.stream[i].evt, Mark(m0.Executed(), m1.Executed()))
    ensures OthersStay(s.stream, s'.stream, i)
  {
    WriteEffect(s, ProjectSender(i, d, m0.Executed()));
    WriteEffect(left, ProjectReceiver(i, d, m1.Executed()));
  }

  lemma WriteEffect(s: Sys, e: Event)
    requires (e.ProjectSender? || e.ProjectReceiver?) && Enabled(s, e)
    ensures
      var evt, s' := s.stream[e.i].evt, Apply(s, e);
      && s'.hash == Delivery(s.hash, evt, Mark(e.ProjectSender? && e.done, e.ProjectReceiver? && e.done))
      && OthersStay(s.stream, s'.stream, e.i) && s'.stream[e.i].evt == evt
  {
  }

  /** A delivery is on record before its callback runs. */
  method StartDelivery(w: World, i: nat) returns (d: nat)
    requires w.Valid() && Enabled(w.now, Deliver(i))
    modifies w
    ensures w.Valid() && StreamGrows(old(w.now.stream), w.now.stream) && w.now.hash == old(w.now.hash)
    ensures At(w.now.stream, i, d, Attempt(Pending, Pending)) && d == |old(w.now.stream[i].attempts)|
    ensures OthersStay(old(w.now.stream), w.now.stream, i) && w.now.stream[i].evt == old(w.now.stream)[i].evt
  {
    d := |w.now.stream[i].attempts|;
    StreamOfStep(w.now, Deliver(i));
    w.Do(Deliver(i));
  }

  method DeliverOnce(w: World, i: nat, m0: Move, m1: Move) returns (ok: bool, d: nat)
    requires w.Valid() && Enabled(w.now, Deliver(i))
    modifies w
    ensures w.Valid() && StreamGrows(old(w.now.stream), w.now.stream)
    ensures ok <==> m0.Replied() && m1.Replied()
    ensures At(w.now.stream, i, d, Attempt(Outcome(m0.Executed()), Outcome(m1.Executed())))
    ensures m0.others == m1.others == [] ==>
      OneDelivery(old(w.now), w.now, i, Mark(m0.Executed(), m1.Executed()))
  {
    d := StartDelivery(w, i);
    ghost var delivered := w.now;
    ghost var seen, left;
    ok, seen, left := SetBalanceBatch(w, i, d, m0, m1);
    StreamTransitive(old(w.now.stream), delivered.stream, w.now.stream);
    if m0.others == m1.others == [] {
      UndisturbedBatch(i, d, m0, m1, delivered, seen, left, w.now);
    }
  }

  /** The consumer callback on one message: ack when this very delivery's batch succeeded,
      nak otherwise. The ack itself may get lost. */
  method OnMessage(w: World, i: nat, env: Env, start: nat) returns (acked: bool)
    requires w.Valid() && Enabled(w.now, Deliver(i))
    modifies w
    ensures w.Valid() && StreamGrows(old(w.now.stream), w.now.stream)
    ensures acked <==> env(start).Replied() && env(start + 1).Replied()
    ensures acked ==> BothWritten(w.now.stream, i)
    ensures acked && env(start + 2).Executed() ==> w.now.stream[i].acked
    ensures Quiet(env) ==>
      OneDelivery(old(w.now), w.now, i, Mark(env(start).Executed(), env(start + 1).Executed()))
  {
    var d;
    acked, d := DeliverOnce(w, i, env(start), env(start + 1));
    if acked {
      ghost var written := w.now.stream;
      Ack(w, i, d, env(start + 2));
      StreamTransitive(old(w.now.stream), written, w.now.stream);
    }
  }

  /** The p-th message handed over, if it is still to be delivered. */
  method HandOver(w: World, i: nat, env: Env, p: nat) returns (acked: bool)
    requires w.Valid()
    modifies w
    ensures w.Valid() && StreamGrows(old(w.now.stream), w.now.stream)
    ensures acked ==> BothWritten(w.now.stream, i)
    ensures Quiet(env) && i < |old(w.now.stream)| && Deliverable(old(w.now.stream)[i]) ==>
      (acked <==> RepliedAt(env, p)) && OneDelivery(old(w.now), w.now, i, MarkAt(env, p))
  {
    w.Interfere(Anyone, env(4 * p).others);
    acked := false;
    ghost var met := w.now.stream;
    if i < |w.now.stream| && Deliverable(w.now.stream[i]) {
      acked := OnMessage(w, i, env, 4 * p + 1);
      StreamTransitive(old(w.now.stream), met, w.now.stream);
    }
  }

  method Ack(w: World, i: nat, d: nat, m: Move)
    requires w.Valid() && At(w.now.stream, i, d, BOTH_LANDED)
    modifies w
    ensures w.Valid() && StreamGrows(old(w.now.stream), w.now.stream) && BothWritten(w.now.stream, i)
    ensures m.Executed() ==> w.now.stream[i].acked
    ensures m.others == [] ==>
      w.now.hash == old(w.now.hash) && OthersStay(old(w.now.stream), w.now.stream, i)
  {
    w.Interfere(Callback(i, d), m.others);
    ghost var seen := w.now.stream;
    if m.Executed() {
      StreamOfStep(w.now, AckMessage(i, d));
      w.Do(AckMessage(i, d));
    }
    StreamTransitive(old(w.now.stream), seen, w.now.stream);
    assert At(w.now.stream, i, d, BOTH_LANDED);
  }

  /** One delivery of the message wrote both balances. */
  ghost predicate BothWritten(stream: seq<Message>, i: nat) {
    i < |stream| && exists d: nat :: At(stream, i, d, BOTH_LANDED)
  }

  predicate OthersStay(was: seq<Message>, now: seq<Message>, i: nat) {
    |now| == |was| && forall j :: 0 <= j < |was| && j != i ==> now[j] == was[j]
  }

  ghost predicate OneDelivery(s: Sys, s': Sys, i: nat, m: Mark) {
    && i < |s.stream| && s'.hash == Delivery(s.hash, s.stream[i].evt, m)
    && OthersStay(s.stream, s'.stream, i)
  }

  predicate Deliverable(m: Message) {
    !m.acked && |m.attempts| < MAX_DELIVER
  }

  /** Messages in stream order, each still to be delivered. */
  ghost predicate InOrder(stream: seq<Message>, order: seq<nat>) {
    && (forall p :: 0 <= p < |order| ==> order[p] < |stream| && Deliverable(stream[order[p]]))
    && (forall p, q {:trigger Ascending(order, p, q)} :: 0 <= p < q < |order| ==> Ascending(order, p, q))
  }

  predicate Ascending(order: seq<nat>, p: nat, q: nat)
    requires p < |order| && q < |order|
  {
    order[p] < order[q]
  }

  /** The p-th message handed over meets env(4p) before its delivery, then its two writes
      and its ack. */
  function MarkAt(env: Env, p: nat): Mark {
    Mark(env(4 * p + 1).Executed(), env(4 * p + 2).Executed())
  }

  predicate RepliedAt(env: Env, p: nat) {
    env(4 * p + 1).Replied() && env(4 * p + 2).Replied()
  }

  function Marks(env: Env, n: nat): seq<Mark> {
    seq(n, p requires 0 <= p < n => MarkAt(env, p))
  }

  function AckedOf(order: seq<nat>, env: Env): seq<nat> {
    if order == [] then []
    else
      var n := |order| - 1;
      AckedOf(order[..n], env) + (if RepliedAt(env, n) then [order[n]] else [])
  }

  ghost predicate AllWritten(stream: seq<Message>, acked: seq<nat>) {
    forall k :: 0 <= k < |acked| ==> BothWritten(stream, acked[k])
  }

  /** The consumer over the messages JetStream hands over. A message is acked only after
      both balances were written. When nobody interferes, the hash ends as the deliveries
      of the handed-over events leave it, and exactly those with two replies are acked. */
  method RunBalanceProjection(w: World, order: seq<nat>, env: Env) returns (acked: seq<nat>)
    requires w.Valid()
    modifies w
    ensures w.Valid() && StreamGrows(old(w.now.stream), w.now.stream) && AllWritten(w.now.stream, acked)
    ensures Quiet(env) && InOrder(old(w.now.stream), order) ==>
      && acked == AckedOf(order, env)
      && w.now.hash == Deliveries(old(w.now.hash), EventsAt(old(w.now.stream), order), Marks(env, |order|))
  {
    acked := [];
    ghost var start, orderly := w.now, Quiet(env) && InOrder(w.now.stream, order);
    for p := 0 to |order|
      invariant w.Valid() && StreamGrows(start.stream, w.now.stream) && AllWritten(w.now.stream, acked)
      invariant orderly ==> Progress(start, w.now.hash, w.now.stream, order, env, p, acked)
    {
      ghost var before := w.now.stream;
      acked := NextMessage(w, order, env, p, acked, start);
      StreamTransitive(start.stream, before, w.now.stream);
    }
    if orderly {
      ProgressEnd(start, w.now.hash, w.now.stream, order, env, acked);
    }
  }

  /** One round of the consumer; start is the state in which it began. */
  method NextMessage(w: World, order: seq<nat>, env: Env, p: nat, done: seq<nat>, ghost start: Sys)
    returns (acked: seq<nat>)
    requires w.Valid() && p < |order| && AllWritten(w.now.stream, done)
    modifies w
    ensures w.Valid() && StreamGrows(old(w.now.stream), w.now.stream) && AllWritten(w.now.stream, acked)
    ensures Quiet(env) && Progress(start, old(w.now.hash), old(w.now.stream), order, env, p, done) ==>
      Progress(start, w.now.hash, w.now.stream, order, env, p + 1, acked)
  {
    ghost var before := w.now;
    ghost var orderly := Quiet(env) && Progress(start, w.now.hash, w.now.stream, order, env, p, done);
    if orderly {
      NextDeliverable(start, w.now.hash, w.now.stream, order, env, p, done);
    }
    var ok := HandOver(w, order[p], env, p);
    StillWritten(before.stream, w.now.stream, done);
    acked := if ok then done + [order[p]] else done;
    if orderly {
      ProgressStep(start, before, w.now, order, env, p, done);
    }
  }

  lemma StillWritten(was: seq<Message>, now: seq<Message>, acked: seq<nat>)
    requires StreamGrows(was, now) && AllWritten(was, acked)
    ensures AllWritten(now, acked)
  {
    forall k | 0 <= k < |acked|
      ensures BothWritten(now, acked[k])
    {
      var i := acked[k];
      var d: nat :| At(was, i, d, BOTH_LANDED);
      assert Later(was[i], now[i]) && AttemptLater(was[i].attempts[d], now[i].attempts[d]);
      assert At(now, i, d, BOTH_LANDED);
    }
  }

  /** The first p messages of an orderly, undisturbed pass are done, the rest untouched. */
  ghost predicate Progress(
    start: Sys, hash': map<string, string>, stream': seq<Message>,
    order: seq<nat>, env: Env, p: nat, acked: seq<nat>)
    requires p <= |order|
  {
    && InOrder(start.stream, order) && |stream'| == |start.stream|
    && (forall j :: p <= j < |order| ==> stream'[order[j]] == start.stream[order[j]])
    && acked == AckedOf(order[..p], env)
    && hash' == Deliveries(start.hash, EventsAt(start.stream, order[..p]), Marks(env, p))
  }

  lemma ProgressEnd(
    start: Sys, hash': map<string, string>, stream': seq<Message>,
    order: seq<nat>, env: Env, acked: seq<nat>)
    requires Progress(start, hash', stream', order, env, |order|, acked)
    ensures acked == AckedOf(order, env) && InOrder(start.stream, order)
    ensures hash' == Deliveries(start.hash, EventsAt(start.stream, order), Marks(env, |order|))
  {
    assert order[..|order|] == order;
  }

  lemma NextDeliverable(
    start: Sys, hash': map<string, string>, stream': seq<Message>,
    order: seq<nat>, env: Env, p: nat, acked: seq<nat>)
    requires p < |order| && Progress(start, hash', stream', order, env, p, acked)
    ensures order[p] < |stream'| && Deliverable(stream'[order[p]])
  {
  }

  lemma ProgressStep(
    start: Sys, before: Sys, after: Sys,
    order: seq<nat>, env: Env, p: nat, acked: seq<nat>)
    requires p < |order| && Progress(start, before.hash, before.stream, order, env, p, acked)
    requires OneDelivery(before, after, order[p], MarkAt(env, p))
    ensures Progress(start, after.hash, after.stream, order, env, p + 1,
      if RepliedAt(env, p) then acked + [order[p]] else acked)
  {
    HashOneMore(start.hash, start.stream, order, env, p);
    AckedOneMore(order, env, p);
    forall j | p + 1 <= j < |order|
      ensures after.stream[order[j]] == start.stream[order[j]]
    {
      assert Ascending(order, p, j);
    }
  }

  lemma AckedOneMore(order: seq<nat>, env: Env, p: nat)
    requires p < |order|
    ensures AckedOf(order[..p + 1], env) ==
            AckedOf(order[..p], env) + (if RepliedAt(env, p) then [order[p]] else [])
  {
    assert order[..p + 1][..p] == order[..p];
  }

  lemma HashOneMore(hash: map<string, string>, stream: seq<Message>, order: seq<nat>, env: Env, p: nat)
    requires p < |order| && forall q :: 0 <= q < |order| ==> order[q] < |stream|
    ensures Deliveries(hash, EventsAt(stream, order[..p + 1]), Marks(env, p + 1)) ==
            Delivery(Deliveries(hash, EventsAt(stream, order[..p]), Marks(env, p)),
                     stream[order[p]].evt, MarkAt(env, p))
  {
    var evts, marks, evt := EventsAt(stream, order[..p]), Marks(env, p), stream[order[p]].evt;
    assert EventsAt(stream, order[..p + 1]) == evts + [evt];
    assert Marks(env, p + 1) == marks + [MarkAt(env, p)];
    DeliveriesAppend(hash, evts, marks, evt, MarkAt(env, p));
  }
}
