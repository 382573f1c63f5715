/** What the durable consumer can still write after Redis was emptied: it keeps its offset,
    so only deliveries not yet finished, or still to come, write again. */
module Wipe {
  import opened Base
  import opened Decimal
  import opened Ledger
  import T = Transactions
  import opened System
  import opened SystemInvariants
  import R = Runtime
  import S = Staleness
  import RP = Replay
  import SR = StaleRun

  // ---------------------------------------------------------------- spent messages

  /** A delivery whose callback has a write left. */
  predicate Open(a: Attempt) {
    a.sender.Pending? || a.receiver.Pending?
  }

  predicate OpenAt(m: Message, d: nat) {
    d < |m.attempts| && Open(m.attempts[d])
  }

  /** Some delivery is unfinished, or another one is still allowed. */
  ghost predicate MayWrite(m: Message) {
    (exists d: nat :: OpenAt(m, d)) || (!m.acked && |m.attempts| < MAX_DELIVER)
  }

  predicate WritesMessage(e: Event, i: nat) {
    RP.IsWrite(e) && e.i == i
  }

  ghost predicate IsPath(ss: seq<Sys>, es: seq<Event>) {
    && |ss| == |es| + 1
    && forall i {:trigger Follows(ss, es, i)} :: 0 <= i < |es| ==> Follows(ss, es, i)
  }

  /** Some continuation of s writes the balances of message i. */
  ghost predicate CanStillWrite(s: Sys, i: nat) {
    exists ss, es :: EndsInWrite(ss, es, s, i)
  }

  ghost predicate EndsInWrite(ss: seq<Sys>, es: seq<Event>, s: Sys, i: nat) {
    IsPath(ss, es) && ss[0] == s && es != [] && WritesMessage(es[|es| - 1], i)
  }

  lemma SpentAfter(m: Message, e: Event)
    requires OfConsumer(e) && !MayWrite(m)
    requires e.Deliver? ==> !m.acked && |m.attempts| < MAX_DELIVER
    requires e.ProjectSender? ==> e.d < |m.attempts| && m.attempts[e.d].sender.Pending?
    requires e.ProjectReceiver? ==> e.d < |m.attempts| && m.attempts[e.d].receiver.Pending?
    ensures e.AckMessage? && !MayWrite(MessageAfter(m, e))
  {
    if e.ProjectSender? || e.ProjectReceiver? {
      assert OpenAt(m, e.d);
    } else if e.AckMessage? {
      assert forall d: nat :: OpenAt(MessageAfter(m, e), d) ==> OpenAt(m, d);
    }
  }

  lemma SpentInConsumer(s: Sys, e: Event, i: nat)
    requires OfConsumer(e) && ConsumerEnabled(s, e) && i < |s.stream| && !MayWrite(s.stream[i])
    ensures i < |ConsumerStep(s, e).stream| && !MayWrite(ConsumerStep(s, e).stream[i]) && !WritesMessage(e, i)
  {
    if e.i == i {
      SpentAfter(s.stream[i], e);
    }
  }

  /** A spent message stays spent, and is not the one written. */
  lemma SpentStays(s: Sys, e: Event, i: nat)
    requires Enabled(s, e) && i < |s.stream| && !MayWrite(s.stream[i])
    ensures i < |Apply(s, e).stream| && !MayWrite(Apply(s, e).stream[i]) && !WritesMessage(e, i)
  {
    if OfConsumer(e) {
      SpentInConsumer(s, e, i);
    } else if e.Publish? {
      R.PublishStreamGrows(s, EventOf(s, e.r));
      PublishKeepsMessage(s, EventOf(s, e.r), i);
    }
  }

  lemma PublishKeepsMessage(s: Sys, evt: TransferCompleted, i: nat)
    requires i < |s.stream|
    ensures i < |PublishMsg(s, evt).stream| && PublishMsg(s, evt).stream[i] == s.stream[i]
  {
  }

  lemma {:induction false} SpentForGood(ss: seq<Sys>, es: seq<Event>, i: nat, n: nat)
    requires IsPath(ss, es) && n < |ss| && i < |ss[0].stream| && !MayWrite(ss[0].stream[i])
    ensures i < |ss[n].stream| && !MayWrite(ss[n].stream[i])
    ensures n < |es| ==> !WritesMessage(es[n], i)
    decreases n
  {
    if n > 0 {
      SpentForGood(ss, es, i, n - 1);
      assert Follows(ss, es, n - 1);
      SpentStays(ss[n - 1], es[n - 1], i);
    }
    if n < |es| {
      assert Follows(ss, es, n);
      SpentStays(ss[n], es[n], i);
    }
  }

  lemma OneStepWrites(s: Sys, e: Event, i: nat)
    requires Enabled(s, e) && WritesMessage(e, i)
    ensures CanStillWrite(s, i)
  {
    var ss, es := [s, Apply(s, e)], [e];
    assert Follows(ss, es, 0);
    assert EndsInWrite(ss, es, s, i);
  }

  lemma DeliveryWrites(s: Sys, i: nat)
    requires i < |s.stream| && !s.stream[i].acked && |s.stream[i].attempts| < MAX_DELIVER
    ensures CanStillWrite(s, i)
  {
    var write := ProjectSender(i, |s.stream[i].attempts|, true);
    var s1 := ConsumerStep(s, Deliver(i));
    assert s1 == Apply(s, Deliver(i));
    var ss, es := [s, s1, Apply(s1, write)], [Deliver(i), write];
    assert Follows(ss, es, 0) && Follows(ss, es, 1);
    assert EndsInWrite(ss, es, s, i);
  }

  /** From any state, a stored message can still write its balances if and only if one of
      its deliveries has a write left, or it is unacked with a delivery left. */
  lemma CanStillWriteIff(s: Sys, i: nat)
    requires i < |s.stream|
    ensures CanStillWrite(s, i) <==> MayWrite(s.stream[i])
  {
    var m := s.stream[i];
    if CanStillWrite(s, i) && !MayWrite(m) {
      var ss, es :| EndsInWrite(ss, es, s, i);
      SpentForGood(ss, es, i, |es| - 1);
      assert false;
    }
    if d: nat :| OpenAt(m, d) {
      var sender := m.attempts[d].sender.Pending?;
      OneStepWrites(s, if sender then ProjectSender(i, d, true) else ProjectReceiver(i, d, true), i);
    } else if MayWrite(m) {
      DeliveryWrites(s, i);
    }
  }

  // ---------------------------------------------------------------- after a wipe

  /** In every run: a wipe empties the hash and leaves the consumer where it was, so a
      message stored before writes again after it if and only if it was not spent. */
  lemma WipeReplaysOnlyUnspent(ss: seq<Sys>, es: seq<Event>, n: nat, i: nat)
    requires IsRun(ss, es) && n < |es| && es[n].WipeRedis? && i < |ss[n].stream|
    ensures ss[n + 1].hash == map[] && ss[n + 1].stream == ss[n].stream
    ensures CanStillWrite(ss[n + 1], i) <==> MayWrite(ss[n].stream[i])
  {
    assert Follows(ss, es, n);
    CanStillWriteIff(ss[n + 1], i);
  }

  ghost predicate AllSpent(stream: seq<Message>) {
    forall i :: 0 <= i < |stream| ==> !MayWrite(stream[i])
  }

  lemma {:induction false} RunSpentForGood(ss: seq<Sys>, es: seq<Event>, w: nat, n: nat, i: nat)
    requires IsRun(ss, es) && w <= n < |ss| && i < |ss[w].stream| && !MayWrite(ss[w].stream[i])
    ensures i < |ss[n].stream| && !MayWrite(ss[n].stream[i])
    ensures n < |es| ==> !WritesMessage(es[n], i)
    decreases n
  {
    if w < n {
      RunSpentForGood(ss, es, w, n - 1, i);
      assert Follows(ss, es, n - 1);
      SpentStays(ss[n - 1], es[n - 1], i);
    }
    if n < |es| {
      assert Follows(ss, es, n);
      SpentStays(ss[n], es[n], i);
    }
  }

  /** When every message was spent at the wipe, whatever the hash holds later was written
      after it by a post-commit pipeline, a back-fill, or a message published since. */
  lemma RefilledOnlyByNewWrites(ss: seq<Sys>, es: seq<Event>, w: nat, n: nat, u: int) returns (i: nat, k: nat)
    requires IsRun(ss, es) && w < n < |ss| && es[w].WipeRedis? && AllSpent(ss[w].stream)
    requires Itoa(u) in ss[n].hash
    ensures w < i && S.LastWrite(ss, es, n, u, i, k)
    ensures es[i].HsetSender? || es[i].HsetReceiver? || es[i].BalanceFill?
            || (RP.IsWrite(es[i]) && |ss[w].stream| <= es[i].i)
  {
    i, k := S.FieldHasLastWrite(ss, es, n, u);
    if i <= w {
      assert false;
    }
    if RP.IsWrite(es[i]) && es[i].i < |ss[w].stream| {
      RunSpentForGood(ss, es, w, i, es[i].i);
      assert false;
    }
  }

  // ---------------------------------------------------------------- a wipe that loses a field

  /** The event of the transfer between the two users has been published. */
  lemma Published() returns (s: Sys)
    ensures SR.Reachable(s) && 1 in T.Current(s.db).users
    ensures |s.stream| == 1 && s.stream[0].attempts == [] && !s.stream[0].acked && s.stream[0].evt.senderId == 1
  {
    var s0 := SR.AfterTransfer();
    SR.PipelineRuns(s0, 0);
    var s1 := SR.AfterPipeline(s0, 0);
    SR.ReachPipeline(s0, 0, s1);
    s := SR.ReachPublish(s1, 0);
    FirstMessage(s1, EventOf(s1, 0));
  }

  lemma FirstMessage(s: Sys, evt: TransferCompleted)
    requires s.stream == []
    ensures PublishMsg(s, evt).stream == [Message(Itoa(evt.transferId), evt, s.clock, [], false)]
  {
  }

  lemma ReachConsumer(s: Sys, e: Event) returns (s': Sys)
    requires SR.Reachable(s) && OfConsumer(e) && ConsumerEnabled(s, e)
    ensures SR.Reachable(s') && s' == ConsumerStep(s, e)
  {
    s' := ConsumerStep(s, e);
    assert s' == Apply(s, e);
    SR.ReachStep(s, e);
  }

  /** The consumer has written both balances and acked. */
  lemma Consumed() returns (s: Sys)
    ensures SR.Reachable(s) && 1 in T.Current(s.db).users && |s.stream| == 1
    ensures s.stream[0].acked && s.stream[0].evt.senderId == 1 && s.stream[0].attempts == [BOTH_LANDED]
  {
    var s0 := Published();
    var s1 := ReachConsumer(s0, Deliver(0));
    var s2 := ReachConsumer(s1, ProjectSender(0, 0, true));
    var s3 := ReachConsumer(s2, ProjectReceiver(0, 0, true));
    s := ReachConsumer(s3, AckMessage(0, 0));
  }

  /** A reachable state after a wipe: user 1 took part in the one transfer of the stream,
      whose message is acked and spent, so no delivery brings the user's field back. */
  lemma WipeLosesField() returns (s: Sys)
    ensures SR.Reachable(s) && 1 in T.Current(s.db).users
    ensures |s.stream| == 1 && s.stream[0].acked && s.stream[0].evt.senderId == 1 && AllSpent(s.stream)
    ensures Itoa(1) !in s.hash && !CanStillWrite(s, 0)
  {
    var s4 := Consumed();
    SR.ReachStep(s4, WipeRedis);
    s := Apply(s4, WipeRedis);
    assert !MayWrite(s.stream[0]);
    CanStillWriteIff(s, 0);
  }
}
