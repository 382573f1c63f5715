/** The projection inside whole runs: when from some moment on only the consumer writes the
    hash, message after message, the hash is the projection of the delivered events. */
module Replay {
  import opened Base
  import opened Decimal
  import opened Ledger
  import T = Transactions
  import opened System
  import opened SystemInvariants
  import opened Projection
  import R = Runtime
  import S = Staleness

  /** The steps between states a and n that write or empty the hash, in order. */
  function HashSteps(ss: seq<Sys>, es: seq<Event>, a: nat, n: nat): seq<Event>
    requires |ss| == |es| + 1 && n < |ss|
  {
    if n <= a then []
    else
      HashSteps(ss, es, a, n - 1)
      + (if S.WriteOf(ss[n - 1], es[n - 1]).Some? || es[n - 1].WipeRedis? then [es[n - 1]] else [])
  }

  /** The d-th delivery of the i-th message. */
  datatype Turn = Turn(i: nat, d: nat)

  function Positions(turns: seq<Turn>): seq<nat> {
    seq(|turns|, p requires 0 <= p < |turns| => turns[p].i)
  }

  /** Both writes of each delivery, in the given order. */
  function Pass(turns: seq<Turn>): seq<Event> {
    if turns == [] then []
    else
      var t := turns[|turns| - 1];
      Pass(turns[..|turns| - 1]) + [ProjectSender(t.i, t.d, true), ProjectReceiver(t.i, t.d, true)]
  }

  predicate Projects(e: Event, stream: seq<Message>) {
    (e.ProjectSender? || e.ProjectReceiver?) && e.done && e.i < |stream|
  }

  predicate IsWrite(e: Event) {
    (e.ProjectSender? || e.ProjectReceiver?) && e.done
  }

  function Written(hash: map<string, string>, e: Event, stream: seq<Message>): map<string, string>
    requires Projects(e, stream)
  {
    var evt := stream[e.i].evt;
    if e.ProjectSender? then Hset(hash, evt.senderId, evt.senderBalance)
    else Hset(hash, evt.receiverId, evt.receiverBalance)
  }

  function Replayed(hash: map<string, string>, steps: seq<Event>, stream: seq<Message>): map<string, string>
    requires forall k :: 0 <= k < |steps| ==> Projects(steps[k], stream)
  {
    if steps == [] then hash
    else Written(Replayed(hash, steps[..|steps| - 1], stream), steps[|steps| - 1], stream)
  }

  lemma ReplayedAppend(hash: map<string, string>, steps: seq<Event>, e: Event, stream: seq<Message>)
    requires Projects(e, stream) && forall k :: 0 <= k < |steps| ==> Projects(steps[k], stream)
    ensures forall k :: 0 <= k < |steps + [e]| ==> Projects((steps + [e])[k], stream)
    ensures Replayed(hash, steps + [e], stream) == Written(Replayed(hash, steps, stream), e, stream)
  {
    assert (steps + [e])[..|steps|] == steps;
  }

  /** One step of the run, seen from a later stream. */
  lemma HashAfterStep(s: Sys, e: Event, stream: seq<Message>)
    requires Enabled(s, e) && R.StreamGrows(s.stream, stream)
    ensures S.WriteOf(s, e).None? && !e.WipeRedis? ==> Apply(s, e).hash == s.hash
    ensures IsWrite(e) ==> Projects(e, stream) && Apply(s, e).hash == Written(s.hash, e, stream)
  {
    S.HashOfStep(s, e);
    if IsWrite(e) {
      assert R.Later(s.stream[e.i], stream[e.i]);
    }
  }

  lemma HashBefore(s: Sys, e: Event, stream: seq<Message>)
    requires Enabled(s, e) && R.StreamGrows(Apply(s, e).stream, stream)
    ensures R.StreamGrows(s.stream, stream)
  {
    R.StreamOfStep(s, e);
    R.StreamTransitive(s.stream, Apply(s, e).stream, stream);
  }

  lemma {:induction false} HashIsReplayed(ss: seq<Sys>, es: seq<Event>, a: nat, n: nat, stream: seq<Message>)
    requires IsRun(ss, es) && a <= n < |ss| && R.StreamGrows(ss[n].stream, stream)
    requires forall e :: e in HashSteps(ss, es, a, n) ==> IsWrite(e)
    ensures forall k :: 0 <= k < |HashSteps(ss, es, a, n)| ==> Projects(HashSteps(ss, es, a, n)[k], stream)
    ensures ss[n].hash == Replayed(ss[a].hash, HashSteps(ss, es, a, n), stream)
    decreases n
  {
    if a < n {
      var s, e := ss[n - 1], es[n - 1];
      assert Follows(ss, es, n - 1);
      var before := HashSteps(ss, es, a, n - 1);
      assert forall x :: x in before ==> x in HashSteps(ss, es, a, n);
      HashBefore(s, e, stream);
      HashIsReplayed(ss, es, a, n - 1, stream);
      HashAfterStep(s, e, stream);
      if S.WriteOf(s, e).Some? || e.WipeRedis? {
        assert e in HashSteps(ss, es, a, n);
        ReplayedAppend(ss[a].hash, before, e, stream);
      } else {
        assert HashSteps(ss, es, a, n) == before;
      }
    }
  }

  lemma EventsAtLast(stream: seq<Message>, order: seq<nat>)
    requires order != [] && forall p :: 0 <= p < |order| ==> order[p] < |stream|
    ensures EventsAt(stream, order) ==
            EventsAt(stream, order[..|order| - 1]) + [stream[order[|order| - 1]].evt]
  {
  }

  lemma {:induction false} PassProjects(hash: map<string, string>, turns: seq<Turn>, stream: seq<Message>)
    requires forall p :: 0 <= p < |turns| ==> turns[p].i < |stream|
    ensures forall k :: 0 <= k < |Pass(turns)| ==> Projects(Pass(turns)[k], stream)
    ensures Replayed(hash, Pass(turns), stream) == Project(hash, EventsAt(stream, Positions(turns)))
  {
    if turns != [] {
      var rest, t := turns[..|turns| - 1], turns[|turns| - 1];
      PassProjects(hash, rest, stream);
      OneMorePass(hash, Pass(rest), t, stream);
      assert Positions(turns)[..|turns| - 1] == Positions(rest);
      EventsAtLast(stream, Positions(turns));
      ProjectAppend(hash, EventsAt(stream, Positions(rest)), stream[t.i].evt);
    }
  }

  lemma OneMorePass(hash: map<string, string>, steps: seq<Event>, t: Turn, stream: seq<Message>)
    requires t.i < |stream| && forall k :: 0 <= k < |steps| ==> Projects(steps[k], stream)
    ensures
      var more := steps + [ProjectSender(t.i, t.d, true), ProjectReceiver(t.i, t.d, true)];
      && (forall k :: 0 <= k < |more| ==> Projects(more[k], stream))
      && Replayed(hash, more, stream) == ApplyEvent(Replayed(hash, steps, stream), stream[t.i].evt)
  {
    var first, second := ProjectSender(t.i, t.d, true), ProjectReceiver(t.i, t.d, true);
    ReplayedAppend(hash, steps, first, stream);
    ReplayedAppend(hash, steps + [first], second, stream);
    assert steps + [first, second] == steps + [first] + [second];
  }

  lemma {:induction false} PassWrites(turns: seq<Turn>, e: Event)
    ensures e in Pass(turns) ==> IsWrite(e)
    ensures forall t :: t in turns ==> ProjectSender(t.i, t.d, true) in Pass(turns)
  {
    if turns != [] {
      PassWrites(turns[..|turns| - 1], e);
      assert turns == turns[..|turns| - 1] + [turns[|turns| - 1]];
    }
  }

  /** In every run: when between two states exactly the writes of whole deliveries touched
      the hash, in any order of messages and with repeats, it is the projection of their
      events, whatever committed, was read or was lost meanwhile. */
  lemma DeliveriesProject(ss: seq<Sys>, es: seq<Event>, a: nat, n: nat, turns: seq<Turn>)
    requires IsRun(ss, es) && a <= n < |ss| && HashSteps(ss, es, a, n) == Pass(turns)
    ensures forall p :: 0 <= p < |turns| ==> turns[p].i < |ss[n].stream|
    ensures ss[n].hash == Project(ss[a].hash, EventsAt(ss[n].stream, Positions(turns)))
  {
    forall e | e in Pass(turns)
      ensures IsWrite(e)
    {
      PassWrites(turns, e);
    }
    HashIsReplayed(ss, es, a, n, ss[n].stream);
    forall p | 0 <= p < |turns|
      ensures turns[p].i < |ss[n].stream|
    {
      PassWrites(turns, Deliver(0));
      assert ProjectSender(turns[p].i, turns[p].d, true) in Pass(turns);
    }
    PassProjects(ss[a].hash, turns, ss[n].stream);
  }

  lemma {:induction false} RunStreamGrows(ss: seq<Sys>, es: seq<Event>, i: nat, n: nat)
    requires IsRun(ss, es) && i <= n < |ss|
    ensures R.StreamGrows(ss[i].stream, ss[n].stream)
    decreases n - i
  {
    if i < n {
      assert Follows(ss, es, i);
      RunStreamGrows(ss, es, i + 1, n);
      HashBefore(ss[i], es[i], ss[n].stream);
    }
  }

  /** An acked message is never delivered again, whatever happens to Redis afterwards. */
  lemma NoDeliveryAfterAck(ss: seq<Sys>, es: seq<Event>, i: nat, j: nat, m: nat)
    requires IsRun(ss, es) && i <= j < |es| && m < |ss[i].stream| && ss[i].stream[m].acked
    ensures es[j] != Deliver(m)
  {
    RunStreamGrows(ss, es, i, j);
    assert R.Later(ss[i].stream[m], ss[j].stream[m]);
    assert Follows(ss, es, j);
  }

  function AllOf(n: nat): seq<nat> {
    seq(n, i requires 0 <= i < n => i)
  }

  /** In particular one in-order pass over a stream that holds all committed transfers in
      commit order leaves the row's balance in the field of every touched user, whatever
      the hash held before; other users' rows have the opening balance. */
  lemma InOrderPassRebuilds(ss: seq<Sys>, es: seq<Event>, a: nat, n: nat, turns: seq<Turn>, user: int)
    requires IsRun(ss, es) && a <= n < |ss| && |ss[n].db.hist| == |ss[n].db.log| + 1
    requires HashSteps(ss, es, a, n) == Pass(turns) && Positions(turns) == AllOf(|ss[n].stream|)
    requires EventsAt(ss[n].stream, AllOf(|ss[n].stream|)) == CommittedEvents(ss[n].db, |ss[n].db.log|)
    ensures
      var db := ss[n].db;
      var last := LastBalance(CommittedEvents(db, |db.log|), user);
      && (last.Some? ==>
            && user in T.Current(db).users && Itoa(user) in ss[n].hash
            && ss[n].hash[Itoa(user)] == Itoa(T.Current(db).users[user].balance))
      && (last.None? && user in T.Current(db).users ==> T.Current(db).users[user].balance == OPENING_BALANCE)
  {
    var db := ss[n].db;
    RunInv(ss, es, n);
    DeliveriesProject(ss, es, a, n, turns);
    LastEventIsCurrent(db, |db.log|, user);
    LastEventWins(ss[a].hash, CommittedEvents(db, |db.log|), user);
  }
}
