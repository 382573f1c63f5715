/** Acknowledging a notification as the program runs it. */
module NotificationService {
  import opened Base
  import opened Ledger
  import T = Transactions
  import opened System
  import SI = SystemInvariants
  import opened Runtime

  predicate IsNote(n: Notification, user: int, id: int) { n.id == id && n.userId == user }

  ghost predicate IsReadBy(notes: seq<Notification>, user: int, id: int) {
    exists i :: 0 <= i < |notes| && IsNote(notes[i], user, id) && notes[i].isRead
  }

  ghost predicate OwnsNone(notes: seq<Notification>, user: int, id: int) {
    forall i :: 0 <= i < |notes| ==> !IsNote(notes[i], user, id)
  }

  /** The user's acknowledgement was the last operation, and affected a notification of
      the user's or found none. */
  ghost predicate Acknowledged(was: T.Db, now: T.Db, user: int, id: int, affected: bool) {
    && |now.log| > |was.log| && now.log[|now.log| - 1] == Acked(user, id)
    && (affected ==> IsReadBy(T.Current(now).notes, user, id))
    && (!affected ==> OwnsNone(T.Current(now).notes, user, id))
  }

  /** RequireSession around handleAck, for invocation a; checked is the state the session
      check met. 404 says that the caller owns no notification with this id, whoever else
      may; 200 and 404 both mean that the caller's own acknowledgement was performed. */
  method HandleAck(w: World, a: nat, sid: string, id: int, env: Env)
    returns (status: int, user: int, ghost checked: Sys)
    requires w.Valid() && a !in w.now.acks
    modifies w
    ensures w.Valid() && status in {200, 400, 401, 404, 500} && SI.Extends(checked.db, w.now.db)
    ensures Rely(Acker(a), old(w.now), checked) && (env(0).others == [] ==> checked == old(w.now))
    ensures status in {200, 400, 404} ==> SessionUser(checked.sessions, sid) == Some(user)
    ensures status == 401 <==> env(0).Replied() && SessionUser(checked.sessions, sid).None?
    ensures status == 500 <==>
      || !env(0).Replied()
      || (SessionUser(checked.sessions, sid).Some? && id != 0 && !env(1).Replied())
    ensures status == 400 <==> env(0).Replied() && SessionUser(checked.sessions, sid).Some? && id == 0
    ensures status == 200 ==> Acknowledged(checked.db, w.now.db, user, id, true)
    ensures status == 404 ==> Acknowledged(checked.db, w.now.db, user, id, false)
    ensures env(1).others == [] ==>
      |w.now.db.log| == |checked.db.log| + if status in {200, 404} then 1 else 0
  {
    w.Interfere(Acker(a), env(0).others);
    checked, user := w.now, 0;
    var caller := SessionUser(w.now.sessions, sid);
    if !env(0).Replied() || caller.None? {
      return if env(0).Replied() then 401 else 500, user, checked;
    }
    user := caller.value;
    status := 400;
    if id != 0 {
      w.Do(StartAck(a, sid, id));
      status := AckAs(w, a, env(1));
    }
  }

  /** handleAck behind its session check. */
  method AckAs(w: World, a: nat, m: Move) returns (status: int)
    requires w.Valid() && a in w.now.acks && w.now.acks[a].Acking?
    modifies w
    ensures w.Valid() && status in {200, 404, 500} && SI.Extends(old(w.now.db), w.now.db)
    ensures status == 500 <==> !m.Replied()
    ensures status in {200, 404} ==>
      Acknowledged(old(w.now.db), w.now.db, old(w.now.acks[a].user), old(w.now.acks[a].note), status == 200)
    ensures m.others == [] ==> |w.now.db.log| == |old(w.now.db.log)| + if status in {200, 404} then 1 else 0
  {
    w.Interfere(Acker(a), m.others);
    if !m.Replied() {
      return 500;
    }
    ghost var arrived := w.now.db;
    var affected := UpdateRead(w, a);
    ExtendsTransitive(old(w.now.db), arrived, w.now.db);
    status := if affected then 200 else 404;
  }

  /** UPDATE notifications SET is_read = true WHERE id = ? AND user_id = ?. */
  method UpdateRead(w: World, a: nat) returns (affected: bool)
    requires w.Valid() && a in w.now.acks && w.now.acks[a].Acking?
    modifies w
    ensures w.Valid() && SI.Extends(old(w.now.db), w.now.db)
    ensures Acknowledged(old(w.now.db), w.now.db, old(w.now.acks[a].user), old(w.now.acks[a].note), affected)
    ensures |w.now.db.log| == |old(w.now.db.log)| + 1
  {
    var notes, user, id := T.Current(w.now.db).notes, w.now.acks[a].user, w.now.acks[a].note;
    affected := exists i :: 0 <= i < |notes| && IsNote(notes[i], user, id);
    RunAckEffect(w.now, a, affected);
    w.Do(RunAck(a));
  }

  lemma RunAckEffect(s: Sys, a: nat, affected: bool)
    requires a in s.acks && s.acks[a].Acking?
    requires affected <==>
      exists i :: 0 <= i < |T.Current(s.db).notes| && IsNote(T.Current(s.db).notes[i], s.acks[a].user, s.acks[a].note)
    ensures
      && var now := Apply(s, RunAck(a)).db;
      && SI.Extends(s.db, now) && |now.log| == |s.db.log| + 1
      && Acknowledged(s.db, now, s.acks[a].user, s.acks[a].note, affected)
  {
    SI.DbOfStep(s, RunAck(a));
    SI.StepExtends(s.db, T.Ack(s.acks[a].user, s.acks[a].note));
    AckEffect(s.db, s.acks[a].user, s.acks[a].note, affected);
  }

  lemma AckEffect(db: T.Db, user: int, id: int, affected: bool)
    requires affected <==>
      exists i :: 0 <= i < |T.Current(db).notes| && IsNote(T.Current(db).notes[i], user, id)
    ensures
      && var now := T.Apply(db, T.Ack(user, id));
      && Acknowledged(db, now, user, id, affected) && |now.log| == |db.log| + 1
  {
    var notes, now := T.Current(db).notes, T.Current(T.Apply(db, T.Ack(user, id))).notes;
    assert now == AckNotes(notes, user, id);
    if affected {
      var i :| 0 <= i < |notes| && IsNote(notes[i], user, id);
      assert IsNote(now[i], user, id) && now[i].isRead;
    }
  }
}
