/** The three tables, the statements the transfer transaction runs on them, and an
    independent reference: what one operation does when it runs alone, atomically. */
module Ledger {
  import opened Base
  import opened Decimal

  const OPENING_BALANCE: int := 100000
  const ACCOUNT_DIGITS: nat := 12
  const MAX_PHONE: nat := 20
  const MAX_USERNAME: nat := 50
  const MAX_HASH: nat := 255

  datatype User = User(
    id: int, phone: string, accountNumber: string, username: string,
    passwordHash: string, balance: int, isAdmin: bool)

  datatype Transfer = Transfer(id: int, fromUser: int, toUser: int, amount: int)

  datatype Notification = Notification(id: int, userId: int, message: string, isRead: bool)

  /** transfers and notes list their rows in commit order. */
  datatype Tables = Tables(
    users: map<int, User>, transfers: seq<Transfer>, notes: seq<Notification>)

  const EMPTY_TABLES: Tables := Tables(map[], [], [])

  // ---------------------------------------------------------------- lookup by identifier

  datatype Key = ByAccount(value: string) | ByPhone(value: string) | ByUsername(value: string)

  /** The first non-empty identifier wins: account number, then phone, then username. */
  function UserIdentifierCol(accountNumber: string, phone: string, username: string): Key {
    if accountNumber != "" then ByAccount(accountNumber)
    else if phone != "" then ByPhone(phone)
    else ByUsername(username)
  }

  predicate Matches(u: User, key: Key) {
    match key
    case ByAccount(v) => u.accountNumber == v
    case ByPhone(v) => u.phone == v
    case ByUsername(v) => u.username == v
  }

  /** What the chosen identifier selects, by fields. */
  lemma IdentifierByFields(u: User, accountNumber: string, phone: string, username: string)
    ensures Matches(u, UserIdentifierCol(accountNumber, phone, username)) <==>
      if accountNumber != "" then u.accountNumber == accountNumber
      else if phone != "" then u.phone == phone
      else u.username == username
  {
  }

  /** bob.One without ORDER BY: any matching row, or no row when none matches. */
  predicate MayReturn(users: map<int, User>, key: Key, pick: Option<int>) {
    match pick
    case Some(id) => id in users && Matches(users[id], key)
    case None => forall id :: id in users ==> !Matches(users[id], key)
  }

  // ---------------------------------------------------------------- the CASE update

  /** The CASE expression for one row; None is SQL NULL, when neither arm fires. */
  function CaseBalance(u: User, sender: int, receiver: int, amount: int): Option<int> {
    if u.id == sender && u.balance >= amount then Some(u.balance - amount)
    else if u.id == receiver then Some(u.balance + amount)
    else None
  }

  datatype UpdateOutcome =
    | Updated(rows: map<int, User>)
    | NotNullViolation
    | OutOfRange
    | CheckViolation

  /** UPDATE users SET balance = CASE ... END WHERE id IN (sender, receiver): every
      matched row gets its CASE value, and the column refuses NULL, a value outside
      BIGINT and a negative balance. The number of rows is RowsAffected. */
  function UpdateBalances(users: map<int, User>, sender: int, receiver: int, amount: int): UpdateOutcome {
    var hit := set id | id in users && (id == sender || id == receiver);
    if exists id :: id in hit && CaseBalance(users[id], sender, receiver, amount).None? then NotNullViolation
    else if exists id :: id in hit && !IsInt64(CaseBalance(users[id], sender, receiver, amount).value) then OutOfRange
    else if exists id :: id in hit && CaseBalance(users[id], sender, receiver, amount).value < 0 then CheckViolation
    else Updated(map id | id in hit ::
      users[id].(balance := CaseBalance(users[id], sender, receiver, amount).value))
  }

  predicate RowsWellFormed(users: map<int, User>) {
    forall id :: id in users ==> users[id].id == id && 0 <= users[id].balance <= MAX_INT64
  }

  /** The update touches exactly two rows exactly when both exist, are distinct, the
      sender has the funds and the credit fits; then it writes a debit and a credit. */
  lemma CaseUpdateTwoRows(users: map<int, User>, sender: int, receiver: int, amount: int)
    requires RowsWellFormed(users) && amount > 0
    ensures
      var out := UpdateBalances(users, sender, receiver, amount);
      (out.Updated? && |out.rows| == 2) <==>
        (sender in users && receiver in users && sender != receiver
         && users[sender].balance >= amount && IsInt64(users[receiver].balance + amount))
    ensures
      var out := UpdateBalances(users, sender, receiver, amount);
      out.Updated? && |out.rows| == 2 ==>
        out.rows == map[
          sender := users[sender].(balance := users[sender].balance - amount),
          receiver := users[receiver].(balance := users[receiver].balance + amount)]
  {
    var hit := set id | id in users && (id == sender || id == receiver);
    var out := UpdateBalances(users, sender, receiver, amount);
    if out.Updated? {
      assert out.rows.Keys == hit;
      assert |out.rows| == |hit|;
    }
    if sender in users && receiver in users && sender != receiver {
      assert hit == {sender, receiver};
      if users[sender].balance < amount {
        assert sender in hit && CaseBalance(users[sender], sender, receiver, amount).None?;
      } else if !IsInt64(users[receiver].balance + amount) {
        assert receiver in hit;
      } else {
        assert CaseBalance(users[sender], sender, receiver, amount) == Some(users[sender].balance - amount);
        assert CaseBalance(users[receiver], sender, receiver, amount) == Some(users[receiver].balance + amount);
      }
    } else {
      assert hit <= {sender} || hit <= {receiver};
      TwoNeedsTwo(hit, sender, receiver);
    }
  }

  lemma TwoNeedsTwo(hit: set<int>, a: int, b: int)
    requires hit <= {a} || hit <= {b}
    ensures |hit| <= 1
  {
    var one := if hit <= {a} then a else b;
    assert hit == {} || hit == {one};
  }

  /** The guard on the sender arm never reports fewer rows: when the funds are missing
      and the parties differ, the CASE yields NULL and the statement itself fails. */
  lemma MissingFundsViolateNotNull(users: map<int, User>, sender: int, receiver: int, amount: int)
    requires RowsWellFormed(users) && amount > 0
    requires sender in users && sender != receiver
    ensures UpdateBalances(users, sender, receiver, amount).NotNullViolation?
            <==> users[sender].balance < amount
  {
    var hit := set id | id in users && (id == sender || id == receiver);
    assert sender in hit;
    assert CaseBalance(users[sender], sender, receiver, amount).None? <==> users[sender].balance < amount;
    assert receiver in hit ==> CaseBalance(users[receiver], sender, receiver, amount).Some?;
  }

  // ---------------------------------------------------------------- reference operations

  /** One committed operation, in commit order. Row ids come from sequences, which are
      not transactional, so an operation records the ids it drew. */
  datatype Op =
    | Transferred(req: nat, sender: int, key: Key, amount: int, receiver: int, transferId: int, noteId: int)
    | Registered(id: int, phone: string, accountNumber: string, username: string, passwordHash: string)
    | Acked(user: int, note: int)

  function SenderMessage(amount: int, receiver: string): string {
    "You sent " + Itoa(amount) + " to " + receiver
  }

  function ReceiverMessage(amount: int, sender: string): string {
    "You received " + Itoa(amount) + " from " + sender
  }

  function NotesFor(s: User, r: User, amount: int, noteId: int): seq<Notification> {
    [Notification(noteId, s.id, SenderMessage(amount, r.username), false),
     Notification(noteId + 1, r.id, ReceiverMessage(amount, s.username), false)]
  }

  predicate FreshTransferId(ts: seq<Transfer>, id: int) {
    forall k :: 0 <= k < |ts| ==> ts[k].id != id
  }

  /** The two consecutive ids a transfer's notifications take. */
  predicate FreshNoteIds(ns: seq<Notification>, id: int) {
    forall k :: 0 <= k < |ns| ==> ns[k].id != id && ns[k].id != id + 1
  }

  function AckNotes(notes: seq<Notification>, user: int, note: int): (r: seq<Notification>)
    ensures |r| == |notes|
  {
    seq(|notes|, i requires 0 <= i < |notes| =>
      if notes[i].id == note && notes[i].userId == user then notes[i].(isRead := true) else notes[i])
  }

  predicate CanTransfer(t: Tables, op: Op)
    requires op.Transferred?
  {
    && op.amount > 0
    && op.receiver in t.users && Matches(t.users[op.receiver], op.key)
    && op.sender in t.users && op.sender != op.receiver
    && t.users[op.sender].balance >= op.amount
    && IsInt64(t.users[op.receiver].balance + op.amount)
    && FreshTransferId(t.transfers, op.transferId)
    && FreshNoteIds(t.notes, op.noteId)
  }

  predicate CanRegister(t: Tables, op: Op)
    requires op.Registered?
  {
    && op.id !in t.users && IsInt64(op.id)
    && |op.phone| <= MAX_PHONE && |op.username| <= MAX_USERNAME && |op.passwordHash| <= MAX_HASH
    && AllDigits(op.accountNumber) && |op.accountNumber| == ACCOUNT_DIGITS
    && forall id :: id in t.users ==>
         t.users[id].phone != op.phone && t.users[id].accountNumber != op.accountNumber
  }

  /** The operation run alone on t, or None when it would not commit there. */
  function SerialApply(t: Tables, op: Op): Option<Tables> {
    match op
    case Transferred(_, s, _, amount, r, tid, nid) =>
      if !CanTransfer(t, op) then None else
        Some(Tables(
          t.users[s := t.users[s].(balance := t.users[s].balance - amount)]
                 [r := t.users[r].(balance := t.users[r].balance + amount)],
          t.transfers + [Transfer(tid, s, r, amount)],
          t.notes + NotesFor(t.users[s], t.users[r], amount, nid)))
    case Registered(id, phone, account, username, hash) =>
      if !CanRegister(t, op) then None else
        Some(t.(users := t.users[id := User(id, phone, account, username, hash, OPENING_BALANCE, false)]))
    case Acked(user, note) => Some(t.(notes := AckNotes(t.notes, user, note)))
  }

  /** The operations run one after the other from empty tables. */
  function SerialRun(ops: seq<Op>): Option<Tables> {
    if ops == [] then Some(EMPTY_TABLES)
    else
      var before := SerialRun(ops[..|ops| - 1]);
      if before.None? then None else SerialApply(before.value, ops[|ops| - 1])
  }

  // ---------------------------------------------------------------- what every state keeps

  function Received(ts: seq<Transfer>, u: int): int {
    if ts == [] then 0
    else Received(ts[..|ts| - 1], u) + (if ts[|ts| - 1].toUser == u then ts[|ts| - 1].amount else 0)
  }

  function Sent(ts: seq<Transfer>, u: int): int {
    if ts == [] then 0
    else Sent(ts[..|ts| - 1], u) + (if ts[|ts| - 1].fromUser == u then ts[|ts| - 1].amount else 0)
  }

  ghost function Balances(users: map<int, User>): map<int, int> {
    map id | id in users :: users[id].balance
  }

  ghost function TotalBalance(users: map<int, User>): int {
    Sum(Balances(users))
  }

  ghost predicate BalancesAgree(t: Tables) {
    forall u :: u in t.users ==>
      t.users[u].balance == OPENING_BALANCE + Received(t.transfers, u) - Sent(t.transfers, u)
  }

  ghost predicate TransfersValid(t: Tables) {
    && (forall k :: 0 <= k < |t.transfers| ==>
          && t.transfers[k].amount > 0 && t.transfers[k].fromUser != t.transfers[k].toUser
          && t.transfers[k].fromUser in t.users && t.transfers[k].toUser in t.users)
    && (forall j, k :: 0 <= j < k < |t.transfers| ==> t.transfers[j].id != t.transfers[k].id)
  }

  /** Two notifications per transfer, the sender's then the receiver's. */
  ghost predicate NotesPaired(t: Tables) {
    && |t.notes| == 2 * |t.transfers|
    && forall k :: 0 <= k < |t.transfers| ==>
         && t.notes[2 * k].userId == t.transfers[k].fromUser
         && t.notes[2 * k + 1].userId == t.transfers[k].toUser
  }

  ghost predicate UsersDistinct(t: Tables) {
    && (forall i, j :: i in t.users && j in t.users && i != j ==>
          t.users[i].phone != t.users[j].phone && t.users[i].accountNumber != t.users[j].accountNumber)
    && (forall i :: i in t.users ==>
          && IsInt64(i) && AllDigits(t.users[i].accountNumber)
          && |t.users[i].accountNumber| == ACCOUNT_DIGITS)
  }

  ghost predicate LedgerOK(t: Tables) {
    && RowsWellFormed(t.users)
    && BalancesAgree(t)
    && TransfersValid(t)
    && NotesPaired(t)
    && UsersDistinct(t)
    && TotalBalance(t.users) == OPENING_BALANCE * |t.users|
  }

  lemma SumsAppend(ts: seq<Transfer>, x: Transfer, u: int)
    ensures Received(ts + [x], u) == Received(ts, u) + (if x.toUser == u then x.amount else 0)
    ensures Sent(ts + [x], u) == Sent(ts, u) + (if x.fromUser == u then x.amount else 0)
  {
    assert (ts + [x])[..|ts + [x]| - 1] == ts;
  }

  lemma {:induction false} SumsOfStranger(ts: seq<Transfer>, u: int)
    requires forall k :: 0 <= k < |ts| ==> ts[k].fromUser != u && ts[k].toUser != u
    ensures Received(ts, u) == 0 && Sent(ts, u) == 0
  {
    if ts != [] {
      SumsOfStranger(ts[..|ts| - 1], u);
    }
  }

  lemma TotalUpdate(users: map<int, User>, id: int, u: User)
    ensures TotalBalance(users[id := u]) ==
            TotalBalance(users) - (if id in users then users[id].balance else 0) + u.balance
  {
    SumUpdate(Balances(users), id, u.balance);
    assert Balances(users)[id := u.balance] == Balances(users[id := u]);
  }

  /** Every operation that runs keeps every part of the ledger's agreement. */
  lemma SerialKeepsLedger(t: Tables, op: Op)
    requires LedgerOK(t) && SerialApply(t, op).Some?
    ensures LedgerOK(SerialApply(t, op).value)
  {
    match op
    case Transferred(_, _, _, _, _, _, _) => TransferKeepsLedger(t, op);
    case Registered(_, _, _, _, _) => RegisterKeepsLedger(t, op);
    case Acked(_, _) =>
  }

  lemma TransferKeepsLedger(t: Tables, op: Op)
    requires LedgerOK(t) && op.Transferred? && CanTransfer(t, op)
    ensures LedgerOK(SerialApply(t, op).value)
  {
    var t' := SerialApply(t, op).value;
    TransferKeepsBalances(t, op, t');
    TransferKeepsTotal(t, op, t');
    TransferKeepsRows(t, op, t');
  }

  lemma TransferKeepsBalances(t: Tables, op: Op, t': Tables)
    requires op.Transferred? && SerialApply(t, op) == Some(t')
    requires BalancesAgree(t) && RowsWellFormed(t.users)
    ensures BalancesAgree(t') && RowsWellFormed(t'.users)
  {
    var x := Transfer(op.transferId, op.sender, op.receiver, op.amount);
    forall u | u in t'.users
      ensures t'.users[u].balance == OPENING_BALANCE + Received(t'.transfers, u) - Sent(t'.transfers, u)
    {
      SumsAppend(t.transfers, x, u);
    }
  }

  lemma TransferKeepsTotal(t: Tables, op: Op, t': Tables)
    requires op.Transferred? && SerialApply(t, op) == Some(t')
    ensures TotalBalance(t'.users) == TotalBalance(t.users) && |t'.users| == |t.users|
  {
    var debited := t.users[op.sender].(balance := t.users[op.sender].balance - op.amount);
    var credited := t.users[op.receiver].(balance := t.users[op.receiver].balance + op.amount);
    TotalUpdate(t.users, op.sender, debited);
    TotalUpdate(t.users[op.sender := debited], op.receiver, credited);
    assert t'.users.Keys == t.users.Keys;
    assert |t'.users.Keys| == |t.users.Keys|;
  }

  lemma TransferKeepsRows(t: Tables, op: Op, t': Tables)
    requires op.Transferred? && SerialApply(t, op) == Some(t')
    requires RowsWellFormed(t.users) && TransfersValid(t) && NotesPaired(t) && UsersDistinct(t)
    ensures TransfersValid(t') && NotesPaired(t') && UsersDistinct(t')
  {
    var n := |t.transfers|;
    forall k | 0 <= k < n + 1
      ensures t'.notes[2 * k].userId == t'.transfers[k].fromUser
      ensures t'.notes[2 * k + 1].userId == t'.transfers[k].toUser
    {
      if k < n {
        assert t'.transfers[k] == t.transfers[k];
        assert t'.notes[2 * k] == t.notes[2 * k] && t'.notes[2 * k + 1] == t.notes[2 * k + 1];
      }
    }
    forall i | i in t'.users
      ensures i in t.users && SameIdentity(t.users[i], t'.users[i])
    {
    }
  }

  lemma RegisterKeepsLedger(t: Tables, op: Op)
    requires LedgerOK(t) && op.Registered? && CanRegister(t, op)
    ensures LedgerOK(SerialApply(t, op).value)
  {
    var t' := SerialApply(t, op).value;
    RegisterKeepsTotal(t, op, t');
    RegisterKeepsRows(t, op, t');
    RegisterKeepsDistinct(t, op, t');
  }

  lemma RegisterKeepsTotal(t: Tables, op: Op, t': Tables)
    requires op.Registered? && SerialApply(t, op) == Some(t')
    ensures TotalBalance(t'.users) == TotalBalance(t.users) + OPENING_BALANCE && |t'.users| == |t.users| + 1
  {
    TotalUpdate(t.users, op.id, t'.users[op.id]);
    assert t'.users.Keys == t.users.Keys + {op.id};
    assert |t'.users.Keys| == |t.users.Keys| + 1;
  }

  lemma RegisterKeepsRows(t: Tables, op: Op, t': Tables)
    requires op.Registered? && SerialApply(t, op) == Some(t')
    requires RowsWellFormed(t.users) && BalancesAgree(t) && TransfersValid(t)
    ensures RowsWellFormed(t'.users) && BalancesAgree(t') && TransfersValid(t')
  {
    SumsOfStranger(t.transfers, op.id);
  }

  lemma RegisterKeepsDistinct(t: Tables, op: Op, t': Tables)
    requires op.Registered? && SerialApply(t, op) == Some(t')
    requires UsersDistinct(t)
    ensures UsersDistinct(t')
  {
  }

  lemma LedgerOfEmpty()
    ensures LedgerOK(EMPTY_TABLES)
  {
    assert Balances(map[]) == map[];
  }

  /** A user row, once inserted, keeps everything but its balance. */
  ghost predicate SameIdentity(a: User, b: User) {
    a.(balance := b.balance) == b
  }

  ghost predicate UsersExtend(t: Tables, t': Tables) {
    forall id :: id in t.users ==> id in t'.users && SameIdentity(t.users[id], t'.users[id])
  }

  lemma SerialExtendsUsers(t: Tables, op: Op)
    requires SerialApply(t, op).Some?
    ensures UsersExtend(t, SerialApply(t, op).value)
  {
  }

  /** Two different users together hold at most the conserved total. */
  lemma TwoBalancesBelowTotal(t: Tables, a: int, b: int)
    requires LedgerOK(t) && a in t.users && b in t.users && a != b
    ensures t.users[a].balance + t.users[b].balance <= OPENING_BALANCE * |t.users|
  {
    var m := Balances(t.users);
    assert forall j :: j in m ==> m[j] == t.users[j].balance;
    SumRemove(m, a);
    SumBoundsEach(m - {a}, b);
  }
}
