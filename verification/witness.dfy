/** A small concrete history: two registrations and one transfer between the two users. */
module Witness {
  import opened Base
  import opened Decimal
  import opened Ledger
  import T = Transactions
  import TI = TransactionInvariants
  import G = Guarantees

  const FIRST: T.Event := T.InsertUser("1", "000000000001", "a", "h")
  const OTHER: T.Event := T.InsertUser("2", "000000000002", "b", "h")

  const TWO_USERS: Tables := Tables(map[
      1 := User(1, "1", "000000000001", "a", "h", OPENING_BALANCE, false),
      2 := User(2, "2", "000000000002", "b", "h", OPENING_BALANCE, false)], [], [])

  /** Request 0 sends 5 from user 1 to user 2. */
  const TRANSFER: Op := Transferred(0, 1, ByPhone("2"), 5, 2, 1, 1)

  ghost predicate TwoUsersOnly(db: T.Db) {
    && TI.Inv(db) && |db.hist| == 3 && T.Current(db) == TWO_USERS
    && db.locks == map[] && db.reqs == map[] && db.nextTransfer == 1 && db.nextNote == 1
  }

  lemma TwoUsers() returns (db: T.Db)
    ensures T.Enabled(T.INITIAL_DB, FIRST) && T.Enabled(T.Apply(T.INITIAL_DB, FIRST), OTHER)
    ensures db == T.Apply(T.Apply(T.INITIAL_DB, FIRST), OTHER) && TwoUsersOnly(db)
  {
    TI.InitialInv();
    TI.StepKeepsInv(T.INITIAL_DB, FIRST);
    var d1 := T.Apply(T.INITIAL_DB, FIRST);
    assert T.Current(d1).users == map[1 := User(1, "1", "000000000001", "a", "h", OPENING_BALANCE, false)];
    TI.StepKeepsInv(d1, OTHER);
    db := T.Apply(d1, OTHER);
  }

  lemma FirstTransfer(db: T.Db)
    requires TwoUsersOnly(db)
    ensures T.Legal(db, G.AloneEvents(0, TRANSFER))
    ensures
      var db' := T.Exec(db, G.AloneEvents(0, TRANSFER));
      && G.Completes(db, db', TRANSFER) && |db'.hist| == 4 && db'.hist[2] == TWO_USERS
      && |db'.hist[3].notes| == 2 && 1 in db'.hist[3].users
      && db'.hist[3].users[1] == TWO_USERS.users[1].(balance := OPENING_BALANCE - 5)
      && 2 in db'.hist[3].users && db'.hist[3].users[2] == TWO_USERS.users[2].(balance := OPENING_BALANCE + 5)
  {
    assert CanTransfer(TWO_USERS, TRANSFER);
    G.ReferenceIsRunningAlone(db, TRANSFER);
  }
}
