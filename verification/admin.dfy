/** Admin listings and statistics: page arithmetic, the batch username lookup, and the
    aggregates. */
module Admin {
  import opened Base
  import opened Decimal
  import opened Ledger
  import T = Transactions
  import TI = TransactionInvariants
  import G = Guarantees
  import W = Witness

  const MAX_PAGE: nat := 200
  const MAX_SIZE: nat := 100

  // ---------------------------------------------------------------- pages

  function ParamOr(text: string, limit: int, default: nat): nat {
    match Atoi(text)
    case Some(v) => if 0 < v <= limit then v else default
    case None => default
  }

  /** Page and size from query parameters; a missing parameter is the empty string. */
  method Paginate(decoded: bool, pageText: string, sizeText: string) returns (page: nat, size: nat)
    ensures 1 <= page <= 200 && 1 <= size <= 100
    ensures
      && var v := Atoi(sizeText);
      && (decoded && v.Some? && 1 <= v.value <= 100 ==> size == v.value)
      && (!(decoded && v.Some? && 1 <= v.value <= 100) ==> size == 20)
    ensures
      && var v := Atoi(pageText);
      && (decoded && v.Some? && 1 <= v.value <= 200 ==> page == v.value)
      && (decoded && v.Some? && v.value > 200 ==> page == 200)
      && (!(decoded && v.Some? && v.value >= 1) ==> page == 1)
    ensures size == if decoded then ParamOr(sizeText, MAX_SIZE, 20) else 20
    ensures page == if !decoded then 1
                    else if ParamOr(pageText, MAX_INT64, 1) > MAX_PAGE then MAX_PAGE
                    else ParamOr(pageText, MAX_INT64, 1)
  {
    page, size := 1, 20;
    if !decoded {
      return;
    }
    var v := Atoi(pageText);
    if v.Some? && v.value > 0 {
      page := v.value;
    }
    v := Atoi(sizeText);
    if v.Some? && v.value > 0 && v.value <= MAX_SIZE {
      size := v.value;
    }
    if page > MAX_PAGE {
      page := MAX_PAGE;
    }
  }

  function Min(a: nat, b: nat): nat { if a <= b then a else b }

  /** LIMIT size OFFSET (page - 1) * size. */
  function PageRows<R>(rows: seq<R>, page: nat, size: nat): seq<R>
    requires page >= 1
  {
    var from := Min((page - 1) * size, |rows|);
    rows[from..Min(from + size, |rows|)]
  }

  function PageCount(total: nat, size: nat): nat
    requires size >= 1
  {
    (total + size - 1) / size
  }

  function JoinPages<R>(rows: seq<R>, size: nat, n: nat): seq<R> {
    if n == 0 then [] else JoinPages(rows, size, n - 1) + PageRows(rows, n, size)
  }

  /** The first n pages are the first n * size rows: no gap, no repeat. */
  lemma {:induction false} JoinedPagesArePrefix<R>(rows: seq<R>, size: nat, n: nat)
    ensures JoinPages(rows, size, n) == rows[..Min(n * size, |rows|)]
  {
    if n > 0 {
      JoinedPagesArePrefix(rows, size, n - 1);
      assert n * size == (n - 1) * size + size;
    }
  }

  /** The page count is the least number of pages that holds every row. */
  lemma PageCountCovers(total: nat, size: nat)
    requires size >= 1
    ensures PageCount(total, size) * size >= total
    ensures total > 0 ==> (PageCount(total, size) - 1) * size < total
  {
    var p := PageCount(total, size);
    var rest := (total + size - 1) % size;
    assert p * size + rest == total + size - 1;
    assert (p - 1) * size == p * size - size;
  }

  /** Past the cap on the page number some rows are left over. */
  lemma CapLosesRows(total: nat, size: nat)
    requires size >= 1 && PageCount(total, size) > MAX_PAGE
    ensures MAX_PAGE * size < total
  {
    PageCountCovers(total, size);
    var p := PageCount(total, size);
    assert MAX_PAGE * size <= (p - 1) * size;
  }

  /** Asking for every reported page returns the whole list exactly when no more than
      200 pages are reported; the cap on the page number loses the rest. */
  lemma PagesCoverListExactlyUpToCap<R>(rows: seq<R>, size: nat)
    requires size >= 1
    ensures JoinPages(rows, size, PageCount(|rows|, size)) == rows
    ensures JoinPages(rows, size, Min(PageCount(|rows|, size), 200)) == rows
            <==> PageCount(|rows|, size) <= 200
  {
    var p := PageCount(|rows|, size);
    PageCountCovers(|rows|, size);
    JoinedPagesArePrefix(rows, size, p);
    if p > MAX_PAGE {
      CapLosesRows(|rows|, size);
      JoinedPagesArePrefix(rows, size, MAX_PAGE);
      var cut := Min(MAX_PAGE * size, |rows|);
      assert |rows[..cut]| == cut;
    }
  }

  // ---------------------------------------------------------------- transfers with names

  datatype TransferRow = TransferRow(id: int, fromUser: int, toUser: int, fromName: string, toName: string, amount: int)

  function NameOf(users: map<int, User>, id: int): string {
    if id in users then users[id].username else ""
  }

  /** The page with each row's two names looked up one by one. */
  function NaiveRows(users: map<int, User>, ts: seq<Transfer>): seq<TransferRow> {
    seq(|ts|, i requires 0 <= i < |ts| =>
      TransferRow(ts[i].id, ts[i].fromUser, ts[i].toUser,
                  NameOf(users, ts[i].fromUser), NameOf(users, ts[i].toUser), ts[i].amount))
  }

  /** SELECT id, username FROM users WHERE id = ANY(ids). */
  function QueryNames(users: map<int, User>, ids: seq<int>): (rows: seq<(int, string)>)
    ensures forall i :: 0 <= i < |rows| ==> rows[i].0 in users && rows[i].1 == users[rows[i].0].username
    ensures forall id :: id in ids && id in users ==> exists i :: 0 <= i < |rows| && rows[i].0 == id
    ensures forall i :: 0 <= i < |rows| ==> rows[i].0 in ids
  {
    if ids == [] then []
    else
      var before := QueryNames(users, ids[..|ids| - 1]);
      var id := ids[|ids| - 1];
      assert ids == ids[..|ids| - 1] + [id];
      if id in users then
        var rows := before + [(id, users[id].username)];
        assert rows[|before|].0 == id && forall i :: 0 <= i < |before| ==> rows[i] == before[i];
        rows
      else before
  }

  /** Deduplicates the ids, asks once, and maps each known id to its name. */
  method ResolveUserNames(users: map<int, User>, ids: seq<int>) returns (names: map<int, string>)
    ensures forall id :: id in names <==> id in ids && id in users
    ensures forall id :: id in names ==> names[id] == users[id].username
  {
    names := map[];
    if |ids| == 0 {
      return;
    }
    var seen: set<int>, unique: seq<int> := {}, [];
    for i := 0 to |ids|
      invariant forall id :: id in seen <==> id in ids[..i]
      invariant forall id :: id in unique <==> id in ids[..i]
      invariant forall j, k :: 0 <= j < k < |unique| ==> unique[j] != unique[k]
    {
      if ids[i] !in seen {
        seen := seen + {ids[i]};
        unique := unique + [ids[i]];
      }
    }
    assert ids[..|ids|] == ids;
    var rows := QueryNames(users, unique);
    for i := 0 to |rows|
      invariant forall id :: id in names <==> exists j :: 0 <= j < i && rows[j].0 == id
      invariant forall id :: id in names ==> id in users && names[id] == users[id].username
    {
      names := names[rows[i].0 := rows[i].1];
    }
  }

  ghost predicate IdDescending(rows: seq<Transfer>, table: seq<Transfer>) {
    && multiset(rows) == multiset(table)
    && forall i, j :: 0 <= i < j < |rows| ==> rows[i].id > rows[j].id
  }

  /** The row lists the transfer x, with each party's own name. */
  predicate IsRow(users: map<int, User>, x: Transfer, row: TransferRow) {
    && row.id == x.id && row.fromUser == x.fromUser && row.toUser == x.toUser && row.amount == x.amount
    && x.fromUser in users && row.fromName == users[x.fromUser].username
    && x.toUser in users && row.toName == users[x.toUser].username
  }

  lemma RowByRow(db: T.Db, k: nat, rows: seq<Transfer>, page: nat, size: nat)
    requires TI.HistoryOK(db) && k < |db.hist| && multiset(rows) == multiset(db.hist[k].transfers)
    requires page >= 1 && size >= 1
    ensures
      && var got := NaiveRows(db.hist[k].users, PageRows(rows, page, size));
      && |got| == (if (page - 1) * size >= |rows| then 0
                   else if page * size <= |rows| then size
                   else |rows| - (page - 1) * size)
      && forall i :: 0 <= i < |got| ==>
           (page - 1) * size + i < |rows| && IsRow(db.hist[k].users, rows[(page - 1) * size + i], got[i])
  {
    var from := (page - 1) * size;
    assert page * size == from + size;
    RowsOfPage(db, k, k, rows, rows);
    var got, users := NaiveRows(db.hist[k].users, PageRows(rows, page, size)), db.hist[k].users;
    forall i | 0 <= i < |got|
      ensures from + i < |rows| && IsRow(users, rows[from + i], got[i])
    {
      assert PageRows(rows, page, size)[i] == rows[from + i];
      assert rows[from + i] in rows;
    }
  }

  /** Three statements, each on its own committed state: the count on hist[j], the page on
      hist[k] (rows is that state's table by id, descending), the names on hist[m]. The
      result is the naive join on the state of the page, with the shortcut decided by the
      count; it is that join without any shortcut exactly when the count reached the page
      or the page is empty anyway, so always when no transfer committed in between. */
  method HandleAdminTransfers(db: T.Db, j: nat, k: nat, m: nat, rows: seq<Transfer>, page: nat, size: nat)
    returns (result: seq<TransferRow>, total: nat, pages: nat)
    requires TI.HistoryOK(db) && j <= k <= m < |db.hist|
    requires 1 <= page <= MAX_PAGE && 1 <= size <= MAX_SIZE && IdDescending(rows, db.hist[k].transfers)
    ensures total == |db.hist[j].transfers| && pages == PageCount(total, size)
    ensures result == NaiveRows(db.hist[k].users, if (page - 1) * size < total then PageRows(rows, page, size) else [])
    ensures result == NaiveRows(db.hist[k].users, PageRows(rows, page, size))
            <==> ((page - 1) * size < total || |rows| <= (page - 1) * size)
    ensures (forall i :: j <= i < k ==> !db.log[i].Transferred?) ==>
      result == NaiveRows(db.hist[k].users, PageRows(rows, page, size))
    ensures (page - 1) * size >= total ==> result == []
    ensures (page - 1) * size < total ==>
      |result| == if (page - 1) * size >= |rows| then 0
                  else if page * size <= |rows| then size
                  else |rows| - (page - 1) * size
    ensures forall i :: 0 <= i < |result| ==>
      (page - 1) * size + i < |rows| &&
      var x, users := rows[(page - 1) * size + i], db.hist[k].users;
      && x.fromUser in users && x.toUser in users
      && result[i].id == x.id && result[i].amount == x.amount
      && result[i].fromUser == x.fromUser && result[i].fromName == users[x.fromUser].username
      && result[i].toUser == x.toUser && result[i].toName == users[x.toUser].username
  {
    total := |db.hist[j].transfers|;
    var offset := (page - 1) * size;
    var transfers: seq<Transfer>, names: map<int, string> := [], map[];
    if offset < total {
      transfers := PageRows(rows, page, size);
      var ids := CollectIds(transfers);
      names := ResolveUserNames(db.hist[m].users, ids);
    }
    RowsOfPage(db, k, m, rows, transfers);
    result := NameRows(transfers, names, db.hist[k].users);
    pages := (total + size - 1) / size;
    SameLength(rows, db.hist[k].transfers);
    TransferCountMoves(db, j, k);
    PageEmptyIff(rows, page, size);
    RowByRow(db, k, rows, page, size);
  }

  method CollectIds(transfers: seq<Transfer>) returns (ids: seq<int>)
    ensures forall i :: 0 <= i < |transfers| ==> transfers[i].fromUser in ids && transfers[i].toUser in ids
  {
    ids := [];
    for i := 0 to |transfers|
      invariant forall j :: 0 <= j < i ==> transfers[j].fromUser in ids && transfers[j].toUser in ids
    {
      ids := ids + [transfers[i].fromUser, transfers[i].toUser];
    }
  }

  /** Missing names read as the empty string, as from a Go map. */
  function NameIn(names: map<int, string>, id: int): string {
    if id in names then names[id] else ""
  }

  method NameRows(transfers: seq<Transfer>, names: map<int, string>, ghost users: map<int, User>)
    returns (result: seq<TransferRow>)
    requires forall i :: 0 <= i < |transfers| ==>
      && NameIn(names, transfers[i].fromUser) == NameOf(users, transfers[i].fromUser)
      && NameIn(names, transfers[i].toUser) == NameOf(users, transfers[i].toUser)
    ensures result == NaiveRows(users, transfers)
  {
    result := [];
    for i := 0 to |transfers|
      invariant result == NaiveRows(users, transfers)[..i]
    {
      var x := transfers[i];
      result := result + [
        TransferRow(x.id, x.fromUser, x.toUser, NameIn(names, x.fromUser), NameIn(names, x.toUser), x.amount)];
    }
  }

  /** The parties of the rows of a page exist, now and later, under the same names. */
  lemma RowsOfPage(db: T.Db, k: nat, m: nat, rows: seq<Transfer>, transfers: seq<Transfer>)
    requires TI.HistoryOK(db) && k <= m < |db.hist| && multiset(rows) == multiset(db.hist[k].transfers)
    requires forall x :: x in transfers ==> x in rows
    ensures forall x :: x in transfers ==>
      && x.fromUser in db.hist[k].users && x.toUser in db.hist[k].users
      && x.fromUser in db.hist[m].users && x.toUser in db.hist[m].users
      && db.hist[m].users[x.fromUser].username == NameOf(db.hist[k].users, x.fromUser)
      && db.hist[m].users[x.toUser].username == NameOf(db.hist[k].users, x.toUser)
  {
    TI.HistoryLedger(db, k);
    TI.HistoryUsers(db, k, m);
    forall x | x in transfers
      ensures x.fromUser in db.hist[k].users && x.toUser in db.hist[k].users
    {
      assert x in multiset(rows);
      assert x in db.hist[k].transfers;
    }
  }

  lemma PageEmptyIff<R>(rows: seq<R>, page: nat, size: nat)
    requires page >= 1 && size >= 1
    ensures |PageRows(rows, page, size)| == 0 <==> |rows| <= (page - 1) * size
  {
  }

  lemma SameLength(a: seq<Transfer>, b: seq<Transfer>)
    requires multiset(a) == multiset(b)
    ensures |a| == |b|
  {
    assert |a| == |multiset(a)| && |b| == |multiset(b)|;
  }

  // ---------------------------------------------------------------- statistics

  /** The reported balance total is the opening balance times the reported user count,
      whatever is in flight: one statement reads both from one committed state. */
  lemma TotalBalancePerUser(es: seq<T.Event>, k: nat)
    requires T.Legal(T.INITIAL_DB, es) && k < |T.Exec(T.INITIAL_DB, es).hist|
    ensures
      var users := T.Exec(T.INITIAL_DB, es).hist[k].users;
      TotalBalance(users) == 100000 * |users|
  {
    G.LedgerAgrees(es, k);
  }

  /** The three statements of the statistics run at read committed, each on its own
      committed state. The notification count is twice the transfer count exactly when
      no transfer committed between the second and the third statement. */
  lemma CountsAgreeIffNoCommitBetween(es: seq<T.Event>, second: nat, third: nat)
    requires T.Legal(T.INITIAL_DB, es) && second <= third < |T.Exec(T.INITIAL_DB, es).hist|
    ensures
      var db := T.Exec(T.INITIAL_DB, es);
      && |db.hist| == |db.log| + 1
      && (|db.hist[third].notes| == 2 * |db.hist[second].transfers|
          <==> forall m :: second <= m < third ==> !db.log[m].Transferred?)
  {
    var db := T.Exec(T.INITIAL_DB, es);
    TI.ReachableInv(es);
    G.LedgerAgrees(es, third);
    TransferCountMoves(db, second, third);
  }

  lemma {:induction false} TransferCountMoves(db: T.Db, j: nat, k: nat)
    requires TI.HistoryOK(db) && j <= k < |db.hist|
    ensures |db.hist[j].transfers| <= |db.hist[k].transfers|
    ensures |db.hist[j].transfers| == |db.hist[k].transfers|
            <==> forall m :: j <= m < k ==> !db.log[m].Transferred?
    decreases k
  {
    if j < k {
      TransferCountMoves(db, j, k - 1);
      assert TI.LinkOK(db, k - 1);
    }
  }

  /** Such a commit does occur: two registrations, a transfer, and statistics whose
      second statement runs before it and whose third runs after it. */
  lemma StatisticsCanDisagree() returns (es: seq<T.Event>)
    ensures T.Legal(T.INITIAL_DB, es)
    ensures
      var db := T.Exec(T.INITIAL_DB, es);
      |db.hist| == 4 && |db.hist[2].transfers| == 0 && |db.hist[3].notes| == 2
  {
    var d2 := W.TwoUsers();
    W.FirstTransfer(d2);
    es := [W.FIRST, W.OTHER] + G.AloneEvents(0, W.TRANSFER);
    TwoThenRest(W.FIRST, W.OTHER, d2, G.AloneEvents(0, W.TRANSFER));
  }

  lemma TwoThenRest(a: T.Event, b: T.Event, db: T.Db, rest: seq<T.Event>)
    requires T.Enabled(T.INITIAL_DB, a) && T.Enabled(T.Apply(T.INITIAL_DB, a), b)
    requires db == T.Apply(T.Apply(T.INITIAL_DB, a), b) && T.Legal(db, rest)
    ensures T.Legal(T.INITIAL_DB, [a, b] + rest)
    ensures T.Exec(T.INITIAL_DB, [a, b] + rest) == T.Exec(db, rest)
  {
    var es := [a, b] + rest;
    G.LegalStep(T.INITIAL_DB, es);
    assert es[1..] == [b] + rest && es[1..][1..] == rest;
    G.LegalStep(T.Apply(T.INITIAL_DB, a), es[1..]);
  }
}
