# A verified model of the money-transfer system

The system lets users send money to each other. A transfer is one SERIALIZABLE PostgreSQL
transaction: it resolves the receiver, locks both user rows in id order, checks the funds,
moves the money with one `CASE` update, and inserts a transfer row and two notifications.
A retry loop repeats it when PostgreSQL answers 40001. After the commit the transfer service
writes both balances to a Redis hash through a pipeline and publishes an event to a JetStream
stream, from which the account service projects the same balances into the same hash. Balance
reads use the hash first and fill it from the database on a miss. Logins look users up in a Redis
cache first and store sessions in Redis.

The model has these parts, one module per file.

- `Base`, `Decimal`: sums over maps; the decimal text of int64 values.
- `Ledger`: the three tables, the `CASE` update with SQL NULL, and a reference meaning for each
  operation: what it does when it runs alone.
- `Transactions`: any number of requests interleaving over one database. Each statement is a step.
  Row locks are held until commit or abort, writes are private until commit, and a row that changed
  after the snapshot cannot be locked. 40001 and any other error may strike in every step.
- `TransactionInvariants`, `Guarantees`, `Liveness`, `Outcomes`, `Notifications`: what holds in
  every reachable database, and the main results about transfers. `Witness` is a small concrete history.
- `System`, `SystemInvariants`, `SystemGuarantees`: the whole service as one machine. It adds the hash,
  user cache, sessions, stream, durable consumer, and every handler between two of its remote
  calls. Each command is a step of its own, since the pipelines are no transactions: any of them may
  fail while its neighbours execute, may execute without its reply arriving, and may be followed by a
  Redis wipe.
- `Projection`, `Replay`: the projection of events into the hash, on event sequences and inside whole runs.
- `Staleness`, `StaleRun`: how far the hash and the user cache lag behind the users table, and exactly when
  they do not.
- `Wipe`, `RetryRun`: what the consumer can still write after Redis was emptied, and what a repeated request does.
- `Admin`: page arithmetic, the batch username lookup and the statistics.
- `Attempts`: how one attempt of a transfer may end and why, and what an undisturbed one must answer.
- `Runtime`, `TransferService`, `AccountService`, `BalanceProjection`, `AuthService`,
  `NotificationService`: the handlers and the consumer in their imperative form. A
  `World` object holds the machine's state. A handler changes it by enabled steps, and before every
  remote call all others may take any steps of theirs. The methods' contracts say what
  the caller of each handler can rely on in spite of that.

A Dafny integer is unbounded. The int64 arithmetic of the Go code is written out with `Wrap64`, and the
BIGINT range is an outcome of the update.

## Where the code and its comments differ

The model follows the code.

- `updateBalances` says that a sender without the funds leaves one row updated. In fact the `CASE`
  gives NULL for that row, the column is NOT NULL, and the statement fails
  (`Ledger.MissingFundsViolateNotNull`). The earlier check in Go keeps this from happening
  (`Guarantees.DebitSucceedsIff`).
- `handleAdminStats` says that its three queries share a snapshot. At the default isolation each has its
  own. `Admin.CountsAgreeIffNoCommitBetween` gives the exact condition under which the counts agree, and
  `Admin.StatisticsCanDisagree` is a run in which they do not.
- Post-commit writes carry absolute balances and run outside the row locks, so an older one can land last
  (`StaleRun.OlderPipelineLast`), and the hash need not equal the users table
  (`StaleRun.HashAndCacheCanBeStale`). A field equals the table if and only if its user's transfers after
  the state it was last written from net to zero (`Staleness.HashFieldCurrentIff`).
- `PublishTransferCompleted` deletes the phone keys of the user cache, not the username keys
  (`StaleRun.PipelineRuns`), so a cached balance can be an old one (`StaleRun.HashAndCacheCanBeStale`). It is
  current if and only if the user's transfers after the state it was read from net to zero
  (`Staleness.CachedBalanceCurrentIff`); everything else in an entry is always the row's
  (`SystemGuarantees.CacheFirstLogin`).
- `NewBalanceConsumer` and `runBalanceProjection` say that the stream is replayed and the hash rebuilt after Redis
  was wiped. The durable consumer keeps its offset, so a message stored before the wipe writes again if and only
  if one of its deliveries is unfinished, or it is unacked with a delivery left (`Wipe.WipeReplaysOnlyUnspent`).
  `Wipe.WipeLosesField` is a run after which no delivery can bring a touched user's field back; when all messages
  were spent, only new writes fill the hash (`Wipe.RefilledOnlyByNewWrites`). What a full pass would rebuild is
  `Replay.InOrderPassRebuilds`.
- `handleTransfer` says that `Nats-Msg-Id` protects a caller who repeats the HTTP request. The id is the transfer's,
  and a repetition is another transfer: its event is dropped if and only if a copy of that very event is inside the
  duplicate window (`RetryRun.RetryIsNotDeduplicated`). `RetryRun.ChargedTwice` is a run in which the same request
  of the same session commits twice and both events are stored.
- Pages past number 200 are never served, although the page count reports them
  (`Admin.PagesCoverListExactlyUpToCap`).

## Model

| member | source | states |
|---|---|---|
| `Guarantees.Serializable` | services/transfer-service/handlers.go:160-210 | for every interleaved run, each committed state is the one reached by running the committed operations alone, one by one, in commit order |
| `Guarantees.ReferenceIsRunningAlone` | services/transfer-service/handlers.go:160-210 | the reference meaning of a transfer is the transaction itself on an idle database: its eight statements go through if and only if the reference allows the transfer, and then they commit the request and exactly the reference's tables |
| `Guarantees.LedgerAgrees` | services/transfer-service/handlers.go:88-210 | in every committed state of every run: each balance is 100000 plus receipts minus payments and not negative, amounts are positive between distinct users, two notifications per transfer with the right owners, unique phones and 12-digit account numbers, and a conserved total |
| `Guarantees.CommittedExactlyOnce` | internal/db/db.go:252-283 | a request counts as committed if and only if the log holds a transfer of it, and never more than one |
| `Guarantees.ResultMatchesRows` | services/transfer-service/handlers.go:181-205 | the captured result of a committed request holds the balances, phones and ids of the committing attempt; exactly the two parties' rows moved, by the amount, and one transfer row was added |
| `Guarantees.NoOverflow` | services/transfer-service/handlers.go:181-205 | while 100000 times the user count fits in int64, no transfer arithmetic wraps and the debit succeeds if and only if the funds are there |
| `Guarantees.DebitSucceedsIff` | services/transfer-service/handlers.go:181-189 | with both rows locked, check and update succeed if and only if the sender row has the funds and the credit fits a BIGINT; missing funds are reported as such and never reach the NULL arm |
| `Guarantees.TransferIdsDistinct` | internal/nats/jetstream.go:81-99 | different committed transfers have different ids, so deduplication never drops another transfer's event |
| `Guarantees.TransfersOnlyGrow` | services/transfer-service/handlers.go:304-317 | the transfers table is append-only over the committed history |
| `Ledger.IdentifierByFields` | internal/db/db.go:97-106 | the identifier selects by account number if there is one, else by phone, else by username |
| `Ledger.CaseUpdateTwoRows` | services/transfer-service/handlers.go:276-301 | the update changes exactly two rows if and only if both exist, differ, the sender has the funds and the credit fits; then it writes exactly one debit and one credit |
| `Ledger.MissingFundsViolateNotNull` | services/transfer-service/handlers.go:276-301 | the update fails with a NOT NULL violation if and only if the sender row lacks the funds |
| `Ledger.SerialKeepsLedger` | migrations/000002_constraints_and_indexes.up.sql:19-26 | each operation run alone keeps every part of the ledger's agreement, from balances to the total |
| `Ledger.TwoBalancesBelowTotal` | services/transfer-service/handlers.go:182-205 | two different users together never hold more than the conserved total |
| `TransactionInvariants.StepKeepsInv` | services/transfer-service/handlers.go:160-263 | every statement, commit, abort or failure of any request keeps the protocol's invariant: locks, row versions, private writes, drawn ids and captured results fit together |
| `TransactionInvariants.ReachableInv` | services/transfer-service/handlers.go:160-263 | the invariant holds in every state of every run |
| `TransactionInvariants.MapBackIsSenderReceiver` | services/transfer-service/handlers.go:238-263 | the two rows locked in id order, mapped back, are the rows of sender and receiver, unchanged since the snapshot and so the current ones; exactly these are held |
| `TransactionInvariants.CommittedOp` | services/transfer-service/handlers.go:187-209 | what a transaction installs at commit is what its reference operation does to the state current at that moment, whatever committed since its snapshot |
| `Liveness.WaitsUpward` | services/transfer-service/handlers.go:238-263 | a waiting request holds only rows below the one it waits for, and that row is held by another unfinished request |
| `Liveness.NoDeadlock` | services/transfer-service/handlers.go:238-263 | no reachable state has a cycle in the waits-for graph |
| `Liveness.NextStep` | services/transfer-service/handlers.go:160-210 | an unfinished request that does not wait has a step of its own to take |
| `Liveness.SomebodyCanStep` | services/transfer-service/handlers.go:238-263 | in every reachable state with an unfinished request some request can take a step of its own, without an injected failure |
| `Liveness.WeightDrops` | internal/db/db.go:252-283 | every step of a request, including each abort, lowers its weight of remaining attempts and statements |
| `Liveness.EveryScheduleTerminates` | internal/db/db.go:252-283 | n requests take at most 35 n steps together under every schedule |
| `Liveness.RetryBudget` | internal/db/db.go:252-279 | a request makes at most five attempts and sleeps less than 30 ms in total |
| `Liveness.MaximalScheduleEndsAll` | internal/db/db.go:252-283 | when no step of its own is left to any request, every request has ended with a commit or one error |
| `Outcomes.FailsForReason` | services/transfer-service/handlers.go:216-301 | a statement ends its request with an error if and only if the error's reason holds of the tables current at that statement |
| `Outcomes.ErrorsAreTruthful` | services/transfer-service/handlers.go:97-114 | in every run a failed request was ended by one step of its own, and at that step the error was true of the current tables: no row matched the identifier, the sender's own row matched it, the locked sender row lacked the funds, or 40001 met the fifth attempt |
| `Notifications.TransferWritesTwoNotes` | services/transfer-service/handlers.go:321-335 | each committed transfer appends exactly two unread notifications: the sender's and the receiver's, naming the amount and the other party |
| `Notifications.ReadOnlyByOwner` | services/notification-service/handlers.go:61-91 | between two committed states a notification keeps everything but its read mark, which is set later if and only if it was set before or its owner acknowledged it in between |
| `TransferService.HandleTransfer` | services/transfer-service/handlers.go:71-154 | whatever all others do: 401 exactly for a session that names nobody, 400 for an invalid payload, and otherwise the status fits how the request ended: 200 exactly when the tables hold its one transfer, debiting the session's user by the amount asked for in favour of a user with the identifier asked for, 400 for missing funds and for oneself, 404 for no receiver, 503 for 40001, 500 for the rest; nobody else acting, the calls and the tables decide the status, and the post-commit writes arrive as far as they execute |
| `TransferService.SerializableTx` | internal/db/db.go:252-283 | nil comes back if and only if an attempt committed, and then the result is read off the state it committed; an error leaves no operation in the log and had its reason at the step that ended the request: a broken call or a stuck lock, what the tables said, or 40001 in the fifth attempt; nobody else acting, a broken call ends it, 40001 only the fifth time, and otherwise the tables decide |
| `TransferService.Retract` | internal/db/db.go:258-279 | a 40001 ends the attempt and makes the request ready for the next one after the jittered delay, or fails it the fifth time without a delay |
| `Attempts.VerdictIsReference` | services/transfer-service/handlers.go:160-210 | what an undisturbed transfer must answer is acceptance exactly where the reference operation accepts |
| `TransferService.RunTransferTx` | services/transfer-service/handlers.go:160-210 | one run of the closure ends committed, ready for the next attempt, or failed, as its error, the fault of its last call and the step that ended it say; the captured variable agrees with the request's; nobody else acting and no call failing, the tables decide |
| `TransferService.ResolveReceiver` | services/transfer-service/handlers.go:216-231 | a found id matches the identifier, not-found means that no row does; a transfer to oneself ends the attempt |
| `TransferService.LockBothUsers` | services/transfer-service/handlers.go:238-263 | success means that both rows are locked and returned as the current rows of sender and receiver, in this order; every failure ends the attempt and says how |
| `TransferService.UpdateBalances` | services/transfer-service/handlers.go:276-301 | after the funds check under both locks the update goes through with the pair read, and on a call that went through it fails exactly when the credit leaves the BIGINT range |
| `TransferService.InsertTransferRecord` | services/transfer-service/handlers.go:304-317 | the returned id and the captured post-transaction values are those of the inserted transfer |
| `TransferService.InsertNotifications` | services/transfer-service/handlers.go:321-335 | exactly two unread notifications join the private writes, the sender's and the receiver's, with their texts; or the attempt ends |
| `TransferService.PublishTransferCompleted` | internal/redis/redis.go:282-298 | the three commands run in order on the states they meet, others acting in between; each takes effect or not on its own, and success is reported exactly when all were answered |
| `TransferService.UndisturbedPipeline` | internal/redis/redis.go:282-298 | undisturbed, both phone keys are gone and the hash holds the post-transaction balances, each as far as its command executed; nothing else changes |
| `TransferService.PostCommit` | services/transfer-service/handlers.go:116-141 | undisturbed, the cache, the hash and the stream end as the four writes that executed leave them |
| `TransferService.PublishTransferEvent` | internal/nats/jetstream.go:81-99 | on the state it meets, the stream gains the transfer's event exactly when JetStream is there, the publish executes and no copy is inside the duplicate window; nothing else changes |
| `SystemInvariants.StepKeepsInv` | internal/redis/redis.go:239-298 | every step of the service keeps hash, cache, sessions, stream and handlers in agreement with the committed history |
| `SystemInvariants.DbMoves` | internal/redis/redis.go:239-298 | what Redis, the stream and the handlers hold stays true while the database commits more |
| `SystemGuarantees.HashHoldsRealBalances` | internal/redis/redis.go:239-298 | over every order of commits, pipelines with any subset of their commands, back-fills, redeliveries and wipes, a hash field reads back as a balance its user had in a committed state |
| `Staleness.FieldHasLastWrite` | internal/redis/redis.go:239-298 | every field in the hash was last written with the balance of some committed state: the one a transfer produced or the one a back-filling request read |
| `Staleness.HashFieldCurrentIff` | internal/redis/redis.go:239-298 | in every run a field last written from committed state k equals the users table if and only if the user's transfers after k net to zero |
| `Staleness.HashFieldCurrentWithoutTransfers` | services/account-service/handlers.go:43-65 | it is current when no transfer of the user committed after state k |
| `Staleness.CachedBalanceCurrentIff` | internal/redis/redis.go:149-198 | in every run a cached record was read by a login's query on some committed state k, and its balance is current if and only if the user's transfers after k net to zero |
| `StaleRun.OlderPipelineLast` | services/transfer-service/handlers.go:116-141 | from any state, letting a later transfer post first and an earlier one last leaves each party of the earlier one with the balance of that commit, which is wrong exactly when the transfers since do not net to zero |
| `StaleRun.PipelineRuns` | internal/redis/redis.go:282-298 | a whole pipeline removes the two phone keys only, so username keys survive it |
| `StaleRun.HashAndCacheCanBeStale` | services/account-service/handlers.go:43-65 | a run of two registrations, a login, a balance read and a transfer, after which the hash and the username entry say 100000 and the users table 99995 |
| `SystemGuarantees.BalanceAnswers` | services/account-service/handlers.go:43-65 | every balance answered was found in the hash, or on a miss is the balance committed when the query ran; it is never invented, unreadable or missing |
| `SystemGuarantees.StreamHoldsCommittedTransfers` | internal/nats/jetstream.go:81-99 | every stored message carries the id, amount, parties and true post-transaction balances of a committed transfer under its decimal id, is delivered at most five times, and is acked only if one and the same delivery wrote both balances |
| `SystemGuarantees.PublishStores` | internal/nats/jetstream.go:81-99 | a publish is dropped if and only if a copy under its id was stored less than 300 seconds ago; otherwise exactly one message is appended |
| `SystemGuarantees.AtMostOneCopyPerWindow` | internal/nats/jetstream.go:44-44 | two stored messages under one id are copies of one transfer's event stored at least a duplicate window apart |
| `SystemGuarantees.CacheFirstLogin` | services/auth-service/handlers.go:114-158 | the record a login checks, cached or not, gives the verdict of a database-only login: the same by phone, that of a row with the name by username; all fields but the balance are the row's |
| `SystemGuarantees.SessionOrigin` | internal/redis/redis.go:100-135 | every live session was opened by a login step for its user and has been live ever since |
| `SystemGuarantees.RequestOrigin` | internal/nats/consumer.go:42-53 | every transfer request was started under a session that resolved to its sender at that moment |
| `SystemGuarantees.DebitTracesToLogin` | internal/nats/consumer.go:42-53 | every committed debit traces back to a login that verified a password against that user's own hash, over a session live until the transfer's check |
| `Decimal.AtoiItoa` | internal/redis/redis.go:101-133 | printing an int64 id and parsing it back gives the id |
| `Decimal.ItoaIsDecimal` | internal/redis/redis.go:101-103 | the text ends in the last decimal digit after the text of the rest, with a minus for negative numbers only |
| `Decimal.AtoiAccepts` | internal/redis/redis.go:130-133 | digits with an optional minus parse to their value exactly when it is in range; empty texts do not parse |
| `Decimal.ItoaInjective` | internal/nats/jetstream.go:92-92 | different ids print differently, so field names and message ids never collide |
| `AccountService.GetBalance` | internal/redis/redis.go:260-269 | a hit is reported if and only if the field exists, with its parsed value, a balance the user had |
| `AccountService.HandleBalance` | services/account-service/handlers.go:43-65 | whatever all others do, 500 is answered if and only if a call it made was not answered, and otherwise the session's user gets the hash's value at the HGET on a hit, or on a miss the balance committed when the query ran, which a back-fill that executes leaves in the hash |
| `AccountService.QueryAndFill` | services/account-service/handlers.go:52-61 | a miss answers with the balance committed at a moment of this call; the back-fill cannot change the answer |
| `AccountService.SetBalance` | internal/redis/redis.go:239-241 | on the state it meets, and on the one before when nobody else acts, a write that takes effect makes the user's field read back as the balance; no other user's field and nothing else changes |
| `NotificationService.HandleAck` | services/notification-service/handlers.go:61-91 | 200 means that the notification of the session's user is read, 404 that this user owns none with this id, 400 exactly the missing id, 500 exactly an unanswered call; the operation performed is that user's own acknowledgement |
| `SystemGuarantees.AckOrigin` | services/notification-service/handlers.go:61-91 | in every run each acknowledgement was asked for under a session that resolved to its user |
| `Projection.LastEventWins` | services/account-service/main.go:137-159 | after any events each user's field is the balance in the last event about the user, or what it was before |
| `Projection.ReplayIdempotent` | services/account-service/main.go:137-159 | a second pass over the same events changes nothing |
| `Projection.LastEventIsCurrent` | internal/redis/redis.go:248-254 | the last event about a user carries the user's committed balance; a user without one has the opening balance |
| `Projection.ReplayRebuildsBalances` | services/account-service/main.go:130-172 | from any hash, one in-order pass over all committed transfers leaves the committed balance of every touched user |
| `Projection.WholeDeliveriesProject` | services/account-service/main.go:137-159 | when no pipeline is left half done, the hash is the projection of the applied events |
| `Replay.DeliveriesProject` | services/account-service/main.go:137-159 | in every run, between two states in which only whole deliveries touched the hash, it is the projection of their events, whatever else happened |
| `Replay.InOrderPassRebuilds` | services/account-service/main.go:123-172 | in every run, one in-order pass over a stream holding all committed transfers leaves every touched user's row balance in the hash |
| `Replay.NoDeliveryAfterAck` | internal/nats/jetstream.go:104-111 | an acked message is never delivered again |
| `Wipe.CanStillWriteIff` | internal/nats/jetstream.go:104-111 | from any state a stored message can still write its balances if and only if one of its deliveries has a write left, or it is unacked with fewer than five deliveries |
| `Wipe.WipeReplaysOnlyUnspent` | internal/nats/jetstream.go:104-111 | in every run a wipe empties the hash and keeps the consumer's position, so a message stored before writes after it if and only if it was not spent |
| `Wipe.RefilledOnlyByNewWrites` | services/account-service/main.go:120-128 | when all messages were spent at the wipe, every field found later was last written after it by a post-commit pipeline, a back-fill or a message published since |
| `Wipe.WipeLosesField` | services/account-service/main.go:120-128 | a run with a transfer of user 1 whose only message is acked and spent, and a wipe after which no delivery can restore the user's field |
| `RetryRun.RetryIsNotDeduplicated` | internal/nats/jetstream.go:81-99 | from any state, after one request's event was published another request's event is dropped if and only if a copy of that event itself is inside the duplicate window |
| `RetryRun.ChargedTwice` | services/transfer-service/handlers.go:128-141 | a run in which the same sender, receiver and amount are committed twice under two ids, with both events stored at the same time |
| `BalanceProjection.SetBalanceBatch` | internal/redis/redis.go:248-254 | both writes run on the states they meet; each takes effect or not on its own, and success, reported exactly when both were answered, means that both did |
| `BalanceProjection.OnMessage` | services/account-service/main.go:137-159 | a message is acked exactly when both writes were answered, and then both took effect; undisturbed it is one delivery of its event |
| `BalanceProjection.RunBalanceProjection` | services/account-service/main.go:130-172 | beside all other writers a message is acked only after both writes; undisturbed, the hash ends as the deliveries leave it and exactly those answered twice are acked |
| `AuthService.HandleRegister` | services/auth-service/handlers.go:39-95 | changes anything only in at most 20 inserts, between which only others act; they commit exactly one operation when 201 is answered and none otherwise; the states they met decide the answer: 503 when 20 numbers were taken, 409 for a taken phone, 201 with the complete new row, 500 only for an unanswered insert, values that do not fit, or a failed hash; 400 exactly for a phone that is not digits |
| `AuthService.TryInsert` | services/auth-service/handlers.go:62-79 | one try commits one operation or none, as reported, on the state it met |
| `AuthService.InsertUser` | services/auth-service/handlers.go:62-83 | one row is inserted, or nothing changes; a taken account number is reported before a taken phone, each exactly when it is taken, and an error exactly when a value does not fit |
| `AuthService.HandleLogin` | services/auth-service/handlers.go:100-167 | 200 only with a session for a user whose phone, or without one whose name, is the one given and whose stored hash accepts the password; 401 only when no user has it or one who has it refuses; 500 only for an unanswered call; 400 exactly for bad identifiers; a session without a 200 exists only after a lost reply, for an accepted password; undisturbed, a hit leaves the cache alone and a miss fills it |
| `AuthService.CheckPassword` | services/auth-service/handlers.go:148-155 | a session is stored if and only if the password was accepted and the write took effect; 200 if and only if the write was also answered |
| `AuthService.BackFill` | internal/redis/redis.go:149-164 | on the states they meet, and on those before when nobody else acts, the phone key is written first and the username key only after an answered first write; nothing else changes, and a failure does not stop the login or change its record |
| `AuthService.HandleLogout` | services/auth-service/handlers.go:173-181 | 401 exactly for a session that names nobody, 204 exactly when the delete was answered; after both the token resolves to nobody, and undisturbed nothing else changes |
| `AuthService.IsDigits` | services/auth-service/handlers.go:185-195 | true if and only if the string is non-empty and all digits |
| `AuthService.RandomDigits` | services/auth-service/crypto.go:9-17 | exactly n digits, each the drawn one |
| `Admin.Paginate` | services/account-service/handlers.go:124-144 | a parsed size in 1..100 is the size, otherwise 20; a parsed page in 1..200 is the page, a larger one 200, otherwise 1 |
| `Admin.JoinedPagesArePrefix` | services/account-service/admin.go:207-221 | the first n pages joined are the first n times size rows, without gap or repeat |
| `Admin.PageCountCovers` | services/account-service/admin.go:252-252 | the reported page count is the least number of pages that holds every row |
| `Admin.PagesCoverListExactlyUpToCap` | services/account-service/handlers.go:118-144 | asking for every reported page returns the whole list if and only if at most 200 pages are reported |
| `Admin.ResolveUserNames` | services/account-service/admin.go:267-302 | the names of exactly the known ids among those asked for |
| `Admin.HandleAdminTransfers` | services/account-service/admin.go:193-262 | with count, page and names read from three committed states, the rows are those of the page one by one, each with its own id, parties, amount and both parties' names; the shortcut leaves the page empty exactly when the count does not reach it |
| `Admin.TotalBalancePerUser` | services/account-service/admin.go:51-54 | in every committed state of every run the balance total is 100000 times the user count |
| `Admin.CountsAgreeIffNoCommitBetween` | services/account-service/admin.go:44-74 | the notification count is twice the transfer count if and only if no transfer committed between the two statements |
| `Admin.StatisticsCanDisagree` | services/account-service/admin.go:44-74 | a run of two registrations and one transfer in which the counts disagree |

## Left out

- JSON decoding, `strings.TrimSpace` and the NATS reply envelope: requests arrive as typed records with trimmed identifiers, and replies are status codes with their main fields.
- `handleNotifications`, `handleMe`, `handleLookup`, the admin user, notification and user-detail lists, `RequireAdmin` and `dispatch`: they only read and format.
- WebSocket delivery, `PUBLISH`, presence keys, logging, tracing, metrics and health checks: best effort and without effect on the modelled state.
- bcrypt, UUIDs and random digits: the verdict is a parameter `verify`, a new hash an optional parameter, a session token an unused string, a digit any draw.
- An unknown commit outcome after a network failure: a commit, and likewise a registration's INSERT and an acknowledgement's UPDATE, is taken to have happened exactly when it is reported. Lost replies of Redis writes and publishes are modelled.
- Context cancellation during a statement or a backoff: it is one of the failures that end the attempt with another error than 40001.
- PostgreSQL's predicate locks: any attempt may meet 40001 in any step, which covers every abort they can cause.
- The foreign-key locks of the inserts: both user rows are already locked by the same transaction.
- The statement timeout: a lock that is not granted ends the attempt with an error; the time waited is not counted.
- `created_at` columns, the 30-day stream retention, flow control and consumer backoff times: the stream keeps its order and the clock only serves the duplicate window.
- Message and key lifetimes: sessions and cache entries may vanish at any step.
- The decode error of the consumer: the stream only holds events the publisher wrote.
- The 512-byte buffer of `GetUserCache` and the JSON form of its entry: an entry is a record under a phone or a username key.
- The VARCHAR(255) bound on notification messages: usernames have at most 50 characters, so messages stay below it.
- Transfer and notification sequences running past BIGINT, and other inserts drawing between the two ids of one multi-row insert.
- Administrators: rows are only created by registration, which leaves `is_admin` false.
- TransferService.InsertTransferRecord: the contract includes the captured values that the closure fills right after the insert.
- AccountService.HandleBalance: has no 404 branch, because the user of a live session is proved to exist.
