# pgmux, modelled and proved in Dafny

pgmux is a transaction-pooling PostgreSQL proxy. This project models the parts of it that are hard to get
right and proves what they promise. `dafny verify dfyconfig.toml` checks all of it.

| file | what it models |
|---|---|
| `ConnectionPool.dfy` | the pool as a monitor: a machine over its lock sections, and the code, each method one step of the machine |
| `Ownership.dfy` | what a session may do with borrowed connections, as a log and its laws |
| `SharedPool.dfy`, `PoolLaws.dfy` | the pool and all the sessions that share it; which connection it hands out |
| `Turns.dfy`, `Batches.dfy` | the session as a machine on values: what each message makes of it, what a run means for the log, and every part of its state read off the messages |
| `SessionMarks.dfy` | which queries leave session state behind |
| `QueryLoop.dfy` | the session loop with its bound writer and reader, simple queries and extended batches, under any failures and reloads, proved to run that machine |
| `SqlText.dfy`, `Lexer.dfy`, `Regions.dfy` | string helpers; quotes, dollar quotes, comments and the statement splitter; what it makes of a written query |
| `Synthesizer.dfy`, `Substitution.dfy` | placeholder substitution and the literal printer; what they make of a template |
| `Classifier.dfy`, `StatementKinds.dfy` | read/write classification, fast and full; several statements, hints, single statements |
| `Router.dfy`, `RoutingLaws.dfy` | transaction tracking, fast and slow, and routing; where every query goes, reads after writes |
| `TransactionText.dfy` | which texts transaction tracking overlooks and which are routed differently when prepared |
| `Balancer.dfy`, `CausalReads.dfy` | the round-robin balancer; LSN-based causal reads as a protocol |
| `QueryCache.dfy`, `CacheTraces.dfy` | the LRU cache with TTL and table index; what it answers, read off the calls |
| `RateLimit.dfy`, `Admission.dfy` | token buckets and the evicting registry; what a caller can count on |
| `Wire.dfy`, `WireLayout.dfy` | frames, startup and Parse payloads; their bytes |
| `Relay.dfy`, `Conversations.dfy` | the two relay loops; whole conversations |

## How to read it

Code that updates things in place is a class or a method with loops, proved against a function on values or a
step of a machine; the properties are lemmas about those. A connection borrowed from a pool is a *lease*: a new
number for every borrow, so that "given back exactly once" can be said of a log of events. I/O outcomes, breaker
answers, reloads and reader choice are arbitrary choices, and which messages are cut off or refused and which dials
are answered is given with the input, so every statement is about all of them.
Reading `dbg.writerPool` and acquiring from it is one step; a reload may come between any other two.

## What turned out to hold only under a condition

Each of these is proved as an if-and-only-if or with a concrete counterexample beside the theorem.

- *Ownership.* A batch that carries COMMIT, ROLLBACK, END or ABORT and reaches the writer path with no writer
  bound gives its connection to a pool variable that holds nothing: a crash, or in a pinned session a connection
  that is forgotten (internal/proxy/query.go:968-982). A Parse of COMMIT in a fresh session is enough. One lease is
  lost for each such batch that gets through, and every other borrow is given back exactly once.
- *Wake-ups.* A failed dial and the background refill give capacity back without a signal; those steps and no
  others can strand a waiter.
- *Splitting and substitution.* A text that ends at an opening dollar tag gets the tag written twice, so trimming
  blanks after such a tag changes the result. Placeholders next to quotes and unterminated quotes do no harm.
- *Classification.* A write keyword directly followed by `(` is a write only for the fast path. A keyword behind a
  vertical tab or form feed, or glued by `;`, a carriage return, a vertical tab or a form feed to what follows, is
  seen only by the full path, which then may find a write: write keywords, and SELECT, WITH and EXPLAIN with a side
  effect. `Classifier.FastAgreesIff` gives the exact condition.
- *Transaction detection.* When the fast path sees a command, it agrees with the full scan on every text the wire
  format can carry. It overlooks a command that stands behind a vertical tab or form feed, that has a comment inside,
  or that is followed by anything but a known space, a semicolon or the end; on all other texts tracking is right.
- *Prepared statements* go where the simple query would go, unless the writer is not due otherwise and the text is led
  by END or ABORT or hides one of the other commands in one of those three ways.
- *Causal reads* are safe exactly while every failed position query was made good by a later successful one.
- *Round robin.* From 2^63 on the counter is negative after conversion; a call leaves the slice exactly when it gets
  that far without finding a backend.
- *Eviction of idle limiters* is invisible only if rate * TTL >= burst, or nothing is ever admitted.
- *Parse payloads* wrap the parameter count at 65536.

Where code and comments disagree the code is followed: "keep connection bound" in a pinned session whose batch
ends a transaction (internal/proxy/query.go:970-971) binds nothing when the connection was just acquired.

## Model

| member | source | states |
|---|---|---|
| `QueryLoop.Loop.RelayQueries` | internal/proxy/query.go:22-1044 | for every run of messages, simple and extended, cut short or refused anywhere, under any I/O outcomes and reloads: the turns are a run of the session machine, whose state (transaction flag, pin, prepared statements, bound writer, the batch's route and marks) is fixed by the messages taken up; a query or batch that is taken up, not blocked, not answered from the cache and gets through has run and succeeded exactly once, in its own turn, on the writer path on the bound writer if there is one, and nothing else succeeds there; the log is lawful; a borrow is given back, exactly once and to its own pool, if and only if its lease was not lost; exactly as many leases are lost as Syncs got through on the writer path with a transaction-ending Parse in the batch and no writer bound, and the session crashes exactly at such a Sync when not pinned; a run with no such Parse loses none; a message is taken up unless the client is cut off, the message refused or the buffer full; the session goes on until a cut-off, a Terminate, a full buffer, the crash, or a turn in which an exchange, getting a connection or answering the client failed, and no longer; a read asks a reader first; with simple queries only a writer is bound for nothing but a transaction or a pin |
| `Turns.RanInTransaction` | internal/proxy/query.go:332-415 | in every run, a query or batch taken up inside a transaction, not blocked, that gets through has run exactly once, in its turn, on the connection the transaction runs on |
| `Turns.SimpleBound` | internal/proxy/query.go:376-415 | with simple queries only a bound writer means a transaction or a pin |
| `Turns.CommitReachesLoss` | internal/proxy/query.go:529-601 | in a fresh session any prepared text led by COMMIT or ROLLBACK and not blocked makes a batch that ends a transaction on the writer path with no writer bound |
| `Turns.LossHappens` | internal/proxy/query.go:959-1013 | a two-message run, Parse COMMIT and Sync, after which a connection is held for good |
| `QueryLoop.Loop.HandleCommit` | internal/proxy/query.go:457-601 | the loop itself gets there from a fresh session with that one message |
| `Batches.RouteMeans` | internal/proxy/query.go:531-634 | in every run, a batch is routed to a reader if and only if its last Parse, or the Sync before it, put it there and every Bind since names a statement registered for the reader |
| `Batches.BindGoesToWriter` | internal/proxy/query.go:624-634 | a Bind of a statement that went to the writer, was closed or was never parsed, with no later Parse in the batch, keeps the batch off the reader |
| `Batches.StatementMeans` | internal/router/router.go:440-469 | whether a statement is registered, and where it goes, is decided by the last Parse or Close of its name |
| `Batches.MarkMeans` | internal/proxy/query.go:531-665 | a batch is marked as opening, closing, blocked or executing if and only if such a message was taken up since the last Sync |
| `Batches.PinMeans` | internal/proxy/query.go:239-281 | a session is pinned if and only if it was from the start or the guard pinned it on a message taken up |
| `Batches.BatchMeans` | internal/proxy/query.go:959-1013 | after a batch on the writer path: a transaction is open if and only if no Parse closed it and one opened it or it was open; a writer stays bound for a transaction, a pin or a batch that executed nothing, and after a closing batch only when bound before and pinned |
| `Batches.QueryMeans` | internal/proxy/query.go:376-415 | after a simple query the flag is the one its text leaves, and a writer is bound for a transaction or a pin, or because a batch left one bound outside a transaction |
| `Batches.OthersKeep` | internal/proxy/query.go:457-724 | every other turn leaves flag, bound writer and remembered write alone |
| `Batches.WriteMeans` | internal/router/router.go:106-112 | the time of a write is remembered after a turn if and only if a simple query without a transaction command writes outside any transaction and pin, causal mode off; otherwise the old one stays |
| `Batches.LenMeans` | internal/proxy/query.go:440-456 | the buffer holds what was taken up since the last Sync |
| `SessionMarks.LeavesStateIff` | internal/proxy/backend.go:165-233 | a query leaves session state behind if and only if, in capitals and past its noise, it is a SET other than SET LOCAL, TRANSACTION or CONSTRAINTS, a CREATE TEMP or one of six commands |
| `Turns.EndsMeans` | internal/proxy/query.go:529-601 | at every loop head the batch is marked as ending a transaction if and only if a COMMIT, ROLLBACK, END or ABORT was parsed since the last Sync |
| `Turns.NoEndNoLoss` | internal/proxy/query.go:959-1013 | a run in which no Parse ends a transaction loses no connection |
| `Turns.BoundReaderAffinity` | internal/proxy/query.go:674-878 | between a Sync that leaves a reader bound and the next Sync, whatever comes between: the reader is the one the first batch just ran on, and the next batch runs on that very reader, or it is reset and given back to the pool it came from before anything else, exactly by route, transaction, bound writer and block |
| `QueryLoop.Loop.Turn` | internal/proxy/query.go:78-160 | one turn of the loop: whether the message is taken up, the machine's state for the next turn, what ran, whether a lease is lost, whether the session crashes and whether it goes on, exactly |
| `QueryLoop.Loop.Handle` | internal/proxy/query.go:78-1035 | one message: the machine's next state, what ran, the loss condition, and that only a Sync changes the bound reader |
| `Ownership.ExactlyOnce` | internal/proxy/query.go:43-54 | a lease is no longer held at the end of a lawful log if and only if exactly one event gave it back, later than the borrow and to the same pool |
| `Ownership.GiveBackWasTaken` | internal/proxy/query.go:332-425 | every Release or Discard in a lawful log belongs to one earlier borrow from that pool and is its only give-back |
| `Ownership.TakenOnce` | internal/proxy/backend.go:19-42 | a lease is taken once |
| `Ownership.PoolSeesBorrowers` | internal/pool/pool.go:245-305 | every Release or Discard of a lawful log names a connection its pool has out, every borrow one it has not, and no other event touches a pool's borrowers |
| `SharedPool.SessionsDriveThePool` | internal/pool/pool.go:139-305 | sessions that keep their law never surprise the pool: in every interleaving, from a new pool, the lock sections they and the background run are a valid run of the pool machine, every Release and Discard included, and the connections the pool has out are one for one the leases the sessions hold |
| `SharedPool.CallExpected` | internal/pool/pool.go:245-305 | whatever a session's own law lets it release or discard, the pool has out |
| `Ownership.DirtyMeansReset` | internal/proxy/query.go:372-414 | between a session-modifying query on the writer path and the Release of its connection lies a successful reset, through transactions, pinning, errors and disconnects |
| `Ownership.DiscardedIffFailed` | internal/proxy/backend.go:47-67 | a connection is discarded if and only if some exchange or reset on it failed; otherwise it is put back idle |
| `Ownership.TransactionAffinity` | internal/proxy/query.go:376-415 | after a query that leaves a tracked transaction open, simple or in a batch, the next queries up to and including the one that closes it all find the transaction open and run on one lease, which is not given back in between |
| `QueryLoop.Loop.SimpleQuery` | internal/proxy/query.go:239-425 | a simple query takes the machine's step, keeps the accounts, leaves a transaction with its writer bound, and ran where the routing sent it |
| `QueryLoop.Loop.RouteSimple` | internal/proxy/query.go:239-281 | the guard's pin and the routing together; a reader route means no transaction before or after and no pin |
| `QueryLoop.Loop.WriteQuery` | internal/proxy/query.go:332-415 | the writer path: the query ran exactly once, with its modifying mark and on the bound writer if there was one, and afterwards a writer is bound exactly as transaction and pin say, with exactly the bound leases held |
| `QueryLoop.Loop.RunOnWriter` | internal/proxy/query.go:347-375 | one exchange on the acquired or bound writer; on failure that lease alone is discarded to its own pool |
| `QueryLoop.Loop.SettleSimple` | internal/proxy/query.go:376-415 | the lifecycle switch after a simple query: bound exactly when a transaction or pin needs it, given back otherwise, to the pool it came from |
| `QueryLoop.Loop.AcquireWriter` | internal/proxy/backend.go:19-42 | the bound writer if there is one, otherwise a new lease paired with the pool read in the same step |
| `QueryLoop.Loop.Reload` | internal/proxy/dbgroup.go:150-175 | a swapped writer pool changes no account |
| `QueryLoop.Loop.ResetAndRelease` | internal/proxy/backend.go:44-54 | a reset, then Release if it succeeded and Discard if not |
| `QueryLoop.Loop.GiveBack` | internal/proxy/query.go:395-403 | reset first when the session is marked dirty, discarded if that fails, released otherwise; without a pool the code crashes and the lease stays out |
| `QueryLoop.Loop.FallbackToWriter` | internal/proxy/backend.go:93-119 | the writer pool is asked; the read ran and succeeded exactly once if it reports success and something failed if not, and the writer borrowed for it goes back to the pool it was borrowed from whatever happens |
| `QueryLoop.Loop.ReadOnReader` | internal/proxy/query_read.go:58-178 | a reader is picked first and its pool asked first, the writer when it cannot be had; the work ran and succeeded exactly once if it reports success, and something failed if not; what is borrowed is given back |
| `QueryLoop.Loop.ReadQuery` | internal/proxy/query_read.go:20-184 | a reader-routed query answered from the cache touches no connection; otherwise a reader is asked first and, if it reports success, it ran and succeeded exactly once, outside any transaction; it gives up only when something failed; all accounts are as they were |
| `QueryLoop.Loop.ExtendedRead` | internal/proxy/query_extended.go:23-203 | the same for the extended read path with its own fallback, which resets |
| `QueryLoop.Loop.ParseMessage` | internal/proxy/query.go:531-601 | a Parse is the machine's step: it registers the statement, marks the batch as opening or ending a transaction and as blocked, pins when the guard says so and nothing was blocked, and sends the batch to the writer inside a transaction, with a bound writer or pinned, and where the statement is registered otherwise; a pin dirties the connection |
| `QueryLoop.Loop.BindMessage` | internal/proxy/query.go:624-634 | a Bind takes the machine's step; that a Bind of any statement not registered for the reader sends the batch to the writer is Batches.BindGoesToWriter, and what the route is at every turn Batches.RouteMeans |
| `QueryLoop.Loop.SyncMessage` | internal/proxy/query.go:674-1035 | a Sync that gets through takes the machine's step and ran its batch, on the writer path with the flag before and after it; the batch runs on the bound reader, or that reader is reset and given back to its own pool before anything else happens, exactly by the route, transaction, bound writer and block; and a lease is lost if and only if the batch ends a transaction on the writer path with no writer bound and gets through |
| `QueryLoop.Loop.ReaderBatch` | internal/proxy/query.go:780-878 | reader path: the bound reader is reused, released after an Execute, discarded on failure; a Parse-only batch binds one |
| `QueryLoop.Loop.ReuseReader` | internal/proxy/query.go:782-826 | the events of a reused reader, exactly: the exchange, then nothing, a Release or a Discard |
| `QueryLoop.Loop.BindReader` | internal/proxy/query.go:827-868 | a reader is asked first; a Parse-only batch leaves the reader it ran on bound, or nothing when something failed |
| `QueryLoop.Loop.AcquireReaderForBind` | internal/proxy/query_extended.go:555-587 | a lease from a reader pool or else from the writer pool, paired with the pool it came from |
| `QueryLoop.Loop.WriterBatch` | internal/proxy/query.go:879-1014 | writer path of a batch: it ran exactly once, on the bound writer if there was one, the transaction flag and the binding follow its marks, and the lease is lost exactly when it ends a transaction that no bound writer carried |
| `QueryLoop.Loop.SettleBatch` | internal/proxy/query.go:959-1013 | the lifecycle switch after a batch, with the crash and the silent loss it can end in |
| `QueryLoop.Loop.SettleEnd` | internal/proxy/query.go:968-982 | after a batch that ended a transaction: the lease is lost if and only if it was acquired for this batch, with a crash if and only if the session is not pinned |
| `QueryLoop.Loop.DropReader` | internal/proxy/query.go:690-694 | the stale reader is reset and goes back to its own pool |
| `QueryLoop.Loop.DropBatch` | internal/proxy/query.go:696-724 | a blocked batch is dropped with its marks and the bound reader, and nothing of it runs |
| `QueryLoop.Loop.Cleanup` | internal/proxy/query.go:43-54 | after the deferred cleanup nothing is held but what was lost before |
| `ConnectionPool.RunConserves` | internal/pool/pool.go:79-305 | in every interleaving of Acquire, Release, Discard, Warm, healthCheck and Close: numOpen = idle + borrowed + dialling, at most MaxConnections, nothing idle twice or idle and borrowed |
| `ConnectionPool.StepConserves` | internal/pool/pool.go:139-305 | each lock section keeps those books |
| `ConnectionPool.RunLosesNoWakeup` | internal/pool/pool.go:139-305 | while open, in runs without a failed dial or a background refill, nobody waits with capacity free and no token, woken caller or pending signal |
| `ConnectionPool.HistoryKeepsBooks` | internal/pool/pool.go:56-123 | both promises for every history that starts with a new pool |
| `ConnectionPool.Pool.BooksKept` | internal/pool/pool.go:50-64 | at every moment of a pool object's life its fields keep the books, and, with no failed dial or background refill so far, no wake-up is lost |
| `ConnectionPool.WakeupKeptUnlessStranding` | internal/pool/pool.go:176-242 | a step keeps that promise if and only if it is not a silent give-back (failed dial, failed or finished refill) while the account is tight |
| `ConnectionPool.FailedDialStrandsWaiter` | internal/pool/pool.go:181-189 | a concrete run in which a failed dial leaves a waiter behind |
| `ConnectionPool.AcquireServedIffFree` | internal/pool/pool.go:153-204 | a caller is handed a connection or a slot exactly when capacity is free, and uses up one unit of it |
| `ConnectionPool.ClosedPoolDrains` | internal/pool/pool.go:267-283 | once closed: idle stays empty, numOpen is exactly what is still out and falls by one per finished borrower or dial |
| `PoolLaws.HandsOutLastWithin` | internal/pool/pool.go:153-175 | an open pool hands out the last idle connection that is within its lifetime and idle limits, closes those behind it and keeps those before it |
| `PoolLaws.HandsOutNone` | internal/pool/pool.go:160-206 | with none within its limits it closes them all and dials below the maximum, or makes the caller wait |
| `PoolLaws.ReleasedIsReused` | internal/pool/pool.go:245-265 | the connection given back last is handed out next if and only if its age and the time since then are within the limits |
| `PoolLaws.FilledIsFresh` | internal/pool/pool.go:101-123 | a connection filled in the background counts as created and used when its dial ended |
| `PoolLaws.PruneKeepsWithin` | internal/pool/pool.go:349-367 | the health check keeps exactly the idle connections within their limits |
| `ConnectionPool.Pool.AcquireTurn` | internal/pool/pool.go:152-206 | one turn of Acquire is the machine's step, added to the object's history; a connection handed out is not stale |
| `ConnectionPool.Pool.PopFresh` | internal/pool/pool.go:160-174 | the inner loop drops exactly the stale tail of the idle list |
| `ConnectionPool.Pool.FinishDial` | internal/pool/pool.go:181-203 | the end of a dial is the machine's step, with the closed re-check |
| `ConnectionPool.Pool.Release` | internal/pool/pool.go:245-265 | Release is the machine's step |
| `ConnectionPool.Pool.Discard` | internal/pool/pool.go:293-300 | Discard's lock section is the machine's step |
| `ConnectionPool.Pool.SignalWaiters` | internal/pool/pool.go:301-304 | the signal after the lock is a step of its own |
| `ConnectionPool.Pool.ReceiveSignal` | internal/pool/pool.go:208-235 | a waiter that receives from the channel takes one token and tries again |
| `ConnectionPool.Pool.Close` | internal/pool/pool.go:267-282 | Close is the machine's step |
| `ConnectionPool.Pool.PruneIdle` | internal/pool/pool.go:349-367 | the filter keeps exactly the fresh connections, in order |
| `ConnectionPool.Pool.ReserveSlot` | internal/pool/pool.go:92-99 | a background slot is taken exactly below the minimum while open |
| `ConnectionPool.Pool.FinishFill` | internal/pool/pool.go:101-123 | the end of a background dial is the machine's step |
| `Lexer.SplitStatements` | internal/router/router.go:164-267 | the character loop returns exactly the trimmed, non-empty pieces between semicolons outside quotes, dollar quotes and comments |
| `Lexer.StatementStandsAlone` | internal/router/router.go:164-267 | every statement the splitter returns is, split again, its own only statement |
| `Lexer.ChunkCut` | internal/router/router.go:164-267 | a text without a semicolon outside quotes, dollar quotes and comments has none in any prefix, wherever it is cut |
| `Lexer.ParseDollarTag` | internal/router/parser.go:496-521 | the tag scan measures exactly the tag at the position |
| `Lexer.SkipBlockComment` | internal/router/router.go:368-383 | the depth-counting loop ends where the nested comment ends |
| `Regions.SplitsIntoStatements` | internal/router/router.go:164-267 | a query written as statements of strings, names, dollar-quoted strings, line comments, nested block comments and other text is split exactly at the semicolons between the statements, whatever the regions hold |
| `Regions.PastInside` | internal/router/router.go:368-383 | a block comment ends where all comments inside it have ended |
| `Synthesizer.SplitCommutesWithSubst` | internal/proxy/synthesizer.go:129-205 | for queries without comments and double quotes, any text or NULL parameters: splitting the substituted query gives the substitution of each statement, if and only if no statement ends in an unclosed dollar tag followed by blanks |
| `Synthesizer.TagThenBlanksBreaks` | internal/proxy/synthesizer.go:160-178 | a concrete query on which the two differ |
| `Synthesizer.StatementCommutes` | internal/proxy/synthesizer.go:129-205 | trimming and substituting one statement commute under the same condition, exactly |
| `Synthesizer.FirstChunkCommutes` | internal/proxy/synthesizer.go:129-205 | substitution neither creates nor hides a top-level semicolon |
| `Synthesizer.ChunkPastLiteral` | internal/protocol/literal.go:229-247 | a parameter literal is one closed region for the splitter, whatever it contains and whatever follows |
| `Synthesizer.EscapeBodyDoubled` | internal/protocol/literal.go:232-244 | every quote in an escaped literal is doubled |
| `Synthesizer.EscapeStringLiteral` | internal/protocol/literal.go:229-247 | the escaping loop computes the literal |
| `Synthesizer.ReplacePlaceholders` | internal/proxy/synthesizer.go:129-205 | the scan computes the substitution, including the doubled tag at the end of the text; what that makes of a template is Substitution.FillsTheHoles |
| `Substitution.FillsTheHoles` | internal/proxy/synthesizer.go:129-205 | a query written as text, quoted strings, dollar-quoted strings and numbered holes becomes the same text with every hole filled by the literal of its own number; a hole beyond the parameters stays |
| `Substitution.SubstPlaceholder` | internal/proxy/synthesizer.go:180-192 | $k, k in decimal, becomes the k-th literal |
| `Substitution.LiteralReadsBack` | internal/protocol/literal.go:229-247 | a text parameter's literal, read back with doubled quotes taken as one, is the text without its NUL bytes; NULL is NULL |
| `Classifier.FastRefinesFull` | internal/router/parser.go:37-128 | whenever the fast path answers and the first word is simple, the full path gives the same answer |
| `Classifier.FastAgreesIff` | internal/router/parser.go:37-128 | whenever the fast path answers, the full path agrees if and only if neither the fast word is a write keyword cut at a parenthesis, nor it is no write keyword and not the keyword of the only statement, which is a write; which queries the full path takes for writes is said by the StatementKinds rows |
| `Classifier.ParenthesisDiffers` | internal/router/parser.go:104-113 | `DELETE(` is a write for the fast path only |
| `Classifier.CarriageReturnDiffers` | internal/router/parser.go:104-128 | a SELECT with nextval after a carriage return is a read for the fast path and a write for the full path |
| `Classifier.FormFeedDiffers` | internal/router/parser.go:79-103 | a DELETE behind a form feed is a read for the fast path and a write for the full path |
| `Classifier.WriteKeywordAgreement` | internal/router/parser.go:104-113 | the same boundary read off the text, for a query led by a write keyword: agreement if and only if the keyword ends at a space, tab, newline or the end of the text |
| `StatementKinds.EitherWrites` | internal/router/parser.go:53-73 | two hint-free queries joined by a semicolon outside every region write if and only if either does |
| `StatementKinds.SomeStatementWrites` | internal/router/parser.go:53-73 | a query without comments writes if and only if one of its statements, sent alone, does |
| `StatementKinds.SplitsAtSemicolon` | internal/router/router.go:164-267 | at a semicolon outside every region a query falls into the statements before and after it |
| `StatementKinds.HintDecides` | internal/router/parser.go:155-190 | a routing hint, with any space in it and behind any text whose literals are closed and that holds no comment outside them, decides the classification whatever follows |
| `StatementKinds.NestedHintIgnored` | internal/router/parser.go:176-186 | a hint in a comment inside a comment is none |
| `StatementKinds.StripText` | internal/router/parser.go:436-492 | emptying literals leaves the text outside them and nothing of what they hold |
| `StatementKinds.PlainKind` | internal/router/parser.go:53-73 | which statements without comments and literals write: by their first keyword, a write keyword as a whole word after WITH, a side-effect function or locking clause in a SELECT, an analysed write keyword in an EXPLAIN |
| `Classifier.StripCreatesNoPattern` | internal/router/parser.go:436-492 | a suspicious pattern found after stripping literals was there before |
| `Classifier.StripKeepsCommentFree` | internal/router/parser.go:436-492 | stripping literals creates no comment |
| `Classifier.SingleSplit` | internal/router/router.go:412-420 | a query whose first semicolon has only blanks after it splits into at most one statement |
| `Classifier.RemoveComments` | internal/router/parser.go:201-234 | the loop computes the text without comments |
| `Classifier.RemoveStringLiterals` | internal/router/parser.go:436-492 | the loop, with its two quote flags, computes the text without literals |
| `Classifier.TryFast` | internal/router/parser.go:79-128 | the fast path's two scans compute its answer |
| `Router.FastTxAgrees` | internal/router/router.go:273-312 | for every single statement without a NUL, which is all the wire format lets through, that the byte-level detection fires on: the splitter yields one statement and the full scan sets the same flag from every old flag |
| `Router.FastTxRefinesSlow` | internal/router/router.go:273-312 | the same on raw bytes: if and only if START and TRANSACTION are not joined by a NUL |
| `Router.NulIsTakenForSpace` | internal/router/router.go:341-351 | on raw bytes the folding comparison takes a NUL for a space; no caller can pass one |
| `Router.TransactionForcesWriter` | internal/router/router.go:68-129 | in a transaction before or after the query, or pinned, the route is the writer; only a write outside causal mode moves the write time |
| `RoutingLaws.RouteWriterIff` | internal/router/router.go:68-129 | every query, of any number of statements, goes to the writer if and only if a transaction before or after it, a pin or a transaction command binds it, it writes, or causal mode is off and a write was remembered less than the delay ago |
| `RoutingLaws.RemembersWriteIff` | internal/router/router.go:106-112 | the time of a query is remembered if and only if it writes, nothing binds it and causal mode is off |
| `RoutingLaws.ReadsFollowWrites` | internal/router/router.go:114-126 | with causal mode off, over every run of queries in time order, a query less than the delay after such a write goes to the writer, whatever came between |
| `RoutingLaws.PreparedWriterIff` | internal/router/router.go:532-564 | when a prepared statement goes to the writer, written out |
| `RoutingLaws.LastCommandDecides` | internal/router/router.go:133-145 | of several statements the last with a transaction command decides the flag |
| `TransactionText.RouteTracksIff` | internal/router/router.go:68-145 | whichever path runs, the flag afterwards is the one the scan of all statements gives, from every state, if and only if the query is more than one statement or its text hides no command: none behind a vertical tab or form feed, none with a comment inside, none followed by anything but a known space, a semicolon or the end |
| `TransactionText.OverlookedIff` | internal/router/router.go:273-398 | those three shapes of text are exactly the ones where the scan finds the word in front and the fast path does not |
| `TransactionText.ScanSees` | internal/router/router.go:133-160 | what the scan sees of a single statement is what the whole text, without comments and trimmed, starts with |
| `TransactionText.NormalSpells` | internal/router/router.go:133-160 | that text starts with a word if and only if the raw bytes spell it past blanks and comments |
| `TransactionText.OverlookedMoves` | internal/router/router.go:68-145 | an overlooked command moves the scan's flag and leaves the tracked one alone |
| `TransactionText.EachOverlooked` | internal/router/router.go:273-312 | a COMMIT before a comment, around a comment and behind a form feed: each leaves a transaction tracked as open that the scan sees closed |
| `TransactionText.PreparedRoutesAlikeIff` | internal/router/router.go:532-564 | from any state and under any policy a single statement goes the same way prepared or as a simple query, if and only if the writer is due anyway, or it is neither led by END or ABORT nor hides BEGIN, START TRANSACTION, COMMIT or ROLLBACK from the fast path |
| `TransactionText.SpottedIff` | internal/router/router.go:532-564 | those are exactly the texts in which only one of the two ways spots a command |
| `TransactionText.PreparedEndDiffers` | internal/router/router.go:532-564 | under every policy, outside a transaction and with no write before, a prepared END goes to a reader and a simple END to the writer, as classified by the code itself |
| `Router.SingleWord` | internal/router/router.go:273-280 | a word behind leading noise still leads the statement after splitting, trimming and comment removal |
| `Router.SkipLeadingNoise` | internal/router/router.go:360-398 | the loop ends where leading spaces and comments end |
| `Router.HasTxPrefix` | internal/router/router.go:273-312 | the switch on the first byte finds the command, if any |
| `Router.Session.RouteWithTxState` | internal/router/router.go:50-129 | route, new state and both flags are those of the routing function, whose meaning for every query is RoutingLaws.RouteWriterIff and RoutingLaws.RemembersWriteIff |
| `Router.Session.UpdateTransactionState` | internal/router/router.go:133-145 | the loop over statements computes the scan |
| `Balancer.RoundRobinIsFair` | internal/router/balancer.go:36-53 | while the qualifying slots stay the same, as many consecutive calls as there are such slots return each of them exactly once, from every counter value whose round stays below 2^63 |
| `Balancer.FindsIfAny` | internal/router/balancer.go:138-160 | in that range a call finds a slot if and only if one qualifies, and never leaves the slice |
| `Balancer.LeavesSliceIff` | internal/router/balancer.go:138-160 | from any 64-bit counter: the call leaves the slice if and only if there are at least two slots, the first counter value with a negative slot comes within this round, and no slot probed before it qualifies |
| `Balancer.EdgeIsFirst` | internal/router/balancer.go:47-48 | which counter value that is: 2^63 or the first one after it that does not divide evenly |
| `Balancer.RoundRobin.NextWithLSN` | internal/router/balancer.go:138-160 | the probe loop is the choice function on the current backends, Next being the case of no demanded position |
| `Balancer.RoundRobin.MarkUnhealthy` | internal/router/balancer.go:56-68 | only the first backend with the address goes down |
| `Balancer.RoundRobin.SetReplayLSN` | internal/router/balancer.go:163-172 | only the first backend with the address learns the position |
| `Balancer.RoundRobin.UpdateBackends` | internal/router/balancer.go:106-134 | known addresses keep their very backend with its state, others get a new one at position 0 |
| `Balancer.RoundRobin.CheckBackends` | internal/router/balancer.go:87-102 | a backend is up afterwards if and only if it was up or one of its dials was answered; no position changes |
| `Balancer.DownIsOne` | internal/router/balancer.go:56-68 | marking an address down takes down its first backend and changes nothing else |
| `Balancer.DownIsNotChosen` | internal/router/balancer.go:138-160 | after that no call chooses this backend |
| `Balancer.LearnsIsOne` | internal/router/balancer.go:163-172 | a stored position is learned by the first backend with the address and by no other |
| `CausalReads.ReadsSeeWrites` | internal/proxy/query_read.go:42-56 | in every interleaving of writes, replication, two-step polls, backend updates and health changes, a read sent to a replica goes to one that has replayed all the session's earlier writes, unless the last failed position query was followed by no successful one |
| `CausalReads.SafeIffNotForgotten` | internal/proxy/backend.go:137-144 | exactly then: reads are safe in every continuation the session takes no part in if and only if no position query failed that a later one did not make good |
| `CausalReads.ForgotMeans` | internal/proxy/backend.go:137-144 | that condition, said of the events |
| `CausalReads.ReadsReplicaIfAny` | internal/router/balancer.go:138-160 | a read leaves the replicas only if none is healthy and known to be far enough |
| `CausalReads.KnowsPastKept` | internal/proxy/lsn.go:36-66 | no step lets the balancer believe more than a replica has replayed |
| `CausalReads.DownIsNotRead` | internal/router/balancer.go:138-160 | a replica marked down is not read from before it is up again or the backends are updated |
| `CausalReads.AccountedRun` | internal/proxy/backend.go:137-144 | over every run the remembered position covers the session's writes exactly unless the last failed query is not made good |
| `CausalReads.AccountedStep` | internal/proxy/backend.go:137-144 | each step keeps that account |
| `QueryCache.SmallerIsIncluded` | internal/cache/cache.go:75-161 | on one trace the smaller cache's list is always a subsequence of the larger's with the same entries, so its answers are the larger's answers |
| `QueryCache.StepInclusion` | internal/cache/cache.go:75-161 | every operation keeps the inclusion and the bound that the larger cache is never full while the smaller has room |
| `QueryCache.InvalidatedStaysOut` | internal/cache/cache.go:138-154 | after an invalidation, whatever was cached, no result mentioning the table comes back until a later Set brings one |
| `CacheTraces.GetAnswers` | internal/cache/cache.go:75-163 | over every run from an empty cache, a Get answers r if and only if r is the result of the last admitted Set of the key, its time to live has not passed, no flush, no invalidation of one of its tables and no late Get came since, and the key was never the least recently used one when room was made |
| `CacheTraces.EntriesStand` | internal/cache/cache.go:75-193 | the entries of the cache are exactly what stands of the Sets made on it |
| `CacheTraces.MostRecentFirst` | internal/cache/cache.go:93-94 | the list is in order of last use, a use being an admitted Set or an answered Get |
| `CacheTraces.EvictsLast` | internal/cache/cache.go:119-122 | room is made, exactly when a new key meets a full cache, with the least recently used key |
| `CacheTraces.KeptWhileFewOthers` | internal/cache/cache.go:119-122 | what was stored and not ended since is still there if fewer other keys than the cache may hold were used since some use of the key |
| `QueryCache.Cache.Get` | internal/cache/cache.go:75-95 | the answer, expiry and move to front are those of the list cache, which answers as CacheTraces.GetAnswers says; map, list and index stay consistent |
| `QueryCache.Cache.Set` | internal/cache/cache.go:98-135 | size limit, update, eviction and insertion are those of the list cache; map, list and index stay consistent |
| `QueryCache.Cache.InvalidateTable` | internal/cache/cache.go:138-154 | exactly the entries that mention the table go |
| `QueryCache.Cache.FlushAll` | internal/cache/cache.go:157-163 | everything goes |
| `QueryCache.Cache.RemoveElement` | internal/cache/cache.go:172-186 | exactly this key leaves list, map and index |
| `QueryCache.Cache.EvictOldest` | internal/cache/cache.go:188-193 | the back of the list goes |
| `QueryCache.Cache.RemoveTableIndex` | internal/cache/cache.go:205-214 | exactly these pairs leave the index and no empty set stays |
| `QueryCache.Cache.UpdateTableIndex` | internal/cache/cache.go:195-202 | exactly these pairs enter the index |
| `RateLimit.EvictionInvisible` | internal/resilience/ratelimit_registry.go:67-124 | with a clock that does not go back, a registry that evicts answers every trace as one that never does, if and only if burst is 0 or rate * TTL >= burst |
| `RateLimit.AdmissionBound` | internal/resilience/ratelimit.go:30-55 | in any span of any run a key is admitted at most burst + rate * span times |
| `Admission.PacedIsAdmitted` | internal/resilience/ratelimit.go:30-55 | a key that keeps to its own rate is never refused, whatever other keys do and whenever idle keys are evicted |
| `Admission.BurstAtOnce` | internal/resilience/ratelimit_registry.go:67-98 | of k calls for a new key at one instant exactly the first burst are admitted, under the key's own limit if it has one |
| `RateLimit.RateLimiter.Allow` | internal/resilience/ratelimit.go:30-55 | refill with the clamp at zero and the cap, then one token, is the bucket's step |
| `RateLimit.Limiters.Allow` | internal/resilience/ratelimit_registry.go:67-98 | the registry's call is the key's bucket step, on a new full bucket for a new key |
| `RateLimit.Limiters.DropIdle` | internal/resilience/ratelimit_registry.go:115-124 | exactly the keys idle for longer than the TTL go |
| `Wire.StreamRoundTrip` | internal/protocol/message.go:89-161 | any sequence of messages within the size limit is read back as written |
| `Wire.ReadIffWritten` | internal/protocol/message.go:89-161 | reading yields a message if and only if the stream starts with that message as written, within the limit |
| `Wire.ReadMessageReuse` | internal/protocol/message.go:121-151 | with any carried buffer the result is that of a fresh read, the message's wire bytes lie at the front of the returned buffer, and the buffer is kept when large enough |
| `Wire.StartupRoundTrip` | internal/protocol/message.go:181-231 | startup parameters survive build, read and parse in any iteration order |
| `Wire.ParseRoundTrip` | internal/protocol/message.go:266-313 | a Parse payload survives build and parse if and only if both strings are NUL-free and there are at most 65535 type identifiers |
| `Wire.CStringCut` | internal/protocol/message.go:452-454 | cutting at the first zero byte undoes the terminator exactly for NUL-free strings |
| `WireLayout.NetworkOrder` | internal/protocol/message.go:154-161 | numbers are written and read most significant byte first, two bytes and four |
| `WireLayout.FrameLayout` | internal/protocol/message.go:154-161 | a message is its type, a four-byte length that counts itself and the payload, and the payload |
| `WireLayout.ReadErrors` | internal/protocol/message.go:89-115 | when reading a message fails and how: fewer than five bytes, a length below 4, more than 16 MiB, a payload cut short |
| `WireLayout.StartupLayout` | internal/protocol/message.go:181-198 | a startup message is its own length, version 3.0, the parameters and a zero byte |
| `WireLayout.StartupRead` | internal/protocol/message.go:67-84 | a startup message is read if and only if its length is between 4 and 10000 and the stream holds as many bytes; the payload is what follows the length |
| `WireLayout.ParseLayout` | internal/protocol/message.go:300-313 | a Parse payload is name, query, the number of types and four bytes for each |
| `WireLayout.ParseErrors` | internal/protocol/message.go:266-273 | a Parse payload has no name if and only if it has no zero byte |
| `WireLayout.QueryErrors` | internal/protocol/message.go:274-279 | it has no query if and only if no zero byte follows the name |
| `WireLayout.TypeErrors` | internal/protocol/message.go:280-296 | its types are cut short if and only if fewer bytes follow than the announced number needs |
| `Wire.ParseStartupParams` | internal/protocol/message.go:202-231 | the loop computes the parameters |
| `Wire.BuildStartupMessage` | internal/protocol/message.go:181-198 | the loop computes the message |
| `Wire.ParseParseMessageFull` | internal/protocol/message.go:266-296 | the parser with its error cases |
| `Wire.BuildParsePayload` | internal/protocol/message.go:300-313 | the loop computes the payload |
| `Relay.RelayAndCollect` | internal/proxy/copy.go:217-277 | it ends as the plain relay does with the same bytes on both sides, and when the backend is ready returns bytes exactly if no COPY ran and they fit the limit, and then what the client received |
| `Relay.RelayUntilReady` | internal/proxy/copy.go:37-95 | the loop computes the relay |
| `Relay.RelayIsTransparent` | internal/proxy/copy.go:37-145 | a relay that ends ready has passed every byte taken from either side on to the other, in order |
| `Conversations.RelaysConversation` | internal/proxy/copy.go:37-145 | a conversation of answers and COPY in either direction, in any order, is passed on message by message, each COPY the way it goes; the relay stops right after the first ReadyForQuery, leaves what follows unread and knows whether a COPY ran |
| `Relay.RelayCopyIn` | internal/proxy/copy.go:98-120 | the loop passes client messages on up to the first that is not data |
| `Relay.RelayCopyOut` | internal/proxy/copy.go:123-145 | the loop passes backend messages on up to the first that is not data |

## Left out

- Sockets, TLS, authentication, HTTP, metrics, tracing, audit, Redis, configuration loading: I/O or plumbing.
- The foreign SQL parser and everything that depends on it (rewriting, firewall, AST classification, redaction): its
  classification enters routing as a given answer.
- Multiplex mode of the extended protocol, the synthesizer's statement registry and non-text parameter literals.
- Read-only mode, which rejects a query after the transaction flag has moved, is off in the session loop.
- The branch for an empty reset query: configuration loading fills in a default (internal/config/config.go:338-339).
- Session-state resets for queries routed to a reader, writer fallback included: the code releases those without one.
- Failure of the position query counts as no exchange failure of its connection: the code keeps the connection.
- The backend's real transaction status: the tracked flag comes from query text only.
- Reload of reader pools, circuit breakers and connection-limit counters: a reader pool or a breaker answer is an
  arbitrary choice.
- A writer pool that a failed reload left missing is an acquire that fails; the session ends with the same cleanup.
- COPY in both directions (streaming replication): both relays stop there alike.
- Text is ASCII: Unicode blanks and case folding are not modelled. Table extraction from queries is not modelled.
- Balancer calls are sequential for the fairness statement; the protocol model allows any interleaving of its steps.
- Parsing of LSN text and hashing of cache keys: both are plain numbers here.
- Timers, wake-up order and fairness between waiters in the pool.
- RateLimit.Limiters.Allow: the registry holds its limiters by value and one call reads the clock once, so a call that
  races with the eviction of its own key is not captured.
- RateLimit.RateLimiter.Allow: tokens and time are real numbers; floating-point rounding is not modelled.
- Relay.RelayUntilReady: the reused wire buffer is a value; reads and writes are whole messages except for the last one
  on a connection that breaks.
- CausalReads.ReadsSeeWrites: one session, autocommit writes, the cache off, replicas that never go back.
- QueryCache.Cache.Get: the list and its element pointers are one sequence of keys.
