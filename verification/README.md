# Baresync: a model of its sync protocol, with proofs

Baresync keeps a client's SQLite rows and a server's rows in step. The client records local changes in an outbox and
remembers a cursor; the server stamps every write (`syncUpdatedAt`), keeps deleted rows as tombstones, and guards
pushes with idempotency records. This project models both sides in Dafny and proves what the protocol keeps and where
exactly its promises end.

Two levels, which meet in `Engine.dfy`:

- **Components**, each in the form its source has: loops over growing vectors and maps, classes whose methods update
  tables, counters and records in place. `FkOrder`, `Naming`, `Schema`, `Outbox`, `SqlTracker`, `Envelope`, `Chunking`,
  `WorkSpec`, `WorkList`, `DbWorker`, `Store`, `Pull`, `PushOrder`, `Cursor`, `Garbage`, `Idempotency`, `Repository`,
  `SkippedRows`, `PushHandler`, `Planning`, `Requests`, `Engine`.
- **The protocol as a state machine** (`SyncSpec`): a client (rows, outbox, cursor) and a server (stamped rows, clock,
  and the answers its idempotency guard keeps), one relation for each step and mode, and the theorems over all runs:
  `SyncInvariant`, `Answers`, `PossibleSteps`, `Convergence`, `SteadyStates`, `ModeRefinement`, `Refusals`, `SyncRuns`,
  `LostReplies`, `FailingSyncs`, `HardDeletes`.
  The methods of `Engine.SyncEngine`, `PushHandler.PushEndpoint` and `Repository.SyncRepository` are proved to take
  exactly those steps.

The theorems to start from:

- `SyncRuns.RunsAreSound`: in every run, with refusals, interruptions and other writers, each server row stamped at or
  below the client's cursor has been delivered to it in its current version.
- `SyncRuns.RunsConvergeIff`: after any run in which nothing was refused, with lost replies, conflicts, callbacks that
  fail half-way and hard deletes, two `sync_now` calls that go through leave client and server with the same visible
  rows exactly if no row is left apart: one that differs, that the pull does not replace, and that no request carries
  which the guard will run. `LostReplies.UndisturbedRunsConverge`: without lost replies and hard deletes they always do.
- `FailingSyncs.SyncGoesThroughIff`, `FailingSyncs.SyncStopsIff`: from any sound state, a `sync_now` can go through
  exactly if no request of it was answered and says something else after the pull, told row by row from the state
  before; otherwise it stops with a 409 at the first such request.
- `ModeRefinement.ModesRefineFullSync`: the mode that `sync_now` picks cannot be told from pulling everything and pushing.
- `Idempotency.SafeThroughoutIff`, `Idempotency.OneCallbackIff`: exactly which reclaims of stale records keep one
  callback in flight and one success per record, and which clean-ups of pending ones, under every interleaving;
  `Idempotency.GuardIsSafe`: what that gives.
- `SkippedRows.ThereIffLanded`, `SkippedRows.MissingIffItDidNotFit`: which rows the fallback of a pull loses, and when
  for good.
- `WorkList.Drain`, `Chunking.ChunkingIsOptimal`, `Schema.CoalescingPreservesMeaning`, `FkOrder.ComputeSyncTableOrder`,
  `Pull.OrderMakesPullSafe`, `Outbox.InPlaceOutboxIsTheLog`, `SqlTracker.TrackerIsRightIff`.

## Where the code does not do what is promised

Each of these is proved as an exact condition or shown on a concrete input.

- A push whose reply is lost is not simply made again. The idempotency key is made of outbox ids, so a request with the
  same rows is replayed without a write if it says the same, and turned away with a 409 if it does not
  (`FailingSyncs.SyncGoesThroughIff`). With nobody writing since, a retry that first pulls is replayed exactly if each
  live row in it is dated no earlier than the server's write and each tombstone carries the time of the pull already
  (`Answers.RetryConflictsIff`). The soft delete of a pull follows no conflict rule, so a request with a deleted row
  meets the 409 whatever its date (`Answers.DeletedRowConflicts`, `FailingSyncs.TombstoneConflicts`). So does a request
  with a row that is edited again before the retry: the edit keeps its outbox id (`FailingSyncs.EditAfterLostReplyIff`).
- A replayed row that another client has overwritten meanwhile stays different for good
  (`LostReplies.LostReplyKeepsApart`), and even with nobody else writing a replayed row keeps a date of its own exactly
  if it is dated later than the write (`LostReplies.LostReplyLeftApartIff`). A 409 comes again at each sync until the
  record is cleaned up or the rows travel in another request (`Answers.ConflictRepeats`, `FailingSyncs.StaleStays`), and
  nothing behind it in the outbox is sent.
- Insert then delete cancel out in the outbox. If the row was in the table before the insert, the coalesced changes
  leave it there while the log would remove it (`Schema.CancelledRowSurvives`, `Schema.CoalescingPreservesMeaning`).
- `enqueueChange` turns a pending delete followed by an insert into an insert; `coalesce_operation` makes it an update
  (`Outbox.InPlaceIsCoalescing`). The client enqueues no deletes, so its runs are not affected.
- A cursor whose table name or row id contains a colon does not come back from its text (`Cursor.CursorRoundTrip`).
- `ROLLBACK TO` resets the transaction counter, so a later write notifies too early
  (`SqlTracker.RollbackToLosesTransaction`). A `COMMIT` with savepoints open and a `RELEASE` of an outer one leave it
  wrong as well (`SqlTracker.CounterIsDepthIffMatched`), and a wrong tracker always shows in some matched continuation
  (`SqlTracker.TrackerIsRightIff`).
- A child row that is listed before the parent it references in its own table is skipped by a pull
  (`Pull.SelfReferenceOutOfOrder`): the table order does not sort within a table, and the repository lists the latest
  rows first, so a row that refers to an older one of its table is skipped whenever both are news
  (`SkippedRows.YoungerChildIsSkipped`).
- A skipped row is left behind: the cursor moves past it, and no later pull from it brings the row again until the server
  writes it anew (`SkippedRows.MissingIffItDidNotFit`, `SkippedRows.BroughtAgainIff`), even once its parents have arrived.
- Garbage collection deletes tombstones in upsert order, parents first, with foreign keys on. It goes through exactly if
  whatever refers to a tombstone is a tombstone of the same or an earlier table (`Garbage.CollectionGoesThroughIff`), so
  a deleted parent with a deleted child stops it (`Garbage.UpsertOrderFails`). Delete order would serve
  (`Garbage.DeleteOrderServesIff`).
- A pending record taken for stale while its callback still runs gives two callbacks at once
  (`Idempotency.StaleReclaimRunsTwice`), and so does cleaning one up (`Idempotency.StaleCleanUpRunsTwice`). So does,
  without any reclaim in the presence of another request, a reclaim whose record is gone by then
  (`Idempotency.MissingRecordRunsTwice`). Reclaiming keeps the hash the record was
  reserved under, so the response to a new body is replayed to the old one and not to its own retry
  (`Idempotency.OldHashGetsTheResponse`, `Idempotency.BatchRequests.RunGuard`).
- The cursor of a filtered pull covers all tables: it is sound exactly if what the filter leaves out was delivered
  before, so status and pull must see one state of the server (`SyncInvariant.FilteredPullSoundIff`).
- A pending change whose local row is gone is marked as synced without being sent. If the server still shows the row and
  has no news of it, the client never shows it again (`SteadyStates.ConvergesIffNoHiddenOrphan`,
  `HardDeletes.HiddenOrphanStays`). The same holds of any row that the application deletes behind the outbox's back
  (`HardDeletes.HardDeleteConvergesIff`).
- `apps/docs/content/docs/sync-engine/push-flow.mdx` says that the entries of accepted ids are marked. The code marks all
  entries sent for a table with any accepted row. A refused edit can thereby be left unsynced with nothing in the outbox
  to send it (`Refusals.RefusedEntryMarkedIff`, `Refusals.StrandedIff`).
- `apps/docs/content/docs/sync-engine/chunking.mdx` says that chunking keeps the order of operations. After a split the
  second half is sent first (`WorkSpec.SplitReverses`); the order is kept exactly if no chunk has to be split
  (`WorkSpec.OrderKeptIff`, `WorkList.Drain`). As units are in upsert order, a split can send children ahead of their
  parents. The page also says that a single row above `max_push_bytes` is what ends in `SingleRowTooLarge`; a 413 reply
  to a single row ends in the same error, and `WorkList` follows the code.

## Model

| member | source | states |
|---|---|---|
| FkOrder.BuildGraph | packages/baresync/src/generator/fk-order.ts:52-98 | succeeds exactly if no reference is unsound; the graph then has an edge exactly where a synced table refers to another synced table |
| FkOrder.GraphsAgree | packages/baresync/src/generator/fk-order.ts:52-98 | whether a schema can be ordered does not depend on which of its graphs is built |
| FkOrder.Sorter.Visit | packages/baresync/src/generator/fk-order.ts:105-127 | a visit keeps the finished prefix duplicate-free with dependencies first, and fails only on a real cycle or a missing node |
| FkOrder.TopologicalSort | packages/baresync/src/generator/fk-order.ts:100-134 | succeeds exactly on closed acyclic graphs, with a duplicate-free permutation of the nodes, dependencies before dependents |
| FkOrder.OrderedGraphIsAcyclic | packages/baresync/src/generator/fk-order.ts:100-134 | a graph that has such an order is closed and acyclic |
| FkOrder.ReversedOrder | packages/baresync/src/generator/fk-order.ts:150-154 | the reversed order lists the same tables, dependents before dependencies |
| FkOrder.ComputeSyncTableOrder | packages/baresync/src/generator/fk-order.ts:136-155 | an order exists exactly if references are sound and the graph is closed and acyclic; deleteOrder is the reverse of upsertOrder |
| Naming.CamelToSnake | crates/baresync-core/src/schema.rs:5-18 | the loop with its flag computes the snake_case form that the round-trip lemmas speak about |
| Naming.SnakeToCamel | crates/baresync-core/src/schema.rs:20-34 | the loop with its flag computes the camelCase form that the round-trip lemmas speak about |
| Naming.ColumnRoundTrip | crates/baresync-core/src/schema.rs:5-34 | snake to camel and back is the identity exactly on names without capitals whose underscores stand between a character and a lower-case letter |
| Naming.JsonKeyRoundTrip | crates/baresync-core/src/schema.rs:5-34 | camel to snake and back is the identity exactly on underscore-free names that do not start with a capital |
| Naming.ColumnsDoNotCollide | crates/baresync-core/src/schema.rs:208-217 | distinct columns have distinct JSON keys |
| Naming.RowRoundTrip | crates/baresync-core/src/push.rs:64-68 | a pushed row comes back to the same columns with the same values |
| Schema.LocalColumnsAreDropped | crates/baresync-core/src/schema.rs:140-162 | the JSON key of a column is filtered out exactly if the column is listed as local-only |
| Schema.FoldRows | crates/baresync-core/src/schema.rs:79-105 | fails exactly on unknown operations; else order and map are those of the fold, entry by entry |
| Schema.EmitChanges | crates/baresync-core/src/schema.rs:107-135 | emits pending rows in order, each once, although the order may hold an id twice |
| Schema.OutboxRowsToTableChanges | crates/baresync-core/src/schema.rs:79-138 | the changes of a table's log, or a failure exactly on an unknown operation |
| Schema.EachRowOnce | crates/baresync-core/src/schema.rs:106-135 | every row named in the log is emitted exactly once, cancelled ones not at all |
| Schema.CoalescingPreservesMeaning | crates/baresync-core/src/schema.rs:42-138 | applying the emitted changes equals replaying the log exactly if no cancelled row was in the table before |
| Schema.WellFormedHistoriesCoalesce | crates/baresync-core/src/schema.rs:42-138 | for every interleaving of well-formed per-row histories the two are equal |
| Schema.CancelledRowSurvives | crates/baresync-core/src/schema.rs:101-103 | an insert of a row that is there, then its delete, leaves the row while the log removes it |
| Outbox.InPlaceIsCoalescing | packages/baresync/src/tauri/client.ts:166 | the conflict clause agrees with coalesce_operation exactly unless an insert follows a pending delete |
| Outbox.SyncOutbox.EnqueueChange | packages/baresync/src/tauri/client.ts:145-170 | adds an entry or rewrites the row's pending one in place, fails on a taken id, and keeps at most one pending entry per row |
| Outbox.SyncOutbox.MarkSyncedByOutboxIds | crates/baresync-core/src/outbox.rs:17-45 | stamps exactly the pending entries with the given ids |
| Outbox.InPlaceOutboxIsTheLog | packages/baresync/src/schema/local-schema.ts:28-32 | over any run, a row has at most one pending entry, whose operation is the fold of the operations enqueued since it was last marked |
| Envelope.FlattenPendingTables | crates/baresync-core/src/push.rs:219-259 | one unit for each changed row, then one for each deleted id, with their outbox ids |
| Envelope.MergePendingUnits | crates/baresync-core/src/push.rs:261-279 | tables in alphabetical order, each with its rows and ids in unit order |
| Envelope.MergeFlatten | crates/baresync-core/src/push.rs:219-279 | merging the units of a table gives back the table's changes |
| Envelope.MergedRowCount | crates/baresync-core/src/push.rs:261-279 | an envelope counts one row for each unit |
| Envelope.ChunkLenMonotone | crates/baresync-core/src/push.rs:281-291 | the encoded length in bytes does not grow when units are left out at either end |
| Envelope.ValidatePushEnvelope | packages/baresync/src/server/service.ts:99-129 | accepts exactly the bodies within the byte limit whose rows and deleted ids are within the row limit |
| Chunking.ChunkPendingPushTables | crates/baresync-core/src/push.rs:303-342 | chunks concatenate to the input, none is empty, each is a single unit or within both limits, and none could take the next unit |
| Chunking.GreedyIsOptimal | crates/baresync-core/src/push.rs:303-342 | for any monotone limit, no other order-preserving split into allowed chunks uses fewer chunks |
| Chunking.ChunkingIsOptimal | crates/baresync-core/src/push.rs:303-342 | so it is for the row and byte limits of a push |
| WorkList.CollectOutboxIds | crates/baresync-core/src/push.rs:293-301 | the outbox ids of a chunk, each once and sorted |
| WorkList.SameUnitsSameKey | crates/baresync-core/src/push.rs:127-138 | the key of a chunk depends only on which outbox ids it holds, not on their order |
| WorkSpec.FrontIsServedFirst | crates/baresync-core/src/push.rs:412-417 | the first unit answered is one of the front chunk, whatever is split |
| WorkSpec.OrderKeptIff | crates/baresync-core/src/push.rs:388-499 | of distinct units, the order is kept exactly if no chunk is too large for the client or for the server |
| WorkSpec.SplitReverses | crates/baresync-core/src/push.rs:474-497 | two rows whose first request meets a 413 are answered in reverse |
| WorkList.Send | crates/baresync-core/src/push.rs:426-499 | a request either keeps the invariant of the work list with a smaller weight, or stops for a reason that names a real culprit |
| WorkList.Turn | crates/baresync-core/src/push.rs:388-499 | the same for one turn of the loop, the local size check included |
| WorkList.Drain | crates/baresync-core/src/push.rs:388-499 | ends after at most 2n - k requests under any replies; succeeds exactly if every unit is small enough and no reply is fatal, and then every unit is in exactly one answered request; the chunks answered are those of `WorkSpec.Served`, and distinct units arrive in order exactly if no chunk has to be split |
| WorkList.SendableIsAccepted | packages/baresync/src/server/service.ts:99-129 | with client limits no higher than the server's, every envelope sent passes the server's check |
| WorkList.PushUnits | crates/baresync-core/src/push.rs:353-499 | chunking and draining together have these properties |
| DbWorker.Connection.Batch | crates/baresync-core/src/db_worker.rs:330-385 | all statements or none, inside an open transaction or outside |
| DbWorker.Connection.ApplyStatements | crates/baresync-core/src/pull.rs:89-113 | batch or fallback: the database is as if statements ran one by one, skipping those that fail |
| Store.RunOutcome | crates/baresync-core/src/push.rs:28-111 | statements on different rows act on each row by itself, by the conflict rule |
| Store.RunTwice | crates/baresync-core/src/push.rs:28-111 | running such statements again succeeds and changes nothing |
| Store.ExecIntegrity | crates/baresync-core/src/push.rs:28-111 | a statement violates no foreign key exactly if the row it writes has its parents, and integrity is kept |
| Store.RunIntegrity | crates/baresync-core/src/pull.rs:32-113 | a run succeeds exactly if every row written has its parents by then |
| Pull.BuildUpserts | crates/baresync-core/src/pull.rs:32-65 | upserts of the listed tables in upsert order, by the first entry of each table |
| Pull.BuildDeletes | crates/baresync-core/src/pull.rs:67-87 | soft deletes of the listed tables in delete order |
| Pull.ApplyPullBatchTables | crates/baresync-core/src/pull.rs:21-116 | executes upserts, then deletes, skipping what fails, and counts them |
| Pull.PullTwiceIsOnce | crates/baresync-core/src/pull.rs:21-116 | applying a response twice is applying it once |
| Pull.RowAfterPull | crates/baresync-core/src/push.rs:28-111 | an unsynced, strictly newer local row keeps its contents; every other row named takes the server's columns or becomes a tombstone; the rest stay |
| Pull.StatementForRow | crates/baresync-core/src/pull.rs:32-87 | the one statement that a response has for a row |
| Pull.SortedOrderIsParentsFirst | packages/baresync/src/generator/fk-order.ts:100-155 | an order of the topological sort lists parents first |
| Pull.OrderMakesPullSafe | crates/baresync-core/src/pull.rs:32-113 | in that order, on a database with integrity, no row is skipped exactly if every row that is not ignored has its parents locally or in the response; integrity is kept |
| Pull.SelfReferenceOutOfOrder | crates/baresync-core/src/pull.rs:32-113 | a child ahead of its parent in one table makes the batch fail |
| SkippedRows.SkippingOutcome | crates/baresync-core/src/pull.rs:89-113 | a row takes the effect of its statement exactly if that fits; if not, it stays as it was |
| SkippedRows.SkippingKeepsIntegrity | crates/baresync-core/src/pull.rs:89-113 | a pull that skips leaves no reference dangling |
| SkippedRows.FitsIff | crates/baresync-core/src/pull.rs:89-113 | a statement fits exactly if it is a soft delete, or the conflict rule leaves its row alone, or the row has its parents among the rows there by its turn |
| SkippedRows.LandsIff | crates/baresync-core/src/pull.rs:21-116 | a pull under foreign keys brings a missing row into being exactly if it names it, live, and it fits |
| SkippedRows.ThereIffLanded | crates/baresync-core/src/pull.rs:119-204 | over any history of pulls, local work and other writers, a row missing at first is there at the end exactly if it landed in one of the pulls that brought it |
| SkippedRows.MissingIffItDidNotFit | crates/baresync-core/src/pull.rs:184-198 | a row that a pull brings is missing ever after, as long as the server does not write it again, exactly if it did not fit then |
| SkippedRows.BroughtAgainIff | crates/baresync-core/src/pull.rs:184-198 | behind a pull that moves the cursor, the next one brings the row again exactly if the server has written it since and left it live |
| SkippedRows.YoungerChildIsSkipped | examples/inventory-json-polling/apps/server/src/db/v1/drizzle-helper/sync-repository.ts:48-64 | in a response that lists the latest rows first, a row that refers to an older missing row of its own table does not fit |
| SkippedRows.YoungerChildStaysMissing | crates/baresync-core/src/pull.rs:184-198 | and stays missing at every later point, as long as the server does not write it again |
| PushOrder.OrderPushChanges | packages/baresync/src/server/service.ts:131-163 | a stable sort by place in the order, unknown tables last |
| PushOrder.StableSortPermutes | packages/baresync/src/server/service.ts:131-163 | such a sort is a permutation of its input |
| PushOrder.StableSortUnique | packages/baresync/src/server/service.ts:131-163 | there is only one such sort of an input |
| PushOrder.OrderedTables | packages/baresync/src/server/service.ts:131-163 | for distinct tables: those of the order that are present, in that order, then the others |
| PushOrder.EnvelopeOrder | crates/baresync-core/src/push.rs:261-279 | so it is for the alphabetical tables of every envelope |
| Cursor.CursorRoundTrip | packages/baresync/src/server/service.ts:165-196 | a cursor comes back from its text exactly if table name and row id have no colon, and else fails to parse |
| Cursor.WatermarkRoundTrip | packages/baresync/src/server/service.ts:213-219 | a watermark cursor always comes back |
| Cursor.PickLatestSyncCursorRow | packages/baresync/src/server/service.ts:221-253 | a row that no other exceeds; it has the greatest stamp |
| Cursor.CursorTable.GetLastCursor | crates/baresync-core/src/cursor.rs:4-13 | the cursor of a most recent row of the scope, or the empty text |
| Cursor.CursorTable.SetLastCursor | crates/baresync-core/src/cursor.rs:15-49 | every later read of the scope gives the new cursor; other scopes read as before |
| SqlTracker.ClassifiedByFirstWord | crates/tauri-plugin-baresync/src/commands.rs:117-131 | only the first word of a statement counts, in any case and behind any white space |
| SqlTracker.SqlState.ShouldNotifyAfterSql | crates/tauri-plugin-baresync/src/commands.rs:133-180 | depth, pending-write flag and answer after each statement; other query methods change nothing |
| SqlTracker.CounterIsDepthIffMatched | crates/tauri-plugin-baresync/src/commands.rs:133-180 | the counter is the nesting depth throughout exactly in runs with matched commits and releases and no rollback to a savepoint |
| SqlTracker.NotificationRefinesNesting | crates/tauri-plugin-baresync/src/commands.rs:133-180 | in such runs a statement notifies exactly if it publishes writes: one outside any transaction, or an outermost commit of some |
| SqlTracker.TrackerIsRightIff | crates/tauri-plugin-baresync/src/commands.rs:133-180 | after any run, the tracker represents the open transactions exactly if in every matched continuation each statement notifies as it publishes |
| SqlTracker.RollbackToLosesTransaction | crates/tauri-plugin-baresync/src/commands.rs:117-131 | after a rollback to a savepoint a write inside the open transaction notifies |
| Idempotency.GuardIsSafe | packages/baresync/src/server/idempotency.ts:176-319 | if reclaims and clean-ups are safe, in particular if no pending record is taken for stale: at most one callback in flight per key, one success per record, and every answer is that success's response for the request's own hash |
| Idempotency.SafeThroughoutIff | packages/baresync/src/server/idempotency.ts:176-319 | over every interleaving of atomic steps of any number of requests, crashes and clean-ups: requests in flight own the pending record of their key and hash alone, and no lifetime has two successes, throughout exactly if every reclaim is safe and no pending record is cleaned up while somebody works on it |
| Idempotency.OneCallbackIff | packages/baresync/src/server/idempotency.ts:176-319 | at most one callback in flight per key, under a pending record, throughout exactly if every reclaim finds its record and no other request of the key in flight, and no pending record is cleaned up under a request in flight |
| Idempotency.OwnHashIff | packages/baresync/src/server/idempotency.ts:113-138 | each callback runs under a record of its own hash, throughout exactly if every reclaim finds such a record and no pending record is cleaned up under a request in flight |
| Idempotency.StaleReclaimRunsTwice | packages/baresync/src/server/idempotency.ts:241-248 | whatever the timeout, a record taken for stale while its callback runs gives two callbacks at once |
| Idempotency.StaleCleanUpRunsTwice | packages/baresync/src/server/idempotency.ts:284-319 | whatever the age from which pending records are cleaned up, cleaning one up while its callback runs gives two callbacks at once |
| Idempotency.MissingRecordRunsTwice | packages/baresync/src/server/idempotency.ts:113-138 | two callbacks at once without a reclaim in the presence of another request: the record was gone when it was reclaimed |
| Idempotency.OldHashGetsTheResponse | packages/baresync/src/server/idempotency.ts:113-138 | after a reclaim with another body, the response is replayed to the old hash, and the new one meets a conflict |
| Idempotency.BatchRequests.Reserve | packages/baresync/src/server/idempotency.ts:64-84 | inserts a pending record, or fails exactly if the key is taken |
| Idempotency.BatchRequests.RunGuard | packages/baresync/src/server/idempotency.ts:176-216 | outcome and record after a request that nothing interleaves with; it can be replayed exactly if the record was new or had this hash |
| Idempotency.BatchRequests.CleanupSyncBatchRequests | packages/baresync/src/server/idempotency.ts:284-374 | deletes only expired records, all of them or up to the limit, and none in a dry run |
| Repository.SplitSyncRows | packages/baresync/src/server/service.ts:260-286 | live rows without their stamp and deleted ids, in order |
| Repository.SplitIsBucket | packages/baresync/src/server/service.ts:260-286 | splitting what was read loses no row of the delta and invents none |
| Repository.EmptyBucket | packages/baresync/src/server/service.ts:341-355 | a bucket is empty exactly if its table has no news |
| Repository.BuildPullTables | packages/baresync/src/server/service.ts:308-339 | an entry for each requested known table, for all tables if none is requested |
| Repository.ChangedTableNames | packages/baresync/src/server/service.ts:341-355 | exactly the tables whose bucket is not empty |
| Repository.ResponseNamesRowsOnce | packages/baresync/src/server/drizzle.ts:361-387 | a response names each row once, as a changed row or by its id |
| Repository.SyncRepository.ReadRows | examples/inventory-json-polling/apps/server/src/db/v1/drizzle-helper/sync-repository.ts:48-64 | each row of the table stamped after the timestamp, or each row for 0, once, latest stamp first |
| Repository.SyncRepository.ReadLatestRow | examples/inventory-json-polling/apps/server/src/db/v1/drizzle-helper/sync-repository.ts:35-47 | a row of the table with the greatest stamp, or none |
| Repository.SyncRepository.ReadTableSnapshots | packages/baresync/src/server/drizzle.ts:253-318 | a bucket for every table, and cursor candidates that outdo every row |
| Repository.SyncRepository.LoadPullChanges | packages/baresync/src/server/drizzle.ts:448-455 | exactly the news of the requested tables, latest rows first, and the latest stamp over all tables |
| Repository.SyncRepository.LoadSyncStatus | packages/baresync/src/server/drizzle.ts:457-477 | exactly the tables that a pull from the same cursor has news of |
| Repository.SyncRepository.UpsertRow | examples/inventory-json-polling/apps/server/src/db/v1/drizzle-helper/sync-repository.ts:75-81 | writes the whole row with the stamp of the request |
| Repository.SyncRepository.SoftDeleteRow | examples/inventory-json-polling/apps/server/src/db/v1/drizzle-helper/sync-repository.ts:65-74 | turns an existing row into a tombstone with the stamp of the request |
| Repository.SyncRepository.ApplyPushChanges | packages/baresync/src/server/drizzle.ts:418-446 | all writes in order with one stamp; an unknown table stops it with what came before written |
| Repository.WriteOutcome | packages/baresync/src/server/drizzle.ts:418-446 | a row written once ends up as that write makes it |
| Planning.AnsweredIsPlanned | crates/baresync-core/src/push.rs:388-499 | the answered requests of a finished work list send each row of the outbox once, whatever was split and in whatever order |
| Engine.AppliedIsPulled | crates/baresync-core/src/pull.rs:119-204 | applying the repository's response changes each row as the protocol's pull step says |
| Planning.PlanDivides | crates/baresync-core/src/push.rs:388-499 | requests that together send each row once divide the outbox: each row is in one of them |
| Requests.OneMoreRequest | packages/baresync/src/server/drizzle.ts:418-446 | one more request adds its rows to those the server has taken, each with a later stamp |
| Requests.AnsweredFromTheStart | crates/baresync-core/src/push.rs:127-138 | requests of one push have keys of their own: one is answered from a record exactly if it was before the push began |
| Requests.HandledNext | packages/baresync/src/server/handlers.ts:246-264 | requests handled one by one add up to what the protocol's push step says of all of them |
| PushHandler.WritesOfItems | packages/baresync/src/server/drizzle.ts:418-446 | the changes of a body write each of its rows once |
| PushHandler.PushEndpoint.Handle | packages/baresync/src/server/handlers.ts:213-274 | a request is replayed without a write, turned away, or run and remembered, by its ids and its body |
| Engine.SyncEngine.WriteLocalChange | packages/baresync/src/tauri/client.ts:208-211 | whatever the application makes of the row, and its outbox entry |
| Engine.SyncEngine.Pull | crates/baresync-core/src/pull.rs:119-204 | takes the pull step; the cursor moves if it started from the stored one or there was none |
| Engine.SyncEngine.ReadUnsynced | crates/baresync-core/src/schema.rs:164-255 | the pending rows of a table that can be sent; entries without their row are marked and left out |
| Engine.SyncEngine.SendNext | crates/baresync-core/src/push.rs:408-499 | one request through the guard: handled, or turned away with nothing changed exactly as it conflicts |
| Engine.SyncEngine.SendAll | crates/baresync-core/src/push.rs:408-499 | sends the requests in turn through the guard, up to the first conflict |
| Engine.SyncEngine.MarkTable | crates/baresync-core/src/push.rs:504-528 | marks all entries sent for a table with an accepted row, then the accepted rows with nothing pending |
| Engine.SyncEngine.Push | crates/baresync-core/src/push.rs:353-538 | takes the push step and reports exactly the tables with refused rows; or stops at the first request that meets an answer for another body, with nothing marked |
| Engine.SyncEngine.RunGarbageCollection | crates/baresync-core/src/gc.rs:4-24 | deletes exactly the synced tombstones and counts them |
| Engine.SyncEngine.Settle | crates/baresync-core/src/engine.rs:149-172 | a baseline pull of the tables with refused rows if there are any, then garbage collection |
| Engine.SyncEngine.PushThenSettle | crates/baresync-core/src/engine.rs:143-180 | push, baseline pull of the tables with refused rows if there are any, garbage collection |
| Engine.SyncEngine.RunPullOnly | crates/baresync-core/src/engine.rs:182-212 | pull of the changed tables, garbage collection |
| Engine.SyncEngine.RunFullSync | crates/baresync-core/src/engine.rs:214-264 | pull of the changed tables, then push and what settles it |
| Engine.SyncEngine.RunFullResync | crates/baresync-core/src/engine.rs:266-297 | baseline pull of all tables, push, garbage collection |
| Engine.SyncEngine.CheckStatus | crates/baresync-core/src/status.rs:17-39 | whether there is news, and exactly the tables with news |
| Engine.SyncEngine.SyncNow | crates/baresync-core/src/engine.rs:90-137 | picks the mode from cursor, outbox and status, and takes that mode's step, or stops at the first request that meets an answer for another body |
| SyncInvariant.PullSound | crates/baresync-core/src/pull.rs:129-204 | a pull of every table with news keeps the cursor sound and never moves it back |
| SyncInvariant.FilteredPullSoundIff | packages/baresync/src/server/drizzle.ts:369-378 | a filtered pull keeps the cursor sound exactly if every row it leaves out was delivered before |
| SyncInvariant.PushSound | crates/baresync-core/src/push.rs:353-538 | a push keeps the cursor sound, whatever the server refuses |
| SyncInvariant.PushInterruptedSound | crates/baresync-core/src/push.rs:432-499 | so does a push that stops behind some of its requests, the next one written in part included |
| SyncInvariant.PushAndSettleSound | crates/baresync-core/src/engine.rs:143-180 | a push and the baseline pull of refused tables leave the cursor alone and sound |
| SyncInvariant.SyncNowSound | crates/baresync-core/src/engine.rs:90-137 | every sync_now keeps the cursor sound, leaves one behind, and moves it only forward and only on news |
| SyncInvariant.FullResyncSound | crates/baresync-core/src/engine.rs:266-297 | a full resync keeps the cursor sound and does not move one that is there |
| Answers.NoneOutstandingIsFirstTime | crates/baresync-core/src/push.rs:127-138 | if no pending entry is part of an answered request, the next push is run in full |
| Answers.AcceptedInFull | crates/baresync-core/src/push.rs:501-538 | without refusals, then or when the answers were made, a push is accepted in full |
| Answers.RetryConflictsIff | packages/baresync/src/server/idempotency.ts:218-251 | after a lost reply with nobody writing since, a retry that first pulls is replayed exactly if each live row of it is dated no earlier than the server's write and each tombstone carries the time of the pull, and meets a 409 otherwise |
| Answers.DeletedRowConflicts | crates/baresync-core/src/push.rs:96-111 | a request with a deleted row meets the 409 whatever the row's date, unless the tombstone carries the time of the pull |
| Answers.ConflictRepeats | crates/baresync-core/src/push.rs:472-499 | a 409 comes again at the next sync, with nobody else writing |
| Convergence.PullStage | crates/baresync-core/src/pull.rs:129-204 | a pull makes a row agree exactly if it did before or the conflict rule lets the server's row in; then no row is news |
| Convergence.PushStage | crates/baresync-core/src/push.rs:353-538 | a push has the server's write come back, and leaves replayed rows as far apart as they were |
| Convergence.SyncNowRow | crates/baresync-core/src/engine.rs:90-137 | what a sync_now does to a row in each mode |
| Convergence.QuietSyncRow | crates/baresync-core/src/engine.rs:111-136 | with nothing pending, a sync_now makes a row agree exactly if it did before or the pull replaces it |
| Convergence.SyncNowEmptiesOutbox | crates/baresync-core/src/engine.rs:90-297 | after a sync_now that goes through without refusals nothing is pending |
| Convergence.ConvergesIff | crates/baresync-core/src/engine.rs:90-297 | two sync_now calls that go through, with no other writers and no refusals, make the visible rows equal exactly if at the start no row is left apart |
| SteadyStates.PullSteady | crates/baresync-core/src/pull.rs:129-204 | a pull keeps every difference between client and server either due to be pushed or news |
| SteadyStates.PushReconciles | crates/baresync-core/src/push.rs:353-538 | after a push, a row is so exactly if it was written, agrees or is news |
| SteadyStates.PushSteady | crates/baresync-core/src/push.rs:353-538 | so a push keeps it whose requests were not answered before, and it empties the outbox |
| SteadyStates.GcSteady | crates/baresync-core/src/gc.rs:4-24 | garbage collection keeps it too |
| SteadyStates.SyncNowSteady | crates/baresync-core/src/engine.rs:90-137 | so does a sync_now in every mode whose requests were not answered before |
| SteadyStates.SteadyLeftApart | packages/baresync/src/server/idempotency.ts:218-251 | from such a state, a row is left apart only by a request that was answered before |
| SteadyStates.TwoSyncsConverge | crates/baresync-core/src/engine.rs:90-297 | from such a state, two sync_now calls converge if no request of the first was answered before |
| SteadyStates.ConvergesIffNoHiddenOrphan | crates/baresync-core/src/schema.rs:112-120 | from any state whose differences are pending or news, they do so exactly if no pending change without its row hides a row that the server shows and has no news of |
| HardDeletes.HardDeleteLeftApartIff | crates/baresync-core/src/schema.rs:106-135 | after a hard delete in such a state, a row is left apart exactly if it is the deleted one, the server shows it without news of it, and no delete of it is pending |
| HardDeletes.HardDeleteConvergesIff | crates/baresync-core/src/schema.rs:106-135 | two sync_now calls after a hard delete converge exactly if the deleted row is not such a one |
| HardDeletes.HiddenOrphanStays | crates/baresync-core/src/schema.rs:112-120 | a run with an update and a hard delete of one row after which client and server stay different |
| ModeRefinement.FilterIsHarmless | crates/baresync-core/src/engine.rs:123-136 | asking for the changed tables is asking for all |
| ModeRefinement.NoOpRefines | crates/baresync-core/src/engine.rs:111-121 | doing nothing is pulling all and pushing, when there is nothing to do |
| ModeRefinement.PushOnlyRefines | crates/baresync-core/src/engine.rs:123-126 | pushing only is pulling all and pushing, when there is no news |
| ModeRefinement.ModesRefineFullSync | crates/baresync-core/src/engine.rs:111-136 | every mode leaves the same visible rows, outbox, server and news as pulling all tables and then pushing could |
| Refusals.RefusedEntryMarkedIff | crates/baresync-core/src/push.rs:504-519 | a refused entry is marked as synced exactly if another row of its table was accepted |
| Refusals.PushStrandsIff | crates/baresync-core/src/push.rs:501-524 | a push by itself strands an edit exactly if it was refused beside an accepted row of its table |
| Refusals.StrandedIff | crates/baresync-core/src/engine.rs:148-172 | an edit ends up unsynced with nothing pending exactly if it was refused beside an accepted row of its table and the server's row does not outdate it |
| Refusals.ResyncStrandedIff | crates/baresync-core/src/engine.rs:266-297 | a full resync, which does not pull behind its push, strands an edit exactly if the server's row did not outdate it and it was then refused beside an accepted row |
| SyncRuns.StepSound | crates/baresync-core/src/engine.rs:90-297 | each event of a run keeps the cursor sound and never moves it back |
| SyncRuns.FailedSyncIsEvents | crates/baresync-core/src/engine.rs:214-264 | a sync_now that fails on its push is a pull, whatever others write meanwhile, and an interrupted push |
| SyncRuns.RunsAreSound | crates/baresync-core/src/pull.rs:129-204 | in every run, with refusals, interruptions, hard deletes and other writers, every row stamped at or below the cursor has been delivered in its current version |
| SyncRuns.CursorOnlyGrows | crates/baresync-core/src/cursor.rs:15-49 | in every run, a stored cursor is never blanked and never moves back |
| SyncRuns.RunsConvergeIff | crates/baresync-core/src/engine.rs:90-297 | after any run without refusals, with lost replies, conflicts, callbacks failing half-way, hard deletes and other writers, two sync_now calls that go through make the visible rows equal exactly if no row is left apart |
| SyncRuns.UnrepeatedRunsAreSteady | crates/baresync-core/src/engine.rs:90-297 | in every run without refusals and hard deletes in which no push that goes through is replayed, interruptions included, every difference is due to be pushed or news |
| SyncRuns.RunsConverge | crates/baresync-core/src/engine.rs:90-297 | after any such run, two sync_now calls converge, if the first is not replayed either |
| LostReplies.UndisturbedRunsConverge | crates/baresync-core/src/engine.rs:90-297 | after any run without refusals, hard deletes and lost replies, two sync_now calls make the visible rows equal |
| LostReplies.LostReplyLeftApartIff | packages/baresync/src/server/idempotency.ts:228-234 | right after a lost reply, a row is left apart exactly if its edit is dated later than the server's write |
| LostReplies.LostReplyKeepsApart | packages/baresync/src/server/idempotency.ts:228-234 | a run with one lost reply and another writer after which client and server stay different |
| PossibleSteps.PullPossible | crates/baresync-core/src/pull.rs:119-204 | a pull can always be taken |
| PossibleSteps.PushPossible | crates/baresync-core/src/push.rs:353-538 | a push of which no request conflicts can be taken to the end, whatever is refused |
| FailingSyncs.ConflictIsStale | packages/baresync/src/server/idempotency.ts:218-251 | after the pull of a sync_now a request conflicts exactly if it was answered and, told from the state before, says something else by then |
| FailingSyncs.SyncGoesThroughIff | crates/baresync-core/src/engine.rs:90-137 | from any sound state, whatever others write before the push, a sync_now can go through exactly if no request of it is so |
| FailingSyncs.SyncStopsIff | crates/baresync-core/src/push.rs:472 | it stops with a 409 at a request exactly if that is the first such one |
| FailingSyncs.RunsGoThroughIff | crates/baresync-core/src/engine.rs:90-137 | so it is after every run without refusals |
| FailingSyncs.StaleStays | crates/baresync-core/src/push.rs:472-499 | through any number of failing syncs with nobody else writing such a request stays so, and no sync_now with it goes through |
| FailingSyncs.EditAfterLostReplyIff | packages/baresync/src/tauri/client.ts:145-170 | writing a row of it again after a lost reply keeps the request's key; the request conflicts exactly if some row of it is not as it went out after the pull |
| FailingSyncs.TombstoneConflicts | crates/baresync-core/src/push.rs:96-111 | a run with one lost reply and nobody else writing after which a deleted row cannot be synced, although it is dated later than the server's write |
| Garbage.RunGarbageCollection | crates/baresync-core/src/gc.rs:4-24 | under foreign keys, deletes table by table until one statement fails, and counts what is gone |
| Garbage.CollectionGoesThroughIff | crates/baresync-core/src/gc.rs:9-21 | it goes through exactly if whatever refers to a synced tombstone is one itself, of the same or an earlier table |
| Garbage.DeleteOrderServesIff | packages/baresync/src/generator/fk-order.ts:150-154 | in delete order, exactly if no other row refers to a synced tombstone |
| Garbage.UpsertOrderFails | crates/baresync-core/src/engine.rs:168-170 | in upsert order, a deleted parent with a deleted child stops it |

## Left out

- HTTP, headers, Tauri plumbing, polling and its in-progress flag, migrations, diagnostics, manifests, the command line, the documentation site.
- SQLite and Drizzle themselves: a table is a map from ids to rows, a statement a partial function on the database; whether a COMMIT goes through is a parameter.
- SHA-256 (FIPS 180-4): a key is the sorted list of outbox ids that is hashed; two lists with one hash are not considered.
- Wall clocks and ids: the server's clock grows with every request that is run, and a write's stamp is its time; equal or decreasing millisecond stamps are not modelled. Outbox ids are numbers given out once.
- JSON text: the byte length of an envelope is computed, its text is not; a row's own JSON text is given with the row. Values are null, texts and integers.
- Naming.ColumnRoundTrip: ASCII names only; capitals of other alphabets change length when lowered.
- Cursor.CursorRoundTrip: timestamps are decimal digits; the other number texts that JavaScript accepts are not modelled.
- Repository.SyncRepository.LoadPullChanges: takes the timestamp that the cursor's text parses to and returns the stamp that goes into the next one; the text is in Cursor.
- Repository.SyncRepository.ReadRows: leaves ties between rows of one stamp open.
- Repository.SyncRepository.ReadLatestRow: leaves ties between rows of one stamp open.
- Pages: `limit` and `hasMore`; the repository always answers in full.
- Several scopes: a store holds the rows of one scope, except in Cursor.CursorTable.
- Foreign keys in Engine and SyncRuns: their statements never fail; with foreign keys, Pull.OrderMakesPullSafe and Garbage.CollectionGoesThroughIff say exactly when none does, and SkippedRows what is lost when one does.
- Engine.SyncEngine.Push: the requests are any division of the outgoing rows that sends each once, as WorkList.Drain and Planning.AnsweredIsPlanned prove of the work list, and one change per row stands for the merged tables; SyncRuns has the pushes that stop half-way.
- Engine.SyncEngine.SendAll: stops at a 409 only; 413 replies are in WorkList, transport errors and lost replies in SyncRuns.
- Engine.SyncEngine.ReadUnsynced: reads an outbox with one pending entry per row, which Outbox.InPlaceOutboxIsTheLog proves of the client's.
- The refusals of a server are a parameter; the Drizzle repository itself refuses nothing.
- Local writes while a push is under way: a push reads and marks the outbox with no write between.
- Engine.SyncEngine.RunGarbageCollection: foreign keys are in Garbage; `deleted_at` is a time or missing; the empty text and 'null', which the query leaves alone, are not modelled.
- The "failed" status of an idempotency record, which nothing writes.
- PushHandler.PushEndpoint.Handle: requests of a client come one at a time, and its callback does not fail, so there are no pending records and no reclaims in it; those are in Idempotency, and SyncRuns has callbacks that fail half-way. It applies changes in the order of the body; PushOrder is about the order that the handler gives them, which does not matter to rows that differ.
