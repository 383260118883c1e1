# Verified model of the sync pipeline, the self-update and their companions

The system copies orders, products, customers and stock levels from a JTL SQL Server database to a
multi-tenant backend. A Windows client pages through the source, an ingest queue in Redis runs at most
one job per tenant, and an ingest service writes PostgreSQL tables. The client also replaces its own
binaries. This project models that behaviour in Dafny and proves what it is for:

- **Client** (`Paging`, `PagingProperties`, `LastBatchFlag`, `Reach`, `Watermarks`, `SyncClient`, `RunEndings`, `Restarts`,
  `Coverage`, `CoverageLimits`, `ExactDelivery`): the page loop, its chunk-size reduction, the checkpoint and the watermark file. Everything
  the outside world can do in a turn of the loop (a fetch fails, an answer is lost, the user cancels, a file
  write does not reach the disk) is a parameter, so the statements hold for every behaviour of it.
- **Queue** (`JobQueue`, `QueueHistory`): the waiting and processing lists, the status hash, draining and recovery.
- **Ingest** (`Inventory`, `InventoryProperties`, `InventorySnapshot`, `TenantIsolation`, `Orders`, `OrderDelivery`): staging
  and swapping of inventory snapshots, and the upsert of orders into a table without a unique key.
- **End to end** (`InventoryQueries`, `StockMeaning`, `InventorySources`, `RunBatches`, `RunAcceptance`, `StagedGroups`,
  `LostSnapshots`, `SharedKeys`, `Pipeline`, `EndToEnd`): the stock queries and the choice of a source, client, queue and ingest together.
- **Self-update** (`UpdateTransaction`, `UpdateHost`, `MaintenanceWindow`, `CanonicalJson`).
- **Companions** (`Revocation`, `Csv`, `Grouping`): revocation of refresh tokens, and the evidence scripts.

Code that changes things step by step is a class with methods (`SyncOrchestrator`, `WatermarkService`,
`SyncQueue`, `IngestService`, `OrderStore`, `UpdateMachine`, `AuthService`) or a method with a loop. Each such
method is proved to do what a function on values says; the properties are lemmas about those functions.
`Common` and `Sequences` are shared. `dafny verify dfyconfig.toml` checks everything.

Twelve promises fail for some input. The code is modelled as it is; the counterexample and the exact
condition are lemmas:

- A cancellation seen at the head of the page loop still advances the watermark (`CancelledRunLosesARow`; a run
  that advances it covers its window exactly as `AdvancingRunCoversIff` says).
- A failed requested full run leaves a checkpoint that the next incremental run reads as a position in
  another list (`FailedFullRunLosesARow`, `FullCheckpointFitsIff`).
- A run whose offsets are not multiples of its chunk size can end without a batch flagged last
  (`UnalignedRunCanLackTheFlag`). A run that fails after a reduction is resumed with the configured size, so the
  settings that exclude it are exactly the chunk sizes that never shrink (`ChainsAlwaysFlagIff`); for runs from
  row 0 alone they are those of `AlwaysFlagsIff`.
- A failed run is not resumed after a restart of the client if no row of its module had ever been synced: the
  restart deletes the file with the checkpoint (`ResumedAfterRestartsIff`, `RestartsForgetIff`).
- The watermark can move back when the clearing of a checkpoint alone does not reach the disk
  (`LostClearingMovesBack`; one run moves it back exactly as `RunMovesBackIff` says, and no history does in which
  writes are lost in order, `WatermarkNeverMovesBack`).
- A resumed inventory run has a new run id and sends only the rest of its list, and that rest becomes the whole
  inventory (`ResumedRunLeavesTail`).
- A lost acknowledgement brings rows in twice, and can leave half a snapshot as the inventory
  (`LostAckShrinksSnapshot`; enqueued rows: `ListIsEnqueuedOnceIff`; the inventory table: `InventoryIsListIff`,
  and `StockedInventoryIsListIff` when every row has stock).
- Behind a malformed entry the queue scan deletes another entry than the job it starts
  (`MalformedEntryLosesAJob`, `TakenJobIsDeletedIff`, `OneMalformedEntryIff`).
- A restart can put a tenant's running job behind its waiting ones (`RestartCanBreakOrder`, `RestartKeepsFifoIff`).
- Preparing an update again over a half-installed one backs up the half-installed tree, and its rollback
  restores that one (`CrashedInstallLosesOriginal`, `PreparedAgainRestoresIff`).
- A session opened in the same second as a logout-all, after it, is refused (`SameSecondSessionIsRefused`,
  `SessionAfterLogoutAllIff`).
- A plain logout revokes the access token of the request; the refresh token, whose cookie it clears, stays
  acceptable (`LoggedOutSessionCanRefresh`, `LogoutLeavesRefreshToken`).

## Model

| member | source | states |
|---|---|---|
| `Paging.FlagMeaning` | sync-engine-dotnet/JtlSyncEngine/Services/SyncOrchestrator.cs:350-351 | a page carries the last-batch number exactly when the chunk its first row falls into, counted from row 0, holds the last row |
| `RunEndings.AttemptDecides` | sync-engine-dotnet/JtlSyncEngine/Services/SyncOrchestrator.cs:402-461 | after every attempt of a run: an acknowledged page takes it to the row behind the page, unless the pause before the next is cut short; a refused page is tried again from the same row in half chunks, not below the minimum, if and only if the answer allows it and the chunk is above the minimum, and ends the run there otherwise; a cancelled send ends it |
| `RunEndings.StopDecides` | sync-engine-dotnet/JtlSyncEngine/Services/SyncOrchestrator.cs:348-379 | a run that stops without an attempt has reached the row count, was cancelled, failed to fetch or fetched an empty page, and says which |
| `RunEndings.RefusedPage` | sync-engine-dotnet/JtlSyncEngine/Services/SyncOrchestrator.cs:408-439 | with a minimum of 25 rows for orders and 50 otherwise: a refused page that is not tried again ends the run with an error and a checkpoint at its row, and the watermark stays |
| `RunEndings.RunLeaves` | sync-engine-dotnet/JtlSyncEngine/Services/SyncOrchestrator.cs:463-506 | what each ending leaves: failed runs a checkpoint where they stopped, aborted ones the file as it was, others that sent rows the end of their window and the number of rows up to where they stopped |
| `RunEndings.RunStarts` | sync-engine-dotnet/JtlSyncEngine/Services/SyncOrchestrator.cs:273-332 | which page a run sends first and in which chunk size, from the stored checkpoint, the request and the settings |
| `RunEndings.EmptyWindow` | sync-engine-dotnet/JtlSyncEngine/Services/SyncOrchestrator.cs:309-319 | a window without rows moves the watermark, drops the checkpoint and sends nothing |
| `PagingProperties.WalkTiles` | sync-engine-dotnet/JtlSyncEngine/Services/SyncOrchestrator.cs:348-461 | the acknowledged pages of a run lie end to end from its start to where it stopped, and every failed attempt was made at the position reached so far |
| `PagingProperties.BatchIndicesIncrease` | sync-engine-dotnet/JtlSyncEngine/Services/SyncOrchestrator.cs:350-351 | across every chunk-size reduction batch numbers never decrease, increase strictly after each success, and two attempts share a number only when the later is a smaller page from the same row |
| `PagingProperties.LostAcksLoseNoRows` | sync-engine-dotnet/JtlSyncEngine/Services/SyncOrchestrator.cs:408-439 | every row a run passed over is in a batch that the backend enqueued, although smaller retries of a page with a lost acknowledgement are answered as duplicates |
| `PagingProperties.CompletedRunPassesEverything` | sync-engine-dotnet/JtlSyncEngine/Services/SyncOrchestrator.cs:374-379 | a run that ends at the row count or on an empty page has passed over the whole list |
| `Reach.ReachedIff` | sync-engine-dotnet/JtlSyncEngine/Services/SyncOrchestrator.cs:348-461 | the rows that a run brings to the backend are exactly those from its start to the end of its furthest delivered page, acknowledged or not |
| `PagingProperties.FlagNeverPremature` | backend/src/ingest/ingest.service.ts:323-324 | a batch taken for the last one reaches the last row, aligned or not |
| `LastBatchFlag.AlwaysFlagsIff` | sync-engine-dotnet/JtlSyncEngine/Services/SyncOrchestrator.cs:416-423 | for every minimum of at least 2, runs from row 0: finished ones flag their final batch over every list and in every weather if and only if the chunk size is at or below the minimum or is halved evenly down to it |
| `LastBatchFlag.ChainsAlwaysFlagIff` | sync-engine-dotnet/JtlSyncEngine/Services/SyncOrchestrator.cs:283-332 | over finite chains of runs, each resumed with the configured size where the one before failed: every finished run flags its final batch, over every list and in every weather, if and only if the chunk size is at or below the minimum |
| `PagingProperties.AlignedRunFlagsItsFinalBatch` | sync-engine-dotnet/JtlSyncEngine/Services/SyncOrchestrator.cs:350-351 | with offsets that are multiples of the chunk size exactly one acknowledged batch is flagged, the final one |
| `PagingProperties.HalvableSizesStayAligned` | sync-engine-dotnet/JtlSyncEngine/Services/SyncOrchestrator.cs:416-423 | from an aligned start a chunk size that never shrinks, or halves evenly down to the minimum, keeps every attempt of the run aligned, whatever fails |
| `PagingProperties.UnalignedRunCanLackTheFlag` | sync-engine-dotnet/JtlSyncEngine/Services/SyncOrchestrator.cs:350-351 | rows 30 to 69 in chunks of 50 are all acknowledged and none is flagged |
| `Watermarks.WatermarkService.constructor` | sync-engine-dotnet/JtlSyncEngine/Services/WatermarkService.cs:25-56 | starting the service keeps the files that count rows as they are, and leaves modules whose file counts none as new ones, back in 2000 |
| `Watermarks.WatermarkService.UpdateWatermark` | sync-engine-dotnet/JtlSyncEngine/Services/WatermarkService.cs:97-120 | moves one module's watermark and counters, keeps its checkpoint, and changes no other module; a lost write changes nothing |
| `Watermarks.WatermarkService.SaveCheckpoint` | sync-engine-dotnet/JtlSyncEngine/Services/WatermarkService.cs:122-141 | stores offset and window end of one module and keeps its watermark |
| `Watermarks.WatermarkService.ClearCheckpoint` | sync-engine-dotnet/JtlSyncEngine/Services/WatermarkService.cs:143-163 | drops one module's checkpoint, and writes only when there is one |
| `SyncClient.SyncOrchestrator.SendPage` | sync-engine-dotnet/JtlSyncEngine/Services/SyncOrchestrator.cs:348-461 | one turn of the loop sends and decides what the specification says, and saves a checkpoint at the current offset exactly when a fetch or batch failed for good |
| `SyncClient.SyncOrchestrator.SendPages` | sync-engine-dotnet/JtlSyncEngine/Services/SyncOrchestrator.cs:342-461 | the loop sends exactly the batches of the specification and leaves a checkpoint where it stopped exactly after a failure |
| `SyncClient.SyncOrchestrator.PlanRun` | sync-engine-dotnet/JtlSyncEngine/Services/SyncOrchestrator.cs:273-332 | the window, row count and starting offset of a run, and the clearing of a checkpoint that lies beyond the row count |
| `SyncClient.SyncOrchestrator.FinishRun` | sync-engine-dotnet/JtlSyncEngine/Services/SyncOrchestrator.cs:463-506 | the watermark advances exactly when no batch failed, the run was not aborted and some row was sent |
| `SyncClient.SyncOrchestrator.RunPaginatedSync` | sync-engine-dotnet/JtlSyncEngine/Services/SyncOrchestrator.cs:255-521 | one run does to the module's file and sends to the backend exactly what the run specification says, and touches no other module's file |
| `SyncClient.NextRunResumes` | sync-engine-dotnet/JtlSyncEngine/Services/SyncOrchestrator.cs:293-332 | a run that failed past row 0 and was not a requested full one is resumed by the next such run: same window, from the failing position, with the configured chunk size |
| `Restarts.RestartsForgetIff` | sync-engine-dotnet/JtlSyncEngine/Services/WatermarkService.cs:38-56 | any number of restarts keeps watermark and checkpoint of a module that has synced rows, and forgets both of one that has not |
| `Restarts.ResumedAfterRestartsIff` | sync-engine-dotnet/JtlSyncEngine/Services/SyncOrchestrator.cs:293-332 | a failed run followed by restarts is resumed in its window, at the row where it failed, if and only if there was no restart or earlier runs had synced rows |
| `Restarts.RunMovesBackIff` | sync-engine-dotnet/JtlSyncEngine/Services/SyncOrchestrator.cs:463-481 | a run moves the watermark exactly when it advances and its last write reaches the disk, and back exactly when the end of its window lies before it |
| `Restarts.WatermarkNeverMovesBack` | sync-engine-dotnet/JtlSyncEngine/Services/SyncOrchestrator.cs:463-481 | once a run has advanced it with rows, no history of runs over a changing source and of restarts moves the watermark back, when clocks do not run behind it and writes are lost in order |
| `Restarts.LostClearingMovesBack` | sync-engine-dotnet/JtlSyncEngine/Services/SyncOrchestrator.cs:464-468 | when only the clearing of a checkpoint is lost, the run after a full one moves the watermark back to the end of the old checkpoint's window |
| `Restarts.FullSyncStartsIn2000` | sync-engine-dotnet/JtlSyncEngine/Services/SyncOrchestrator.cs:273-273 | the earliest watermark is the first day of 2000 |
| `Coverage.RunKeepsInv` | sync-engine-dotnet/JtlSyncEngine/Services/SyncOrchestrator.cs:293-332 | each benign run keeps: rows before the watermark are accepted, and so are the rows that a stored checkpoint skips |
| `Coverage.WatermarkCoverage` | sync-engine-dotnet/JtlSyncEngine/Services/SyncOrchestrator.cs:255-521 | after any history of successful, failed, resumed, shrunk, stopped, cancelled and restarted runs, lost writes included, that leaves nothing behind in the two ways below, every source row timestamped before the watermark has been in an accepted batch |
| `Coverage.CoverageFromFreshStart` | sync-engine-dotnet/JtlSyncEngine/Services/SyncOrchestrator.cs:255-521 | so it is from a client without a watermark file and a backend that has accepted nothing |
| `Coverage.LookbackMeaning` | sync-engine-dotnet/JtlSyncEngine/Services/SyncOrchestrator.cs:45-57 | an incremental orders run lists the rows since the watermark and those of the lookback days before it, unless the watermark lies within two days of 2000, and none from before 2000 |
| `CoverageLimits.AdvancingRunCoversIff` | sync-engine-dotnet/JtlSyncEngine/Services/SyncOrchestrator.cs:464-468 | a run that advances the watermark brings in exactly the rows up to its furthest delivered page, and everything before the new watermark is covered if and only if the rows past that page were accepted earlier; only a cancellation seen at the loop head leaves such rows |
| `CoverageLimits.CancelledRunLosesARow` | sync-engine-dotnet/JtlSyncEngine/Services/SyncOrchestrator.cs:464-468 | three rows, a run cancelled at the loop head after the second and the next run: the third is never accepted, and the watermark is past it |
| `CoverageLimits.FullCheckpointFitsIff` | sync-engine-dotnet/JtlSyncEngine/Services/SyncOrchestrator.cs:294-298 | after a failed requested full run and the next run that finishes its window, everything before the watermark is covered if and only if every row that the resumed run skipped was accepted before the full run or brought in by it |
| `CoverageLimits.FailedFullRunLosesARow` | sync-engine-dotnet/JtlSyncEngine/Services/SyncOrchestrator.cs:294-298 | three rows, a full run failing on the second and the next run: the second row is never accepted, and the watermark is past it |
| `CoverageLimits.HarmlessFullRun` | sync-engine-dotnet/JtlSyncEngine/Services/SyncOrchestrator.cs:294-298 | a failed full run over three rows that leaves nothing behind, since what the next run skips was accepted before |
| `ExactDelivery.ListIsEnqueuedOnceIff` | sync-engine-dotnet/JtlSyncEngine/Services/SyncOrchestrator.cs:408-439 | the enqueued batches of a finished aligned run carry each row of the list exactly once, in order, if and only if no acknowledgement was lost or the list fits into the last chunk size tried |
| `JobQueue.FreshMarkerDeletesPosition` | backend/src/ingest/sync-queue.service.ts:102-109 | setting a marker that is not in the list and removing it deletes exactly that position |
| `JobQueue.ScanTakesFirstIdle` | backend/src/ingest/sync-queue.service.ts:124-144 | when every entry parses a scan takes the first job whose tenant is idle and removes exactly it; it takes nothing only if all tenants in the scanned prefix are active |
| `JobQueue.TakesFirstIdleUpTo100` | backend/src/ingest/sync-queue.service.ts:124-144 | of a list that parses the first job of an idle tenant is taken if it stands at position 100 or before, and otherwise nothing |
| `JobQueue.AnswerMeaning` | backend/src/ingest/sync-queue.service.ts:209-249 | a posted job is a duplicate while one of its id is queued, in process or done, otherwise refused when waiting, processing and active together reach the limit, otherwise queued last |
| `JobQueue.TakeConservesIff` | backend/src/ingest/sync-queue.service.ts:124-144 | for every list, malformed entries included, taking a job loses and copies none if and only if the well-formed entries that the scan deletes are exactly the job it takes |
| `JobQueue.TakenJobIsDeletedIff` | backend/src/ingest/sync-queue.service.ts:128-141 | with m malformed entries before the taken job the scan deletes one entry for each of them and then, for the job, what stood m places further, nothing past the end; that is the job itself if and only if m is zero or an equal entry stood there |
| `JobQueue.OneMalformedEntryIff` | backend/src/ingest/sync-queue.service.ts:128-141 | behind one malformed entry taking a job conserves jobs if and only if an equal entry directly follows it |
| `JobQueue.MalformedEntryLosesAJob` | backend/src/ingest/sync-queue.service.ts:128-141 | a list of one malformed entry and two jobs of which the scan starts the first and deletes the second |
| `JobQueue.DrainLeavesNobodyWaiting` | backend/src/ingest/sync-queue.service.ts:257-271 | after a drain every job at positions 0 to 100 belongs to an active tenant |
| `JobQueue.DrainStartsIdleTenants` | backend/src/ingest/sync-queue.service.ts:257-264 | a drain starts jobs of tenants that were idle, one each, and activates nobody else |
| `JobQueue.DrainMovesJobs` | backend/src/ingest/sync-queue.service.ts:257-264 | the started jobs move to the end of processing in order, and no job is lost or copied |
| `JobQueue.SyncQueue.constructor` | backend/src/ingest/sync-queue.service.ts:56-63 | at start the jobs left in processing are back in the queue and no tenant is active |
| `JobQueue.SyncQueue.RecoverProcessingJobs` | backend/src/ingest/sync-queue.service.ts:111-122 | every job in processing moves to the tail of the queue in order |
| `JobQueue.SyncQueue.EnqueueJob` | backend/src/ingest/sync-queue.service.ts:209-249 | dedupe by status, backpressure by depth, and appending, as the specification says |
| `JobQueue.SyncQueue.RemoveQueuedIndex` | backend/src/ingest/sync-queue.service.ts:102-109 | the two list commands with a fresh marker delete one position |
| `JobQueue.SyncQueue.TakeNext` | backend/src/ingest/sync-queue.service.ts:124-144 | the loop over the snapshot of at most 101 entries, malformed ones included |
| `JobQueue.SyncQueue.Drain` | backend/src/ingest/sync-queue.service.ts:257-264 | starts jobs until a scan takes nothing, or nothing at all once stopped, on lists with malformed entries too |
| `JobQueue.SyncQueue.SettleJob` | backend/src/ingest/sync-queue.service.ts:273-310 | a processed job gets the status done or failed, and nothing else changes |
| `JobQueue.SyncQueue.ReleaseJob` | backend/src/ingest/sync-queue.service.ts:310-316 | removes one copy of the job from processing and frees its tenant |
| `QueueHistory.NoJobIsLost` | backend/src/ingest/sync-queue.service.ts:102-144 | through any interleaving and any restarts the jobs waiting, in processing and finished are the accepted ones, every entry parses, no tenant has two jobs in processing, and the backlog stays within bounds |
| `QueueHistory.PerTenantFifo` | backend/src/ingest/sync-queue.service.ts:251-317 | for each tenant finished, in-process and waiting jobs are together its accepted jobs in order, with at most one in process, through every restart that finds nothing of it in process or nothing waiting |
| `QueueHistory.RestartKeepsFifoIff` | backend/src/ingest/sync-queue.service.ts:111-122 | a restart keeps a tenant's order if and only if it had nothing in processing or nothing waiting |
| `QueueHistory.RestartCanBreakOrder` | backend/src/ingest/sync-queue.service.ts:111-122 | a history of six steps with one restart finishes a tenant's second job before its first |
| `QueueHistory.SettleMeaning` | backend/src/ingest/sync-queue.service.ts:298-310 | ending a job in processing sets its status and leaves both lists and the active tenants alone |
| `QueueHistory.EnqueueKeepsIdsUniqueIff` | backend/src/ingest/sync-queue.service.ts:214-224 | an accepted enqueue keeps job ids unique if and only if the id is in neither list; otherwise its status was failed |
| `QueueHistory.EndedJobIsRetriedIff` | backend/src/ingest/sync-queue.service.ts:214-224 | once a job has ended the same job is taken in again if and only if it failed; otherwise it is answered as a duplicate that is done |
| `QueueHistory.IdsStayUnique` | backend/src/ingest/sync-queue.service.ts:209-249 | job ids stay unique over queue and processing through every history of serialised enqueues, restarts included |
| `Inventory.GroupByIsAggregation` | backend/src/ingest/ingest.service.ts:1231-1252 | grouping yields one row per key, holding the aggregate of exactly the rows of that key |
| `Inventory.AggregateMeaning` | backend/src/ingest/ingest.service.ts:1237-1247 | an aggregate holds the sums, the largest reorder point, and low stock if any row has it |
| `Inventory.GroupByConserves` | backend/src/ingest/ingest.service.ts:1231-1252 | grouping conserves every sum over every selection of tenant and product |
| `Inventory.MetadataMeaning` | backend/src/ingest/ingest.service.ts:527-555 | which batches are accepted for their source metadata, field by field |
| `Inventory.IngestMeaning` | backend/src/ingest/ingest.service.ts:280-360 | an ingest is rejected exactly when its metadata is not accepted, or a last batch finds nothing staged or, under policy verify, blank rows against an inventory with stock; it fails when the database lets it, and only a committed one changes the tables |
| `Inventory.IngestService.UpsertInventory` | backend/src/ingest/ingest.service.ts:1193-1281 | statement by statement: clear on the first batch, stage, and on the last batch guard, replace, refresh products and clear |
| `Inventory.IngestService.ProcessIngest` | backend/src/ingest/ingest.service.ts:280-360 | an ingest commits as a whole or leaves the tables as they were |
| `InventoryProperties.SwapConserves` | backend/src/ingest/ingest.service.ts:1225-1252 | a committed swap keeps total, available and reserved sums between staging and inventory, per tenant and per product |
| `InventoryProperties.SwapRefreshesProducts` | backend/src/ingest/ingest.service.ts:1255-1277 | each of the tenant's products in the snapshot shows its total stock, or what is available if no total is recorded; all other products are untouched |
| `InventoryProperties.StockIsNeverWiped` | backend/src/ingest/ingest.service.ts:563-610 | under policy verify with non-negative rows no sequence of ingests takes a tenant from positive stock to none |
| `InventorySnapshot.RunReplacesInventory` | backend/src/ingest/ingest.service.ts:1193-1281 | all batches of a run in order replace the tenant's inventory by the aggregate of exactly their rows, whatever an earlier attempt had staged |
| `TenantIsolation.IngestIsLocal` | backend/src/ingest/ingest.service.ts:1193-1281 | an ingest reads and changes only its own tenant's part of the tables |
| `Orders.LatestIsLatest` | backend/src/ingest/ingest.service.ts:653-675 | the incoming row kept for an order is one that no other row of the batch is later than |
| `Orders.LatestByTime` | backend/src/ingest/ingest.service.ts:653-675 | of the rows of an order the one with the greatest modification time is kept, any before none, and of several with that time the first of the batch |
| `Orders.TableHasTheLatest` | backend/src/ingest/ingest.service.ts:651-731 | after the upsert the order agrees on all compared columns with that row, and is that row if it is new |
| `Orders.IncomingIsLatest` | backend/src/ingest/ingest.service.ts:653-675 | the de-duplicated list has one row per order, that latest one |
| `Orders.OrderStore.UpsertOrders` | backend/src/ingest/ingest.service.ts:651-731 | update then insert, both against the table as it was before the statement |
| `Orders.UpsertKeepsKeysUnique` | backend/src/ingest/ingest.service.ts:647-650 | one row per order stays one row per order without a constraint |
| `Orders.IncomingOrdersAgree` | backend/src/ingest/ingest.service.ts:676-731 | after the upsert every incoming order agrees with its latest incoming row on all compared columns; no other order changes |
| `Orders.ExistingOrderColumns` | backend/src/ingest/ingest.service.ts:677-709 | an order that agrees on the compared columns keeps its whole row; otherwise address and item count survive missing values and all else is overwritten |
| `Orders.UpsertIsIdempotent` | backend/src/ingest/ingest.service.ts:651-731 | repeating an upsert changes nothing |
| `Orders.DisjointUpsertsCommute` | backend/src/ingest/ingest.service.ts:651-731 | upserts of different orders commute |
| `Orders.SameRowsSameTable` | backend/src/ingest/ingest.service.ts:651-731 | the table depends only on which rows of a window were delivered, not on batches, order or repetition |
| `OrderDelivery.FinishedRunUpsertsItsWindow` | sync-engine-dotnet/JtlSyncEngine/Services/SyncOrchestrator.cs:348-461 | a finished orders run in any weather, fresh or resumed, its enqueued batches ingested in any order and any number of times, equals one upsert of its window from its start on |
| `OrderDelivery.ResumedRunsUpsertTheWindow` | sync-engine-dotnet/JtlSyncEngine/Services/SyncOrchestrator.cs:293-332 | any number of failed runs over a window, each resumed where the one before stopped, with lost acknowledgements, are one upsert of the window once the last has reached its end |
| `OrderDelivery.PartialRunsAddUp` | backend/src/ingest/ingest.service.ts:651-731 | runs that together deliver a window equal one upsert of it, in either order |
| `Pipeline.DrainedTenantIsReplayed` | backend/src/ingest/sync-queue.service.ts:251-317 | once a tenant's jobs have drained its tables are what its accepted jobs, one after the other in order, make of those it started with |
| `Pipeline.OthersKeepTheirTables` | backend/src/ingest/sync-queue.service.ts:273-317 | a tenant none of whose jobs is processed keeps its tables |
| `Pipeline.ActionMeaning` | backend/src/ingest/sync-queue.service.ts:251-317 | what offering, taking, processing and finishing a job do to queue, status and tables; a job is ingested once and its status says whether that was committed |
| `RunBatches.UnresumedRunWalksFromRowZero` | sync-engine-dotnet/JtlSyncEngine/Services/SyncOrchestrator.cs:293-332 | an inventory run that is not resumed sends exactly a walk from row 0, and a finished aligned walk counts as a successful run of all rows |
| `RunBatches.LosslessWalkIsRun` | sync-engine-dotnet/JtlSyncEngine/Services/SyncOrchestrator.cs:348-461 | when no acknowledgement is lost, or the list fits the last chunk size, what a finished aligned walk gets enqueued is one run in order, first and last batch marked, with exactly the rows of the list |
| `RunBatches.LossStaysBehind` | sync-engine-dotnet/JtlSyncEngine/Services/SyncOrchestrator.cs:408-439 | otherwise an enqueued page of the last loss stays behind: the acknowledged pages that bring in the rest of the list start at one of its rows, past row 0 |
| `RunAcceptance.RunIsAcceptedOnce` | backend/src/ingest/sync-queue.service.ts:209-224 | however often the client repeats the post of a batch, and in between the work of all tenants, the jobs accepted from a run are exactly its enqueued batches, each once and in order |
| `RunAcceptance.RepeatedPost` | sync-engine-dotnet/JtlSyncEngine/Services/ApiClient.cs:100-178 | a batch of the run that is posted again is answered as a duplicate and changes nothing |
| `RunAcceptance.RunJobCommits` | backend/src/ingest/sync-queue.service.ts:273-317 | when a batch of the run is ingested its tenant's earlier jobs have been and no other, so it commits as it does in sequence |
| `EndToEnd.RunBecomesInventory` | backend/src/ingest/ingest.service.ts:1193-1281 | client walk, repeated posts, queue and ingest together, in any weather in which no acknowledgement is lost or the list fits the last chunk size: once drained, the tenant's inventory is the aggregate of exactly the source rows, nothing of the run stays staged and products show that stock |
| `EndToEnd.InventoryIsListIff` | backend/src/ingest/ingest.service.ts:1193-1281 | for a finished aligned run over rows with different keys, under policy allow or with positive totals: the drained inventory is the aggregate of the list if and only if no enqueued batch but the last was flagged and no row with stock is in two of them |
| `EndToEnd.StockedInventoryIsListIff` | backend/src/ingest/ingest.service.ts:1193-1281 | when every row has stock, if and only if no acknowledgement was lost or the list fits the last chunk size |
| `EndToEnd.ResumedRunLeavesTail` | sync-engine-dotnet/JtlSyncEngine/Services/SyncOrchestrator.cs:293-332 | a finished aligned inventory run that starts at row o and loses nothing leaves the aggregate of the rows from o on as the whole inventory: for different keys the aggregate of the list if and only if o is 0 |
| `LostSnapshots.LossShows` | backend/src/ingest/ingest.service.ts:1222-1281 | after a loss that counts, once every batch of the run has committed, some row of the list is missing from the inventory or its stock is in there two or more times |
| `LostSnapshots.CommittedRunIff` | backend/src/ingest/ingest.service.ts:1222-1281 | once every batch of a finished walk over rows with different keys has committed, the inventory is the aggregate of the list if and only if no loss counts |
| `SharedKeys.SharedKeysCanHideALoss` | backend/src/ingest/ingest.service.ts:1231-1252 | with one key for all rows a run with two lost acknowledgements that count can still leave the aggregate of the list |
| `EndToEnd.LostAckShrinksSnapshot` | sync-engine-dotnet/JtlSyncEngine/Services/SyncOrchestrator.cs:408-424 | one lost acknowledgement on a page of 100 rows leaves the last 50 as the whole inventory |
| `InventoryQueries.MergedRowHasStockIff` | sync-engine-dotnet/JtlSyncEngine/Inventory/JtlInventoryQueries.cs:113-128 | a merged row of non-negative partners shows stock if and only if one of them does |
| `InventoryQueries.MergedIsPerProduct` | sync-engine-dotnet/JtlSyncEngine/Inventory/JtlInventoryQueries.cs:113-132 | of tables with one row per product the merge has one row for each product in either |
| `InventoryQueries.SummaryCountsPageRows` | sync-engine-dotnet/JtlSyncEngine/Inventory/JtlInventoryQueries.cs:147-222 | every summary query counts and sums exactly the rows that the page query of its source pages through, the separately written merged pair included |
| `InventoryQueries.KeyedSources` | sync-engine-dotnet/JtlSyncEngine/Inventory/JtlInventoryQueries.cs:11-145 | when no table has two rows of one product, no source has |
| `InventoryQueries.SummaryIsFoldOverPages` | sync-engine-dotnet/JtlSyncEngine/Inventory/JtlInventoryQueries.cs:147-222 | without two rows of one product the summary query of a source is the fold over the pages that its page query reads, in chunks of any size, although every page is sorted anew |
| `StockMeaning.SingleSources` | sync-engine-dotnet/JtlSyncEngine/Inventory/JtlInventoryQueries.cs:11-72 | each single source has exactly the rows that the columns of its table give rise to, missing figures as zero, rows without a product left out; in the level table reserved is what is there but not available |
| `StockMeaning.MergedSource` | sync-engine-dotnet/JtlSyncEngine/Inventory/JtlInventoryQueries.cs:74-145 | the merged source has exactly the rows that come of a product's detailed row and article row, or of the one that exists; which side each of the four figures comes from is written out |
| `StockMeaning.SummaryMeaning` | sync-engine-dotnet/JtlSyncEngine/Inventory/JtlInventoryQueries.cs:207-222 | a summary counts the rows and those with stock and adds up each column |
| `InventorySources.ResolveIgnoresOrder` | sync-engine-dotnet/JtlSyncEngine/Inventory/JtlInventorySourceResolver.cs:20-104 | the resolver's answer does not depend on the order of distinct sources |
| `InventorySources.SelectedSource` | sync-engine-dotnet/JtlSyncEngine/Inventory/JtlInventorySourceResolver.cs:10-51 | the diagnosis selects the first in priority of the sources whose tables are there, whose query answers and which have rows |
| `InventorySources.StatusMeaning` | sync-engine-dotnet/JtlSyncEngine/Inventory/JtlInventorySourceResolver.cs:53-103 | which status and answer the first valid source in priority leads to, under every combination of settings |
| `InventorySources.NoSourceMeaning` | sync-engine-dotnet/JtlSyncEngine/Inventory/JtlInventorySourceResolver.cs:34-41 | without a valid source the resolver says so and stops the sync |
| `InventorySources.SafeIff` | sync-engine-dotnet/JtlSyncEngine/Inventory/JtlInventorySourceResolver.cs:30-103 | under the loaded settings a sync is safe if and only if the first valid source in priority is the merged one with stock, or has undisputed stock, or no source has any and zero stock is allowed |
| `InventorySources.SourceRowByRow` | backend/src/ingest/ingest.service.ts:1231-1252 | the aggregate of a staged source with one row per product holds for each product its figures as read, low exactly when what is available does not exceed a positive reorder point, and nothing else |
| `InventorySources.MetadataAgrees` | backend/src/ingest/ingest.service.ts:527-555 | with the same zero-stock policy on both sides the backend accepts the metadata of exactly the diagnoses that the client calls safe |
| `InventorySources.SafeDiagnosisPassesGuards` | backend/src/ingest/ingest.service.ts:527-610 | whatever the two zero-stock policies are, the backend accepts the metadata of a safe diagnosis exactly unless it is a confirmed zero stock that the backend does not allow, and then the rows of the selected source pass the swap check against any existing inventory |
| `InventorySources.DiagnosedStockArrives` | sync-engine-dotnet/JtlSyncEngine/Services/SyncOrchestrator.cs:150-194 | from the raw tables to the inventory: after a finished run over the pages of the selected source and a drain, in which no loss counts, the tenant's inventory adds up to exactly the totals that its summary query diagnosed; under policy allow or with positive totals it is the source row by row, with every figure and the low-stock flag, if and only if no loss counts |
| `UpdateTransaction.TreeIsAlwaysRecoverable` | sync-engine-dotnet/JtlSyncEngine.Updater/Program.cs:35-108 | through any interleaving of agent and updater, crashes between and inside file operations, relaunches and new preparations, the tree is the backed-up one overlaid by staged files on staged paths, and rolled_back means the backed-up tree |
| `UpdateTransaction.TempNamesIff` | sync-engine-dotnet/JtlSyncEngine.Updater/Program.cs:187-209 | the temporary names are those of files with one of the updater's two suffixes |
| `UpdateTransaction.AgentWaits` | sync-engine-dotnet/JtlSyncEngine.Updater/Program.cs:37-53 | while the updater copies, restores or starts the host, no step of the agent changes anything |
| `UpdateTransaction.StepHappensWhere` | sync-engine-dotnet/JtlSyncEngine.Updater/Program.cs:35-108 | which step of updater and agent can happen in which phase and state |
| `UpdateTransaction.RollbackUndoesInstall` | sync-engine-dotnet/JtlSyncEngine.Updater/Program.cs:178-211 | from every reachable state one complete restoring pass gives back the backed-up tree outside temporary names |
| `UpdateTransaction.CleanPreparationsRestore` | sync-engine-dotnet/JtlSyncEngine.Core/Updates/UpdateCoordinator.cs:62-128 | through every history in which preparations over unfinished transactions find the original tree, rolled_back means the original tree |
| `UpdateTransaction.PreparationStartsFrom` | sync-engine-dotnet/JtlSyncEngine.Core/Updates/UpdateCoordinator.cs:62-117 | a preparation backs up the tree as it is; it starts a new update after one that completed or was rolled back, and otherwise goes on from the tree that the unfinished one started from |
| `UpdateTransaction.PreparedAgainRestoresIff` | sync-engine-dotnet/JtlSyncEngine.Core/Updates/UpdateCoordinator.cs:62-128 | after a preparation over an unfinished transaction, and until the next one, every history that ends in rolled_back has the tree the update started from if and only if the tree was that one at the preparation |
| `UpdateTransaction.DirtyPreparationLosesOriginal` | sync-engine-dotnet/JtlSyncEngine.Core/Updates/UpdateCoordinator.cs:62-128 | from every state in which an installable update is prepared again over a tree that is not the original one, some history ends in rolled_back without the original tree |
| `UpdateTransaction.CrashedInstallLosesOriginal` | sync-engine-dotnet/JtlSyncEngine.Core/Updates/UpdateCoordinator.cs:62-128 | for every installable release that changes some file: a history that starts on a fresh machine, dies right after that file was copied first, prepares again, and ends in rolled_back with a tree that is not the original one |
| `UpdateHost.UpdateMachine.CopyTree` | sync-engine-dotnet/JtlSyncEngine.Updater/Program.cs:178-191 | replaces every staged file through its temporary name; a fault at any file operation leaves a history of the transition system |
| `UpdateHost.UpdateMachine.RestoreReplacedFiles` | sync-engine-dotnet/JtlSyncEngine.Updater/Program.cs:193-211 | puts back every staged path from the backup or deletes it, likewise under faults |
| `UpdateHost.UpdateMachine.Rollback` | sync-engine-dotnet/JtlSyncEngine.Updater/Program.cs:71-103 | ends in rolled_back only after a complete restoring pass and a restarted host, in rollback_failed on any exception |
| `UpdateHost.UpdateMachine.Install` | sync-engine-dotnet/JtlSyncEngine.Updater/Program.cs:35-108 | refuses exactly the transactions that are not restarting or not complete; in the health wait every staged path holds its staged file, if the release ships none under temporary names; on any failure restores, ending in rolled_back with the backed-up tree if the host restarts and in rollback_failed otherwise, unless the process dies |
| `UpdateHost.UpdateMachine.CheckHealth` | sync-engine-dotnet/JtlSyncEngine.Updater/Program.cs:52-108 | a completed transaction ends the updater without touching a file; a failed or late one is restored, ending in rolled_back with the backed-up tree or in rollback_failed; otherwise it waits |
| `UpdateHost.UpdateMachine.BackupAsync` | sync-engine-dotnet/JtlSyncEngine.Core/Updates/BinaryBackupService.cs:21-38 | the file-by-file copy is the install tree, or there is no backup |
| `UpdateHost.UpdateMachine.PollAsync` | sync-engine-dotnet/JtlSyncEngine.Core/Updates/UpdateCoordinator.cs:51-152 | launches if and only if the window is open, the backend answers, and a staged or restarting transaction of the release is reused or a new backup is complete; the transaction is then the reused or the newly staged one, restarting inside the window |
| `UpdateHost.UpdateMachine.RecoverAsync` | sync-engine-dotnet/JtlSyncEngine.Core/Updates/UpdateCoordinator.cs:196-262 | for every pending state the exact outcome: an accepted rollback report ends it, a healthy target build ends completed if the backend accepts and verifying otherwise, the old build at a safe boundary is relaunched, anything else stays |
| `UpdateHost.UpdateMachine.UpdateAndConfirm` | sync-engine-dotnet/JtlSyncEngine.Updater/Program.cs:35-108 | an update without faults ends with every staged file in place if and only if the new build is healthy and confirmed; otherwise the updater waits, and after its deadline the backed-up tree is back |
| `UpdateHost.UpdateMachine.RolledBackIsOriginal` | sync-engine-dotnet/JtlSyncEngine.Updater/Program.cs:89-93 | whatever methods were called and whatever failed, a machine in state rolled_back has the backed-up tree, which is the original one if no preparation replaced an unfinished update over a changed tree |
| `MaintenanceWindow.TestIsWeeklyIntervals` | sync-engine-dotnet/JtlSyncEngine.Core/Updates/MaintenanceWindow.cs:12-32 | the test holds if and only if installing is immediate, or both times parse and now lies less than the window's length after the start on some allowed day |
| `MaintenanceWindow.AllowedDay` | sync-engine-dotnet/JtlSyncEngine.Core/Updates/MaintenanceWindow.cs:12-25 | the allowed days are exactly the day names that parse |
| `MaintenanceWindow.WeeklyTime` | sync-engine-dotnet/JtlSyncEngine.Core/Updates/MaintenanceWindow.cs:18-32 | the allowed ticks of a week are the number of allowed days times the window's length |
| `CanonicalJson.CanonicalFormIsMeaning` | sync-engine-dotnet/JtlSyncEngine.Core/Updates/CanonicalJson.cs:19-31 | two documents have the same canonical form if and only if they are equal up to member order at every depth |
| `CanonicalJson.CanonicalizePreservesMeaning` | sync-engine-dotnet/JtlSyncEngine.Core/Updates/CanonicalJson.cs:19-31 | canonicalising changes member order and nothing else |
| `CanonicalJson.CanonicalizeIsIdempotent` | sync-engine-dotnet/JtlSyncEngine.Core/Updates/CanonicalJson.cs:19-31 | canonicalising twice is canonicalising once |
| `CanonicalJson.CanonicalFormIsSorted` | sync-engine-dotnet/JtlSyncEngine.Core/Updates/CanonicalJson.cs:21-26 | every object of the canonical form lists its members in ordinal order of their names' UTF-16 code units |
| `CanonicalJson.LeqMeaning` | sync-engine-dotnet/JtlSyncEngine.Core/Updates/CanonicalJson.cs:21-26 | a name comes before another when it is its start or has the smaller code unit where they first differ |
| `CanonicalJson.FixedPointsAreSorted` | sync-engine-dotnet/JtlSyncEngine.Core/Updates/CanonicalJson.cs:19-31 | a document is its own canonical form if and only if it is sorted at every depth |
| `Csv.RoundTrip` | backend/scripts/channel-payment-phase0-private-workspace.js:20-31 | a reader for section 2 of RFC 4180 reads back exactly the header and the rows, for any number of rows of arbitrary text |
| `Csv.RoundTripCells` | backend/scripts/channel-payment-phase0-private-workspace.js:20-31 | cell by cell the text is read back, and an empty one for a missing value |
| `Csv.WriterIsInjective` | backend/scripts/channel-payment-phase0-sanitize.js:80-85 | files are equal if and only if their texts are |
| `Grouping.JoinIsInjective` | backend/scripts/channel-payment-phase0-private-workspace.js:140-140 | NUL-joined keys are equal if and only if the NUL-free tuples are |
| `Grouping.MaskMeaning` | backend/scripts/channel-payment-phase0-private-workspace.js:15-18 | masking keeps every place, with A for a letter, 9 for a digit and any other character as it is |
| `Grouping.PatternsAgreeIff` | backend/scripts/channel-payment-phase0-private-workspace.js:137-140 | two samples have the same pattern exactly when the first 64 characters of their order numbers agree up to letters and digits, and the blank one exactly without a number |
| `Grouping.GroupByPattern` | backend/scripts/channel-payment-phase0-private-workspace.js:137-151 | the rows are the classes of the samples under equality of keys, each with its size |
| `Grouping.GroupMinimally` | backend/scripts/channel-payment-phase0-private-workspace.js:169-191 | the groups are the classes of the rows under equality of minimal keys, with the sum of their counts and the set of their patterns |
| `Grouping.BothLevelsConserve` | backend/scripts/channel-payment-phase0-private-workspace.js:137-191 | both levels count every sample exactly once |
| `Grouping.MinimalGroupIsUnion` | backend/scripts/channel-payment-phase0-private-workspace.js:169-191 | a sample is in a minimal group if and only if its pattern group is |
| `Grouping.GroupListsItsPatterns` | backend/scripts/channel-payment-phase0-private-workspace.js:188-188 | the patterns listed for a minimal group are exactly those of its samples |
| `Revocation.AuthService.CleanupExpiredRevokedTokens` | backend/src/auth/auth.service.ts:233-238 | deletes expired rows at most every 15 minutes unless forced |
| `Revocation.CleanupMeaning` | backend/src/auth/auth.service.ts:233-238 | a cleanup, forced or a quarter of an hour after the last, deletes exactly the rows that have expired |
| `Revocation.CleanupEventDeletesExpired` | backend/src/auth/auth.service.ts:233-238 | as an event of a history a forced cleanup leaves no expired row and loses no other |
| `Revocation.AuthService.IsRevokedByUserSentinel` | backend/src/auth/auth.service.ts:299-308 | looking at any one sentinel of the user answers for all, because there is at most one |
| `Revocation.AuthService.RefreshToken` | backend/src/auth/auth.service.ts:471-509 | accepts a token only when it is not expired, not revoked and not before the sentinel, and revokes it |
| `Revocation.AuthService.LogoutSession` | backend/src/auth/auth.service.ts:660-668 | revokes the presented access token until it expires, and nothing else but a due cleanup |
| `Revocation.AuthService.LogoutAllSessions` | backend/src/auth/auth.service.ts:670-687 | revokes the presented token and replaces the user's sentinel |
| `Revocation.AuthService.ChangeUserPassword` | backend/src/auth/auth.service.ts:744-767 | likewise with a sentinel just before the new session's second |
| `Revocation.RevokedStaysRevoked` | backend/src/auth/auth.service.ts:471-508 | after any further history of cleanups and sentinel replacements, a rotated refresh token, an access token whose session was ended, and a token issued in a second before a logout-all or password change, is refused at every later time |
| `Revocation.RotatedTokenIsSpent` | backend/src/auth/auth.service.ts:471-508 | a refresh token that was accepted once is refused when presented again, at once or after any further history |
| `Revocation.LogoutLeavesRefreshToken` | backend/src/auth/auth.service.ts:660-668 | after a logout the access token of the request is refused, and a refresh token is refused if and only if it has expired, was rotated or lies before its user's sentinel |
| `Revocation.LoggedOutSessionCanRefresh` | backend/src/auth/auth.controller.ts:61-66 | a second after a logout the refresh token still opens a session |
| `Revocation.NewSessionSurvives` | backend/src/auth/auth.service.ts:740-767 | the session issued by a password change passes its own sentinel and is accepted exactly until it expires |
| `Revocation.SessionAfterLogoutAllIff` | backend/src/auth/auth.service.ts:670-687 | a session opened after a logout-all is accepted until it expires if and only if it was not issued in the second of the logout-all |
| `Revocation.SameSecondSessionIsRefused` | backend/src/auth/auth.service.ts:299-308 | a session opened half a second after a logout-all in the same second is refused |
| `Revocation.ConfiguredLifetimeFits` | backend/src/auth/auth.service.ts:218-231 | for a configured lifetime of the recognised form the computed age is the lifetime of a token, and at least a minute; otherwise it is seven days |

## Left out

- Dry runs, logging, sync telemetry, audit, matview refresh, cache, daily snapshots and retries of an ingest: none decides the results above; a failed attempt leaves the tables as they were.
- HTTP, compression, timeouts and waits between the posts of a batch, JSON encoding of jobs and the database drivers: a send is posted once or several times, delivered or not and acknowledged or not; an entry of the queue parses or does not.
- The text of error messages: whether a failure allows a smaller chunk is a parameter of each turn.
- Integer widths: counts, offsets and stock are mathematical integers, and decimal columns are exact.
- SQL text, and column mapping outside the stock queries: a page is a slice of an ordered list while a window is open. Of schema detection the stock tables and their optional minimum columns are modelled.
- Tables that change between the diagnosis of stock and the reading of its pages, and tables with two rows of one product, whose order among themselves can differ from page to page.
- Changes of the source while a window is being read, and a lookback setting changed between runs.
- `Coverage.WatermarkCoverage`: excludes exactly the runs that leave rows behind (a cancellation at the loop head with rows left that were not accepted before, and a failed requested full run whose checkpoint skips such rows), because the code loses rows there; clocks must not run behind a stored window end.
- An unreadable watermark file and a write torn halfway: a write reaches the disk or does not.
- A lookback of more than two thousand years, which makes the date arithmetic throw.
- Interleaved enqueues of the same job: `QueueHistory.IdsStayUnique` is about serialised ones that do not retry a failed job before it is released.
- Crashes between removing an entry from the queue and pushing it to processing.
- A failure of the bookkeeping between an ingest's commit and the job's status, which would show a committed job as failed.
- `JobQueue.ScanTakesFirstIdle`: is about lists in which every entry parses, which `QueueHistory.NoJobIsLost` shows to be kept; other lists are the subject of `JobQueue.TakeConservesIff` and the two lemmas after it.
- `Grouping.GroupMinimally`: the review priority, the candidate names, the totals looked up per combination and the final sort are not modelled.
- Order of the rows that `GROUP BY` returns: one fixed order stands for all; warehouse names are not modelled.
- The product module's own writes to product stock.
- `Orders.OrderStore.UpsertOrders`: models the statement for schemas without canonical channels; the other statement has the same form with more columns. Timestamps of synchronisation are not modelled, and of equally late rows the first is taken where SQL leaves the choice open.
- Upserts of order items, products and customers, and the deactivation of unseen products.
- The transformers, except that an inventory row is low on stock when what is available does not exceed a positive reorder point (backend/src/ingest/transformers/inventory.transformer.ts:56).
- `EndToEnd.RunBecomesInventory`: is about runs from row 0 in aligned chunks (a resumed run has a new run id, and is the subject of `EndToEnd.ResumedRunLeavesTail`), and about databases that let the tenant's transactions through.
- `EndToEnd.InventoryIsListIff`: under policy verify the guard may refuse a swap of rows without positive totals, so for these it is about runs whose batches all commit; rows that share a key can cancel a loss out, as `SharedKeys.SharedKeysCanHideALoss` shows.
- Signature checks, downloads, service control and named pipes of the self-update; the running build's identity is a parameter.
- A preparation that fails between deleting the old backup and saving the transaction, two transactions pending at once, two updaters at once, and directories, which hold nothing but files here.
- Proof of a complete installation from the state `completed`.
- File names that differ only in case.
- The text that a canonical document is written to; a document is a tree.
- Header names of CSV files that need quoting: the scripts' column names are plain.
- Concurrent refreshes of one token, and token lifetimes in a form that only the token library understands.
- A stop between deleting a user's old sentinel and saving the new one (backend/src/auth/auth.service.ts:679-683, 763-767).
- Login, lockout, company selection, and the checks of access tokens other than revocation.
- Schedulers, user interfaces, web pages and module wiring.
