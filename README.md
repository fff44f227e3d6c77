# Offline task sync — a verified model

This project models the offline-sync core of a small task-list backend. A client edits
tasks locally while offline. Every local mutation writes the `tasks` table and appends
one entry to a durable `sync_queue`. A sync cycle later takes a snapshot of the queue in
creation order. It cuts the snapshot into batches of 10, sends the batches one after
another, and reconciles each answer back onto the local tables. Each processed item of
an answer is a success, a conflict with server-resolved data, or an error. When the
transport fails, the whole batch fails. Each of its entries gets one more failure on its
retry count, and an entry that reaches the ceiling of 3 marks its task `error`.

The model is written in three layers.

- **Pure transitions** on one value `Store.State`. It holds the task table (a map keyed
  by task id), the queue (a sequence in stored order), a logical clock and an id supply.
  - `TaskService` holds `createTask`, `updateTask`, `deleteTask`, `getTask`,
    `getAllTasks` and `getTasksNeedingSync`.
  - `SyncService` holds `addToSyncQueue` (in `Store`, because both services use it),
    `updateSyncStatus`, `handleSyncError` and `sync`.
  - `sync` is a fold over the batches. The transport's answer for each batch is an input.
- **An imperative engine**: `Engine.SyncEngine`. It is a class whose fields are the two
  tables, the clock and the id supply. Its methods update the fields step by step, as the
  services issue their SQL statements, and its loops follow the source's loops. Each
  method is proved to leave exactly the state that the matching pure transition
  describes. The public operations and the sync loop methods (`CreateTask`, `UpdateTask`,
  `DeleteTask`, `ApplyItem`, `ApplyResponse`, `FailBatch`, `SyncBatch`, `Sync`) also
  require and ensure the consistency invariant. The inner steps (`Now`, `NewId`,
  `AddToSyncQueue`, `UpdateSyncStatus`, `HandleSyncError`, `FailEntry`) promise only the
  transition. That the invariant survives those transitions is proved separately by the
  `...KeepsValid` lemmas; for `addToSyncQueue` it holds only when the entry's task exists.
- **Properties** (`SyncProperties`, `TaskProperties`) and **worked scenarios**
  (`Scenarios`) proved about the pure transitions.

The consistency invariant `Store.Valid` says three things:
- every row is stored under its own id;
- ids and timestamps are in the past;
- every queue entry refers to an existing row, and the queue is ordered by id and by
  `created_at`.

Because of the last point, the stored order of the queue is the
`ORDER BY created_at ASC` order used by `sync`.

The code departs in several places from what an offline-sync design would lead one to
expect, and the model follows the code:

- A `conflict` carrying `resolved_data` goes through `updateTask`. The task therefore
  becomes `pending` again, and a new `update` entry is appended. The task is not marked
  `synced` and its queue entries are not cleared. The item still counts as synced. See
  `Scenarios.ConflictOverwriteStaysPending`.
- A per-item `error` result, or a conflict without data, is only recorded in `errors`. It
  does not go through `handleSyncError`, so the entry's retry count is not touched. See
  `Scenarios.ItemErrorLeavesRetryCount`.
- A resolved conflict for a task that is missing or soft-deleted changes nothing, yet it
  still counts as synced, because `updateTask` returns `null` and its result is ignored.
- The error record of a failed item carries operation `unknown`. Its message falls back
  to `sync failed` when the server gives none or an empty one.
- The object `updateTask` returns is the spread of `updates` over the task. It is not the
  stored row: a field that the UPDATE statement does not write, such as `created_at` or
  `server_id`, can differ. See `TaskProperties.UpdateResultIsNotTheRow`.
- At the ceiling the task is marked `error`, but its entry stays queued. The next cycle
  sends it again and counts it past the ceiling. See
  `Scenarios.RetryCeilingAfterThreeFailures`.
- The batches are cut from the snapshot taken when the cycle starts. A later batch can
  therefore carry an entry that a success in an earlier batch already deleted. Its retry
  bookkeeping then updates no queue row, yet at the ceiling it still marks the task,
  synced a moment before, `error`. See `Scenarios.StaleEntryInLaterBatch`.

`handleSyncError` counts from the retry count in the snapshot taken at the start of the
cycle, not from the stored row. The model does the same (`SyncProperties.FailEntriesQueue`).

## Model

| member | source | states |
|---|---|---|
| Store.AddToSyncQueue | src/services/syncService.ts:59-66 | the task table is unchanged; exactly one entry is appended after the existing queue, carrying the given task, operation and data snapshot, retry count 0 and no error |
| Store.AddToSyncQueueKeepsValid | src/services/syncService.ts:59-66 | the new entry's id differs from every queued id (a fresh uuid); inserting for an existing task keeps the invariant, including the creation ordering of the queue |
| Store.TickPreservesValid | src/services/syncService.ts:44 | taking a timestamp (`new Date()`) keeps the invariant |
| TaskService.GetTask | src/services/taskService.ts:100-105 | a task is returned exactly when its row exists and is not soft-deleted, and then it is that row |
| TaskService.AllTasks | src/services/taskService.ts:107-110 | the result is exactly the rows that are not soft-deleted |
| TaskService.TasksNeedingSync | src/services/taskService.ts:112-117 | the result is exactly the rows whose status is `pending` or `error`, soft-deleted ones included |
| TaskService.CreateTask | src/services/taskService.ts:14-49 | the new task has the given title, the description or `''`, is not completed, not deleted and `pending`, with `created_at == updated_at`; it is the only row added; one `create` entry carrying the whole task is appended |
| TaskService.CreateTaskKeepsValid | src/services/taskService.ts:14-49 | the new id was not in use, and the invariant is kept |
| TaskService.UpdateTask | src/services/taskService.ts:51-82 | `null` and no change exactly when the task is missing or deleted; otherwise only that row changes: title, description, completed and is_deleted are taken from `updates` when present, status becomes `pending`, and id, `created_at`, `server_id` and `last_synced_at` are kept; the returned object is the spread, so its id, `created_at`, `server_id` and `last_synced_at` come from `updates` when present and from the row otherwise; one `update` entry carrying `updates` is appended |
| TaskService.UpdateTaskKeepsValid | src/services/taskService.ts:51-82 | a successful update moves `updated_at` strictly forward; the invariant is kept |
| TaskService.DeleteTask | src/services/taskService.ts:84-98 | false and no change exactly when the task is missing or already deleted; otherwise the row is kept as a `pending` tombstone that differs from the old row only in is_deleted, updated_at and status; one `delete` entry snapshotting the task with is_deleted set is appended |
| TaskService.DeleteTaskKeepsValid | src/services/taskService.ts:84-98 | a delete moves `updated_at` strictly forward; the invariant is kept |
| TaskProperties.CreateThenVisible | src/services/taskService.ts:14-49 | a created task has a new id, is returned by getTask, is the only addition to getAllTasks, is listed as needing sync, and no existing row changes |
| TaskProperties.DeleteHides | src/services/taskService.ts:84-98 | after a delete the task is hidden from getTask and getAllTasks, is still listed by getTasksNeedingSync, and a second delete or an update is refused without change |
| TaskProperties.UpdateThenGet | src/services/taskService.ts:51-82 | after an update of a live task the stored row carries the written fields, keeps `created_at` and `server_id`, and stays readable exactly when `updates` does not set is_deleted |
| TaskProperties.UpdateResultIsNotTheRow | src/services/taskService.ts:56-77 | the returned object takes `created_at` from `updates` while the stored row keeps its own |
| SyncService.Chunks | src/services/syncService.ts:23-26 | no contract of its own; its properties are `SyncService.ChunksPartition` and `SyncProperties.ChunksAscending` |
| SyncService.SyncBatches | src/services/syncService.ts:21-26 | no contract of its own; its properties are `SyncProperties.SyncBatchesPartition` |
| SyncService.HasServerId | src/services/syncService.ts:89 | no contract of its own; used by `SyncProperties.UpdateSyncStatusEffect` to say when `server_id` is written |
| SyncService.StatusRow | src/services/syncService.ts:86-97 | no contract of its own; its effect on the row is stated by `SyncProperties.UpdateSyncStatusEffect` |
| SyncService.CountsAsSynced | src/services/syncService.ts:36-41 | no contract of its own; used by `SyncProperties.ApplyItemEffect` and `SyncProperties.SyncedCount` to say which items count as synced |
| SyncService.ErrorText | src/services/syncService.ts:44 | no contract of its own; it is the message of the error record stated by `SyncProperties.ApplyItemEffect` |
| SyncService.ApplyItems | src/services/syncService.ts:35-46 | no contract of its own; its properties are `SyncProperties.ApplyItemsTally` and `SyncProperties.ApplyItemsKeepValid` |
| SyncService.FailEntries | src/services/syncService.ts:49-52 | no contract of its own; its properties are `SyncProperties.FailEntriesTally`, `FailEntriesQueue`, `FailEntriesCeiling`, `FailEntriesBelowCeiling` and `FailEntriesKeepValid` |
| SyncService.FailBatch | src/services/syncService.ts:47-53 | no contract of its own; it adds the whole batch to `failed`, then `FailEntries`; its properties are in `SyncProperties.ApplyBatchEffect` |
| SyncService.ApplyBatch | src/services/syncService.ts:32-53 | no contract of its own; its properties are `SyncProperties.ApplyBatchEffect` |
| SyncService.ApplyBatches | src/services/syncService.ts:31-54 | no contract of its own; its properties are `SyncProperties.ApplyBatchesTally` |
| TaskService.Merged | src/services/taskService.ts:56-61 | no contract of its own; the returned object of `TaskService.UpdateTask`, whose contract states its fields |
| TaskService.Written | src/services/taskService.ts:63-77 | no contract of its own; the stored row of `TaskService.UpdateTask`, whose contract states its columns |
| Types.AsPatch | src/services/taskService.ts:46 | no contract of its own; the data snapshot of the `create` entry (and, with is_deleted set, of the `delete` entry at taskService.ts:95), stated by `TaskService.CreateTask` and `TaskService.DeleteTask` |
| SyncService.ChunksPartition | src/services/syncService.ts:23-26 | the batches concatenate back to the queue, none is empty, all but the last hold exactly the batch size, and there are ceil(n / size) of them |
| SyncService.MakeBatches | src/services/syncService.ts:23-26 | the index loop builds exactly the slice sequence `Chunks(items, size)` |
| SyncProperties.ChunksAscending | src/services/syncService.ts:21-26 | every batch of a queue in creation order is itself in creation order |
| SyncProperties.SyncBatchesPartition | src/services/syncService.ts:9-26 | the batches of `sync` partition the snapshot in order, in slices of 10 except the last, each in creation order with no entry id twice |
| SyncService.RemoveEntriesFor | src/services/syncService.ts:100 | an entry survives exactly when it was queued and belongs to another task; nothing is added |
| SyncService.RemoveEntriesForAscending | src/services/syncService.ts:100 | deleting entries keeps the survivors in creation order |
| SyncService.UpdateSyncStatus | src/services/syncService.ts:83-102 | no task row is added or removed |
| SyncService.UpdateSyncStatusKeepsValid | src/services/syncService.ts:83-102 | marking a task `synced` or `error` keeps the invariant |
| SyncProperties.UpdateSyncStatusEffect | src/services/syncService.ts:83-102 | only the named row changes, and only its status, `last_synced_at` (now) and, when the server sent an id, `server_id`; on `synced` exactly that task's entries leave the queue; on `error` the queue is unchanged |
| SyncService.MarkRetry | src/services/syncService.ts:106-109 | the queue keeps its length |
| SyncService.HandleSyncError | src/services/syncService.ts:104-114 | no task row is added or removed and no queue entry is removed |
| SyncService.HandleSyncErrorKeepsValid | src/services/syncService.ts:104-114 | the retry bookkeeping keeps the invariant |
| SyncProperties.HandleSyncErrorQueue | src/services/syncService.ts:105-109 | the entry with the item's id gets the snapshot's retry count plus one and the message; every other entry is unchanged; none is removed |
| SyncProperties.HandleSyncErrorStatus | src/services/syncService.ts:111-113 | at or above the ceiling the task becomes `error`; below it the task table is unchanged; no other task changes |
| SyncProperties.HandleSyncErrorKeepsError | src/services/syncService.ts:104-114 | a task already in `error` stays in `error` |
| SyncService.ApplyItem | src/services/syncService.ts:35-46 | no task row is added or removed |
| SyncService.ApplyItemKeepsValid | src/services/syncService.ts:35-46 | reconciling one item keeps the invariant |
| SyncProperties.ApplyItemEffect | src/services/syncService.ts:35-46 | a success or a resolved conflict adds one to synced, any other answer adds one to failed with one `unknown` error record; a failure writes no table; a success leaves no entry for the task and marks it `synced`; a resolved conflict re-pends a live task, takes its title, description, completed and is_deleted from the resolved data when present, leaves every other row and every earlier queue entry as it was, and appends one `update` entry carrying that data; it changes nothing for a missing or deleted task |
| SyncProperties.SyncedCount | src/services/syncService.ts:35-46 | the synced items of a response are at most its size |
| SyncProperties.ApplyItemsTally | src/services/syncService.ts:35-46 | a response adds its synced items to synced, the rest to failed, and one error record per failed item after the earlier ones |
| SyncProperties.ApplyItemsKeepValid | src/services/syncService.ts:35-46 | a whole response keeps the task keys and the invariant |
| SyncService.FailEntry | src/services/syncService.ts:49-52 | no task row is added or removed |
| SyncService.FailEntryKeepsValid | src/services/syncService.ts:49-52 | one failed entry keeps the invariant |
| SyncProperties.FailEntriesTally | src/services/syncService.ts:47-53 | a failed batch leaves one error record per entry, in order, with the entry's task and operation and the transport's message; the counters are untouched |
| SyncProperties.FailEntriesQueue | src/services/syncService.ts:47-53 | in a failed batch each queued entry of the batch gets its snapshot retry count plus one and the message; the other entries, the queue order and the length are unchanged |
| SyncProperties.FailEntriesCeilingAt | src/services/syncService.ts:47-53 | a task whose entry in a failed batch reaches the ceiling ends the batch in `error` |
| SyncProperties.FailEntriesCeiling | src/services/syncService.ts:47-53 | every task with an entry reaching the ceiling ends the failed batch in `error` |
| SyncProperties.FailEntriesBelowCeiling | src/services/syncService.ts:47-53 | a task none of whose entries in the batch reaches the ceiling is left exactly as it was |
| SyncProperties.FailEntriesKeepValid | src/services/syncService.ts:47-53 | a failed batch keeps the task keys and the invariant |
| SyncProperties.ApplyBatchEffect | src/services/syncService.ts:32-53 | one batch adds its synced and failed items to the counters, one error record per failure, removes no task row and keeps the invariant |
| SyncProperties.ApplyBatchesTally | src/services/syncService.ts:31-54 | the batch loop adds exactly the totals implied by the transport's answers, one error record per failure, removes no task row and keeps the invariant |
| SyncService.Sync | src/services/syncService.ts:20-57 | `success` is true exactly when no item failed |
| SyncProperties.SyncResultTally | src/services/syncService.ts:20-57 | `synced_items` and `failed_items` are the totals implied by the transport's answers; there is one error record per failed item; `success` holds exactly when there are no errors; no task row is removed; the invariant is kept |
| SyncProperties.SyncEmptyQueue | src/services/syncService.ts:20-57 | with an empty queue there are no batches, the cycle succeeds with zero counts and no errors, and the tables are unchanged |
| Scenarios.SyncSuccessClearsQueue | src/services/syncService.ts:20-57 | create a task, then sync with it accepted: the result is success with one synced item, the task is `synced`, the queue is empty, and nothing needs sync |
| Scenarios.FailStep | src/services/syncService.ts:47-53 | one failing cycle on a one-entry queue: its retry count goes from n to n + 1 with the transport's message, and the task is `error` exactly when n + 1 reaches the ceiling |
| Scenarios.RetryCeilingAfterThreeFailures | src/services/syncService.ts:104-114 | three failing cycles leave retry counts 1, 2, 3 with the task `pending`, `pending`, `error`; a fourth cycle re-sends the entry and counts it to 4 |
| Scenarios.ConflictOverwriteStaysPending | src/services/syncService.ts:39-41 | a conflict resolved to title `B` sets the title, counts as synced, leaves the task `pending`, and appends an `update` entry after the original `create` entry |
| Scenarios.StaleEntryInLaterBatch | src/services/syncService.ts:20-57 | eleven entries of one task, the first batch answered with success and the second failing in transport with the stale entry at retry count 2: the queue ends empty, the task ends `error`, one item synced and one failed |
| Scenarios.ItemErrorLeavesRetryCount | src/services/syncService.ts:42-45 | a per-item error fails the cycle with one `unknown` / `sync failed` record; the queue and the tasks are unchanged |
| Engine.SyncEngine.Now | src/services/syncService.ts:84 | returns the current tick and moves the clock on |
| Engine.SyncEngine.NewId | src/services/syncService.ts:60 | returns an id never handed out before |
| Engine.SyncEngine.AddToSyncQueue | src/services/syncService.ts:59-66 | the new tables are `Store.AddToSyncQueue` of the old ones |
| Engine.SyncEngine.CreateTask | src/services/taskService.ts:14-49 | the new tables and the returned task are `TaskService.CreateTask` of the old tables; the invariant is kept |
| Engine.SyncEngine.UpdateTask | src/services/taskService.ts:51-82 | the new tables and the result are `TaskService.UpdateTask` of the old tables; the invariant is kept |
| Engine.SyncEngine.DeleteTask | src/services/taskService.ts:84-98 | the new tables and the result are `TaskService.DeleteTask` of the old tables; the invariant is kept |
| Engine.SyncEngine.UpdateSyncStatus | src/services/syncService.ts:83-102 | the new tables are `SyncService.UpdateSyncStatus` of the old ones |
| Engine.SyncEngine.HandleSyncError | src/services/syncService.ts:104-114 | the new tables are `SyncService.HandleSyncError` of the old ones |
| Engine.SyncEngine.ApplyItem | src/services/syncService.ts:36-45 | tables and counters after one processed item are `SyncService.ApplyItem` of those before; the invariant is kept |
| Engine.SyncEngine.ApplyResponse | src/services/syncService.ts:35-46 | the item loop leaves tables and counters equal to the fold `SyncService.ApplyItems`; the invariant is kept |
| Engine.SyncEngine.FailEntry | src/services/syncService.ts:50-51 | tables and error list after one failed entry are `SyncService.FailEntry` of those before |
| Engine.SyncEngine.FailBatch | src/services/syncService.ts:47-53 | the catch branch leaves tables and counters equal to `SyncService.FailBatch`; the invariant is kept |
| Engine.SyncEngine.SyncBatch | src/services/syncService.ts:32-53 | one batch iteration leaves tables and counters equal to `SyncService.ApplyBatch`; the invariant is kept |
| Engine.SyncEngine.Sync | src/services/syncService.ts:20-57 | the new tables and the result are `SyncService.Sync` of the old tables and the transport's answers; the invariant is kept |

## Left out

- `processBatch` and the axios call: the transport is an input to `Sync`, one `BatchOutcome` per batch. Its `client_timestamp` and the network are not modelled.
- `checkConnectivity`: a network health probe with a timeout; it touches no state.
- The HTTP routes (`src/routes/sync.ts`) are thin glue over the services.
- SQL storage failures, and exceptions from the storage layer raised mid-cycle, are not modelled; every statement succeeds.
- An exception thrown inside the `try` branch after some items were applied, which makes the catch branch count the whole batch as failed again, is not modelled. Only transport failures reach the catch branch.
- Concurrency and `async` interleavings are not modelled: the cycle runs sequentially.
- The constructor cycle between `TaskService` and `SyncService` is not modelled.
- uuid strings are natural numbers from one counter, so an empty-string id (falsy in `serverData?.id`) cannot be represented.
- `Date` values are ticks of a logical clock that moves on at every `new Date()` the model keeps and at every queue insert; the `client_timestamp` of `processBatch` is left out with the transport. Two mutations in the same millisecond, or equal SQL `CURRENT_TIMESTAMP` defaults, are not modelled; `created_at` strictly increases along the queue.
- `JSON.stringify` of the entry data and `mapRowToTask` are not modelled: rows are stored and read as values.
- `SYNC_BATCH_SIZE` is read from the environment in the source; the model fixes the default, 10.
- The commented-out `resolveConflict` is not active code.
- `getAllTasks` and `getTasksNeedingSync` return sets: the queries fix no order.
- `createTask` takes the title as a given string; a missing `title!` is not modelled.
- A spread key that is present with the value `undefined` is modelled as an absent key.
- SyncService.UpdateSyncStatus, SyncService.HandleSyncError, SyncService.ApplyItem, SyncService.FailEntry, SyncService.MarkRetry: their own `ensures` state only the frame facts. Their full effect is stated by the lemmas in `SyncProperties` (`UpdateSyncStatusEffect`, `HandleSyncErrorQueue`, `HandleSyncErrorStatus`, `ApplyItemEffect`, `FailEntriesQueue`).
- SyncService.Sync: its own `ensures` states only that `success` holds exactly when `failed_items` is 0. The totals, the one error record per failed item, the kept task keys and the kept invariant are stated by `SyncProperties.SyncResultTally`, and the empty-queue case by `SyncProperties.SyncEmptyQueue`. The totals are defined in `SyncProperties`, which imports `SyncService`.
