/** Entities shared by the task service and the sync service: tasks, partial task
    updates, queue entries, the per-item answers of the remote authority and the
    aggregate result of one sync cycle. */
module Types {

  datatype Option<+T> = None | Some(value: T) {
    /** The value when present, `default` otherwise (the `??`/`||` fallback of the source). */
    function GetOr(default: T): T {
      if Some? then value else default
    }
  }

  /** Task ids, queue entry ids and server ids stand for uuid strings. */
  type Id = nat

  datatype SyncStatus = Pending | Synced | Error

  datatype Operation = Create | Update | Delete

  /** One row of the `tasks` table; timestamps are ticks of a logical clock. */
  datatype Task = Task(
    id: Id,
    title: string,
    description: string,
    completed: bool,
    created_at: nat,
    updated_at: nat,
    is_deleted: bool,
    sync_status: SyncStatus,
    server_id: Option<Id>,
    last_synced_at: Option<nat>)

  /** `Partial<Task>`: every field is either present (`Some`) or absent (`None`). */
  datatype Patch = Patch(
    id: Option<Id>,
    title: Option<string>,
    description: Option<string>,
    completed: Option<bool>,
    created_at: Option<nat>,
    updated_at: Option<nat>,
    is_deleted: Option<bool>,
    sync_status: Option<SyncStatus>,
    server_id: Option<Id>,
    last_synced_at: Option<nat>)

  /** The patch with no field present. */
  const EmptyPatch := Patch(None, None, None, None, None, None, None, None, None, None)

  /** A whole task seen as a partial task, as a task object is passed where `Partial<Task>` is expected. */
  function AsPatch(t: Task): Patch {
    Patch(Some(t.id), Some(t.title), Some(t.description), Some(t.completed), Some(t.created_at),
          Some(t.updated_at), Some(t.is_deleted), Some(t.sync_status), t.server_id, t.last_synced_at)
  }

  /** One row of the `sync_queue` table. `data` is the snapshot captured at enqueue time. */
  datatype QueueEntry = QueueEntry(
    id: Id,
    task_id: Id,
    operation: Operation,
    data: Patch,
    retry_count: nat,
    error_message: Option<string>,
    created_at: nat)

  /** The `status` of one processed item in a batch response. */
  datatype ItemStatus = Success | Conflict | ItemError

  datatype ProcessedItem = ProcessedItem(
    client_id: Id,
    status: ItemStatus,
    resolved_data: Option<Patch>,
    error: Option<string>)

  /** What the transport delivers for one batch: the per-item answers, or a thrown error. */
  datatype BatchOutcome = Response(processed_items: seq<ProcessedItem>) | TransportFailure(message: string)

  /** The `operation` of an error record: the entry's own, or `'unknown'`. */
  datatype ErrorOperation = Unknown | Known(op: Operation)

  datatype SyncError = SyncError(task_id: Id, operation: ErrorOperation, error: string, timestamp: nat)

  datatype SyncResult = SyncResult(success: bool, synced_items: nat, failed_items: nat, errors: seq<SyncError>)
}
