/** The task service and the sync service as one sequential object over the shared
    `tasks` and `sync_queue` tables. Every method updates the fields in place, the
    way the source issues its SQL statements, and is proved to leave exactly the
    state its pure counterpart describes: a transition of Store, TaskService or
    SyncService, or, for the clock and the id supply, the one field it moves on. */
module Engine {
  import opened Types
  import opened Store
  import TaskService
  import SyncService

  class SyncEngine {
    var tasks: map<Id, Task>
    var queue: seq<QueueEntry>
    var clock: nat
    var nextId: nat

    /** The two tables, the clock and the id supply as one value. */
    function Tables(): State
      reads this
    {
      State(tasks, queue, clock, nextId)
    }

    ghost predicate Valid()
      reads this
    {
      Store.Valid(Tables())
    }

    /** An empty database. */
    constructor ()
      ensures Tables() == Empty && Valid()
    {
      tasks, queue, clock, nextId := map[], [], 0, 0;
    }

    /** `new Date()`: the current tick; the clock moves on. */
    method Now() returns (now: nat)
      modifies this
      ensures now == old(clock)
      ensures Tables() == old(Tables()).(clock := old(clock) + 1)
    {
      now := clock;
      clock := clock + 1;
    }

    /** `uuidv4()`: an id never handed out before. */
    method NewId() returns (id: Id)
      modifies this
      ensures id == old(nextId)
      ensures Tables() == old(Tables()).(nextId := old(nextId) + 1)
    {
      id := nextId;
      nextId := nextId + 1;
    }

    /** `addToSyncQueue` */
    method AddToSyncQueue(taskId: Id, op: Operation, data: Patch)
      modifies this
      ensures Tables() == Store.AddToSyncQueue(old(Tables()), taskId, op, data)
    {
      var id := NewId();
      var createdAt := Now();
      queue := queue + [QueueEntry(id, taskId, op, data, 0, None, createdAt)];
    }

    /** `createTask` */
    method CreateTask(title: string, description: Option<string>) returns (task: Task)
      requires Valid()
      modifies this
      ensures Valid()
      ensures (Tables(), task) == TaskService.CreateTask(old(Tables()), title, description)
    {
      ghost var s0 := Tables();
      var id := NewId();
      var now := Now();
      task := Task(id, title, description.GetOr(""), false, now, now, false, Pending, None, None);
      tasks := tasks[id := task];
      ghost var s1 := Tables();
      assert s1 == s0.(tasks := s0.tasks[id := task], clock := now + 1, nextId := id + 1);
      AddToSyncQueue(task.id, Create, AsPatch(task));
      assert TaskService.CreateTask(s0, title, description) == (Store.AddToSyncQueue(s1, id, Create, AsPatch(task)), task);
      TaskService.CreateTaskKeepsValid(s0, title, description);
    }

    /** `updateTask` */
    method UpdateTask(id: Id, updates: Patch) returns (r: Option<Task>)
      requires Valid()
      modifies this
      ensures Valid()
      ensures (Tables(), r) == TaskService.UpdateTask(old(Tables()), id, updates)
    {
      TaskService.UpdateTaskKeepsValid(Tables(), id, updates);
      var existing := TaskService.GetTask(Tables(), id);
      if existing.None? {
        return None;
      }
      ghost var s0 := Tables();
      var task := existing.value;
      var updatedAt := Now();
      var newTask := TaskService.Merged(task, updates, updatedAt);
      tasks := tasks[id := TaskService.Written(task, newTask)];
      ghost var s1 := Tables();
      assert s1 == s0.(tasks := s0.tasks[id := TaskService.Written(s0.tasks[id], newTask)], clock := s0.clock + 1);
      AddToSyncQueue(id, Update, updates);
      assert Tables() == Store.AddToSyncQueue(s1, id, Update, updates);
      assert TaskService.UpdateTask(s0, id, updates) == (Store.AddToSyncQueue(s1, id, Update, updates), Some(newTask));
      r := Some(newTask);
    }

    /** `deleteTask` */
    method DeleteTask(id: Id) returns (ok: bool)
      requires Valid()
      modifies this
      ensures Valid()
      ensures (Tables(), ok) == TaskService.DeleteTask(old(Tables()), id)
    {
      TaskService.DeleteTaskKeepsValid(Tables(), id);
      var existing := TaskService.GetTask(Tables(), id);
      if existing.None? {
        return false;
      }
      ghost var s0 := Tables();
      var task := existing.value;
      var updatedAt := Now();
      tasks := tasks[id := task.(is_deleted := true, updated_at := updatedAt, sync_status := Pending)];
      ghost var s1 := Tables();
      assert s1 == s0.(tasks := s0.tasks[id := task.(is_deleted := true, updated_at := s0.clock, sync_status := Pending)],
                       clock := s0.clock + 1);
      AddToSyncQueue(id, Delete, AsPatch(task).(is_deleted := Some(true)));
      assert Tables() == Store.AddToSyncQueue(s1, id, Delete, AsPatch(task).(is_deleted := Some(true)));
      assert TaskService.DeleteTask(s0, id) == (Store.AddToSyncQueue(s1, id, Delete, AsPatch(task).(is_deleted := Some(true))), true);
      ok := true;
    }

    /** `updateSyncStatus` */
    method UpdateSyncStatus(taskId: Id, status: SyncStatus, serverData: Option<Patch>)
      requires status != Pending
      modifies this
      ensures Tables() == SyncService.UpdateSyncStatus(old(Tables()), taskId, status, serverData)
    {
      var now := Now();
      if taskId in tasks {
        tasks := tasks[taskId := SyncService.StatusRow(tasks[taskId], status, now, serverData)];
      }
      if status == Synced {
        queue := SyncService.RemoveEntriesFor(queue, taskId);
      }
    }

    /** `handleSyncError` */
    method HandleSyncError(item: QueueEntry, message: string)
      modifies this
      ensures Tables() == SyncService.HandleSyncError(old(Tables()), item, message)
    {
      var newRetryCount := item.retry_count + 1;
      queue := SyncService.MarkRetry(queue, item.id, newRetryCount, message);
      if newRetryCount >= SyncService.MAX_RETRIES {
        UpdateSyncStatus(item.task_id, Error, None);
      }
    }

    /** One processed item of a batch response. */
    method ApplyItem(item: ProcessedItem, synced0: nat, failed0: nat, errors0: seq<SyncError>)
      returns (synced: nat, failed: nat, errors: seq<SyncError>)
      requires Valid()
      modifies this
      ensures Valid()
      ensures SyncService.Progress(Tables(), synced, failed, errors)
              == SyncService.ApplyItem(SyncService.Progress(old(Tables()), synced0, failed0, errors0), item)
    {
      SyncService.ApplyItemKeepsValid(SyncService.Progress(Tables(), synced0, failed0, errors0), item);
      synced, failed, errors := synced0, failed0, errors0;
      if item.status == Success {
        synced := synced + 1;
        UpdateSyncStatus(item.client_id, Synced, item.resolved_data);
      } else if item.status == Conflict && item.resolved_data.Some? {
        var ignored := UpdateTask(item.client_id, item.resolved_data.value);
        synced := synced + 1;
      } else {
        failed := failed + 1;
        var now := Now();
        errors := errors + [SyncError(item.client_id, Unknown, SyncService.ErrorText(item), now)];
      }
    }

    /** The `try` branch of `sync` for one batch: classify each processed item. */
    method ApplyResponse(processed: seq<ProcessedItem>, synced0: nat, failed0: nat, errors0: seq<SyncError>)
      returns (synced: nat, failed: nat, errors: seq<SyncError>)
      requires Valid()
      modifies this
      ensures Valid()
      ensures SyncService.Progress(Tables(), synced, failed, errors)
              == SyncService.ApplyItems(SyncService.Progress(old(Tables()), synced0, failed0, errors0), processed)
    {
      synced, failed, errors := synced0, failed0, errors0;
      ghost var before := SyncService.Progress(Tables(), synced, failed, errors);
      var j := 0;
      while j < |processed|
        invariant 0 <= j <= |processed| && Valid()
        invariant SyncService.Progress(Tables(), synced, failed, errors)
                  == SyncService.ApplyItems(before, processed[..j])
      {
        SyncService.ApplyItemsStep(before, processed, j);
        synced, failed, errors := ApplyItem(processed[j], synced, failed, errors);
        j := j + 1;
      }
      assert processed[..|processed|] == processed;
    }

    /** One entry of a batch the transport failed: record the error, then retry bookkeeping. */
    method FailEntry(it: QueueEntry, message: string, synced: nat, failed: nat, errors0: seq<SyncError>)
      returns (errors: seq<SyncError>)
      modifies this
      ensures SyncService.Progress(Tables(), synced, failed, errors)
              == SyncService.FailEntry(SyncService.Progress(old(Tables()), synced, failed, errors0), it, message)
    {
      var now := Now();
      errors := errors0 + [SyncError(it.task_id, Known(it.operation), message, now)];
      HandleSyncError(it, message);
    }

    /** The `catch` branch of `sync` for one batch: every entry failed. */
    method FailBatch(batch: seq<QueueEntry>, message: string, synced: nat, failed0: nat, errors0: seq<SyncError>)
      returns (failed: nat, errors: seq<SyncError>)
      requires Valid()
      modifies this
      ensures Valid()
      ensures SyncService.Progress(Tables(), synced, failed, errors)
              == SyncService.FailBatch(SyncService.Progress(old(Tables()), synced, failed0, errors0), batch, message)
    {
      failed, errors := failed0 + |batch|, errors0;
      ghost var failing := SyncService.Progress(Tables(), synced, failed, errors);
      var k := 0;
      while k < |batch|
        invariant 0 <= k <= |batch| && Valid()
        invariant SyncService.Progress(Tables(), synced, failed, errors)
                  == SyncService.FailEntries(failing, batch[..k], message)
      {
        SyncService.FailEntriesStep(failing, batch, k, message);
        SyncService.FailEntryKeepsValid(SyncService.Progress(Tables(), synced, failed, errors), batch[k], message);
        errors := FailEntry(batch[k], message, synced, failed, errors);
        k := k + 1;
      }
      assert batch[..|batch|] == batch;
    }

    /** One iteration of the batch loop of `sync`: the `try` branch on a response, the
        `catch` branch on a transport failure. */
    method SyncBatch(batch: seq<QueueEntry>, outcome: BatchOutcome, synced0: nat, failed0: nat, errors0: seq<SyncError>)
      returns (synced: nat, failed: nat, errors: seq<SyncError>)
      requires Valid()
      modifies this
      ensures Valid()
      ensures SyncService.Progress(Tables(), synced, failed, errors)
              == SyncService.ApplyBatch(SyncService.Progress(old(Tables()), synced0, failed0, errors0), batch, outcome)
    {
      match outcome {
        case Response(processed) =>
          synced, failed, errors := ApplyResponse(processed, synced0, failed0, errors0);
        case TransportFailure(message) =>
          synced := synced0;
          failed, errors := FailBatch(batch, message, synced0, failed0, errors0);
      }
    }

    /** `sync`: snapshot the queue, cut it into batches and reconcile each batch with the
        transport's outcome for it, in order. `outcomes[b]` is what `processBatch` delivers
        for batch `b`. */
    method Sync(outcomes: seq<BatchOutcome>) returns (result: SyncResult)
      requires Valid()
      requires |outcomes| == |SyncService.SyncBatches(Tables())|
      modifies this
      ensures Valid()
      ensures (Tables(), result) == SyncService.Sync(old(Tables()), outcomes)
    {
      var items := queue;
      var batches := SyncService.MakeBatches(items, SyncService.BATCH_SIZE);
      var synced: nat, failed: nat := 0, 0;
      var errors: seq<SyncError> := [];
      ghost var start := SyncService.Progress(Tables(), 0, 0, []);
      var b := 0;
      while b < |batches|
        invariant 0 <= b <= |batches| && Valid()
        invariant SyncService.Progress(Tables(), synced, failed, errors)
                  == SyncService.ApplyBatches(start, batches[..b], outcomes[..b])
      {
        SyncService.ApplyBatchesStep(start, batches, outcomes, b);
        synced, failed, errors := SyncBatch(batches[b], outcomes[b], synced, failed, errors);
        b := b + 1;
      }
      assert batches[..|batches|] == batches && outcomes[..|outcomes|] == outcomes;
      result := SyncResult(failed == 0, synced, failed, errors);
    }
  }
}
