/** The sync engine: batching of the queue snapshot, status reconciliation, retry
    bookkeeping and one whole sync cycle as a fold over the batches, with the
    transport's answer for each batch given as input. */
module SyncService {
  import opened Types
  import opened Store
  import opened TaskService

  /** `SYNC_BATCH_SIZE` at its default. */
  const BATCH_SIZE: nat := 10

  /** The retry ceiling. */
  const MAX_RETRIES: nat := 3

  // ---------------------------------------------------------------- batching

  function Flatten<T>(bs: seq<seq<T>>): seq<T> {
    if bs == [] then [] else bs[0] + Flatten(bs[1..])
  }

  lemma MulSucc(a: nat, b: nat)
    ensures (a + 1) * b == a * b + b
  {
  }

  /** The slices `items.slice(i, i + size)` for `i = 0, size, 2*size, ...`. */
  function Chunks<T>(q: seq<T>, size: nat): seq<seq<T>>
    requires size > 0
    decreases |q|
  {
    if q == [] then []
    else if |q| <= size then [q]
    else [q[..size]] + Chunks(q[size..], size)
  }

  /** Batching partitions the queue: the slices are contiguous and in order (their
      concatenation is the queue), none is empty, all but the last have exactly
      `size` entries, and there are ceil(|q| / size) of them. */
  lemma {:induction false} ChunksPartition<T>(q: seq<T>, size: nat)
    requires size > 0
    ensures var r := Chunks(q, size);
      && Flatten(r) == q
      && (forall k :: 0 <= k < |r| ==> 0 < |r[k]| <= size)
      && (forall k :: 0 <= k < |r| - 1 ==> |r[k]| == size)
      && |q| <= |r| * size < |q| + size
    decreases |q|
  {
    if q != [] && |q| > size {
      var rest := Chunks(q[size..], size);
      ChunksPartition(q[size..], size);
      assert q == q[..size] + q[size..];
      MulSucc(|rest|, size);
      assert Chunks(q, size) == [q[..size]] + rest;
    }
  }

  lemma ConcatAssoc<T>(a: seq<T>, b: seq<T>, c: seq<T>)
    ensures (a + b) + c == a + (b + c)
  {
  }

  /** One step of the index loop: the slice at `i` is the first chunk of what is left. */
  lemma ChunksStep<T>(items: seq<T>, i: nat, size: nat)
    requires size > 0 && i < |items|
    ensures var end := if i + size < |items| then i + size else |items|;
      var next := if i + size < |items| then i + size else |items|;
      Chunks(items[i..], size) == [items[i..end]] + Chunks(items[next..], size)
  {
    var rest := items[i..];
    if |rest| <= size {
      assert items[i..|items|] == rest;
      assert items[|items|..] == [];
    } else {
      assert items[i..i + size] == rest[..size];
      assert rest[size..] == items[i + size..];
    }
  }

  /** The index loop that builds `batches`. */
  method MakeBatches<T>(items: seq<T>, size: nat) returns (batches: seq<seq<T>>)
    requires size > 0
    ensures batches == Chunks(items, size)
  {
    batches := [];
    var i := 0;
    while i < |items|
      invariant batches + Chunks(items[if i < |items| then i else |items|..], size) == Chunks(items, size)
      decreases |items| - i
    {
      var end := if i + size < |items| then i + size else |items|;
      ChunksStep(items, i, size);
      ConcatAssoc(batches, [items[i..end]], Chunks(items[end..], size));
      batches := batches + [items[i..end]];
      i := i + size;
    }
    assert items[|items|..] == [];
  }

  // ---------------------------------------------------------------- reconciliation

  /** `serverData?.id`: the server supplied an id. */
  predicate HasServerId(serverData: Option<Patch>) {
    serverData.Some? && serverData.value.id.Some?
  }

  /** The queue without any entry for `taskId` (`DELETE FROM sync_queue WHERE task_id=?`). */
  function RemoveEntriesFor(q: seq<QueueEntry>, taskId: Id): (r: seq<QueueEntry>)
    ensures forall e :: e in r <==> e in q && e.task_id != taskId
    ensures |r| <= |q|
  {
    if q == [] then []
    else if q[0].task_id == taskId then RemoveEntriesFor(q[1..], taskId)
    else [q[0]] + RemoveEntriesFor(q[1..], taskId)
  }

  /** Deleting entries keeps the survivors in their stored (ascending) order. */
  lemma {:induction false} RemoveEntriesForAscending(q: seq<QueueEntry>, taskId: Id)
    requires Ascending(q)
    ensures Ascending(RemoveEntriesFor(q, taskId))
    decreases |q|
  {
    if q != [] {
      assert Ascending(q[1..]);
      RemoveEntriesForAscending(q[1..], taskId);
      if q[0].task_id != taskId {
        var rest := RemoveEntriesFor(q[1..], taskId);
        forall e | e in rest ensures q[0].id < e.id && q[0].created_at < e.created_at {
          var j :| 0 <= j < |q[1..]| && q[1..][j] == e;
          assert q[j + 1] == e;
        }
        Store.AscendingCons(q[0], rest);
      }
    }
  }

  /** `UPDATE tasks SET sync_status, last_synced_at [, server_id]` on one row. */
  function StatusRow(t: Task, status: SyncStatus, now: nat, serverData: Option<Patch>): Task {
    t.(sync_status := status, last_synced_at := Some(now),
       server_id := if HasServerId(serverData) then serverData.value.id else t.server_id)
  }

  /** `updateSyncStatus`: set the status and `last_synced_at` (and the server id when one is
      given); on `synced`, and only then, delete every queue entry of the task. */
  function UpdateSyncStatus(s: State, taskId: Id, status: SyncStatus, serverData: Option<Patch>): (r: State)
    requires status != Pending
    ensures r.tasks.Keys == s.tasks.Keys
  {
    var now := s.clock;
    var tasks := if taskId in s.tasks then s.tasks[taskId := StatusRow(s.tasks[taskId], status, now, serverData)]
                 else s.tasks;
    var queue := if status == Synced then RemoveEntriesFor(s.queue, taskId) else s.queue;
    State(tasks, queue, now + 1, s.nextId)
  }

  lemma UpdateSyncStatusKeepsValid(s: State, taskId: Id, status: SyncStatus, serverData: Option<Patch>)
    requires status != Pending && Valid(s)
    ensures Valid(UpdateSyncStatus(s, taskId, status, serverData))
  {
    var r := UpdateSyncStatus(s, taskId, status, serverData);
    if status == Synced { RemoveEntriesForAscending(s.queue, taskId); }
    forall e | e in r.queue ensures EntryValid(r, e) { assert EntryValid(s, e); }
    forall k | k in r.tasks ensures TaskValid(r, k) { assert TaskValid(s, k); }
  }

  // ---------------------------------------------------------------- retry bookkeeping

  /** `UPDATE sync_queue SET retry_count=?, error_message=? WHERE id=?`. */
  function MarkRetry(q: seq<QueueEntry>, entryId: Id, count: nat, message: string): (r: seq<QueueEntry>)
    ensures |r| == |q|
  {
    seq(|q|, i requires 0 <= i < |q| =>
      if q[i].id == entryId then q[i].(retry_count := count, error_message := Some(message)) else q[i])
  }

  /** `handleSyncError`: the entry gets the snapshot's retry count plus one and the message;
      at the ceiling the task is marked `error`. The entry stays in the queue. */
  function HandleSyncError(s: State, item: QueueEntry, message: string): (r: State)
    ensures r.tasks.Keys == s.tasks.Keys && |r.queue| == |s.queue|
  {
    var newRetryCount := item.retry_count + 1;
    var s1 := s.(queue := MarkRetry(s.queue, item.id, newRetryCount, message));
    if newRetryCount >= MAX_RETRIES then UpdateSyncStatus(s1, item.task_id, Error, None) else s1
  }

  lemma HandleSyncErrorKeepsValid(s: State, item: QueueEntry, message: string)
    requires Valid(s)
    ensures Valid(HandleSyncError(s, item, message))
  {
    var s1 := s.(queue := MarkRetry(s.queue, item.id, item.retry_count + 1, message));
    forall e | e in s1.queue ensures EntryValid(s1, e) {
      var i :| 0 <= i < |s1.queue| && s1.queue[i] == e;
      assert EntryValid(s, s.queue[i]);
    }
    if item.retry_count + 1 >= MAX_RETRIES { UpdateSyncStatusKeepsValid(s1, item.task_id, Error, None); }
  }

  // ---------------------------------------------------------------- one sync cycle

  /** The tables together with the `synced`, `failed` and `errors` accumulators of `sync`. */
  datatype Progress = Progress(state: State, synced: nat, failed: nat, errors: seq<SyncError>)

  /** The outcomes counted in `synced_items`: a success, or a conflict the server resolved. */
  predicate CountsAsSynced(item: ProcessedItem) {
    item.status == Success || (item.status == Conflict && item.resolved_data.Some?)
  }

  /** `item.error || 'sync failed'`. */
  function ErrorText(item: ProcessedItem): string {
    if item.error.Some? && item.error.value != "" then item.error.value else "sync failed"
  }

  /** One processed item of a batch response. */
  function ApplyItem(p: Progress, item: ProcessedItem): (r: Progress)
    ensures r.state.tasks.Keys == p.state.tasks.Keys
  {
    if item.status == Success then
      p.(state := UpdateSyncStatus(p.state, item.client_id, Synced, item.resolved_data), synced := p.synced + 1)
    else if item.status == Conflict && item.resolved_data.Some? then
      p.(state := UpdateTask(p.state, item.client_id, item.resolved_data.value).0, synced := p.synced + 1)
    else
      var now := p.state.clock;
      p.(state := p.state.(clock := now + 1), failed := p.failed + 1,
         errors := p.errors + [SyncError(item.client_id, Unknown, ErrorText(item), now)])
  }

  lemma ApplyItemKeepsValid(p: Progress, item: ProcessedItem)
    requires Valid(p.state)
    ensures Valid(ApplyItem(p, item).state)
  {
    if item.status == Success {
      UpdateSyncStatusKeepsValid(p.state, item.client_id, Synced, item.resolved_data);
    } else if item.status == Conflict && item.resolved_data.Some? {
      UpdateTaskKeepsValid(p.state, item.client_id, item.resolved_data.value);
    } else {
      TickPreservesValid(p.state);
    }
  }

  /** The items of one response, in order. */
  function ApplyItems(p: Progress, items: seq<ProcessedItem>): Progress
    decreases |items|
  {
    if items == [] then p else ApplyItem(ApplyItems(p, items[..|items| - 1]), items[|items| - 1])
  }

  /** One more loop step of `ApplyItems`. */
  lemma ApplyItemsStep(p: Progress, items: seq<ProcessedItem>, j: nat)
    requires j < |items|
    ensures ApplyItems(p, items[..j + 1]) == ApplyItem(ApplyItems(p, items[..j]), items[j])
  {
    assert items[..j + 1][..j] == items[..j];
  }

  /** One entry of a batch the transport failed: record the error, then `handleSyncError`. */
  function FailEntry(p: Progress, it: QueueEntry, message: string): (r: Progress)
    ensures r.state.tasks.Keys == p.state.tasks.Keys
  {
    var now := p.state.clock;
    p.(state := HandleSyncError(p.state.(clock := now + 1), it, message),
       errors := p.errors + [SyncError(it.task_id, Known(it.operation), message, now)])
  }

  lemma FailEntryKeepsValid(p: Progress, it: QueueEntry, message: string)
    requires Valid(p.state)
    ensures Valid(FailEntry(p, it, message).state)
  {
    TickPreservesValid(p.state);
    HandleSyncErrorKeepsValid(p.state.(clock := p.state.clock + 1), it, message);
  }

  function FailEntries(p: Progress, entries: seq<QueueEntry>, message: string): Progress
    decreases |entries|
  {
    if entries == [] then p
    else FailEntry(FailEntries(p, entries[..|entries| - 1], message), entries[|entries| - 1], message)
  }

  /** One more loop step of `FailEntries`. */
  lemma FailEntriesStep(p: Progress, entries: seq<QueueEntry>, k: nat, message: string)
    requires k < |entries|
    ensures FailEntries(p, entries[..k + 1], message) == FailEntry(FailEntries(p, entries[..k], message), entries[k], message)
  {
    assert entries[..k + 1][..k] == entries[..k];
  }

  /** The `catch` branch: the whole batch counts as failed. */
  function FailBatch(p: Progress, batch: seq<QueueEntry>, message: string): Progress {
    FailEntries(p.(failed := p.failed + |batch|), batch, message)
  }

  function ApplyBatch(p: Progress, batch: seq<QueueEntry>, outcome: BatchOutcome): Progress {
    match outcome
    case Response(items) => ApplyItems(p, items)
    case TransportFailure(message) => FailBatch(p, batch, message)
  }

  /** The batches in order, each fully reconciled before the next. */
  function ApplyBatches(p: Progress, batches: seq<seq<QueueEntry>>, outcomes: seq<BatchOutcome>): Progress
    requires |batches| == |outcomes|
    decreases |batches|
  {
    if batches == [] then p
    else
      var n := |batches| - 1;
      ApplyBatch(ApplyBatches(p, batches[..n], outcomes[..n]), batches[n], outcomes[n])
  }

  /** One more loop step of `ApplyBatches`. */
  lemma ApplyBatchesStep(p: Progress, batches: seq<seq<QueueEntry>>, outcomes: seq<BatchOutcome>, b: nat)
    requires |batches| == |outcomes| && b < |batches|
    ensures ApplyBatches(p, batches[..b + 1], outcomes[..b + 1])
            == ApplyBatch(ApplyBatches(p, batches[..b], outcomes[..b]), batches[b], outcomes[b])
  {
    assert batches[..b + 1][..b] == batches[..b] && outcomes[..b + 1][..b] == outcomes[..b];
  }

  /** The batches `sync` dispatches: slices of the queue as it stood when the cycle began. */
  function SyncBatches(s: State): seq<seq<QueueEntry>> {
    Chunks(s.queue, BATCH_SIZE)
  }

  /** `sync`, given the transport's outcome for each batch of the starting snapshot. */
  function Sync(s: State, outcomes: seq<BatchOutcome>): (r: (State, SyncResult))
    requires |outcomes| == |SyncBatches(s)|
    ensures r.1.success <==> r.1.failed_items == 0
  {
    var p := ApplyBatches(Progress(s, 0, 0, []), SyncBatches(s), outcomes);
    (p.state, SyncResult(p.failed == 0, p.synced, p.failed, p.errors))
  }
}
