/** What one sync cycle does to the tables and what it reports: the effect of each
    write it issues, the retry bookkeeping of a failed batch, the tallies of the
    aggregate result, and the batching of the queue snapshot. */
module SyncProperties {
  import opened Types
  import opened Store
  import opened TaskService
  import opened SyncService

  // ---------------------------------------------------------------- single writes

  /** `updateSyncStatus` touches one row (status, `last_synced_at`, and `server_id` only
      when the server sent one) and, on `synced`, removes exactly that task's entries. */
  lemma UpdateSyncStatusEffect(s: State, taskId: Id, status: SyncStatus, serverData: Option<Patch>)
    requires status != Pending
    ensures var r := UpdateSyncStatus(s, taskId, status, serverData);
      && (forall k :: k in s.tasks && k != taskId ==> r.tasks[k] == s.tasks[k])
      && (taskId in s.tasks ==>
            var t := s.tasks[taskId]; var t' := r.tasks[taskId];
            && t'.sync_status == status && t'.last_synced_at == Some(s.clock)
            && t'.server_id == (if HasServerId(serverData) then serverData.value.id else t.server_id)
            && t'.(sync_status := t.sync_status, last_synced_at := t.last_synced_at, server_id := t.server_id) == t)
      && (status == Synced ==> forall e :: e in r.queue <==> e in s.queue && e.task_id != taskId)
      && (status == Error ==> r.queue == s.queue)
  {
  }

  /** `handleSyncError` on the queue: only the entry with the item's id changes, and only
      its retry count (the snapshot's plus one) and message; the entry is never removed. */
  lemma HandleSyncErrorQueue(s: State, item: QueueEntry, message: string)
    ensures var r := HandleSyncError(s, item, message);
      && |r.queue| == |s.queue|
      && (forall i :: 0 <= i < |s.queue| && s.queue[i].id == item.id ==>
            r.queue[i] == s.queue[i].(retry_count := item.retry_count + 1, error_message := Some(message)))
      && (forall i :: 0 <= i < |s.queue| && s.queue[i].id != item.id ==> r.queue[i] == s.queue[i])
  {
  }

  /** `handleSyncError` on the tasks: the task is marked `error` when the new count reaches
      the ceiling, left alone below it, and no other task changes. */
  lemma HandleSyncErrorStatus(s: State, item: QueueEntry, message: string)
    ensures var r := HandleSyncError(s, item, message);
      && (forall k :: k in s.tasks && k != item.task_id ==> r.tasks[k] == s.tasks[k])
      && (item.retry_count + 1 < MAX_RETRIES ==> r.tasks == s.tasks)
      && (item.retry_count + 1 >= MAX_RETRIES && item.task_id in s.tasks ==>
            r.tasks[item.task_id].sync_status == Error)
  {
  }

  /** One processed item: how it is tallied, and what it does to the tables. A success
      marks the task `synced` and clears its entries; a resolved conflict goes through
      `updateTask` (the task stays `pending` and gains an `update` entry, and a missing or
      deleted task is left as it was); anything else records an error and writes nothing. */
  lemma ApplyItemEffect(p: Progress, item: ProcessedItem)
    ensures var r := ApplyItem(p, item);
      && r.synced == p.synced + (if CountsAsSynced(item) then 1 else 0)
      && r.failed == p.failed + (if CountsAsSynced(item) then 0 else 1)
      && r.errors == p.errors + (if CountsAsSynced(item) then []
                                 else [SyncError(item.client_id, Unknown, ErrorText(item), p.state.clock)])
      && (!CountsAsSynced(item) ==> r.state.tasks == p.state.tasks && r.state.queue == p.state.queue)
      && (item.status == Success ==>
            && (forall e :: e in r.state.queue ==> e.task_id != item.client_id)
            && (item.client_id in p.state.tasks ==> r.state.tasks[item.client_id].sync_status == Synced))
      && (item.status == Conflict && item.resolved_data.Some? ==>
            if GetTask(p.state, item.client_id).None? then r.state == p.state
            else
              var id := item.client_id; var u := item.resolved_data.value;
              && r.state.tasks[id].sync_status == Pending
              && r.state.tasks[id].title == u.title.GetOr(p.state.tasks[id].title)
              && r.state.tasks[id].description == u.description.GetOr(p.state.tasks[id].description)
              && r.state.tasks[id].completed == u.completed.GetOr(p.state.tasks[id].completed)
              && r.state.tasks[id].is_deleted == u.is_deleted.GetOr(p.state.tasks[id].is_deleted)
              && r.state.tasks == p.state.tasks[id := r.state.tasks[id]]
              && |r.state.queue| == |p.state.queue| + 1
              && r.state.queue[..|p.state.queue|] == p.state.queue
              && r.state.queue[|p.state.queue|].task_id == id
              && r.state.queue[|p.state.queue|].operation == Update
              && r.state.queue[|p.state.queue|].data == u)
  {
  }

  // ---------------------------------------------------------------- a processed response

  /** How many items of a response count as synced. */
  function SyncedCount(items: seq<ProcessedItem>): (n: nat)
    ensures n <= |items|
    decreases |items|
  {
    if items == [] then 0
    else SyncedCount(items[..|items| - 1]) + (if CountsAsSynced(items[|items| - 1]) then 1 else 0)
  }

  /** A response adds its synced items to `synced`, the rest to `failed`, and one error record
      per failed item, after the records already there. */
  lemma {:induction false} ApplyItemsTally(p: Progress, items: seq<ProcessedItem>)
    ensures var r := ApplyItems(p, items);
      && r.synced == p.synced + SyncedCount(items)
      && r.failed == p.failed + (|items| - SyncedCount(items))
      && |r.errors| == |p.errors| + (|items| - SyncedCount(items))
      && r.errors[..|p.errors|] == p.errors
    decreases |items|
  {
    if items != [] {
      var n := |items| - 1;
      ApplyItemsTally(p, items[..n]);
      ApplyItemEffect(ApplyItems(p, items[..n]), items[n]);
    }
  }

  // ---------------------------------------------------------------- a failed batch

  /** No two entries share an id. */
  predicate DistinctIds(entries: seq<QueueEntry>) {
    forall a, b :: 0 <= a < b < |entries| ==> entries[a].id != entries[b].id
  }

  /** No entry has id `id`. */
  predicate NotListed(id: Id, entries: seq<QueueEntry>) {
    forall k :: 0 <= k < |entries| ==> entries[k].id != id
  }

  /** Every entry of `taskId` stays below the ceiling after one more failure. */
  predicate BelowCeiling(taskId: Id, entries: seq<QueueEntry>) {
    forall k :: 0 <= k < |entries| && entries[k].task_id == taskId ==> entries[k].retry_count + 1 < MAX_RETRIES
  }

  /** The entries of a failed batch each leave one error record, in order, carrying the
      entry's task and operation and the transport's message; the counters are not touched. */
  lemma {:induction false} FailEntriesTally(p: Progress, entries: seq<QueueEntry>, message: string)
    ensures var r := FailEntries(p, entries, message);
      && r.synced == p.synced && r.failed == p.failed
      && |r.errors| == |p.errors| + |entries| && r.errors[..|p.errors|] == p.errors
      && (forall k :: 0 <= k < |entries| ==>
            r.errors[|p.errors| + k].task_id == entries[k].task_id
            && r.errors[|p.errors| + k].operation == Known(entries[k].operation)
            && r.errors[|p.errors| + k].error == message)
    decreases |entries|
  {
    if entries != [] {
      var n := |entries| - 1;
      FailEntriesTally(p, entries[..n], message);
      var mid := FailEntries(p, entries[..n], message);
      var r := FailEntries(p, entries, message);
      assert r.errors == mid.errors + [SyncError(entries[n].task_id, Known(entries[n].operation), message, mid.state.clock)];
      forall k | 0 <= k < |entries|
        ensures r.errors[|p.errors| + k].task_id == entries[k].task_id
             && r.errors[|p.errors| + k].operation == Known(entries[k].operation)
             && r.errors[|p.errors| + k].error == message
      {
        if k < n { assert r.errors[|p.errors| + k] == mid.errors[|p.errors| + k] && entries[..n][k] == entries[k]; }
      }
    }
  }

  /** In a failed batch of distinct entries, each queued entry of the batch gets its snapshot
      retry count plus one and the message, every other entry is left as it was, and no entry
      is removed, added or moved. */
  lemma {:induction false} FailEntriesQueue(p: Progress, entries: seq<QueueEntry>, message: string)
    requires DistinctIds(entries)
    ensures var q := p.state.queue; var r := FailEntries(p, entries, message).state.queue;
      && |r| == |q|
      && (forall i :: 0 <= i < |q| ==>
            r[i].(retry_count := q[i].retry_count, error_message := q[i].error_message) == q[i])
      && (forall i, k :: 0 <= i < |q| && 0 <= k < |entries| && q[i].id == entries[k].id ==>
            r[i].retry_count == entries[k].retry_count + 1 && r[i].error_message == Some(message))
      && (forall i :: 0 <= i < |q| && NotListed(q[i].id, entries) ==> r[i] == q[i])
    decreases |entries|
  {
    if entries != [] {
      var n := |entries| - 1;
      var pre := entries[..n];
      assert DistinctIds(pre) by {
        forall a, b | 0 <= a < b < |pre| ensures pre[a].id != pre[b].id { assert pre[a] == entries[a] && pre[b] == entries[b]; }
      }
      FailEntriesQueue(p, pre, message);
      var mid := FailEntries(p, pre, message);
      var s1 := mid.state.(clock := mid.state.clock + 1);
      HandleSyncErrorQueue(s1, entries[n], message);
      var q := p.state.queue; var m := mid.state.queue; var r := FailEntries(p, entries, message).state.queue;
      assert r == HandleSyncError(s1, entries[n], message).queue;
      forall i, k | 0 <= i < |q| && 0 <= k < |entries| && q[i].id == entries[k].id
        ensures r[i].retry_count == entries[k].retry_count + 1 && r[i].error_message == Some(message)
      {
        if k < n {
          assert pre[k] == entries[k] && entries[k].id != entries[n].id;
          assert m[i].id == q[i].id;
        }
      }
      forall i | 0 <= i < |q| && NotListed(q[i].id, entries) ensures r[i] == q[i] {
        assert NotListed(q[i].id, pre) by {
          forall k | 0 <= k < |pre| ensures pre[k].id != q[i].id { assert pre[k] == entries[k]; }
        }
        assert entries[n].id != q[i].id;
      }
    }
  }

  /** The last entry of a failed batch: the clock ticks for the error record, then `handleSyncError`. */
  lemma FailEntriesLast(p: Progress, entries: seq<QueueEntry>, message: string)
    requires entries != []
    ensures var n := |entries| - 1; var mid := FailEntries(p, entries[..|entries| - 1], message).state;
      FailEntries(p, entries, message).state == HandleSyncError(mid.(clock := mid.clock + 1), entries[n], message)
  {
  }

  /** `handleSyncError` never takes a task out of `error`. */
  lemma HandleSyncErrorKeepsError(s: State, item: QueueEntry, message: string, id: Id)
    requires id in s.tasks && s.tasks[id].sync_status == Error
    ensures var r := HandleSyncError(s, item, message).tasks;
      id in r && r[id].sync_status == Error
  {
  }

  /** A failed batch marks `error` the task of its `k`-th entry when that entry reaches the ceiling. */
  lemma {:induction false} FailEntriesCeilingAt(p: Progress, entries: seq<QueueEntry>, message: string, k: nat)
    requires k < |entries| && entries[k].retry_count + 1 >= MAX_RETRIES && entries[k].task_id in p.state.tasks
    ensures var r := FailEntries(p, entries, message).state.tasks;
      entries[k].task_id in r && r[entries[k].task_id].sync_status == Error
    decreases |entries|
  {
    var n := |entries| - 1;
    var pre := entries[..n];
    var mid := FailEntries(p, pre, message).state;
    var s1 := mid.(clock := mid.clock + 1);
    FailEntriesLast(p, entries, message);
    var fin := HandleSyncError(s1, entries[n], message);
    assert FailEntries(p, entries, message).state == fin;
    var id := entries[k].task_id;
    if k < n {
      assert pre[k] == entries[k];
      FailEntriesCeilingAt(p, pre, message, k);
      HandleSyncErrorKeepsError(s1, entries[n], message, id);
    } else {
      FailEntriesKeepValid(p, pre, message);
      assert id in s1.tasks;
      HandleSyncErrorStatus(s1, entries[n], message);
    }
    assert id in fin.tasks && fin.tasks[id].sync_status == Error;
  }

  /** A failed batch marks `error` every task with an entry that reaches the ceiling. */
  lemma FailEntriesCeiling(p: Progress, entries: seq<QueueEntry>, message: string)
    ensures var t := p.state.tasks; var r := FailEntries(p, entries, message).state.tasks;
      forall k :: 0 <= k < |entries| && entries[k].retry_count + 1 >= MAX_RETRIES && entries[k].task_id in t ==>
        entries[k].task_id in r && r[entries[k].task_id].sync_status == Error
  {
    forall k | 0 <= k < |entries| && entries[k].retry_count + 1 >= MAX_RETRIES && entries[k].task_id in p.state.tasks
      ensures var r := FailEntries(p, entries, message).state.tasks;
        entries[k].task_id in r && r[entries[k].task_id].sync_status == Error
    {
      FailEntriesCeilingAt(p, entries, message, k);
    }
  }

  /** A failed batch leaves every task none of whose entries reaches the ceiling exactly as it was. */
  lemma {:induction false} FailEntriesBelowCeiling(p: Progress, entries: seq<QueueEntry>, message: string)
    ensures var t := p.state.tasks; var r := FailEntries(p, entries, message).state.tasks;
      forall id :: id in t && BelowCeiling(id, entries) ==> id in r && r[id] == t[id]
    decreases |entries|
  {
    if entries != [] {
      var n := |entries| - 1;
      var pre := entries[..n];
      FailEntriesBelowCeiling(p, pre, message);
      var mid := FailEntries(p, pre, message);
      var s1 := mid.state.(clock := mid.state.clock + 1);
      HandleSyncErrorStatus(s1, entries[n], message);
      forall id | id in p.state.tasks && BelowCeiling(id, entries)
        ensures BelowCeiling(id, pre)
      {
        forall k | 0 <= k < |pre| && pre[k].task_id == id ensures pre[k].retry_count + 1 < MAX_RETRIES {
          assert pre[k] == entries[k];
        }
      }
    }
  }

  // ---------------------------------------------------------------- batching

  /** Each batch of an ascending queue is itself in creation order. */
  lemma {:induction false} ChunksAscending(q: seq<QueueEntry>, size: nat)
    requires size > 0 && Ascending(q)
    ensures forall b :: 0 <= b < |Chunks(q, size)| ==> Ascending(Chunks(q, size)[b])
    decreases |q|
  {
    if q != [] && |q| > size {
      assert Ascending(q[size..]);
      ChunksAscending(q[size..], size);
      assert Chunks(q, size) == [q[..size]] + Chunks(q[size..], size);
      assert Ascending(q[..size]);
    }
  }

  /** The batches `sync` sends: contiguous slices of the queue in order that together are the
      whole snapshot, ceil(|queue| / 10) of them, each of 10 entries except possibly the last,
      each in creation order with no id twice. */
  lemma SyncBatchesPartition(s: State)
    requires Valid(s)
    ensures var bs := SyncBatches(s);
      && Flatten(bs) == s.queue
      && |s.queue| <= |bs| * BATCH_SIZE < |s.queue| + BATCH_SIZE
      && (forall b :: 0 <= b < |bs| ==> 0 < |bs[b]| <= BATCH_SIZE)
      && (forall b :: 0 <= b < |bs| - 1 ==> |bs[b]| == BATCH_SIZE)
      && (forall b :: 0 <= b < |bs| ==> Ascending(bs[b]) && DistinctIds(bs[b]))
  {
    ChunksPartition(s.queue, BATCH_SIZE);
    ChunksAscending(s.queue, BATCH_SIZE);
    forall b | 0 <= b < |SyncBatches(s)| ensures DistinctIds(SyncBatches(s)[b]) {
      var bt := SyncBatches(s)[b];
      forall x, y | 0 <= x < y < |bt| ensures bt[x].id != bt[y].id { AscendingIdsDistinct(bt, x, y); }
    }
  }

  // ---------------------------------------------------------------- one whole cycle

  /** The items one batch adds to `synced_items`: the synced items of its response. */
  function BatchSynced(outcome: BatchOutcome): nat {
    match outcome
    case Response(items) => SyncedCount(items)
    case TransportFailure(_) => 0
  }

  /** The items one batch adds to `failed_items`: the other items of its response, or the
      whole batch when its dispatch failed. */
  function BatchFailed(batch: seq<QueueEntry>, outcome: BatchOutcome): nat {
    match outcome
    case Response(items) => |items| - SyncedCount(items)
    case TransportFailure(_) => |batch|
  }

  /** The `synced_items` the transport's answers imply. */
  function SyncedTotal(outcomes: seq<BatchOutcome>): nat
    decreases |outcomes|
  {
    if outcomes == [] then 0
    else SyncedTotal(outcomes[..|outcomes| - 1]) + BatchSynced(outcomes[|outcomes| - 1])
  }

  /** The `failed_items` they imply. */
  function FailedTotal(batches: seq<seq<QueueEntry>>, outcomes: seq<BatchOutcome>): nat
    requires |batches| == |outcomes|
    decreases |outcomes|
  {
    if outcomes == [] then 0
    else
      var n := |outcomes| - 1;
      FailedTotal(batches[..n], outcomes[..n]) + BatchFailed(batches[n], outcomes[n])
  }

  /** One batch: its tallies, one error record per failure, no task row removed, the
      invariant kept. */
  lemma ApplyBatchEffect(p: Progress, batch: seq<QueueEntry>, outcome: BatchOutcome)
    ensures var r := ApplyBatch(p, batch, outcome);
      && r.synced == p.synced + BatchSynced(outcome)
      && r.failed == p.failed + BatchFailed(batch, outcome)
      && |r.errors| == |p.errors| + BatchFailed(batch, outcome)
      && r.state.tasks.Keys == p.state.tasks.Keys
      && (Valid(p.state) ==> Valid(r.state))
  {
    match outcome {
      case Response(items) =>
        ApplyItemsTally(p, items);
        ApplyItemsKeepValid(p, items);
      case TransportFailure(message) =>
        FailEntriesTally(p.(failed := p.failed + |batch|), batch, message);
        FailEntriesKeepValid(p.(failed := p.failed + |batch|), batch, message);
    }
  }

  /** The batch fold tallies exactly those totals, adds one error record per failure, never
      removes a task row and keeps the invariant. */
  lemma {:induction false} ApplyBatchesTally(p: Progress, batches: seq<seq<QueueEntry>>, outcomes: seq<BatchOutcome>)
    requires |batches| == |outcomes|
    ensures var r := ApplyBatches(p, batches, outcomes);
      && r.synced == p.synced + SyncedTotal(outcomes)
      && r.failed == p.failed + FailedTotal(batches, outcomes)
      && |r.errors| == |p.errors| + FailedTotal(batches, outcomes)
      && r.state.tasks.Keys == p.state.tasks.Keys
      && (Valid(p.state) ==> Valid(r.state))
    decreases |batches|
  {
    if batches != [] {
      var n := |batches| - 1;
      ApplyBatchesTally(p, batches[..n], outcomes[..n]);
      ApplyBatchEffect(ApplyBatches(p, batches[..n], outcomes[..n]), batches[n], outcomes[n]);
    }
  }

  lemma {:induction false} ApplyItemsKeepValid(p: Progress, items: seq<ProcessedItem>)
    ensures ApplyItems(p, items).state.tasks.Keys == p.state.tasks.Keys
    ensures Valid(p.state) ==> Valid(ApplyItems(p, items).state)
    decreases |items|
  {
    if items != [] {
      var n := |items| - 1;
      ApplyItemsKeepValid(p, items[..n]);
      if Valid(p.state) { ApplyItemKeepsValid(ApplyItems(p, items[..n]), items[n]); }
    }
  }

  lemma {:induction false} FailEntriesKeepValid(p: Progress, entries: seq<QueueEntry>, message: string)
    ensures FailEntries(p, entries, message).state.tasks.Keys == p.state.tasks.Keys
    ensures Valid(p.state) ==> Valid(FailEntries(p, entries, message).state)
    decreases |entries|
  {
    if entries != [] {
      var n := |entries| - 1;
      FailEntriesKeepValid(p, entries[..n], message);
      if Valid(p.state) { FailEntryKeepsValid(FailEntries(p, entries[..n], message), entries[n], message); }
    }
  }

  /** What `sync` reports is consistent with what the transport answered: `synced_items` and
      `failed_items` are the totals above, there is one error record per failed item, `success`
      holds exactly when nothing failed, no task row is removed and the invariant is kept. */
  lemma SyncResultTally(s: State, outcomes: seq<BatchOutcome>)
    requires |outcomes| == |SyncBatches(s)|
    ensures var s' := Sync(s, outcomes).0; var res := Sync(s, outcomes).1;
      && res.synced_items == SyncedTotal(outcomes)
      && res.failed_items == FailedTotal(SyncBatches(s), outcomes)
      && |res.errors| == res.failed_items
      && (res.success <==> res.errors == [])
      && s'.tasks.Keys == s.tasks.Keys
      && (Valid(s) ==> Valid(s'))
  {
    ApplyBatchesTally(Progress(s, 0, 0, []), SyncBatches(s), outcomes);
  }

  /** With an empty queue there is nothing to send: the cycle succeeds with nothing synced or
      failed and leaves the tables as they were. */
  lemma SyncEmptyQueue(s: State)
    requires s.queue == []
    ensures SyncBatches(s) == []
    ensures Sync(s, []) == (s, SyncResult(true, 0, 0, []))
  {
  }
}
