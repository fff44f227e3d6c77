/** End-to-end runs of the services on a fresh database, with the remote authority's
    answers written out: a clean sync, the retry ceiling under repeated transport
    failures, a server-resolved conflict and a per-item error. */
module Scenarios {
  import opened Types
  import opened Store
  import opened TaskService
  import opened SyncService

  /** Create a task, then sync with the authority accepting it: the cycle succeeds with one
      item synced, the task is `synced` and the queue is empty. */
  lemma SyncSuccessClearsQueue()
    ensures var s1 := CreateTask(Empty, "T1", None).0; var t := CreateTask(Empty, "T1", None).1;
      var outcomes := [Response([ProcessedItem(t.id, Success, None, None)])];
      && |outcomes| == |SyncBatches(s1)|
      && Sync(s1, outcomes).1 == SyncResult(true, 1, 0, [])
      && t.id in Sync(s1, outcomes).0.tasks && Sync(s1, outcomes).0.tasks[t.id].sync_status == Synced
      && Sync(s1, outcomes).0.queue == []
      && TasksNeedingSync(Sync(s1, outcomes).0) == {}
  {
    var s1 := CreateTask(Empty, "T1", None).0;
    var t := CreateTask(Empty, "T1", None).1;
    assert |s1.queue| == 1 && s1.queue[0].task_id == t.id && s1.tasks.Keys == {t.id};
    assert SyncBatches(s1) == [s1.queue];
    var outcomes := [Response([ProcessedItem(t.id, Success, None, None)])];
    var p0 := Progress(s1, 0, 0, []);
    assert ApplyBatches(p0, SyncBatches(s1), outcomes) == ApplyItems(p0, [ProcessedItem(t.id, Success, None, None)]);
    var s2 := UpdateSyncStatus(s1, t.id, Synced, None);
    assert ApplyItems(p0, [ProcessedItem(t.id, Success, None, None)]) == Progress(s2, 1, 0, []);
    assert s2.queue == [];
    assert s2.tasks.Keys == {t.id} && s2.tasks[t.id].sync_status == Synced;
  }

  /** One cycle in which the transport fails the only batch. */
  function FailOnce(s: State): State
    requires |SyncBatches(s)| == 1
  {
    Sync(s, [TransportFailure("network error")]).0
  }

  /** A task whose batch fails three cycles in a row: after the first and the second its
      entry's retry count is 1 and 2 and the task is still `pending`; after the third the
      count is 3 and the task is `error`. The entry is never removed, so a fourth failing
      cycle picks it up again and counts it to 4. */
  lemma RetryCeilingAfterThreeFailures()
    ensures var s0 := CreateTask(Empty, "T2", None).0; var id := CreateTask(Empty, "T2", None).1.id;
      && |SyncBatches(s0)| == 1
      && var s1 := FailOnce(s0);
      && |s1.queue| == 1 && id in s1.tasks
      && s1.queue[0].retry_count == 1 && s1.tasks[id].sync_status == Pending
      && |SyncBatches(s1)| == 1
      && var s2 := FailOnce(s1);
      && |s2.queue| == 1 && id in s2.tasks
      && s2.queue[0].retry_count == 2 && s2.tasks[id].sync_status == Pending
      && |SyncBatches(s2)| == 1
      && var s3 := FailOnce(s2);
      && |s3.queue| == 1 && id in s3.tasks
      && s3.queue[0].retry_count == 3 && s3.tasks[id].sync_status == Error
      && s3.queue[0].error_message == Some("network error")
      && |SyncBatches(s3)| == 1
      && var s4 := FailOnce(s3);
      && |s4.queue| == 1 && id in s4.tasks && s4.queue[0].retry_count == 4 && s4.tasks[id].sync_status == Error
  {
    var s0 := CreateTask(Empty, "T2", None).0;
    var id := CreateTask(Empty, "T2", None).1.id;
    assert |s0.queue| == 1 && s0.queue[0].task_id == id && s0.queue[0].retry_count == 0 && id in s0.tasks;
    assert s0.tasks[id].sync_status == Pending;
    var s1 := FailStep(s0, id, 0);
    var s2 := FailStep(s1, id, 1);
    var s3 := FailStep(s2, id, 2);
    var s4 := FailStep(s3, id, 3);
  }

  /** One failing cycle on a queue holding one entry, for task `id`, whose retry count is `n`. */
  lemma FailStep(s: State, id: Id, n: nat) returns (s': State)
    requires |s.queue| == 1 && s.queue[0].task_id == id && s.queue[0].retry_count == n && id in s.tasks
    requires n < MAX_RETRIES - 1 ==> s.tasks[id].sync_status == Pending
    ensures |SyncBatches(s)| == 1 && s' == FailOnce(s)
    ensures |s'.queue| == 1 && s'.queue[0].task_id == id && s'.queue[0].retry_count == n + 1
    ensures s'.queue[0].error_message == Some("network error")
    ensures id in s'.tasks
    ensures s'.tasks[id].sync_status == if n + 1 >= MAX_RETRIES then Error else Pending
  {
    assert SyncBatches(s) == [s.queue];
    var p := Progress(s, 0, 0, []);
    var failing := p.(failed := 1);
    assert ApplyBatches(p, [s.queue], [TransportFailure("network error")]) == FailEntries(failing, s.queue, "network error");
    assert s.queue[..0] == [];
    var mid := s.(clock := s.clock + 1);
    assert FailEntries(failing, s.queue, "network error").state == HandleSyncError(mid, s.queue[0], "network error");
    s' := HandleSyncError(mid, s.queue[0], "network error");
    assert s'.queue == MarkRetry(mid.queue, s.queue[0].id, n + 1, "network error");
  }

  /** A conflict the server resolves with a new title: the title changes, but, because the
      resolution goes through `updateTask`, the task is `pending` again and a new `update`
      entry follows the original `create` entry in the queue; the item counts as synced. */
  lemma ConflictOverwriteStaysPending()
    ensures var s1 := CreateTask(Empty, "A", None).0; var t := CreateTask(Empty, "A", None).1;
      var resolved := EmptyPatch.(title := Some("B"));
      var outcomes := [Response([ProcessedItem(t.id, Conflict, Some(resolved), None)])];
      && |outcomes| == |SyncBatches(s1)|
      && var r := Sync(s1, outcomes);
      && r.1 == SyncResult(true, 1, 0, [])
      && t.id in r.0.tasks && r.0.tasks[t.id].title == "B"
      && r.0.tasks[t.id].sync_status == Pending
      && |r.0.queue| == 2 && r.0.queue[0] == s1.queue[0]
      && r.0.queue[1].operation == Update && r.0.queue[1].data == resolved
  {
    var s1 := CreateTask(Empty, "A", None).0;
    var t := CreateTask(Empty, "A", None).1;
    assert |s1.queue| == 1 && GetTask(s1, t.id) == Some(t);
    assert SyncBatches(s1) == [s1.queue];
    var resolved := EmptyPatch.(title := Some("B"));
    var item := ProcessedItem(t.id, Conflict, Some(resolved), None);
    var p0 := Progress(s1, 0, 0, []);
    assert ApplyBatches(p0, SyncBatches(s1), [Response([item])]) == ApplyItems(p0, [item]);
    assert ApplyItems(p0, [item]) == p0.(state := UpdateTask(s1, t.id, resolved).0, synced := 1);
  }

  /** An item the server reports as an error: the cycle fails with one error record of
      operation `unknown` and the default message, and the entry's retry count is not
      touched (per-item errors do not go through `handleSyncError`). */
  lemma ItemErrorLeavesRetryCount()
    ensures var s1 := CreateTask(Empty, "C", None).0; var t := CreateTask(Empty, "C", None).1;
      var outcomes := [Response([ProcessedItem(t.id, ItemError, None, None)])];
      && |outcomes| == |SyncBatches(s1)|
      && var r := Sync(s1, outcomes);
      && !r.1.success && r.1.synced_items == 0 && r.1.failed_items == 1
      && r.1.errors == [SyncError(t.id, Unknown, "sync failed", s1.clock)]
      && r.0.queue == s1.queue && r.0.queue[0].retry_count == 0
      && r.0.tasks == s1.tasks
  {
    var s1 := CreateTask(Empty, "C", None).0;
    var t := CreateTask(Empty, "C", None).1;
    assert |s1.queue| == 1 && s1.queue[0].retry_count == 0;
    assert SyncBatches(s1) == [s1.queue];
    var item := ProcessedItem(t.id, ItemError, None, None);
    var p0 := Progress(s1, 0, 0, []);
    assert ApplyBatches(p0, SyncBatches(s1), [Response([item])]) == ApplyItems(p0, [item]);
    assert ApplyItems(p0, [item]) == ApplyItem(p0, item);
  }

  /** Batches are cut from the snapshot taken when the cycle starts, so a later batch can
      carry entries that an earlier success already deleted. Eleven entries for one task:
      the first batch succeeds, which clears all eleven from the queue; the second batch,
      holding the stale eleventh entry (retry count 2), fails in transport. Its retry
      bookkeeping finds no row to update, and the task, synced a moment ago, ends `error`. */
  lemma StaleEntryInLaterBatch(s: State, id: Id)
    requires |s.queue| == 11 && id in s.tasks && s.queue[10].retry_count == 2
    requires forall k :: 0 <= k < |s.queue| ==> s.queue[k].task_id == id
    ensures var outcomes := [Response([ProcessedItem(id, Success, None, None)]), TransportFailure("network error")];
      && |outcomes| == |SyncBatches(s)|
      && var r := Sync(s, outcomes);
      && r.1.synced_items == 1 && r.1.failed_items == 1 && !r.1.success
      && r.0.queue == []
      && id in r.0.tasks && r.0.tasks[id].sync_status == Error
  {
    var q := s.queue;
    assert Chunks(q[BATCH_SIZE..], BATCH_SIZE) == [q[BATCH_SIZE..]];
    assert SyncBatches(s) == [q[..BATCH_SIZE], q[BATCH_SIZE..]];
    var item := ProcessedItem(id, Success, None, None);
    var outcomes := [Response([item]), TransportFailure("network error")];
    var p0 := Progress(s, 0, 0, []);
    var s1 := UpdateSyncStatus(s, id, Synced, None);
    RemoveAllEntriesOf(q, id);
    var p1 := Progress(s1, 1, 0, []);
    assert ApplyItems(p0, [item]) == p1;
    assert ApplyBatches(p0, SyncBatches(s), outcomes)
        == ApplyBatch(ApplyBatch(p0, q[..BATCH_SIZE], outcomes[0]), q[BATCH_SIZE..], outcomes[1]) by {
      ApplyBatchesStep(p0, SyncBatches(s), outcomes, 0);
      ApplyBatchesStep(p0, SyncBatches(s), outcomes, 1);
      assert SyncBatches(s)[..2] == SyncBatches(s) && outcomes[..2] == outcomes;
      assert SyncBatches(s)[..0] == [] && outcomes[..0] == [];
    }
    var last := q[BATCH_SIZE..];
    assert last == [q[10]];
    var failing := p1.(failed := 1);
    FailEntriesStep(failing, last, 0, "network error");
    assert last[..1] == last && last[..0] == [];
    var mid := s1.(clock := s1.clock + 1);
    assert FailEntries(failing, last, "network error").state == HandleSyncError(mid, q[10], "network error");
    var s2 := mid.(queue := MarkRetry(mid.queue, q[10].id, 3, "network error"));
    assert s2.queue == [];
    assert HandleSyncError(mid, q[10], "network error") == UpdateSyncStatus(s2, id, Error, None);
  }

  /** When every entry is for `taskId`, deleting that task's entries empties the queue. */
  lemma {:induction false} RemoveAllEntriesOf(q: seq<QueueEntry>, taskId: Id)
    requires forall k :: 0 <= k < |q| ==> q[k].task_id == taskId
    ensures RemoveEntriesFor(q, taskId) == []
    decreases |q|
  {
    if q != [] {
      assert forall k :: 0 <= k < |q[1..]| ==> q[1..][k] == q[k + 1];
      RemoveAllEntriesOf(q[1..], taskId);
    }
  }
}
