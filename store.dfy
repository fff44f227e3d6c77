/** The two tables both services work on, the logical clock and the id supply,
    the consistency invariant every operation keeps, and the one write both
    services share: appending to the sync queue. */
module Store {
  import opened Types

  /** `tasks` keyed by task id, `sync_queue` in insertion order, the next clock
      tick and the next unused id. */
  datatype State = State(tasks: map<Id, Task>, queue: seq<QueueEntry>, clock: nat, nextId: nat)

  /** A fresh database: both tables empty. */
  const Empty := State(map[], [], 0, 0)

  /** The row stored under `k` has id `k`, an id already handed out, and timestamps
      in the past with `created_at <= updated_at`. */
  ghost predicate TaskValid(s: State, k: Id)
    requires k in s.tasks
  {
    var t := s.tasks[k];
    && t.id == k
    && k < s.nextId
    && t.created_at <= t.updated_at < s.clock
    && (t.last_synced_at.Some? ==> t.last_synced_at.value < s.clock)
  }

  /** A queue entry has an id already handed out, a past timestamp and targets an existing task row. */
  ghost predicate EntryValid(s: State, e: QueueEntry) {
    && e.id < s.nextId
    && e.created_at < s.clock
    && e.task_id in s.tasks
  }

  /** Ids and `created_at` strictly increase along the queue: stored order is FIFO creation order. */
  ghost predicate Ascending(q: seq<QueueEntry>) {
    forall i, j :: 0 <= i < j < |q| ==> q[i].id < q[j].id && q[i].created_at < q[j].created_at
  }

  ghost predicate Valid(s: State) {
    && (forall k :: k in s.tasks ==> TaskValid(s, k))
    && (forall e :: e in s.queue ==> EntryValid(s, e))
    && Ascending(s.queue)
  }

  /** Reading the clock moves it on without breaking the invariant. */
  lemma TickPreservesValid(s: State)
    requires Valid(s)
    ensures Valid(s.(clock := s.clock + 1))
  {
  }

  /** Every queue entry id is distinct from every other one. */
  lemma AscendingIdsDistinct(q: seq<QueueEntry>, i: nat, j: nat)
    requires Ascending(q) && i < |q| && j < |q| && i != j
    ensures q[i].id != q[j].id
  {
  }

  /** An entry older than everything in an ascending queue can head it. */
  lemma AscendingCons(x: QueueEntry, q: seq<QueueEntry>)
    requires Ascending(q)
    requires forall e :: e in q ==> x.id < e.id && x.created_at < e.created_at
    ensures Ascending([x] + q)
  {
  }

  /** `addToSyncQueue`: insert one entry with a fresh id, retry count 0, no error,
      and the table's default `created_at` (the current tick). */
  function AddToSyncQueue(s: State, taskId: Id, op: Operation, data: Patch): (r: State)
    ensures r.tasks == s.tasks
    ensures |r.queue| == |s.queue| + 1 && r.queue[..|s.queue|] == s.queue
    ensures var e := r.queue[|s.queue|];
      && e.task_id == taskId && e.operation == op && e.data == data
      && e.retry_count == 0 && e.error_message == None
  {
    State(s.tasks, s.queue + [QueueEntry(s.nextId, taskId, op, data, 0, None, s.clock)], s.clock + 1, s.nextId + 1)
  }

  /** The new entry's id is unused, and the invariant survives the insert when the entry's task exists. */
  lemma AddToSyncQueueKeepsValid(s: State, taskId: Id, op: Operation, data: Patch)
    requires Valid(s)
    ensures var r := AddToSyncQueue(s, taskId, op, data);
      forall e :: e in s.queue ==> e.id != r.queue[|s.queue|].id
    ensures taskId in s.tasks ==> Valid(AddToSyncQueue(s, taskId, op, data))
  {
    var r := AddToSyncQueue(s, taskId, op, data);
    var e := r.queue[|s.queue|];
    forall x | x in s.queue ensures x.id < e.id && x.created_at < e.created_at { assert EntryValid(s, x); }
    if taskId in s.tasks {
      forall x | x in r.queue ensures EntryValid(r, x) {
        if x != e { assert x in s.queue && EntryValid(s, x); }
      }
      forall k | k in r.tasks ensures TaskValid(r, k) { assert TaskValid(s, k); }
      forall i, j | 0 <= i < j < |r.queue| ensures r.queue[i].id < r.queue[j].id && r.queue[i].created_at < r.queue[j].created_at {
        assert r.queue[i] == s.queue[i] && s.queue[i] in s.queue;
        if j < |s.queue| { assert r.queue[j] == s.queue[j]; }
      }
    }
  }
}
