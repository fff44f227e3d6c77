/** The local task mutations (each writes the task row and appends exactly one
    queue entry) and the reads over the task table. */
module TaskService {
  import opened Types
  import opened Store

  /** `getTask`: the row, unless it is missing or soft-deleted. */
  function GetTask(s: State, id: Id): (r: Option<Task>)
    ensures r.Some? <==> id in s.tasks && !s.tasks[id].is_deleted
    ensures r.Some? ==> r.value == s.tasks[id]
  {
    if id in s.tasks && !s.tasks[id].is_deleted then Some(s.tasks[id]) else None
  }

  /** `getAllTasks`: every row that is not soft-deleted (the query fixes no order). */
  function AllTasks(s: State): (r: set<Task>)
    ensures forall t :: t in r ==> !t.is_deleted && t in s.tasks.Values
    ensures forall k :: k in s.tasks && !s.tasks[k].is_deleted ==> s.tasks[k] in r
  {
    set k | k in s.tasks && !s.tasks[k].is_deleted :: s.tasks[k]
  }

  /** The statuses `getTasksNeedingSync` selects. */
  predicate NeedsSync(status: SyncStatus) {
    status == Pending || status == Error
  }

  /** `getTasksNeedingSync`: every row whose status is `pending` or `error`, tombstones included. */
  function TasksNeedingSync(s: State): (r: set<Task>)
    ensures forall t :: t in r ==> t.sync_status != Synced && t in s.tasks.Values
    ensures forall k :: k in s.tasks && s.tasks[k].sync_status != Synced ==> s.tasks[k] in r
  {
    set k | k in s.tasks && NeedsSync(s.tasks[k].sync_status) :: s.tasks[k]
  }

  /** `{ ...task, ...updates, updated_at, sync_status: 'pending' }`: the object `updateTask` returns. */
  function Merged(t: Task, u: Patch, now: nat): Task {
    Task(u.id.GetOr(t.id), u.title.GetOr(t.title), u.description.GetOr(t.description),
         u.completed.GetOr(t.completed), u.created_at.GetOr(t.created_at), now,
         u.is_deleted.GetOr(t.is_deleted), Pending,
         if u.server_id.Some? then u.server_id else t.server_id,
         if u.last_synced_at.Some? then u.last_synced_at else t.last_synced_at)
  }

  /** The stored row after `UPDATE tasks SET title, description, completed, updated_at,
      is_deleted, sync_status`: only those columns are taken from `m`. */
  function Written(t: Task, m: Task): Task {
    t.(title := m.title, description := m.description, completed := m.completed,
       updated_at := m.updated_at, is_deleted := m.is_deleted, sync_status := m.sync_status)
  }

  /** `createTask`: a fresh pending task (description `''` when none is given) and one `create` entry. */
  function CreateTask(s: State, title: string, description: Option<string>): (r: (State, Task))
    ensures var s' := r.0; var t := r.1;
      && t.title == title && t.description == description.GetOr("")
      && !t.completed && !t.is_deleted && t.sync_status == Pending
      && t.created_at == t.updated_at && t.server_id == None && t.last_synced_at == None
      && s'.tasks == s.tasks[t.id := t]
      && |s'.queue| == |s.queue| + 1 && s'.queue[..|s.queue|] == s.queue
      && s'.queue[|s.queue|].task_id == t.id && s'.queue[|s.queue|].operation == Create
      && s'.queue[|s.queue|].data == AsPatch(t)
  {
    var id, now := s.nextId, s.clock;
    var t := Task(id, title, description.GetOr(""), false, now, now, false, Pending, None, None);
    var s1 := s.(tasks := s.tasks[id := t], clock := now + 1, nextId := id + 1);
    (AddToSyncQueue(s1, id, Create, AsPatch(t)), t)
  }

  /** The created task's id was not in use, and the invariant is kept. */
  lemma CreateTaskKeepsValid(s: State, title: string, description: Option<string>)
    requires Valid(s)
    ensures CreateTask(s, title, description).1.id !in s.tasks
    ensures Valid(CreateTask(s, title, description).0)
  {
    var id, now := s.nextId, s.clock;
    var t := Task(id, title, description.GetOr(""), false, now, now, false, Pending, None, None);
    var s1 := s.(tasks := s.tasks[id := t], clock := now + 1, nextId := id + 1);
    assert id !in s.tasks by { forall k | k in s.tasks ensures k != id { assert TaskValid(s, k); } }
    forall e | e in s1.queue ensures EntryValid(s1, e) { assert EntryValid(s, e); }
    forall k | k in s1.tasks ensures TaskValid(s1, k) { if k != id { assert TaskValid(s, k); } }
    AddToSyncQueueKeepsValid(s1, id, Create, AsPatch(t));
  }

  /** `updateTask`: on a live task, apply `updates` over the row, mark it pending, advance
      `updated_at` and append one `update` entry carrying `updates`; otherwise `null`. */
  function UpdateTask(s: State, id: Id, updates: Patch): (r: (State, Option<Task>))
    ensures r.1.None? <==> GetTask(s, id).None?
    ensures r.0.tasks.Keys == s.tasks.Keys
    ensures r.1.None? ==> r.0 == s
    ensures r.1.Some? ==>
      var s' := r.0; var old_ := s.tasks[id]; var new_ := r.0.tasks[id];
      && s'.tasks == s.tasks[id := new_]
      && new_.id == old_.id && new_.created_at == old_.created_at
      && new_.server_id == old_.server_id && new_.last_synced_at == old_.last_synced_at
      && new_.title == updates.title.GetOr(old_.title)
      && new_.description == updates.description.GetOr(old_.description)
      && new_.completed == updates.completed.GetOr(old_.completed)
      && new_.is_deleted == updates.is_deleted.GetOr(old_.is_deleted)
      && new_.sync_status == Pending
      && Written(old_, r.1.value) == new_
      && r.1.value.id == updates.id.GetOr(old_.id)
      && r.1.value.created_at == updates.created_at.GetOr(old_.created_at)
      && r.1.value.server_id == (if updates.server_id.Some? then updates.server_id else old_.server_id)
      && r.1.value.last_synced_at == (if updates.last_synced_at.Some? then updates.last_synced_at else old_.last_synced_at)
      && |s'.queue| == |s.queue| + 1 && s'.queue[..|s.queue|] == s.queue
      && s'.queue[|s.queue|].task_id == id && s'.queue[|s.queue|].operation == Update
      && s'.queue[|s.queue|].data == updates
  {
    if GetTask(s, id).None? then (s, None)
    else
      var t := s.tasks[id];
      var newTask := Merged(t, updates, s.clock);
      var s1 := s.(tasks := s.tasks[id := Written(t, newTask)], clock := s.clock + 1);
      (AddToSyncQueue(s1, id, Update, updates), Some(newTask))
  }

  /** An update moves `updated_at` forward and keeps the invariant. */
  lemma UpdateTaskKeepsValid(s: State, id: Id, updates: Patch)
    requires Valid(s)
    ensures UpdateTask(s, id, updates).1.Some? ==>
      UpdateTask(s, id, updates).0.tasks[id].updated_at > s.tasks[id].updated_at
    ensures Valid(UpdateTask(s, id, updates).0)
  {
    if GetTask(s, id).Some? {
      var t := s.tasks[id];
      var newTask := Merged(t, updates, s.clock);
      var s1 := s.(tasks := s.tasks[id := Written(t, newTask)], clock := s.clock + 1);
      forall e | e in s1.queue ensures EntryValid(s1, e) { assert EntryValid(s, e); }
      forall k | k in s1.tasks ensures TaskValid(s1, k) { assert TaskValid(s, k); }
      AddToSyncQueueKeepsValid(s1, id, Update, updates);
    }
  }

  /** `deleteTask`: on a live task, keep the row as a pending tombstone, append one `delete`
      entry snapshotting the task with `is_deleted` set, and answer true; otherwise false. */
  function DeleteTask(s: State, id: Id): (r: (State, bool))
    ensures r.1 <==> GetTask(s, id).Some?
    ensures r.0.tasks.Keys == s.tasks.Keys
    ensures !r.1 ==> r.0 == s
    ensures r.1 ==>
      var s' := r.0; var old_ := s.tasks[id]; var new_ := r.0.tasks[id];
      && s'.tasks == s.tasks[id := new_]
      && new_.is_deleted && new_.sync_status == Pending
      && new_.(updated_at := old_.updated_at, is_deleted := false, sync_status := old_.sync_status) == old_
      && |s'.queue| == |s.queue| + 1 && s'.queue[..|s.queue|] == s.queue
      && s'.queue[|s.queue|].task_id == id && s'.queue[|s.queue|].operation == Delete
      && s'.queue[|s.queue|].data == AsPatch(old_).(is_deleted := Some(true))
  {
    if GetTask(s, id).None? then (s, false)
    else
      var t := s.tasks[id];
      var s1 := s.(tasks := s.tasks[id := t.(is_deleted := true, updated_at := s.clock, sync_status := Pending)],
                   clock := s.clock + 1);
      (AddToSyncQueue(s1, id, Delete, AsPatch(t).(is_deleted := Some(true))), true)
  }

  /** A delete moves `updated_at` forward and keeps the invariant. */
  lemma DeleteTaskKeepsValid(s: State, id: Id)
    requires Valid(s)
    ensures DeleteTask(s, id).1 ==> DeleteTask(s, id).0.tasks[id].updated_at > s.tasks[id].updated_at
    ensures Valid(DeleteTask(s, id).0)
  {
    if GetTask(s, id).Some? {
      var t := s.tasks[id];
      var s1 := s.(tasks := s.tasks[id := t.(is_deleted := true, updated_at := s.clock, sync_status := Pending)],
                   clock := s.clock + 1);
      forall e | e in s1.queue ensures EntryValid(s1, e) { assert EntryValid(s, e); }
      forall k | k in s1.tasks ensures TaskValid(s1, k) { assert TaskValid(s, k); }
      AddToSyncQueueKeepsValid(s1, id, Delete, AsPatch(t).(is_deleted := Some(true)));
    }
  }
}
