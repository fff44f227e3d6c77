/** What the local task operations promise a caller: a created task is visible and
    queued, an update rewrites only the columns it writes, a delete is a soft delete
    that hides the task from the reads but keeps it for the next sync. */
module TaskProperties {
  import opened Types
  import opened Store
  import opened TaskService

  /** A created task is new, readable by id, listed, waiting for sync, and is the only
      addition to the visible task list; no existing row changes. */
  lemma CreateThenVisible(s: State, title: string, description: Option<string>)
    requires Valid(s)
    ensures var s' := CreateTask(s, title, description).0; var t := CreateTask(s, title, description).1;
      && t.id !in s.tasks
      && GetTask(s', t.id) == Some(t)
      && t !in AllTasks(s) && AllTasks(s') == AllTasks(s) + {t}
      && t in TasksNeedingSync(s')
      && (forall k :: k in s.tasks ==> k in s'.tasks && s'.tasks[k] == s.tasks[k])
  {
    CreateTaskKeepsValid(s, title, description);
    var s' := CreateTask(s, title, description).0;
    var t := CreateTask(s, title, description).1;
    assert t !in AllTasks(s) by {
      forall k | k in s.tasks ensures s.tasks[k] != t { assert TaskValid(s, k); }
    }
    forall u | u in AllTasks(s') ensures u in AllTasks(s) + {t} {
      var k :| k in s'.tasks && !s'.tasks[k].is_deleted && s'.tasks[k] == u;
      if k != t.id { assert k in s.tasks && s.tasks[k] == u; }
    }
    forall u | u in AllTasks(s) + {t} ensures u in AllTasks(s') {
      if u != t {
        var k :| k in s.tasks && !s.tasks[k].is_deleted && s.tasks[k] == u;
        assert k != t.id && s'.tasks[k] == u;
      } else {
        assert t.id in s'.tasks && s'.tasks[t.id] == t && !t.is_deleted;
      }
    }
  }

  /** After a delete the task is hidden from `getTask` and `getAllTasks` and cannot be
      updated or deleted again, but its row is kept as a pending tombstone, so
      `getTasksNeedingSync` still lists it. */
  lemma DeleteHides(s: State, id: Id, updates: Patch)
    requires DeleteTask(s, id).1
    ensures var s' := DeleteTask(s, id).0;
      && GetTask(s', id) == None
      && id in s'.tasks && s'.tasks[id] !in AllTasks(s')
      && s'.tasks[id] in TasksNeedingSync(s')
      && DeleteTask(s', id) == (s', false)
      && UpdateTask(s', id, updates) == (s', None)
  {
  }

  /** On a live task, the stored row takes the written columns from `updates`, keeps every
      other column, and stays readable unless `updates` itself sets `is_deleted`. */
  lemma UpdateThenGet(s: State, id: Id, updates: Patch)
    requires GetTask(s, id).Some?
    ensures var s' := UpdateTask(s, id, updates).0; var t := s.tasks[id];
      && id in s'.tasks
      && s'.tasks[id].title == updates.title.GetOr(t.title)
      && s'.tasks[id].description == updates.description.GetOr(t.description)
      && s'.tasks[id].completed == updates.completed.GetOr(t.completed)
      && s'.tasks[id].created_at == t.created_at
      && s'.tasks[id].server_id == t.server_id
      && (GetTask(s', id).Some? <==> updates.is_deleted != Some(true))
  {
  }

  /** The object `updateTask` returns is the spread of `updates` over the task, not the
      stored row: a field the UPDATE statement does not write (here `created_at`) appears
      in the result but never reaches the table. */
  lemma UpdateResultIsNotTheRow(s: State, id: Id, when: nat)
    requires GetTask(s, id).Some? && s.tasks[id].created_at != when
    ensures var r := UpdateTask(s, id, EmptyPatch.(created_at := Some(when)));
      && r.1.Some? && r.1.value.created_at == when
      && r.0.tasks[id].created_at == s.tasks[id].created_at
  {
  }
}
