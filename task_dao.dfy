/**
 * TaskDao: the `tasks` table and the statements declared on it. Deleting
 * tasks, directly or by an `INSERT OR REPLACE` that conflicts, also applies
 * the ON DELETE CASCADE actions that reference them: the subtasks
 * (`parent_task_id`) and the comments (`task_comments.task_id`).
 */
module TaskTable {
  import opened Wrappers
  import opened Tables
  import opened Entities
  import opened TaskEntity
  import opened CommentTable

  /** `ORDER BY due_date ASC`; SQLite sorts NULL before every value. */
  predicate DueFirst(a: TaskRow, b: TaskRow) {
    a.dueDate.None? || (b.dueDate.Some? && a.dueDate.value <= b.dueDate.value)
  }

  /** `ORDER BY priority DESC, due_date ASC`. */
  predicate PriorityThenDue(a: TaskRow, b: TaskRow) {
    a.priority > b.priority || (a.priority == b.priority && DueFirst(a, b))
  }

  lemma DueFirstIsTotalPreorder()
    ensures TotalPreorder(DueFirst)
  {
  }

  lemma PriorityThenDueIsTotalPreorder()
    ensures TotalPreorder(PriorityThenDue)
  {
  }

  predicate InProject(t: TaskRow, projectId: string) {
    t.projectId == Some(projectId)
  }

  predicate ActiveFor(t: TaskRow, userId: string) {
    t.assigneeUserId == Some(userId) && t.status != "done"
  }

  /** The ids of the rows of `before` that are not in `after`. */
  function DeletedIds(before: seq<TaskRow>, after: seq<TaskRow>): set<string> {
    set t | t in before && t !in after :: t.taskId
  }

  /**
   * The rows left once `INSERT OR REPLACE` has made room for id `id`: SQLite
   * deletes the row holding that id, and with it, by the ON DELETE CASCADE
   * of `parent_task_id`, its subtasks; a new id deletes nothing.
   */
  function ClearedFor(rows: seq<TaskRow>, id: string): seq<TaskRow> {
    if Lookup(rows, id, TaskKey).Some? then DeleteCascade(rows, {id}) else rows
  }

  /** `INSERT OR REPLACE` of one task row: make room, then append. */
  function InsertOrReplace(rows: seq<TaskRow>, row: TaskRow): seq<TaskRow> {
    ClearedFor(rows, row.taskId) + [row]
  }

  /** The comments left by that insert: the ones on the deleted tasks go with them. */
  function CommentsAfterInsert(rows: seq<TaskRow>, comments: seq<TaskComment>, id: string): seq<TaskComment> {
    OnTasksDeleted(comments, DeletedIds(rows, ClearedFor(rows, id)))
  }

  /** Making room keeps only old rows, none of them under `id`, and keeps the key unique. */
  lemma ClearedForMeaning(rows: seq<TaskRow>, id: string)
    requires UniqueKeys(rows, TaskKey)
    ensures UniqueKeys(ClearedFor(rows, id), TaskKey)
    ensures forall t :: t in ClearedFor(rows, id) ==> t in rows && t.taskId != id
    ensures Lookup(rows, id, TaskKey).None? ==> ClearedFor(rows, id) == RemoveKey(rows, id, TaskKey)
    ensures Lookup(rows, id, TaskKey).Some? ==>
              forall t :: t in ClearedFor(rows, id) ==> t.parentTaskId != Some(id)
  {
    if Lookup(rows, id, TaskKey).Some? {
      CascadeUnique(rows, {id});
      var prior := Lookup(rows, id, TaskKey).value;
      forall t | t in ClearedFor(rows, id) ensures t.parentTaskId != Some(id) {
        CascadeLeavesNoOrphans(rows, {id}, t, prior);
      }
    } else {
      assert forall x :: x in rows ==> KeyIsNot(id, TaskKey)(x);
      FilterAll(rows, KeyIsNot(id, TaskKey));
    }
  }

  /**
   * After the insert the table holds the row under its id and keeps its
   * primary key unique; every other row was there before. A new id is a
   * plain insert; an existing one takes the old row's subtasks with it.
   */
  lemma InsertOrReplaceMeaning(rows: seq<TaskRow>, row: TaskRow)
    requires UniqueKeys(rows, TaskKey)
    ensures var r := InsertOrReplace(rows, row);
            && UniqueKeys(r, TaskKey)
            && Lookup(r, row.taskId, TaskKey) == Some(row)
            && (forall t :: t in r ==> t == row || t in rows)
            && (Lookup(rows, row.taskId, TaskKey).None? ==> r == Upsert(rows, row, TaskKey))
            && (Lookup(rows, row.taskId, TaskKey).Some? ==>
                  forall t :: t in ClearedFor(rows, row.taskId) ==> t.parentTaskId != Some(row.taskId))
  {
    ClearedForMeaning(rows, row.taskId);
    AppendNewKey(ClearedFor(rows, row.taskId), row, TaskKey);
  }

  /** A new id deletes no comment; an existing one deletes every comment on it. */
  lemma CommentsAfterInsertMeaning(rows: seq<TaskRow>, comments: seq<TaskComment>, id: string)
    ensures Lookup(rows, id, TaskKey).None? ==> CommentsAfterInsert(rows, comments, id) == comments
    ensures Lookup(rows, id, TaskKey).Some? ==> forall c :: c in CommentsAfterInsert(rows, comments, id) ==> c.taskId != id
  {
    if Lookup(rows, id, TaskKey).Some? {
      var prior := Lookup(rows, id, TaskKey).value;
      assert prior !in DeleteCascade(rows, {id});
      assert id in DeletedIds(rows, ClearedFor(rows, id));
    } else {
      assert DeletedIds(rows, rows) == {};
      FilterAll(comments, (c: TaskComment) => c.taskId !in DeletedIds(rows, rows));
    }
  }

  /** `INSERT OR REPLACE` of a list: the rows one after another. */
  function InsertAllOrReplace(rows: seq<TaskRow>, xs: seq<TaskRow>): seq<TaskRow>
    decreases |xs|
  {
    if xs == [] then rows else InsertOrReplace(InsertAllOrReplace(rows, xs[..|xs| - 1]), xs[|xs| - 1])
  }

  /** The comments left by inserting a list: each insert's deletions, in turn. */
  function CommentsAfterInsertAll(rows: seq<TaskRow>, comments: seq<TaskComment>, xs: seq<TaskRow>): seq<TaskComment>
    decreases |xs|
  {
    if xs == [] then comments
    else
      var init := xs[..|xs| - 1];
      CommentsAfterInsert(InsertAllOrReplace(rows, init), CommentsAfterInsertAll(rows, comments, init), xs[|xs| - 1].taskId)
  }

  /** Both tables keep their primary keys unique through the insert. */
  lemma InsertKeepsKeys(rows: seq<TaskRow>, comments: seq<TaskComment>, row: TaskRow)
    requires UniqueKeys(rows, TaskKey) && UniqueKeys(comments, CommentKey)
    ensures UniqueKeys(InsertOrReplace(rows, row), TaskKey)
    ensures UniqueKeys(CommentsAfterInsert(rows, comments, row.taskId), CommentKey)
  {
    InsertOrReplaceMeaning(rows, row);
    OnTasksDeletedUnique(comments, DeletedIds(rows, ClearedFor(rows, row.taskId)));
  }

  lemma InsertAllStep(rows: seq<TaskRow>, comments: seq<TaskComment>, xs: seq<TaskRow>, i: nat)
    requires i < |xs|
    ensures InsertAllOrReplace(rows, xs[..i + 1]) == InsertOrReplace(InsertAllOrReplace(rows, xs[..i]), xs[i])
    ensures CommentsAfterInsertAll(rows, comments, xs[..i + 1])
            == CommentsAfterInsert(InsertAllOrReplace(rows, xs[..i]), CommentsAfterInsertAll(rows, comments, xs[..i]), xs[i].taskId)
  {
    assert xs[..i + 1][..i] == xs[..i];
  }

  /** Inserting a list keeps the primary key unique, and the last row of the list is stored under its id. */
  lemma {:induction false} InsertAllOrReplaceMeaning(rows: seq<TaskRow>, xs: seq<TaskRow>)
    requires UniqueKeys(rows, TaskKey)
    ensures UniqueKeys(InsertAllOrReplace(rows, xs), TaskKey)
    ensures xs != [] ==> Lookup(InsertAllOrReplace(rows, xs), xs[|xs| - 1].taskId, TaskKey) == Some(xs[|xs| - 1])
    decreases |xs|
  {
    if xs != [] {
      InsertAllOrReplaceMeaning(rows, xs[..|xs| - 1]);
      InsertOrReplaceMeaning(InsertAllOrReplace(rows, xs[..|xs| - 1]), xs[|xs| - 1]);
    }
  }

  class TaskDao {
    var rows: seq<TaskRow>

    ghost predicate Valid()
      reads this
    {
      UniqueKeys(rows, TaskKey)
    }

    constructor ()
      ensures rows == [] && Valid()
    {
      rows := [];
    }

    /**
     * `@Insert(onConflict = REPLACE)`: the row with the same id, its subtasks
     * and the comments on them are deleted before the task's row is appended.
     */
    method InsertTask(task: Task, comments: TaskCommentDao)
      requires Valid() && comments.Valid()
      modifies this, comments
      ensures Valid() && comments.Valid()
      ensures rows == InsertOrReplace(old(rows), task.Row())
      ensures comments.rows == CommentsAfterInsert(old(rows), old(comments.rows), task.taskId)
    {
      InsertKeepsKeys(rows, comments.rows, task.Row());
      comments.rows := CommentsAfterInsert(rows, comments.rows, task.taskId);
      rows := InsertOrReplace(rows, task.Row());
    }

    /** `@Insert(onConflict = REPLACE)` of a list: one row after another, in one transaction. */
    method InsertAllTasks(tasks: seq<Task>, comments: TaskCommentDao)
      requires Valid() && comments.Valid()
      modifies this, comments
      ensures Valid() && comments.Valid()
      ensures rows == InsertAllOrReplace(old(rows), RowsOf(tasks))
      ensures comments.rows == CommentsAfterInsertAll(old(rows), old(comments.rows), RowsOf(tasks))
    {
      var xs := RowsOf(tasks);
      var table := rows;
      var left := comments.rows;
      ghost var rows0 := rows;
      ghost var comments0 := comments.rows;
      var i := 0;
      while i < |xs|
        invariant 0 <= i <= |xs|
        invariant UniqueKeys(table, TaskKey) && UniqueKeys(left, CommentKey)
        invariant table == InsertAllOrReplace(rows0, xs[..i])
        invariant left == CommentsAfterInsertAll(rows0, comments0, xs[..i])
      {
        InsertAllStep(rows0, comments0, xs, i);
        InsertKeepsKeys(table, left, xs[i]);
        left := CommentsAfterInsert(table, left, xs[i].taskId);
        table := InsertOrReplace(table, xs[i]);
        i := i + 1;
      }
      assert xs[..i] == xs;
      comments.rows := left;
      rows := table;
      assert RowsOf(tasks) == xs;
    }

    /** `@Update`: the row with the same task id becomes the task's row. */
    method UpdateTask(task: Task)
      requires Valid()
      modifies this
      ensures Valid()
      ensures rows == Replace(old(rows), task.Row(), TaskKey)
    {
      ReplaceUnique(rows, task.Row(), TaskKey);
      rows := Replace(rows, task.Row(), TaskKey);
    }

    /** `@Delete`: by primary key, cascading to subtasks and comments. */
    method DeleteTask(task: Task, comments: TaskCommentDao)
      requires Valid() && comments.Valid()
      modifies this, comments
      ensures Valid() && comments.Valid()
      ensures rows == DeleteCascade(old(rows), {task.taskId})
      ensures comments.rows == OnTasksDeleted(old(comments.rows), DeletedIds(old(rows), rows))
    {
      CascadeUnique(rows, {task.taskId});
      var before := rows;
      rows := DeleteCascade(rows, {task.taskId});
      OnTasksDeletedUnique(comments.rows, DeletedIds(before, rows));
      comments.rows := OnTasksDeleted(comments.rows, DeletedIds(before, rows));
    }

    /** `DELETE FROM tasks`, cascading to every comment on those tasks. */
    method DeleteAllTasks(comments: TaskCommentDao)
      requires Valid() && comments.Valid()
      modifies this, comments
      ensures Valid() && comments.Valid()
      ensures rows == []
      ensures comments.rows == OnTasksDeleted(old(comments.rows), DeletedIds(old(rows), []))
    {
      OnTasksDeletedUnique(comments.rows, DeletedIds(rows, []));
      comments.rows := OnTasksDeleted(comments.rows, DeletedIds(rows, []));
      rows := [];
    }

    /** `SELECT * FROM tasks WHERE task_id = :taskId`; `None` stands for null. */
    function GetTaskById(taskId: string): (r: Option<TaskRow>)
      reads this
      ensures r.Some? ==> r.value in rows && r.value.taskId == taskId
      ensures r.None? <==> forall t :: t in rows ==> t.taskId != taskId
    {
      Lookup(rows, taskId, TaskKey)
    }

    /** `SELECT * FROM tasks ORDER BY due_date ASC`. */
    function GetAllTasksSortedByDueDate(): (r: seq<TaskRow>)
      reads this
      ensures multiset(r) == multiset(rows)
      ensures forall i, j :: 0 <= i < j < |r| && r[i].dueDate.Some? ==>
                r[j].dueDate.Some? && r[i].dueDate.value <= r[j].dueDate.value
    {
      DueFirstIsTotalPreorder();
      SortSorted(rows, DueFirst);
      Sort(rows, DueFirst)
    }

    /** `... WHERE project_id = :projectId ORDER BY priority DESC, due_date ASC`. */
    function GetTasksForProject(projectId: string): (r: seq<TaskRow>)
      reads this
      ensures forall t :: multiset(r)[t] == if t.projectId == Some(projectId) then multiset(rows)[t] else 0
      ensures forall i, j :: 0 <= i < j < |r| ==>
                r[i].priority >= r[j].priority &&
                (r[i].priority == r[j].priority ==> DueFirst(r[i], r[j]))
    {
      var mine := Filter(rows, (t: TaskRow) => InProject(t, projectId));
      FilterMultiset(rows, (t: TaskRow) => InProject(t, projectId));
      PriorityThenDueIsTotalPreorder();
      SortSorted(mine, PriorityThenDue);
      Sort(mine, PriorityThenDue)
    }

    /** `... WHERE assignee_user_id = :userId AND status != 'done' ORDER BY due_date ASC`. */
    function GetActiveTasksForUser(userId: string): (r: seq<TaskRow>)
      reads this
      ensures forall t :: multiset(r)[t] ==
                if t.assigneeUserId == Some(userId) && t.status != "done" then multiset(rows)[t] else 0
      ensures forall i, j :: 0 <= i < j < |r| && r[i].dueDate.Some? ==>
                r[j].dueDate.Some? && r[i].dueDate.value <= r[j].dueDate.value
    {
      var mine := Filter(rows, (t: TaskRow) => ActiveFor(t, userId));
      FilterMultiset(rows, (t: TaskRow) => ActiveFor(t, userId));
      DueFirstIsTotalPreorder();
      SortSorted(mine, DueFirst);
      Sort(mine, DueFirst)
    }

    /** `SELECT * FROM tasks ORDER BY priority DESC, due_date ASC`. */
    function GetAllTasksSortedByPriority(): (r: seq<TaskRow>)
      reads this
      ensures multiset(r) == multiset(rows)
      ensures forall i, j :: 0 <= i < j < |r| ==>
                r[i].priority >= r[j].priority &&
                (r[i].priority == r[j].priority ==> DueFirst(r[i], r[j]))
    {
      PriorityThenDueIsTotalPreorder();
      SortSorted(rows, PriorityThenDue);
      Sort(rows, PriorityThenDue)
    }
  }
}
