/**
 * The `tasks` entity: the mutable Task record with its setters, the row
 * value Room stores for it, its documented value domain, the meaning of the
 * reminder offset, and the ON DELETE actions of its three foreign keys.
 *
 * Task.java itself declares neither the time-tracking columns nor a copy
 * constructor, but the rest of the application reads and writes
 * `timeSpentMillis` (a Java `long`), `timeTrackingStartTimeMillis` (a
 * nullable `Long`) and calls `new Task(task)`; they are added here as a
 * column, a nullable column and a field-wise copy.
 */
module TaskEntity {
  import opened Wrappers
  import opened Tables

  /** One row of the `tasks` table, as Room persists a Task object. */
  datatype TaskRow = TaskRow(
    taskId: string,
    projectId: Option<string>,
    title: string,
    description: Option<string>,
    assigneeUserId: Option<string>,
    creatorUserId: string,
    dueDate: Option<int>,
    priority: int,
    status: string,
    isRecurring: bool,
    recurrenceRule: Option<string>,
    parentTaskId: Option<string>,
    createdAt: int,
    updatedAt: int,
    completedAt: Option<int>,
    reminderOffsetMillisBeforeDueDate: Option<int>,
    timeSpentMillis: int,
    timeTrackingStartTimeMillis: Option<int>)

  /** The primary key, `task_id`. */
  function TaskKey(t: TaskRow): string { t.taskId }

  const DEFAULT_PRIORITY := 2
  const DEFAULT_STATUS := "todo"
  /** The statuses the entity documents. */
  const DOCUMENTED_STATUSES: seq<string> := ["todo", "in_progress", "done"]

  /** The domain the entity documents but does not enforce. */
  predicate InDocumentedDomain(t: TaskRow) {
    1 <= t.priority <= 3 && t.status in DOCUMENTED_STATUSES
  }

  /** The row `new Task(title, creatorUserId)` produces at time `now`, with `taskId` its random UUID. */
  function NewTaskRow(taskId: string, title: string, creatorUserId: string, now: int): (r: TaskRow)
    ensures r.taskId == taskId && r.title == title && r.creatorUserId == creatorUserId
    ensures r.priority == 2 && r.status == "todo" && !r.isRecurring
    ensures r.createdAt == now && r.updatedAt == r.createdAt
    ensures r.projectId.None? && r.description.None? && r.assigneeUserId.None? && r.dueDate.None?
    ensures r.recurrenceRule.None? && r.parentTaskId.None? && r.completedAt.None?
    ensures r.reminderOffsetMillisBeforeDueDate.None?
    ensures r.timeSpentMillis == 0 && r.timeTrackingStartTimeMillis.None?
    ensures InDocumentedDomain(r)
  {
    TaskRow(taskId, None, title, None, None, creatorUserId, None, DEFAULT_PRIORITY, DEFAULT_STATUS,
            false, None, None, now, now, None, None, 0, None)
  }

  /** What a reminder offset column value means. */
  datatype ReminderSetting = NoReminder | OnTime | BeforeDue(millis: int) | AfterDue(millis: int)

  function ReminderSettingOf(offset: Option<int>): (s: ReminderSetting)
    ensures s == NoReminder <==> offset.None?
    ensures s == OnTime <==> offset == Some(0)
    ensures s.BeforeDue? <==> offset.Some? && offset.value > 0
    ensures s.BeforeDue? ==> s.millis == offset.value && s.millis > 0
    ensures s.AfterDue? ==> s.millis == -offset.value && s.millis > 0
  {
    match offset
    case None => NoReminder
    case Some(o) => if o == 0 then OnTime else if o > 0 then BeforeDue(o) else AfterDue(-o)
  }

  /** The instant a reminder is due: the due date less the offset. */
  function ReminderInstant(t: TaskRow): (r: Option<int>)
    ensures r.Some? <==> t.dueDate.Some? && t.reminderOffsetMillisBeforeDueDate.Some?
  {
    if t.dueDate.Some? && t.reminderOffsetMillisBeforeDueDate.Some?
    then Some(t.dueDate.value - t.reminderOffsetMillisBeforeDueDate.value)
    else None
  }

  /** The offset's documented meaning, read against the instant it yields. */
  lemma ReminderSettingMeaning(t: TaskRow)
    requires t.dueDate.Some?
    ensures match ReminderSettingOf(t.reminderOffsetMillisBeforeDueDate)
            case NoReminder => ReminderInstant(t).None?
            case OnTime => ReminderInstant(t) == t.dueDate
            case BeforeDue(m) => ReminderInstant(t) == Some(t.dueDate.value - m) && ReminderInstant(t).value < t.dueDate.value
            case AfterDue(m) => ReminderInstant(t) == Some(t.dueDate.value + m) && ReminderInstant(t).value > t.dueDate.value
  {
  }

  // ------------------------------------------------------- the Task object

  /** The mutable Task record; `Row()` is the value its fields hold. */
  class Task {
    var taskId: string
    var projectId: Option<string>
    var title: string
    var description: Option<string>
    var assigneeUserId: Option<string>
    var creatorUserId: string
    var dueDate: Option<int>
    var priority: int
    var status: string
    var isRecurring: bool
    var recurrenceRule: Option<string>
    var parentTaskId: Option<string>
    var createdAt: int
    var updatedAt: int
    var completedAt: Option<int>
    var reminderOffsetMillisBeforeDueDate: Option<int>
    var timeSpentMillis: int
    var timeTrackingStartTimeMillis: Option<int>

    function Row(): TaskRow
      reads this
    {
      TaskRow(taskId, projectId, title, description, assigneeUserId, creatorUserId, dueDate,
              priority, status, isRecurring, recurrenceRule, parentTaskId, createdAt, updatedAt,
              completedAt, reminderOffsetMillisBeforeDueDate, timeSpentMillis,
              timeTrackingStartTimeMillis)
    }

    /** `new Task(title, creatorUserId)`; the UUID and the clock are parameters. */
    constructor (id: string, title: string, creatorUserId: string, now: int)
      ensures Row() == NewTaskRow(id, title, creatorUserId, now)
    {
      this.taskId := id;
      this.projectId := None;
      this.title := title;
      this.description := None;
      this.assigneeUserId := None;
      this.creatorUserId := creatorUserId;
      this.dueDate := None;
      this.priority := DEFAULT_PRIORITY;
      this.status := DEFAULT_STATUS;
      this.isRecurring := false;
      this.recurrenceRule := None;
      this.parentTaskId := None;
      this.createdAt := now;
      this.updatedAt := now;
      this.completedAt := None;
      this.reminderOffsetMillisBeforeDueDate := None;
      this.timeSpentMillis := 0;
      this.timeTrackingStartTimeMillis := None;
    }

    /** `new Task(other)`: a field-wise copy. */
    constructor Copy(other: Task)
      ensures Row() == other.Row()
    {
      this.taskId := other.taskId;
      this.projectId := other.projectId;
      this.title := other.title;
      this.description := other.description;
      this.assigneeUserId := other.assigneeUserId;
      this.creatorUserId := other.creatorUserId;
      this.dueDate := other.dueDate;
      this.priority := other.priority;
      this.status := other.status;
      this.isRecurring := other.isRecurring;
      this.recurrenceRule := other.recurrenceRule;
      this.parentTaskId := other.parentTaskId;
      this.createdAt := other.createdAt;
      this.updatedAt := other.updatedAt;
      this.completedAt := other.completedAt;
      this.reminderOffsetMillisBeforeDueDate := other.reminderOffsetMillisBeforeDueDate;
      this.timeSpentMillis := other.timeSpentMillis;
      this.timeTrackingStartTimeMillis := other.timeTrackingStartTimeMillis;
    }

    method SetTaskId(v: string)
      modifies this
      ensures Row() == old(Row()).(taskId := v)
    { taskId := v; }

    method SetProjectId(v: Option<string>)
      modifies this
      ensures Row() == old(Row()).(projectId := v)
    { projectId := v; }

    method SetTitle(v: string)
      modifies this
      ensures Row() == old(Row()).(title := v)
    { title := v; }

    method SetDescription(v: Option<string>)
      modifies this
      ensures Row() == old(Row()).(description := v)
    { description := v; }

    method SetAssigneeUserId(v: Option<string>)
      modifies this
      ensures Row() == old(Row()).(assigneeUserId := v)
    { assigneeUserId := v; }

    method SetCreatorUserId(v: string)
      modifies this
      ensures Row() == old(Row()).(creatorUserId := v)
    { creatorUserId := v; }

    method SetDueDate(v: Option<int>)
      modifies this
      ensures Row() == old(Row()).(dueDate := v)
    { dueDate := v; }

    method SetPriority(v: int)
      modifies this
      ensures Row() == old(Row()).(priority := v)
    { priority := v; }

    method SetStatus(v: string)
      modifies this
      ensures Row() == old(Row()).(status := v)
    { status := v; }

    method SetRecurring(v: bool)
      modifies this
      ensures Row() == old(Row()).(isRecurring := v)
    { isRecurring := v; }

    method SetRecurrenceRule(v: Option<string>)
      modifies this
      ensures Row() == old(Row()).(recurrenceRule := v)
    { recurrenceRule := v; }

    method SetParentTaskId(v: Option<string>)
      modifies this
      ensures Row() == old(Row()).(parentTaskId := v)
    { parentTaskId := v; }

    method SetCreatedAt(v: int)
      modifies this
      ensures Row() == old(Row()).(createdAt := v)
    { createdAt := v; }

    method SetUpdatedAt(v: int)
      modifies this
      ensures Row() == old(Row()).(updatedAt := v)
    { updatedAt := v; }

    method SetCompletedAt(v: Option<int>)
      modifies this
      ensures Row() == old(Row()).(completedAt := v)
    { completedAt := v; }

    method SetReminderOffsetMillisBeforeDueDate(v: Option<int>)
      modifies this
      ensures Row() == old(Row()).(reminderOffsetMillisBeforeDueDate := v)
    { reminderOffsetMillisBeforeDueDate := v; }

    method SetTimeSpentMillis(v: int)
      modifies this
      ensures Row() == old(Row()).(timeSpentMillis := v)
    { timeSpentMillis := v; }

    method SetTimeTrackingStartTimeMillis(v: Option<int>)
      modifies this
      ensures Row() == old(Row()).(timeTrackingStartTimeMillis := v)
    { timeTrackingStartTimeMillis := v; }
  }

  /** The rows a list of Task objects hold. */
  function RowsOf(ts: seq<Task>): (r: seq<TaskRow>)
    reads set t | t in ts
    ensures |r| == |ts|
    ensures forall i :: 0 <= i < |ts| ==> r[i] == ts[i].Row()
  {
    if ts == [] then [] else [ts[0].Row()] + RowsOf(ts[1..])
  }

  // ------------------------------------------------- ON DELETE SET_NULL

  /** Deleting project `p` sets `project_id` to NULL on its tasks. */
  function OnProjectDeleted(rows: seq<TaskRow>, p: string): (r: seq<TaskRow>)
    ensures |r| == |rows|
    ensures forall i :: 0 <= i < |r| ==> r[i] == rows[i].(projectId := r[i].projectId)
    ensures forall i :: 0 <= i < |r| ==> r[i].projectId != Some(p)
    ensures forall i :: 0 <= i < |r| && rows[i].projectId != Some(p) ==> r[i] == rows[i]
  {
    if rows == [] then []
    else
      [if rows[0].projectId == Some(p) then rows[0].(projectId := None) else rows[0]]
      + OnProjectDeleted(rows[1..], p)
  }

  /** Deleting user `u` sets `assignee_user_id` to NULL on the tasks assigned to them. */
  function OnUserDeleted(rows: seq<TaskRow>, u: string): (r: seq<TaskRow>)
    ensures |r| == |rows|
    ensures forall i :: 0 <= i < |r| ==> r[i] == rows[i].(assigneeUserId := r[i].assigneeUserId)
    ensures forall i :: 0 <= i < |r| ==> r[i].assigneeUserId != Some(u)
    ensures forall i :: 0 <= i < |r| && rows[i].assigneeUserId != Some(u) ==> r[i] == rows[i]
  {
    if rows == [] then []
    else
      [if rows[0].assigneeUserId == Some(u) then rows[0].(assigneeUserId := None) else rows[0]]
      + OnUserDeleted(rows[1..], u)
  }

  // -------------------------------------------------- ON DELETE CASCADE

  /** The parent of `t` is one of `ids`. */
  predicate ChildOf(t: TaskRow, ids: set<string>) {
    t.parentTaskId.Some? && t.parentTaskId.value in ids
  }

  function NotDoomed(doomed: set<string>): TaskRow -> bool {
    (t: TaskRow) => t.taskId !in doomed
  }

  /** The rows left once the tasks whose ids are in `doomed` are deleted. */
  function Kept(rows: seq<TaskRow>, doomed: set<string>): seq<TaskRow> {
    Filter(rows, NotDoomed(doomed))
  }

  lemma {:induction false} FilterShrinks<T(!new)>(s: seq<T>, p: T -> bool, x: T)
    requires x in s && !p(x)
    ensures |Filter(s, p)| < |s|
  {
    if s[0] != x {
      FilterShrinks(s[1..], p, x);
    }
  }

  /** A round of deletion that removes no row found no row to remove. */
  lemma NothingKeptOut(rows: seq<TaskRow>, doomed: set<string>)
    ensures |Kept(rows, doomed)| == |rows| ==> forall t :: t in rows ==> t.taskId !in doomed
  {
    if t :| t in rows && t.taskId in doomed {
      FilterShrinks(rows, NotDoomed(doomed), t);
    }
  }

  /**
   * Deleting the tasks whose ids are in `doomed`, and then, as
   * `parent_task_id ... ON DELETE CASCADE` does, the children of every
   * deleted task, round after round, until a round deletes nothing.
   */
  function DeleteCascade(rows: seq<TaskRow>, doomed: set<string>): (r: seq<TaskRow>)
    ensures forall t :: multiset(r)[t] <= multiset(rows)[t]
    ensures forall t :: t in r ==> t in rows && t.taskId !in doomed
    decreases |rows|
  {
    var kept := Kept(rows, doomed);
    NothingKeptOut(rows, doomed);
    FilterMultiset(rows, NotDoomed(doomed));
    if |kept| == |rows| then rows
    else
      var removed := set t | t in rows && t.taskId in doomed :: t.taskId;
      DeleteCascade(kept, set t | t in kept && ChildOf(t, removed) :: t.taskId)
  }

  /** No surviving task has a parent that was deleted. */
  lemma {:induction false} CascadeLeavesNoOrphans(rows: seq<TaskRow>, doomed: set<string>, t: TaskRow, u: TaskRow)
    requires t in DeleteCascade(rows, doomed)
    requires u in rows && u !in DeleteCascade(rows, doomed)
    ensures t.parentTaskId != Some(u.taskId)
    decreases |rows|
  {
    var kept := Kept(rows, doomed);
    NothingKeptOut(rows, doomed);
    if |kept| != |rows| {
      var removed := set t | t in rows && t.taskId in doomed :: t.taskId;
      var next := set t | t in kept && ChildOf(t, removed) :: t.taskId;
      assert DeleteCascade(rows, doomed) == DeleteCascade(kept, next);
      assert t in kept;
      if u in kept {
        CascadeLeavesNoOrphans(kept, next, t, u);
      }
    }
  }

  /** A task of the second round was a child of a task the first round deleted. */
  lemma NextRoundChild(rows: seq<TaskRow>, doomed: set<string>, u: TaskRow)
    requires UniqueKeys(Kept(rows, doomed), TaskKey)
    requires u in Kept(rows, doomed)
    requires u.taskId in set t | t in Kept(rows, doomed) && ChildOf(t, set t | t in rows && t.taskId in doomed :: t.taskId) :: t.taskId
    ensures exists w :: w in rows && w.taskId in doomed && u.parentTaskId == Some(w.taskId)
  {
    var kept := Kept(rows, doomed);
    var removed := set t | t in rows && t.taskId in doomed :: t.taskId;
    var c :| c in kept && ChildOf(c, removed) && c.taskId == u.taskId;
    var i :| 0 <= i < |kept| && kept[i] == c;
    var j :| 0 <= j < |kept| && kept[j] == u;
    assert i == j;
  }

  /**
   * A task is deleted only if it was asked for or its parent was deleted:
   * the cascade deletes nothing else.
   */
  lemma {:induction false} CascadeDeletesOnlyDescendants(rows: seq<TaskRow>, doomed: set<string>, u: TaskRow)
    requires UniqueKeys(rows, TaskKey)
    requires u in rows && u !in DeleteCascade(rows, doomed)
    ensures || u.taskId in doomed
            || exists w :: w in rows && w !in DeleteCascade(rows, doomed) && u.parentTaskId == Some(w.taskId)
    decreases |rows|
  {
    var kept := Kept(rows, doomed);
    NothingKeptOut(rows, doomed);
    var r := DeleteCascade(rows, doomed);
    if u.taskId !in doomed {
      assert u in kept;
      var removed := set t | t in rows && t.taskId in doomed :: t.taskId;
      var next := set t | t in kept && ChildOf(t, removed) :: t.taskId;
      assert r == DeleteCascade(kept, next);
      FilterUnique(rows, NotDoomed(doomed), TaskKey);
      CascadeDeletesOnlyDescendants(kept, next, u);
      if u.taskId in next {
        NextRoundChild(rows, doomed, u);
      } else {
        var w :| w in kept && w !in r && u.parentTaskId == Some(w.taskId);
        assert w in rows;
      }
    }
  }

  /** The cascade keeps the table's primary key unique. */
  lemma {:induction false} CascadeUnique(rows: seq<TaskRow>, doomed: set<string>)
    requires UniqueKeys(rows, TaskKey)
    ensures UniqueKeys(DeleteCascade(rows, doomed), TaskKey)
    decreases |rows|
  {
    var kept := Kept(rows, doomed);
    FilterUnique(rows, NotDoomed(doomed), TaskKey);
    if |kept| != |rows| {
      var removed := set t | t in rows && t.taskId in doomed :: t.taskId;
      CascadeUnique(kept, set t | t in kept && ChildOf(t, removed) :: t.taskId);
    }
  }
}
