/**
 * TaskViewModel: the task screen's rules. Writes go straight to the DAOs
 * (the repository's single-thread executor is not modelled), the clock is
 * the parameter `now`, UUIDs are parameters, and the LiveData sources are
 * plain values. Assignment notifications are collected in `notices`.
 */
module Tasks {
  import opened Wrappers
  import opened Tables
  import opened Entities
  import opened TaskEntity
  import opened CommentTable
  import opened TaskTable
  import opened ProjectTable
  import opened CurrentUser
  import opened Reminders

  const DEFAULT_REMINDER_CONTENT := "Не забудьте о вашей задаче!"

  /** `stringEquals`: equality of two nullable strings. */
  function StringEquals(a: Option<string>, b: Option<string>): (r: bool)
    ensures r <==> a == b
  {
    match a
    case None => b.None?
    case Some(x) => b.Some? && x == b.value
  }

  /** The text a reminder shows: the description, unless it is null or empty. */
  function ReminderContent(description: Option<string>): (c: string)
    ensures description.Some? && description.value != "" ==> c == description.value
    ensures description.None? || description.value == "" ==> c == DEFAULT_REMINDER_CONTENT
    ensures c != ""
  {
    if description.Some? && description.value != "" then description.value else DEFAULT_REMINDER_CONTENT
  }

  /** What `scheduleOrCancelReminder` enqueues after cancelling, if anything. */
  datatype ReminderPlan = NoJob | ScheduleJob(delayMillis: int, content: string)

  function PlanReminder(t: TaskRow, now: int): (p: ReminderPlan)
    ensures p.ScheduleJob? <==>
              t.dueDate.Some? && t.reminderOffsetMillisBeforeDueDate.Some? &&
              t.dueDate.value - t.reminderOffsetMillisBeforeDueDate.value > now
    ensures p.ScheduleJob? ==>
              && p.delayMillis == t.dueDate.value - t.reminderOffsetMillisBeforeDueDate.value - now
              && p.delayMillis > 0
              && p.content == ReminderContent(t.description)
  {
    match ReminderInstant(t)
    case None => NoJob
    case Some(at) => if at > now then ScheduleJob(at - now, ReminderContent(t.description)) else NoJob
  }

  /** The jobs a planned reminder adds. */
  function PlannedJobs(t: TaskRow, now: int): (js: seq<Job>)
    ensures forall j :: j in js ==> j.tag == ReminderTag(t.taskId)
    ensures |js| <= 1
  {
    match PlanReminder(t, now)
    case NoJob => []
    case ScheduleJob(delay, content) =>
      [Job(ReminderTag(t.taskId), delay, ReminderInput(t.taskId, Some(t.title), Some(content)))]
  }

  /** After an insert or update the task has the planned reminder and no other. */
  lemma AtMostOneReminderPerTask(jobs: seq<Job>, t: TaskRow, now: int)
    ensures Filter(WithoutTag(jobs, ReminderTag(t.taskId)) + PlannedJobs(t, now), HasTag(ReminderTag(t.taskId)))
            == PlannedJobs(t, now)
  {
    CancelThenEnqueue(jobs, ReminderTag(t.taskId), PlannedJobs(t, now));
  }

  /** A reminder job, once it runs, shows the task's id, title and reminder text. */
  lemma PlannedReminderShowsTask(t: TaskRow, now: int)
    requires PlanReminder(t, now).ScheduleJob?
    ensures DoWork(PlannedJobs(t, now)[0].input).shown ==
              [Notification(t.taskId, t.title, ReminderContent(t.description))]
  {
    ScheduledInputRoundTrip(t.taskId, Some(t.title), Some(ReminderContent(t.description)));
  }

  /** The row `startTrackingTime` writes at `now`: the session starts, nothing else but the edit time changes. */
  function StartedRow(t: TaskRow, now: int): (r: TaskRow)
    ensures r.timeTrackingStartTimeMillis == Some(now) && r.updatedAt == now && r.timeSpentMillis == t.timeSpentMillis
    ensures r.(timeTrackingStartTimeMillis := t.timeTrackingStartTimeMillis, updatedAt := t.updatedAt) == t
  {
    t.(timeTrackingStartTimeMillis := Some(now), updatedAt := now)
  }

  /** The row `stopTrackingTime` writes at `now`, or `None` when no session is running. */
  function StoppedRow(t: TaskRow, now: int): (r: Option<TaskRow>)
    ensures r.None? <==> t.timeTrackingStartTimeMillis.None?
    ensures r.Some? ==>
              && r.value.timeSpentMillis == t.timeSpentMillis + (now - t.timeTrackingStartTimeMillis.value)
              && r.value.timeTrackingStartTimeMillis.None?
              && r.value.updatedAt == now
              && r.value.(timeSpentMillis := t.timeSpentMillis, timeTrackingStartTimeMillis := t.timeTrackingStartTimeMillis, updatedAt := t.updatedAt) == t
  {
    match t.timeTrackingStartTimeMillis
    case None => None
    case Some(start) =>
      Some(t.(timeSpentMillis := t.timeSpentMillis + (now - start), timeTrackingStartTimeMillis := None, updatedAt := now))
  }

  /** A session started at `t0` and stopped at `t1` adds `t1 - t0` to the time spent, and nothing else. */
  lemma StopAfterStart(t: TaskRow, t0: int, t1: int)
    ensures StoppedRow(StartedRow(t, t0), t1) ==
              Some(t.(timeSpentMillis := t.timeSpentMillis + (t1 - t0), timeTrackingStartTimeMillis := None, updatedAt := t1))
  {
  }

  /** Two sessions add up: tracking is additive over consecutive start/stop pairs. */
  lemma TwoSessionsAdd(t: TaskRow, a0: int, a1: int, b0: int, b1: int)
    ensures StoppedRow(StartedRow(StoppedRow(StartedRow(t, a0), a1).value, b0), b1).value.timeSpentMillis ==
              t.timeSpentMillis + (a1 - a0) + (b1 - b0)
  {
    StopAfterStart(t, a0, a1);
    StopAfterStart(StoppedRow(StartedRow(t, a0), a1).value, b0, b1);
  }

  // ------------------------------------------------- legacy project names

  /** The renamed project for one of the three legacy sample names, else `None`. */
  function LegacyRename(p: Project): (r: Option<Project>)
    ensures r.Some? <==> p.name in {"Дом Гамма", "Личный проект Альфа", "Работа Бета"}
    ensures r.Some? ==>
              && r.value.projectId == p.projectId && r.value.ownerUserId == p.ownerUserId
              && r.value.createdAt == p.createdAt && r.value.updatedAt == p.updatedAt
              && r.value.name in {"Дім", "Особистий проект", "Робота"}
              && r.value.description.Some? && r.value.colorHex.Some?
  {
    if p.name == "Дом Гамма" then
      Some(p.(name := "Дім", description := Some("Домашні справи та сімейні плани"), colorHex := Some("#4CAF50")))
    else if p.name == "Личный проект Альфа" then
      Some(p.(name := "Особистий проект", description := Some("Особисті справи та хобі"), colorHex := Some("#FF5722")))
    else if p.name == "Работа Бета" then
      Some(p.(name := "Робота", description := Some("Робочі завдання та проекти"), colorHex := Some("#2196F3")))
    else None
  }

  /** A project as the rename leaves it. */
  function Renamed(p: Project): Project {
    LegacyRename(p).GetOr(p)
  }

  /** Renaming is idempotent: a renamed project is not renamed again. */
  lemma LegacyRenameOnce(p: Project)
    requires LegacyRename(p).Some?
    ensures LegacyRename(LegacyRename(p).value).None?
  {
  }

  /** The renamed projects of a list, in list order: what the rename writes. */
  function RenamedProjects(ps: seq<Project>): (r: seq<Project>)
    ensures forall q :: q in r ==> exists p :: p in ps && LegacyRename(p) == Some(q)
    decreases |ps|
  {
    if ps == [] then []
    else
      var last := ps[|ps| - 1];
      assert forall p :: p in ps[..|ps| - 1] ==> p in ps;
      RenamedProjects(ps[..|ps| - 1]) + (match LegacyRename(last) case Some(q) => [q] case None => [])
  }

  /** The observed list after the loop: every project under its current name. */
  function RenamedList(ps: seq<Project>): (r: seq<Project>)
    ensures |r| == |ps|
    ensures forall i :: 0 <= i < |ps| ==> r[i] == Renamed(ps[i])
  {
    if ps == [] then [] else RenamedList(ps[..|ps| - 1]) + [Renamed(ps[|ps| - 1])]
  }

  lemma RenamedProjectsSnoc(ps: seq<Project>, i: nat)
    requires i < |ps|
    ensures RenamedProjects(ps[..i + 1]) ==
              RenamedProjects(ps[..i]) + (match LegacyRename(ps[i]) case Some(q) => [q] case None => [])
    ensures RenamedList(ps[..i + 1]) == RenamedList(ps[..i]) + [Renamed(ps[i])]
  {
    assert ps[..i + 1][..i] == ps[..i];
  }

  /** A project whose id no legacy-named project shares is not written by the rename. */
  lemma RenameWritesOnlyLegacy(rows: seq<Project>, ps: seq<Project>, i: nat)
    requires i < |rows|
    requires forall p :: p in ps && p.projectId == rows[i].projectId ==> LegacyRename(p).None?
    ensures ReplaceAll(rows, RenamedProjects(ps), ProjectKey)[i] == rows[i]
  {
    forall q | q in RenamedProjects(ps) ensures ProjectKey(q) != ProjectKey(rows[i]) {
      var p :| p in ps && LegacyRename(p) == Some(q);
    }
  }

  // --------------------------------------------------------- sort modes

  datatype SortMode = ByDueDate | ByPriority | AssignedToMe

  /** The LiveData sources the mediator can follow. */
  datatype Source = DueDateSource | PrioritySource | AssignedToMeSource

  function SourceFor(m: SortMode): Source {
    match m
    case ByDueDate => DueDateSource
    case ByPriority => PrioritySource
    case AssignedToMe => AssignedToMeSource
  }

  /** An assignment notification as `notifyTaskAssigned` is asked to post it. */
  datatype AssignmentNotice = AssignmentNotice(task: TaskRow, assigneeId: string)

  /**
   * The notification `checkAndNotifyAssignment` posts for a task: one to a
   * non-empty assignee who is neither the signed-in user nor the creator.
   */
  function NoticesFor(t: TaskRow, me: Option<string>): (r: seq<AssignmentNotice>)
    ensures |r| <= 1
    ensures forall n :: n in r ==>
              n.task == t && Some(n.assigneeId) == t.assigneeUserId && n.assigneeId != ""
              && Some(n.assigneeId) != me && n.assigneeId != t.creatorUserId
    ensures r == [] <==>
              t.assigneeUserId.None? || t.assigneeUserId.value == "" || t.assigneeUserId == me
              || t.assigneeUserId.value == t.creatorUserId
  {
    var a := t.assigneeUserId;
    if a.Some? && a.value != "" && a != me && a.value != t.creatorUserId then [AssignmentNotice(t, a.value)] else []
  }

  class TaskViewModel {
    const tasks: TaskDao
    const comments: TaskCommentDao
    const projects: ProjectDao
    const work: WorkManager
    const users: CurrentUserManager
    /** The user whose active tasks `tasksAssignedToMe` follows, fixed at construction. */
    const assignedUserId: Option<string>

    var notices: seq<AssignmentNotice>
    var currentSortMode: SortMode
    var sources: set<Source>
    /** `allTasksMediator.getValue()`; `None` stands for null. */
    var mediatorValue: Option<seq<TaskRow>>

    ghost predicate Valid()
      reads this, tasks, comments, projects
    {
      tasks.Valid() && comments.Valid() && projects.Valid()
    }

    constructor (tasks: TaskDao, comments: TaskCommentDao, projects: ProjectDao, work: WorkManager, users: CurrentUserManager)
      ensures this.tasks == tasks && this.comments == comments && this.projects == projects
      ensures this.work == work && this.users == users
      ensures assignedUserId == users.GetCurrentUserId()
      ensures notices == [] && currentSortMode == ByDueDate
      ensures sources == {DueDateSource} && mediatorValue.None?
    {
      this.tasks := tasks;
      this.comments := comments;
      this.projects := projects;
      this.work := work;
      this.users := users;
      this.assignedUserId := users.GetCurrentUserId();
      notices := [];
      currentSortMode := ByDueDate;
      sources := {};
      mediatorValue := None;
      new;
      SetSortMode(ByDueDate);
    }

    /**
     * `setSortMode`: unless the mode is unchanged and the list already has
     * a value, follow exactly the source of the new mode.
     */
    method SetSortMode(mode: SortMode)
      modifies this
      ensures old(currentSortMode) == mode && old(mediatorValue).Some? ==>
                currentSortMode == old(currentSortMode) && sources == old(sources)
      ensures !(old(currentSortMode) == mode && old(mediatorValue).Some?) ==>
                currentSortMode == mode && sources == {SourceFor(mode)}
      ensures mediatorValue == old(mediatorValue) && notices == old(notices)
    {
      if currentSortMode == mode && mediatorValue.Some? {
        return;
      }
      currentSortMode := mode;
      // removeSource of all three sources, then addSource of the mode's one
      sources := {SourceFor(mode)};
    }

    /**
     * The current value of a source. The list of tasks assigned to nobody
     * (no user was signed in at construction) is an empty MediatorLiveData
     * that never has a value.
     */
    function SourceValue(s: Source): Option<seq<TaskRow>>
      reads this, tasks
    {
      match s
      case DueDateSource => Some(tasks.GetAllTasksSortedByDueDate())
      case PrioritySource => Some(tasks.GetAllTasksSortedByPriority())
      case AssignedToMeSource =>
        if assignedUserId.Some? then Some(tasks.GetActiveTasksForUser(assignedUserId.value)) else None
    }

    /** A source emits its value; the mediator forwards it only if it follows that source. */
    method Deliver(s: Source)
      modifies this
      ensures s in sources && SourceValue(s).Some? ==> mediatorValue == SourceValue(s)
      ensures !(s in sources && SourceValue(s).Some?) ==> mediatorValue == old(mediatorValue)
      ensures sources == old(sources) && currentSortMode == old(currentSortMode) && notices == old(notices)
    {
      var v := SourceValue(s);
      if s in sources && v.Some? {
        mediatorValue := v;
      }
    }

    /** `checkAndNotifyAssignment`. */
    method CheckAndNotifyAssignment(t: TaskRow)
      modifies this
      ensures notices == old(notices) + NoticesFor(t, users.GetCurrentUserId())
      ensures currentSortMode == old(currentSortMode) && sources == old(sources) && mediatorValue == old(mediatorValue)
    {
      var a := t.assigneeUserId;
      var me := users.GetCurrentUserId();
      if a.Some? && a.value != "" && !(me.Some? && a.value == me.value) && a.value != t.creatorUserId {
        notices := notices + [AssignmentNotice(t, a.value)];
      }
    }

    /** `scheduleOrCancelReminder(task, false)`: cancel the tag, then enqueue the planned job. */
    method RescheduleReminder(t: TaskRow, now: int)
      modifies work
      ensures work.jobs == WithoutTag(old(work.jobs), ReminderTag(t.taskId)) + PlannedJobs(t, now)
    {
      CancelReminder(work, t.taskId);
      var plan := PlanReminder(t, now);
      if plan.ScheduleJob? {
        ScheduleReminder(work, plan.delayMillis, t.taskId, Some(t.title), Some(plan.content));
      }
    }

    /**
     * `insert`: store (the REPLACE deletes a task stored under the same id,
     * with its subtasks and their comments), reschedule the reminder, maybe
     * notify the assignee.
     */
    method Insert(task: Task, now: int)
      requires Valid()
      modifies this, tasks, comments, work
      ensures Valid()
      ensures tasks.rows == InsertOrReplace(old(tasks.rows), old(task.Row()))
      ensures comments.rows == CommentsAfterInsert(old(tasks.rows), old(comments.rows), task.taskId)
      ensures work.jobs == WithoutTag(old(work.jobs), ReminderTag(task.taskId)) + PlannedJobs(old(task.Row()), now)
      ensures notices == old(notices) + NoticesFor(old(task.Row()), users.GetCurrentUserId())
      ensures currentSortMode == old(currentSortMode) && sources == old(sources) && mediatorValue == old(mediatorValue)
    {
      tasks.InsertTask(task, comments);
      RescheduleReminder(task.Row(), now);
      CheckAndNotifyAssignment(task.Row());
    }

    /**
     * `update`. `stored` is the value `getTaskById(...).getValue()` yields;
     * the assignee is notified only if a stored row exists and its assignee
     * differs.
     */
    method Update(task: Task, stored: Option<TaskRow>, now: int)
      requires Valid()
      modifies this, tasks, work
      ensures Valid()
      ensures tasks.rows == Replace(old(tasks.rows), old(task.Row()), TaskKey)
      ensures work.jobs == WithoutTag(old(work.jobs), ReminderTag(task.taskId)) + PlannedJobs(old(task.Row()), now)
      ensures notices == old(notices) +
                if stored.Some? && stored.value.assigneeUserId != old(task.assigneeUserId)
                then NoticesFor(old(task.Row()), users.GetCurrentUserId()) else []
      ensures currentSortMode == old(currentSortMode) && sources == old(sources) && mediatorValue == old(mediatorValue)
    {
      ghost var sent := if stored.Some? && stored.value.assigneeUserId != task.assigneeUserId
                        then NoticesFor(task.Row(), users.GetCurrentUserId()) else [];
      if stored.Some? && !StringEquals(stored.value.assigneeUserId, task.assigneeUserId) {
        CheckAndNotifyAssignment(task.Row());
      } else {
        assert notices == old(notices) + sent;
      }
      ghost var posted := notices;
      tasks.UpdateTask(task);
      RescheduleReminder(task.Row(), now);
      assert notices == posted;
    }

    /** `delete`: remove the task (and what cascades from it) and cancel its reminders. */
    method Delete(task: Task)
      requires Valid()
      modifies tasks, comments, work
      ensures Valid()
      ensures tasks.rows == DeleteCascade(old(tasks.rows), {task.taskId})
      ensures comments.rows == OnTasksDeleted(old(comments.rows), DeletedIds(old(tasks.rows), tasks.rows))
      ensures work.jobs == WithoutTag(old(work.jobs), ReminderTag(task.taskId))
    {
      tasks.DeleteTask(task, comments);
      CancelReminder(work, task.taskId);
    }

    /** `deleteAllTasks`: empties the table and, as written, cancels no reminder. */
    method DeleteAllTasks()
      requires Valid()
      modifies tasks, comments
      ensures Valid()
      ensures tasks.rows == []
      ensures comments.rows == OnTasksDeleted(old(comments.rows), DeletedIds(old(tasks.rows), []))
    {
      tasks.DeleteAllTasks(comments);
    }

    /** `startTrackingTime`: writes a copy of the task with the session started at `now`. */
    method StartTrackingTime(task: Task?, stored: Option<TaskRow>, now: int)
      requires Valid()
      modifies this, tasks, work
      ensures Valid()
      ensures task == null ==> tasks.rows == old(tasks.rows) && work.jobs == old(work.jobs) && notices == old(notices)
      ensures task != null ==> tasks.rows == Replace(old(tasks.rows), StartedRow(old(task.Row()), now), TaskKey)
      ensures task != null ==>
                work.jobs == WithoutTag(old(work.jobs), ReminderTag(task.taskId)) + PlannedJobs(StartedRow(old(task.Row()), now), now)
      ensures task != null ==>
                notices == old(notices) +
                  if stored.Some? && stored.value.assigneeUserId != old(task.assigneeUserId)
                  then NoticesFor(StartedRow(old(task.Row()), now), users.GetCurrentUserId()) else []
      ensures task != null ==> task.Row() == old(task.Row())
      ensures currentSortMode == old(currentSortMode) && sources == old(sources) && mediatorValue == old(mediatorValue)
    {
      if task != null {
        var copy := new Task.Copy(task);
        copy.SetTimeTrackingStartTimeMillis(Some(now));
        copy.SetUpdatedAt(now);
        Update(copy, stored, now);
      }
    }

    /** `stopTrackingTime`: writes a copy with the session added to the time spent. */
    method StopTrackingTime(task: Task?, stored: Option<TaskRow>, now: int)
      requires Valid()
      modifies this, tasks, work
      ensures Valid()
      ensures task == null || StoppedRow(old(task.Row()), now).None? ==>
                tasks.rows == old(tasks.rows) && work.jobs == old(work.jobs) && notices == old(notices)
      ensures task != null && StoppedRow(old(task.Row()), now).Some? ==>
                tasks.rows == Replace(old(tasks.rows), StoppedRow(old(task.Row()), now).value, TaskKey)
      ensures task != null && StoppedRow(old(task.Row()), now).Some? ==>
                work.jobs == WithoutTag(old(work.jobs), ReminderTag(task.taskId))
                             + PlannedJobs(StoppedRow(old(task.Row()), now).value, now)
      ensures task != null && StoppedRow(old(task.Row()), now).Some? ==>
                notices == old(notices) +
                  if stored.Some? && stored.value.assigneeUserId != old(task.assigneeUserId)
                  then NoticesFor(StoppedRow(old(task.Row()), now).value, users.GetCurrentUserId()) else []
      ensures task != null ==> task.Row() == old(task.Row())
      ensures currentSortMode == old(currentSortMode) && sources == old(sources) && mediatorValue == old(mediatorValue)
    {
      if task != null && task.timeTrackingStartTimeMillis.Some? {
        var copy := new Task.Copy(task);
        var session := now - copy.timeTrackingStartTimeMillis.value;
        var previous := copy.timeSpentMillis;
        copy.SetTimeSpentMillis(previous + session);
        copy.SetTimeTrackingStartTimeMillis(None);
        copy.SetUpdatedAt(now);
        assert copy.Row() == StoppedRow(task.Row(), now).value;
        Update(copy, stored, now);
      }
    }

    /** `addComment`: a new comment by the current user; nothing without one. */
    method AddComment(taskId: string, text: string, commentId: string, now: int)
      requires Valid()
      modifies comments
      ensures Valid()
      ensures users.currentUser.None? ==> comments.rows == old(comments.rows)
      ensures users.currentUser.Some? ==>
                comments.rows == Upsert(old(comments.rows),
                                        TaskComment(commentId, taskId, users.currentUser.value.userId, text, now, Some(now)),
                                        CommentKey)
    {
      var me := users.GetCurrentUser();
      if me.Some? {
        comments.Insert(TaskComment(commentId, taskId, me.value.userId, text, now, Some(now)));
      }
    }

    /** `updateComment`: stamps the comment as edited at `now` and writes it. */
    method UpdateComment(comment: TaskComment, now: int) returns (edited: TaskComment)
      requires Valid()
      modifies comments
      ensures Valid()
      ensures edited == comment.(updatedAt := Some(now))
      ensures comments.rows == Replace(old(comments.rows), edited, CommentKey)
    {
      edited := comment.(updatedAt := Some(now));
      comments.Update(edited);
    }

    method DeleteComment(comment: TaskComment)
      requires Valid()
      modifies comments
      ensures Valid()
      ensures comments.rows == RemoveKey(old(comments.rows), comment.commentId, CommentKey)
    {
      comments.Delete(comment);
    }

    method DeleteAllCommentsForTask(taskId: string)
      requires Valid()
      modifies comments
      ensures Valid()
      ensures forall c :: c in comments.rows <==> c in old(comments.rows) && c.taskId != taskId
    {
      comments.DeleteAllCommentsForTask(taskId);
    }

    /**
     * The loop of `updateProjectNamesToUkrainian` over the observed list:
     * each legacy-named project is renamed in the list and written back.
     */
    method UpdateProjectNamesToUkrainian(list: seq<Project>) returns (renamed: seq<Project>)
      requires Valid()
      modifies projects
      ensures Valid()
      ensures |renamed| == |list|
      ensures forall i :: 0 <= i < |list| ==> renamed[i] == Renamed(list[i])
      ensures projects.rows == ReplaceAll(old(projects.rows), RenamedProjects(list), ProjectKey)
    {
      ghost var start := projects.rows;
      ghost var written: seq<Project> := [];
      renamed := [];
      var i := 0;
      while i < |list|
        invariant 0 <= i <= |list|
        invariant Valid()
        invariant renamed == RenamedList(list[..i])
        invariant written == RenamedProjects(list[..i])
        invariant projects.rows == ReplaceAll(start, written, ProjectKey)
      {
        RenamedProjectsSnoc(list, i);
        var q, step := WriteBackRename(list[i], start, written);
        renamed := renamed + [q];
        written := written + step;
        i := i + 1;
      }
      assert list[..i] == list;
    }

    /** One step of that loop: a legacy-named project is written back under its new name. */
    method WriteBackRename(p: Project, ghost start: seq<Project>, ghost written: seq<Project>)
      returns (q: Project, ghost step: seq<Project>)
      requires Valid()
      requires projects.rows == ReplaceAll(start, written, ProjectKey)
      modifies projects
      ensures Valid()
      ensures q == Renamed(p)
      ensures step == match LegacyRename(p) case Some(q) => [q] case None => []
      ensures projects.rows == ReplaceAll(start, written + step, ProjectKey)
    {
      var r := LegacyRename(p);
      if r.Some? {
        ReplaceAllSnoc(start, written, r.value, ProjectKey);
        projects.UpdateProject(r.value);
        q, step := r.value, [r.value];
      } else {
        assert written + [] == written;
        q, step := p, [];
      }
    }
  }
}
