/**
 * TaskEditFragment: the mapping between a task's stored values and the
 * edit screen's text fields and spinner positions (each list spinner has a
 * "none" entry at position 0), the lists the project and assignee spinners
 * are filled from, and `saveTask`, which reads the screen back and writes
 * the task through the view model. The status value array is a resource
 * the model takes as a parameter; the chronometer widget is reduced to
 * whether it runs and the instant it counts from.
 */
module TaskEdit {
  import opened Wrappers
  import opened Tables
  import opened Entities
  import opened TaskEntity
  import opened TaskTable
  import opened TaskList
  import opened Tasks
  import opened CurrentUser
  import opened Reminders

  // ------------------------------------------------------------ trimming

  /** The characters Java's `String.trim` strips: code points up to U+0020. */
  predicate Blankish(c: char) { c as int <= 0x20 }

  function TrimStart(s: string): (r: string)
    ensures |r| <= |s|
    ensures r == [] || !Blankish(r[0])
  {
    if s != [] && Blankish(s[0]) then TrimStart(s[1..]) else s
  }

  function TrimEnd(s: string): (r: string)
    ensures |r| <= |s| && (r != [] ==> r[0] == s[0])
    ensures r == [] || !Blankish(r[|r| - 1])
  {
    if s != [] && Blankish(s[|s| - 1]) then TrimEnd(s[..|s| - 1]) else s
  }

  /** `String.trim`: `s` without its leading and trailing blanks. */
  function Trim(s: string): (r: string)
    ensures |r| <= |s|
    ensures r == [] || (!Blankish(r[0]) && !Blankish(r[|r| - 1]))
  {
    var t := TrimStart(s);
    var r := TrimEnd(t);
    assert r != [] ==> r[0] == t[0];
    r
  }

  /** A string with no blank at either end is its own trim; so trimming is idempotent. */
  lemma TrimKeepsTrimmed(s: string)
    requires s == [] || (!Blankish(s[0]) && !Blankish(s[|s| - 1]))
    ensures Trim(s) == s
    ensures Trim(Trim(s)) == Trim(s)
  {
    assert TrimStart(s) == s;
    assert TrimEnd(s) == s;
  }

  // ------------------------------------------------------- list positions

  /** The first index whose key is `k`. */
  function IndexOf<T, K(==)>(s: seq<T>, k: K, key: T -> K): (r: Option<nat>)
    ensures r.Some? ==> r.value < |s| && key(s[r.value]) == k && forall j :: 0 <= j < r.value ==> key(s[j]) != k
    ensures r.None? ==> forall j :: 0 <= j < |s| ==> key(s[j]) != k
  {
    if s == [] then None
    else if key(s[0]) == k then Some(0)
    else
      match IndexOf(s[1..], k, key)
      case None => None
      case Some(i) => Some(i + 1)
  }

  function Itself<T>(x: T): T { x }

  /** An entry of the reminder spinner. */
  datatype ReminderOption = ReminderOption(displayName: string, offsetMillis: Option<int>)

  function OffsetOf(o: ReminderOption): Option<int> { o.offsetMillis }

  const MINUTE := 60000
  const REMINDER_OPTIONS: seq<ReminderOption> := [
    ReminderOption("Не нагадувати", None),
    ReminderOption("В день події (о 09:00)", Some(0)),
    ReminderOption("За 15 хвилин", Some(15 * MINUTE)),
    ReminderOption("За 30 хвилин", Some(30 * MINUTE)),
    ReminderOption("За 1 годину", Some(60 * MINUTE)),
    ReminderOption("За 1 день", Some(24 * 60 * MINUTE))]

  predicate OfferedOffset(offset: Option<int>) {
    exists i :: 0 <= i < |REMINDER_OPTIONS| && REMINDER_OPTIONS[i].offsetMillis == offset
  }

  /** `selectReminderOptionInSpinner`: the first option with that offset, else "none". */
  function ReminderPosition(offset: Option<int>): (pos: nat)
    ensures pos < |REMINDER_OPTIONS|
  {
    match IndexOf(REMINDER_OPTIONS, offset, OffsetOf)
    case Some(i) => i
    case None => 0
  }

  /** `saveTask`'s reading of the reminder spinner. */
  function ReminderAt(pos: int): Option<int>
    requires pos < |REMINDER_OPTIONS|
  {
    if pos > 0 then REMINDER_OPTIONS[pos].offsetMillis else None
  }

  /** An offered offset survives a load and save; any other offset is saved as no reminder. */
  lemma ReminderRoundTrip(offset: Option<int>)
    ensures OfferedOffset(offset) ==> ReminderAt(ReminderPosition(offset)) == offset
    ensures !OfferedOffset(offset) ==> ReminderAt(ReminderPosition(offset)) == None
  {
    var r := IndexOf(REMINDER_OPTIONS, offset, OffsetOf);
    if OfferedOffset(offset) {
      var i :| 0 <= i < |REMINDER_OPTIONS| && REMINDER_OPTIONS[i].offsetMillis == offset;
      assert OffsetOf(REMINDER_OPTIONS[i]) == offset;
    }
  }

  /** Every spinner position survives a save and load: the six offsets are distinct. */
  lemma ReminderPositionRoundTrip(pos: int)
    requires 0 <= pos < |REMINDER_OPTIONS|
    ensures ReminderPosition(ReminderAt(pos)) == pos
  {
    var o := ReminderAt(pos);
    assert OffsetOf(REMINDER_OPTIONS[pos]) == o;
  }

  /** `selectProjectInSpinner`; `count` is the project spinner's entry count. */
  function ProjectPosition(projects: seq<Project>, count: int, projectId: Option<string>): nat {
    if projectId.None? || projectId.value == "" then 0
    else
      match IndexOf(projects, projectId.value, ProjectKey)
      case Some(i) => if i + 1 < count then i + 1 else 0
      case None => 0
  }

  /** `saveTask`'s reading of the project spinner. */
  function ProjectAt(projects: seq<Project>, pos: int): Option<string>
    requires pos <= |projects|
  {
    if pos > 0 then Some(projects[pos - 1].projectId) else None
  }

  /** A listed project survives a load and save; a blank or unlisted one is saved as no project. */
  lemma ProjectRoundTrip(projects: seq<Project>, projectId: Option<string>)
    ensures ProjectPosition(projects, |projects| + 1, projectId) <= |projects|
    ensures projectId.Some? && projectId.value != "" && (exists p :: p in projects && p.projectId == projectId.value) ==>
              ProjectAt(projects, ProjectPosition(projects, |projects| + 1, projectId)) == projectId
    ensures projectId.None? || projectId.value == "" || (forall p :: p in projects ==> p.projectId != projectId.value) ==>
              ProjectAt(projects, ProjectPosition(projects, |projects| + 1, projectId)) == None
  {
    if projectId.Some? && projectId.value != "" {
      if exists p :: p in projects && p.projectId == projectId.value {
        var p :| p in projects && p.projectId == projectId.value;
        var i :| 0 <= i < |projects| && projects[i] == p;
        assert ProjectKey(projects[i]) == projectId.value;
      } else {
        assert forall j :: 0 <= j < |projects| ==> ProjectKey(projects[j]) != projectId.value by {
          forall j | 0 <= j < |projects| ensures ProjectKey(projects[j]) != projectId.value {
            assert projects[j] in projects;
          }
        }
      }
    }
  }

  /** `selectAssigneeInSpinner`: "not assigned" for no list or no assignee, else the first match after the sentinel. */
  function AssigneePosition(users: seq<User>, assigneeId: Option<string>): nat {
    if users == [] || assigneeId.None? then 0
    else
      match IndexOf(users, assigneeId.value, UserKey)
      case Some(i) => i + 1
      case None => 0
  }

  /** `saveTask`'s reading of the assignee spinner. */
  function AssigneeAt(users: seq<User>, pos: int): Option<string>
    requires users != [] ==> pos <= |users|
  {
    if pos > 0 && users != [] then Some(users[pos - 1].userId) else None
  }

  /** A listed assignee survives a load and save; anyone else is saved as unassigned. */
  lemma AssigneeRoundTrip(users: seq<User>, assigneeId: Option<string>)
    ensures AssigneePosition(users, assigneeId) <= |users|
    ensures assigneeId.Some? && (exists u :: u in users && u.userId == assigneeId.value) ==>
              AssigneeAt(users, AssigneePosition(users, assigneeId)) == assigneeId
    ensures assigneeId.None? || (forall u :: u in users ==> u.userId != assigneeId.value) ==>
              AssigneeAt(users, AssigneePosition(users, assigneeId)) == None
  {
    if assigneeId.Some? {
      if exists u :: u in users && u.userId == assigneeId.value {
        var u :| u in users && u.userId == assigneeId.value;
        var i :| 0 <= i < |users| && users[i] == u;
        assert UserKey(users[i]) == assigneeId.value;
      } else {
        assert forall j :: 0 <= j < |users| ==> UserKey(users[j]) != assigneeId.value by {
          forall j | 0 <= j < |users| ensures UserKey(users[j]) != assigneeId.value {
            assert users[j] in users;
          }
        }
      }
    }
  }

  /** The status loop: the first matching value's position; with no match the selection stays. */
  function StatusPosition(statusValues: seq<string>, status: string, previous: int): int {
    match IndexOf(statusValues, status, Itself)
    case Some(i) => i
    case None => previous
  }

  lemma StatusRoundTrip(statusValues: seq<string>, status: string, previous: int)
    requires status in statusValues
    ensures 0 <= StatusPosition(statusValues, status, previous) < |statusValues|
    ensures statusValues[StatusPosition(statusValues, status, previous)] == status
  {
    var i :| 0 <= i < |statusValues| && statusValues[i] == status;
    assert Itself(statusValues[i]) == status;
  }

  // ----------------------------------------------------------- the form

  /** What the edit screen's widgets hold. */
  datatype Form = Form(
    title: string,
    description: string,
    dueDate: Option<int>,
    priorityPos: int,
    statusPos: int,
    reminderPos: int,
    projectPos: int,
    assigneePos: int)

  /** The values `saveTask` reads off the screen. */
  datatype Fields = Fields(
    title: string,
    description: Option<string>,
    dueDate: Option<int>,
    priority: int,
    status: string,
    reminderOffset: Option<int>,
    projectId: Option<string>,
    assigneeId: Option<string>)

  /**
   * The positions `saveTask` can read without an exception: the status array
   * is indexed, and the project spinner's selected item is dereferenced, so
   * it must have one.
   */
  predicate Readable(f: Form, projects: seq<Project>, users: seq<User>, statusValues: seq<string>) {
    && 0 <= f.statusPos < |statusValues|
    && f.reminderPos < |REMINDER_OPTIONS|
    && 0 <= f.projectPos <= |projects|
    && (users != [] ==> f.assigneePos <= |users|)
  }

  /** `saveTask`'s readback. */
  function ReadForm(f: Form, projects: seq<Project>, users: seq<User>, statusValues: seq<string>): Fields
    requires Readable(f, projects, users, statusValues)
  {
    Fields(Trim(f.title), Some(Trim(f.description)), f.dueDate, f.priorityPos + 1,
           statusValues[f.statusPos], ReminderAt(f.reminderPos),
           ProjectAt(projects, f.projectPos), AssigneeAt(users, f.assigneePos))
  }

  /** The assignee selection: with no assignable user, "not assigned" if the spinner has entries, else unchanged. */
  function AssigneeSelection(users: seq<User>, assigneeCount: int, assigneeId: Option<string>, previous: int): int {
    if users == [] && assigneeCount <= 0 then previous else AssigneePosition(users, assigneeId)
  }

  /** `loadTaskDataToUI`'s filling of the widgets from a task. */
  function LoadForm(t: TaskRow, projects: seq<Project>, projectCount: int, users: seq<User>, assigneeCount: int,
                    statusValues: seq<string>, previous: Form): Form
  {
    Form(t.title, t.description.GetOr(""), t.dueDate, t.priority - 1,
         StatusPosition(statusValues, t.status, previous.statusPos),
         ReminderPosition(t.reminderOffsetMillisBeforeDueDate),
         ProjectPosition(projects, projectCount, t.projectId),
         AssigneeSelection(users, assigneeCount, t.assigneeUserId, previous.assigneePos))
  }

  /** The columns `saveTask` writes. */
  function ApplyFields(t: TaskRow, f: Fields): TaskRow {
    t.(title := f.title, description := f.description, dueDate := f.dueDate, priority := f.priority,
       status := f.status, reminderOffsetMillisBeforeDueDate := f.reminderOffset,
       projectId := f.projectId, assigneeUserId := f.assigneeId)
  }

  /** A trimmed, displayable task in the documented domain. */
  predicate Presentable(t: TaskRow, projects: seq<Project>, users: seq<User>, statusValues: seq<string>) {
    && Trim(t.title) == t.title
    && (t.description.Some? ==> Trim(t.description.value) == t.description.value)
    && 1 <= t.priority <= 3
    && t.status in statusValues
    && OfferedOffset(t.reminderOffsetMillisBeforeDueDate)
    && (t.projectId.Some? ==> t.projectId.value != "" && exists p :: p in projects && p.projectId == t.projectId.value)
    && (t.assigneeUserId.Some? ==> exists u :: u in users && u.userId == t.assigneeUserId.value)
  }

  /**
   * Opening a presentable task and saving without touching a widget writes
   * back the same values, except that a missing description is saved as "".
   */
  lemma UntouchedFormSavesSameTask(t: TaskRow, projects: seq<Project>, users: seq<User>,
                                   statusValues: seq<string>, previous: Form)
    requires Presentable(t, projects, users, statusValues)
    ensures var f := LoadForm(t, projects, |projects| + 1, users, |users| + 1, statusValues, previous);
            Readable(f, projects, users, statusValues)
            && ApplyFields(t, ReadForm(f, projects, users, statusValues))
               == t.(description := Some(t.description.GetOr("")))
  {
    var f := LoadForm(t, projects, |projects| + 1, users, |users| + 1, statusValues, previous);
    ReminderRoundTrip(t.reminderOffsetMillisBeforeDueDate);
    ProjectRoundTrip(projects, t.projectId);
    AssigneeRoundTrip(users, t.assigneeUserId);
    StatusRoundTrip(statusValues, t.status, previous.statusPos);
    if t.description.None? {
      TrimKeepsTrimmed("");
    }
    assert Readable(f, projects, users, statusValues);
    var r := ReadForm(f, projects, users, statusValues);
    assert r.title == t.title && r.description == Some(t.description.GetOr(""));
    assert f.priorityPos == t.priority - 1;
    assert r.priority == f.priorityPos + 1;
    assert r.dueDate == t.dueDate && r.status == t.status;
    assert r.reminderOffset == t.reminderOffsetMillisBeforeDueDate;
    assert r.projectId == t.projectId;
    assert r.assigneeId == t.assigneeUserId;
  }

  // ------------------------------------------------------ timer on save

  /**
   * The time-tracking columns as `saveTask` writes them while a session is
   * running: the chronometer's reading is added to the time spent, but the
   * session's start stays set.
   */
  function SavedTimerAsWritten(t: TaskRow, chronometerRunning: bool, sessionMillis: int): TaskRow {
    if t.timeTrackingStartTimeMillis.Some? && chronometerRunning
    then t.(timeSpentMillis := t.timeSpentMillis + sessionMillis)
    else t
  }

  /**
   * As written, saving a task whose session has run since `start` shows
   * that session twice from then on: once in the time spent and once as
   * the still-running session.
   */
  lemma SaveAsWrittenCountsSessionTwice(t: TaskRow, now: int, later: int)
    requires IsTimerRunning(t)
    ensures var saved := SavedTimerAsWritten(t, true, now - t.timeTrackingStartTimeMillis.value);
            DisplayTime(saved, later) == DisplayTime(t, later) + (now - t.timeTrackingStartTimeMillis.value)
  {
  }

  /** The input that shows it: nothing spent, started at 1000, saved at 5000 — shown as 8000, not 4000. */
  lemma SaveAsWrittenExample()
    ensures var t := NewTaskRow("t", "Отчёт", "u", 0).(timeTrackingStartTimeMillis := Some(1000));
            DisplayTime(t, 5000) == 4000
            && DisplayTime(SavedTimerAsWritten(t, true, 5000 - 1000), 5000) == 8000
  {
  }

  /** The corrected save: the running session is added and ended. */
  function SavedTimer(t: TaskRow, chronometerRunning: bool, sessionMillis: int): TaskRow {
    if t.timeTrackingStartTimeMillis.Some? && chronometerRunning
    then t.(timeSpentMillis := t.timeSpentMillis + sessionMillis, timeTrackingStartTimeMillis := None)
    else t
  }

  /**
   * Corrected, a save while the session runs is the view model's stop at the
   * same instant: the time shown at the save is kept, and it no longer grows.
   */
  lemma SaveStopsSession(t: TaskRow, now: int, later: int)
    requires IsTimerRunning(t)
    ensures var saved := SavedTimer(t, true, now - t.timeTrackingStartTimeMillis.value);
            saved.(updatedAt := now) == StoppedRow(t, now).value
            && DisplayTime(saved, later) == DisplayTime(t, now)
            && !IsTimerRunning(saved)
  {
  }

  /** The row the edit path writes, with the timer as written (the session stays open). */
  function EditedRow(t: TaskRow, f: Fields, chronometerRunning: bool, sessionMillis: int, now: int): TaskRow {
    SavedTimerAsWritten(ApplyFields(t, f).(updatedAt := now), chronometerRunning, sessionMillis)
  }

  /** The edit path writes the form's columns, the edit time and the timer, and nothing else. */
  lemma EditKeepsIdentity(t: TaskRow, f: Fields, chronometerRunning: bool, sessionMillis: int, now: int)
    ensures var r := EditedRow(t, f, chronometerRunning, sessionMillis, now);
            r.taskId == t.taskId && r.creatorUserId == t.creatorUserId && r.createdAt == t.createdAt
            && r.isRecurring == t.isRecurring && r.recurrenceRule == t.recurrenceRule
            && r.parentTaskId == t.parentTaskId && r.completedAt == t.completedAt
            && r.updatedAt == now && r.title == f.title && r.status == f.status
            && r.timeSpentMillis >= t.timeSpentMillis - (if sessionMillis < 0 then -sessionMillis else 0)
  {
  }

  /** The row the create path writes. */
  function CreatedRow(taskId: string, f: Fields, creatorUserId: string, now: int): TaskRow {
    ApplyFields(NewTaskRow(taskId, f.title, creatorUserId, now), f)
  }

  /** A created task carries the form's values, no time and no session, created and updated now. */
  lemma CreatedRowMeaning(taskId: string, f: Fields, creatorUserId: string, now: int)
    ensures var r := CreatedRow(taskId, f, creatorUserId, now);
            r.taskId == taskId && r.creatorUserId == creatorUserId && r.createdAt == now && r.updatedAt == now
            && r.title == f.title && r.description == f.description && r.priority == f.priority
            && r.status == f.status && r.projectId == f.projectId && r.assigneeUserId == f.assigneeId
            && r.timeSpentMillis == 0 && r.timeTrackingStartTimeMillis.None?
            && (1 <= f.priority <= 3 && f.status in DOCUMENTED_STATUSES ==> InDocumentedDomain(r))
  {
  }

  // ------------------------------------------------ spinner list contents

  const NO_PROJECT := "Без проекту"
  const UNASSIGNED := "Не назначен"

  /** The users offered as assignees: everyone but the signed-in user, in order. */
  function Assignable(users: seq<User>, me: Option<string>): seq<User> {
    if users == [] then []
    else
      var last := users[|users| - 1];
      Assignable(users[..|users| - 1], me) + (if me.Some? && last.userId == me.value then [] else [last])
  }

  /** The assignee list holds every user but the signed-in one, and nothing else. */
  lemma {:induction false} AssignableMembers(users: seq<User>, me: Option<string>)
    ensures forall u :: u in Assignable(users, me) <==> u in users && (me.None? || u.userId != me.value)
    ensures |Assignable(users, me)| <= |users|
  {
    if users != [] {
      var init := users[..|users| - 1];
      assert users == init + [users[|users| - 1]];
      AssignableMembers(init, me);
    }
  }

  function UserNames(users: seq<User>): (names: seq<string>)
    ensures |names| == |users|
  {
    if users == [] then [] else UserNames(users[..|users| - 1]) + [users[|users| - 1].name]
  }

  function ProjectNames(projects: seq<Project>): (names: seq<string>)
    ensures |names| == |projects|
  {
    if projects == [] then [] else ProjectNames(projects[..|projects| - 1]) + [projects[|projects| - 1].name]
  }

  /** Entry i + 1 of the assignee spinner names user i. */
  lemma {:induction false} UserNamesAlign(users: seq<User>)
    ensures forall i :: 0 <= i < |users| ==> UserNames(users)[i] == users[i].name
  {
    if users != [] {
      UserNamesAlign(users[..|users| - 1]);
    }
  }

  /** Entry i + 1 of the project spinner names project i. */
  lemma {:induction false} ProjectNamesAlign(projects: seq<Project>)
    ensures forall i :: 0 <= i < |projects| ==> ProjectNames(projects)[i] == projects[i].name
  {
    if projects != [] {
      ProjectNamesAlign(projects[..|projects| - 1]);
    }
  }

  /** Copies the read-back values into a task, setter by setter. */
  method ApplyForm(task: Task, f: Fields)
    modifies task
    ensures task.Row() == ApplyFields(old(task.Row()), f)
  {
    task.SetTitle(f.title);
    task.SetDescription(f.description);
    task.SetDueDate(f.dueDate);
    task.SetPriority(f.priority);
    task.SetStatus(f.status);
    task.SetReminderOffsetMillisBeforeDueDate(f.reminderOffset);
    task.SetProjectId(f.projectId);
    task.SetAssigneeUserId(f.assigneeId);
  }

  /** The edit path of `saveTask`: the form's values, the edit time, then the timer. */
  method WriteEdit(t: Task, fields: Fields, chronometerRunning: bool, sessionMillis: int, now: int)
    modifies t
    ensures t.Row() == EditedRow(old(t.Row()), fields, chronometerRunning, sessionMillis, now)
  {
    ApplyForm(t, fields);
    t.SetUpdatedAt(now);
    if t.timeTrackingStartTimeMillis.Some? && chronometerRunning {
      t.SetTimeSpentMillis(t.timeSpentMillis + sessionMillis);
    }
  }

  /** The edit path of `saveTask` through the view model's update. */
  method SaveEdited(viewModel: TaskViewModel, t: Task, fields: Fields, chronometerRunning: bool, sessionMillis: int,
                    stored: Option<TaskRow>, now: int)
    requires viewModel.Valid()
    modifies t, viewModel, viewModel.tasks, viewModel.work
    ensures viewModel.Valid()
    ensures var e := EditedRow(old(t.Row()), fields, chronometerRunning, sessionMillis, now);
            && t.Row() == e
            && viewModel.tasks.rows == Replace(old(viewModel.tasks.rows), e, TaskKey)
            && viewModel.work.jobs == WithoutTag(old(viewModel.work.jobs), ReminderTag(e.taskId)) + PlannedJobs(e, now)
            && viewModel.notices == old(viewModel.notices) +
                 if stored.Some? && stored.value.assigneeUserId != e.assigneeUserId
                 then NoticesFor(e, viewModel.users.GetCurrentUserId()) else []
    ensures viewModel.currentSortMode == old(viewModel.currentSortMode) && viewModel.sources == old(viewModel.sources)
            && viewModel.mediatorValue == old(viewModel.mediatorValue)
  {
    WriteEdit(t, fields, chronometerRunning, sessionMillis, now);
    viewModel.Update(t, stored, now);
  }

  /** The create path of `saveTask`: a new task by the signed-in user, through the view model's insert. */
  method SaveCreated(viewModel: TaskViewModel, taskId: string, fields: Fields, creatorUserId: string, now: int)
    requires viewModel.Valid()
    modifies viewModel, viewModel.tasks, viewModel.comments, viewModel.work
    ensures viewModel.Valid()
    ensures viewModel.tasks.rows == InsertOrReplace(old(viewModel.tasks.rows), CreatedRow(taskId, fields, creatorUserId, now))
    ensures viewModel.comments.rows == CommentsAfterInsert(old(viewModel.tasks.rows), old(viewModel.comments.rows), taskId)
    ensures var c := CreatedRow(taskId, fields, creatorUserId, now);
            && viewModel.work.jobs == WithoutTag(old(viewModel.work.jobs), ReminderTag(taskId)) + PlannedJobs(c, now)
            && viewModel.notices == old(viewModel.notices) + NoticesFor(c, viewModel.users.GetCurrentUserId())
    ensures viewModel.currentSortMode == old(viewModel.currentSortMode) && viewModel.sources == old(viewModel.sources)
            && viewModel.mediatorValue == old(viewModel.mediatorValue)
  {
    var task := new Task(taskId, fields.title, creatorUserId, now);
    ApplyForm(task, fields);
    viewModel.Insert(task, now);
  }

  datatype SaveOutcome = EmptyTitle | NoCurrentUser | Updated | Created

  /**
   * What `saveTask` does to the task table once the screen is read: a blank
   * title is refused; the task being edited is replaced by its edited row;
   * otherwise a new task by the signed-in user is inserted, or nothing
   * happens when nobody is signed in.
   */
  function SaveEffect(rows: seq<TaskRow>, editing: Option<TaskRow>, fields: Fields, chronometerRunning: bool,
                      sessionMillis: int, creator: Option<string>, newTaskId: string, now: int): (SaveOutcome, seq<TaskRow>)
  {
    if fields.title == "" then (EmptyTitle, rows)
    else if editing.Some? then
      (Updated, Replace(rows, EditedRow(editing.value, fields, chronometerRunning, sessionMillis, now), TaskKey))
    else if creator.None? then (NoCurrentUser, rows)
    else (Created, InsertOrReplace(rows, CreatedRow(newTaskId, fields, creator.value, now)))
  }

  /**
   * The row a save hands to the view model: none when the save is refused,
   * the edited row on the edit path, the created row on the create path.
   */
  function SavedRow(editing: Option<TaskRow>, fields: Fields, chronometerRunning: bool, sessionMillis: int,
                    creator: Option<string>, newTaskId: string, now: int): (saved: Option<TaskRow>)
    ensures saved.None? <==> fields.title == "" || (editing.None? && creator.None?)
    ensures saved.Some? && editing.Some? ==> saved.value.taskId == editing.value.taskId
    ensures saved.Some? && editing.None? ==>
              saved.value.taskId == newTaskId && saved.value.creatorUserId == creator.value && saved.value.title == fields.title
  {
    if fields.title == "" then None
    else if editing.Some? then Some(EditedRow(editing.value, fields, chronometerRunning, sessionMillis, now))
    else if creator.None? then None
    else Some(CreatedRow(newTaskId, fields, creator.value, now))
  }

  /** What a save leaves behind: its outcome, the four stores it may write, and the row of the task being edited. */
  datatype SaveState = SaveState(outcome: SaveOutcome, tasks: seq<TaskRow>, comments: seq<TaskComment>,
                                 jobs: seq<Job>, notices: seq<AssignmentNotice>, editing: Option<TaskRow>)

  /**
   * The whole of a save once the screen is read: the table as SaveEffect
   * leaves it; comments lost only to a create's cascade; the saved row's
   * reminders rescheduled; its assignee notified as `update` (only when the
   * stored assignee differs) or `insert` (always checked) does; the task
   * being edited holding the saved row. A refused save changes nothing.
   */
  function SaveSpec(tasks: seq<TaskRow>, comments: seq<TaskComment>, jobs: seq<Job>, notices: seq<AssignmentNotice>,
                    editing: Option<TaskRow>, fields: Fields, chronometerRunning: bool, sessionMillis: int,
                    me: Option<string>, newTaskId: string, stored: Option<TaskRow>, now: int): (r: SaveState)
    ensures (r.outcome == EmptyTitle <==> fields.title == "")
            && (r.outcome == Updated <==> fields.title != "" && editing.Some?)
            && (r.outcome == Created <==> fields.title != "" && editing.None? && me.Some?)
    ensures r.outcome == EmptyTitle || r.outcome == NoCurrentUser ==>
              r == SaveState(r.outcome, tasks, comments, jobs, notices, editing)
    ensures r.outcome == Updated ==>
              var e := EditedRow(editing.value, fields, chronometerRunning, sessionMillis, now);
              && r.editing == Some(e)
              && r.tasks == Replace(tasks, e, TaskKey) && r.comments == comments
              && r.jobs == WithoutTag(jobs, ReminderTag(editing.value.taskId)) + PlannedJobs(e, now)
              && r.notices == notices +
                   if stored.Some? && stored.value.assigneeUserId != e.assigneeUserId then NoticesFor(e, me) else []
    ensures r.outcome == Created ==>
              var c := CreatedRow(newTaskId, fields, me.value, now);
              && r.editing == None
              && r.tasks == InsertOrReplace(tasks, c) && r.comments == CommentsAfterInsert(tasks, comments, newTaskId)
              && r.jobs == WithoutTag(jobs, ReminderTag(newTaskId)) + PlannedJobs(c, now)
              && r.notices == notices + NoticesFor(c, me)
  {
    var (outcome, rows) := SaveEffect(tasks, editing, fields, chronometerRunning, sessionMillis, me, newTaskId, now);
    var saved := SavedRow(editing, fields, chronometerRunning, sessionMillis, me, newTaskId, now);
    if saved.None? then SaveState(outcome, rows, comments, jobs, notices, editing)
    else
      var t := saved.value;
      SaveState(outcome, rows,
                if outcome == Created then CommentsAfterInsert(tasks, comments, newTaskId) else comments,
                WithoutTag(jobs, ReminderTag(t.taskId)) + PlannedJobs(t, now),
                notices + if outcome == Created || (stored.Some? && stored.value.assigneeUserId != t.assigneeUserId)
                          then NoticesFor(t, me) else [],
                if outcome == Updated then saved else editing)
  }

  /**
   * The save refuses a blank title, and a new task when nobody is signed in,
   * without writing; otherwise the table holds the saved row under its id.
   */
  lemma SaveEffectMeaning(rows: seq<TaskRow>, editing: Option<TaskRow>, fields: Fields, chronometerRunning: bool,
                          sessionMillis: int, creator: Option<string>, newTaskId: string, now: int)
    requires UniqueKeys(rows, TaskKey)
    ensures var (outcome, after) := SaveEffect(rows, editing, fields, chronometerRunning, sessionMillis, creator, newTaskId, now);
            && (outcome == EmptyTitle <==> fields.title == "")
            && (outcome == NoCurrentUser <==> fields.title != "" && editing.None? && creator.None?)
            && (outcome == EmptyTitle || outcome == NoCurrentUser ==> after == rows)
            && UniqueKeys(after, TaskKey)
            && (outcome == Created ==>
                  Lookup(after, newTaskId, TaskKey) == Some(CreatedRow(newTaskId, fields, creator.value, now)))
            && (outcome == Updated && Lookup(rows, editing.value.taskId, TaskKey).Some? ==>
                  Lookup(after, editing.value.taskId, TaskKey)
                  == Some(EditedRow(editing.value, fields, chronometerRunning, sessionMillis, now)))
  {
    if fields.title == "" {
    } else if editing.Some? {
      var e := EditedRow(editing.value, fields, chronometerRunning, sessionMillis, now);
      EditKeepsIdentity(editing.value, fields, chronometerRunning, sessionMillis, now);
      ReplaceUnique(rows, e, TaskKey);
      LookupAfterReplace(rows, e, TaskKey, editing.value.taskId);
    } else if creator.Some? {
      var c := CreatedRow(newTaskId, fields, creator.value, now);
      CreatedRowMeaning(newTaskId, fields, creator.value, now);
      InsertOrReplaceMeaning(rows, c);
    }
  }

  /** `saveTask` once the screen is read: validation, then the edit or the create path. */
  method SaveFields(viewModel: TaskViewModel, editing: Task?, fields: Fields, chronometerRunning: bool,
                    sessionMillis: int, newTaskId: string, stored: Option<TaskRow>, now: int)
    returns (outcome: SaveOutcome)
    requires viewModel.Valid()
    modifies editing, viewModel, viewModel.tasks, viewModel.comments, viewModel.work
    ensures viewModel.Valid()
    ensures SaveState(outcome, viewModel.tasks.rows, viewModel.comments.rows, viewModel.work.jobs, viewModel.notices,
                      if editing == null then None else Some(editing.Row()))
            == SaveSpec(old(viewModel.tasks.rows), old(viewModel.comments.rows), old(viewModel.work.jobs), old(viewModel.notices),
                        if editing == null then None else Some(old(editing.Row())), fields, chronometerRunning,
                        sessionMillis, viewModel.users.GetCurrentUserId(), newTaskId, stored, now)
    ensures viewModel.currentSortMode == old(viewModel.currentSortMode) && viewModel.sources == old(viewModel.sources)
            && viewModel.mediatorValue == old(viewModel.mediatorValue)
  {
    if fields.title == "" {
      return EmptyTitle;
    }
    if editing != null {
      SaveEdited(viewModel, editing, fields, chronometerRunning, sessionMillis, stored, now);
      return Updated;
    }
    var creator := viewModel.users.GetCurrentUserId();
    if creator.None? {
      return NoCurrentUser;
    }
    SaveCreated(viewModel, newTaskId, fields, creator.value, now);
    return Created;
  }

  /**
   * `saveTask` from what the screen holds: the title is checked before any
   * spinner is read, so the positions need to be readable only for a
   * non-blank title.
   */
  method SaveForm(viewModel: TaskViewModel, editing: Task?, form: Form, projects: seq<Project>, users: seq<User>,
                  statusValues: seq<string>, chronometerRunning: bool, sessionMillis: int, newTaskId: string,
                  stored: Option<TaskRow>, now: int)
    returns (outcome: SaveOutcome)
    requires viewModel.Valid()
    requires Trim(form.title) != "" ==> Readable(form, projects, users, statusValues)
    modifies editing, viewModel, viewModel.tasks, viewModel.comments, viewModel.work
    ensures viewModel.Valid()
    ensures Trim(form.title) == "" ==>
              && outcome == EmptyTitle && viewModel.tasks.rows == old(viewModel.tasks.rows)
              && viewModel.comments.rows == old(viewModel.comments.rows)
              && viewModel.work.jobs == old(viewModel.work.jobs) && viewModel.notices == old(viewModel.notices)
              && (editing != null ==> editing.Row() == old(editing.Row()))
    ensures Trim(form.title) != "" ==>
              SaveState(outcome, viewModel.tasks.rows, viewModel.comments.rows, viewModel.work.jobs, viewModel.notices,
                        if editing == null then None else Some(editing.Row()))
              == SaveSpec(old(viewModel.tasks.rows), old(viewModel.comments.rows), old(viewModel.work.jobs),
                          old(viewModel.notices), if editing == null then None else Some(old(editing.Row())),
                          ReadForm(form, projects, users, statusValues), chronometerRunning, sessionMillis,
                          viewModel.users.GetCurrentUserId(), newTaskId, stored, now)
    ensures viewModel.currentSortMode == old(viewModel.currentSortMode) && viewModel.sources == old(viewModel.sources)
            && viewModel.mediatorValue == old(viewModel.mediatorValue)
  {
    if Trim(form.title) == "" {
      return EmptyTitle;
    }
    outcome := SaveFields(viewModel, editing, ReadForm(form, projects, users, statusValues), chronometerRunning,
                          sessionMillis, newTaskId, stored, now);
  }

  const INVALID_POSITION := -1

  class TaskEditFragment {
    const viewModel: TaskViewModel
    /** The `task_statuses_values` resource array. */
    const statusValues: seq<string>
    const isEditMode: bool
    var currentTaskForEdit: Task?
    var projects: seq<Project>
    /** The project spinner's entries. */
    var projectNames: seq<string>
    var userList: seq<User>
    /** The assignee spinner's entries. */
    var assigneeNames: seq<string>
    var form: Form
    /** Whether the chronometer runs (pause and stop enabled), and the instant it counts from. */
    var chronometerRunning: bool
    var chronometerFrom: int

    /**
     * The screen as `onCreate` and `resetToDefaultState` leave it: edit mode
     * when a task id was passed, empty spinners; a new task starts on the
     * due date passed from the calendar, if any.
     */
    constructor (viewModel: TaskViewModel, statusValues: seq<string>, taskId: Option<string>, dueDate: Option<int>, now: int)
      ensures this.viewModel == viewModel && this.statusValues == statusValues
      ensures isEditMode == taskId.Some? && currentTaskForEdit == null
      ensures projects == [] && projectNames == [] && userList == [] && assigneeNames == []
      ensures form == Form("", "", if taskId.None? then dueDate else None, 1, 0, 0, INVALID_POSITION, INVALID_POSITION)
      ensures !chronometerRunning && chronometerFrom == now
    {
      this.viewModel := viewModel;
      this.statusValues := statusValues;
      isEditMode := taskId.Some?;
      currentTaskForEdit := null;
      projects := [];
      projectNames := [];
      userList := [];
      assigneeNames := [];
      var initialDueDate := if taskId.None? then dueDate else None;
      form := Form("", "", initialDueDate, 1, 0, 0, INVALID_POSITION, INVALID_POSITION);
      chronometerRunning := false;
      chronometerFrom := now;
    }

    /** The status loop of `loadTaskDataToUI`: the first position holding the status; none keeps the selection. */
    method SelectStatusInSpinner(status: string)
      modifies this`form
      ensures form == old(form).(statusPos := StatusPosition(statusValues, status, old(form).statusPos))
    {
      var i := 0;
      while i < |statusValues|
        invariant 0 <= i <= |statusValues|
        invariant forall j :: 0 <= j < i ==> Itself(statusValues[j]) != status
      {
        if statusValues[i] == status {
          assert Itself(statusValues[i]) == status;
          form := form.(statusPos := i);
          return;
        }
        i := i + 1;
      }
    }

    /** `selectReminderOptionInSpinner`. */
    method SelectReminderOptionInSpinner(offset: Option<int>)
      modifies this`form
      ensures form == old(form).(reminderPos := ReminderPosition(offset))
    {
      var i := 0;
      while i < |REMINDER_OPTIONS|
        invariant 0 <= i <= |REMINDER_OPTIONS|
        invariant forall j :: 0 <= j < i ==> OffsetOf(REMINDER_OPTIONS[j]) != offset
      {
        if REMINDER_OPTIONS[i].offsetMillis == offset {
          assert OffsetOf(REMINDER_OPTIONS[i]) == offset;
          form := form.(reminderPos := i);
          return;
        }
        i := i + 1;
      }
      form := form.(reminderPos := 0);
    }

    /** `selectProjectInSpinner`. */
    method SelectProjectInSpinner()
      requires currentTaskForEdit != null
      modifies this`form
      ensures form == old(form).(projectPos := ProjectPosition(projects, |projectNames|, currentTaskForEdit.projectId))
    {
      var id := currentTaskForEdit.projectId;
      if id.None? || id.value == "" {
        form := form.(projectPos := 0);
        return;
      }
      var i := 0;
      while i < |projects|
        invariant 0 <= i <= |projects|
        invariant forall j :: 0 <= j < i ==> ProjectKey(projects[j]) != id.value || j + 1 >= |projectNames|
      {
        if projects[i].projectId == id.value {
          if i + 1 < |projectNames| {
            form := form.(projectPos := i + 1);
            return;
          }
        }
        i := i + 1;
      }
      form := form.(projectPos := 0);
    }

    /** `selectAssigneeInSpinner`. */
    method SelectAssigneeInSpinner()
      modifies this`form
      ensures currentTaskForEdit != null ==>
                form == old(form).(assigneePos := AssigneeSelection(userList, |assigneeNames|,
                                                                     currentTaskForEdit.assigneeUserId, old(form).assigneePos))
      ensures currentTaskForEdit == null && |assigneeNames| > 0 ==> form == old(form).(assigneePos := 0)
      ensures currentTaskForEdit == null && |assigneeNames| == 0 ==> form == old(form)
    {
      if currentTaskForEdit == null || userList == [] {
        if |assigneeNames| > 0 {
          form := form.(assigneePos := 0);
        }
        return;
      }
      var id := currentTaskForEdit.assigneeUserId;
      if id.None? {
        form := form.(assigneePos := 0);
        return;
      }
      var i := 0;
      while i < |userList|
        invariant 0 <= i <= |userList|
        invariant forall j :: 0 <= j < i ==> UserKey(userList[j]) != id.value
      {
        if userList[i].userId == id.value {
          assert UserKey(userList[i]) == id.value;
          form := form.(assigneePos := i + 1);
          return;
        }
        i := i + 1;
      }
      form := form.(assigneePos := 0);
    }

    /** `loadTaskDataToUI`: fills the widgets from the task being edited and sets the chronometer. */
    method LoadTaskDataToUI(now: int)
      modifies this`form, this`chronometerRunning, this`chronometerFrom
      ensures currentTaskForEdit == null ==>
                form == old(form) && chronometerRunning == old(chronometerRunning) && chronometerFrom == old(chronometerFrom)
      ensures currentTaskForEdit != null ==>
                form == LoadForm(currentTaskForEdit.Row(), projects, |projectNames|, userList, |assigneeNames|,
                                 statusValues, old(form))
      ensures currentTaskForEdit != null ==> chronometerRunning == IsTimerRunning(currentTaskForEdit.Row())
      ensures currentTaskForEdit != null && IsTimerRunning(currentTaskForEdit.Row()) ==>
                chronometerFrom == currentTaskForEdit.timeTrackingStartTimeMillis.value
      ensures currentTaskForEdit != null && !IsTimerRunning(currentTaskForEdit.Row()) ==> chronometerFrom == now
    {
      if currentTaskForEdit == null {
        return;
      }
      var t := currentTaskForEdit;
      form := form.(title := t.title, description := t.description.GetOr(""), dueDate := t.dueDate,
                    priorityPos := t.priority - 1);
      SelectStatusInSpinner(t.status);
      SelectReminderOptionInSpinner(t.reminderOffsetMillisBeforeDueDate);
      SelectProjectInSpinner();
      SelectAssigneeInSpinner();
      if t.timeTrackingStartTimeMillis.Some? && t.timeTrackingStartTimeMillis.value > 0 {
        chronometerFrom := t.timeTrackingStartTimeMillis.value;
        chronometerRunning := true;
      } else {
        chronometerFrom := now;
        chronometerRunning := false;
      }
    }

    /** The task observer of `onCreate` in edit mode: works on a copy of the loaded task and shows it. */
    method OnTaskLoaded(task: Task?, now: int)
      modifies this`currentTaskForEdit, this`form, this`chronometerRunning, this`chronometerFrom
      ensures task == null ==> currentTaskForEdit == old(currentTaskForEdit) && form == old(form)
      ensures task != null ==>
                fresh(currentTaskForEdit) && currentTaskForEdit.Row() == task.Row()
                && form == LoadForm(task.Row(), projects, |projectNames|, userList, |assigneeNames|, statusValues, old(form))
                && chronometerRunning == IsTimerRunning(task.Row())
    {
      if task == null {
        return;
      }
      currentTaskForEdit := new Task.Copy(task);
      LoadTaskDataToUI(now);
    }

    /** `observeProjects`: a non-null list refills the project spinner behind its sentinel. */
    method ObserveProjects(list: Option<seq<Project>>)
      modifies this`projects, this`projectNames, this`form
      ensures list.None? ==> projects == old(projects) && projectNames == old(projectNames) && form == old(form)
      ensures list.Some? ==> projects == list.value && projectNames == [NO_PROJECT] + ProjectNames(list.value)
      ensures list.Some? && isEditMode && currentTaskForEdit != null ==>
                form == old(form).(projectPos := ProjectPosition(projects, |projects| + 1, currentTaskForEdit.projectId))
      ensures list.Some? && !isEditMode ==> form == old(form).(projectPos := 0)
      ensures list.Some? && isEditMode && currentTaskForEdit == null ==> form == old(form)
    {
      if list.None? {
        return;
      }
      projects := list.value;
      var names := [NO_PROJECT];
      var i := 0;
      while i < |projects|
        invariant 0 <= i <= |projects|
        invariant names == [NO_PROJECT] + ProjectNames(projects[..i])
      {
        assert projects[..i + 1][..i] == projects[..i];
        names := names + [projects[i].name];
        i := i + 1;
      }
      assert projects[..i] == projects;
      projectNames := names;
      if isEditMode && currentTaskForEdit != null {
        SelectProjectInSpinner();
      } else if !isEditMode && form.projectPos != 0 {
        form := form.(projectPos := 0);
      }
    }

    /** `observeUsers`: a non-null list refills the assignee spinner with everyone but the signed-in user. */
    method ObserveUsers(users: Option<seq<User>>)
      modifies this`userList, this`assigneeNames, this`form
      ensures users.None? ==> userList == old(userList) && assigneeNames == old(assigneeNames) && form == old(form)
      ensures users.Some? ==>
                userList == Assignable(users.value, viewModel.users.GetCurrentUserId())
                && assigneeNames == [UNASSIGNED] + UserNames(userList)
      ensures users.Some? && isEditMode && currentTaskForEdit != null ==>
                form == old(form).(assigneePos := AssigneePosition(userList, currentTaskForEdit.assigneeUserId))
      ensures users.Some? && !isEditMode ==>
                form == old(form).(assigneePos := if old(form).assigneePos == INVALID_POSITION then 0 else old(form).assigneePos)
      ensures users.Some? && isEditMode && currentTaskForEdit == null ==> form == old(form)
    {
      if users.None? {
        return;
      }
      var all := users.value;
      var me := viewModel.users.GetCurrentUserId();
      var kept := [];
      var i := 0;
      while i < |all|
        invariant 0 <= i <= |all|
        invariant kept == Assignable(all[..i], me)
      {
        assert all[..i + 1][..i] == all[..i];
        if me.Some? && all[i].userId == me.value {
          i := i + 1;
          continue;
        }
        kept := kept + [all[i]];
        i := i + 1;
      }
      assert all[..i] == all;
      userList := kept;
      var names := [UNASSIGNED];
      var k := 0;
      while k < |kept|
        invariant 0 <= k <= |kept|
        invariant names == [UNASSIGNED] + UserNames(kept[..k])
      {
        assert kept[..k + 1][..k] == kept[..k];
        names := names + [kept[k].name];
        k := k + 1;
      }
      assert kept[..k] == kept;
      assigneeNames := names;
      if isEditMode && currentTaskForEdit != null {
        SelectAssigneeInSpinner();
      } else if !isEditMode && form.assigneePos == INVALID_POSITION && |assigneeNames| > 0 {
        form := form.(assigneePos := 0);
      }
    }

    /**
     * `saveTask`: reads the screen back and updates the task being edited or
     * inserts a new one. A running session's reading is added to the time
     * spent while the session stays open, as written (see `SavedTimerAsWritten`
     * and the corrected `SavedTimer`).
     */
    method SaveTask(newTaskId: string, stored: Option<TaskRow>, now: int) returns (outcome: SaveOutcome)
      requires viewModel.Valid()
      requires Trim(form.title) != "" ==> Readable(form, projects, userList, statusValues)
      modifies if isEditMode then {currentTaskForEdit} else {}, viewModel, viewModel.tasks, viewModel.comments,
               viewModel.work
      ensures viewModel.Valid()
      ensures var editing := old(if isEditMode then currentTaskForEdit else null);
              Trim(old(form.title)) == "" ==>
                && outcome == EmptyTitle && viewModel.tasks.rows == old(viewModel.tasks.rows)
                && viewModel.comments.rows == old(viewModel.comments.rows)
                && viewModel.work.jobs == old(viewModel.work.jobs) && viewModel.notices == old(viewModel.notices)
                && (editing != null ==> editing.Row() == old(editing.Row()))
      ensures var editing := old(if isEditMode then currentTaskForEdit else null);
              Trim(old(form.title)) != "" ==>
                SaveState(outcome, viewModel.tasks.rows, viewModel.comments.rows, viewModel.work.jobs, viewModel.notices,
                          if editing == null then None else Some(editing.Row()))
                == SaveSpec(old(viewModel.tasks.rows), old(viewModel.comments.rows), old(viewModel.work.jobs),
                            old(viewModel.notices), if editing == null then None else Some(old(editing.Row())),
                            old(ReadForm(form, projects, userList, statusValues)), old(chronometerRunning),
                            old(now - chronometerFrom), viewModel.users.GetCurrentUserId(), newTaskId, stored, now)
      ensures viewModel.currentSortMode == old(viewModel.currentSortMode) && viewModel.sources == old(viewModel.sources)
              && viewModel.mediatorValue == old(viewModel.mediatorValue)
    {
      var editing := if isEditMode then currentTaskForEdit else null;
      outcome := SaveForm(viewModel, editing, form, projects, userList, statusValues, chronometerRunning,
                          now - chronometerFrom, newTaskId, stored, now);
    }
  }
}
