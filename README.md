# Task manager core, modelled in Dafny

This project models the decision rules and table operations under the screens of an Android task manager (package `com.example.timemanagementapp`). Tasks belong to projects and can be assigned to users. They carry a due date, a priority, a status, an optional reminder offset and time-tracking fields. Users comment on tasks and invite each other to projects. The model covers:

- the Room tables behind `TaskDao`, `TaskCommentDao`, `ProjectDao` and `CollaborationInviteDao`:
  - upsert on conflict, update and delete by primary key;
  - the filtered and ordered queries;
  - the foreign-key `SET_NULL` and `CASCADE` rules declared on `Task` and `TaskComment`, both on delete and on an `INSERT OR REPLACE` that deletes the row it conflicts with;
- the mutable `Task` record, its constructor defaults and its setters;
- `TaskViewModel`:
  - the reminder decision and the tagged WorkManager jobs of `ReminderWorker`;
  - the assignment-notification rule;
  - the sort-mode selector;
  - start and stop of time tracking;
  - comments;
  - the legacy project rename;
- the display rules of `TaskAdapter` and `CommentAdapter`:
  - duration text;
  - priority badge;
  - running timer;
  - user-name lookup;
  - diff callbacks;
- `CalendarFragment`'s same-day filtering and selection, and `CalendarDayWrapper`'s owner mapping;
- `CollaborationViewModel`'s invite guards, its mock pending list and its removal of an answered invite;
- `TaskEditFragment`:
  - its spinners, each with a sentinel at position 0;
  - the mapping between a stored task and the form;
  - `saveTask`'s readback, validation, edit path and create path.

Modelling conventions:

- Dates are `int` milliseconds. Java `null` is `Option`.
- The wall clock, UUIDs and values observed through LiveData are parameters (`now`, `newTaskId`, `stored`, the observed lists).
- A table is a `seq` of row values whose primary keys are unique (`Valid()`).
- Objects the source mutates are classes: `Task`, each DAO, `WorkManager`, `CurrentUserManager`, the view models, the adapters, `CalendarFragment` and `TaskEditFragment`. Their methods carry `modifies` clauses.

`Task.java` does not declare `timeSpentMillis`, `timeTrackingStartTimeMillis` or the copy constructor `new Task(task)`. The rest of the app still uses them. The model adds them: an `int` field, an `Option<int>` field and the field-wise `Task.Copy`. Their behaviour is taken from their uses in `TaskViewModel`, `TaskAdapter` and `TaskEditFragment`.

Module layout: `Wrappers` (Option) and `Tables` (generic table operations), then one module per source file:

| module | source file |
|---|---|
| `Entities` | plain records |
| `TaskEntity` | `Task` |
| `TaskTable` | `TaskDao` |
| `CommentTable` | `TaskCommentDao` |
| `ProjectTable` | `ProjectDao` |
| `InviteTable` | `CollaborationInviteDao` |
| `CurrentUser` | `CurrentUserManager` |
| `Reminders` | `ReminderWorker` |
| `Tasks` | `TaskViewModel` |
| `Decimal` | Java integer division and `String.format` digits |
| `TaskList` | `TaskAdapter` |
| `CommentList` | `CommentAdapter` |
| `Calendar` | `CalendarFragment` |
| `CalendarDays` | `CalendarDayWrapper` |
| `Collaboration` | `CollaborationViewModel` |
| `TaskEdit` | `TaskEditFragment` |

## Model

| member | source | states |
|---|---|---|
| Tables.Filter | app/src/main/java/com/example/timemanagementapp/data/local/dao/TaskDao.java:36-40 | A WHERE clause keeps exactly the rows satisfying the predicate, in table order, and is never longer than the table |
| Tables.FilterMultiset | app/src/main/java/com/example/timemanagementapp/data/local/dao/TaskDao.java:36-40 | Each row satisfying the predicate is kept as often as the table holds it; every other row is dropped |
| Tables.FilterAppend | app/src/main/java/com/example/timemanagementapp/data/local/dao/TaskDao.java:36-40 | Filtering distributes over concatenation of tables |
| Tables.FilterSnoc | app/src/main/java/com/example/timemanagementapp/ui/calendar/CalendarFragment.java:242-247 | The add-loop's step: filtering `s + [x]` appends `x` exactly when it satisfies the predicate |
| Tables.FilterAll | app/src/main/java/com/example/timemanagementapp/data/local/dao/TaskDao.java:36-40 | A filter that every row satisfies returns the table unchanged |
| Tables.FilterUnique | app/src/main/java/com/example/timemanagementapp/data/local/dao/TaskDao.java:36-40 | A filtered table keeps unique primary keys |
| Tables.Sort | app/src/main/java/com/example/timemanagementapp/data/local/dao/TaskDao.java:33-34 | ORDER BY returns a permutation (same multiset) of the rows |
| Tables.SortSorted | app/src/main/java/com/example/timemanagementapp/data/local/dao/TaskDao.java:33-34 | ORDER BY under a total preorder yields a pairwise-sorted sequence |
| Tables.InsertSorted | app/src/main/java/com/example/timemanagementapp/data/local/dao/TaskDao.java:33-34 | Inserting one row into a sorted result keeps it sorted |
| Tables.StrLeTotal | app/src/main/java/com/example/timemanagementapp/data/local/dao/ProjectDao.java:24-25 | SQLite BINARY collation (code-point lexicographic order) compares every pair of names |
| Tables.StrLeTransitive | app/src/main/java/com/example/timemanagementapp/data/local/dao/ProjectDao.java:24-25 | BINARY collation order is transitive |
| Tables.StrLeAntisymmetric | app/src/main/java/com/example/timemanagementapp/data/local/dao/ProjectDao.java:24-25 | BINARY collation order is antisymmetric |
| Tables.Lookup | app/src/main/java/com/example/timemanagementapp/data/local/dao/TaskDao.java:30-31 | A by-id query returns a row with that key, and none exactly when no row has it |
| Tables.LookupFirst | app/src/main/java/com/example/timemanagementapp/data/local/dao/TaskDao.java:30-31 | The by-id query returns the first row carrying the key |
| Tables.LookupIsFirst | app/src/main/java/com/example/timemanagementapp/data/local/dao/TaskDao.java:30-31 | The row the by-id query returns is the first one carrying the key |
| Tables.LookupUnique | app/src/main/java/com/example/timemanagementapp/data/local/dao/TaskDao.java:30-31 | With unique keys, the by-id query of a row's key returns that row |
| Tables.RemoveKey | app/src/main/java/com/example/timemanagementapp/data/local/dao/TaskDao.java:24-25 | DELETE by primary key removes every row with that key and keeps all others with their multiplicity |
| Tables.RemoveKeyUnique | app/src/main/java/com/example/timemanagementapp/data/local/dao/TaskDao.java:24-25 | Deleting by key keeps primary keys unique |
| Tables.Upsert | app/src/main/java/com/example/timemanagementapp/data/local/dao/TaskCommentDao.java:15-16 | INSERT OR REPLACE into a table nothing references: the argument is in the table, it is the only row with its key, and rows with other keys are untouched |
| Tables.UpsertUnique | app/src/main/java/com/example/timemanagementapp/data/local/dao/TaskCommentDao.java:15-16 | INSERT OR REPLACE keeps primary keys unique |
| Tables.LookupAfterUpsert | app/src/main/java/com/example/timemanagementapp/data/local/dao/TaskCommentDao.java:15-16 | After INSERT OR REPLACE, the by-id query of its key returns the argument; other keys are unaffected |
| Tables.AppendNewKey | app/src/main/java/com/example/timemanagementapp/data/local/dao/TaskDao.java:15-16 | Appending a row under a key the table does not hold keeps keys unique and the row is found under its key |
| Tables.LookupAfterRemove | app/src/main/java/com/example/timemanagementapp/data/local/dao/TaskDao.java:24-25 | After DELETE, the deleted key is gone and other keys are unaffected |
| Tables.Replace | app/src/main/java/com/example/timemanagementapp/data/local/dao/TaskDao.java:21-22 | UPDATE by primary key overwrites exactly the rows with the argument's key, keeping positions and length |
| Tables.LookupAfterReplace | app/src/main/java/com/example/timemanagementapp/data/local/dao/TaskDao.java:21-22 | After UPDATE, the key returns the argument if it existed (else still nothing); other keys are unaffected |
| Tables.ReplaceUnique | app/src/main/java/com/example/timemanagementapp/data/local/dao/TaskDao.java:21-22 | UPDATE keeps primary keys unique |
| Tables.ReplaceAll | app/src/main/java/com/example/timemanagementapp/ui/tasks/TaskViewModel.java:498-522 | A sequence of UPDATEs keeps the table's length and keys, and leaves rows whose key is not updated untouched |
| Tables.ReplaceAllSnoc | app/src/main/java/com/example/timemanagementapp/ui/tasks/TaskViewModel.java:520-521 | One more UPDATE in the sequence is one more Replace |
| Tables.ReplaceAllUnique | app/src/main/java/com/example/timemanagementapp/ui/tasks/TaskViewModel.java:520-521 | A sequence of UPDATEs keeps primary keys unique |
| TaskEntity.NewTaskRow | app/src/main/java/com/example/timemanagementapp/data/local/entity/Task.java:80-90 | A new task has the given id, title and creator; priority 2, status "todo", not recurring, createdAt == updatedAt == now; every optional column null; no time spent and no running timer |
| TaskEntity.ReminderSettingOf | app/src/main/java/com/example/timemanagementapp/data/local/entity/Task.java:78 | The reminder offset means: null no reminder, 0 on time, positive that long before the due date (negative: after it) |
| TaskEntity.ReminderInstant | app/src/main/java/com/example/timemanagementapp/ui/tasks/TaskViewModel.java:158-161 | A reminder instant exists exactly when both due date and offset are set |
| TaskEntity.ReminderSettingMeaning | app/src/main/java/com/example/timemanagementapp/data/local/entity/Task.java:78 | For each reading of the offset, the reminder instant is none, the due date, strictly before it or strictly after it |
| TaskEntity.Task.constructor | app/src/main/java/com/example/timemanagementapp/data/local/entity/Task.java:80-90 | The constructed record is NewTaskRow of its arguments |
| TaskEntity.Task.Copy | app/src/main/java/com/example/timemanagementapp/ui/tasks/TaskEditFragment.java:119 | The copy constructor gives a record with every field equal to the original's |
| TaskEntity.Task.SetTaskId | app/src/main/java/com/example/timemanagementapp/data/local/entity/Task.java:98-100 | Changes taskId and nothing else |
| TaskEntity.Task.SetProjectId | app/src/main/java/com/example/timemanagementapp/data/local/entity/Task.java:106-108 | Changes projectId and nothing else |
| TaskEntity.Task.SetTitle | app/src/main/java/com/example/timemanagementapp/data/local/entity/Task.java:115-117 | Changes title and nothing else |
| TaskEntity.Task.SetDescription | app/src/main/java/com/example/timemanagementapp/data/local/entity/Task.java:123-125 | Changes description and nothing else |
| TaskEntity.Task.SetAssigneeUserId | app/src/main/java/com/example/timemanagementapp/data/local/entity/Task.java:131-133 | Changes assigneeUserId and nothing else |
| TaskEntity.Task.SetCreatorUserId | app/src/main/java/com/example/timemanagementapp/data/local/entity/Task.java:140-142 | Changes creatorUserId and nothing else |
| TaskEntity.Task.SetDueDate | app/src/main/java/com/example/timemanagementapp/data/local/entity/Task.java:148-150 | Changes dueDate and nothing else |
| TaskEntity.Task.SetPriority | app/src/main/java/com/example/timemanagementapp/data/local/entity/Task.java:156-158 | Changes priority and nothing else |
| TaskEntity.Task.SetStatus | app/src/main/java/com/example/timemanagementapp/data/local/entity/Task.java:165-167 | Changes status and nothing else |
| TaskEntity.Task.SetRecurring | app/src/main/java/com/example/timemanagementapp/data/local/entity/Task.java:173-175 | Changes isRecurring and nothing else |
| TaskEntity.Task.SetRecurrenceRule | app/src/main/java/com/example/timemanagementapp/data/local/entity/Task.java:181-183 | Changes recurrenceRule and nothing else |
| TaskEntity.Task.SetParentTaskId | app/src/main/java/com/example/timemanagementapp/data/local/entity/Task.java:189-191 | Changes parentTaskId and nothing else |
| TaskEntity.Task.SetCreatedAt | app/src/main/java/com/example/timemanagementapp/data/local/entity/Task.java:198-200 | Changes createdAt and nothing else |
| TaskEntity.Task.SetUpdatedAt | app/src/main/java/com/example/timemanagementapp/data/local/entity/Task.java:207-209 | Changes updatedAt and nothing else |
| TaskEntity.Task.SetCompletedAt | app/src/main/java/com/example/timemanagementapp/data/local/entity/Task.java:215-217 | Changes completedAt and nothing else |
| TaskEntity.Task.SetReminderOffsetMillisBeforeDueDate | app/src/main/java/com/example/timemanagementapp/data/local/entity/Task.java:224-226 | Changes the reminder offset and nothing else |
| TaskEntity.Task.SetTimeSpentMillis | app/src/main/java/com/example/timemanagementapp/ui/tasks/TaskViewModel.java:256-257 | Changes timeSpentMillis and nothing else |
| TaskEntity.Task.SetTimeTrackingStartTimeMillis | app/src/main/java/com/example/timemanagementapp/ui/tasks/TaskViewModel.java:243 | Changes the tracking start and nothing else |
| TaskEntity.RowsOf | app/src/main/java/com/example/timemanagementapp/data/local/dao/TaskDao.java:18-19 | The rows persisted for a list of tasks are their records, position by position |
| TaskEntity.OnProjectDeleted | app/src/main/java/com/example/timemanagementapp/data/local/entity/Task.java:15-18 | Deleting a project sets projectId to null on exactly its tasks, keeps every task and changes no other column |
| TaskEntity.OnUserDeleted | app/src/main/java/com/example/timemanagementapp/data/local/entity/Task.java:19-22 | Deleting a user sets assigneeUserId to null on exactly that user's tasks, keeps every task and changes no other column |
| TaskEntity.DeleteCascade | app/src/main/java/com/example/timemanagementapp/data/local/entity/Task.java:23-26 | The cascade only removes rows, and removes every row whose id is deleted |
| TaskEntity.CascadeLeavesNoOrphans | app/src/main/java/com/example/timemanagementapp/data/local/entity/Task.java:23-26 | After the cascade no surviving task has a deleted parent |
| TaskEntity.CascadeDeletesOnlyDescendants | app/src/main/java/com/example/timemanagementapp/data/local/entity/Task.java:23-26 | A task the cascade removes was deleted itself or has a removed parent |
| TaskEntity.CascadeUnique | app/src/main/java/com/example/timemanagementapp/data/local/entity/Task.java:23-26 | The cascade keeps task ids unique |
| TaskTable.DueFirstIsTotalPreorder | app/src/main/java/com/example/timemanagementapp/data/local/dao/TaskDao.java:33-34 | `ORDER BY due_date ASC` with SQLite's nulls-first order is a total preorder |
| TaskTable.PriorityThenDueIsTotalPreorder | app/src/main/java/com/example/timemanagementapp/data/local/dao/TaskDao.java:42-43 | `ORDER BY priority DESC, due_date ASC` is a total preorder |
| TaskTable.ClearedForMeaning | app/src/main/java/com/example/timemanagementapp/data/local/entity/Task.java:22-26 | Making room for an id keeps only old rows, none under that id, with unique keys; a new id deletes nothing, an existing one leaves no subtask of it |
| TaskTable.InsertOrReplaceMeaning | app/src/main/java/com/example/timemanagementapp/data/local/dao/TaskDao.java:15-16 | After INSERT OR REPLACE of a task the table holds it under its id with unique keys, every other row was there before, a new id is a plain upsert, and an existing id takes its subtasks with it |
| TaskTable.CommentsAfterInsertMeaning | app/src/main/java/com/example/timemanagementapp/data/local/entity/TaskComment.java:12-18 | Inserting under a new id deletes no comment; replacing an existing id deletes every comment on it |
| TaskTable.InsertKeepsKeys | app/src/main/java/com/example/timemanagementapp/data/local/dao/TaskDao.java:15-16 | The insert keeps both the task and the comment keys unique |
| TaskTable.InsertAllStep | app/src/main/java/com/example/timemanagementapp/data/local/dao/TaskDao.java:18-19 | A bulk insert is the one-by-one insert of its list, for tasks and comments |
| TaskTable.InsertAllOrReplaceMeaning | app/src/main/java/com/example/timemanagementapp/data/local/dao/TaskDao.java:18-19 | A bulk insert keeps keys unique and stores the last row of the list under its id |
| TaskTable.TaskDao.constructor | app/src/main/java/com/example/timemanagementapp/data/local/dao/TaskDao.java:15-43 | The task table starts empty |
| TaskTable.TaskDao.InsertTask | app/src/main/java/com/example/timemanagementapp/data/local/dao/TaskDao.java:15-16 | insertTask is INSERT OR REPLACE: a task stored under the same id is deleted with its subtasks (CASCADE) and the comments on all of them, then the row is appended; keys stay unique |
| TaskTable.TaskDao.InsertAllTasks | app/src/main/java/com/example/timemanagementapp/data/local/dao/TaskDao.java:18-19 | insertAllTasks is that insert for each row in turn, comments included; keys stay unique |
| TaskTable.TaskDao.UpdateTask | app/src/main/java/com/example/timemanagementapp/data/local/dao/TaskDao.java:21-22 | updateTask replaces only the row with the same task_id |
| TaskTable.TaskDao.DeleteTask | app/src/main/java/com/example/timemanagementapp/data/local/dao/TaskDao.java:24-25 | deleteTask removes the task and, by CASCADE, its subtasks and the deleted tasks' comments |
| TaskTable.TaskDao.DeleteAllTasks | app/src/main/java/com/example/timemanagementapp/data/local/dao/TaskDao.java:27-28 | deleteAllTasks leaves the table empty and, by CASCADE, removes the comments of every deleted task |
| TaskTable.TaskDao.GetTaskById | app/src/main/java/com/example/timemanagementapp/data/local/dao/TaskDao.java:30-31 | Returns the row with that id, or none exactly when there is none |
| TaskTable.TaskDao.GetAllTasksSortedByDueDate | app/src/main/java/com/example/timemanagementapp/data/local/dao/TaskDao.java:33-34 | A permutation of the table in non-decreasing due date, null dates first |
| TaskTable.TaskDao.GetTasksForProject | app/src/main/java/com/example/timemanagementapp/data/local/dao/TaskDao.java:36-37 | Exactly the rows of that project, priority descending then due date ascending |
| TaskTable.TaskDao.GetActiveTasksForUser | app/src/main/java/com/example/timemanagementapp/data/local/dao/TaskDao.java:39-40 | Exactly the rows assigned to that user whose status is not "done", in due-date order |
| TaskTable.TaskDao.GetAllTasksSortedByPriority | app/src/main/java/com/example/timemanagementapp/data/local/dao/TaskDao.java:42-43 | A permutation of the table, priority descending, ties by due date ascending |
| CommentTable.NewerFirstIsTotalPreorder | app/src/main/java/com/example/timemanagementapp/data/local/dao/TaskCommentDao.java:24-25 | `ORDER BY created_at DESC` is a total preorder |
| CommentTable.OnTasksDeleted | app/src/main/java/com/example/timemanagementapp/data/local/dao/TaskCommentDao.java:33-34 | Removing the comments of deleted tasks keeps exactly the other comments |
| CommentTable.OnTasksDeletedUnique | app/src/main/java/com/example/timemanagementapp/data/local/dao/TaskCommentDao.java:33-34 | That removal keeps comment ids unique |
| CommentTable.TaskCommentDao.constructor | app/src/main/java/com/example/timemanagementapp/data/local/dao/TaskCommentDao.java:15-34 | The comment table starts empty |
| CommentTable.TaskCommentDao.Insert | app/src/main/java/com/example/timemanagementapp/data/local/dao/TaskCommentDao.java:15-16 | INSERT OR REPLACE by commentId; keys stay unique |
| CommentTable.TaskCommentDao.Update | app/src/main/java/com/example/timemanagementapp/data/local/dao/TaskCommentDao.java:18-19 | Replaces only the row with the same commentId |
| CommentTable.TaskCommentDao.Delete | app/src/main/java/com/example/timemanagementapp/data/local/dao/TaskCommentDao.java:21-22 | Removes only the matching commentId |
| CommentTable.TaskCommentDao.GetCommentsForTask | app/src/main/java/com/example/timemanagementapp/data/local/dao/TaskCommentDao.java:24-25 | Exactly that task's comments, created_at descending |
| CommentTable.TaskCommentDao.GetCommentById | app/src/main/java/com/example/timemanagementapp/data/local/dao/TaskCommentDao.java:27-28 | Returns the comment with that id, or none exactly when there is none |
| CommentTable.TaskCommentDao.GetCommentCountForTask | app/src/main/java/com/example/timemanagementapp/data/local/dao/TaskCommentDao.java:30-31 | The count equals the length of getCommentsForTask for the same id |
| CommentTable.TaskCommentDao.DeleteAllCommentsForTask | app/src/main/java/com/example/timemanagementapp/data/local/dao/TaskCommentDao.java:33-34 | Removes exactly that task's comments; the others stay |
| CommentTable.CountOfTask | app/src/main/java/com/example/timemanagementapp/data/local/dao/TaskCommentDao.java:30-31 | COUNT(*) equals the size of the task's filter |
| ProjectTable.NameFirstIsTotalPreorder | app/src/main/java/com/example/timemanagementapp/data/local/dao/ProjectDao.java:24-25 | `ORDER BY name ASC` is a total preorder |
| ProjectTable.ProjectDao.constructor | app/src/main/java/com/example/timemanagementapp/data/local/dao/ProjectDao.java:15-31 | The project table starts empty |
| ProjectTable.ProjectDao.InsertProject | app/src/main/java/com/example/timemanagementapp/data/local/dao/ProjectDao.java:15-16 | INSERT OR REPLACE by projectId; replacing a stored project first clears projectId on its tasks (SET NULL), a new id leaves the tasks alone; keys stay unique |
| ProjectTable.ProjectDao.UpdateProject | app/src/main/java/com/example/timemanagementapp/data/local/dao/ProjectDao.java:18-19 | Replaces only the row with the same projectId |
| ProjectTable.ProjectDao.DeleteProject | app/src/main/java/com/example/timemanagementapp/data/local/dao/ProjectDao.java:21-22 | Removes only that project; when it was stored, SET NULL clears projectId on its tasks, and when it was not, no task changes |
| ProjectTable.ProjectDao.GetAllProjects | app/src/main/java/com/example/timemanagementapp/data/local/dao/ProjectDao.java:24-25 | A permutation of the table ordered by name |
| ProjectTable.ProjectDao.GetProjectById | app/src/main/java/com/example/timemanagementapp/data/local/dao/ProjectDao.java:27-28 | Returns the project with that id, or none exactly when there is none |
| ProjectTable.ProjectDao.GetProjectsByOwner | app/src/main/java/com/example/timemanagementapp/data/local/dao/ProjectDao.java:30-31 | Exactly that owner's projects, ordered by name |
| InviteTable.WithStatus | app/src/main/java/com/example/timemanagementapp/data/local/dao/CollaborationInviteDao.java:41-42 | `UPDATE … SET status` changes only the status of the rows with that id |
| InviteTable.WithStatusKeepsKeys | app/src/main/java/com/example/timemanagementapp/data/local/dao/CollaborationInviteDao.java:41-42 | After the status update, keys stay unique and the by-id lookup shows the new status on that id only |
| InviteTable.CollaborationInviteDao.constructor | app/src/main/java/com/example/timemanagementapp/data/local/dao/CollaborationInviteDao.java:17-42 | The invite table starts empty |
| InviteTable.CollaborationInviteDao.InsertInvite | app/src/main/java/com/example/timemanagementapp/data/local/dao/CollaborationInviteDao.java:17-18 | INSERT OR REPLACE by inviteId; keys stay unique |
| InviteTable.CollaborationInviteDao.UpdateInvite | app/src/main/java/com/example/timemanagementapp/data/local/dao/CollaborationInviteDao.java:20-21 | Replaces only the row with the same inviteId |
| InviteTable.CollaborationInviteDao.DeleteInvite | app/src/main/java/com/example/timemanagementapp/data/local/dao/CollaborationInviteDao.java:23-24 | Removes only that invite |
| InviteTable.CollaborationInviteDao.GetInviteById | app/src/main/java/com/example/timemanagementapp/data/local/dao/CollaborationInviteDao.java:26-27 | Returns the invite with that id, or none exactly when there is none |
| InviteTable.CollaborationInviteDao.GetInvitesForProject | app/src/main/java/com/example/timemanagementapp/data/local/dao/CollaborationInviteDao.java:29-30 | Exactly the rows of that project |
| InviteTable.CollaborationInviteDao.GetInvitesSentByUser | app/src/main/java/com/example/timemanagementapp/data/local/dao/CollaborationInviteDao.java:32-33 | Exactly the rows with that inviter |
| InviteTable.CollaborationInviteDao.GetInvitesForEmail | app/src/main/java/com/example/timemanagementapp/data/local/dao/CollaborationInviteDao.java:35-36 | Exactly the rows addressed to that email |
| InviteTable.CollaborationInviteDao.GetPendingInvitesForEmail | app/src/main/java/com/example/timemanagementapp/data/local/dao/CollaborationInviteDao.java:38-39 | Exactly the email's invites whose status is "pending" |
| InviteTable.CollaborationInviteDao.PendingAreInvitesForEmail | app/src/main/java/com/example/timemanagementapp/data/local/dao/CollaborationInviteDao.java:35-39 | The pending invites are a sub-multiset of the email's invites, and exactly those with status "pending" |
| InviteTable.CollaborationInviteDao.UpdateInviteStatus | app/src/main/java/com/example/timemanagementapp/data/local/dao/CollaborationInviteDao.java:41-42 | Changes only the status of the row with that id |
| CurrentUser.CurrentUserManager.constructor | app/src/main/java/com/example/timemanagementapp/data/local/entity/CurrentUserManager.java:3-4 | No user is signed in at start |
| CurrentUser.CurrentUserManager.SetCurrentUser | app/src/main/java/com/example/timemanagementapp/data/local/entity/CurrentUserManager.java:6-8 | Afterwards getCurrentUser returns the argument, replacing any previous user, and getCurrentUserId its id |
| CurrentUser.CurrentUserManager.GetCurrentUserId | app/src/main/java/com/example/timemanagementapp/data/local/entity/CurrentUserManager.java:14-16 | Null exactly when nobody is signed in; otherwise the user's id |
| Reminders.ReminderTag | app/src/main/java/com/example/timemanagementapp/notifications/ReminderWorker.java:51 | The tag is "reminder_" followed by the task id |
| Reminders.ReminderTagInjective | app/src/main/java/com/example/timemanagementapp/notifications/ReminderWorker.java:51 | Different task ids give different tags |
| Reminders.ReminderInput | app/src/main/java/com/example/timemanagementapp/notifications/ReminderWorker.java:40-44 | The job's input data holds the id, and the title and content exactly when they are non-null |
| Reminders.DoWork | app/src/main/java/com/example/timemanagementapp/notifications/ReminderWorker.java:23-36 | Succeeds exactly when id, title and content are all present, showing exactly one notification with them; otherwise fails and shows nothing |
| Reminders.ScheduledInputRoundTrip | app/src/main/java/com/example/timemanagementapp/notifications/ReminderWorker.java:25-44 | The payload written by scheduleReminder is read back unchanged by doWork |
| Reminders.WithoutTag | app/src/main/java/com/example/timemanagementapp/notifications/ReminderWorker.java:58-60 | Cancelling by tag removes exactly the jobs with that tag |
| Reminders.CancelThenEnqueue | app/src/main/java/com/example/timemanagementapp/ui/tasks/TaskViewModel.java:149-175 | After cancelling a tag and enqueueing jobs with that tag, the tag's jobs are exactly those enqueued |
| Reminders.CancelSparesOtherTasks | app/src/main/java/com/example/timemanagementapp/notifications/ReminderWorker.java:51-60 | Cancelling one task's reminders leaves another task's jobs untouched |
| Reminders.WorkManager.constructor | app/src/main/java/com/example/timemanagementapp/notifications/ReminderWorker.java:38-60 | The job store starts empty |
| Reminders.WorkManager.Enqueue | app/src/main/java/com/example/timemanagementapp/notifications/ReminderWorker.java:52-55 | Enqueueing appends the job |
| Reminders.WorkManager.CancelAllWorkByTag | app/src/main/java/com/example/timemanagementapp/notifications/ReminderWorker.java:58-60 | Removes exactly the jobs with that tag |
| Reminders.ScheduleReminder | app/src/main/java/com/example/timemanagementapp/notifications/ReminderWorker.java:38-56 | Appends one job with tag "reminder_"+taskId, the given delay and the payload |
| Reminders.CancelReminder | app/src/main/java/com/example/timemanagementapp/notifications/ReminderWorker.java:58-60 | Removes exactly the jobs tagged "reminder_"+taskId |
| Tasks.StringEquals | app/src/main/java/com/example/timemanagementapp/ui/tasks/TaskViewModel.java:126-129 | Null-aware equality: true exactly when both are null or equal |
| Tasks.ReminderContent | app/src/main/java/com/example/timemanagementapp/ui/tasks/TaskViewModel.java:166-167 | The description when non-null and non-empty, otherwise the fixed default text; never empty |
| Tasks.PlanReminder | app/src/main/java/com/example/timemanagementapp/ui/tasks/TaskViewModel.java:158-175 | A job is planned exactly when due date and offset are set and due − offset > now; its delay is due − offset − now, strictly positive |
| Tasks.PlannedJobs | app/src/main/java/com/example/timemanagementapp/ui/tasks/TaskViewModel.java:164-175 | At most one job is planned, tagged with the task's tag |
| Tasks.AtMostOneReminderPerTask | app/src/main/java/com/example/timemanagementapp/ui/tasks/TaskViewModel.java:149-175 | After cancel-then-plan, the jobs carrying the task's tag are exactly the planned one (at most one) |
| Tasks.PlannedReminderShowsTask | app/src/main/java/com/example/timemanagementapp/ui/tasks/TaskViewModel.java:164-175 | Running the planned job shows one notification with the task's id, title and content |
| Tasks.StoppedRow | app/src/main/java/com/example/timemanagementapp/ui/tasks/TaskViewModel.java:250-263 | Stopping a started timer adds now − start to time spent and clears start; no start means no change; no other column changes |
| Tasks.StartedRow | app/src/main/java/com/example/timemanagementapp/ui/tasks/TaskViewModel.java:239-247 | Starting sets the start and the edit time to now and changes nothing else; the time spent is unchanged |
| Tasks.StopAfterStart | app/src/main/java/com/example/timemanagementapp/ui/tasks/TaskViewModel.java:239-263 | Start at t0 then stop at t1 adds exactly t1 − t0 |
| Tasks.TwoSessionsAdd | app/src/main/java/com/example/timemanagementapp/ui/tasks/TaskViewModel.java:239-263 | Two start/stop sessions add up |
| Tasks.LegacyRename | app/src/main/java/com/example/timemanagementapp/ui/tasks/TaskViewModel.java:498-517 | Only the three legacy names are rewritten, to their Ukrainian names; id, owner and timestamps stay |
| Tasks.LegacyRenameOnce | app/src/main/java/com/example/timemanagementapp/ui/tasks/TaskViewModel.java:498-517 | A renamed project is not renamed again |
| Tasks.RenamedProjects | app/src/main/java/com/example/timemanagementapp/ui/tasks/TaskViewModel.java:519-522 | Only renamed legacy projects are written back |
| Tasks.RenamedList | app/src/main/java/com/example/timemanagementapp/ui/tasks/TaskViewModel.java:498-517 | The in-place rename updates each element of the list |
| Tasks.RenamedProjectsSnoc | app/src/main/java/com/example/timemanagementapp/ui/tasks/TaskViewModel.java:498-522 | One loop step writes back at most the current project |
| Tasks.RenameWritesOnlyLegacy | app/src/main/java/com/example/timemanagementapp/ui/tasks/TaskViewModel.java:519-522 | A row of a project that is not legacy-named is left as it was |
| Tasks.NoticesFor | app/src/main/java/com/example/timemanagementapp/ui/tasks/TaskViewModel.java:134-141 | A notification is sent exactly when the assignee is non-null, non-empty, not the current user and not the creator; it goes to that assignee |
| Tasks.TaskViewModel.constructor | app/src/main/java/com/example/timemanagementapp/ui/tasks/TaskViewModel.java:100 | The view model starts in due-date mode with that source attached |
| Tasks.TaskViewModel.SetSortMode | app/src/main/java/com/example/timemanagementapp/ui/tasks/TaskViewModel.java:205-232 | The same mode with an existing value leaves the mode and the attached sources as they were; otherwise the mode becomes the argument and exactly its source is attached; the list value and the notices never change |
| Tasks.TaskViewModel.Deliver | app/src/main/java/com/example/timemanagementapp/ui/tasks/TaskViewModel.java:222-231 | An attached source with a value sets the mediator's value; nothing else changes |
| Tasks.TaskViewModel.CheckAndNotifyAssignment | app/src/main/java/com/example/timemanagementapp/ui/tasks/TaskViewModel.java:134-141 | Appends exactly NoticesFor(task, current user) |
| Tasks.TaskViewModel.RescheduleReminder | app/src/main/java/com/example/timemanagementapp/ui/tasks/TaskViewModel.java:155-175 | Cancels the task's tag, then enqueues the planned job if any |
| Tasks.TaskViewModel.Insert | app/src/main/java/com/example/timemanagementapp/ui/tasks/TaskViewModel.java:103-109 | Inserts the task as insertTask does (replacing a stored task deletes its subtasks and their comments), reschedules its reminder and sends the assignment notice |
| Tasks.TaskViewModel.Update | app/src/main/java/com/example/timemanagementapp/ui/tasks/TaskViewModel.java:111-123 | Replaces the task and reschedules its reminder; notifies only when the stored task's assignee differs |
| Tasks.TaskViewModel.Delete | app/src/main/java/com/example/timemanagementapp/ui/tasks/TaskViewModel.java:144-147 | Deletes the task (cascading) and only cancels its reminder |
| Tasks.TaskViewModel.DeleteAllTasks | app/src/main/java/com/example/timemanagementapp/ui/tasks/TaskViewModel.java:179-185 | Empties the task table and cancels no reminders |
| Tasks.TaskViewModel.StartTrackingTime | app/src/main/java/com/example/timemanagementapp/ui/tasks/TaskViewModel.java:239-247 | For a non-null task, stores StartedRow through update: the table, the reminder jobs and the notices are those of update with that row, the task itself is unchanged; a null task changes nothing; the sort state is untouched |
| Tasks.TaskViewModel.StopTrackingTime | app/src/main/java/com/example/timemanagementapp/ui/tasks/TaskViewModel.java:250-263 | With a start, stores StoppedRow through update: the table, the reminder jobs and the notices are those of update with that row; without one nothing changes; the task itself and the sort state are untouched |
| Tasks.TaskViewModel.AddComment | app/src/main/java/com/example/timemanagementapp/ui/tasks/TaskViewModel.java:355-360 | With a signed-in user, inserts a comment by that user with createdAt == updatedAt == now; otherwise nothing |
| Tasks.TaskViewModel.UpdateComment | app/src/main/java/com/example/timemanagementapp/ui/tasks/TaskViewModel.java:363-366 | Sets updatedAt to now, then replaces the comment |
| Tasks.TaskViewModel.DeleteComment | app/src/main/java/com/example/timemanagementapp/ui/tasks/TaskViewModel.java:368-370 | Removes only that comment |
| Tasks.TaskViewModel.DeleteAllCommentsForTask | app/src/main/java/com/example/timemanagementapp/ui/tasks/TaskViewModel.java:384-386 | Removes exactly that task's comments |
| Tasks.TaskViewModel.UpdateProjectNamesToUkrainian | app/src/main/java/com/example/timemanagementapp/ui/tasks/TaskViewModel.java:498-522 | Renames every element of the list in place and writes back exactly the renamed legacy projects |
| Tasks.TaskViewModel.WriteBackRename | app/src/main/java/com/example/timemanagementapp/ui/tasks/TaskViewModel.java:499-522 | One loop step: renames the project and updates it in the table only when its name was legacy |
| Decimal.JavaDiv | app/src/main/java/com/example/timemanagementapp/ui/adapters/TaskAdapter.java:154-156 | Java `/`: truncation toward zero |
| Decimal.JavaRem | app/src/main/java/com/example/timemanagementapp/ui/adapters/TaskAdapter.java:154-155 | Java `%`: the remainder has the sign of the dividend and a == q·b + r |
| Decimal.NatText | app/src/main/java/com/example/timemanagementapp/ui/adapters/TaskAdapter.java:158-162 | `%d` of a natural number is a non-empty string of digits |
| Decimal.ParseNatText | app/src/main/java/com/example/timemanagementapp/ui/adapters/TaskAdapter.java:158-162 | `%d` text reads back as the number |
| Decimal.IntText | app/src/main/java/com/example/timemanagementapp/ui/adapters/TaskAdapter.java:158-162 | `%d` of a negative number is "-" then the digits |
| Decimal.IntTextReadsBack | app/src/main/java/com/example/timemanagementapp/ui/adapters/TaskAdapter.java:158-162 | `%d` reads back: the digits of a non-negative number, or "-" then the digits of the magnitude |
| Decimal.Pad2 | app/src/main/java/com/example/timemanagementapp/ui/adapters/TaskAdapter.java:158-160 | `%02d` of 0..99 is two digits |
| Decimal.ParsePad2 | app/src/main/java/com/example/timemanagementapp/ui/adapters/TaskAdapter.java:158-160 | `%02d` text reads back as the number |
| TaskList.FieldsInRange | app/src/main/java/com/example/timemanagementapp/ui/adapters/TaskAdapter.java:153-156 | For millis ≥ 0, seconds and minutes are in [0, 60) and hours are non-negative (unbounded) |
| TaskList.FieldsAddUp | app/src/main/java/com/example/timemanagementapp/ui/adapters/TaskAdapter.java:153-156 | Hours, minutes, seconds and the leftover millis add back up to the duration |
| TaskList.ShownMillisTruncates | app/src/main/java/com/example/timemanagementapp/ui/adapters/TaskAdapter.java:157-163 | The text drops less than a minute when hours are shown, less than a second otherwise |
| TaskList.FormatReadsBack | app/src/main/java/com/example/timemanagementapp/ui/adapters/TaskAdapter.java:153-164 | The duration text reads back as the shown duration |
| TaskList.ReadsBackHours | app/src/main/java/com/example/timemanagementapp/ui/adapters/TaskAdapter.java:157-158 | "H ч MM мин" reads back as H hours and MM minutes |
| TaskList.ReadsBackMinutes | app/src/main/java/com/example/timemanagementapp/ui/adapters/TaskAdapter.java:159-160 | "M мин SS сек" reads back as M minutes and SS seconds |
| TaskList.ReadsBackSeconds | app/src/main/java/com/example/timemanagementapp/ui/adapters/TaskAdapter.java:161-162 | "S сек" reads back as S seconds |
| TaskList.FormatMillisToTime | app/src/main/java/com/example/timemanagementapp/ui/adapters/TaskAdapter.java:153-164 | Whole hours, minutes and seconds by Java division: "H ч MM мин" with hours, else "M мин SS сек" with minutes, else "S сек"; what the text means is FormatReadsBack |
| TaskList.PriorityBadgeFor | app/src/main/java/com/example/timemanagementapp/ui/adapters/TaskAdapter.java:98-119 | 1 gives "Низкий" and 3 "Высокий", both with white text; anything else "Средний" with black text |
| TaskList.PriorityLabelsDistinct | app/src/main/java/com/example/timemanagementapp/ui/adapters/TaskAdapter.java:98-116 | The three priorities get three different labels |
| TaskList.DisplayTime | app/src/main/java/com/example/timemanagementapp/ui/adapters/TaskAdapter.java:122-134 | Running (start non-null and > 0) shows spent + (now − start); otherwise spent |
| TaskList.StopKeepsDisplayedTime | app/src/main/java/com/example/timemanagementapp/ui/adapters/TaskAdapter.java:122-134 | Stopping does not change the displayed time, and the timer is no longer running |
| TaskList.StartShowsElapsed | app/src/main/java/com/example/timemanagementapp/ui/adapters/TaskAdapter.java:122-125 | After a start the timer runs and shows spent plus the elapsed time |
| TaskList.TimeSpentText | app/src/main/java/com/example/timemanagementapp/ui/adapters/TaskAdapter.java:143-150 | A positive display time is formatted; otherwise "0 сек" |
| TaskList.TimerButtonFor | app/src/main/java/com/example/timemanagementapp/ui/adapters/TaskAdapter.java:122-140 | The button is "stop" exactly when the timer runs |
| TaskList.UserNameFor | app/src/main/java/com/example/timemanagementapp/ui/adapters/TaskAdapter.java:211-219 | Null gives ""; otherwise the name of the first user in the list with that id, else the id itself |
| TaskList.SameContentsRenderSame | app/src/main/java/com/example/timemanagementapp/ui/adapters/TaskAdapter.java:42-53 | Tasks that are the same by the diff callback render the same row |
| TaskList.ContentsEquivalence | app/src/main/java/com/example/timemanagementapp/ui/adapters/TaskAdapter.java:42-53 | areContentsTheSame is an equivalence |
| TaskList.AreItemsTheSame | app/src/main/java/com/example/timemanagementapp/ui/adapters/TaskAdapter.java:37-40 | Two rows are the same item exactly when their task ids are equal |
| TaskList.AreContentsTheSame | app/src/main/java/com/example/timemanagementapp/ui/adapters/TaskAdapter.java:42-53 | Title, status, priority, due date, time spent, assignee and tracking start agree; sound by SameContentsRenderSame |
| TaskList.Render | app/src/main/java/com/example/timemanagementapp/ui/adapters/TaskAdapter.java:67-151 | The title, due date, assignee name (only for a non-empty assignee), status, priority badge, time text and timer button the row shows |
| TaskList.TaskAdapter.constructor | app/src/main/java/com/example/timemanagementapp/ui/adapters/TaskAdapter.java:31-34 | The adapter starts with an empty user list |
| TaskList.TaskAdapter.SetUserList | app/src/main/java/com/example/timemanagementapp/ui/adapters/TaskAdapter.java:206-209 | Stores the list; null stores an empty list |
| TaskList.TaskAdapter.GetUserNameById | app/src/main/java/com/example/timemanagementapp/ui/adapters/TaskAdapter.java:211-219 | The loop returns UserNameFor of the stored list |
| TaskList.TaskAdapter.OnTimerButtonClick | app/src/main/java/com/example/timemanagementapp/ui/adapters/TaskAdapter.java:128-140 | A running timer stops and any other starts: the table, the reminder jobs and the notices are those of stopTrackingTime or startTrackingTime; the sort state is untouched |
| CommentList.AuthorLabel | app/src/main/java/com/example/timemanagementapp/ui/adapters/CommentAdapter.java:69-71 | The cached user's name, or "Пользователь" when absent from the cache |
| CommentList.ShownDate | app/src/main/java/com/example/timemanagementapp/ui/adapters/CommentAdapter.java:74-75 | updatedAt when non-null, else createdAt |
| CommentList.FormatDate | app/src/main/java/com/example/timemanagementapp/ui/adapters/CommentAdapter.java:115-117 | A null date renders "" |
| CommentList.NoOwnCommentsSignedOut | app/src/main/java/com/example/timemanagementapp/ui/adapters/CommentAdapter.java:79-81 | With no current user, edit and delete are never shown |
| CommentList.OwnCommentMeansAuthor | app/src/main/java/com/example/timemanagementapp/ui/adapters/CommentAdapter.java:79 | Edit and delete are shown exactly when the comment's author is the current user |
| CommentList.SameContentsRenderSame | app/src/main/java/com/example/timemanagementapp/ui/adapters/CommentAdapter.java:49-53 | Comments that are the same by the diff callback (same author) render the same |
| CommentList.EditedCommentShowsEditTime | app/src/main/java/com/example/timemanagementapp/ui/adapters/CommentAdapter.java:74-75 | An edited comment shows its edit time |
| CommentList.IsOwnComment | app/src/main/java/com/example/timemanagementapp/ui/adapters/CommentAdapter.java:79-81 | Edit and delete are offered exactly when someone is signed in and wrote the comment |
| CommentList.AreItemsTheSame | app/src/main/java/com/example/timemanagementapp/ui/adapters/CommentAdapter.java:45-48 | Two comments are the same item exactly when their comment ids are equal |
| CommentList.AreContentsTheSame | app/src/main/java/com/example/timemanagementapp/ui/adapters/CommentAdapter.java:49-53 | Text and edit time agree, with the old item's edit time dereferenced |
| CommentList.RenderComment | app/src/main/java/com/example/timemanagementapp/ui/adapters/CommentAdapter.java:66-81 | The author label, the text, the formatted shown date and whether the actions are visible |
| CommentList.CommentAdapter.constructor | app/src/main/java/com/example/timemanagementapp/ui/adapters/CommentAdapter.java:37-41 | Empty cache, given current user |
| CommentList.CommentAdapter.UpdateUserCache | app/src/main/java/com/example/timemanagementapp/ui/adapters/CommentAdapter.java:103-113 | Non-null: the cache becomes the map; null: the cache is unchanged |
| CommentList.CommentAdapter.Render | app/src/main/java/com/example/timemanagementapp/ui/adapters/CommentAdapter.java:66-81 | The author label comes from the cache; the actions are visible exactly for own comments |
| Calendar.SameDayIsEquivalence | app/src/main/java/com/example/timemanagementapp/ui/calendar/CalendarFragment.java:253-263 | Same day is "same (year, day-of-year)", an equivalence |
| Calendar.TasksOnDayIsFilter | app/src/main/java/com/example/timemanagementapp/ui/calendar/CalendarFragment.java:242-247 | The add-loop's result is the filter of tasks due on that day |
| Calendar.TasksOnDayMembers | app/src/main/java/com/example/timemanagementapp/ui/calendar/CalendarFragment.java:242-247 | A task is listed exactly when it is in the list, has a due date, and is due on that day |
| Calendar.NothingDueListsNothing | app/src/main/java/com/example/timemanagementapp/ui/calendar/CalendarFragment.java:207-218 | With nothing due on the day, the list is empty |
| Calendar.SameDaySameTasks | app/src/main/java/com/example/timemanagementapp/ui/calendar/CalendarFragment.java:253-263 | Two instants of the same day list the same tasks |
| Calendar.IsSameDay | app/src/main/java/com/example/timemanagementapp/ui/calendar/CalendarFragment.java:253-263 | Same year and same day of the year; an equivalence by SameDayIsEquivalence |
| Calendar.TasksOnDay | app/src/main/java/com/example/timemanagementapp/ui/calendar/CalendarFragment.java:242-247 | The loop over the tasks keeping, in order, those with a due date on the day; its meaning is TasksOnDayIsFilter and TasksOnDayMembers |
| Calendar.CalendarFragment.ShownFor | app/src/main/java/com/example/timemanagementapp/ui/calendar/CalendarFragment.java:236-250 | Nothing for a null date or before tasks arrive, otherwise TasksOnDay of the current list |
| Calendar.EditArgsFor | app/src/main/java/com/example/timemanagementapp/ui/calendar/CalendarFragment.java:270-287 | Arguments carry the task id exactly when it is non-null and the date exactly when it is non-null; none when both are null |
| Calendar.CalendarFragment.constructor | app/src/main/java/com/example/timemanagementapp/ui/calendar/CalendarFragment.java:48-49 | No task and no selected date at start |
| Calendar.CalendarFragment.FilterTasksForDate | app/src/main/java/com/example/timemanagementapp/ui/calendar/CalendarFragment.java:236-250 | A null date shows nothing; otherwise the order-preserving subsequence due that day |
| Calendar.CalendarFragment.HasTasks | app/src/main/java/com/example/timemanagementapp/ui/calendar/CalendarFragment.java:207-218 | True exactly when the filter for that day is non-empty |
| Calendar.CalendarFragment.OnDayClicked | app/src/main/java/com/example/timemanagementapp/ui/calendar/CalendarFragment.java:150-158 | Selects the day and refilters |
| Calendar.CalendarFragment.ObserveTasks | app/src/main/java/com/example/timemanagementapp/ui/calendar/CalendarFragment.java:220-234 | A non-null list replaces allTasks and refilters when a day is selected |
| Calendar.CalendarFragment.OnAddClicked | app/src/main/java/com/example/timemanagementapp/ui/calendar/CalendarFragment.java:67-74 | Sets the selection to today when unset; opens the editor with no task and the selected date |
| CalendarDays.OwnerOf | app/src/main/java/com/example/timemanagementapp/ui/calendar/CalendarDayWrapper.java:24-42 | MonthDate gives THIS_MONTH, InDate PREVIOUS_MONTH, OutDate NEXT_MONTH |
| CalendarDays.OwnerRoundTrip | app/src/main/java/com/example/timemanagementapp/ui/calendar/CalendarDayWrapper.java:24-42 | Position and owner correspond one to one |
| CalendarDays.CalendarDayWrapper.constructor | app/src/main/java/com/example/timemanagementapp/ui/calendar/CalendarDayWrapper.java:16-18 | Wraps the day |
| CalendarDays.CalendarDayWrapper.GetOwner | app/src/main/java/com/example/timemanagementapp/ui/calendar/CalendarDayWrapper.java:24-42 | The owner corresponds to the day's position |
| CalendarDays.CalendarDayWrapper.GetDate | app/src/main/java/com/example/timemanagementapp/ui/calendar/CalendarDayWrapper.java:47-49 | Returns the wrapped day's date unchanged |
| Collaboration.DecideInvite | app/src/main/java/com/example/timemanagementapp/ui/collaboration/CollaborationViewModel.java:52-109 | Missing fields first, then signed out, missing project, not owner; otherwise a pending invite from the current user with the given email, project and role |
| Collaboration.BuiltInviteIsPendingForInvitee | app/src/main/java/com/example/timemanagementapp/ui/collaboration/CollaborationViewModel.java:92-99 | A built invite is pending for the invitee and sent by the project's owner |
| Collaboration.MockInvites | app/src/main/java/com/example/timemanagementapp/ui/collaboration/CollaborationViewModel.java:262-287 | Two pending invites addressed to the email, with the fixed projects, inviters and roles |
| Collaboration.MockInvitesArePending | app/src/main/java/com/example/timemanagementapp/ui/collaboration/CollaborationViewModel.java:262-287 | The pending filter keeps both mock invites |
| Collaboration.RemoveFirst | app/src/main/java/com/example/timemanagementapp/ui/collaboration/CollaborationViewModel.java:248-256 | Removes at most one invite (exactly one if the id is present) and nothing when absent |
| Collaboration.RemoveFirstAt | app/src/main/java/com/example/timemanagementapp/ui/collaboration/CollaborationViewModel.java:250-254 | The removed invite is the first with that id; the others keep their order |
| Collaboration.CollaborationViewModel.constructor | app/src/main/java/com/example/timemanagementapp/ui/collaboration/CollaborationViewModel.java:40-43 | No status and no pending list at start |
| Collaboration.CollaborationViewModel.InviteUserToProject | app/src/main/java/com/example/timemanagementapp/ui/collaboration/CollaborationViewModel.java:52-109 | Posts DecideInvite's message and builds its invite only on success |
| Collaboration.CollaborationViewModel.LoadPendingInvitesForUser | app/src/main/java/com/example/timemanagementapp/ui/collaboration/CollaborationViewModel.java:116-138 | An empty email posts an error; otherwise the two mock invites are published |
| Collaboration.CollaborationViewModel.RespondToInvite | app/src/main/java/com/example/timemanagementapp/ui/collaboration/CollaborationViewModel.java:204-259 | Empty id or signed out: an error and no change; otherwise the answer is posted and the first invite with that id is removed |
| Collaboration.CollaborationViewModel.GetProjectName | app/src/main/java/com/example/timemanagementapp/ui/collaboration/CollaborationViewModel.java:145-167 | An empty id gives the unknown-project text, otherwise the placeholder |
| Collaboration.CollaborationViewModel.GetUserName | app/src/main/java/com/example/timemanagementapp/ui/collaboration/CollaborationViewModel.java:174-196 | An empty id gives the unknown-user text, otherwise the placeholder |
| TaskEdit.TrimStart | app/src/main/java/com/example/timemanagementapp/ui/tasks/TaskEditFragment.java:521 | Dropping leading blanks (chars ≤ U+0020) leaves a string that is empty or starts with a non-blank, no longer than the input |
| TaskEdit.TrimEnd | app/src/main/java/com/example/timemanagementapp/ui/tasks/TaskEditFragment.java:521 | Dropping trailing blanks leaves a string that is empty or ends with a non-blank, no longer than the input |
| TaskEdit.Trim | app/src/main/java/com/example/timemanagementapp/ui/tasks/TaskEditFragment.java:521 | `String.trim`: the result has no blank at either end and is no longer than the input |
| TaskEdit.TrimKeepsTrimmed | app/src/main/java/com/example/timemanagementapp/ui/tasks/TaskEditFragment.java:521-526 | An already trimmed string is unchanged, so trimming is idempotent on it |
| TaskEdit.IndexOf | app/src/main/java/com/example/timemanagementapp/ui/tasks/TaskEditFragment.java:380-427 | The spinner lookups return the first matching index, or none when nothing matches |
| TaskEdit.ReminderAt | app/src/main/java/com/example/timemanagementapp/ui/tasks/TaskEditFragment.java:547-551 | Position 0 saves no reminder, any later one the offset of that option |
| TaskEdit.ProjectPosition | app/src/main/java/com/example/timemanagementapp/ui/tasks/TaskEditFragment.java:390-406 | Null or empty id selects 0, a listed project its index + 1 when the spinner has it, anything else 0; round trip in ProjectRoundTrip |
| TaskEdit.ProjectAt | app/src/main/java/com/example/timemanagementapp/ui/tasks/TaskEditFragment.java:528-535 | Position 0 saves no project, position i the id of project i − 1 |
| TaskEdit.AssigneePosition | app/src/main/java/com/example/timemanagementapp/ui/tasks/TaskEditFragment.java:408-427 | Null or an empty list selects 0, a listed user its index + 1, anyone else 0; round trip in AssigneeRoundTrip |
| TaskEdit.AssigneeAt | app/src/main/java/com/example/timemanagementapp/ui/tasks/TaskEditFragment.java:537-541 | Position 0, or an empty list, saves no assignee, position i the id of user i − 1 |
| TaskEdit.StatusPosition | app/src/main/java/com/example/timemanagementapp/ui/tasks/TaskEditFragment.java:261-267 | The first index holding the status, else the previous selection; round trip in StatusRoundTrip |
| TaskEdit.ReminderPosition | app/src/main/java/com/example/timemanagementapp/ui/tasks/TaskEditFragment.java:380-388 | The reminder position is always a valid spinner index |
| TaskEdit.ReminderRoundTrip | app/src/main/java/com/example/timemanagementapp/ui/tasks/TaskEditFragment.java:380-388 | An offset in the table is read back unchanged by saveTask; unknown offsets and null save as null |
| TaskEdit.ReminderPositionRoundTrip | app/src/main/java/com/example/timemanagementapp/ui/tasks/TaskEditFragment.java:547-551 | Each reminder position is reselected by the offset it saves |
| TaskEdit.ProjectRoundTrip | app/src/main/java/com/example/timemanagementapp/ui/tasks/TaskEditFragment.java:390-406 | Null or empty id gives position 0, which saves null; the project at index i is shown at i+1 and saved back |
| TaskEdit.AssigneeRoundTrip | app/src/main/java/com/example/timemanagementapp/ui/tasks/TaskEditFragment.java:408-427 | A user at index i is shown at i+1 and saved back as that id; null or unknown gives 0, which saves null |
| TaskEdit.StatusRoundTrip | app/src/main/java/com/example/timemanagementapp/ui/tasks/TaskEditFragment.java:261-267 | A status in the array is selected at its index and saved back |
| TaskEdit.UntouchedFormSavesSameTask | app/src/main/java/com/example/timemanagementapp/ui/tasks/TaskEditFragment.java:252-291 | Loading a presentable task and saving the untouched form writes the same columns back (a null description becomes "") |
| TaskEdit.ReadForm | app/src/main/java/com/example/timemanagementapp/ui/tasks/TaskEditFragment.java:521-551 | The trimmed title and description, the due date, priority position + 1, the status value at its position, and the reminder, project and assignee of their positions |
| TaskEdit.LoadForm | app/src/main/java/com/example/timemanagementapp/ui/tasks/TaskEditFragment.java:252-291 | The form filled from a task: title, description or "", due date, priority − 1 and the positions of status, reminder, project and assignee; inverse of ReadForm by UntouchedFormSavesSameTask |
| TaskEdit.SavedTimerAsWritten | app/src/main/java/com/example/timemanagementapp/ui/tasks/TaskEditFragment.java:588-593 | As written: with a running session the chronometer reading is added to the time spent and the start is kept |
| TaskEdit.SavedTimer | app/src/main/java/com/example/timemanagementapp/ui/tasks/TaskEditFragment.java:579-593 | Corrected: the reading is added and the session ended |
| TaskEdit.EditedRow | app/src/main/java/com/example/timemanagementapp/ui/tasks/TaskEditFragment.java:553-599 | The form's columns, updatedAt == now and the timer as written; its identity columns by EditKeepsIdentity |
| TaskEdit.CreatedRow | app/src/main/java/com/example/timemanagementapp/ui/tasks/TaskEditFragment.java:604-620 | A new task by the creator carrying the form's columns; its meaning is CreatedRowMeaning |
| TaskEdit.SaveEffect | app/src/main/java/com/example/timemanagementapp/ui/tasks/TaskEditFragment.java:520-627 | Blank title and signed-out creation write nothing, editing replaces the row with EditedRow, creating inserts CreatedRow as insertTask does; its meaning is SaveEffectMeaning |
| TaskEdit.Assignable | app/src/main/java/com/example/timemanagementapp/ui/tasks/TaskEditFragment.java:354-364 | The users in order without the signed-in one; its meaning is AssignableMembers |
| TaskEdit.SaveAsWrittenCountsSessionTwice | app/src/main/java/com/example/timemanagementapp/ui/tasks/TaskEditFragment.java:588-593 | As written, saving during a running session adds it to time spent and keeps the start, so later displays count it twice |
| TaskEdit.SaveAsWrittenExample | app/src/main/java/com/example/timemanagementapp/ui/tasks/TaskEditFragment.java:588-593 | Concrete case: 4000 ms tracked displays as 8000 ms after the save |
| TaskEdit.SaveStopsSession | app/src/main/java/com/example/timemanagementapp/ui/tasks/TaskEditFragment.java:579-593 | The corrected save stops the session as stopTrackingTime would, keeping the displayed time |
| TaskEdit.EditKeepsIdentity | app/src/main/java/com/example/timemanagementapp/ui/tasks/TaskEditFragment.java:553-563 | The edit path keeps id, creator and creation time, writes the form's title and status, and sets updatedAt to now |
| TaskEdit.CreatedRowMeaning | app/src/main/java/com/example/timemanagementapp/ui/tasks/TaskEditFragment.java:604-620 | A created task is new with the creator and the form's values |
| TaskEdit.AssignableMembers | app/src/main/java/com/example/timemanagementapp/ui/tasks/TaskEditFragment.java:354-364 | The assignee list is exactly the users other than the current user |
| TaskEdit.UserNames | app/src/main/java/com/example/timemanagementapp/ui/tasks/TaskEditFragment.java:360-364 | One name per listed user |
| TaskEdit.ProjectNames | app/src/main/java/com/example/timemanagementapp/ui/tasks/TaskEditFragment.java:330-334 | One name per listed project |
| TaskEdit.UserNamesAlign | app/src/main/java/com/example/timemanagementapp/ui/tasks/TaskEditFragment.java:360-364 | The name at i is the user's at i |
| TaskEdit.ProjectNamesAlign | app/src/main/java/com/example/timemanagementapp/ui/tasks/TaskEditFragment.java:330-334 | The name at i is the project's at i |
| TaskEdit.ApplyForm | app/src/main/java/com/example/timemanagementapp/ui/tasks/TaskEditFragment.java:555-562 | The setters write exactly the form's columns |
| TaskEdit.WriteEdit | app/src/main/java/com/example/timemanagementapp/ui/tasks/TaskEditFragment.java:553-599 | The edited copy gets the form's columns, updatedAt == now and the timer as written: the session is added and its start kept |
| TaskEdit.SaveEdited | app/src/main/java/com/example/timemanagementapp/ui/tasks/TaskEditFragment.java:553-601 | The edit path writes the edited row to the task and to the table, reschedules the task's reminders for that row, and notifies the assignee only when the stored assignee differs; the sort state is unchanged |
| TaskEdit.SaveCreated | app/src/main/java/com/example/timemanagementapp/ui/tasks/TaskEditFragment.java:604-620 | The create path inserts the created row as insertTask does, with the comment cascade of a replaced id, schedules its reminders and notifies its assignee; the sort state is unchanged |
| TaskEdit.SaveEffectMeaning | app/src/main/java/com/example/timemanagementapp/ui/tasks/TaskEditFragment.java:520-627 | Blank title, and creating while signed out, write nothing; otherwise the table holds the saved row under its id, keys staying unique |
| TaskEdit.SavedRow | app/src/main/java/com/example/timemanagementapp/ui/tasks/TaskEditFragment.java:553-620 | No row is handed over exactly for a blank title or for a new task while signed out; the edit path keeps the task's id; the create path uses the new id, the signed-in creator and the title |
| TaskEdit.SaveSpec | app/src/main/java/com/example/timemanagementapp/ui/tasks/TaskEditFragment.java:520-627 | Which outcome happens, in both directions; a refused save changes nothing; an update replaces the row, keeps the comments, reschedules the task's reminders, notifies a changed assignee and leaves the edited task holding the row; a create inserts the row with the comment cascade, schedules its reminders and notifies its assignee |
| TaskEdit.SaveFields | app/src/main/java/com/example/timemanagementapp/ui/tasks/TaskEditFragment.java:553-627 | The outcome, the task table, the comments, the reminder jobs, the notices and the edited task are exactly those of SaveSpec; the sort state is unchanged |
| TaskEdit.SaveForm | app/src/main/java/com/example/timemanagementapp/ui/tasks/TaskEditFragment.java:520-552 | A blank trimmed title returns before any spinner is read and changes nothing; otherwise the save is exactly SaveSpec of the form as read; readable positions are needed only for a non-blank title |
| TaskEdit.TaskEditFragment.constructor | app/src/main/java/com/example/timemanagementapp/ui/tasks/TaskEditFragment.java:105-135 | Edit mode exactly when a task id is given; empty lists, invalid selections; a new task starts on the due date passed in, an edited one on none until it loads |
| TaskEdit.TaskEditFragment.SelectStatusInSpinner | app/src/main/java/com/example/timemanagementapp/ui/tasks/TaskEditFragment.java:261-267 | The status loop selects the first matching index, else keeps the selection |
| TaskEdit.TaskEditFragment.SelectReminderOptionInSpinner | app/src/main/java/com/example/timemanagementapp/ui/tasks/TaskEditFragment.java:380-388 | Selects the first option with that offset, otherwise position 0 |
| TaskEdit.TaskEditFragment.SelectProjectInSpinner | app/src/main/java/com/example/timemanagementapp/ui/tasks/TaskEditFragment.java:390-406 | Selects the project's position (0 for none or unknown) |
| TaskEdit.TaskEditFragment.SelectAssigneeInSpinner | app/src/main/java/com/example/timemanagementapp/ui/tasks/TaskEditFragment.java:408-427 | Selects the assignee's position (0 for none or unknown) |
| TaskEdit.TaskEditFragment.LoadTaskDataToUI | app/src/main/java/com/example/timemanagementapp/ui/tasks/TaskEditFragment.java:252-291 | The form is LoadForm of the task; the chronometer runs exactly when the timer does |
| TaskEdit.TaskEditFragment.OnTaskLoaded | app/src/main/java/com/example/timemanagementapp/ui/tasks/TaskEditFragment.java:112-125 | Keeps a fresh copy of the loaded task and fills the form from it |
| TaskEdit.TaskEditFragment.ObserveProjects | app/src/main/java/com/example/timemanagementapp/ui/tasks/TaskEditFragment.java:323-346 | The spinner lists the sentinel then each project's name, and reselects |
| TaskEdit.TaskEditFragment.ObserveUsers | app/src/main/java/com/example/timemanagementapp/ui/tasks/TaskEditFragment.java:348-378 | The list keeps all users but the current one, in order, after the sentinel "Не назначен"; reselects |
| TaskEdit.TaskEditFragment.SaveTask | app/src/main/java/com/example/timemanagementapp/ui/tasks/TaskEditFragment.java:520-627 | saveTask: a blank title saves nothing and changes no store; otherwise the stores and the edited task are exactly SaveSpec of the screen as read, with the edit path's timer as written; only the task being edited, and only in edit mode, may change; the sort state is unchanged |

## Left out

- I/O and platform: Android widgets, LiveData observation, Toasts, navigation, notification channels, `Log`, `Thread.sleep` and the executors. Each asynchronous step is modelled as a synchronous call, with observed values as parameters.
- Clock and locale: `System.currentTimeMillis`, `SystemClock.elapsedRealtime`, `new Date()` and UUIDs become parameters. One `now` is used for both clocks.
- Date formats: `SimpleDateFormat` in the adapters is a function parameter. `Calendar` day-of-year is an abstract function from a timestamp to a (year, day) key.
- TaskRepository's single-thread executor guarantees FIFO write ordering; that is concurrency and is not modelled.
- The start/stop read-modify-write race between the list and the edit screen is concurrency and is not modelled.
- Tasks.TaskViewModel.Update: `repository.getTaskById(id).getValue()` is an unobserved Room LiveData, so in the app it is null and update never notifies. The model takes the stored row as the parameter `stored`.
- Tasks.TaskViewModel.SetSortMode: the `ASSIGNED_TO_ME` branch that sets a null value is not modelled. `tasksAssignedToMe` is never null, so that branch cannot run.
- The seeding of sample projects and users through `observeForever` (TaskViewModel 298-350, 388-489) is left out; it is start-up data, not a rule.
- Collaboration.CollaborationViewModel.InviteUserToProject: the project is a parameter. In the source it is looked up with `getValue()` on a LiveData nobody observes, which is always null, so in the app every signed-in request with all fields filled ends with "Проект не знайдено"; the model describes the guards as if the lookup could find the project (passing `None` gives the app's behaviour).
- Collaboration.CollaborationViewModel.InviteUserToProject returns the invite it builds. The source never inserts it (the insert is commented out), and `CollaborationInviteDao` is not registered in the app's database. The invite table is modelled from its DAO all the same.
- DAO query parameters are plain strings. A null argument (`col = NULL`, which matches nothing in SQL) is not modelled.
- ORDER BY ties: SQL leaves the order of equal keys unspecified. The model keeps table order, and the contracts promise only sortedness and a permutation.
- CalendarDays.OwnerOf: the source's `return null` for an unknown position is unreachable, since the three positions are exhaustive. The model has no such position.
- TaskEdit.TrimStart: stated only as "no leading blank, no longer than the input"; that it is a suffix of its input is not stated, because the fuller contract made the save proofs too costly.
- TaskEdit.TrimEnd: stated only as "no trailing blank, no longer than the input, same first character"; that it is a prefix of its input is not stated, for the same reason.
- TaskEdit.Trim: likewise it does not state that the result is a slice of the input.
- TaskEdit.TaskEditFragment.SaveTask: for a non-blank title it requires the spinner positions to be readable (`Readable`): the status position in range, and a selected project entry (position 0 or more). A blank title returns before any spinner is read, so it requires nothing then. The source throws otherwise, an index exception for the status and a null dereference of `getSelectedItem()` for an empty project spinner; the exceptions are not modelled.
- TaskEdit.TaskEditFragment.SaveTask: the status array `R.array.task_statuses_values` is the parameter `statusValues`.
- TaskEdit.TaskEditFragment.LoadTaskDataToUI: `setSelection` outside the spinner's range is assumed to keep the previous selection. A priority outside 1..3 is loaded at position priority − 1 and is otherwise unspecified.
- TaskEdit.TaskEditFragment.OnTaskLoaded: the `getView() != null` condition is taken to hold.
- The chronometer widget buttons (TaskEditFragment 460-514) are UI wiring and are not modelled. Of `onViewCreated`'s reset and `resetToDefaultState` only the initial due date is modelled, in the constructor; the rest resets widgets to the constructor's values.
- The accumulated UI session counter is also UI wiring and is not modelled; the save uses `now - chronometerFrom` instead.
- CalendarFragment's calendar binder and month header (98-205) are rendering and are not modelled.
- `NotificationHelper`, `TaskAssignmentNotifier` and `TaskNotificationReceiver` are not part of this model. An assignment notice or a shown reminder is recorded as a value.
- TaskTable.TaskDao.InsertTask: a row whose `project_id`, `assignee_user_id` or `parent_task_id` names no stored row violates a foreign key, and SQLite aborts the statement with an exception. The model has no users table and does not check the references; it stores the row.
- TaskTable.TaskDao.InsertAllTasks: the same foreign-key failure is not modelled.
- TaskTable.TaskDao.UpdateTask: the same foreign-key failure is not modelled.
- CommentTable.TaskCommentDao.Insert: a comment whose `task_id` or `user_id` names no stored row makes SQLite throw; the model stores it.
- Tasks.TaskViewModel.AddComment: inherits that gap from the comment insert.
- Tasks.TaskViewModel.Insert: inherits the foreign-key gap of `insertTask`.
- CommentList.AreContentsTheSame: it requires the old comment's `updatedAt` to be non-null, where the source would throw. The `TaskComment` constructor sets it to the creation time and `updateComment` sets it, so only a row whose `updatedAt` was set to null is excluded.
- Integer width: Java `long` overflow is not modelled. Durations and dates are unbounded integers.

## Findings

| source | as written | input that shows it | evidently intended | confidence | as-written member | corrected member |
|---|---|---|---|---|---|---|
| app/src/main/java/com/example/timemanagementapp/ui/tasks/TaskEditFragment.java:588-593 | Saving an edit while the timer runs adds the session to time spent but keeps the tracking start | A task started at 1000 and saved at 5000 shows 8000 ms instead of 4000 ms | Stop the session on save, as stopTrackingTime does: add it and clear the start | not executed | TaskEdit.SavedTimerAsWritten | TaskEdit.SavedTimer |
