/**
 * CalendarFragment: the tasks listed under the selected day, the dot that
 * marks days with tasks, day clicks, the task-list observer and the
 * arguments handed to the edit screen. An instant is epoch milliseconds;
 * the device calendar's split of an instant into year and day of year is
 * the parameter `dayOf`.
 */
module Calendar {
  import opened Wrappers
  import opened Tables
  import opened TaskEntity

  /** The two calendar fields `isSameDay` compares. */
  datatype DayKey = DayKey(year: int, dayOfYear: int)

  /** `isSameDay`: same year and same day of the year. */
  predicate IsSameDay(a: int, b: int, dayOf: int -> DayKey) {
    dayOf(a).year == dayOf(b).year && dayOf(a).dayOfYear == dayOf(b).dayOfYear
  }

  /** Two instants are on the same day exactly when their day keys agree; hence an equivalence. */
  lemma SameDayIsEquivalence(a: int, b: int, c: int, dayOf: int -> DayKey)
    ensures IsSameDay(a, b, dayOf) <==> dayOf(a) == dayOf(b)
    ensures IsSameDay(a, a, dayOf)
    ensures IsSameDay(a, b, dayOf) ==> IsSameDay(b, a, dayOf)
    ensures IsSameDay(a, b, dayOf) && IsSameDay(b, c, dayOf) ==> IsSameDay(a, c, dayOf)
  {
  }

  /** A task belongs to a day when its due date is set and falls on that day. */
  function DueOn(day: DayKey, dayOf: int -> DayKey): TaskRow -> bool {
    (t: TaskRow) => t.dueDate.Some? && dayOf(t.dueDate.value) == day
  }

  /** The tasks listed under a day, in their list order, built as the source's loop builds it. */
  function TasksOnDay(tasks: seq<TaskRow>, date: int, dayOf: int -> DayKey): seq<TaskRow> {
    if tasks == [] then []
    else
      var last := tasks[|tasks| - 1];
      TasksOnDay(tasks[..|tasks| - 1], date, dayOf)
      + (if last.dueDate.Some? && IsSameDay(last.dueDate.value, date, dayOf) then [last] else [])
  }

  /** The day's list is the order-preserving filter of the tasks due on that day. */
  lemma {:induction false} TasksOnDayIsFilter(tasks: seq<TaskRow>, date: int, dayOf: int -> DayKey)
    ensures TasksOnDay(tasks, date, dayOf) == Filter(tasks, DueOn(dayOf(date), dayOf))
  {
    if tasks != [] {
      var init, last := tasks[..|tasks| - 1], tasks[|tasks| - 1];
      assert tasks == init + [last];
      TasksOnDayIsFilter(init, date, dayOf);
      FilterSnoc(init, last, DueOn(dayOf(date), dayOf));
    }
  }

  /** A task is listed under a day exactly when it is one of the tasks and is due that day. */
  lemma TasksOnDayMembers(tasks: seq<TaskRow>, date: int, dayOf: int -> DayKey)
    ensures forall t :: t in TasksOnDay(tasks, date, dayOf) <==>
                        t in tasks && t.dueDate.Some? && IsSameDay(t.dueDate.value, date, dayOf)
  {
    TasksOnDayIsFilter(tasks, date, dayOf);
  }

  /** A day none of whose tasks is due lists nothing. */
  lemma {:induction false} NothingDueListsNothing(tasks: seq<TaskRow>, date: int, dayOf: int -> DayKey)
    requires forall j :: 0 <= j < |tasks| ==> !(tasks[j].dueDate.Some? && IsSameDay(tasks[j].dueDate.value, date, dayOf))
    ensures TasksOnDay(tasks, date, dayOf) == []
  {
    if tasks != [] {
      NothingDueListsNothing(tasks[..|tasks| - 1], date, dayOf);
    }
  }

  /** Instants on the same day list the same tasks. */
  lemma SameDaySameTasks(tasks: seq<TaskRow>, a: int, b: int, dayOf: int -> DayKey)
    requires IsSameDay(a, b, dayOf)
    ensures TasksOnDay(tasks, a, dayOf) == TasksOnDay(tasks, b, dayOf)
  {
    TasksOnDayIsFilter(tasks, a, dayOf);
    TasksOnDayIsFilter(tasks, b, dayOf);
    SameDayIsEquivalence(a, b, b, dayOf);
  }

  /** The arguments the edit screen is opened with; the bundle is absent when empty. */
  datatype EditArgs = EditArgs(taskId: Option<string>, dueDate: Option<int>)

  /** `openTaskEditFragmentWithDate`'s bundle. */
  function EditArgsFor(taskId: Option<string>, date: Option<int>): (args: Option<EditArgs>)
    ensures args.None? <==> taskId.None? && date.None?
    ensures args.Some? ==> args.value.taskId == taskId && args.value.dueDate == date
  {
    if taskId.None? && date.None? then None else Some(EditArgs(taskId, date))
  }

  class CalendarFragment {
    const dayOf: int -> DayKey
    var allTasks: Option<seq<TaskRow>>
    var selectedDate: Option<int>
    /** The list last submitted to the day's task adapter. */
    var shown: seq<TaskRow>

    constructor (dayOf: int -> DayKey)
      ensures this.dayOf == dayOf && allTasks == Some([]) && selectedDate.None? && shown == []
    {
      this.dayOf := dayOf;
      allTasks := Some([]);
      selectedDate := None;
      shown := [];
    }

    /** What `filterTasksForDate(date)` submits. */
    function ShownFor(date: Option<int>): seq<TaskRow>
      reads this`allTasks
    {
      if date.None? || allTasks.None? then [] else TasksOnDay(allTasks.value, date.value, dayOf)
    }

    /** `filterTasksForDate`. */
    method FilterTasksForDate(date: Option<int>)
      modifies this`shown
      ensures shown == ShownFor(date)
    {
      if date.None? || allTasks.None? {
        shown := [];
        return;
      }
      var tasks := allTasks.value;
      var filtered := [];
      var i := 0;
      while i < |tasks|
        invariant 0 <= i <= |tasks|
        invariant filtered == TasksOnDay(tasks[..i], date.value, dayOf)
      {
        assert tasks[..i + 1][..i] == tasks[..i];
        if tasks[i].dueDate.Some? && IsSameDay(tasks[i].dueDate.value, date.value, dayOf) {
          filtered := filtered + [tasks[i]];
        }
        i := i + 1;
      }
      assert tasks[..i] == tasks;
      shown := filtered;
    }

    /** `hasTasks`: whether the day's list would be non-empty. */
    method HasTasks(date: int) returns (r: bool)
      ensures r <==> ShownFor(Some(date)) != []
    {
      if allTasks.None? || allTasks.value == [] {
        return false;
      }
      var tasks := allTasks.value;
      var i := 0;
      while i < |tasks|
        invariant 0 <= i <= |tasks|
        invariant forall j :: 0 <= j < i ==> !(tasks[j].dueDate.Some? && IsSameDay(tasks[j].dueDate.value, date, dayOf))
      {
        if tasks[i].dueDate.Some? && IsSameDay(tasks[i].dueDate.value, date, dayOf) {
          TasksOnDayMembers(tasks, date, dayOf);
          assert tasks[i] in TasksOnDay(tasks, date, dayOf);
          return true;
        }
        i := i + 1;
      }
      NothingDueListsNothing(tasks, date, dayOf);
      return false;
    }

    /** A click on a day of this month selects it and lists its tasks. */
    method OnDayClicked(day: int)
      modifies this
      ensures selectedDate == Some(day)
      ensures shown == ShownFor(Some(day))
      ensures allTasks == old(allTasks)
    {
      selectedDate := Some(day);
      FilterTasksForDate(selectedDate);
    }

    /** `observeTasks`: a new non-null list replaces the tasks and refreshes the selected day. */
    method ObserveTasks(tasks: Option<seq<TaskRow>>)
      modifies this
      ensures tasks.Some? ==> allTasks == tasks
      ensures tasks.None? ==> allTasks == old(allTasks) && shown == old(shown)
      ensures tasks.Some? && selectedDate.Some? ==> shown == TasksOnDay(tasks.value, selectedDate.value, dayOf)
      ensures tasks.Some? && selectedDate.None? ==> shown == old(shown)
      ensures selectedDate == old(selectedDate)
    {
      if tasks.Some? {
        allTasks := tasks;
        if selectedDate.Some? {
          FilterTasksForDate(selectedDate);
        }
      }
    }

    /** The add button: opens the edit screen for the selected day, selecting `today` first if none is. */
    method OnAddClicked(today: int) returns (args: Option<EditArgs>)
      modifies this
      ensures old(selectedDate).Some? ==> selectedDate == old(selectedDate)
      ensures old(selectedDate).None? ==> selectedDate == Some(today)
      ensures args == Some(EditArgs(None, selectedDate))
      ensures allTasks == old(allTasks) && shown == old(shown)
    {
      if selectedDate.None? {
        selectedDate := Some(today);
      }
      args := EditArgsFor(None, selectedDate);
    }
  }
}
