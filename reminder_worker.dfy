/**
 * ReminderWorker and the job store it is scheduled into. WorkManager is
 * reduced to the list of pending one-time jobs, each with its tag, its
 * initial delay and its input data; the notification a job shows is
 * returned as a value instead of being posted.
 */
module Reminders {
  import opened Wrappers
  import opened Tables

  const KEY_TASK_ID := "task_id"
  const KEY_TASK_TITLE := "task_title"
  const KEY_TASK_CONTENT := "task_content"
  const TAG_PREFIX := "reminder_"

  /**
   * The worker's input `Data`: string values by key. `putString(k, null)`
   * leaves `k` without a value, which `getString` reads back as null.
   */
  type InputData = map<string, string>

  /** A pending one-time work request. */
  datatype Job = Job(tag: string, initialDelayMillis: int, input: InputData)

  datatype WorkResult = Success | Failure

  /** A reminder notification as NotificationHelper is asked to show it. */
  datatype Notification = Notification(taskId: string, title: string, content: string)

  /** What one run of the worker returns, and the notifications it showed. */
  datatype WorkOutcome = WorkOutcome(result: WorkResult, shown: seq<Notification>)

  /** The tag of a task's reminder jobs. */
  function ReminderTag(taskId: string): (tag: string)
    ensures |tag| == |TAG_PREFIX| + |taskId|
    ensures tag[..|TAG_PREFIX|] == TAG_PREFIX && tag[|TAG_PREFIX|..] == taskId
  {
    TAG_PREFIX + taskId
  }

  /** Different tasks never share a reminder tag. */
  lemma ReminderTagInjective(a: string, b: string)
    requires ReminderTag(a) == ReminderTag(b)
    ensures a == b
  {
    assert a == ReminderTag(a)[|TAG_PREFIX|..];
  }

  /** The input data built by `scheduleReminder`; a null string is a missing entry. */
  function ReminderInput(taskId: string, title: Option<string>, content: Option<string>): (d: InputData)
    ensures KEY_TASK_ID in d && d[KEY_TASK_ID] == taskId
    ensures KEY_TASK_TITLE in d <==> title.Some?
    ensures title.Some? ==> d[KEY_TASK_TITLE] == title.value
    ensures KEY_TASK_CONTENT in d <==> content.Some?
    ensures content.Some? ==> d[KEY_TASK_CONTENT] == content.value
    ensures d.Keys <= {KEY_TASK_ID, KEY_TASK_TITLE, KEY_TASK_CONTENT}
  {
    var withId := map[KEY_TASK_ID := taskId];
    var withTitle := if title.Some? then withId[KEY_TASK_TITLE := title.value] else withId;
    if content.Some? then withTitle[KEY_TASK_CONTENT := content.value] else withTitle
  }

  /** `doWork`: shows the reminder if the id, title and content are all there. */
  function DoWork(input: InputData): (o: WorkOutcome)
    ensures o.result == Success <==> KEY_TASK_ID in input && KEY_TASK_TITLE in input && KEY_TASK_CONTENT in input
    ensures o.result == Success ==>
              o.shown == [Notification(input[KEY_TASK_ID], input[KEY_TASK_TITLE], input[KEY_TASK_CONTENT])]
    ensures o.result == Failure ==> o.shown == []
  {
    if KEY_TASK_ID in input && KEY_TASK_TITLE in input && KEY_TASK_CONTENT in input
    then WorkOutcome(Success, [Notification(input[KEY_TASK_ID], input[KEY_TASK_TITLE], input[KEY_TASK_CONTENT])])
    else WorkOutcome(Failure, [])
  }

  /** What `scheduleReminder` writes, `doWork` reads back unchanged. */
  lemma ScheduledInputRoundTrip(taskId: string, title: Option<string>, content: Option<string>)
    ensures DoWork(ReminderInput(taskId, title, content)) ==
              if title.Some? && content.Some?
              then WorkOutcome(Success, [Notification(taskId, title.value, content.value)])
              else WorkOutcome(Failure, [])
  {
  }

  /** `cancelAllWorkByTag`: the jobs left once those with `tag` are cancelled. */
  function WithoutTag(jobs: seq<Job>, tag: string): (r: seq<Job>)
    ensures forall j :: multiset(r)[j] == if j.tag == tag then 0 else multiset(jobs)[j]
    ensures forall j :: j in r <==> j in jobs && j.tag != tag
  {
    FilterMultiset(jobs, (j: Job) => j.tag != tag);
    Filter(jobs, (j: Job) => j.tag != tag)
  }

  function HasTag(tag: string): Job -> bool {
    (j: Job) => j.tag == tag
  }

  /**
   * Cancelling a tag and then enqueuing only jobs with that tag leaves
   * exactly those jobs under the tag.
   */
  lemma CancelThenEnqueue(jobs: seq<Job>, tag: string, added: seq<Job>)
    requires forall j :: j in added ==> j.tag == tag
    ensures Filter(WithoutTag(jobs, tag) + added, HasTag(tag)) == added
  {
    var kept := WithoutTag(jobs, tag);
    FilterAppend(kept, added, HasTag(tag));
    FilterAll(added, HasTag(tag));
    var mine := Filter(kept, HasTag(tag));
    assert |mine| == 0 by {
      if mine != [] {
        assert mine[0] in mine;
      }
    }
  }

  /** Cancelling one task's reminders leaves every other task's reminders as they were. */
  lemma CancelSparesOtherTasks(jobs: seq<Job>, cancelled: string, other: string, j: Job)
    requires cancelled != other
    requires j.tag == ReminderTag(other)
    ensures multiset(WithoutTag(jobs, ReminderTag(cancelled)))[j] == multiset(jobs)[j]
  {
    if j.tag == ReminderTag(cancelled) {
      ReminderTagInjective(cancelled, other);
    }
  }

  /** The pending work requests of the WorkManager instance. */
  class WorkManager {
    var jobs: seq<Job>

    constructor ()
      ensures jobs == []
    {
      jobs := [];
    }

    method Enqueue(job: Job)
      modifies this
      ensures jobs == old(jobs) + [job]
    {
      jobs := jobs + [job];
    }

    method CancelAllWorkByTag(tag: string)
      modifies this
      ensures jobs == WithoutTag(old(jobs), tag)
    {
      jobs := WithoutTag(jobs, tag);
    }
  }

  /** `scheduleReminder`: one job tagged for the task, delayed by `delayMillis`. */
  method ScheduleReminder(wm: WorkManager, delayMillis: int, taskId: string, title: Option<string>, content: Option<string>)
    modifies wm
    ensures wm.jobs == old(wm.jobs) + [Job(ReminderTag(taskId), delayMillis, ReminderInput(taskId, title, content))]
  {
    var input := ReminderInput(taskId, title, content);
    wm.Enqueue(Job(ReminderTag(taskId), delayMillis, input));
  }

  /** `cancelReminder`: cancels every job carrying the task's tag. */
  method CancelReminder(wm: WorkManager, taskId: string)
    modifies wm
    ensures wm.jobs == WithoutTag(old(wm.jobs), ReminderTag(taskId))
  {
    wm.CancelAllWorkByTag(ReminderTag(taskId));
  }
}
