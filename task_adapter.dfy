/**
 * TaskAdapter: how one task row of the list is rendered — duration text,
 * priority badge, timer state and button, assignee name — and the
 * DiffUtil callbacks that decide when a row is re-rendered.
 */
module TaskList {
  import opened Wrappers
  import opened Tables
  import opened Decimal
  import opened Entities
  import opened TaskEntity
  import opened TaskTable
  import opened Tasks
  import opened Reminders

  const MILLIS_PER_SECOND := 1000
  const MILLIS_PER_MINUTE := 60000
  const MILLIS_PER_HOUR := 3600000

  function Seconds(millis: int): int { JavaRem(JavaDiv(millis, MILLIS_PER_SECOND), 60) }
  function Minutes(millis: int): int { JavaRem(JavaDiv(millis, MILLIS_PER_MINUTE), 60) }
  function Hours(millis: int): int { JavaDiv(millis, MILLIS_PER_HOUR) }

  /** For a non-negative duration the seconds and minutes fields stay below 60. */
  lemma FieldsInRange(millis: int)
    requires millis >= 0
    ensures 0 <= Seconds(millis) < 60 && 0 <= Minutes(millis) < 60 && Hours(millis) >= 0
  {
  }

  /** The three fields and the dropped milliseconds add up to the duration. */
  lemma FieldsAddUp(millis: int)
    requires millis >= 0
    ensures millis == Hours(millis) * MILLIS_PER_HOUR + Minutes(millis) * MILLIS_PER_MINUTE
                      + Seconds(millis) * MILLIS_PER_SECOND + millis % 1000
  {
    var s := millis / 1000;
    assert millis / 60000 == s / 60;
    assert millis / 3600000 == s / 3600;
    assert s / 3600 == (s / 60) / 60;
  }

  /** `formatMillisToTime`. */
  function FormatMillisToTime(millis: int): string
  {
    var seconds := Seconds(millis);
    var minutes := Minutes(millis);
    var hours := Hours(millis);
    if hours > 0 then IntText(hours) + " ч " + Pad2(minutes) + " мин"
    else if minutes > 0 then IntText(minutes) + " мин " + Pad2(seconds) + " сек"
    else IntText(seconds) + " сек"
  }

  /** The duration the text stands for: the two largest units shown, the rest dropped. */
  function ShownMillis(millis: int): int {
    if Hours(millis) > 0 then Hours(millis) * MILLIS_PER_HOUR + Minutes(millis) * MILLIS_PER_MINUTE
    else if Minutes(millis) > 0 then Minutes(millis) * MILLIS_PER_MINUTE + Seconds(millis) * MILLIS_PER_SECOND
    else Seconds(millis) * MILLIS_PER_SECOND
  }

  /** The text truncates: under a minute lost once hours show, under a second otherwise. */
  lemma ShownMillisTruncates(millis: int)
    requires millis >= 0
    ensures ShownMillis(millis) <= millis
    ensures Hours(millis) > 0 ==> millis - ShownMillis(millis) < MILLIS_PER_MINUTE
    ensures Hours(millis) <= 0 ==> millis - ShownMillis(millis) < MILLIS_PER_SECOND
  {
    FieldsInRange(millis);
    FieldsAddUp(millis);
  }

  /** The index of the first space, or the length when there is none. */
  function SpaceIndex(s: string): (i: nat)
    ensures i <= |s|
    ensures i < |s| ==> s[i] == ' '
    ensures forall j :: 0 <= j < i ==> s[j] != ' '
  {
    if s == [] then 0
    else if s[0] == ' ' then 0
    else 1 + SpaceIndex(s[1..])
  }

  predicate AllDigits(s: string) {
    forall i :: 0 <= i < |s| ==> IsDigit(s[i])
  }

  /** Reads a duration text back as milliseconds; `None` if it is not one. */
  function ReadDuration(text: string): Option<int> {
    var i := SpaceIndex(text);
    if i == |text| || !AllDigits(text[..i]) then None
    else ReadUnits(ParseNat(text[..i]), text[i + 1..])
  }

  /** What follows the leading number: its unit, or its unit and a two-digit smaller unit. */
  function ReadUnits(n: nat, rest: string): Option<int> {
    if rest == "сек" then Some(n * MILLIS_PER_SECOND)
    else if |rest| == 8 && rest[..2] == "ч " && rest[4..] == " мин" && AllDigits(rest[2..4]) then
      Some(n * MILLIS_PER_HOUR + ParseNat(rest[2..4]) * MILLIS_PER_MINUTE)
    else if |rest| == 10 && rest[..4] == "мин " && rest[6..] == " сек" && AllDigits(rest[4..6]) then
      Some(n * MILLIS_PER_MINUTE + ParseNat(rest[4..6]) * MILLIS_PER_SECOND)
    else None
  }

  /** A run of digits followed by a space: the first space is the one after the digits. */
  lemma {:induction false} SpaceAfterDigits(d: string, rest: string)
    requires AllDigits(d)
    ensures SpaceIndex(d + " " + rest) == |d|
  {
    if d != [] {
      assert IsDigit(d[0]);
      assert (d + " " + rest)[1..] == d[1..] + " " + rest;
      SpaceAfterDigits(d[1..], rest);
    }
  }

  /** A number, a space, then anything: the number is read and the rest goes to `ReadUnits`. */
  lemma ReadsNumber(n: nat, rest: string)
    ensures ReadDuration(NatText(n) + " " + rest) == ReadUnits(n, rest)
  {
    var text := NatText(n) + " " + rest;
    SpaceAfterDigits(NatText(n), rest);
    assert text[..|NatText(n)|] == NatText(n);
    assert text[|NatText(n)| + 1..] == rest;
    ParseNatText(n);
  }

  lemma ReadsHourUnits(h: nat, m: int)
    requires 0 <= m < 100
    ensures ReadUnits(h, "ч " + Pad2(m) + " мин") == Some(h * MILLIS_PER_HOUR + m * MILLIS_PER_MINUTE)
  {
    var rest := "ч " + Pad2(m) + " мин";
    ParsePad2(m);
    assert rest[2..4] == Pad2(m);
    assert rest[..2] == "ч " && rest[4..] == " мин";
  }

  lemma ReadsMinuteUnits(m: nat, sec: int)
    requires 0 <= sec < 100
    ensures ReadUnits(m, "мин " + Pad2(sec) + " сек") == Some(m * MILLIS_PER_MINUTE + sec * MILLIS_PER_SECOND)
  {
    var rest := "мин " + Pad2(sec) + " сек";
    ParsePad2(sec);
    assert rest[4..6] == Pad2(sec);
    assert rest[..4] == "мин " && rest[6..] == " сек";
  }

  /** With hours to show, the text is the hours, a space, then the hour and minute units. */
  lemma HoursText(millis: int)
    requires millis >= 0 && Hours(millis) > 0
    ensures FormatMillisToTime(millis) == NatText(Hours(millis)) + " " + ("ч " + Pad2(Minutes(millis)) + " мин")
  {
  }

  /** Under an hour but with minutes, the text is the minutes, a space, then the minute and second units. */
  lemma MinutesText(millis: int)
    requires millis >= 0 && Hours(millis) <= 0 && Minutes(millis) > 0
    ensures FormatMillisToTime(millis) == NatText(Minutes(millis)) + " " + ("мин " + Pad2(Seconds(millis)) + " сек")
  {
  }

  /** The hour form of the text, for any hour count and minute field. */
  lemma ReadsHourText(h: nat, m: int)
    requires 0 <= m < 60
    ensures ReadDuration(NatText(h) + " " + ("ч " + Pad2(m) + " мин")) == Some(h * MILLIS_PER_HOUR + m * MILLIS_PER_MINUTE)
  {
    ReadsNumber(h, "ч " + Pad2(m) + " мин");
    ReadsHourUnits(h, m);
  }

  /** The minute form of the text, for any minute count and second field. */
  lemma ReadsMinuteText(m: nat, sec: int)
    requires 0 <= sec < 60
    ensures ReadDuration(NatText(m) + " " + ("мин " + Pad2(sec) + " сек")) == Some(m * MILLIS_PER_MINUTE + sec * MILLIS_PER_SECOND)
  {
    ReadsNumber(m, "мин " + Pad2(sec) + " сек");
    ReadsMinuteUnits(m, sec);
  }

  lemma ReadsBackHours(millis: int)
    requires millis >= 0 && Hours(millis) > 0
    ensures ReadDuration(FormatMillisToTime(millis)) == Some(ShownMillis(millis))
  {
    FieldsInRange(millis);
    HoursText(millis);
    ReadsHourText(Hours(millis), Minutes(millis));
  }

  lemma ReadsBackMinutes(millis: int)
    requires millis >= 0 && Hours(millis) <= 0 && Minutes(millis) > 0
    ensures ReadDuration(FormatMillisToTime(millis)) == Some(ShownMillis(millis))
  {
    FieldsInRange(millis);
    MinutesText(millis);
    ReadsMinuteText(Minutes(millis), Seconds(millis));
  }

  lemma ReadsBackSeconds(millis: int)
    requires millis >= 0 && Hours(millis) <= 0 && Minutes(millis) <= 0
    ensures ReadDuration(FormatMillisToTime(millis)) == Some(ShownMillis(millis))
  {
    FieldsInRange(millis);
    var s := Seconds(millis);
    assert FormatMillisToTime(millis) == NatText(s) + " " + "сек";
    ReadsNumber(s, "сек");
  }

  /** Round trip: the duration text of any non-negative duration reads back as `ShownMillis`. */
  lemma FormatReadsBack(millis: int)
    requires millis >= 0
    ensures ReadDuration(FormatMillisToTime(millis)) == Some(ShownMillis(millis))
  {
    if Hours(millis) > 0 {
      ReadsBackHours(millis);
    } else if Minutes(millis) > 0 {
      ReadsBackMinutes(millis);
    } else {
      ReadsBackSeconds(millis);
    }
  }

  // -------------------------------------------------------- priority badge

  datatype BadgeBackground = LowBackground | MediumBackground | HighBackground
  datatype TextColor = White | Black

  /** The priority chip: its text, background and text colour. */
  datatype PriorityBadge = PriorityBadge(text: string, background: BadgeBackground, textColor: TextColor)

  function PriorityBadgeFor(priority: int): (b: PriorityBadge)
    ensures priority == 1 ==> b == PriorityBadge("Низкий", LowBackground, White)
    ensures priority == 3 ==> b == PriorityBadge("Высокий", HighBackground, White)
    ensures priority != 1 && priority != 3 ==> b == PriorityBadge("Средний", MediumBackground, Black)
  {
    match priority
    case 1 => PriorityBadge("Низкий", LowBackground, White)
    case 3 => PriorityBadge("Высокий", HighBackground, White)
    case _ => PriorityBadge("Средний", MediumBackground, Black)
  }

  /** The three documented priorities get three different labels. */
  lemma PriorityLabelsDistinct(p: int, q: int)
    requires 1 <= p <= 3 && 1 <= q <= 3 && p != q
    ensures PriorityBadgeFor(p).text != PriorityBadgeFor(q).text
  {
  }

  // ---------------------------------------------------------------- timer

  /** A session is running when its start time is set and positive. */
  predicate IsTimerRunning(t: TaskRow) {
    t.timeTrackingStartTimeMillis.Some? && t.timeTrackingStartTimeMillis.value > 0
  }

  /** The time shown at `now`: the time spent plus the running session, if any. */
  function DisplayTime(t: TaskRow, now: int): (d: int)
    ensures !IsTimerRunning(t) ==> d == t.timeSpentMillis
    ensures IsTimerRunning(t) ==> d == t.timeSpentMillis + (now - t.timeTrackingStartTimeMillis.value)
  {
    if IsTimerRunning(t) then t.timeSpentMillis + (now - t.timeTrackingStartTimeMillis.value)
    else t.timeSpentMillis
  }

  /** Stopping a running session at `now` leaves the time shown at `now` unchanged. */
  lemma StopKeepsDisplayedTime(t: TaskRow, now: int)
    requires IsTimerRunning(t)
    ensures DisplayTime(StoppedRow(t, now).value, now) == DisplayTime(t, now)
    ensures !IsTimerRunning(StoppedRow(t, now).value)
  {
  }

  /** After starting at a positive instant `t0`, the display grows by the time elapsed since. */
  lemma StartShowsElapsed(t: TaskRow, t0: int, now: int)
    requires t0 > 0
    ensures IsTimerRunning(StartedRow(t, t0))
    ensures DisplayTime(StartedRow(t, t0), now) == t.timeSpentMillis + (now - t0)
  {
  }

  /** The text shown: the display time, or zero when it is not positive. */
  function TimeSpentText(t: TaskRow, now: int): (text: string)
    ensures DisplayTime(t, now) > 0 ==> text == FormatMillisToTime(DisplayTime(t, now))
    ensures DisplayTime(t, now) <= 0 ==> text == "0 сек"
  {
    var d := DisplayTime(t, now);
    if d > 0 then FormatMillisToTime(d)
    else
      assert FormatMillisToTime(0) == IntText(0) + " сек";
      FormatMillisToTime(0)
  }

  /** The timer button: stop while running, play otherwise. */
  datatype TimerButton = StopButton | PlayButton

  function TimerButtonFor(t: TaskRow): (b: TimerButton)
    ensures b == StopButton <==> IsTimerRunning(t)
  {
    if IsTimerRunning(t) then StopButton else PlayButton
  }

  // ----------------------------------------------------------- assignee

  /** The name shown for a user id: "" for null, the first match's name, or the id itself. */
  function UserNameFor(users: seq<User>, userId: Option<string>): (name: string)
    ensures userId.None? ==> name == ""
    ensures userId.Some? && (forall u :: u in users ==> u.userId != userId.value) ==> name == userId.value
    ensures userId.Some? && (exists u :: u in users && u.userId == userId.value) ==>
              exists u :: u in users && u.userId == userId.value && name == u.name
    ensures userId.Some? && (exists u :: u in users && u.userId == userId.value) ==>
              exists k :: 0 <= k < |users| && users[k].userId == userId.value && name == users[k].name
                          && forall j :: 0 <= j < k ==> users[j].userId != userId.value
  {
    match userId
    case None => ""
    case Some(id) =>
      match Lookup(users, id, UserKey)
      case Some(u) =>
        LookupIsFirst(users, id, UserKey);
        u.name
      case None => id
  }

  // ------------------------------------------------------------ diffing

  /** `areItemsTheSame`. */
  predicate AreItemsTheSame(a: TaskRow, b: TaskRow) {
    a.taskId == b.taskId
  }

  /** `areContentsTheSame`: the fields the row shows. */
  predicate AreContentsTheSame(a: TaskRow, b: TaskRow) {
    && a.title == b.title && a.status == b.status && a.priority == b.priority
    && a.dueDate == b.dueDate && a.timeSpentMillis == b.timeSpentMillis
    && a.assigneeUserId == b.assigneeUserId && a.timeTrackingStartTimeMillis == b.timeTrackingStartTimeMillis
  }

  /** Everything `onBindViewHolder` puts on screen for a row (the due date unformatted). */
  datatype RenderedRow = RenderedRow(
    title: string,
    dueDate: Option<int>,
    assignee: Option<string>,
    status: string,
    badge: PriorityBadge,
    timeText: string,
    button: TimerButton)

  function Render(t: TaskRow, users: seq<User>, now: int): RenderedRow {
    RenderedRow(
      t.title,
      t.dueDate,
      if t.assigneeUserId.Some? && t.assigneeUserId.value != "" then Some(UserNameFor(users, t.assigneeUserId)) else None,
      t.status,
      PriorityBadgeFor(t.priority),
      TimeSpentText(t, now),
      TimerButtonFor(t))
  }

  /** The diff is sound: rows with the same contents render identically at any instant. */
  lemma SameContentsRenderSame(a: TaskRow, b: TaskRow, users: seq<User>, now: int)
    requires AreContentsTheSame(a, b)
    ensures Render(a, users, now) == Render(b, users, now)
  {
  }

  /** `areContentsTheSame` is an equivalence relation. */
  lemma ContentsEquivalence(a: TaskRow, b: TaskRow, c: TaskRow)
    ensures AreContentsTheSame(a, a)
    ensures AreContentsTheSame(a, b) ==> AreContentsTheSame(b, a)
    ensures AreContentsTheSame(a, b) && AreContentsTheSame(b, c) ==> AreContentsTheSame(a, c)
  {
  }

  class TaskAdapter {
    const viewModel: TaskViewModel
    var userList: seq<User>

    constructor (viewModel: TaskViewModel)
      ensures this.viewModel == viewModel && userList == []
    {
      this.viewModel := viewModel;
      userList := [];
    }

    /** `setUserList`: null stores an empty list. */
    method SetUserList(users: Option<seq<User>>)
      modifies this
      ensures userList == users.GetOr([])
    {
      userList := if users.Some? then users.value else [];
    }

    /** `getUserNameById`: a scan of the user list. */
    method GetUserNameById(userId: Option<string>) returns (name: string)
      ensures name == UserNameFor(userList, userId)
    {
      if userId.None? {
        return "";
      }
      var id := userId.value;
      var i := 0;
      while i < |userList|
        invariant 0 <= i <= |userList|
        invariant forall j :: 0 <= j < i ==> userList[j].userId != id
      {
        if userList[i].userId == id {
          LookupFirst(userList, id, UserKey, i);
          return userList[i].name;
        }
        i := i + 1;
      }
      return id;
    }

    /** The timer button's click: stop when running, start otherwise. */
    method OnTimerButtonClick(task: Task, stored: Option<TaskRow>, now: int)
      requires viewModel.Valid()
      modifies viewModel, viewModel.tasks, viewModel.work
      ensures viewModel.Valid()
      ensures IsTimerRunning(old(task.Row())) ==>
                viewModel.tasks.rows == Replace(old(viewModel.tasks.rows), StoppedRow(old(task.Row()), now).value, TaskKey)
      ensures !IsTimerRunning(old(task.Row())) ==>
                viewModel.tasks.rows == Replace(old(viewModel.tasks.rows), StartedRow(old(task.Row()), now), TaskKey)
      ensures var written := if IsTimerRunning(old(task.Row())) then StoppedRow(old(task.Row()), now).value
                             else StartedRow(old(task.Row()), now);
              && viewModel.work.jobs ==
                   WithoutTag(old(viewModel.work.jobs), ReminderTag(task.taskId)) + PlannedJobs(written, now)
              && viewModel.notices == old(viewModel.notices) +
                   if stored.Some? && stored.value.assigneeUserId != old(task.assigneeUserId)
                   then NoticesFor(written, viewModel.users.GetCurrentUserId()) else []
      ensures viewModel.currentSortMode == old(viewModel.currentSortMode) && viewModel.sources == old(viewModel.sources)
              && viewModel.mediatorValue == old(viewModel.mediatorValue)
    {
      if TimerButtonFor(task.Row()) == StopButton {
        viewModel.StopTrackingTime(task, stored, now);
      } else {
        viewModel.StartTrackingTime(task, stored, now);
      }
    }
  }
}
