/**
 * CalendarDayWrapper: recovers the older calendar library's day owner
 * from the newer library's day position.
 */
module CalendarDays {
  import opened Wrappers

  /** A calendar date as the library holds it. */
  datatype LocalDate = LocalDate(year: int, month: int, day: int)

  /** Where a day cell sits relative to the month being shown. */
  datatype DayPosition = InDate | MonthDate | OutDate

  /** Which month a day cell belongs to. */
  datatype DayOwner = PreviousMonth | ThisMonth | NextMonth

  /** A day cell of the month grid. */
  datatype CalendarDay = CalendarDay(date: LocalDate, position: DayPosition)

  /** `getOwner`'s mapping; `None` stands for its fallback `null`. */
  function OwnerOf(position: DayPosition): (owner: Option<DayOwner>)
    ensures position == MonthDate ==> owner == Some(ThisMonth)
    ensures position == InDate ==> owner == Some(PreviousMonth)
    ensures position == OutDate ==> owner == Some(NextMonth)
  {
    if position == MonthDate then Some(ThisMonth)
    else if position == InDate then Some(PreviousMonth)
    else if position == OutDate then Some(NextMonth)
    else None
  }

  /** The position a day owner comes from, as the older library defined it. */
  function PositionOf(owner: DayOwner): DayPosition {
    match owner
    case PreviousMonth => InDate
    case ThisMonth => MonthDate
    case NextMonth => OutDate
  }

  /** Every position has an owner, and the mapping is a bijection onto owners. */
  lemma OwnerRoundTrip(position: DayPosition, owner: DayOwner)
    ensures OwnerOf(position).Some?
    ensures PositionOf(OwnerOf(position).value) == position
    ensures OwnerOf(PositionOf(owner)) == Some(owner)
  {
  }

  class CalendarDayWrapper {
    const calendarDay: CalendarDay

    constructor (calendarDay: CalendarDay)
      ensures this.calendarDay == calendarDay
    {
      this.calendarDay := calendarDay;
    }

    function GetOwner(): (owner: Option<DayOwner>)
      ensures owner.Some? && PositionOf(owner.value) == calendarDay.position
    {
      OwnerRoundTrip(calendarDay.position, ThisMonth);
      OwnerOf(calendarDay.position)
    }

    /** `getDate`: the wrapped day's date, unchanged. */
    function GetDate(): (date: LocalDate)
      ensures date == calendarDay.date
    {
      calendarDay.date
    }
  }
}
