/**
 * The month view: a 6 x 7 grid of consecutive days around the displayed month,
 * month navigation, and opening/closing the day-type selector for a clicked day.
 */
module Calendar {
  import opened Wrappers
  import opened Dates
  import opened Models
  import opened Constants
  import opened Storage
  import opened Shifts
  import opened Preferences

  /** One grid cell (the display-only unique id is not modelled). */
  datatype CalendarCell = CalendarCell(
    dayNumber: int,
    isToday: bool,
    isOtherMonth: bool,
    date: Date,
    shiftData: ShiftDay)

  /** isSameDay: same day of month, month and year. */
  function IsSameDay(a: Date, b: Date): (r: bool)
    ensures r <==> a == b
  {
    a.day == b.day && a.month == b.month && a.year == b.year
  }

  /** Same day exactly when same day number. */
  lemma IsSameDayIffSameEpochDay(a: Date, b: Date)
    ensures IsSameDay(a, b) <==> EpochDay(a) == EpochDay(b)
  {
    EpochDayInjective(a, b);
  }

  /** Cells shown before day 1 so that the first column is the configured week start. */
  function LeadingDays(year: int, month: int, weekStartDay: WeekStartDay): (n: int)
    requires 1 <= month <= 12
    ensures 0 <= n < 7
  {
    (Weekday(FirstOfMonth(year, month)) - weekStartDay + 7) % 7
  }

  /** The date in cell k, built block by block: end of the previous month, the month, start of the next. */
  function GridDate(year: int, month: int, weekStartDay: WeekStartDay, k: nat): Date
    requires 1 <= month <= 12 && k < TotalCalendarDays
  {
    var lead := LeadingDays(year, month, weekStartDay);
    var length := DaysInMonth(year, month);
    if k < lead then
      var prev := PreviousMonthStart(FirstOfMonth(year, month));
      CivilDate(prev.year, prev.month, DaysInMonth(prev.year, prev.month) - (lead - 1 - k))
    else if k < lead + length then
      CivilDate(year, month, k - lead + 1)
    else
      var next := NextMonthStart(FirstOfMonth(year, month));
      CivilDate(next.year, next.month, k - lead - length + 1)
  }

  /** Cell k belongs to the displayed month. */
  predicate InDisplayedMonth(year: int, month: int, weekStartDay: WeekStartDay, k: nat)
    requires 1 <= month <= 12
  {
    var lead := LeadingDays(year, month, weekStartDay);
    lead <= k < lead + DaysInMonth(year, month)
  }

  lemma LeadingBlock(year: int, month: int, weekStartDay: WeekStartDay, k: nat)
    requires 1 <= month <= 12 && k < LeadingDays(year, month, weekStartDay)
    ensures var prev := PreviousMonthStart(FirstOfMonth(year, month));
      && GridDate(year, month, weekStartDay, k)
         == CivilDate(prev.year, prev.month, DaysInMonth(prev.year, prev.month) - (LeadingDays(year, month, weekStartDay) - 1 - k))
      && !InDisplayedMonth(year, month, weekStartDay, k)
  {
  }

  lemma MonthBlock(year: int, month: int, weekStartDay: WeekStartDay, day: int)
    requires 1 <= month <= 12 && 1 <= day <= DaysInMonth(year, month)
    ensures var k := LeadingDays(year, month, weekStartDay) + day - 1;
      && k < TotalCalendarDays
      && GridDate(year, month, weekStartDay, k) == CivilDate(year, month, day)
      && InDisplayedMonth(year, month, weekStartDay, k)
  {
  }

  lemma TrailingBlock(year: int, month: int, weekStartDay: WeekStartDay, day: int)
    requires 1 <= month <= 12 && 1 <= day
    requires LeadingDays(year, month, weekStartDay) + DaysInMonth(year, month) + day - 1 < TotalCalendarDays
    ensures var k := LeadingDays(year, month, weekStartDay) + DaysInMonth(year, month) + day - 1;
      var next := NextMonthStart(FirstOfMonth(year, month));
      && GridDate(year, month, weekStartDay, k) == CivilDate(next.year, next.month, day)
      && !InDisplayedMonth(year, month, weekStartDay, k)
  {
  }

  lemma SameMonthOffset(a: Date, b: Date)
    requires a.year == b.year && a.month == b.month
    ensures EpochDay(a) - EpochDay(b) == a.day - b.day
  {
  }

  /** The cells are consecutive days, cell `lead` being day 1 of the month. */
  lemma {:induction false} GridDateIsConsecutive(year: int, month: int, weekStartDay: WeekStartDay, k: nat)
    requires 1 <= month <= 12 && k < TotalCalendarDays
    ensures EpochDay(GridDate(year, month, weekStartDay, k))
         == EpochDay(FirstOfMonth(year, month)) - LeadingDays(year, month, weekStartDay) + k
  {
    var first := FirstOfMonth(year, month);
    var lead := LeadingDays(year, month, weekStartDay);
    var length := DaysInMonth(year, month);
    var d := GridDate(year, month, weekStartDay, k);
    if k < lead {
      var prev := PreviousMonthStart(first);
      MonthBoundary(prev);
      MonthNavigationInverse(first);
      SameMonthOffset(d, LastOfMonth(prev.year, prev.month));
    } else if k < lead + length {
      SameMonthOffset(d, first);
    } else {
      var next := NextMonthStart(first);
      MonthBoundary(first);
      SameMonthOffset(d, next);
      SameMonthOffset(LastOfMonth(year, month), first);
    }
  }

  lemma WeekdayAlignment(e: int, w1: int, weekStartDay: WeekStartDay, lead: int, k: int)
    requires w1 == (e + 4) % 7 && lead == (w1 - weekStartDay + 7) % 7
    ensures (e - lead + k + 4) % 7 == (weekStartDay + k) % 7
  {
    var q := (e + 4) / 7;
    var p := (w1 - weekStartDay + 7) / 7;
    assert e - lead + k + 4 == 7 * (q + p - 1) + weekStartDay + k;
  }

  lemma WeekdayOfEpoch(d: Date, e: int)
    requires EpochDay(d) == e
    ensures Weekday(d) == (e + 4) % 7
  {
  }

  lemma ModSevenColumn(w: int, k: int)
    requires k >= 0
    ensures (w + k) % 7 == (w + k % 7) % 7
  {
    assert w + k == w + k % 7 + 7 * (k / 7);
  }

  /** Column c of every row falls on weekday `(weekStartDay + c) % 7`. */
  lemma GridColumnsAreWeekdays(year: int, month: int, weekStartDay: WeekStartDay, k: nat)
    requires 1 <= month <= 12 && k < TotalCalendarDays
    ensures Weekday(GridDate(year, month, weekStartDay, k)) == (weekStartDay + k % 7) % 7
  {
    var first := FirstOfMonth(year, month);
    var e := EpochDay(first);
    var lead := LeadingDays(year, month, weekStartDay);
    GridDateIsConsecutive(year, month, weekStartDay, k);
    WeekdayOfEpoch(first, e);
    WeekdayOfEpoch(GridDate(year, month, weekStartDay, k), e - lead + k);
    WeekdayAlignment(e, Weekday(first), weekStartDay, lead, k);
    ModSevenColumn(weekStartDay, k);
  }

  /** The header over column c names the weekday of every cell in that column. */
  lemma HeaderMatchesColumns(year: int, month: int, weekStartDay: WeekStartDay, k: nat)
    requires 1 <= month <= 12 && k < TotalCalendarDays
    ensures RotatedWeekDays(weekStartDay)[k % 7] == WeekDays[Weekday(GridDate(year, month, weekStartDay, k))]
  {
    GridColumnsAreWeekdays(year, month, weekStartDay, k);
  }

  /**
   * Every grid shows at least one cell of the month and at least five of the next, and a
   * date of the displayed month is shown only in the month's block.
   */
  lemma GridBlocks(year: int, month: int, weekStartDay: WeekStartDay)
    requires 1 <= month <= 12
    ensures var lead := LeadingDays(year, month, weekStartDay);
      && InDisplayedMonth(year, month, weekStartDay, lead)
      && lead + DaysInMonth(year, month) <= TotalCalendarDays - 5
      && !InDisplayedMonth(year, month, weekStartDay, TotalCalendarDays - 1)
    ensures forall k :: 0 <= k < TotalCalendarDays ==>
      (InDisplayedMonth(year, month, weekStartDay, k) <==>
         (GridDate(year, month, weekStartDay, k).month == month && GridDate(year, month, weekStartDay, k).year == year))
  {
  }

  /** The for-loop of calendarWeeks: a 42-element sequence cut into six rows of seven, in order. */
  method SplitIntoWeeks<T>(days: seq<T>) returns (weeks: seq<seq<T>>)
    requires |days| == TotalCalendarDays
    ensures |weeks| == WeeksInCalendar
    ensures forall r :: 0 <= r < |weeks| ==> |weeks[r]| == DaysInWeek
    ensures forall r, c :: 0 <= r < |weeks| && 0 <= c < DaysInWeek ==> weeks[r][c] == days[DaysInWeek * r + c]
  {
    weeks := [];
    var i := 0;
    while i < |days|
      invariant 0 <= i <= 42 && i == 7 * |weeks|
      invariant forall r :: 0 <= r < |weeks| ==> |weeks[r]| == 7
      invariant forall r, c :: 0 <= r < |weeks| && 0 <= c < 7 ==> weeks[r][c] == days[7 * r + c]
    {
      var row := days[i..if i + DaysInWeek <= |days| then i + DaysInWeek else |days|];
      assert |row| == 7 && forall c :: 0 <= c < 7 ==> row[c] == days[i + c];
      weeks := weeks + [row];
      i := i + DaysInWeek;
    }
  }

  /** The whole grid starts on the week-start weekday. */
  lemma GridStartsOnWeekStart(year: int, month: int, weekStartDay: WeekStartDay)
    requires 1 <= month <= 12
    ensures Weekday(GridDate(year, month, weekStartDay, 0)) == weekStartDay
  {
    GridColumnsAreWeekdays(year, month, weekStartDay, 0);
  }

  /** CalendarView: the displayed month, the selected day and the state of the day-type selector. */
  class CalendarView {
    const shifts: ShiftService
    const preferences: UserSettingsService
    /** The day the view was created on. */
    const today: Date
    var currentDate: Date
    var selectedDate: Date
    var showDayTypeSelector: bool
    var selectedDayForEdit: Option<Date>
    var selectedDayShiftType: Option<ShiftType>
    var selectedDayOriginalType: Option<ShiftType>
    var selectedDayIsModified: bool

    constructor (shifts: ShiftService, preferences: UserSettingsService, today: Date)
      ensures this.shifts == shifts && this.preferences == preferences && this.today == today
      ensures currentDate == today && selectedDate == today
      ensures !showDayTypeSelector && selectedDayForEdit == None && selectedDayShiftType == None
      ensures selectedDayOriginalType == None && !selectedDayIsModified
    {
      this.shifts := shifts;
      this.preferences := preferences;
      this.today := today;
      currentDate := today;
      selectedDate := today;
      showDayTypeSelector := false;
      selectedDayForEdit := None;
      selectedDayShiftType := None;
      selectedDayOriginalType := None;
      selectedDayIsModified := false;
    }

    /** The selected crew, David's when none is chosen. */
    function CurrentCrew(): Crew
      reads preferences
    {
      preferences.settings.selectedCrew.GetOr(David)
    }

    function Cell(date: Date, isOtherMonth: bool): (c: CalendarCell)
      reads this, shifts.store, preferences
      ensures c.dayNumber == date.day && c.date == date && c.isOtherMonth == isOtherMonth
      ensures c.isToday <==> date == today
      ensures c.shiftData == shifts.GetShiftDay(date, CurrentCrew())
    {
      CalendarCell(date.day, IsSameDay(date, today), isOtherMonth, date, shifts.GetShiftDay(date, CurrentCrew()))
    }

    /** What cell k of the displayed month must hold. */
    function GridCell(k: nat): CalendarCell
      requires k < TotalCalendarDays
      reads this, shifts.store, preferences
    {
      var wsd := preferences.settings.weekStartDay;
      Cell(GridDate(currentDate.year, currentDate.month, wsd, k),
           !InDisplayedMonth(currentDate.year, currentDate.month, wsd, k))
    }

    /** calendarDays: the leading, current-month and trailing blocks, 42 cells in all. */
    method CalendarDays() returns (days: seq<CalendarCell>)
      ensures |days| == TotalCalendarDays
      ensures forall k :: 0 <= k < |days| ==> days[k] == GridCell(k)
    {
      days := PreviousMonthDays();
      days := AddCurrentMonthDays(days);
      days := AddNextMonthDays(days);
    }

    /** The first loop: the last `LeadingDays` days of the previous month. */
    method PreviousMonthDays() returns (days: seq<CalendarCell>)
      ensures |days| == LeadingDays(currentDate.year, currentDate.month, preferences.settings.weekStartDay)
      ensures forall k :: 0 <= k < |days| ==> days[k] == GridCell(k)
    {
      var year := currentDate.year;
      var month := currentDate.month;
      var weekStartDay := preferences.settings.weekStartDay;
      var adjustedFirstDay := (Weekday(FirstOfMonth(year, month)) - weekStartDay + 7) % 7;
      var prev := PreviousMonthStart(FirstOfMonth(year, month));
      var previousMonthDays := DaysInMonth(prev.year, prev.month);
      days := [];
      var i := adjustedFirstDay - 1;
      while i >= 0
        invariant -1 <= i < adjustedFirstDay
        invariant |days| == adjustedFirstDay - 1 - i
        invariant forall k :: 0 <= k < |days| ==> days[k] == GridCell(k)
      {
        LeadingBlock(year, month, weekStartDay, |days|);
        var date := CivilDate(prev.year, prev.month, previousMonthDays - i);
        assert date == GridDate(year, month, weekStartDay, |days|);
        assert Cell(date, true) == GridCell(|days|);
        days := days + [Cell(date, true)];
        i := i - 1;
      }
    }

    /** The second loop: days 1 to the month's length. */
    method AddCurrentMonthDays(start: seq<CalendarCell>) returns (days: seq<CalendarCell>)
      requires |start| == LeadingDays(currentDate.year, currentDate.month, preferences.settings.weekStartDay)
      requires forall k :: 0 <= k < |start| ==> start[k] == GridCell(k)
      ensures |days| == |start| + DaysInMonth(currentDate.year, currentDate.month)
      ensures forall k :: 0 <= k < |days| ==> days[k] == GridCell(k)
    {
      var year := currentDate.year;
      var month := currentDate.month;
      var lastDay := DaysInMonth(year, month);
      days := start;
      var day := 1;
      while day <= lastDay
        invariant 1 <= day <= lastDay + 1
        invariant |days| == |start| + day - 1
        invariant forall k :: 0 <= k < |days| ==> days[k] == GridCell(k)
      {
        MonthBlock(year, month, preferences.settings.weekStartDay, day);
        assert CivilDate(year, month, day) == GridDate(year, month, preferences.settings.weekStartDay, |days|);
        assert Cell(CivilDate(year, month, day), false) == GridCell(|days|);
        days := days + [Cell(CivilDate(year, month, day), false)];
        day := day + 1;
      }
    }

    /** The third loop: the next month from day 1 until 42 cells are filled. */
    method AddNextMonthDays(start: seq<CalendarCell>) returns (days: seq<CalendarCell>)
      requires |start| == LeadingDays(currentDate.year, currentDate.month, preferences.settings.weekStartDay)
                          + DaysInMonth(currentDate.year, currentDate.month)
      requires forall k :: 0 <= k < |start| ==> start[k] == GridCell(k)
      ensures |days| == TotalCalendarDays
      ensures forall k :: 0 <= k < |days| ==> days[k] == GridCell(k)
    {
      var remainingDays := TotalCalendarDays - |start|;
      var next := NextMonthStart(FirstOfMonth(currentDate.year, currentDate.month));
      days := start;
      var day := 1;
      while day <= remainingDays
        invariant 1 <= day <= remainingDays + 1
        invariant |days| == |start| + day - 1
        invariant forall k :: 0 <= k < |days| ==> days[k] == GridCell(k)
      {
        TrailingBlock(currentDate.year, currentDate.month, preferences.settings.weekStartDay, day);
        assert CivilDate(next.year, next.month, day) == GridDate(currentDate.year, currentDate.month, preferences.settings.weekStartDay, |days|);
        assert Cell(CivilDate(next.year, next.month, day), true) == GridCell(|days|);
        days := days + [Cell(CivilDate(next.year, next.month, day), true)];
        day := day + 1;
      }
    }

    /** calendarWeeks: the cells cut into rows of seven. */
    method CalendarWeeks() returns (weeks: seq<seq<CalendarCell>>)
      ensures |weeks| == WeeksInCalendar
      ensures forall r :: 0 <= r < |weeks| ==> |weeks[r]| == DaysInWeek
      ensures forall r, c :: 0 <= r < |weeks| && 0 <= c < DaysInWeek ==> weeks[r][c] == GridCell(DaysInWeek * r + c)
    {
      var days := CalendarDays();
      weeks := SplitIntoWeeks(days);
    }

    /** previousMonth: day 1 of the month before, December of the year before for January. */
    method PreviousMonth()
      modifies this`currentDate
      ensures currentDate == PreviousMonthStart(old(currentDate))
    {
      currentDate := PreviousMonthStart(currentDate);
    }

    /** nextMonth: day 1 of the month after, January of the year after for December. */
    method NextMonth()
      modifies this`currentDate
      ensures currentDate == NextMonthStart(old(currentDate))
    {
      currentDate := NextMonthStart(currentDate);
    }

    /** onDateSelect: select the date and show its month. */
    method OnDateSelect(date: Date)
      modifies this`selectedDate, this`currentDate
      ensures selectedDate == date && currentDate == FirstOfMonth(date.year, date.month)
    {
      selectedDate := date;
      currentDate := FirstOfMonth(date.year, date.month);
    }

    /** goToToday, with `now` standing for the clock's date. */
    method GoToToday(now: Date)
      modifies this`selectedDate, this`currentDate
      ensures selectedDate == now && currentDate == now
    {
      currentDate := now;
      selectedDate := now;
    }

    /** onDayClick: days outside the displayed month are ignored; otherwise the selector opens on that day. */
    method OnDayClick(date: Date)
      modifies this`selectedDayForEdit, this`selectedDayShiftType, this`selectedDayOriginalType,
               this`selectedDayIsModified, this`showDayTypeSelector
      ensures date.month != currentDate.month || date.year != currentDate.year ==>
        && selectedDayForEdit == old(selectedDayForEdit) && selectedDayShiftType == old(selectedDayShiftType)
        && selectedDayOriginalType == old(selectedDayOriginalType)
        && selectedDayIsModified == old(selectedDayIsModified) && showDayTypeSelector == old(showDayTypeSelector)
      ensures date.month == currentDate.month && date.year == currentDate.year ==>
        var day := shifts.GetShiftDay(date, CurrentCrew());
        && showDayTypeSelector && selectedDayForEdit == Some(date)
        && selectedDayShiftType == Some(day.shiftType)
        && (selectedDayIsModified <==> shifts.store.GetShiftModification(date, CurrentCrew()).Some?)
        && selectedDayOriginalType == (if selectedDayIsModified then Some(ShiftForDate(date, CurrentCrew())) else None)
    {
      if date.month != currentDate.month || date.year != currentDate.year {
        return;
      }
      var shiftData := shifts.GetShiftDay(date, CurrentCrew());
      selectedDayForEdit := Some(date);
      selectedDayShiftType := Some(shiftData.shiftType);
      selectedDayOriginalType := shiftData.originalShiftType;
      selectedDayIsModified := shiftData.isModified;
      showDayTypeSelector := true;
    }

    /**
     * onDayTypeSelected: apply the choice through the shift service, then close the selector.
     * The original-type and modified fields are left as they were.
     */
    method OnDayTypeSelected(date: Date, shiftType: ShiftType, now: int, writeOk: bool)
      modifies shifts.store`cache, shifts.store`localModifications, shifts.store`remote, shifts.store`notifications
      modifies this`showDayTypeSelector, this`selectedDayForEdit, this`selectedDayShiftType
      ensures shifts.store.cache ==
        if old(shifts.store.WriteLands(writeOk)) then Updated(old(shifts.store.cache), date, shiftType, old(CurrentCrew()), now)
        else old(shifts.store.cache)
      ensures old(shifts.store.WriteLands(writeOk)) ==> shifts.GetShiftDay(date, CurrentCrew()).shiftType == shiftType
      ensures var next := Updated(old(shifts.store.cache), date, shiftType, old(CurrentCrew()), now);
        if !old(shifts.store.WriteLands(writeOk))
           || (shiftType == ShiftForDate(date, old(CurrentCrew())) && |next| == |old(shifts.store.cache)|)
        then shifts.store.ModificationsUnchanged() else shifts.store.ModificationsWritten(next, Stored(next))
      ensures old(shifts.store.Synced()) ==> shifts.store.Synced()
      ensures !showDayTypeSelector && selectedDayForEdit == None && selectedDayShiftType == None
      ensures selectedDayOriginalType == old(selectedDayOriginalType) && selectedDayIsModified == old(selectedDayIsModified)
    {
      // the selector fields and the store are disjoint, so closing first is the same as closing after the update
      showDayTypeSelector := false;
      selectedDayForEdit := None;
      selectedDayShiftType := None;
      shifts.UpdateShiftType(date, shiftType, CurrentCrew(), now, writeOk);
    }

    /** onDayTypeSelectorVisibilityChange: hiding the selector forgets the selected day. */
    method OnDayTypeSelectorVisibilityChange(visible: bool)
      modifies this`showDayTypeSelector, this`selectedDayForEdit, this`selectedDayShiftType,
               this`selectedDayOriginalType, this`selectedDayIsModified
      ensures showDayTypeSelector == visible
      ensures !visible ==>
        selectedDayForEdit == None && selectedDayShiftType == None && selectedDayOriginalType == None && !selectedDayIsModified
      ensures visible ==>
        && selectedDayForEdit == old(selectedDayForEdit) && selectedDayShiftType == old(selectedDayShiftType)
        && selectedDayOriginalType == old(selectedDayOriginalType) && selectedDayIsModified == old(selectedDayIsModified)
    {
      showDayTypeSelector := visible;
      if !visible {
        selectedDayForEdit := None;
        selectedDayShiftType := None;
        selectedDayOriginalType := None;
        selectedDayIsModified := false;
      }
    }
  }
}
