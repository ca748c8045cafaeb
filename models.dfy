/** The application's value types: shift types, crews, the merged day view and the user's settings. */
module Models {
  import opened Wrappers
  import opened Dates

  datatype ShiftType = Early | Late | Off | AnnualLeave

  datatype Crew = David | Trevor | Paddy

  /** Where a crew's 9-day cycle is anchored. */
  datatype CrewConfig = CrewConfig(name: Crew, displayName: string, cycleStartDate: Date, cycleLength: nat)

  /** Position of a date in its crew's cycle, both counted from 1. */
  datatype ShiftCycleInfo = ShiftCycleInfo(dayInCycle: int, cycleNumber: int, shiftType: ShiftType)

  /** One day as the calendar shows it: the effective shift, and the computed one when it was overridden. */
  datatype ShiftDay = ShiftDay(
    date: Date,
    shiftType: ShiftType,
    isHoliday: bool,
    isModified: bool,
    originalShiftType: Option<ShiftType>)

  datatype Theme = Light | Dark | Auto

  /** First column of the week: 0 is Sunday ... 6 is Saturday. */
  type WeekStartDay = w: int | 0 <= w < 7

  datatype UserSettings = UserSettings(
    weekStartDay: WeekStartDay,
    showShiftLabels: bool,
    theme: Option<Theme>,
    selectedCrew: Option<Crew>,
    hasCompletedInitialSetup: Option<bool>)

  const DefaultUserSettings: UserSettings := UserSettings(0, true, Some(Auto), None, None)
}
