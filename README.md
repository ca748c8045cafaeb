# Crew shift calendar — verified model

This project models the scheduling core of the crew shift calendar: an Angular app that shows
three crews' (David's, Trevor's and Paddy's) rotating 9-day pattern of early, late and off days
on a month grid. A user can override single days, and the overrides and the user's settings
live either in the browser's local storage (guest) or in a per-user remote document
(signed in).

The model is split by the app's own structure:

- `dates.dfy` (`Dates`): local calendar dates as `(year, month, day)` triples. It covers
  Gregorian day numbering (day 0 is 1970-01-01), weekdays with Sunday as 0, month lengths and
  month navigation. This is the part of JavaScript's `Date` the app relies on.
- `date_format.dfy` (`DateFormat`): the `YYYY-MM-DD` strings that `formatDateToISO` and
  `formatDateToLocalString` build, and a parser that reads them back.
- `models.dfy`, `wrappers.dfy`: the value types (`ShiftType`, `CrewType`, `ShiftDay`,
  `ShiftCycleInfo`, `UserSettings`, `DEFAULT_USER_SETTINGS`) and `Option`.
- `constants.dfy` (`Constants`): the cycle pattern, the crews' anchors, the bank holidays, the
  calendar sizes and the storage keys.
- `storage.dfy` (`Storage`): the `StorageService` class. Its state is:
  - the in-memory cache;
  - the two local-storage keys;
  - the remote documents, keyed by user id;
  - the signed-in identity;
  - a count of change events.

  Remote and local write failures are an outcome parameter.
- `shifts.dfy` (`Shifts`): the cycle engine, holiday lookup, the merged day view and the
  `ShiftService` class, which changes the store.
- `preferences.dfy` (`Preferences`): `UserSettingsService`, which does partial-merge updates and
  rotates the weekday header.
- `calendar.dfy` (`Calendar`): the `CalendarView` component. It builds the 42-cell grid (three
  loops) and the weeks, and handles navigation and the day click and selector flow.
- `day_types.dfy` (`DayTypes`): the `DayTypeSelector` component. It builds the options list
  (with an in-place update of one array element) and applies the annual-leave quota gate.
- `settings_dialog.dfy` (`SettingsDialog`): the `SettingsModal` component's draft/commit
  state machine.

Asynchronous methods are modelled as sequential methods. Time, the remote server's answers and
the confirmation dialog's answer become parameters:
- `now` is the record timestamp;
- `readOk`, `createOk` and `writeOk` are the outcomes of remote and local calls;
- `accepted` is the user's answer to the confirmation dialog.

The cache is assigned only after a write returns normally. A failed write therefore leaves the
cache, both stores and the event count as they were (src/app/core/services/storage.service.ts:254-277).

## Model

| member | source | states |
|---|---|---|
| Dates.DaysInMonth | src/app/pages/calendar-view/calendar-view.ts:79 | a month has 28 to 31 days, and 29 exactly for February of a leap year |
| Dates.Weekday | src/app/pages/calendar-view/calendar-view.ts:82 | getDay() lies in 0..6 |
| Dates.EpochOrigin | src/app/core/services/shift.service.ts:114-119 | 1970-01-01, the origin of Date.UTC, is day 0 and a Thursday |
| Dates.NextDayIsNextEpochDay | src/app/core/services/shift.service.ts:113-123 | the calendar's next day, rolling months and years, is exactly one day number later |
| Dates.AddDaysIsEpochShift | src/app/core/services/shift.service.ts:113-123 | moving n days forward adds n to the day number |
| Dates.WeekdayAdvances | src/app/pages/calendar-view/calendar-view.ts:82 | the weekday of the next day is one more, mod 7 |
| Dates.EpochDayOrder | src/app/core/services/shift.service.ts:113-123 | a date is earlier than another exactly when its day number is smaller |
| Dates.EpochDayInjective | src/app/core/services/shift.service.ts:113-123 | two dates have the same day number exactly when they are the same date |
| Dates.PreviousMonthStart | src/app/pages/calendar-view/calendar-view.ts:171-174 | new Date(y, m - 1, 1) is a first of the month, wrapping January to December of the year before |
| Dates.NextMonthStart | src/app/pages/calendar-view/calendar-view.ts:176-179 | new Date(y, m + 1, 1) is a first of the month, wrapping December to January of the year after |
| Dates.MonthBoundary | src/app/pages/calendar-view/calendar-view.ts:129-134 | the day after a month's last day is day 1 of the next month, one day number later |
| Dates.MonthNavigationInverse | src/app/pages/calendar-view/calendar-view.ts:171-179 | going back a month and then forward one (or the reverse) lands on the first of the starting month |
| DateFormat.NatToDecimal | src/app/core/services/shift.service.ts:108-109 | String(n) is a non-empty string of decimal digits |
| DateFormat.ParseIntToDecimal | src/app/core/services/shift.service.ts:107 | the decimal spelling of any year, negative ones included, reads back as that year |
| DateFormat.TwoDigits | src/app/core/services/shift.service.ts:108-109 | padStart(2, '0') of a month or day below 100 is exactly its two digits, and they read back as the number |
| DateFormat.IsoStringDigits | src/app/core/services/shift.service.ts:106-111 | for a four-digit year the string is the ten characters YYYY-MM-DD with month and day zero-padded |
| DateFormat.ParseIsoRoundTrip | src/app/core/services/shift.service.ts:106-111 | reading the formatted string gives back the date, for every year |
| DateFormat.IsoStringInjective | src/app/core/services/storage.service.ts:222-227 | two dates format to the same string exactly when they are the same date, so the string is a sound record key |
| DateFormat.IsoStringStartsWithYear | src/app/core/services/storage.service.ts:343 | a date's string starts with the decimal year |
| Constants.BankHolidayStrings | src/app/core/constants/app.constants.ts:26-47 | the 20 holiday strings are exactly the formatted strings of the 20 holiday dates |
| Constants.BankHolidaysOrdered | src/app/core/constants/app.constants.ts:26-47 | the holidays are in strictly ascending order, all in 2025 or 2026, and no string repeats |
| Constants.ShiftPatternShape | src/app/core/constants/app.constants.ts:51-62 | the pattern has CYCLE_LENGTH = 9 slots: early at 1-3, late at 4-6 and off at 7-9 |
| Constants.CrewAnchors | src/app/core/constants/app.constants.ts:63-82 | every crew's cycleLength is 9; the zero-based-month anchors are 2024-12-30 (a Monday), then 3 and 6 days later |
| Constants.CalendarSize | src/app/core/constants/app.constants.ts:8-13 | TOTAL_CALENDAR_DAYS is DAYS_IN_WEEK times WEEKS_IN_CALENDAR, 42, and there are 7 weekday names |
| Constants.StorageKeys | src/app/core/constants/app.constants.ts:83-165 | ANNUAL_LEAVE_LIMIT is 31, and the modifications and settings keys differ, so the two local entries are independent |
| Constants.WeekDaysDistinct | src/app/core/constants/app.constants.ts:13 | the seven weekday abbreviations are pairwise different |
| Storage.Without | src/app/core/services/storage.service.ts:246-248 | the filter keeps exactly the records that are not for the (date, crew) pair, and never grows the list |
| Storage.FindModification | src/app/core/services/storage.service.ts:291-293 | find returns null exactly when no record matches; otherwise it returns the first matching record |
| Storage.AnnualLeaveCount | src/app/core/services/storage.service.ts:339-343 | the count is at most the number of records, and 0 exactly when no record is the crew's annual leave in that year |
| Storage.LocalData | src/app/core/services/storage.service.ts:190-217 | an absent or unparseable key yields [] or DEFAULT_USER_SETTINGS; a parsed one yields its value |
| Storage.WithoutConcat | src/app/core/services/storage.service.ts:246-248 | filtering distributes over concatenation, so the kept records stay in their order |
| Storage.WithoutKeepsAllIffNoMatch | src/app/core/services/storage.service.ts:303-309 | the filtered list has the old length exactly when no record matches, which is when removal returns early |
| Storage.WithoutNoMatch | src/app/core/services/storage.service.ts:303-309 | with no matching record the filter returns the list unchanged |
| Storage.WithoutIdempotent | src/app/core/services/storage.service.ts:246-248 | filtering twice for the same pair is filtering once |
| Storage.SavedHasOneRecordForKey | src/app/core/services/storage.service.ts:246-252 | after a save the new record is last, the others are the filtered old list in order, and none of them has the same pair |
| Storage.SaveTwiceKeepsLast | src/app/core/services/storage.service.ts:246-252 | a second save for the same pair replaces the first |
| Storage.RemoveAfterSave | src/app/core/services/storage.service.ts:298-309 | removing a pair after saving it leaves what removing it alone would leave |
| Storage.FindAfterSaveAndRemove | src/app/core/services/storage.service.ts:286-296 | lookup after a save returns the saved record; after a removal it returns null |
| Storage.FindIgnoresOtherKeys | src/app/core/services/storage.service.ts:298-309 | removing one pair does not change the lookup of any other pair |
| Storage.SaveIgnoresOtherKeys | src/app/core/services/storage.service.ts:246-252 | saving one pair does not change the lookup of any other pair |
| Storage.SaveKeepsUnique | src/app/core/services/storage.service.ts:246-252 | if at most one record exists per pair before a save, that still holds after it |
| Storage.WithoutKeepsUnique | src/app/core/services/storage.service.ts:303-307 | removal keeps at most one record per pair |
| Storage.LeaveCountConcat | src/app/core/services/storage.service.ts:339-343 | the leave count of a concatenation is the sum of the parts' counts |
| Storage.LeaveCountWithout | src/app/core/services/storage.service.ts:246-248 | filtering never raises the leave count |
| Storage.LeaveCountDrops | src/app/core/services/storage.service.ts:246-248 | filtering out a counted annual-leave record lowers the count |
| Storage.LeaveYearPrefix | src/app/core/services/storage.service.ts:338-343 | for four-digit years, startsWith(year) on a record's date is the same as the date being in that year |
| Storage.LeaveCountExample | src/app/core/services/storage.service.ts:336-346 | a crew-A 2025 leave, a crew-B 2025 leave and a crew-A 2024 leave count as 1 for crew A in 2025 |
| Storage.MigratedDocumentLoadsBack | src/app/core/services/storage.service.ts:150-167 | a document created from local data loads back as that same data |
| Storage.StorageService.constructor | src/app/core/services/storage.service.ts:33-39 | the cache starts empty with default settings, uninitialised, with no user and not loading |
| Storage.StorageService.LocalStorageData | src/app/core/services/storage.service.ts:190-217 | each local key contributes its parsed value, and an absent or unparseable key its default |
| Storage.StorageService.Initialize | src/app/core/services/storage.service.ts:102-120 | a guest's cache is loaded from local data; a signed-in user's goes through the document check. Either way the cache is marked initialised and the identity is recorded |
| Storage.StorageService.CheckUserDocumentExists | src/app/core/services/storage.service.ts:131-188 | an existing document is loaded with missing fields defaulted. With none, one is created from exactly the local data, the cache is set to it, and both local keys are removed. A failed read or create changes nothing. Loading is false afterwards |
| Storage.StorageService.SaveShiftModification | src/app/core/services/storage.service.ts:229-278 | the filtered list plus the new record is written to the active store and then to the cache. The event fires only for guests. A failed write changes nothing. The active store stays in step with the cache |
| Storage.StorageService.GetShiftModification | src/app/core/services/storage.service.ts:286-296 | the result is null exactly when no cached record matches the date string and crew; otherwise it is the first cached record for the pair, with an index witness before which nothing matches |
| Storage.StorageService.RemoveShiftModification | src/app/core/services/storage.service.ts:298-334 | with no match there is no write, no cache change and no event. Otherwise the filtered list is written and cached; the event is for guests only, and a failed write changes nothing |
| Storage.StorageService.GetAnnualLeaveUsage | src/app/core/services/storage.service.ts:336-346 | the count is bounded by the cache size, and 0 exactly when no cached record counts |
| Storage.StorageService.ClearAllShiftModifications | src/app/core/services/storage.service.ts:348-374 | the cache becomes empty. A guest's key is removed and the event fires; a signed-in user's document gets [] and there is no event. A failed write changes nothing |
| Storage.StorageService.SetUserSettings | src/app/core/services/storage.service.ts:386-408 | the record is written whole to the active store and then cached, with no event; a failed write changes nothing |
| Shifts.DaysDifference | src/app/core/services/shift.service.ts:113-123 | the floor of the UTC-midnight millisecond gap divided by a day is exactly the difference of day numbers |
| Shifts.DaysDifferenceLaws | src/app/core/services/shift.service.ts:113-123 | the difference is 0 on the same day, antisymmetric, additive, n for a date n days later, and positive exactly when start is earlier |
| Shifts.TruncatedRemainder | src/app/core/services/shift.service.ts:42 | JavaScript's % 9 lies strictly between -9 and 9. It agrees with the floor remainder for non-negative input and is non-positive for negative input |
| Shifts.PatternAt | src/app/core/services/shift.service.ts:46 | indexing the pattern is defined exactly for indices 0..8 |
| Shifts.CycleInfo | src/app/core/services/shift.service.ts:35-53 | dayInCycle is in 1..9, the shift is pattern[dayInCycle - 1], and (cycleNumber - 1) * 9 + dayInCycle - 1 is the day offset from the anchor |
| Shifts.ShiftForDate | src/app/core/services/shift.service.ts:30-33 | the computed shift (the corrected engine, equal to the source on and after the crew's anchor by AsWrittenAgreesFromAnchor) is never annual leave |
| Shifts.AsWrittenAgreesFromAnchor | src/app/core/services/shift.service.ts:35-53 | on and after the crew's anchor, the code as written gives the same day, cycle and shift as the corrected computation |
| Shifts.AsWrittenBeforeAnchor | src/app/core/services/shift.service.ts:39-46 | before the anchor, as written: dayInCycle is at most 1 and the cycle number at most 0. The shift is undefined exactly when dayInCycle is below 1, and dayInCycle is 1 exactly when the offset is a multiple of 9 |
| Shifts.AsWrittenLosesTrevorNewYear | src/app/core/services/shift.service.ts:42 | MIN_DATE 2025-01-01 is before Trevor's and Paddy's anchors. For Trevor the code as written gives (0, 0, undefined); the corrected computation gives (9, 0, off) |
| Shifts.AnchorStartsCycle | src/app/core/services/shift.service.ts:35-53 | on its anchor every crew is on day 1 of cycle 1, an early shift, both as written and corrected |
| Shifts.CycleRepeats | src/app/core/services/shift.service.ts:30-46 | nine days later is the same cycle day of the next cycle, so the same shift |
| Shifts.CycleRepeatsAsWritten | src/app/core/services/shift.service.ts:30-46 | from the anchor on, the code as written also repeats every 9 days |
| Shifts.FirstCycleOfDavid | src/app/core/services/shift.service.ts:35-53 | for David's crew, 2025-01-07 is (9, 1, off) and 2025-01-08 is (1, 2, early) |
| Shifts.CrewsCoverEveryShift | src/app/core/constants/app.constants.ts:63-82 | on every day the three crews' shifts are exactly early, late and off, one each |
| Shifts.IsHolidayIff | src/app/core/services/shift.service.ts:101-104 | the string lookup is true exactly when the date is one of the bank holiday dates |
| Shifts.ChristmasIsHoliday | src/app/core/services/shift.service.ts:101-104 | 2025-12-25 is a holiday and 2025-12-24 is not |
| Shifts.ShiftService.constructor | src/app/core/services/shift.service.ts:12-17 | the service starts with its store and a trigger of 0 |
| Shifts.ShiftService.OnDataChange | src/app/core/services/shift.service.ts:19-28 | each identity change or store event bumps the modification trigger by one |
| Shifts.ShiftService.GetShiftDay | src/app/core/services/shift.service.ts:55-69 | the day is modified exactly when a cached record matches. Then it shows the record's type with the computed one as original; otherwise it shows the computed type and no original. isHoliday is membership in the holiday dates. "Computed" means the corrected engine, equal to the source on and after the crew's anchor |
| Shifts.ShiftService.UpdateShiftType | src/app/core/services/shift.service.ts:80-93 | choosing the computed type removes the override; any other type saves one with the computed type as original. After a landed write the day shows the chosen type and is modified exactly when it differs from the computed one. No other pair's lookup changes. The persisted state is that of the store write (ModificationsWritten): a guest's key holds the new list and the change event fires; a signed-in user's document alone gets it, every other document unchanged, no event; a failed write, or a removal with nothing to remove, changes nothing (ModificationsUnchanged). The active store stays in step with the cache. "Computed" means the corrected engine, equal to the source on and after the crew's anchor |
| Shifts.ShiftService.RestoreAllDays | src/app/core/services/shift.service.ts:95-99 | after a landed write the cache is empty, so every day of every crew is unmodified and shows its computed shift. A guest's key is removed with the change event; a signed-in user's document alone gets [] without one; a failed write changes nothing. The active store stays in step with the cache |
| Shifts.UpdatedLookup | src/app/core/services/shift.service.ts:80-93 | after an update the pair's lookup is null when the chosen type is the computed one, and otherwise the new record |
| Shifts.UpdateLeavesOthers | src/app/core/services/shift.service.ts:80-93 | an update of one (date, crew) pair leaves the lookup of every other pair unchanged |
| Preferences.Merge | src/app/core/services/user-settings.service.ts:40-45 | every field the patch sets takes the patch's value; every other field keeps the current one |
| Preferences.MergeLaws | src/app/core/services/user-settings.service.ts:40-45 | an empty patch changes nothing, and applying a patch twice equals applying it once |
| Preferences.MergeSequence | src/app/core/services/user-settings.service.ts:40-45 | two successive patches equal one patch in which the later one wins field by field |
| Preferences.RotatedWeekDays | src/app/core/services/user-settings.service.ts:21-25 | the rotation has 7 names and starts with days[start]. Position i holds days[(i + start) % 7], and it is a permutation of the names |
| Preferences.RotationHasEachDayOnce | src/app/core/services/user-settings.service.ts:21-25 | each abbreviation occurs exactly once in every rotation |
| Preferences.UserSettingsService.constructor | src/app/core/services/user-settings.service.ts:12 | the held settings start as the store's settings |
| Preferences.UserSettingsService.OrderedWeekDays | src/app/core/services/user-settings.service.ts:21-25 | the header has 7 names, starts at the configured week start, holds the name of weekday (i + start) % 7 at position i, and is a permutation of the names |
| Preferences.UserSettingsService.UpdateSettings | src/app/core/services/user-settings.service.ts:40-45 | the held settings become the merge of the old ones with the patch, before the store write and whatever its outcome. The store caches and persists the same record only when its write lands: a guest's key or the signed-in user's document alone, every other document unchanged (SettingsWritten); a failed write changes no stored state (SettingsUnchanged). The active store stays in step with the cache |
| Preferences.UserSettingsService.UpdateWeekStartDay | src/app/core/services/user-settings.service.ts:47-49 | only weekStartDay changes; the whole record is then cached and persisted as by UpdateSettings, or nothing stored changes when the write fails |
| Preferences.UserSettingsService.UpdateShowShiftLabels | src/app/core/services/user-settings.service.ts:51-53 | only showShiftLabels changes; the whole record is then cached and persisted as by UpdateSettings, or nothing stored changes when the write fails |
| Preferences.UserSettingsService.UpdateSelectedCrew | src/app/core/services/user-settings.service.ts:55-60 | selectedCrew becomes the crew and hasCompletedInitialSetup becomes true; nothing else changes. The whole record is then cached and persisted as by UpdateSettings, or nothing stored changes when the write fails |
| Preferences.UserSettingsService.OnDataChange | src/app/core/services/user-settings.service.ts:27-37 | on a store event the held settings are reloaded from the store |
| Calendar.IsSameDay | src/app/pages/calendar-view/calendar-view.ts:162-168 | true exactly when the two dates are equal |
| Calendar.IsSameDayIffSameEpochDay | src/app/pages/calendar-view/calendar-view.ts:162-168 | the same day exactly when they have the same day number |
| Calendar.LeadingDays | src/app/pages/calendar-view/calendar-view.ts:82-87 | (firstDayWeekday - weekStartDay + 7) % 7 lies in 0..6 |
| Calendar.GridDateIsConsecutive | src/app/pages/calendar-view/calendar-view.ts:89-145 | cell k's date is k - lead days after day 1 of the month, so the 42 cells are consecutive days across both month boundaries and year wraps |
| Calendar.GridColumnsAreWeekdays | src/app/pages/calendar-view/calendar-view.ts:82-111 | every cell in column c falls on weekday (weekStartDay + c) % 7 |
| Calendar.HeaderMatchesColumns | src/app/core/services/user-settings.service.ts:21-25 | the rotated header name over each column is the weekday name of every cell in it |
| Calendar.GridStartsOnWeekStart | src/app/pages/calendar-view/calendar-view.ts:82-87 | the first cell falls on the configured week-start day |
| Calendar.GridBlocks | src/app/pages/calendar-view/calendar-view.ts:114-145 | the month block is non-empty and at least 5 trailing cells follow it. The last cell is another month's, and a cell is in the month's block exactly when its date is in the displayed month |
| Calendar.CalendarView.constructor | src/app/pages/calendar-view/calendar-view.ts:37-51 | the view shows today, with the selector closed and nothing selected |
| Calendar.CalendarView.Cell | src/app/pages/calendar-view/calendar-view.ts:103-110 | a cell carries its date and day number, isToday exactly when the date is today, the given month flag, and the crew's shift day for that date from getShiftDay |
| Calendar.CalendarView.CalendarDays | src/app/pages/calendar-view/calendar-view.ts:68-148 | exactly 42 cells, cell k holding the k-th grid date, the month flag, isToday and the merged shift day (corrected engine; equal to the source on and after each crew's anchor) |
| Calendar.CalendarView.PreviousMonthDays | src/app/pages/calendar-view/calendar-view.ts:97-111 | the first loop produces the lead cells, ending on the previous month's last day |
| Calendar.CalendarView.AddCurrentMonthDays | src/app/pages/calendar-view/calendar-view.ts:113-126 | the second loop appends days 1 to the month's length |
| Calendar.CalendarView.AddNextMonthDays | src/app/pages/calendar-view/calendar-view.ts:128-145 | the third loop fills up to 42 cells from day 1 of the next month |
| Calendar.CalendarView.CalendarWeeks | src/app/pages/calendar-view/calendar-view.ts:150-160 | 6 rows of 7, row r column c being cell 7r + c, so the rows concatenate to the cells |
| Calendar.SplitIntoWeeks | src/app/pages/calendar-view/calendar-view.ts:155-157 | any 42-element sequence becomes 6 rows of exactly 7, row r column c being element 7r + c |
| Calendar.CalendarView.PreviousMonth | src/app/pages/calendar-view/calendar-view.ts:171-174 | the displayed date becomes day 1 of the previous month, wrapping the year |
| Calendar.CalendarView.NextMonth | src/app/pages/calendar-view/calendar-view.ts:176-179 | the displayed date becomes day 1 of the next month, wrapping the year |
| Calendar.CalendarView.OnDateSelect | src/app/pages/calendar-view/calendar-view.ts:181-186 | the date is selected and its month is displayed from day 1 |
| Calendar.CalendarView.GoToToday | src/app/pages/calendar-view/calendar-view.ts:188-192 | the clock's date is both displayed and selected |
| Calendar.CalendarView.OnDayClick | src/app/pages/calendar-view/calendar-view.ts:194-212 | a date outside the displayed month and year changes nothing. Otherwise the selector opens with the day's shift, modified exactly when an override exists, and the computed shift as original only then |
| Calendar.CalendarView.OnDayTypeSelected | src/app/pages/calendar-view/calendar-view.ts:214-222 | the choice is applied through the shift service and the selector closes, clearing the day and its type but not the original type or modified flag. The store's cache and persisted state are those of UpdateShiftType for the crew shown, and the active store stays in step with the cache |
| Calendar.CalendarView.OnDayTypeSelectorVisibilityChange | src/app/pages/calendar-view/calendar-view.ts:224-232 | hiding clears the selected day, its type, its original type and the modified flag; showing keeps them |
| DayTypes.OptionIndex | src/app/shared/components/day-type-selector/day-type-selector.ts:104 | each type has exactly one option, found at its index |
| DayTypes.Options | src/app/shared/components/day-type-selector/day-type-selector.ts:67-115 | four options in the order off, early, late, annual leave, with their descriptions. An option is flagged original exactly when the day is modified and its type is the original one; the flagged option's label gets " (Original)" appended and every other label is unchanged |
| DayTypes.OptionOrder | src/app/shared/components/day-type-selector/day-type-selector.ts:71-112 | the order is off, early, late, annual leave. Exactly one option is marked when the day is modified with a known original, and none otherwise |
| DayTypes.LeaveGateKeepsQuota | src/app/shared/components/day-type-selector/day-type-selector.ts:146-174 | choosing annual leave when the gate allows it (below the limit, or the day already annual leave) never takes the year's count above 31 |
| DayTypes.DayTypeSelector.constructor | src/app/shared/components/day-type-selector/day-type-selector.ts:36-49 | the inputs start empty and the dialog is hidden |
| DayTypes.DayTypeSelector.DayTypeOptions | src/app/shared/components/day-type-selector/day-type-selector.ts:67-115 | the list built in place, searching for and then replacing the original type's entry, equals Options |
| DayTypes.DayTypeSelector.AnnualLeaveInfo | src/app/shared/components/day-type-selector/day-type-selector.ts:128-139 | used is 0 without a selected date, else the store's count for the crew in the date's year; total is 31 |
| DayTypes.DayTypeSelector.OnDayTypeSelect | src/app/shared/components/day-type-selector/day-type-selector.ts:159-174 | without a date, or for annual leave that is not selectable, nothing is emitted and visibility stays. Otherwise (date, type) is emitted once and the dialog hides |
| DayTypes.DayTypeSelector.GetCurrentTypeLabel | src/app/shared/components/day-type-selector/day-type-selector.ts:180-185 | the label of the option of the current type, its base label with " (Original)" appended exactly when the day is modified and the current type is the original one, or "Unknown" without a current type |
| DayTypes.DayTypeSelector.WarningMatchesDisabledOption | src/app/shared/components/day-type-selector/day-type-selector.ts:141-198 | the limit warning shows exactly when the annual-leave option shows its disabled note, which is exactly when annual leave cannot be chosen |
| DayTypes.DayTypeSelector.NoDateNoLimit | src/app/shared/components/day-type-selector/day-type-selector.ts:128-157 | with no selected date the quota is not reached and annual leave is selectable |
| SettingsDialog.SettingsModal.constructor | src/app/shared/components/settings-modal/settings-modal.ts:400-405 | the drafts start at Sunday and labels off, with no changes and no events |
| SettingsDialog.SettingsModal.SyncFromService | src/app/shared/components/settings-modal/settings-modal.ts:423-432 | while the user has not edited, the drafts take the service values, leaving no changes; after an edit they are kept |
| SettingsDialog.SettingsModal.OnWeekStartDayChange | src/app/shared/components/settings-modal/settings-modal.ts:434-437 | the draft week start is set and the edit flag raised; hasChanges then compares both drafts with the service |
| SettingsDialog.SettingsModal.OnShowDayLabelsChange | src/app/shared/components/settings-modal/settings-modal.ts:439-442 | the draft labels flag is set and the edit flag raised |
| SettingsDialog.SettingsModal.SaveSettings | src/app/shared/components/settings-modal/settings-modal.ts:444-454 | the service gets the week start then the labels and holds both drafts afterwards, so there are no changes. The edit flag is cleared and a close is emitted. The stored settings are the final record when the second write lands, the record with only the new week start when just the first lands, and unchanged when neither does |
| SettingsDialog.SettingsModal.CloseWithoutSaving | src/app/shared/components/settings-modal/settings-modal.ts:456-466 | the drafts are reset to the service values, so there are no changes; the edit flag is cleared and a close is emitted |
| SettingsDialog.SettingsModal.OnVisibilityChange | src/app/shared/components/settings-modal/settings-modal.ts:468-473 | hiding acts as closing without saving; showing changes nothing |
| SettingsDialog.SettingsModal.CloseModal | src/app/shared/components/settings-modal/settings-modal.ts:475-477 | closing leaves no changes, clears the edit flag and emits a close |
| SettingsDialog.SettingsModal.RestoreAllDays | src/app/shared/components/settings-modal/settings-modal.ts:479-495 | nothing happens unless the confirmation is accepted; then every override is cleared and persisted as by ShiftService.RestoreAllDays, or nothing stored changes when the write fails, and a close is emitted. Declining changes nothing stored |

## Left out

- Storage.StorageService.Initialize: the authentication listener (storage.service.ts:65-94) is not modelled. Nor are its re-initialisation handshake, the waits on the first identity, the fire-and-forget initialisation in the getters, or the real-time document listener (410-426). Initialisation runs once, to completion, for a given identity. This is asynchronous event plumbing.
- Storage.StorageService.SaveShiftModification: a signed-in write that targets a missing document fails like any other write. Both cases are folded into one outcome parameter, `writeOk`, which `WriteLands` combines with "the document exists".
- JSON parsing and serialisation are not modelled: a local key is absent, unparseable or a parsed value. `Date.now()` is not modelled either; it is the `now` parameter.
- `clearAllData` (storage.service.ts:376-379) is a one-line wrapper around `clearAllShiftModifications` and is not modelled separately.
- `ShiftService.getAnnualLeaveUsage` and `getModificationTrigger` (shift.service.ts:71-78) are not modelled separately. They only pass through the store's count and the trigger field.
- Analytics counters (`trackModification`) are not modelled: they are remote increments that affect no modelled state.
- Authentication (popup sign-in, sign-out with `localStorage.clear()` and reload) and the Firestore wrappers are not modelled; they are foreign libraries. Identity is `Option<UserId>` and the remote store is a map of documents.
- Locale formatting (`toLocaleDateString`), time zones and daylight saving are not modelled. Dates are local calendar triples, and `Date.UTC` is taken as exact midnight milliseconds.
- JavaScript's two-digit-year rule in `new Date(y, m, d)` (years 0-99 map to 1900-1999) is not modelled. The app only builds dates from years it has read back from dates.
- Shifts.ShiftForDate: follows the corrected engine `CycleInfo` of the shift.service.ts:42 Finding. Before a crew's anchor the source's `getShiftForDate` yields `SHIFT_PATTERN[dayInCycle - 1]` with a negative index, so an undefined shift, unless the gap is a multiple of 9. On and after the anchor the two agree (`Shifts.AsWrittenAgreesFromAnchor`).
- Shifts.ShiftService.GetShiftDay: uses the corrected engine. Before the anchor the source's day has an undefined `shiftType` when no override exists; the model gives the pattern slot continued backwards.
- Shifts.ShiftService.UpdateShiftType: uses the corrected engine. Before the anchor the source compares the choice with `undefined`, so it always saves a record whose original type is undefined and never removes one. The model removes the override when the choice equals the continued pattern slot.
- Calendar.CalendarView.CalendarDays: leading cells before a crew's anchor (for instance 2024-12-29 for David in the January 2025 grid starting on Sunday) show the corrected engine's shift, where the source shows an undefined one. The same holds for `Calendar.CalendarView.OnDayClick` and `DayTypes.LeaveGateKeepsQuota`, whose saved record carries the corrected original type.
- Calendar.CalendarView.CalendarDays: the cells' `uniqueId` strings and the reactive re-run on the modification trigger are not modelled. Each run reads the current state.
- Calendar.CalendarView.OnDayTypeSelected: the selector is closed before the store update, not after it as in calendar-view.ts:214-222. The two touch disjoint state and nothing in between is observable, so the final state is the same.
- DayTypes.DayTypeSelector.DayTypeOptions: option severities and icons are not modelled. The two effects that copy the `visible` input into the dialog and re-emit it (day-type-selector.ts:51-62) are not modelled either; closing shows up as `dialogVisible` becoming false.
- A `Partial<UserSettings>` patch cannot set an optional field back to undefined. No caller in the app does so.
- `WEEK_DAYS_FULL`, the colour and legend tables, and the presentation components (calendar day, header, legend, crew info, crew selection, login) are not modelled. Neither is the app's wiring.

## Findings

| source | as written | input that shows it | evidently intended | confidence | as-written member | corrected member |
|---|---|---|---|---|---|---|
| src/app/core/services/shift.service.ts:42 | `daysSinceStart % CYCLE_LENGTH` truncates toward zero. For a date before the crew's anchor, dayInCycle is at most 1. Unless the gap is a multiple of 9, the pattern index is negative and the shift is undefined. | Trevor's crew on MIN_DATE 2025-01-01 (one day before the anchor 2025-01-02): dayInCycle 0, cycleNumber 0, shift undefined | the pattern continues backwards in step with the floor division on line 44: day 9 of cycle 0, an off day | not executed | Shifts.AsWrittenLosesTrevorNewYear | Shifts.CycleInfo |
