/** Application-wide constants: the shift pattern, the crews' anchors, bank holidays, calendar and storage settings. */
module Constants {
  import opened Dates
  import opened DateFormat
  import opened Models

  const DaysInWeek: nat := 7
  const WeeksInCalendar: nat := 6
  const TotalCalendarDays: nat := 42
  const WeekDays: seq<string> := ["Sun", "Mon", "Tue", "Wed", "Thu", "Fri", "Sat"]
  /** The earliest date the date picker offers: `new Date(2025, 0, 1)`. */
  const MinDate: Date := CivilDate(2025, 1, 1)

  const CycleLength: nat := 9
  const ShiftPattern: seq<ShiftType> := [Early, Early, Early, Late, Late, Late, Off, Off, Off]
  const AnnualLeaveLimit: nat := 31

  function CrewSettings(c: Crew): CrewConfig {
    match c
    case David => CrewConfig(David, "David's Crew", CivilDate(2024, 12, 30), 9)
    case Trevor => CrewConfig(Trevor, "Trevor's Crew", CivilDate(2025, 1, 2), 9)
    case Paddy => CrewConfig(Paddy, "Paddy's Crew", CivilDate(2025, 1, 5), 9)
  }

  const BankHolidays: seq<string> := [
    "2025-01-01", "2025-02-03", "2025-03-17", "2025-04-21", "2025-05-05",
    "2025-06-02", "2025-08-04", "2025-10-27", "2025-12-25", "2025-12-26",
    "2026-01-01", "2026-02-02", "2026-03-17", "2026-04-06", "2026-05-04",
    "2026-06-01", "2026-08-03", "2026-10-26", "2026-12-25", "2026-12-26"
  ]

  const ModificationsKey: string := "crew_shift_modifications"
  const SettingsKey: string := "crew_shift_settings"
  const ThemeKey: string := "crew_shift_theme"
  const LanguageKey: string := "crew_shift_language"

  /** The bank holidays as dates. */
  const BankHolidayDates: seq<Date> := [
    CivilDate(2025, 1, 1), CivilDate(2025, 2, 3), CivilDate(2025, 3, 17), CivilDate(2025, 4, 21),
    CivilDate(2025, 5, 5), CivilDate(2025, 6, 2), CivilDate(2025, 8, 4), CivilDate(2025, 10, 27),
    CivilDate(2025, 12, 25), CivilDate(2025, 12, 26), CivilDate(2026, 1, 1), CivilDate(2026, 2, 2),
    CivilDate(2026, 3, 17), CivilDate(2026, 4, 6), CivilDate(2026, 5, 4), CivilDate(2026, 6, 1),
    CivilDate(2026, 8, 3), CivilDate(2026, 10, 26), CivilDate(2026, 12, 25), CivilDate(2026, 12, 26)
  ]

  /** The string of a date with a four-digit year, spelled out as the list writes it. */
  lemma HolidayString(i: nat, d: Date, text: string)
    requires i < 20 && BankHolidayDates[i] == d && BankHolidays[i] == text
    requires 1000 <= d.year < 10000
    requires text == [
      DigitChar(d.year / 1000), DigitChar(d.year / 100 % 10), DigitChar(d.year / 10 % 10), DigitChar(d.year % 10),
      '-', DigitChar(d.month / 10), DigitChar(d.month % 10),
      '-', DigitChar(d.day / 10), DigitChar(d.day % 10)]
    ensures BankHolidays[i] == IsoString(BankHolidayDates[i])
  {
    IsoStringDigits(d);
  }

  // One lemma per list position: a single lemma covering all twenty is too costly for the solver.
  lemma HolidayStringAt0()
    ensures BankHolidays[0] == IsoString(BankHolidayDates[0])
  {
    HolidayString(0, CivilDate(2025, 1, 1), "2025-01-01");
  }

  lemma HolidayStringAt1()
    ensures BankHolidays[1] == IsoString(BankHolidayDates[1])
  {
    HolidayString(1, CivilDate(2025, 2, 3), "2025-02-03");
  }

  lemma HolidayStringAt2()
    ensures BankHolidays[2] == IsoString(BankHolidayDates[2])
  {
    HolidayString(2, CivilDate(2025, 3, 17), "2025-03-17");
  }

  lemma HolidayStringAt3()
    ensures BankHolidays[3] == IsoString(BankHolidayDates[3])
  {
    HolidayString(3, CivilDate(2025, 4, 21), "2025-04-21");
  }

  lemma HolidayStringAt4()
    ensures BankHolidays[4] == IsoString(BankHolidayDates[4])
  {
    HolidayString(4, CivilDate(2025, 5, 5), "2025-05-05");
  }

  lemma HolidayStringAt5()
    ensures BankHolidays[5] == IsoString(BankHolidayDates[5])
  {
    HolidayString(5, CivilDate(2025, 6, 2), "2025-06-02");
  }

  lemma HolidayStringAt6()
    ensures BankHolidays[6] == IsoString(BankHolidayDates[6])
  {
    HolidayString(6, CivilDate(2025, 8, 4), "2025-08-04");
  }

  lemma HolidayStringAt7()
    ensures BankHolidays[7] == IsoString(BankHolidayDates[7])
  {
    HolidayString(7, CivilDate(2025, 10, 27), "2025-10-27");
  }

  lemma HolidayStringAt8()
    ensures BankHolidays[8] == IsoString(BankHolidayDates[8])
  {
    HolidayString(8, CivilDate(2025, 12, 25), "2025-12-25");
  }

  lemma HolidayStringAt9()
    ensures BankHolidays[9] == IsoString(BankHolidayDates[9])
  {
    HolidayString(9, CivilDate(2025, 12, 26), "2025-12-26");
  }

  lemma HolidayStringAt10()
    ensures BankHolidays[10] == IsoString(BankHolidayDates[10])
  {
    HolidayString(10, CivilDate(2026, 1, 1), "2026-01-01");
  }

  lemma HolidayStringAt11()
    ensures BankHolidays[11] == IsoString(BankHolidayDates[11])
  {
    HolidayString(11, CivilDate(2026, 2, 2), "2026-02-02");
  }

  lemma HolidayStringAt12()
    ensures BankHolidays[12] == IsoString(BankHolidayDates[12])
  {
    HolidayString(12, CivilDate(2026, 3, 17), "2026-03-17");
  }

  lemma HolidayStringAt13()
    ensures BankHolidays[13] == IsoString(BankHolidayDates[13])
  {
    HolidayString(13, CivilDate(2026, 4, 6), "2026-04-06");
  }

  lemma HolidayStringAt14()
    ensures BankHolidays[14] == IsoString(BankHolidayDates[14])
  {
    HolidayString(14, CivilDate(2026, 5, 4), "2026-05-04");
  }

  lemma HolidayStringAt15()
    ensures BankHolidays[15] == IsoString(BankHolidayDates[15])
  {
    HolidayString(15, CivilDate(2026, 6, 1), "2026-06-01");
  }

  lemma HolidayStringAt16()
    ensures BankHolidays[16] == IsoString(BankHolidayDates[16])
  {
    HolidayString(16, CivilDate(2026, 8, 3), "2026-08-03");
  }

  lemma HolidayStringAt17()
    ensures BankHolidays[17] == IsoString(BankHolidayDates[17])
  {
    HolidayString(17, CivilDate(2026, 10, 26), "2026-10-26");
  }

  lemma HolidayStringAt18()
    ensures BankHolidays[18] == IsoString(BankHolidayDates[18])
  {
    HolidayString(18, CivilDate(2026, 12, 25), "2026-12-25");
  }

  lemma HolidayStringAt19()
    ensures BankHolidays[19] == IsoString(BankHolidayDates[19])
  {
    HolidayString(19, CivilDate(2026, 12, 26), "2026-12-26");
  }

  /** Each listed holiday string is the zero-padded string of the corresponding date. */
  lemma BankHolidayStrings()
    ensures |BankHolidays| == |BankHolidayDates| == 20
    ensures forall i :: 0 <= i < 20 ==> BankHolidays[i] == IsoString(BankHolidayDates[i])
  {
    forall i | 0 <= i < 20
      ensures BankHolidays[i] == IsoString(BankHolidayDates[i])
    {
      if i == 0 {
        HolidayStringAt0();
      } else if i == 1 {
        HolidayStringAt1();
      } else if i == 2 {
        HolidayStringAt2();
      } else if i == 3 {
        HolidayStringAt3();
      } else if i == 4 {
        HolidayStringAt4();
      } else if i == 5 {
        HolidayStringAt5();
      } else if i == 6 {
        HolidayStringAt6();
      } else if i == 7 {
        HolidayStringAt7();
      } else if i == 8 {
        HolidayStringAt8();
      } else if i == 9 {
        HolidayStringAt9();
      } else if i == 10 {
        HolidayStringAt10();
      } else if i == 11 {
        HolidayStringAt11();
      } else if i == 12 {
        HolidayStringAt12();
      } else if i == 13 {
        HolidayStringAt13();
      } else if i == 14 {
        HolidayStringAt14();
      } else if i == 15 {
        HolidayStringAt15();
      } else if i == 16 {
        HolidayStringAt16();
      } else if i == 17 {
        HolidayStringAt17();
      } else if i == 18 {
        HolidayStringAt18();
      } else {
        HolidayStringAt19();
      }
    }
  }

  /** Positions 1-3 of the cycle are early, 4-6 late and 7-9 off. */
  lemma ShiftPatternShape()
    ensures |ShiftPattern| == CycleLength == 9
    ensures forall k :: 0 <= k < 9 ==> ShiftPattern[k] == (if k < 3 then Early else if k < 6 then Late else Off)
  {
  }

  /** Every crew's own cycle length equals the engine's; the anchors are three days apart, David's a Monday. */
  lemma CrewAnchors()
    ensures forall c: Crew :: CrewSettings(c).cycleLength == CycleLength && CrewSettings(c).name == c
    ensures EpochDay(CrewSettings(David).cycleStartDate) == 20087
    ensures EpochDay(CrewSettings(Trevor).cycleStartDate) == EpochDay(CrewSettings(David).cycleStartDate) + 3
    ensures EpochDay(CrewSettings(Paddy).cycleStartDate) == EpochDay(CrewSettings(David).cycleStartDate) + 6
    ensures Weekday(CrewSettings(David).cycleStartDate) == 1
  {
    assert DaysBeforeYear(2024) == 738885;
    assert DaysBeforeYear(2025) == 739251 by { YearStep(2024); }
  }

  lemma CalendarSize()
    ensures TotalCalendarDays == DaysInWeek * WeeksInCalendar == 42
    ensures |WeekDays| == DaysInWeek
  {
  }

  /** The leave limit, and the two data keys never collide. */
  lemma StorageKeys()
    ensures AnnualLeaveLimit == 31
    ensures ModificationsKey != SettingsKey
  {
    assert ModificationsKey[11] == 'm' && SettingsKey[11] == 's';
  }

  lemma {:induction false} HolidaysAscendingFrom(i: nat, j: nat)
    requires i < j < 20
    requires forall k :: 0 <= k < 19 ==> Before(BankHolidayDates[k], BankHolidayDates[k + 1])
    ensures Before(BankHolidayDates[i], BankHolidayDates[j])
    decreases j - i
  {
    if i + 1 < j {
      HolidaysAscendingFrom(i + 1, j);
      BeforeTransitive(BankHolidayDates[i], BankHolidayDates[i + 1], BankHolidayDates[j]);
    }
  }

  /** Each holiday comes before the next one in the list. */
  lemma HolidayStepsAscend()
    ensures forall k :: 0 <= k < 19 ==> Before(BankHolidayDates[k], BankHolidayDates[k + 1])
  {
    forall k | 0 <= k < 19
      ensures Before(BankHolidayDates[k], BankHolidayDates[k + 1])
    {
      if k < 9 {
        assert BankHolidayDates[k].year == BankHolidayDates[k + 1].year == 2025;
      } else if k == 9 {
        assert BankHolidayDates[k].year == 2025 && BankHolidayDates[k + 1].year == 2026;
      } else {
        assert BankHolidayDates[k].year == BankHolidayDates[k + 1].year == 2026;
      }
    }
  }

  /** Every holiday falls in 2025 or 2026. */
  lemma HolidayYears()
    ensures forall i :: 0 <= i < 20 ==> 2025 <= BankHolidayDates[i].year <= 2026
  {
  }

  /** The holidays are listed in strictly ascending order, all in 2025 and 2026, so no string repeats. */
  lemma BankHolidaysOrdered()
    ensures forall i, j :: 0 <= i < j < 20 ==> Before(BankHolidayDates[i], BankHolidayDates[j])
    ensures forall i :: 0 <= i < 20 ==> 2025 <= BankHolidayDates[i].year <= 2026
    ensures forall i, j :: 0 <= i < j < 20 ==> BankHolidays[i] != BankHolidays[j]
  {
    HolidayStepsAscend();
    HolidayYears();
    BankHolidayStrings();
    forall i, j | 0 <= i < j < 20
      ensures Before(BankHolidayDates[i], BankHolidayDates[j])
      ensures BankHolidays[i] != BankHolidays[j]
    {
      HolidaysAscendingFrom(i, j);
      IsoStringInjective(BankHolidayDates[i], BankHolidayDates[j]);
    }
  }

  /** No two header abbreviations are equal: their first two letters differ. */
  lemma WeekDaysDistinct()
    ensures forall i, j :: 0 <= i < j < 7 ==> WeekDays[i] != WeekDays[j]
  {
    var firsts := "SMTWTFS";
    var seconds := "uouehra";
    assert forall k :: 0 <= k < 7 ==> |WeekDays[k]| == 3 && WeekDays[k][0] == firsts[k] && WeekDays[k][1] == seconds[k];
    forall i, j | 0 <= i < j < 7
      ensures WeekDays[i] != WeekDays[j]
    {
      assert firsts[i] != firsts[j] || seconds[i] != seconds[j];
    }
  }
}
