/**
 * The shift-cycle engine: a date's whole-day offset from its crew's anchor, reduced
 * over the 9-day cycle to an index into the early/late/off pattern, then overlaid
 * with the user's override for that day.
 */
module Shifts {
  import opened Wrappers
  import opened Dates
  import opened DateFormat
  import opened Models
  import opened Constants
  import opened Storage

  /** 1000 * 60 * 60 * 24. */
  const MillisPerDay: int := 86400000

  /** Date.UTC(y, m, d) for a date: milliseconds from 1970-01-01 to its midnight. */
  function UtcMidnight(d: Date): int {
    EpochDay(d) * MillisPerDay
  }

  /** getDaysDifference: the millisecond gap of the two UTC midnights, floor-divided by a day. */
  function DaysDifference(start: Date, end: Date): (n: int)
    ensures n == EpochDay(end) - EpochDay(start)
  {
    var diff := UtcMidnight(end) - UtcMidnight(start);
    assert diff == (EpochDay(end) - EpochDay(start)) * MillisPerDay;
    diff / MillisPerDay
  }

  /** JavaScript's `a % 9`: the remainder takes the sign of `a`, unlike the floor division's. */
  function TruncatedRemainder(a: int): (r: int)
    ensures -9 < r < 9
    ensures a >= 0 ==> r == a % 9
    ensures a < 0 ==> r <= 0 && (r == 0 <==> a % 9 == 0)
    ensures (a - r) % 9 == 0
  {
    if a >= 0 then a % 9 else -((-a) % 9)
  }

  /** What the JavaScript object holds: `shiftType` is undefined when the index leaves the pattern. */
  datatype RawCycleInfo = RawCycleInfo(dayInCycle: int, cycleNumber: int, shiftType: Option<ShiftType>)

  /** `SHIFT_PATTERN[index]`, undefined outside 0..8. */
  function PatternAt(index: int): (r: Option<ShiftType>)
    ensures r.Some? <==> 0 <= index < CycleLength
  {
    if 0 <= index < |ShiftPattern| then Some(ShiftPattern[index]) else None
  }

  function AnchorOf(crew: Crew): Date {
    CrewSettings(crew).cycleStartDate
  }

  function DaysSinceAnchor(date: Date, crew: Crew): int {
    DaysDifference(AnchorOf(crew), date)
  }

  /** getShiftCycleInfo as written, with the truncating remainder. */
  function CycleInfoAsWritten(date: Date, crew: Crew): RawCycleInfo {
    var days := DaysSinceAnchor(date, crew);
    var dayInCycle := TruncatedRemainder(days) + 1;
    RawCycleInfo(dayInCycle, days / CycleLength + 1, PatternAt(dayInCycle - 1))
  }

  /** getShiftCycleInfo with the remainder taken as the floor division's, which the rest of the model uses. */
  function CycleInfo(date: Date, crew: Crew): (r: ShiftCycleInfo)
    ensures 1 <= r.dayInCycle <= CycleLength
    ensures r.shiftType == ShiftPattern[r.dayInCycle - 1]
    ensures (r.cycleNumber - 1) * CycleLength + (r.dayInCycle - 1) == DaysSinceAnchor(date, crew)
  {
    var days := DaysSinceAnchor(date, crew);
    var dayInCycle := days % CycleLength + 1;
    ShiftCycleInfo(dayInCycle, days / CycleLength + 1, ShiftPattern[dayInCycle - 1])
  }

  /** getShiftForDate. */
  function ShiftForDate(date: Date, crew: Crew): (t: ShiftType)
    ensures t != AnnualLeave
  {
    CycleInfo(date, crew).shiftType
  }

  // ---------------------------------------------------------------------------
  // Properties of the cycle computation

  /** Whole-day difference: zero on the same day, antisymmetric, additive, and n for a date n days later. */
  lemma DaysDifferenceLaws(a: Date, b: Date, c: Date, n: nat)
    ensures DaysDifference(a, a) == 0
    ensures DaysDifference(a, b) == -DaysDifference(b, a)
    ensures DaysDifference(a, b) + DaysDifference(b, c) == DaysDifference(a, c)
    ensures DaysDifference(a, AddDays(a, n)) == n
    ensures DaysDifference(a, b) > 0 <==> Before(a, b)
  {
    AddDaysIsEpochShift(a, n);
    EpochDayOrder(a, b);
  }

  /** On or after the anchor the code as written and the corrected computation agree. */
  lemma AsWrittenAgreesFromAnchor(date: Date, crew: Crew)
    requires !Before(date, AnchorOf(crew))
    ensures var r := CycleInfo(date, crew);
      CycleInfoAsWritten(date, crew) == RawCycleInfo(r.dayInCycle, r.cycleNumber, Some(r.shiftType))
  {
    EpochDayOrder(date, AnchorOf(crew));
  }

  /** Before the anchor the truncating remainder yields a day number of at most 1, and none in the pattern unless 1. */
  lemma AsWrittenBeforeAnchor(date: Date, crew: Crew)
    requires Before(date, AnchorOf(crew))
    ensures var r := CycleInfoAsWritten(date, crew);
      && r.dayInCycle <= 1
      && r.cycleNumber <= 0
      && (r.shiftType.None? <==> r.dayInCycle < 1)
      && (r.dayInCycle == 1 <==> DaysSinceAnchor(date, crew) % CycleLength == 0)
  {
    EpochDayOrder(date, AnchorOf(crew));
  }

  /**
   * The earliest date the picker offers is before Trevor's anchor: as written it has day 0 of
   * cycle 0 and no shift; corrected it is day 9 of cycle 0, an off day.
   */
  lemma AsWrittenLosesTrevorNewYear()
    ensures Before(MinDate, AnchorOf(Trevor)) && Before(MinDate, AnchorOf(Paddy))
    ensures CycleInfoAsWritten(MinDate, Trevor) == RawCycleInfo(0, 0, None)
    ensures CycleInfo(MinDate, Trevor) == ShiftCycleInfo(9, 0, Off)
  {
    assert DaysSinceAnchor(MinDate, Trevor) == -1;
  }

  /** On its own anchor every crew is on day 1 of cycle 1, an early shift. */
  lemma AnchorStartsCycle(crew: Crew)
    ensures CycleInfo(AnchorOf(crew), crew) == ShiftCycleInfo(1, 1, Early)
    ensures CycleInfoAsWritten(AnchorOf(crew), crew) == RawCycleInfo(1, 1, Some(Early))
  {
  }

  lemma ModNineShift(x: int)
    ensures (x + 9) % 9 == x % 9 && (x + 9) / 9 == x / 9 + 1
  {
  }

  /** Nine days later is the same cycle day of the next cycle, so the same shift. */
  lemma {:induction false} CycleRepeats(date: Date, crew: Crew)
    ensures var a := CycleInfo(date, crew);
      var b := CycleInfo(AddDays(date, 9), crew);
      b.dayInCycle == a.dayInCycle && b.cycleNumber == a.cycleNumber + 1
    ensures ShiftForDate(AddDays(date, 9), crew) == ShiftForDate(date, crew)
  {
    AddDaysIsEpochShift(date, 9);
    assert DaysSinceAnchor(AddDays(date, 9), crew) == DaysSinceAnchor(date, crew) + 9;
    ModNineShift(DaysSinceAnchor(date, crew));
  }

  /** The same holds for the code as written from the anchor on. */
  lemma CycleRepeatsAsWritten(date: Date, crew: Crew)
    requires !Before(date, AnchorOf(crew))
    ensures CycleInfoAsWritten(AddDays(date, 9), crew).shiftType == CycleInfoAsWritten(date, crew).shiftType
  {
    CycleRepeats(date, crew);
    AddDaysIsEpochShift(date, 9);
    EpochDayOrder(date, AnchorOf(crew));
    EpochDayOrder(AddDays(date, 9), AnchorOf(crew));
    AsWrittenAgreesFromAnchor(date, crew);
    AsWrittenAgreesFromAnchor(AddDays(date, 9), crew);
  }

  /** David's crew in the first week of 2025: the seventh of January closes cycle 1, the eighth opens cycle 2. */
  lemma FirstCycleOfDavid()
    ensures CycleInfo(CivilDate(2025, 1, 7), David) == ShiftCycleInfo(9, 1, Off)
    ensures CycleInfo(CivilDate(2025, 1, 8), David) == ShiftCycleInfo(1, 2, Early)
  {
    CrewAnchors();
    assert DaysSinceAnchor(CivilDate(2025, 1, 7), David) == 8;
    assert DaysSinceAnchor(CivilDate(2025, 1, 8), David) == 9;
  }

  lemma SlotsThreeApart(x: int)
    ensures var s := x % 9; var t := (x - 3) % 9; var u := (x - 6) % 9;
      {ShiftPattern[s], ShiftPattern[t], ShiftPattern[u]} == {Early, Late, Off}
  {
    var s := x % 9;
    assert (x - 3) % 9 == (s + 6) % 9 && (x - 6) % 9 == (s + 3) % 9;
    ShiftPatternShape();
    if s < 3 {
      assert (s + 6) % 9 == s + 6 && (s + 3) % 9 == s + 3;
    } else if s < 6 {
      assert (s + 6) % 9 == s - 3 && (s + 3) % 9 == s + 3;
    } else {
      assert (s + 6) % 9 == s - 3 && (s + 3) % 9 == s - 6;
    }
  }

  /** The three crews are a block apart, so on every day one works early, one late and one is off. */
  lemma CrewsCoverEveryShift(date: Date)
    ensures {ShiftForDate(date, David), ShiftForDate(date, Trevor), ShiftForDate(date, Paddy)} == {Early, Late, Off}
  {
    CrewAnchors();
    SlotsThreeApart(DaysSinceAnchor(date, David));
  }

  // ---------------------------------------------------------------------------
  // Holidays and the merged day

  /** isHoliday: the date's zero-padded string is in the holiday list. */
  function IsHoliday(date: Date): bool {
    IsoString(date) in BankHolidays
  }

  /** The string lookup is exactly date membership. */
  lemma IsHolidayIff(date: Date)
    ensures IsHoliday(date) <==> date in BankHolidayDates
  {
    BankHolidayStrings();
    if IsHoliday(date) {
      var i :| 0 <= i < 20 && BankHolidays[i] == IsoString(date);
      IsoStringInjective(date, BankHolidayDates[i]);
    }
  }

  lemma ChristmasIsHoliday()
    ensures IsHoliday(CivilDate(2025, 12, 25))
    ensures !IsHoliday(CivilDate(2025, 12, 24))
  {
    HolidayStringAt8();
    assert BankHolidays[8] == IsoString(CivilDate(2025, 12, 25));
    ChristmasEveNotListed();
    IsHolidayIff(CivilDate(2025, 12, 24));
  }

  lemma ChristmasEveNotListed()
    ensures CivilDate(2025, 12, 24) !in BankHolidayDates
  {
    assert forall i :: 0 <= i < 20 ==> BankHolidayDates[i].day != 24;
  }

  /**
   * ShiftService: the computed schedule overlaid with the store's overrides, and the
   * counter views re-read on when shifts may have changed.
   */
  class ShiftService {
    const store: StorageService
    var modificationTrigger: nat

    constructor (store: StorageService)
      ensures this.store == store && modificationTrigger == 0
    {
      this.store := store;
      modificationTrigger := 0;
    }

    /** Both subscriptions (identity change after initialisation, store change event) bump the trigger. */
    method OnDataChange()
      modifies this`modificationTrigger
      ensures modificationTrigger == old(modificationTrigger) + 1
    {
      modificationTrigger := modificationTrigger + 1;
    }

    /** getShiftDay: the override's type when one is stored, the computed one otherwise. */
    function GetShiftDay(date: Date, crew: Crew): (r: ShiftDay)
      reads store
      ensures r.date == date && r.isHoliday == (date in BankHolidayDates)
      ensures r.isModified <==> exists i :: 0 <= i < |store.cache| && IsFor(store.cache[i], IsoString(date), crew)
      ensures r.isModified ==> r.originalShiftType == Some(ShiftForDate(date, crew))
                               && r.shiftType == store.GetShiftModification(date, crew).value.modifiedType
      ensures !r.isModified ==> r.originalShiftType == None && r.shiftType == ShiftForDate(date, crew)
    {
      IsHolidayIff(date);
      var original := ShiftForDate(date, crew);
      var modification := store.GetShiftModification(date, crew);
      var isModified := modification.Some?;
      ShiftDay(date,
               if isModified then modification.value.modifiedType else original,
               IsHoliday(date),
               isModified,
               if isModified then Some(original) else None)
    }

    /**
     * updateShiftType: choosing the computed shift removes the override, any other choice saves one.
     * `now` stands for the timestamp the record gets and `writeOk` for the store write's outcome.
     */
    method UpdateShiftType(date: Date, shiftType: ShiftType, crew: Crew, now: int, writeOk: bool)
      modifies store`cache, store`localModifications, store`remote, store`notifications
      ensures store.cache == if old(store.WriteLands(writeOk)) then Updated(old(store.cache), date, shiftType, crew, now)
                             else old(store.cache)
      ensures old(store.WriteLands(writeOk)) ==>
        var day := GetShiftDay(date, crew);
        day.shiftType == shiftType && (day.isModified <==> shiftType != ShiftForDate(date, crew))
      ensures forall d: Date, c: Crew :: IsoString(d) != IsoString(date) || c != crew ==>
        store.GetShiftModification(d, c) == old(store.GetShiftModification(d, c))
      ensures var next := Updated(old(store.cache), date, shiftType, crew, now);
        if !old(store.WriteLands(writeOk)) || (shiftType == ShiftForDate(date, crew) && |next| == |old(store.cache)|)
        then store.ModificationsUnchanged() else store.ModificationsWritten(next, Stored(next))
      ensures old(store.Synced()) ==> store.Synced()
    {
      ghost var before := store.cache;
      ghost var landed := store.WriteLands(writeOk);
      var original := ShiftForDate(date, crew);
      if shiftType == original {
        store.RemoveShiftModification(date, crew, writeOk);
        if |Without(before, IsoString(date), crew)| == |before| {
          WithoutKeepsAllIffNoMatch(before, IsoString(date), crew);
          WithoutNoMatch(before, IsoString(date), crew);
        }
      } else {
        store.SaveShiftModification(date, original, shiftType, crew, now, writeOk);
      }
      assert store.cache == if landed then Updated(before, date, shiftType, crew, now) else before;
      UpdatedLookup(before, date, shiftType, crew, now);
      UpdateLeavesOthers(before, store.cache, date, shiftType, crew, now);
    }

    /** restoreAllDays: clear every override; after a landed write no day shows as modified. */
    method RestoreAllDays(writeOk: bool)
      modifies store`cache, store`localModifications, store`remote, store`notifications
      ensures store.cache == (if old(store.WriteLands(writeOk)) then [] else old(store.cache))
      ensures old(store.WriteLands(writeOk)) ==>
        forall d: Date, c: Crew :: !GetShiftDay(d, c).isModified && GetShiftDay(d, c).shiftType == ShiftForDate(d, c)
      ensures if old(store.WriteLands(writeOk)) then store.ModificationsWritten([], Absent) else store.ModificationsUnchanged()
      ensures old(store.Synced()) ==> store.Synced()
    {
      store.ClearAllShiftModifications(writeOk);
    }
  }

  /** The record list after updateShiftType's write lands. */
  function Updated(mods: seq<ShiftModification>, date: Date, shiftType: ShiftType, crew: Crew, now: int): seq<ShiftModification> {
    var base := ShiftForDate(date, crew);
    if shiftType == base then Without(mods, IsoString(date), crew)
    else Saved(mods, ShiftModification(IsoString(date), base, shiftType, crew, now))
  }

  /** After an update the pair has an override exactly when the chosen type differs from the computed one. */
  lemma UpdatedLookup(mods: seq<ShiftModification>, date: Date, shiftType: ShiftType, crew: Crew, now: int)
    ensures var base := ShiftForDate(date, crew);
      FindModification(Updated(mods, date, shiftType, crew, now), IsoString(date), crew)
        == if shiftType == base then None else Some(ShiftModification(IsoString(date), base, shiftType, crew, now))
  {
    FindAfterSaveAndRemove(mods, ShiftModification(IsoString(date), ShiftForDate(date, crew), shiftType, crew, now));
  }

  /** The lookups of every other (date, crew) pair survive an update of one pair. */
  lemma UpdateLeavesOthers(before: seq<ShiftModification>, after: seq<ShiftModification>, date: Date,
                           shiftType: ShiftType, crew: Crew, now: int)
    requires after == before || after == Updated(before, date, shiftType, crew, now)
    ensures forall d: Date, c: Crew :: IsoString(d) != IsoString(date) || c != crew ==>
      FindModification(after, IsoString(d), c) == FindModification(before, IsoString(d), c)
  {
    forall d: Date, c: Crew | IsoString(d) != IsoString(date) || c != crew
      ensures FindModification(after, IsoString(d), c) == FindModification(before, IsoString(d), c)
    {
      FindIgnoresOtherKeys(before, IsoString(date), crew, IsoString(d), c);
      SaveIgnoresOtherKeys(before, ShiftModification(IsoString(date), ShiftForDate(date, crew), shiftType, crew, now),
                           IsoString(d), c);
    }
  }
}
