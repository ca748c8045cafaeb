/** The day-type selector: the four choices, the mark on the computed type, and the annual-leave quota gate. */
module DayTypes {
  import opened Wrappers
  import opened Dates
  import opened DateFormat
  import opened Models
  import opened Constants
  import opened Storage
  import opened Shifts

  /** One choice in the dialog; `caption` is its label (its colour and icon are not modelled). */
  datatype DayTypeOption = DayTypeOption(shiftType: ShiftType, caption: string, description: string, isOriginal: bool)

  const BaseOptions: seq<DayTypeOption> := [
    DayTypeOption(Off, "Day Off", "Rest day", false),
    DayTypeOption(Early, "Early Shift", "6:00 AM - 2:00 PM", false),
    DayTypeOption(Late, "Late Shift", "2:00 PM - 10:00 PM", false),
    DayTypeOption(AnnualLeave, "Annual Leave", "Vacation day", false)
  ]

  /** Where a type's option sits in the list. */
  function OptionIndex(t: ShiftType): (i: nat)
    ensures i < |BaseOptions| && BaseOptions[i].shiftType == t
    ensures forall j :: 0 <= j < |BaseOptions| && BaseOptions[j].shiftType == t ==> j == i
  {
    match t
    case Off => 0
    case Early => 1
    case Late => 2
    case AnnualLeave => 3
  }

  /** The used and allowed annual-leave days shown in the dialog. */
  datatype LeaveInfo = LeaveInfo(used: nat, total: nat)

  /** The option with " (Original)" appended to its label and the original flag set. */
  function MarkedAsOriginal(option: DayTypeOption): DayTypeOption {
    option.(caption := option.caption + " (Original)", isOriginal := true)
  }

  /** The options as dayTypeOptions returns them: the original type's entry marked when the day was changed. */
  function Options(originalType: Option<ShiftType>, isModified: bool): (r: seq<DayTypeOption>)
    ensures |r| == 4
    ensures forall i :: 0 <= i < 4 ==> r[i].shiftType == BaseOptions[i].shiftType
    ensures r[0].shiftType == Off && r[1].shiftType == Early && r[2].shiftType == Late && r[3].shiftType == AnnualLeave
    ensures forall i :: 0 <= i < 4 ==> (r[i].isOriginal <==> isModified && originalType == Some(r[i].shiftType))
    ensures forall i :: 0 <= i < 4 ==> r[i].description == BaseOptions[i].description
    ensures forall i :: 0 <= i < 4 ==>
      r[i].caption == if r[i].isOriginal then BaseOptions[i].caption + " (Original)" else BaseOptions[i].caption
  {
    seq(4, i requires 0 <= i < 4 =>
      if isModified && originalType == Some(BaseOptions[i].shiftType) then MarkedAsOriginal(BaseOptions[i])
      else BaseOptions[i])
  }

  /** The four entries name four different types in the order off, early, late, annual leave. */
  lemma OptionOrder(originalType: Option<ShiftType>, isModified: bool)
    ensures var r := Options(originalType, isModified);
      r[0].shiftType == Off && r[1].shiftType == Early && r[2].shiftType == Late && r[3].shiftType == AnnualLeave
    ensures |set i | 0 <= i < 4 && Options(originalType, isModified)[i].isOriginal| ==
      if isModified && originalType.Some? then 1 else 0
  {
    var r := Options(originalType, isModified);
    if isModified && originalType.Some? {
      var j := OptionIndex(originalType.value);
      assert (set i | 0 <= i < 4 && r[i].isOriginal) == {j};
    } else {
      assert (set i | 0 <= i < 4 && r[i].isOriginal) == {};
    }
  }

  /** With the chosen type an annual-leave day, a reselection keeps the count within the limit as well. */
  lemma {:induction false} LeaveGateKeepsQuota(mods: seq<ShiftModification>, date: Date, crew: Crew, now: int)
    requires AnnualLeaveCount(mods, crew, date.year) <= AnnualLeaveLimit
    requires AnnualLeaveCount(mods, crew, date.year) < AnnualLeaveLimit
          || (var found := FindModification(mods, IsoString(date), crew); found.Some? && found.value.modifiedType == AnnualLeave)
    ensures AnnualLeaveCount(Updated(mods, date, AnnualLeave, crew, now), crew, date.year) <= AnnualLeaveLimit
  {
    var record := ShiftModification(IsoString(date), ShiftForDate(date, crew), AnnualLeave, crew, now);
    var rest := Without(mods, IsoString(date), crew);
    LeaveCountConcat(rest, [record], crew, date.year);
    LeaveCountWithout(mods, IsoString(date), crew, crew, date.year);
    assert [record][1..] == [];
    if AnnualLeaveCount(mods, crew, date.year) >= AnnualLeaveLimit {
      var m := FindModification(mods, IsoString(date), crew).value;
      IsoStringStartsWithYear(date);
      assert CountsAsLeave(m, crew, date.year);
      LeaveCountDrops(mods, m, crew, date.year);
    }
  }

  /** DayTypeSelector: the dialog's inputs, its visibility, and the choices it has emitted. */
  class DayTypeSelector {
    const shifts: ShiftService
    var selectedDate: Option<Date>
    var currentShiftType: Option<ShiftType>
    var originalShiftType: Option<ShiftType>
    var isModified: bool
    var currentCrew: Crew
    var dialogVisible: bool
    /** The (date, type) events sent to the calendar, oldest first. */
    var emitted: seq<(Date, ShiftType)>

    constructor (shifts: ShiftService, currentCrew: Crew)
      ensures this.shifts == shifts && this.currentCrew == currentCrew
      ensures selectedDate == None && currentShiftType == None && originalShiftType == None && !isModified
      ensures !dialogVisible && emitted == []
    {
      this.shifts := shifts;
      this.currentCrew := currentCrew;
      selectedDate := None;
      currentShiftType := None;
      originalShiftType := None;
      isModified := false;
      dialogVisible := false;
      emitted := [];
    }

    /** dayTypeOptions: the four base options, then the original type's entry replaced in place. */
    method DayTypeOptions() returns (options: seq<DayTypeOption>)
      ensures options == Options(originalShiftType, isModified)
    {
      var baseOptions := new DayTypeOption[4](i requires 0 <= i < 4 => BaseOptions[i]);
      if isModified && originalShiftType.Some? {
        var index := -1;
        var j := 0;
        while j < baseOptions.Length && index == -1
          invariant 0 <= j <= 4
          invariant index == -1 ==> j <= OptionIndex(originalShiftType.value)
          invariant index != -1 ==> index == OptionIndex(originalShiftType.value)
          invariant baseOptions[..] == BaseOptions
        {
          if baseOptions[j].shiftType == originalShiftType.value {
            index := j;
          }
          j := j + 1;
        }
        if index != -1 {
          baseOptions[index] := MarkedAsOriginal(baseOptions[index]);
        } else {
          // OptionIndex: every type has an entry, so findIndex never gives -1 here
          assert false;
        }
      }
      options := baseOptions[..];
    }

    /** annualLeaveInfo: the crew's annual-leave records in the selected date's year; none without a date. */
    function AnnualLeaveInfo(): (info: LeaveInfo)
      reads this, shifts.store
      ensures info.total == AnnualLeaveLimit
      ensures selectedDate.None? ==> info.used == 0
      ensures selectedDate.Some? ==> info.used == shifts.store.GetAnnualLeaveUsage(currentCrew, selectedDate.value.year)
    {
      if selectedDate.None? then LeaveInfo(0, AnnualLeaveLimit)
      else LeaveInfo(shifts.store.GetAnnualLeaveUsage(currentCrew, selectedDate.value.year), AnnualLeaveLimit)
    }

    predicate IsAnnualLeaveAtLimit()
      reads this, shifts.store
    {
      AnnualLeaveInfo().used >= AnnualLeaveInfo().total
    }

    /** Annual leave can be chosen below the limit, and always when the day already is annual leave. */
    predicate CanSelectAnnualLeave()
      reads this, shifts.store
    {
      currentShiftType == Some(AnnualLeave) || AnnualLeaveInfo().used < AnnualLeaveInfo().total
    }

    predicate IsCurrentType(shiftType: ShiftType)
      reads this
    {
      currentShiftType == Some(shiftType)
    }

    /** onDayTypeSelect: emit the choice and close, unless there is no date or annual leave is barred. */
    method OnDayTypeSelect(shiftType: ShiftType)
      modifies this`emitted, this`dialogVisible
      ensures var accepted := selectedDate.Some? && (shiftType != AnnualLeave || CanSelectAnnualLeave());
        && (accepted ==> emitted == old(emitted) + [(selectedDate.value, shiftType)] && !dialogVisible)
        && (!accepted ==> emitted == old(emitted) && dialogVisible == old(dialogVisible))
    {
      if selectedDate.None? {
        return;
      }
      if shiftType == AnnualLeave && !CanSelectAnnualLeave() {
        return;
      }
      emitted := emitted + [(selectedDate.value, shiftType)];
      dialogVisible := false;
    }

    /** getCurrentTypeLabel: the label of the current type's option, "Unknown" without a current type. */
    function GetCurrentTypeLabel(): (r: string)
      reads this
      ensures currentShiftType.None? ==> r == "Unknown"
      ensures currentShiftType.Some? ==>
        exists i :: 0 <= i < 4 && Options(originalShiftType, isModified)[i].shiftType == currentShiftType.value
                    && r == Options(originalShiftType, isModified)[i].caption
    ensures currentShiftType.Some? ==>
      r == BaseOptions[OptionIndex(currentShiftType.value)].caption
           + (if isModified && originalShiftType == currentShiftType then " (Original)" else "")
    {
      var options := Options(originalShiftType, isModified);
      if currentShiftType.None? then "Unknown"
      else
        options[OptionIndex(currentShiftType.value)].caption
    }

    predicate ShouldShowAnnualLeaveWarning()
      reads this, shifts.store
    {
      IsAnnualLeaveAtLimit() && currentShiftType != Some(AnnualLeave)
    }

    predicate ShouldShowDisabledMessage(option: DayTypeOption)
      reads this, shifts.store
    {
      option.shiftType == AnnualLeave && !CanSelectAnnualLeave() && !IsCurrentType(option.shiftType)
    }

    /** The warning banner and the disabled note on the annual-leave option appear together. */
    lemma WarningMatchesDisabledOption(option: DayTypeOption)
      requires option.shiftType == AnnualLeave
      ensures ShouldShowAnnualLeaveWarning() <==> ShouldShowDisabledMessage(option)
      ensures ShouldShowAnnualLeaveWarning() <==> !CanSelectAnnualLeave()
    {
    }

    /** Without a selected date nothing is counted, so annual leave is never barred. */
    lemma NoDateNoLimit()
      requires selectedDate.None?
      ensures !IsAnnualLeaveAtLimit() && CanSelectAnnualLeave()
    {
    }
  }
}
