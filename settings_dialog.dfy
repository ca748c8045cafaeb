/** The settings dialog: draft values, the "user made changes" flag, and the save / close / restore transitions. */
module SettingsDialog {
  import opened Models
  import opened Storage
  import opened Shifts
  import opened Preferences

  /** SettingsModal: drafts of the two editable settings and the visibility events it has sent. */
  class SettingsModal {
    const preferences: UserSettingsService
    const shifts: ShiftService
    var tempWeekStartDay: WeekStartDay
    var tempShowDayLabels: bool
    var userMadeChanges: bool
    /** The visibilityChange events, oldest first. */
    var emitted: seq<bool>

    constructor (preferences: UserSettingsService, shifts: ShiftService)
      ensures this.preferences == preferences && this.shifts == shifts
      ensures tempWeekStartDay == 0 && !tempShowDayLabels && !userMadeChanges && emitted == []
    {
      this.preferences := preferences;
      this.shifts := shifts;
      tempWeekStartDay := 0;
      tempShowDayLabels := false;
      userMadeChanges := false;
      emitted := [];
    }

    /** hasChanges: a draft differs from the service's value. */
    predicate HasChanges()
      reads this, preferences
    {
      tempWeekStartDay != preferences.settings.weekStartDay
      || tempShowDayLabels != preferences.settings.showShiftLabels
    }

    /** The constructor's effect: the drafts follow the service until the user edits one. */
    method SyncFromService()
      modifies this`tempWeekStartDay, this`tempShowDayLabels
      ensures !userMadeChanges ==> !HasChanges()
      ensures userMadeChanges ==> tempWeekStartDay == old(tempWeekStartDay) && tempShowDayLabels == old(tempShowDayLabels)
    {
      if !userMadeChanges {
        tempWeekStartDay := preferences.settings.weekStartDay;
        tempShowDayLabels := preferences.settings.showShiftLabels;
      }
    }

    method OnWeekStartDayChange(value: WeekStartDay)
      modifies this`tempWeekStartDay, this`userMadeChanges
      ensures tempWeekStartDay == value && userMadeChanges
      ensures HasChanges() <==> value != preferences.settings.weekStartDay || tempShowDayLabels != preferences.settings.showShiftLabels
    {
      tempWeekStartDay := value;
      userMadeChanges := true;
    }

    method OnShowDayLabelsChange(value: bool)
      modifies this`tempShowDayLabels, this`userMadeChanges
      ensures tempShowDayLabels == value && userMadeChanges
      ensures HasChanges() <==> tempWeekStartDay != preferences.settings.weekStartDay || value != preferences.settings.showShiftLabels
    {
      tempShowDayLabels := value;
      userMadeChanges := true;
    }

    /** saveSettings: week start, then labels; the service holds the drafts afterwards, whatever the writes did. */
    method SaveSettings(weekStartWriteOk: bool, labelsWriteOk: bool)
      modifies this`userMadeChanges, this`emitted
      modifies preferences`settings, preferences.store`settingsCache, preferences.store`localSettings, preferences.store`remote
      ensures preferences.settings == old(preferences.settings).(weekStartDay := tempWeekStartDay, showShiftLabels := tempShowDayLabels)
      ensures !HasChanges() && !userMadeChanges
      ensures emitted == old(emitted) + [false]
      ensures if old(preferences.store.WriteLands(labelsWriteOk)) then preferences.store.SettingsWritten(preferences.settings)
        else if old(preferences.store.WriteLands(weekStartWriteOk))
        then preferences.store.SettingsWritten(old(preferences.settings).(weekStartDay := tempWeekStartDay))
        else preferences.store.SettingsUnchanged()
      ensures old(preferences.store.Synced()) ==> preferences.store.Synced()
    {
      preferences.UpdateWeekStartDay(tempWeekStartDay, weekStartWriteOk);
      preferences.UpdateShowShiftLabels(tempShowDayLabels, labelsWriteOk);
      userMadeChanges := false;
      emitted := emitted + [false];
    }

    /** closeWithoutSaving: drafts back to the service's values, and close. */
    method CloseWithoutSaving()
      modifies this`tempWeekStartDay, this`tempShowDayLabels, this`userMadeChanges, this`emitted
      ensures tempWeekStartDay == preferences.settings.weekStartDay && tempShowDayLabels == preferences.settings.showShiftLabels
      ensures !HasChanges() && !userMadeChanges
      ensures emitted == old(emitted) + [false]
    {
      tempWeekStartDay := preferences.settings.weekStartDay;
      tempShowDayLabels := preferences.settings.showShiftLabels;
      userMadeChanges := false;
      emitted := emitted + [false];
    }

    /** onVisibilityChange: hiding the dialog discards the drafts; showing it changes nothing. */
    method OnVisibilityChange(visible: bool)
      modifies this`tempWeekStartDay, this`tempShowDayLabels, this`userMadeChanges, this`emitted
      ensures !visible ==> !HasChanges() && !userMadeChanges && emitted == old(emitted) + [false]
      ensures visible ==>
        && tempWeekStartDay == old(tempWeekStartDay) && tempShowDayLabels == old(tempShowDayLabels)
        && userMadeChanges == old(userMadeChanges) && emitted == old(emitted)
    {
      if !visible {
        CloseWithoutSaving();
      }
    }

    /** closeModal. */
    method CloseModal()
      modifies this`tempWeekStartDay, this`tempShowDayLabels, this`userMadeChanges, this`emitted
      ensures !HasChanges() && !userMadeChanges && emitted == old(emitted) + [false]
    {
      CloseWithoutSaving();
    }

    /**
     * restoreAllDays: nothing happens unless the confirmation is accepted (`accepted`); then every
     * override is cleared and the dialog closes.
     */
    method RestoreAllDays(accepted: bool, writeOk: bool)
      modifies this`emitted
      modifies shifts.store`cache, shifts.store`localModifications, shifts.store`remote, shifts.store`notifications
      ensures !accepted ==> emitted == old(emitted) && shifts.store.ModificationsUnchanged()
      ensures accepted ==>
        && emitted == old(emitted) + [false]
        && (if old(shifts.store.WriteLands(writeOk)) then shifts.store.ModificationsWritten([], Absent)
            else shifts.store.ModificationsUnchanged())
      ensures old(shifts.store.Synced()) ==> shifts.store.Synced()
    {
      if accepted {
        shifts.RestoreAllDays(writeOk);
        emitted := emitted + [false];
      }
    }
  }
}
