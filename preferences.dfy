/** The settings service: the held settings record, partial updates of it, and the weekday header order. */
module Preferences {
  import opened Wrappers
  import opened Models
  import opened Constants
  import opened Storage

  /** A `Partial<UserSettings>`: the fields an update overwrites. */
  datatype SettingsPatch = SettingsPatch(
    weekStartDay: Option<WeekStartDay>,
    showShiftLabels: Option<bool>,
    theme: Option<Theme>,
    selectedCrew: Option<Crew>,
    hasCompletedInitialSetup: Option<bool>)

  const EmptyPatch: SettingsPatch := SettingsPatch(None, None, None, None, None)

  /** `{ ...current, ...patch }`. */
  function Merge(current: UserSettings, patch: SettingsPatch): (r: UserSettings)
    ensures patch.weekStartDay.Some? ==> r.weekStartDay == patch.weekStartDay.value
    ensures patch.weekStartDay.None? ==> r.weekStartDay == current.weekStartDay
    ensures patch.showShiftLabels.Some? ==> r.showShiftLabels == patch.showShiftLabels.value
    ensures patch.showShiftLabels.None? ==> r.showShiftLabels == current.showShiftLabels
    ensures r.theme == if patch.theme.Some? then patch.theme else current.theme
    ensures r.selectedCrew == if patch.selectedCrew.Some? then patch.selectedCrew else current.selectedCrew
    ensures r.hasCompletedInitialSetup ==
      if patch.hasCompletedInitialSetup.Some? then patch.hasCompletedInitialSetup else current.hasCompletedInitialSetup
  {
    UserSettings(
      patch.weekStartDay.GetOr(current.weekStartDay),
      patch.showShiftLabels.GetOr(current.showShiftLabels),
      if patch.theme.Some? then patch.theme else current.theme,
      if patch.selectedCrew.Some? then patch.selectedCrew else current.selectedCrew,
      if patch.hasCompletedInitialSetup.Some? then patch.hasCompletedInitialSetup else current.hasCompletedInitialSetup)
  }

  /** An empty patch changes nothing, and applying the same patch twice is applying it once. */
  lemma MergeLaws(current: UserSettings, patch: SettingsPatch)
    ensures Merge(current, EmptyPatch) == current
    ensures Merge(Merge(current, patch), patch) == Merge(current, patch)
  {
  }

  /** The later of two patches wins on every field both set. */
  lemma MergeSequence(current: UserSettings, p: SettingsPatch, q: SettingsPatch)
    ensures Merge(Merge(current, p), q) == Merge(current, SettingsPatch(
      if q.weekStartDay.Some? then q.weekStartDay else p.weekStartDay,
      if q.showShiftLabels.Some? then q.showShiftLabels else p.showShiftLabels,
      if q.theme.Some? then q.theme else p.theme,
      if q.selectedCrew.Some? then q.selectedCrew else p.selectedCrew,
      if q.hasCompletedInitialSetup.Some? then q.hasCompletedInitialSetup else p.hasCompletedInitialSetup))
  {
  }

  /** The header names rotated left so that `start` comes first. */
  function RotatedWeekDays(start: WeekStartDay): (r: seq<string>)
    ensures |r| == |WeekDays| == 7
    ensures r[0] == WeekDays[start]
    ensures forall i :: 0 <= i < 7 ==> r[i] == WeekDays[(i + start) % 7]
    ensures multiset(r) == multiset(WeekDays)
  {
    RotationFacts(start);
    WeekDays[start..] + WeekDays[..start]
  }

  /** Position i of the rotated header is the day `start` places later; no name is gained or lost. */
  lemma RotationFacts(start: WeekStartDay)
    ensures forall i :: 0 <= i < 7 ==> (WeekDays[start..] + WeekDays[..start])[i] == WeekDays[(i + start) % 7]
    ensures multiset(WeekDays[start..] + WeekDays[..start]) == multiset(WeekDays)
  {
    var r := WeekDays[start..] + WeekDays[..start];
    assert |r| == 7;
    forall i | 0 <= i < 7
      ensures r[i] == WeekDays[(i + start) % 7]
    {
      if i < 7 - start {
        assert (i + start) % 7 == i + start;
        assert r[i] == WeekDays[start..][i];
      } else {
        assert (i + start) % 7 == i + start - 7;
        assert r[i] == WeekDays[..start][i - (7 - start)];
      }
    }
    assert WeekDays == WeekDays[..start] + WeekDays[start..];
  }

  /** A rotation of a repetition-free sequence is repetition-free. */
  lemma RotationKeepsDistinct<T>(s: seq<T>, k: nat)
    requires k <= |s|
    requires forall i, j :: 0 <= i < j < |s| ==> s[i] != s[j]
    ensures forall i, j :: 0 <= i < j < |s| ==> (s[k..] + s[..k])[i] != (s[k..] + s[..k])[j]
  {
    var r := s[k..] + s[..k];
    forall i, j | 0 <= i < j < |s|
      ensures r[i] != r[j]
    {
      var a := if i < |s| - k then i + k else i + k - |s|;
      var b := if j < |s| - k then j + k else j + k - |s|;
      assert r[i] == s[a] && r[j] == s[b];
      assert a != b;
    }
  }

  /** Every abbreviation occurs once in every rotation. */
  lemma RotationHasEachDayOnce(start: WeekStartDay)
    ensures forall i, j :: 0 <= i < j < 7 ==> RotatedWeekDays(start)[i] != RotatedWeekDays(start)[j]
  {
    WeekDaysDistinct();
    RotationKeepsDistinct(WeekDays, start);
  }

  /** UserSettingsService: the held settings record, read by the views. */
  class UserSettingsService {
    const store: StorageService
    var settings: UserSettings

    /** The held record starts as the store's settings (loadSettings). */
    constructor (store: StorageService)
      ensures this.store == store && settings == store.GetUserSettings()
    {
      this.store := store;
      settings := store.GetUserSettings();
    }

    /** orderedWeekDays. */
    function OrderedWeekDays(): (r: seq<string>)
      reads this
      ensures |r| == 7 && r[0] == WeekDays[settings.weekStartDay]
      ensures forall i :: 0 <= i < 7 ==> r[i] == WeekDays[(i + settings.weekStartDay) % 7]
      ensures multiset(r) == multiset(WeekDays)
    {
      RotatedWeekDays(settings.weekStartDay)
    }

    /** updateSettings: the held record changes first, whatever the store write then does. */
    method UpdateSettings(patch: SettingsPatch, writeOk: bool)
      modifies this`settings, store`settingsCache, store`localSettings, store`remote
      ensures settings == Merge(old(settings), patch)
      ensures store.settingsCache == (if old(store.WriteLands(writeOk)) then settings else old(store.settingsCache))
      ensures if old(store.WriteLands(writeOk)) then store.SettingsWritten(settings) else store.SettingsUnchanged()
      ensures old(store.Synced()) ==> store.Synced()
    {
      var updated := Merge(settings, patch);
      settings := updated;
      store.SetUserSettings(updated, writeOk);
    }

    method UpdateWeekStartDay(weekStartDay: WeekStartDay, writeOk: bool)
      modifies this`settings, store`settingsCache, store`localSettings, store`remote
      ensures settings == old(settings).(weekStartDay := weekStartDay)
      ensures store.settingsCache == (if old(store.WriteLands(writeOk)) then settings else old(store.settingsCache))
      ensures if old(store.WriteLands(writeOk)) then store.SettingsWritten(settings) else store.SettingsUnchanged()
      ensures old(store.Synced()) ==> store.Synced()
    {
      UpdateSettings(SettingsPatch(Some(weekStartDay), None, None, None, None), writeOk);
    }

    method UpdateShowShiftLabels(showShiftLabels: bool, writeOk: bool)
      modifies this`settings, store`settingsCache, store`localSettings, store`remote
      ensures settings == old(settings).(showShiftLabels := showShiftLabels)
      ensures store.settingsCache == (if old(store.WriteLands(writeOk)) then settings else old(store.settingsCache))
      ensures if old(store.WriteLands(writeOk)) then store.SettingsWritten(settings) else store.SettingsUnchanged()
      ensures old(store.Synced()) ==> store.Synced()
    {
      UpdateSettings(SettingsPatch(None, Some(showShiftLabels), None, None, None), writeOk);
    }

    /** Choosing a crew also marks the initial setup as done. */
    method UpdateSelectedCrew(crew: Crew, writeOk: bool)
      modifies this`settings, store`settingsCache, store`localSettings, store`remote
      ensures settings == old(settings).(selectedCrew := Some(crew), hasCompletedInitialSetup := Some(true))
      ensures store.settingsCache == (if old(store.WriteLands(writeOk)) then settings else old(store.settingsCache))
      ensures if old(store.WriteLands(writeOk)) then store.SettingsWritten(settings) else store.SettingsUnchanged()
      ensures old(store.Synced()) ==> store.Synced()
    {
      UpdateSettings(SettingsPatch(None, None, None, Some(crew), Some(true)), writeOk);
    }

    /** On a store change event (or a finished re-initialisation) the held record is reloaded. */
    method OnDataChange()
      modifies this`settings
      ensures settings == store.GetUserSettings()
    {
      settings := store.GetUserSettings();
    }
  }
}
