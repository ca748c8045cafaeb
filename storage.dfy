/**
 * The modification store: user overrides of single (date, crew) days and the
 * user's settings, held in an in-memory cache and persisted either in the
 * browser's local key/value store (guest) or in a remote per-user document
 * (signed in), with a one-time copy of local data into a new remote document.
 */
module Storage {
  import opened Wrappers
  import opened Dates
  import opened DateFormat
  import opened Models

  type UserId = string

  /** One override: `date` is the YYYY-MM-DD string of the day. */
  datatype ShiftModification = ShiftModification(
    date: string,
    originalType: ShiftType,
    modifiedType: ShiftType,
    crew: Crew,
    timestamp: int)

  /** The persisted pair of record list and settings. */
  datatype StorageData = StorageData(modifications: seq<ShiftModification>, settings: UserSettings)

  /** What one local-storage key holds: nothing, text that does not parse, or a parsed value. */
  datatype LocalEntry<T> = Absent | Unparseable | Stored(value: T)

  /** A remote document; either field may be missing from what the server returns. */
  datatype RemoteDocument = RemoteDocument(
    modifications: Option<seq<ShiftModification>>,
    settings: Option<UserSettings>)

  predicate IsFor(m: ShiftModification, dateString: string, crew: Crew) {
    m.date == dateString && m.crew == crew
  }

  predicate SameKey(a: ShiftModification, b: ShiftModification) {
    a.date == b.date && a.crew == b.crew
  }

  /** `mods.filter(mod => !(mod.date === dateString && mod.crew === crew))`. */
  function Without(mods: seq<ShiftModification>, dateString: string, crew: Crew): (r: seq<ShiftModification>)
    ensures |r| <= |mods|
    ensures forall m :: m in r <==> m in mods && !IsFor(m, dateString, crew)
    decreases |mods|
  {
    if mods == [] then []
    else (if IsFor(mods[0], dateString, crew) then [] else [mods[0]]) + Without(mods[1..], dateString, crew)
  }

  /** The list a save writes: every record for the same (date, crew) dropped, then the new one appended. */
  function Saved(mods: seq<ShiftModification>, m: ShiftModification): seq<ShiftModification> {
    Without(mods, m.date, m.crew) + [m]
  }

  /** `mods.find(mod => mod.date === dateString && mod.crew === crew)`: the first matching record. */
  function FindModification(mods: seq<ShiftModification>, dateString: string, crew: Crew): (r: Option<ShiftModification>)
    ensures r.None? <==> forall i :: 0 <= i < |mods| ==> !IsFor(mods[i], dateString, crew)
    ensures r.Some? ==> IsFor(r.value, dateString, crew) && r.value in mods
    ensures r.Some? ==> exists i :: 0 <= i < |mods| && mods[i] == r.value
                                   && forall j :: 0 <= j < i ==> !IsFor(mods[j], dateString, crew)
    decreases |mods|
  {
    if mods == [] then None
    else if IsFor(mods[0], dateString, crew) then Some(mods[0])
    else
      var r := FindModification(mods[1..], dateString, crew);
      assert forall i :: 0 <= i < |mods| - 1 ==> mods[1..][i] == mods[i + 1];
      if r.Some? then
        var i :| 0 <= i < |mods[1..]| && mods[1..][i] == r.value
                 && forall j :: 0 <= j < i ==> !IsFor(mods[1..][j], dateString, crew);
        assert mods[i + 1] == r.value && forall j :: 0 <= j < i + 1 ==> !IsFor(mods[j], dateString, crew);
        r
      else r
  }

  /** True when a record is an annual-leave day of `crew` whose date string starts with `year`'s digits. */
  predicate CountsAsLeave(m: ShiftModification, crew: Crew, year: int) {
    m.crew == crew && m.modifiedType == AnnualLeave && IntToDecimal(year) <= m.date
  }

  /** The filter-and-count of getAnnualLeaveUsage. */
  function AnnualLeaveCount(mods: seq<ShiftModification>, crew: Crew, year: int): (n: nat)
    ensures n <= |mods|
    ensures n == 0 <==> forall m :: m in mods ==> !CountsAsLeave(m, crew, year)
    decreases |mods|
  {
    if mods == [] then 0
    else (if CountsAsLeave(mods[0], crew, year) then 1 else 0) + AnnualLeaveCount(mods[1..], crew, year)
  }

  /** At most one record per (date, crew) pair. */
  predicate UniqueKeys(mods: seq<ShiftModification>)
    decreases |mods|
  {
    mods == [] || ((forall m :: m in mods[1..] ==> !SameKey(m, mods[0])) && UniqueKeys(mods[1..]))
  }

  /** Parsed local values, with DEFAULT_USER_SETTINGS and [] standing in for absent or unparseable ones. */
  function LocalData(mods: LocalEntry<seq<ShiftModification>>, settings: LocalEntry<UserSettings>): (d: StorageData)
    ensures d.modifications == (if mods.Stored? then mods.value else [])
    ensures d.settings == (if settings.Stored? then settings.value else DefaultUserSettings)
  {
    StorageData(
      match mods case Stored(v) => v case _ => [],
      match settings case Stored(v) => v case _ => DefaultUserSettings)
  }

  /** A remote document's data, missing fields defaulted (`|| []`, `|| DEFAULT_USER_SETTINGS`). */
  function RemoteData(doc: RemoteDocument): StorageData {
    StorageData(doc.modifications.GetOr([]), doc.settings.GetOr(DefaultUserSettings))
  }

  /** The document the first sign-in creates from local data. */
  function NewDocument(data: StorageData): RemoteDocument {
    RemoteDocument(Some(data.modifications), Some(data.settings))
  }

  // ---------------------------------------------------------------------------
  // Properties of the record-list operations

  /** Filtering distributes over concatenation, so the kept records stay in their order. */
  lemma {:induction false} WithoutConcat(a: seq<ShiftModification>, b: seq<ShiftModification>, dateString: string, crew: Crew)
    ensures Without(a + b, dateString, crew) == Without(a, dateString, crew) + Without(b, dateString, crew)
    decreases |a|
  {
    if a == [] {
      assert a + b == b;
    } else {
      assert (a + b)[1..] == a[1..] + b;
      WithoutConcat(a[1..], b, dateString, crew);
    }
  }

  /** Filtering keeps every record exactly when no record matches (the early return of a removal). */
  lemma {:induction false} WithoutKeepsAllIffNoMatch(mods: seq<ShiftModification>, dateString: string, crew: Crew)
    ensures |Without(mods, dateString, crew)| == |mods| <==> forall m :: m in mods ==> !IsFor(m, dateString, crew)
    decreases |mods|
  {
    if mods != [] {
      var rest := mods[1..];
      WithoutKeepsAllIffNoMatch(rest, dateString, crew);
      assert mods == [mods[0]] + rest;
      assert forall m :: m in mods <==> m == mods[0] || m in rest;
    }
  }

  /** When no record matches, filtering returns the list itself. */
  lemma {:induction false} WithoutNoMatch(mods: seq<ShiftModification>, dateString: string, crew: Crew)
    requires forall m :: m in mods ==> !IsFor(m, dateString, crew)
    ensures Without(mods, dateString, crew) == mods
    decreases |mods|
  {
    if mods != [] {
      assert mods[0] in mods;
      assert forall m :: m in mods[1..] ==> m in mods;
      WithoutNoMatch(mods[1..], dateString, crew);
      assert mods == [mods[0]] + mods[1..];
    }
  }

  lemma WithoutIdempotent(mods: seq<ShiftModification>, dateString: string, crew: Crew)
    ensures Without(Without(mods, dateString, crew), dateString, crew) == Without(mods, dateString, crew)
  {
    WithoutNoMatch(Without(mods, dateString, crew), dateString, crew);
  }

  /** After a save, the new record is the only one for its (date, crew) pair, and it is the last. */
  lemma SavedHasOneRecordForKey(mods: seq<ShiftModification>, m: ShiftModification)
    ensures var r := Saved(mods, m);
      && r[|r| - 1] == m
      && r[..|r| - 1] == Without(mods, m.date, m.crew)
      && forall i :: 0 <= i < |r| - 1 ==> !SameKey(r[i], m)
  {
    var r := Saved(mods, m);
    var w := Without(mods, m.date, m.crew);
    assert r[..|r| - 1] == w;
    assert forall i :: 0 <= i < |r| - 1 ==> r[i] in w;
  }

  /** A later save for the same pair replaces an earlier one. */
  lemma SaveTwiceKeepsLast(mods: seq<ShiftModification>, first: ShiftModification, second: ShiftModification)
    requires SameKey(first, second)
    ensures Saved(Saved(mods, first), second) == Saved(mods, second)
  {
    var w := Without(mods, first.date, first.crew);
    WithoutConcat(w, [first], second.date, second.crew);
    assert Without([first], second.date, second.crew) == [];
    WithoutIdempotent(mods, first.date, first.crew);
  }

  /** Removing the pair after a save leaves what removing it before would have left. */
  lemma RemoveAfterSave(mods: seq<ShiftModification>, m: ShiftModification)
    ensures Without(Saved(mods, m), m.date, m.crew) == Without(mods, m.date, m.crew)
  {
    var w := Without(mods, m.date, m.crew);
    WithoutConcat(w, [m], m.date, m.crew);
    assert Without([m], m.date, m.crew) == [];
    WithoutIdempotent(mods, m.date, m.crew);
  }

  /** Lookup after a save finds the saved record; after a removal finds nothing. */
  lemma FindAfterSaveAndRemove(mods: seq<ShiftModification>, m: ShiftModification)
    ensures FindModification(Saved(mods, m), m.date, m.crew) == Some(m)
    ensures FindModification(Without(mods, m.date, m.crew), m.date, m.crew) == None
  {
    SavedHasOneRecordForKey(mods, m);
    var w := Without(mods, m.date, m.crew);
    assert forall i :: 0 <= i < |w| ==> w[i] in w;
  }

  /** Filtering out one pair does not change what a lookup of any other pair finds. */
  lemma {:induction false} FindIgnoresOtherKeys(mods: seq<ShiftModification>, removed: string, removedCrew: Crew,
                                                 dateString: string, crew: Crew)
    requires removed != dateString || removedCrew != crew
    ensures FindModification(Without(mods, removed, removedCrew), dateString, crew) == FindModification(mods, dateString, crew)
    decreases |mods|
  {
    if mods != [] {
      FindIgnoresOtherKeys(mods[1..], removed, removedCrew, dateString, crew);
      var tail := Without(mods[1..], removed, removedCrew);
      if IsFor(mods[0], removed, removedCrew) {
        assert Without(mods, removed, removedCrew) == [] + tail;
        assert [] + tail == tail;
        assert !IsFor(mods[0], dateString, crew);
        assert FindModification(mods, dateString, crew) == FindModification(mods[1..], dateString, crew);
      } else {
        var r := [mods[0]] + tail;
        assert Without(mods, removed, removedCrew) == r;
        assert r[0] == mods[0] && r[1..] == tail;
        if !IsFor(mods[0], dateString, crew) {
          assert FindModification(r, dateString, crew) == FindModification(tail, dateString, crew);
        }
      }
    }
  }

  /** A save for one pair does not change what a lookup of any other pair finds. */
  lemma SaveIgnoresOtherKeys(mods: seq<ShiftModification>, m: ShiftModification, dateString: string, crew: Crew)
    requires m.date != dateString || m.crew != crew
    ensures FindModification(Saved(mods, m), dateString, crew) == FindModification(mods, dateString, crew)
  {
    var w := Without(mods, m.date, m.crew);
    FindIgnoresOtherKeys(mods, m.date, m.crew, dateString, crew);
    FindSkipsTail(w, [m], dateString, crew);
  }

  lemma {:induction false} FindSkipsTail(a: seq<ShiftModification>, b: seq<ShiftModification>, dateString: string, crew: Crew)
    requires forall m :: m in b ==> !IsFor(m, dateString, crew)
    ensures FindModification(a + b, dateString, crew) == FindModification(a, dateString, crew)
    decreases |a|
  {
    if a == [] {
      assert a + b == b;
      assert forall i :: 0 <= i < |b| ==> b[i] in b;
    } else {
      assert (a + b)[0] == a[0] && (a + b)[1..] == a[1..] + b;
      FindSkipsTail(a[1..], b, dateString, crew);
    }
  }

  lemma {:induction false} UniqueAppend(mods: seq<ShiftModification>, m: ShiftModification)
    requires UniqueKeys(mods)
    requires forall x :: x in mods ==> !SameKey(x, m)
    ensures UniqueKeys(mods + [m])
    decreases |mods|
  {
    if mods != [] {
      var r := mods + [m];
      assert r[0] == mods[0] && r[1..] == mods[1..] + [m];
      assert forall x :: x in mods[1..] ==> x in mods;
      UniqueAppend(mods[1..], m);
      assert mods[0] in mods;
      assert forall x :: x in r[1..] ==> x in mods[1..] || x == m;
    }
  }

  lemma {:induction false} WithoutKeepsUnique(mods: seq<ShiftModification>, dateString: string, crew: Crew)
    requires UniqueKeys(mods)
    ensures UniqueKeys(Without(mods, dateString, crew))
    decreases |mods|
  {
    if mods != [] {
      WithoutKeepsUnique(mods[1..], dateString, crew);
      var rest := Without(mods[1..], dateString, crew);
      if !IsFor(mods[0], dateString, crew) {
        var r := [mods[0]] + rest;
        assert Without(mods, dateString, crew) == r;
        assert r[0] == mods[0] && r[1..] == rest;
        assert forall x :: x in rest ==> x in mods[1..];
      } else {
        assert [] + rest == rest;
        assert Without(mods, dateString, crew) == rest;
      }
    }
  }

  /** Saving keeps the one-record-per-pair invariant. */
  lemma SaveKeepsUnique(mods: seq<ShiftModification>, m: ShiftModification)
    requires UniqueKeys(mods)
    ensures UniqueKeys(Saved(mods, m))
  {
    WithoutKeepsUnique(mods, m.date, m.crew);
    UniqueAppend(Without(mods, m.date, m.crew), m);
  }

  lemma {:induction false} LeaveCountConcat(a: seq<ShiftModification>, b: seq<ShiftModification>, crew: Crew, year: int)
    ensures AnnualLeaveCount(a + b, crew, year) == AnnualLeaveCount(a, crew, year) + AnnualLeaveCount(b, crew, year)
    decreases |a|
  {
    if a == [] {
      assert a + b == b;
    } else {
      assert (a + b)[1..] == a[1..] + b;
      LeaveCountConcat(a[1..], b, crew, year);
    }
  }

  /** One step of the filter: the head kept or dropped, then the filtered tail. */
  lemma WithoutStep(mods: seq<ShiftModification>, dateString: string, c: Crew, crew: Crew, year: int)
    requires mods != []
    ensures AnnualLeaveCount(Without(mods, dateString, c), crew, year)
         == (if IsFor(mods[0], dateString, c) || !CountsAsLeave(mods[0], crew, year) then 0 else 1)
            + AnnualLeaveCount(Without(mods[1..], dateString, c), crew, year)
  {
    var head := if IsFor(mods[0], dateString, c) then [] else [mods[0]];
    var tail := Without(mods[1..], dateString, c);
    assert Without(mods, dateString, c) == head + tail;
    LeaveCountConcat(head, tail, crew, year);
    if head != [] {
      assert head[1..] == [];
    }
  }

  /** Filtering never raises the leave count. */
  lemma {:induction false} LeaveCountWithout(mods: seq<ShiftModification>, dateString: string, c: Crew, crew: Crew, year: int)
    ensures AnnualLeaveCount(Without(mods, dateString, c), crew, year) <= AnnualLeaveCount(mods, crew, year)
    decreases |mods|
  {
    if mods != [] {
      LeaveCountWithout(mods[1..], dateString, c, crew, year);
      WithoutStep(mods, dateString, c, crew, year);
    }
  }

  /** Filtering out a counted record lowers the leave count. */
  lemma {:induction false} LeaveCountDrops(mods: seq<ShiftModification>, m: ShiftModification, crew: Crew, year: int)
    requires m in mods && CountsAsLeave(m, crew, year)
    ensures AnnualLeaveCount(Without(mods, m.date, m.crew), crew, year) < AnnualLeaveCount(mods, crew, year)
    decreases |mods|
  {
    assert AnnualLeaveCount(mods, crew, year)
        == (if CountsAsLeave(mods[0], crew, year) then 1 else 0) + AnnualLeaveCount(mods[1..], crew, year);
    WithoutStep(mods, m.date, m.crew, crew, year);
    if mods[0] == m {
      assert IsFor(mods[0], m.date, m.crew);
      LeaveCountWithout(mods[1..], m.date, m.crew, crew, year);
    } else {
      var i :| 0 <= i < |mods| && mods[i] == m;
      assert mods[1..][i - 1] == m;
      LeaveCountDrops(mods[1..], m, crew, year);
    }
  }

  /** For four-digit years the prefix test is the same as comparing years. */
  lemma LeaveYearPrefix(d: Date, year: int)
    requires 1000 <= year < 10000 && 1000 <= d.year < 10000
    ensures IntToDecimal(year) <= IsoString(d) <==> d.year == year
  {
    FourDigits(year);
    FourDigits(d.year);
    var s := IsoString(d);
    assert s[..4] == NatToDecimal(d.year);
    if IntToDecimal(year) <= s {
      assert NatToDecimal(year) == s[..4];
      ParseNatToDecimal(year);
      ParseNatToDecimal(d.year);
    }
  }

  /** The worked example: only the first record is crew A's annual leave in 2025. */
  lemma LeaveCountExample(t: int)
    ensures AnnualLeaveCount([
        ShiftModification("2025-03-01", Early, AnnualLeave, David, t),
        ShiftModification("2025-03-02", Early, AnnualLeave, Trevor, t),
        ShiftModification("2024-12-31", Early, AnnualLeave, David, t)], David, 2025) == 1
  {
    FourDigits(2025);
    var mods := [
        ShiftModification("2025-03-01", Early, AnnualLeave, David, t),
        ShiftModification("2025-03-02", Early, AnnualLeave, Trevor, t),
        ShiftModification("2024-12-31", Early, AnnualLeave, David, t)];
    assert IntToDecimal(2025) == "2025";
    assert mods[1..][1..] == [mods[2]];
    assert mods[1..][1..][1..] == [];
    assert "2024-12-31"[3] == '4';
  }

  /** Loading a freshly migrated document gives back the data that was copied into it. */
  lemma MigratedDocumentLoadsBack(data: StorageData)
    ensures RemoteData(NewDocument(data)) == data
  {
  }

  // ---------------------------------------------------------------------------

  /**
   * StorageService: the in-memory cache, the local key/value store (its two keys),
   * the remote documents keyed by user id, and the signed-in identity.
   */
  class StorageService {
    var cache: seq<ShiftModification>
    var settingsCache: UserSettings
    var cacheInitialized: bool
    var lastUserId: Option<UserId>
    var isLoadingFromFirestore: bool
    /** The identity the authentication service reports (`currentUser()`). */
    var currentUser: Option<UserId>
    var localModifications: LocalEntry<seq<ShiftModification>>
    var localSettings: LocalEntry<UserSettings>
    var remote: map<UserId, RemoteDocument>
    /** How many times the data-changed event has fired. */
    var notifications: nat

    constructor (localModifications: LocalEntry<seq<ShiftModification>>, localSettings: LocalEntry<UserSettings>,
                 remote: map<UserId, RemoteDocument>)
      ensures this.localModifications == localModifications && this.localSettings == localSettings
      ensures this.remote == remote
      ensures cache == [] && settingsCache == DefaultUserSettings
      ensures !cacheInitialized && lastUserId == None && !isLoadingFromFirestore && currentUser == None
      ensures notifications == 0
    {
      this.localModifications := localModifications;
      this.localSettings := localSettings;
      this.remote := remote;
      cache := [];
      settingsCache := DefaultUserSettings;
      cacheInitialized := false;
      lastUserId := None;
      isLoadingFromFirestore := false;
      currentUser := None;
      notifications := 0;
    }

    /**
     * A write to the active store returns normally: the caller-supplied outcome `writeOk`,
     * and for a signed-in user a document to update (updateDoc fails on a missing one).
     */
    predicate WriteLands(writeOk: bool)
      reads this
    {
      writeOk && (currentUser.None? || currentUser.value in remote)
    }

    /**
     * A landed write of the modification list `next`: the cache holds it; a guest's key holds `local`
     * and the change event fires; a signed-in user's document alone gets `next`, other documents unchanged.
     */
    twostate predicate ModificationsWritten(next: seq<ShiftModification>, local: LocalEntry<seq<ShiftModification>>)
      reads this
    {
      && cache == next
      && (currentUser.None? ==>
            localModifications == local && remote == old(remote) && notifications == old(notifications) + 1)
      && (currentUser.Some? ==>
            && currentUser.value in old(remote)
            && remote == old(remote)[currentUser.value := old(remote)[currentUser.value].(modifications := Some(next))]
            && localModifications == old(localModifications) && notifications == old(notifications))
    }

    /** Nothing a modification write touches has changed. */
    twostate predicate ModificationsUnchanged()
      reads this
    {
      cache == old(cache) && localModifications == old(localModifications)
      && remote == old(remote) && notifications == old(notifications)
    }

    /** A landed write of the settings record: cache and active store hold it, other documents unchanged, no event. */
    twostate predicate SettingsWritten(settings: UserSettings)
      reads this
    {
      && settingsCache == settings
      && (currentUser.None? ==> localSettings == Stored(settings) && remote == old(remote))
      && (currentUser.Some? ==>
            && currentUser.value in old(remote)
            && remote == old(remote)[currentUser.value := old(remote)[currentUser.value].(settings := Some(settings))]
            && localSettings == old(localSettings))
    }

    /** Nothing a settings write touches has changed. */
    twostate predicate SettingsUnchanged()
      reads this
    {
      settingsCache == old(settingsCache) && localSettings == old(localSettings) && remote == old(remote)
    }

    /** The store the active identity reads from holds exactly what the cache holds. */
    ghost predicate Synced()
      reads this
    {
      match currentUser
      case None => LocalData(localModifications, localSettings) == StorageData(cache, settingsCache)
      case Some(uid) => uid in remote && RemoteData(remote[uid]) == StorageData(cache, settingsCache)
    }

    /** getAllStorageDataFromLocalStorage. */
    function LocalStorageData(): (d: StorageData)
      reads this
      ensures localModifications.Stored? ==> d.modifications == localModifications.value
      ensures !localModifications.Stored? ==> d.modifications == []
      ensures localSettings.Stored? ==> d.settings == localSettings.value
      ensures !localSettings.Stored? ==> d.settings == DefaultUserSettings
    {
      LocalData(localModifications, localSettings)
    }

    /**
     * initializeCache with checkUserDocumentExists, run to completion for the identity
     * the authentication service reports. `readOk` and `createOk` are the outcomes of
     * the remote read and of the remote create; a failure is logged and swallowed.
     */
    method Initialize(identity: Option<UserId>, readOk: bool, createOk: bool)
      modifies this`cache, this`settingsCache, this`cacheInitialized, this`lastUserId,
               this`isLoadingFromFirestore, this`currentUser, this`localModifications,
               this`localSettings, this`remote
      ensures currentUser == identity && lastUserId == identity && cacheInitialized
      ensures identity.None? ==>
        && StorageData(cache, settingsCache) == LocalData(old(localModifications), old(localSettings))
        && localModifications == old(localModifications) && localSettings == old(localSettings)
        && remote == old(remote)
        && isLoadingFromFirestore == old(isLoadingFromFirestore)
      ensures identity.Some? ==> !isLoadingFromFirestore
      ensures identity.Some? && readOk && identity.value in old(remote) ==>
        && StorageData(cache, settingsCache) == RemoteData(old(remote)[identity.value])
        && localModifications == old(localModifications) && localSettings == old(localSettings)
        && remote == old(remote)
      ensures identity.Some? && readOk && identity.value !in old(remote) && createOk ==>
        var migrated := LocalData(old(localModifications), old(localSettings));
        && remote == old(remote)[identity.value := NewDocument(migrated)]
        && StorageData(cache, settingsCache) == migrated
        && localModifications == Absent && localSettings == Absent
      ensures identity.Some? && (!readOk || (identity.value !in old(remote) && !createOk)) ==>
        && cache == old(cache) && settingsCache == old(settingsCache)
        && localModifications == old(localModifications) && localSettings == old(localSettings)
        && remote == old(remote)
      ensures identity.None? || (readOk && (identity.value in old(remote) || createOk)) ==> Synced()
    {
      currentUser := identity;
      lastUserId := identity;
      if identity.Some? {
        CheckUserDocumentExists(identity.value, readOk, createOk);
      } else {
        var data := LocalStorageData();
        cache := data.modifications;
        settingsCache := data.settings;
      }
      cacheInitialized := true;
    }

    /** checkUserDocumentExists: load the user's document, or create it from local data. */
    method CheckUserDocumentExists(userId: UserId, readOk: bool, createOk: bool)
      modifies this`cache, this`settingsCache, this`isLoadingFromFirestore,
               this`localModifications, this`localSettings, this`remote
      ensures !isLoadingFromFirestore
      ensures readOk && userId in old(remote) ==>
        && StorageData(cache, settingsCache) == RemoteData(old(remote)[userId])
        && localModifications == old(localModifications) && localSettings == old(localSettings)
        && remote == old(remote)
      ensures readOk && userId !in old(remote) && createOk ==>
        var migrated := LocalData(old(localModifications), old(localSettings));
        && remote == old(remote)[userId := NewDocument(migrated)]
        && StorageData(cache, settingsCache) == migrated
        && localModifications == Absent && localSettings == Absent
      ensures !readOk || (userId !in old(remote) && !createOk) ==>
        && cache == old(cache) && settingsCache == old(settingsCache)
        && localModifications == old(localModifications) && localSettings == old(localSettings)
        && remote == old(remote)
    {
      isLoadingFromFirestore := true;
      if !readOk {
        // the read threw: logged, nothing loaded
        isLoadingFromFirestore := false;
        return;
      }
      if userId in remote {
        var data := RemoteData(remote[userId]);
        cache := data.modifications;
        settingsCache := data.settings;
      } else {
        var localData := LocalStorageData();
        if !createOk {
          // the create threw: logged, nothing copied and nothing cleared
          isLoadingFromFirestore := false;
          return;
        }
        remote := remote[userId := NewDocument(localData)];
        cache := localData.modifications;
        settingsCache := localData.settings;
        localModifications := Absent;
        localSettings := Absent;
      }
      isLoadingFromFirestore := false;
    }

    /** saveShiftModification, with `now` standing for Date.now(). */
    method SaveShiftModification(date: Date, originalType: ShiftType, modifiedType: ShiftType, crew: Crew,
                                 now: int, writeOk: bool)
      modifies this`cache, this`localModifications, this`remote, this`notifications
      ensures var next := Saved(old(cache), ShiftModification(IsoString(date), originalType, modifiedType, crew, now));
        if old(WriteLands(writeOk)) then ModificationsWritten(next, Stored(next)) else ModificationsUnchanged()
      ensures old(Synced()) ==> Synced()
    {
      var dateString := IsoString(date);
      var modification := ShiftModification(dateString, originalType, modifiedType, crew, now);
      var filtered := Without(cache, dateString, crew) + [modification];
      if !WriteLands(writeOk) {
        // the write threw: logged, the cache is left as it was
        return;
      }
      if currentUser.Some? {
        var uid := currentUser.value;
        remote := remote[uid := remote[uid].(modifications := Some(filtered))];
      } else {
        localModifications := Stored(filtered);
      }
      cache := filtered;
      if currentUser.None? {
        notifications := notifications + 1;
      }
    }

    /** getShiftModification: the first cached record for the day and crew. */
    function GetShiftModification(date: Date, crew: Crew): (r: Option<ShiftModification>)
      reads this
      ensures r.None? <==> forall i :: 0 <= i < |cache| ==> !IsFor(cache[i], IsoString(date), crew)
      ensures r.Some? ==> r.value in cache && r.value.date == IsoString(date) && r.value.crew == crew
      ensures r.Some? ==> exists i :: 0 <= i < |cache| && cache[i] == r.value
                                     && forall j :: 0 <= j < i ==> !IsFor(cache[j], IsoString(date), crew)
    {
      FindModification(cache, IsoString(date), crew)
    }

    /** removeShiftModification: a no-op when nothing matches, otherwise a filtered write. */
    method RemoveShiftModification(date: Date, crew: Crew, writeOk: bool)
      modifies this`cache, this`localModifications, this`remote, this`notifications
      ensures var next := Without(old(cache), IsoString(date), crew);
        if |next| == |old(cache)| || !old(WriteLands(writeOk)) then ModificationsUnchanged()
        else ModificationsWritten(next, Stored(next))
      ensures cache == Without(old(cache), IsoString(date), crew) || cache == old(cache)
      ensures old(Synced()) ==> Synced()
    {
      var dateString := IsoString(date);
      var modifications := cache;
      var filtered := Without(modifications, dateString, crew);
      if |filtered| == |modifications| {
        return;
      }
      if !WriteLands(writeOk) {
        return;
      }
      if currentUser.Some? {
        var uid := currentUser.value;
        remote := remote[uid := remote[uid].(modifications := Some(filtered))];
      } else {
        localModifications := Stored(filtered);
      }
      cache := filtered;
      if currentUser.None? {
        notifications := notifications + 1;
      }
    }

    /** getAnnualLeaveUsage over the cached records. */
    function GetAnnualLeaveUsage(crew: Crew, year: int): (n: nat)
      reads this
      ensures n <= |cache|
      ensures n == 0 <==> forall m :: m in cache ==> !CountsAsLeave(m, crew, year)
    {
      AnnualLeaveCount(cache, crew, year)
    }

    /** clearAllShiftModifications: guest removes the local key, a signed-in user gets `[]` written. */
    method ClearAllShiftModifications(writeOk: bool)
      modifies this`cache, this`localModifications, this`remote, this`notifications
      ensures if old(WriteLands(writeOk)) then ModificationsWritten([], Absent) else ModificationsUnchanged()
      ensures old(Synced()) ==> Synced()
    {
      if !WriteLands(writeOk) {
        return;
      }
      if currentUser.Some? {
        var uid := currentUser.value;
        remote := remote[uid := remote[uid].(modifications := Some([]))];
      } else {
        localModifications := Absent;
      }
      cache := [];
      if currentUser.None? {
        notifications := notifications + 1;
      }
    }

    function GetUserSettings(): UserSettings
      reads this
    {
      settingsCache
    }

    /** setUserSettings: whole-record replace, written before the cache; no change event. */
    method SetUserSettings(settings: UserSettings, writeOk: bool)
      modifies this`settingsCache, this`localSettings, this`remote
      ensures if old(WriteLands(writeOk)) then SettingsWritten(settings) else SettingsUnchanged()
      ensures old(Synced()) ==> Synced()
    {
      if !WriteLands(writeOk) {
        return;
      }
      if currentUser.Some? {
        var uid := currentUser.value;
        remote := remote[uid := remote[uid].(settings := Some(settings))];
      } else {
        localSettings := Stored(settings);
      }
      settingsCache := settings;
    }
  }
}
