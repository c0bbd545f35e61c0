/** The dashboard's widget and settings store (`src/context/WidgetContext.tsx`):
    the saved layout, location, world clocks and timer settings, the loader
    that normalises what was saved, and the store's update operations, each a
    function from the previous state to the next. */
module WidgetStore {
  import opened Wrappers
  import opened Seqs

  datatype WidgetId = HomeGroup | WorldClocks | PomodoroTimer | DateWidget

  datatype WidgetConfig = WidgetConfig(id: WidgetId, visible: bool, order: int)

  datatype WorldClock = WorldClock(
    id: string, cityCode: string, cityName: string, country: string, timezone: string)

  /** A world clock as the city picker hands it over, before it has an id. */
  datatype NewWorldClock = NewWorldClock(
    cityCode: string, cityName: string, country: string, timezone: string)

  /** A partial world clock: only the supplied fields are changed. */
  datatype WorldClockPatch = WorldClockPatch(
    id: Option<string>, cityCode: Option<string>, cityName: Option<string>,
    country: Option<string>, timezone: Option<string>)

  datatype PomodoroSettings = PomodoroSettings(
    focusDuration: int, breakDuration: int, autoStartBreaks: bool, notificationsEnabled: bool)

  /** Partial timer settings: only the supplied fields are changed. */
  datatype SettingsPatch = SettingsPatch(
    focusDuration: Option<int>, breakDuration: Option<int>,
    autoStartBreaks: Option<bool>, notificationsEnabled: Option<bool>)

  datatype Coords = Coords(latitude: real, longitude: real)

  datatype ManualLocation = ManualLocation(cityName: string, timezone: string)

  datatype LocationMode = Auto | Manual | Pending

  datatype LocationState = LocationState(
    mode: LocationMode,
    coords: Option<Coords>,
    manualLocation: Option<ManualLocation>,
    resolvedCityName: Option<string>,
    resolvedTimezone: Option<string>)

  datatype WidgetState = WidgetState(
    widgets: seq<WidgetConfig>,
    location: LocationState,
    worldClocks: seq<WorldClock>,
    pomodoroSettings: PomodoroSettings)

  datatype SettingsTab = WidgetsTab | CitiesTab | TimerTab

  datatype CitySubTab = HomeCityTab | WorldCitiesTab

  /** The settings dialog's own state cells. */
  datatype SettingsDialog = SettingsDialog(settingsOpen: bool, settingsTab: SettingsTab, citySubTab: CitySubTab)

  // ---------------------------------------------------------------------
  // Defaults

  const DefaultWidgets: seq<WidgetConfig> := [
    WidgetConfig(HomeGroup, true, 0),
    WidgetConfig(WorldClocks, true, 1),
    WidgetConfig(PomodoroTimer, true, 2),
    WidgetConfig(DateWidget, true, 3)
  ]

  const DefaultWorldClocks: seq<WorldClock> := [
    WorldClock("1", "MAA", "Chennai", "IND", "Asia/Kolkata"),
    WorldClock("2", "BER", "Berlin", "DEU", "Europe/Berlin"),
    WorldClock("3", "DXB", "Dubai", "UAE", "Asia/Dubai")
  ]

  const DefaultPomodoroSettings := PomodoroSettings(25, 5, false, false)

  const DefaultLocation := LocationState(Pending, None, None, None, None)

  const DefaultState := WidgetState(DefaultWidgets, DefaultLocation, DefaultWorldClocks, DefaultPomodoroSettings)

  // ---------------------------------------------------------------------
  // Widget visibility

  /** No entry has identifier `id`. */
  predicate AbsentId(widgets: seq<WidgetConfig>, id: WidgetId) {
    forall j :: 0 <= j < |widgets| ==> widgets[j].id != id
  }

  /** Index `i` holds the first entry with identifier `id`. */
  predicate FirstWithId(widgets: seq<WidgetConfig>, id: WidgetId, i: int) {
    0 <= i < |widgets| && widgets[i].id == id && forall j :: 0 <= j < i ==> widgets[j].id != id
  }

  /** The first widget entry with identifier `id`, as `Array.prototype.find`
      returns it. */
  function FindWidget(widgets: seq<WidgetConfig>, id: WidgetId): (r: Option<WidgetConfig>)
    ensures r.None? <==> AbsentId(widgets, id)
    ensures r.Some? ==> r.value in widgets && r.value.id == id
    ensures forall i :: FirstWithId(widgets, id, i) ==> r == Some(widgets[i])
    decreases |widgets|
  {
    if widgets == [] then None
    else if widgets[0].id == id then Some(widgets[0])
    else
      FirstWithIdInTail(widgets, id);
      FindWidget(widgets[1..], id)
  }

  lemma FirstWithIdInTail(widgets: seq<WidgetConfig>, id: WidgetId)
    requires widgets != [] && widgets[0].id != id
    ensures forall i :: FirstWithId(widgets, id, i) ==> FirstWithId(widgets[1..], id, i - 1)
    ensures AbsentId(widgets[1..], id) ==> AbsentId(widgets, id)
  {
    assert forall j :: 0 < j < |widgets| ==> widgets[1..][j - 1] == widgets[j];
  }

  /** `toggleWidget`: flips visibility on the entries with identifier `id`. */
  function ToggleWidget(state: WidgetState, id: WidgetId): (r: WidgetState)
    ensures r.(widgets := state.widgets) == state
    ensures |r.widgets| == |state.widgets|
    ensures forall i :: 0 <= i < |state.widgets| ==>
      && r.widgets[i].id == state.widgets[i].id
      && r.widgets[i].order == state.widgets[i].order
      && (r.widgets[i].visible == state.widgets[i].visible <==> state.widgets[i].id != id)
  {
    var ws := state.widgets;
    state.(widgets := seq(|ws|, i requires 0 <= i < |ws| =>
      if ws[i].id == id then ws[i].(visible := !ws[i].visible) else ws[i]))
  }

  /** Toggling the same widget twice restores the state. */
  lemma ToggleTwice(state: WidgetState, id: WidgetId)
    ensures ToggleWidget(ToggleWidget(state, id), id) == state
  {
    var twice := ToggleWidget(ToggleWidget(state, id), id);
    assert twice.widgets == state.widgets;
  }

  /** `reorderWidgets`: the grid's new order replaces the list. */
  function ReorderWidgets(state: WidgetState, widgets: seq<WidgetConfig>): (r: WidgetState)
    ensures r.widgets == widgets && r.(widgets := state.widgets) == state
  {
    state.(widgets := widgets)
  }

  /** `isWidgetVisible`: the flag of the first entry with identifier `id`,
      and visible when there is none. */
  function IsWidgetVisible(state: WidgetState, id: WidgetId): (visible: bool)
    ensures AbsentId(state.widgets, id) ==> visible
    ensures forall i :: FirstWithId(state.widgets, id, i) ==> visible == state.widgets[i].visible
  {
    var found := FindWidget(state.widgets, id);
    if found.Some? then found.value.visible else true
  }

  // ---------------------------------------------------------------------
  // Location

  function SetAutoLocation(state: WidgetState, coords: Coords, cityName: string, timezone: string): (r: WidgetState)
    ensures r.location.mode == Auto && r.location.manualLocation == None
    ensures r.location.coords == Some(coords)
    ensures r.location.resolvedCityName == Some(cityName) && r.location.resolvedTimezone == Some(timezone)
    ensures r.(location := state.location) == state
  {
    state.(location := LocationState(Auto, Some(coords), None, Some(cityName), Some(timezone)))
  }

  function SetManualLocation(state: WidgetState, cityName: string, timezone: string): (r: WidgetState)
    ensures r.location.mode == Manual && r.location.coords == None
    ensures r.location.manualLocation == Some(ManualLocation(cityName, timezone))
    ensures r.location.resolvedCityName == None && r.location.resolvedTimezone == None
    ensures r.(location := state.location) == state
  {
    state.(location := LocationState(Manual, None, Some(ManualLocation(cityName, timezone)), None, None))
  }

  function ClearLocation(state: WidgetState): (r: WidgetState)
    ensures r.location.mode == Pending
    ensures r.location.coords == None && r.location.manualLocation == None
    ensures r.location.resolvedCityName == None && r.location.resolvedTimezone == None
    ensures r.(location := state.location) == state
  {
    state.(location := DefaultLocation)
  }

  /** Whichever location was chosen, clearing returns to the state the
      loader starts from. */
  lemma ClearUndoesLocation(state: WidgetState, coords: Coords, cityName: string, timezone: string)
    ensures ClearLocation(SetAutoLocation(state, coords, cityName, timezone)) == ClearLocation(state)
    ensures ClearLocation(SetManualLocation(state, cityName, timezone)) == ClearLocation(state)
    ensures ClearLocation(state).location == DefaultState.location
  {
  }

  // ---------------------------------------------------------------------
  // World clocks

  /** `addWorldClock`: the new clock, with the supplied id, goes at the end. */
  function AddWorldClock(state: WidgetState, clock: NewWorldClock, id: string): (r: WidgetState)
    ensures |r.worldClocks| == |state.worldClocks| + 1
    ensures r.worldClocks[..|state.worldClocks|] == state.worldClocks
    ensures r.worldClocks[|state.worldClocks|] ==
      WorldClock(id, clock.cityCode, clock.cityName, clock.country, clock.timezone)
    ensures r.(worldClocks := state.worldClocks) == state
  {
    state.(worldClocks := state.worldClocks +
      [WorldClock(id, clock.cityCode, clock.cityName, clock.country, clock.timezone)])
  }

  function HasOtherId(id: string): WorldClock -> bool {
    (c: WorldClock) => c.id != id
  }

  /** `removeWorldClock`: drops the clocks with identifier `id`. */
  function RemoveWorldClock(state: WidgetState, id: string): (r: WidgetState)
    ensures forall c :: c in r.worldClocks <==> c in state.worldClocks && c.id != id
    ensures forall c :: multiset(r.worldClocks)[c] == if c.id == id then 0 else multiset(state.worldClocks)[c]
    ensures IsSubsequence(r.worldClocks, state.worldClocks)
    ensures r.(worldClocks := state.worldClocks) == state
  {
    var kept := Filter(state.worldClocks, HasOtherId(id));
    FilterIsSubsequence(state.worldClocks, HasOtherId(id));
    FilterMembers(state.worldClocks, HasOtherId(id));
    FilterCounts(state.worldClocks, HasOtherId(id));
    state.(worldClocks := kept)
  }

  /** Removing the clock just added, under a fresh id, restores the list. */
  lemma RemoveUndoesAdd(state: WidgetState, clock: NewWorldClock, id: string)
    requires forall i :: 0 <= i < |state.worldClocks| ==> state.worldClocks[i].id != id
    ensures RemoveWorldClock(AddWorldClock(state, clock, id), id) == state
  {
    var p := HasOtherId(id);
    var added := AddWorldClock(state, clock, id).worldClocks;
    var c := added[|added| - 1];
    assert added == state.worldClocks + [c];
    FilterSnoc(state.worldClocks, c, p);
    FilterAll(state.worldClocks, p);
  }

  /** `{ ...c, ...clock }`: each supplied field overrides the clock's. */
  function MergeClock(c: WorldClock, patch: WorldClockPatch): (r: WorldClock)
    ensures r.id == patch.id.GetOr(c.id) && r.cityCode == patch.cityCode.GetOr(c.cityCode)
    ensures r.cityName == patch.cityName.GetOr(c.cityName) && r.country == patch.country.GetOr(c.country)
    ensures r.timezone == patch.timezone.GetOr(c.timezone)
  {
    WorldClock(patch.id.GetOr(c.id), patch.cityCode.GetOr(c.cityCode), patch.cityName.GetOr(c.cityName),
               patch.country.GetOr(c.country), patch.timezone.GetOr(c.timezone))
  }

  /** `updateWorldClock`: merges the partial clock into the clocks with
      identifier `id`, in place in the list. */
  function UpdateWorldClock(state: WidgetState, id: string, patch: WorldClockPatch): (r: WidgetState)
    ensures |r.worldClocks| == |state.worldClocks|
    ensures forall i :: 0 <= i < |state.worldClocks| ==>
      r.worldClocks[i] == if state.worldClocks[i].id == id then MergeClock(state.worldClocks[i], patch)
                          else state.worldClocks[i]
    ensures r.(worldClocks := state.worldClocks) == state
  {
    var cs := state.worldClocks;
    state.(worldClocks := seq(|cs|, i requires 0 <= i < |cs| =>
      if cs[i].id == id then MergeClock(cs[i], patch) else cs[i]))
  }

  /** An empty partial clock, or an id that no clock has, changes nothing. */
  lemma UpdateWorldClockNoop(state: WidgetState, id: string, patch: WorldClockPatch)
    requires patch == WorldClockPatch(None, None, None, None, None) ||
             forall i :: 0 <= i < |state.worldClocks| ==> state.worldClocks[i].id != id
    ensures UpdateWorldClock(state, id, patch) == state
  {
    assert UpdateWorldClock(state, id, patch).worldClocks == state.worldClocks;
  }

  // ---------------------------------------------------------------------
  // Timer settings

  /** `updatePomodoroSettings`: the supplied fields overwrite, the others stay. */
  function UpdatePomodoroSettings(state: WidgetState, patch: SettingsPatch): (r: WidgetState)
    ensures r.pomodoroSettings.focusDuration == patch.focusDuration.GetOr(state.pomodoroSettings.focusDuration)
    ensures r.pomodoroSettings.breakDuration == patch.breakDuration.GetOr(state.pomodoroSettings.breakDuration)
    ensures r.pomodoroSettings.autoStartBreaks == patch.autoStartBreaks.GetOr(state.pomodoroSettings.autoStartBreaks)
    ensures r.pomodoroSettings.notificationsEnabled ==
      patch.notificationsEnabled.GetOr(state.pomodoroSettings.notificationsEnabled)
    ensures r.(pomodoroSettings := state.pomodoroSettings) == state
  {
    var p := state.pomodoroSettings;
    state.(pomodoroSettings := PomodoroSettings(
      patch.focusDuration.GetOr(p.focusDuration), patch.breakDuration.GetOr(p.breakDuration),
      patch.autoStartBreaks.GetOr(p.autoStartBreaks), patch.notificationsEnabled.GetOr(p.notificationsEnabled)))
  }

  /** Applying the same partial settings twice is applying them once. */
  lemma UpdatePomodoroSettingsIdempotent(state: WidgetState, patch: SettingsPatch)
    ensures UpdatePomodoroSettings(UpdatePomodoroSettings(state, patch), patch) == UpdatePomodoroSettings(state, patch)
  {
  }

  // ---------------------------------------------------------------------
  // The settings dialog

  /** `openSettings(tab = 'widgets', cityTab = 'home')`: the dialog opens on
      `tab`; the city sub-tab changes only when that tab is the cities tab. */
  function OpenSettings(dialog: SettingsDialog, tab: Option<SettingsTab>, cityTab: Option<CitySubTab>): (r: SettingsDialog)
    ensures r.settingsOpen && r.settingsTab == tab.GetOr(WidgetsTab)
    ensures r.settingsTab == CitiesTab ==> r.citySubTab == cityTab.GetOr(HomeCityTab)
    ensures r.settingsTab != CitiesTab ==> r.citySubTab == dialog.citySubTab
  {
    var t := tab.GetOr(WidgetsTab);
    SettingsDialog(true, t, if t == CitiesTab then cityTab.GetOr(HomeCityTab) else dialog.citySubTab)
  }

  // ---------------------------------------------------------------------
  // Loading the saved state

  /** Timer settings as found in storage: the retired format had a short
      (and a long) break instead of one break duration. */
  datatype StoredSettings =
    | LegacySettings(focusDuration: int, shortBreakDuration: int, autoStartBreaks: bool)
    | CurrentSettings(focusDuration: int, breakDuration: int, autoStartBreaks: bool,
                      notificationsEnabled: Option<bool>)

  /** The saved state, each top-level part present or missing. */
  datatype StoredState = StoredState(
    widgets: Option<seq<WidgetConfig>>,
    location: Option<LocationState>,
    worldClocks: Option<seq<WorldClock>>,
    pomodoroSettings: Option<StoredSettings>)

  /** Missing settings take the defaults; legacy settings keep the short break
      as the break with notifications off; settings without the notification
      flag take the browser's current permission. */
  function MigrateSettings(stored: Option<StoredSettings>, permissionGranted: bool): (r: PomodoroSettings)
    ensures stored.None? ==> r == DefaultPomodoroSettings
    ensures stored.Some? && stored.value.LegacySettings? ==>
      r == PomodoroSettings(stored.value.focusDuration, stored.value.shortBreakDuration,
                            stored.value.autoStartBreaks, false)
    ensures stored.Some? && stored.value.CurrentSettings? ==>
      r == PomodoroSettings(stored.value.focusDuration, stored.value.breakDuration,
                            stored.value.autoStartBreaks, stored.value.notificationsEnabled.GetOr(permissionGranted))
  {
    match stored
    case None => DefaultPomodoroSettings
    case Some(LegacySettings(focus, shortBreak, autoStart)) =>
      PomodoroSettings(focus, shortBreak, autoStart, false)
    case Some(CurrentSettings(focus, breakDuration, autoStart, notifications)) =>
      PomodoroSettings(focus, breakDuration, autoStart, notifications.GetOr(permissionGranted))
  }

  /** The four default widgets in default order, each replaced by the first
      saved entry with its identifier when there is one. */
  function LoadWidgets(stored: Option<seq<WidgetConfig>>): (r: seq<WidgetConfig>)
    ensures |r| == |DefaultWidgets|
    ensures forall i :: 0 <= i < |r| ==> r[i].id == DefaultWidgets[i].id
    ensures forall i, j :: 0 <= i < |r| && stored.Some? && FirstWithId(stored.value, DefaultWidgets[i].id, j) ==>
      r[i] == stored.value[j]
    ensures forall i :: 0 <= i < |r| && (stored.None? || AbsentId(stored.value, DefaultWidgets[i].id)) ==>
      r[i] == DefaultWidgets[i]
  {
    seq(|DefaultWidgets|, i requires 0 <= i < |DefaultWidgets| =>
      var d := DefaultWidgets[i];
      if stored.None? then d else FindWidget(stored.value, d.id).GetOr(d))
  }

  /** The store's initial state: nothing saved (or unparseable) gives the
      defaults; otherwise saved parts override the defaults, the settings are
      migrated and the widget list is normalised. */
  function LoadWidgetState(stored: Option<StoredState>, permissionGranted: bool): (r: WidgetState)
    ensures stored.None? ==> r == DefaultState
    ensures stored.Some? ==>
      && r.location == stored.value.location.GetOr(DefaultLocation)
      && r.worldClocks == stored.value.worldClocks.GetOr(DefaultWorldClocks)
      && r.pomodoroSettings == MigrateSettings(stored.value.pomodoroSettings, permissionGranted)
      && r.widgets == LoadWidgets(stored.value.widgets)
  {
    match stored
    case None => DefaultState
    case Some(parsed) =>
      WidgetState(
        LoadWidgets(parsed.widgets),
        parsed.location.GetOr(DefaultLocation),
        parsed.worldClocks.GetOr(DefaultWorldClocks),
        MigrateSettings(parsed.pomodoroSettings, permissionGranted))
  }

  /** Saving the current state and loading it again gives it back when its
      widget list is the four default widgets, in default order. */
  lemma LoadSavedState(state: WidgetState, permissionGranted: bool)
    requires |state.widgets| == |DefaultWidgets|
    requires forall i :: 0 <= i < |state.widgets| ==> state.widgets[i].id == DefaultWidgets[i].id
    ensures LoadWidgetState(Some(Saved(state)), permissionGranted) == state
  {
    var loaded := LoadWidgets(Some(state.widgets));
    forall i | 0 <= i < |loaded| ensures loaded[i] == state.widgets[i] {
      assert FirstWithId(state.widgets, DefaultWidgets[i].id, i);
    }
    assert loaded == state.widgets;
  }

  /** What the save effect writes. */
  function Saved(state: WidgetState): (stored: StoredState)
    ensures stored.widgets == Some(state.widgets) && stored.location == Some(state.location)
    ensures stored.worldClocks == Some(state.worldClocks)
    ensures stored.pomodoroSettings ==
      Some(CurrentSettings(state.pomodoroSettings.focusDuration, state.pomodoroSettings.breakDuration,
                           state.pomodoroSettings.autoStartBreaks, Some(state.pomodoroSettings.notificationsEnabled)))
    ensures MigrateSettings(stored.pomodoroSettings, true) == state.pomodoroSettings
    ensures MigrateSettings(stored.pomodoroSettings, false) == state.pomodoroSettings
  {
    var p := state.pomodoroSettings;
    StoredState(Some(state.widgets), Some(state.location), Some(state.worldClocks),
                Some(CurrentSettings(p.focusDuration, p.breakDuration, p.autoStartBreaks, Some(p.notificationsEnabled))))
  }
}
