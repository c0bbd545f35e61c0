# rkarthik-dashboard core, modelled in Dafny

This project models the logic core of a personal browser dashboard. The
dashboard has:

- a focus/break timer (pomodoro);
- a store for widget layout, location, world clocks and timer settings;
- a city database with search and grouping by region;
- the rule that names a home city by a three-letter code;
- the mapping of weather-service conditions onto the conditions the widgets
  draw.

Each part is specified by contracts and lemmas that Dafny proves.

| file | module | models |
|---|---|---|
| `wrappers.dfy` | `Wrappers` | `Option`, standing in for `null`/`undefined` |
| `seqs.dfy` | `Seqs` | `Array.prototype.filter` and `slice(0, n)`, with the subsequence relation |
| `text.dfy` | `Text` | `trim`, `toLowerCase`/`toUpperCase`, `includes`, `toString`, `padStart` |
| `pomodoro.dfy` | `Pomodoro` | `src/hooks/usePomodoro.ts` |
| `widget_store.dfy` | `WidgetStore` | `src/context/WidgetContext.tsx` |
| `cities.dfy` | `Cities` | `src/data/cities.ts` |
| `home_group.dfy` | `HomeGroup` | `getCityCode`, `capitalizeFirst` and the hour rule in `src/components/widgets/HomeGroupWidget.tsx` |
| `weather.dfy` | `Weather` | `mapCondition` in `src/hooks/useWeather.ts` |

**Timer.** The timer is a class, `Pomodoro.Timer`. Its fields are:

- the state cell (phase, status, seconds remaining, completed focus sessions,
  task label);
- the settings;
- the session's recent-task list;
- a log of the phases passed to the completion callback.

Its methods are the hook's operations: `start`, `pause`, `reset`, `skip`,
`setTaskName`, the one-second tick and a settings change. Each one builds the
next record with a pure function of the previous record, as the hook's
`setState` updaters do.

The completion check is an effect whose dependencies are the remaining time,
the status and the completion handler. React runs it again only after a
render in which one of them changed. It acts when the timer is running at or
below zero. It is the loop `Timer.Settle`, which each method that can start
or end a phase runs afterwards. Each method passes in whether its own update
changed a dependency, and the loop fires again only when a firing changed
the remaining time or the status. The loop is proved against the recursive
functions `Settled`, `FiredPhases` and `RecentAfterSettling`. The lemmas
about the timer are stated on those functions.

**Store.** The store's operations are functions from the previous state to
the next, as the React updaters are. The loader normalises a saved value that
may be missing some parts.

**Cities.** `getCitiesByRegion` fills a dictionary bucket by bucket, so it is
a `method` with a loop. Its invariant states that it equals a filter per
region.

**City codes.** The fallback chain of `getCityCode` is a pure function over
its two tables. The tables are sequences, in insertion order, because the
substring search walks `Object.entries` in that order.

## Model

| member | source | states |
|---|---|---|
| Pomodoro.DurationForPhase | src/hooks/usePomodoro.ts:176-186 | focus takes the focus duration, break the break duration |
| Pomodoro.NextPhase | src/hooks/usePomodoro.ts:188-197 | the next phase always differs from the current one |
| Pomodoro.NextPhaseAlternates | src/hooks/usePomodoro.ts:188-197 | alternation has period two: focus, break, focus |
| Pomodoro.InitialState | src/hooks/usePomodoro.ts:74-82 | a fresh timer is focus, idle, at the focus duration in seconds, with count 0 and an empty label |
| Pomodoro.RecordRecentTask | src/hooks/usePomodoro.ts:40-56 | a blank label changes nothing; otherwise the label is first and appears once, the list has 1 to 10 entries, the rest are the earlier entries without the label, in their order, cut to 9, and an entry drops out only when the list is full |
| Pomodoro.LabelThenOthers | src/hooks/usePomodoro.ts:47-54 | filter, then unshift, then slice: the label first and once, then the other entries in order, subsequence of the old list |
| Pomodoro.CappedFront | src/hooks/usePomodoro.ts:51-54 | putting a new label in front and cutting to ten keeps it once and keeps the first nine others |
| Pomodoro.RecordRecentTaskIdempotent | src/hooks/usePomodoro.ts:40-56 | recording the same label twice gives the same list as recording it once |
| Pomodoro.PhaseCompleted | src/hooks/usePomodoro.ts:199-227 | the count grows by one exactly after focus; the phase alternates; remaining time is the next phase's duration × 60; running iff focus was completed with auto-start on, else completed; the label is cleared exactly after focus |
| Pomodoro.FullCycleCountsOnce | src/hooks/usePomodoro.ts:201-207 | two completions in a row return to the same phase with exactly one more session counted |
| Pomodoro.RecentAfterCompletion | src/hooks/usePomodoro.ts:209-212 | a break or a blank label leaves the list; a focus completion records its label as `saveRecentTask` does (`RecordRecentTask`: first and once, the others in order, at most ten) |
| Pomodoro.Ticked | src/hooks/usePomodoro.ts:233-238 | one second less when time is left, otherwise unchanged; no other field changes; it never goes below zero from a non-negative value |
| Pomodoro.StartedState | src/hooks/usePomodoro.ts:261-272 | from any status (completed included) the timer runs, and nothing else changes, the phase included |
| Pomodoro.PausedState | src/hooks/usePomodoro.ts:274-276 | from any status the timer is paused, and nothing else changes |
| Pomodoro.PauseIdempotent | src/hooks/usePomodoro.ts:274-276 | pausing twice is pausing once |
| Pomodoro.ResetState | src/hooks/usePomodoro.ts:278-285 | idle at the current phase's full duration; phase, count and label unchanged |
| Pomodoro.WithTaskName | src/hooks/usePomodoro.ts:291-293 | only the label changes |
| Pomodoro.Resynced | src/hooks/usePomodoro.ts:168-174 | an idle timer is reset to the current duration; any other status keeps its remaining time |
| Pomodoro.RecentAfterSettling | src/hooks/usePomodoro.ts:209-212 | the recent list changes only if the check runs, and settling an expired focus records it as one completion does |
| Pomodoro.AwaitingCompletion | src/hooks/usePomodoro.ts:256 | the check acts on a record that is running with at most zero seconds left |
| Pomodoro.DepsChanged | src/hooks/usePomodoro.ts:227-259 | the check re-runs after a render that changed the remaining time or the status; its handler changes only with the settings (its other inputs are stable), which `Timer.ChangeSettings` covers |
| Pomodoro.CompletionReducesPending | src/hooks/usePomodoro.ts:254-259 | each firing of the completion check lowers the bound on further firings, so the check stops |
| Pomodoro.Settled | src/hooks/usePomodoro.ts:254-259 | nothing changes unless the render ran the check on an expired running record; the result still awaits completion only if the check did not run, or if its single firing left the remaining time and status unchanged |
| Pomodoro.FiredPhases | src/hooks/usePomodoro.ts:254-259 | the callback fires iff the render runs the check on an expired running record; it fires first with the current phase, at most twice, and twice only as focus then break |
| Pomodoro.SettleStep | src/hooks/usePomodoro.ts:254-259 | one firing, followed by a re-run only if it changed a dependency, leaves the settled record, the settled recent list and the callback log's final value unchanged |
| Pomodoro.SettledCount | src/hooks/usePomodoro.ts:201-204 | settling adds to the count exactly the number of focus phases it reported |
| Pomodoro.UnchangedDependenciesFireOnce | src/hooks/usePomodoro.ts:229-259 | a focus that auto-starts a break as long as the time it expired at fires once and stays expired and running; ticks do not wake it, a pause and a start complete the break |
| Pomodoro.ZeroBreakAfterTick | src/hooks/usePomodoro.ts:229-259 | with a zero-length auto-started break, ticking a focus from 1 to 0 fires once and stops in a running break at 0 |
| Pomodoro.SingleCompletionWithPositiveDurations | src/hooks/usePomodoro.ts:217-225 | with durations of at least a minute, one expiry completes exactly one phase |
| Pomodoro.ElapsedSeconds | src/hooks/usePomodoro.ts:103-104 | the whole seconds elapsed, rounded down, bracket the millisecond difference |
| Pomodoro.MigratePhase | src/hooks/usePomodoro.ts:97-101 | the retired short- and long-break names become break; only focus stays focus |
| Pomodoro.StoredPhaseOf | src/hooks/usePomodoro.ts:152-161 | the saved phase name migrates back to the same phase |
| Pomodoro.Reconcile | src/hooks/usePomodoro.ts:103-126 | a running record loses the elapsed seconds and, when no time is left, is completed at 0 in the same phase with the same count; other statuses come back as they were |
| Pomodoro.LoadPersistedState | src/hooks/usePomodoro.ts:84-131 | no record, or one that cannot be parsed, gives the initial state; otherwise the reconciled record |
| Pomodoro.Persist | src/hooks/usePomodoro.ts:152-161 | the persisted record is the state plus the save time |
| Pomodoro.LoadSaveRoundTrip | src/hooks/usePomodoro.ts:103-161 | loading at the instant of saving gives the state back exactly when the state does not trigger the completion check; otherwise it comes back completed at 0 |
| Pomodoro.ReconcileExamples | src/hooks/usePomodoro.ts:103-123 | 120 s left and reloaded 90 s later: running with 30 s; reloaded 150 s later: completed at 0 with the old count |
| Pomodoro.ExpiredReloadDefersCount | src/hooks/usePomodoro.ts:110-117 | an expired reload shows the phase completed at 0 with the old count; the next start completes it at once and counts a focus session then |
| Pomodoro.SettlingFromBreak | src/hooks/usePomodoro.ts:199-227 | settling a break keeps the label, the count and the recent list |
| Pomodoro.NaturalExpiryRecordsTask | src/hooks/usePomodoro.ts:209-212 | a labelled focus session that ticks to zero is counted once, clears the label and heads the recent list |
| Pomodoro.RemainingStaysNonNegative | src/hooks/usePomodoro.ts:217-285 | with non-negative durations, no transition makes the remaining time negative |
| Pomodoro.FormattedTime | src/hooks/usePomodoro.ts:296-298 | the text has at least five characters and begins with a minus iff the time is negative |
| Pomodoro.JsRemainder | src/hooks/usePomodoro.ts:298 | JavaScript `%`: smaller than the divisor in magnitude, a multiple of the divisor away from the dividend, and of the dividend's sign, which determines it uniquely |
| Pomodoro.FormattedTimeReadsBack | src/hooks/usePomodoro.ts:296-298 | for t ≥ 0 the text is decimal digits, ':' and two decimal digits below 60 that read back as t; below 6000 s it is exactly five characters |
| Pomodoro.FormattedHalves | src/hooks/usePomodoro.ts:296-298 | for t ≥ 0 both halves are decimal digits only, so without a sign: the minutes in at least two, the seconds in exactly two, worth t / 60 and t % 60 |
| Pomodoro.Timer.Mount | src/hooks/usePomodoro.ts:137-174 | the hook loads the stored record, and the settings effect then resyncs an idle timer; the result never awaits completion |
| Pomodoro.Timer.HandlePhaseComplete | src/hooks/usePomodoro.ts:199-227 | the new record is `PhaseCompleted`, the recent list is `RecentAfterCompletion`, and the callback log gains the completed phase |
| Pomodoro.Timer.Settle | src/hooks/usePomodoro.ts:254-259 | the loop fires while the last render changed a dependency and the timer is expired and running, and ends with the state, the recent list and the callback log that `Settled`, `RecentAfterSettling` and `FiredPhases` give |
| Pomodoro.Timer.Start | src/hooks/usePomodoro.ts:261-272 | start then settle, the check running only if the status was not already running: a completed timer at 0 completes its phase at once, and an expired running one is left alone |
| Pomodoro.Timer.Pause | src/hooks/usePomodoro.ts:274-276 | the state becomes `PausedState`; the lists and settings are untouched |
| Pomodoro.Timer.Reset | src/hooks/usePomodoro.ts:278-285 | the state becomes `ResetState`; the lists and settings are untouched |
| Pomodoro.Timer.Skip | src/hooks/usePomodoro.ts:287-289 | from any status the phase completes, then settles if that changed the remaining time or the status |
| Pomodoro.Timer.SetTaskName | src/hooks/usePomodoro.ts:291-293 | only the label changes, which is no dependency of the check |
| Pomodoro.Timer.Tick | src/hooks/usePomodoro.ts:229-259 | one second of a running timer, then the check only if a second was taken off; a tick at or below zero changes nothing |
| Pomodoro.Timer.ChangeSettings | src/hooks/usePomodoro.ts:168-174 | new settings; an idle timer is resynced and the rest is kept; the new completion handler runs the check again |
| Text.TrimStart | src/hooks/usePomodoro.ts:41 | the result is a suffix of the input, every removed character is whitespace, and it does not start with whitespace |
| Text.TrimEnd | src/hooks/usePomodoro.ts:41 | the result is a prefix of the input, every removed character is whitespace, and it does not end with whitespace |
| Text.Trim | src/hooks/usePomodoro.ts:41 | `trim` gives the slice of the input that remains once the whitespace at both ends is removed, so neither end of it is whitespace |
| Text.IsBlank | src/hooks/usePomodoro.ts:41 | `!s.trim()` holds iff every character is ECMAScript whitespace, so "" is blank |
| Text.NatToString | src/hooks/usePomodoro.ts:296-298 | decimal digits only, with no leading zero except for 0 itself; one digit below 10, two from 10 to 99, at least two from 10 on |
| Text.PadStart | src/hooks/usePomodoro.ts:296-298 | padded to the width with the fill on the left, the input kept as the suffix; zero-padding digits gives digits |
| Text.ParseNatToString | src/hooks/usePomodoro.ts:296-298 | the printed digits read back as the number |
| Text.LeadingZeros | src/hooks/usePomodoro.ts:296-298 | leading zeros do not change the value read |
| Text.PaddedNatValue | src/hooks/usePomodoro.ts:296-298 | a zero-padded number reads back as the number |
| Text.LowerChar | src/data/cities.ts:139-145 | lowercasing maps A–Z to a–z and the Latin-1 capitals À–Þ (but ×) to their small letters, and leaves digits, small letters, ß and × alone |
| Text.UpperChar | src/components/widgets/HomeGroupWidget.tsx:236-240 | uppercasing maps a–z to A–Z, the Latin-1 small letters à–þ (but ÷) to their capitals, ÿ to Ÿ and µ to Μ, and leaves digits, capitals, ß and ÷ alone |
| Text.Lower | src/data/cities.ts:139-145 | lowercasing is character by character and keeps the length |
| Text.Upper | src/components/widgets/HomeGroupWidget.tsx:236 | uppercasing is character by character and keeps the length |
| Text.LowerIdempotent | src/data/cities.ts:139-145 | lowercasing twice is lowercasing once |
| Text.ContainsAt | src/data/cities.ts:142-145 | `includes` holds iff the needle occurs at some position |
| Text.Contains | src/components/widgets/HomeGroupWidget.tsx:225 | `includes` holds for a prefix and never for a needle longer than the haystack |
| Text.IntToString | src/hooks/usePomodoro.ts:296-298 | a leading minus exactly for a negative number, then decimal digits without a leading zero that read back as its magnitude; at least two characters iff negative or at least 10 |
| Seqs.Filter | src/hooks/usePomodoro.ts:48 | `filter` never lengthens the list; its members and counts are `FilterMembers` and `FilterCounts` |
| Seqs.FilterMembers | src/data/cities.ts:140-146 | the filtered list holds exactly the elements that pass |
| Seqs.FilterCounts | src/context/WidgetContext.tsx:277 | each passing element keeps its number of occurrences, the others drop to zero |
| Seqs.FilterIsSubsequence | src/hooks/usePomodoro.ts:48 | filtering keeps the survivors in their relative order |
| Seqs.Take | src/hooks/usePomodoro.ts:54 | `slice(0, n)` is a prefix of length min(n, length) |
| Seqs.FilterSnoc | src/data/cities.ts:128-133 | filtering a list with one more element at the end adds that element iff it passes |
| WidgetStore.FindWidget | src/context/WidgetContext.tsx:186-188 | `find` gives nothing iff no entry has the id, and otherwise the first entry that has it |
| WidgetStore.ToggleWidget | src/context/WidgetContext.tsx:215-222 | same length, ids and orders; visibility flips exactly on entries with the id; the rest of the state is unchanged |
| WidgetStore.ToggleTwice | src/context/WidgetContext.tsx:215-222 | toggling twice restores the state |
| WidgetStore.ReorderWidgets | src/context/WidgetContext.tsx:224-226 | the given list replaces the widgets and nothing else changes |
| WidgetStore.IsWidgetVisible | src/context/WidgetContext.tsx:303-308 | the first matching entry's flag, and visible when there is no entry |
| WidgetStore.SetAutoLocation | src/context/WidgetContext.tsx:228-242 | mode auto with the given coordinates and resolved name and zone; no manual location; nothing else changes |
| WidgetStore.SetManualLocation | src/context/WidgetContext.tsx:244-255 | mode manual with the given city; coordinates and both resolved fields cleared; nothing else changes |
| WidgetStore.ClearLocation | src/context/WidgetContext.tsx:257-262 | back to the pending default; nothing else changes |
| WidgetStore.ClearUndoesLocation | src/context/WidgetContext.tsx:228-262 | clearing after either kind of location gives the same as clearing, which is the loader's default location |
| WidgetStore.AddWorldClock | src/context/WidgetContext.tsx:264-272 | exactly one clock more, at the end, with the given fields and id; the earlier clocks and the rest of the state are kept |
| WidgetStore.RemoveWorldClock | src/context/WidgetContext.tsx:274-279 | the clocks with the id are gone, every other clock keeps its number of occurrences and its order, and nothing else changes |
| WidgetStore.RemoveUndoesAdd | src/context/WidgetContext.tsx:264-279 | removing a clock just added under a fresh id restores the state |
| WidgetStore.MergeClock | src/context/WidgetContext.tsx:285-287 | each supplied field overrides the clock's and the others stay |
| WidgetStore.UpdateWorldClock | src/context/WidgetContext.tsx:281-291 | clocks with the id are merged with the patch, the others are untouched, in place |
| WidgetStore.UpdateWorldClockNoop | src/context/WidgetContext.tsx:281-291 | an empty patch, or an id no clock has, changes nothing |
| WidgetStore.UpdatePomodoroSettings | src/context/WidgetContext.tsx:293-301 | supplied fields overwrite and the others stay; nothing else changes |
| WidgetStore.UpdatePomodoroSettingsIdempotent | src/context/WidgetContext.tsx:293-301 | applying the same patch twice is applying it once |
| WidgetStore.OpenSettings | src/context/WidgetContext.tsx:310-316 | the dialog opens on the tab (default widgets); the city sub-tab (default home) changes only for the cities tab |
| WidgetStore.MigrateSettings | src/context/WidgetContext.tsx:160-178 | missing settings are the defaults; legacy settings take the short break as the break with notifications off; a missing notification flag takes the permission |
| WidgetStore.LoadWidgets | src/context/WidgetContext.tsx:184-190 | always the four default ids in default order, each the first saved entry with that id, or else the default entry |
| WidgetStore.LoadWidgetState | src/context/WidgetContext.tsx:147-196 | nothing saved gives the default state; otherwise saved parts override the defaults, the settings are migrated and the widgets normalised |
| WidgetStore.Saved | src/context/WidgetContext.tsx:208-213 | the save effect writes the widgets, location and clocks as they are, and the timer settings in the current format with their values and the notification flag, so the settings migrate back to themselves under either permission |
| WidgetStore.LoadSavedState | src/context/WidgetContext.tsx:147-213 | loading what was saved gives the state back when its widgets are the four defaults in order |
| Cities.CitiesIn | src/data/cities.ts:13-124 | a region's block is its entries, in order, each with its own name, code, country, country code and zone and with that region |
| Cities.RegionOrderDistinct | src/data/cities.ts:150-160 | no region is listed twice |
| Cities.RegionOrderCoversCities | src/data/cities.ts:13-160 | every city's region is in `REGION_ORDER`, and each listed region is distinct |
| Cities.GroupByRegion | src/data/cities.ts:127-135 | the keys are exactly the regions that occur, and each bucket is that region's cities in list order |
| Cities.GroupStep | src/data/cities.ts:128-133 | appending a city to its bucket, created empty when missing, keeps the grouping invariant |
| Cities.GroupNext | src/data/cities.ts:128-133 | the same step at position i of the list |
| Cities.RegionsOfSnoc | src/data/cities.ts:129-131 | one more city adds its region to the set of regions |
| Cities.GetCitiesByRegion | src/data/cities.ts:127-135 | the grouping of `CITIES` |
| Cities.OccursOnce | src/data/cities.ts:150-160 | a listed region occurs once in a list without duplicates |
| Cities.BucketSizesOfCons | src/data/cities.ts:128-133 | removing the first city shrinks exactly its region's bucket, by one |
| Cities.BucketSizesPartition | src/data/cities.ts:127-135 | over distinct regions that cover every city, the bucket sizes add up to the number of cities |
| Cities.GroupingPartitions | src/data/cities.ts:127-135 | every city is in its own region's bucket and in no other; buckets keep list order; every key is a listed region; sizes add up to the number of cities |
| Cities.CitiesByRegionPartition | src/data/cities.ts:127-160 | for `CITIES`, every bucket is a region of `REGION_ORDER`, and the bucket sizes over `REGION_ORDER` add up to the size of `CITIES` |
| Cities.SearchIn | src/data/cities.ts:138-147 | a city is in the result iff its lowercased name, code, country or zone contains the lowercased query; counts are kept; list order is kept |
| Cities.SearchEmptyQuery | src/data/cities.ts:138-147 | the empty query returns the whole list |
| Cities.SearchIgnoresQueryCase | src/data/cities.ts:139 | lowercasing the query first changes nothing |
| Cities.SearchFindsOwnFields | src/data/cities.ts:142-145 | searching for a listed city's name, code, country or zone finds that city |
| HomeGroup.Lookup | src/components/widgets/HomeGroupWidget.tsx:218-219 | a table lookup finds nothing iff no entry has the key, and otherwise returns the first such entry's code |
| HomeGroup.FirstContained | src/components/widgets/HomeGroupWidget.tsx:223-228 | the loop finds nothing iff no known name occurs; otherwise the code of the first entry whose lowercased name occurs |
| HomeGroup.ContainedInTail | src/components/widgets/HomeGroupWidget.tsx:224-227 | when the first entry does not match, the search continues on the rest |
| HomeGroup.CodeFrom | src/components/widgets/HomeGroupWidget.tsx:168-237 | an exact name decides first, then the first contained name, then the time zone, and else the first three characters uppercased, of length min(3, \|city\|) |
| HomeGroup.ExactNameBeatsTimezone | src/components/widgets/HomeGroupWidget.tsx:189-220 | "Mumbai" is BOM whatever the zone, while Asia/Kolkata alone would give MAA |
| HomeGroup.KolkataZone | src/components/widgets/HomeGroupWidget.tsx:212 | the zone table maps Asia/Kolkata to MAA |
| HomeGroup.SuburbTakesCityCode | src/components/widgets/HomeGroupWidget.tsx:222-228 | "South Melbourne" is MEL by containment; the zone is irrelevant |
| HomeGroup.KnownNamesAreLong | src/components/widgets/HomeGroupWidget.tsx:170-195 | every known city name has at least five characters |
| HomeGroup.ShortNamesMatchNoCity | src/components/widgets/HomeGroupWidget.tsx:217-228 | a name under five characters matches no city, exactly or by containment |
| HomeGroup.ShortNamesFallBack | src/components/widgets/HomeGroupWidget.tsx:230-236 | such a name is coded by its zone when the zone table has it, else by its first letters uppercased |
| HomeGroup.SuburbByTimezone | src/components/widgets/HomeGroupWidget.tsx:231-232 | "Kew" in Australia/Melbourne is MEL |
| HomeGroup.ShortNameWithoutTimezone | src/components/widgets/HomeGroupWidget.tsx:235-236 | "Kew" without a zone is KEW |
| HomeGroup.KewUppercased | src/components/widgets/HomeGroupWidget.tsx:236 | the first three letters of "Kew", uppercased, are KEW |
| HomeGroup.EmptyNameWithoutTimezone | src/components/widgets/HomeGroupWidget.tsx:235-236 | the empty name without a zone has the empty code |
| HomeGroup.CapitalizeFirst | src/components/widgets/HomeGroupWidget.tsx:239-241 | same length; the first character uppercased and the rest unchanged; "" stays "" |
| HomeGroup.CapitalizeFirstIdempotent | src/components/widgets/HomeGroupWidget.tsx:239-241 | capitalising twice is capitalising once |
| HomeGroup.IsDaytime | src/components/widgets/HomeGroupWidget.tsx:22-23 | day iff the hour parsed and 6 ≤ hour < 18 |
| Weather.ConditionMap | src/hooks/useWeather.ts:45-61 | the table has exactly the fifteen condition names |
| Weather.MapCondition | src/hooks/useWeather.ts:43-64 | for each drawn condition, the names that give it: rain from rain, drizzle or squall; thunderstorm from thunderstorm or tornado; fog from seven names; overcast iff clouds with an icon containing "04"; clouds for clouds otherwise and for every unknown name |
| Weather.IconMattersOnlyForClouds | src/hooks/useWeather.ts:47 | the icon changes the result only for clouds |
| Weather.CloudIcons | src/hooks/useWeather.ts:47 | icon 04d gives overcast and 03d gives clouds |

## Boundaries of the model

These are the things the model receives from outside, and how:

- **Clock.** `Date.now()` is the parameter `now`, in milliseconds.
- **Storage and JSON.** `localStorage` and `sessionStorage` are optional
  records. A value that is absent, or one that `JSON.parse` rejects, is
  `None`.
- **Recent tasks.** The list `getRecentTasks` reads is the `Timer`'s
  `recentTasks` field. The constructor `Mount` receives it.
- **Clock ids.** `addWorldClock`'s `Date.now().toString()` is the parameter
  `id`.
- **Hour.** `isDaytime` reads the hour through `Intl.DateTimeFormat` and
  `parseInt`. That hour is the argument of `IsDaytime`, and `None` stands for
  `NaN`.
- **Notification permission.** The loader's `Notification.permission ===
  'granted'` test is the argument `permissionGranted`.
- **Completion callback.** It receives only the phase. Each call is appended
  to the `completions` log.
- **Time zone.** `getCityCode`'s time zone is `Option<string>`. Here `null`,
  `undefined` and `""` behave the same, since `""` is not a key of the zone
  table.

Behaviour of the code that its comments or a natural reading do not
suggest, which the model keeps as the code has it:

- `pause` and `skip` act from every status.
- `start` does not change the phase, although its comment speaks of a reset
  to focus.
- A record that expired while the page was closed comes back completed in the
  same phase, and so its count is deferred to the next `start`. It is not
  lost.
- A focus that expires while running can auto-start a break whose length in
  seconds equals the time the focus expired at, for example a zero-length
  break after a natural expiry. Then neither the remaining time nor the
  status changes, so the check does not run again. A tick at zero returns the
  record itself. So the break stays running at zero until a pause and a start
  (`UnchangedDependenciesFireOnce`, `ZeroBreakAfterTick`).
- The remaining time is not kept at or below the current duration. Settings
  changed while paused or running leave the in-flight remaining time as it
  was (`Resynced`). So there is no invariant "remaining ≤ duration × 60".

## Left out

- **React plumbing.** Not modelled: render scheduling, the double hydration,
  the `useRef` callback holder and the interval's set-up and tear-down. A tick
  is the call `Timer.Tick`, and effects run to completion after each
  operation. Whether an effect runs again is decided by whether its
  dependencies changed.
- **`progress`.** It is a floating-point percentage and is not modelled.
- **Notifications, audio, weather fetching, geolocation, Intl-based
  formatting, drag reordering and purely presentational components.** They
  are browser or network I/O, or libraries outside this model.
- **Extra keys.** A stored value's extra keys and wrongly typed fields are
  not modelled. Saved values have the shapes of `StoredState` and
  `PersistedRecord`. Legacy settings are one constructor, recognised by their
  `shortBreakDuration`.
- **Object-table lookups on inherited keys.** Looking up `cityCodes`,
  `timezoneCodes` or `conditionMap` under a name such as `"constructor"`
  finds an inherited property in JavaScript. The tables here have only their
  own entries. The same holds for `getCitiesByRegion`'s accumulator object:
  `Cities.GroupByRegion` uses a map, whereas in JavaScript a region named like
  an `Object.prototype` key would find an inherited value and `push` would
  fail. No region in `CITIES` has such a name.
- **Strings.** They are sequences of Unicode scalar values, not UTF-16 code
  units. A `substring(0, 3)` that would split a surrogate pair is not
  modelled.
- **Text.LowerChar / Text.UpperChar.** These map case for ASCII and Latin-1
  only, one character each. JavaScript maps the whole of Unicode and can
  change the length (`"ß".toUpperCase()` is `"SS"`). So
  `HomeGroup.CodeFrom`'s length claim of min(3, |city|) holds for this
  per-character mapping.
- **Pomodoro.RemainingStaysNonNegative.** It assumes durations of at least
  zero. The settings form replaces 0 and unparseable input by the default,
  25 or 5, but keeps a negative number, and a zero can arrive from settings
  stored earlier.
- **Pomodoro.FormattedTimeReadsBack.** It covers non-negative times only.
  Negative times are formatted by `FormattedTime` with JavaScript's sign
  rules but not read back.
- **Cities.SearchCities and HomeGroup.GetCityCode.** They only apply the
  generic `Cities.SearchIn` and `HomeGroup.CodeFrom` to the source's
  constant tables, so their properties are stated on those members.
  `Cities.GetCitiesByRegion` likewise runs `Cities.GroupByRegion` on
  `CITIES`.
