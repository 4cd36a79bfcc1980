# Verified models of go-monitoring

This project models the parts of the monitoring agent whose correctness cannot be read off a single
function, and proves what they promise. `dafny verify dfyconfig.toml` checks all of it.

**History rollups** (`Congruence`, `History`, `HistoryRuns`, `Lineage`, `Consecutive`,
`Idempotence`, `HistoryStore`). A plugin's history table is a map from resolution and capture time
to a record. `HistoryStore.Store` holds one table per plugin and has the methods of the store:
snapshot writes, the window walk of a rollup step, the deletes, and a maintenance pass. Each method
is proved against `History`, which states one pass as a function. A *run* is any sequence of
snapshots and passes at any times from an empty table; the store carries its run as ghost state, so
what holds of every run holds of every state of a store. `History` is generic in the record: run on
*lineages* instead of payloads, a table records which rows each row was made of. That gives exact
fan-in, 48 consecutive ten-minute rows under a 480m row, at-most-once aggregation, spacing under any
clock, and bounds on work and storage. A maintenance pass turns out not to be idempotent in general:
`NotIdempotent` gives a run, `IdempotentExactlyWhenAnchored` the exact condition.

**Rolled values** (`Rounding`, `Averages`, `PluginHistory`, `RolledValues`, `RolledCounters`). The
averaging loop over all measurements, and what nesting it three times does to a value: error bounds
for rounded and for truncated averages, and exact peaks at every level. Reals stand for floating
point numbers.

**SMART reconciliation** (`Text`, `DeviceMerge`, `ConfiguredDevices`, `SmartDevices`,
`SmartManager`). The three-way merge of known, scanned and configured devices, on heap objects that
are copied and changed through pointers, refines a merge on values; the scan pipeline then filters
excluded devices and prunes data.

**Rates and averages** (`GpuAverages`, `GpuReadings`, `DeltaTracking`, `Network`, `NetworkRuns`).
Accumulators with one remembered snapshot per cache key, network rates in 64-bit arithmetic with a
plausibility threshold, conservation over runs under any mix of cache keys, and exactly when keys
interfere: an implausible rate under one network key clears all keys (`InStepExactlyWhen`), and GPU
keys share their last averages while a GPU is idle (`KeysInterfereExactlyWhen`). **Collector
selection** (`CollectorSelection`) covers one collector per vendor group along the whole chain of
nvtop failures.

**Journald** (`JournaldNames`, `FieldSpelling`, `JournaldHandler`, `JournaldRecords`,
`JournaldWire`). Attributes are flattened along a group path that lives in a growable slice whose
backing array siblings share, then set into a field list with an index map, then framed.
`JournaldWire` also holds a reader written from the "Data Format" section of systemd's Native
Journal Protocol. **Listener flags** (`ListenerFlags`, `ListenerSpecs`) are parsed and printed back.

Each method is proved against a specification function, and what that function means is then said
again without it, in plain numbers, names and positions: the lemmas ending in `ExactlyWhen` and
`InNumbers`, and the modules `ConfiguredDevices`, `GpuReadings`, `FieldSpelling`, `JournaldRecords`
and `ListenerSpecs`.

Retention periods and rollup steps follow `internal/store/store.go:41-61`. The sample response in
the repository's `README.md:320-325` shows other retention periods (24h, 7d and 30d where the code
has 12h, 24h and 7d, and none for 480m); the code is followed. A handler's attributes that were
added before `WithGroup` are grouped as well, because the code keeps one group list for all
attributes; the model follows it (`HandlerGroupWrapsEverything`).

## Model

| member | source | states |
|---|---|---|
| History.StartCursorIsLeast | internal/store/rollups.go:52-67 | The skip past deleted sources lands on the least point of the old cursor's grid that is newer than now minus the source retention, and never moves backwards. |
| History.SkippedRowsAreExpired | internal/store/rollups.go:63-67 | Every source row inside a skipped window is at least one source retention old. |
| History.CursorsTile | internal/store/rollups.go:69-70 | The half-open windows examined in one run cover an interval without gap or overlap (each time lies in the window of exactly one cursor), and its end is less than one window before now. |
| History.NoRowIsPassedOver | internal/store/rollups.go:52-70 | With a row to chain on, every source row that is newer than it and not expired, up to the last cursor, lies in a window the walk examines, however late the pass comes. |
| History.EmptyLevelExaminesOneWindow | internal/store/rollups.go:54-61 | A level without rows has only the window ending now examined. |
| History.CursorsAreApart | internal/store/rollups.go:69 | Any two cursors of one walk differ by a whole positive number of windows. |
| History.Latest | internal/store/rollups.go:88-96 | The newest time of a level, absent exactly when the level is empty. |
| Lineage.LoadedParts | internal/store/rollups.go:98-119 | The rows loaded for a window have exactly the times stored inside it, in ascending order, and each is built with exact fan-in. |
| HistoryStore.Store.ApplyRollupStep | internal/store/rollups.go:48-86 | The imperative walk (anchor, skip, window loop, insert) turns the table into the closed form: the union of the old level and one aggregated row per cursor whose window holds enough rows; it examines exactly the cursors of that form. |
| HistoryStore.Store.DeleteOldHistory | internal/store/rollups.go:121-131 | Deleting level by level in any order leaves exactly the rows not older than each level's retention; other plugins are untouched. |
| HistoryRuns.SurvivesExactlyWhen | internal/store/store.go:41-47 | In milliseconds: a stored row survives a pass, unchanged, if and only if it is at most 3600000 (1m), 43200000 (10m), 86400000 (20m), 604800000 (120m) or 2592000000 (480m) old. |
| HistoryRuns.StepsInNumbers | internal/store/store.go:56-61 | The chain of levels, the windows of 10, 20, 120 and 480 minutes in milliseconds, and the least numbers of rows 9, 2, 6 and 4. |
| HistoryStore.Store.RollupPlugin | internal/store/rollups.go:38-46 | All four steps in order and then the deletes, as one function of the old table. |
| HistoryStore.Store.RunMaintenance | internal/store/rollups.go:15-36 | Every enabled plugin's table is maintained exactly once, every other table is unchanged, and the recorded runs grow by this pass. |
| HistoryStore.Store.InsertPluginHistory | internal/store/store.go:475-481 | An upsert on (resolution, time) of one plugin and nothing else. |
| HistoryStore.Store.WritePluginSnapshot | internal/store/store.go:450-462 | The current row is always replaced; a 1m history row is written if and only if history is enabled. |
| HistoryStore.Store.WritePluginRows | internal/store/store.go:416-430 | Every plugin that has a payload, except SMART, gets its snapshot; the recorded runs of the enabled ones grow by it and no other run does. |
| HistoryStore.Store.WriteSnapshot | internal/store/store.go:382-448 | No data is an error that changes nothing; otherwise the plugin rows, the host facts, the details if there are any, the summary and the time are stored. |
| HistoryStore.SnapshotFacts | internal/store/store.go:400-446 | The four facts kept beside the tables, the details only if there are any, and no other fact changes. |
| HistoryStore.RecordsOfDisks | internal/store/store.go:494-505 | One record per disk, under its disk name if it has one and under its key if not. |
| HistoryStore.Store.WriteSmartDevices | internal/store/store.go:483-528 | One record per disk, named by its disk name or else its key and in any order, replaces SMART's current row; its history grows by it if and only if it is enabled; the refresh time is kept. |
| HistoryStore.Store.SetHistoryPlugins | internal/store/store.go:854-858 | Exactly the given plugins are enabled. |
| HistoryStore.Store.HistoryPluginNames | internal/store/store.go:842-852 | Exactly the enabled plugins, each once and in canonical order. |
| HistoryStore.Store.constructor | internal/store/store.go:119-136 | A new store has empty tables and empty runs, so every state of a store is the result of a run. |
| HistoryStore.Store.Reopen | internal/store/store.go:119-136 | A store opened on the tables another one left behind continues their runs. |
| HistoryStore.EveryStateIsSpaced | internal/store/rollups.go:52-83 | In every state of a store the rows of each rolled level of each plugin lie whole windows apart, for any order of snapshots, maintenance and changes of the enabled plugins. |
| HistoryRuns.InsertNeverReplaces | internal/store/rollups.go:81-83 | For any table and any clock, the rows a step inserts are at times the level does not hold yet, so the upsert never replaces a rolled row. |
| HistoryRuns.SpacingHolds | internal/store/rollups.go:52-83 | Over every run with any clock, also one that jumps back, stored rows of one rolled resolution differ by a multiple of its window. |
| HistoryRuns.LogHolds | internal/store/rollups.go:52-83 | Over every run with a non-decreasing clock, the times a step ever inserts ascend by at least one window, even after retention emptied the level and it re-anchored; the stored ones are exactly the inserted ones within retention. |
| HistoryRuns.AggregatedAtMostOnce | internal/store/rollups.go:69-83 | Over every run with a non-decreasing clock, a source time falls into the window of at most one of all the rows a step ever inserted, deleted ones included. |
| HistoryRuns.LateRowsEndUpOnce | internal/store/rollups.go:52-83 | However late a pass of a run comes, a source row newer than its level's newest row and not expired, up to the last cursor, lies in one examined window; that window's row is inserted if and only if it holds enough rows, and no other insert of the whole run covers the source row. |
| HistoryRuns.WorkIsBounded | internal/store/rollups.go:65-69 | One step examines at most 6, 36, 12 and 21 windows, whatever the table and the clock are. |
| HistoryRuns.StorageIsBounded | internal/store/rollups.go:121-131 | After maintenance under a non-decreasing clock the rolled levels hold at most 73, 73, 85 and 91 rows. |
| Lineage.GridWindowIsFull | internal/store/store.go:56-61 | Pigeonhole: at least n points of one grid in a half-open window of n grid steps are exactly n, one step apart. |
| Lineage.LineagesAreExact | internal/store/rollups.go:69-83 | Over every run and any clock: each 20m row aggregates exactly two 10m rows, each 120m row exactly six 20m rows, each 480m row exactly four 120m rows, one source window apart and inside the row's window; each 10m row at least nine raw rows. |
| Lineage.RunEvaluatesLineages | internal/store/rollups.go:69-83 | The payload table of any run is the lineage table with every lineage evaluated by the aggregation, so what holds of lineages holds of stored payloads. |
| Consecutive.RunsAreLogged | internal/store/rollups.go:81-83 | Every rolled row inside a stored lineage was inserted by its own step at its own time, even if retention has deleted it since. |
| Consecutive.FortyEightConsecutive | internal/store/rollups.go:69-83 | After every run with a non-decreasing clock a stored 480m row stands for 4, 24 and exactly 48 consecutive rows at 120m, 20m and 10m, each level evenly spaced by its window. |
| Idempotence.IdempotentExactlyWhenQuiet | internal/store/rollups.go:38-86 | A second pass at the same time changes nothing if and only if, on the table the first pass left, every level is non-empty or its one window ending now holds too few source rows. |
| Idempotence.IdempotentExactlyWhenAnchored | internal/store/rollups.go:38-86 | The exact condition on the table before the first pass: maintenance is idempotent if and only if, for each step, the newest longer row is absent, is within its retention, gets a successor from the pass, or the window ending now holds too few source rows. |
| Idempotence.NotIdempotent | internal/store/rollups.go:52-83 | A run on a clock that never runs backwards after which a second pass at the same time inserts a row, for any record and aggregation. |
| Idempotence.DriftedIsReached | internal/store/rollups.go:38-86 | That run, event by event: nine snapshots, the pass that rolls them up, the pass that prunes them and nine later snapshots leave exactly the stated table. |
| Rounding.RoundingError | internal/utils/utils.go:29-31 | Rounding to two decimals moves a value by at most 0.005. |
| Rounding.GridIsFixed | internal/utils/utils.go:29-31 | The result is a multiple of one hundredth, and exactly those are fixed points. |
| Rounding.RoundedStaysBelowGrid | internal/utils/utils.go:29-31 | A rounded value never exceeds a two-decimal bound that the value does not exceed. |
| Averages.AverageSystemStats | internal/store/rollups.go:134-416 | The one-pass loop with running sums, wrapping 64-bit counters and running maxima computes the declarative average of all measurements, and keeps the last charge state. |
| PluginHistory.AggregatePluginHistory | internal/store/plugins.go:309-451 | No items is an error; numeric plugins average their own fields; all others keep the newest record. |
| PluginHistory.AveragedGauges | internal/store/plugins.go:314-447 | By name: which rounded measurements the rolled rows of each plugin average, and that they average no others. |
| PluginHistory.AveragedCounters | internal/store/plugins.go:314-447 | By name: which integer measurements the rolled rows of each plugin average. |
| PluginHistory.KeptPeaks | internal/store/rollups.go:197-208 | By name: the measurements whose largest value is kept. |
| PluginHistory.ExtractsWhatItFills | internal/store/plugins.go:309-475 | For every plugin the fields that its payload fills before averaging are exactly those it takes from the averaged record. |
| PluginHistory.PeaksAreFilled | internal/store/plugins.go:316-416 | A plugin that has a field for a measurement also fills the measurement's peak. |
| RolledValues.AverageError | internal/store/rollups.go:285-312 | One average is within half a hundredth of the mean of its items. |
| RolledValues.NestedAverageError | internal/store/rollups.go:285-312 | After every run, each averaged gauge of a stored row is within 0.005 (20m), 0.01 (120m) and 0.015 (480m) of the plain mean of the 2, 12 and 48 ten-minute values beneath it. |
| RolledValues.StoredIsOnGrid | internal/utils/utils.go:29-31 | Every stored rolled gauge is a two-decimal number, a core load a whole one. |
| RolledValues.TemperatureError | internal/store/rollups.go:326-330 | A stored temperature is within 0.005 of the mean over those sources that hold any temperature, and zero without such a source. |
| RolledValues.CoreLoadError | internal/store/rollups.go:365-371 | A stored core load is within 0.5 of the plain mean of its sources. |
| Rounding.HalvesMoveAway | internal/utils/utils.go:29-31 | Halves are rounded away from zero. |
| RolledValues.StoredValue | internal/store/rollups.go:69-83 | Every stored record is the value of a lineage of exact fan-in. |
| RolledValues.TenMinuteRowsAreAll | internal/store/rollups.go:69-83 | The 1, 2, 12 or 48 ten-minute rows beneath a row hold exactly the raw rows beneath it, in order. |
| RolledCounters.TruncationError | internal/store/rollups.go:303-312 | A truncated average loses at most n - 1 units of the sum of its n items if the sum fits into 64 bits, and at least 2^64 if it does not. |
| RolledCounters.NestedTruncation | internal/store/rollups.go:303-312 | After every run, a truncated average is never above the mean of its 2, 12 or 48 ten-minute values, and short of their total by at most 1, 16 or 100 units (so within 3 of the mean) if and only if no 64-bit sum overflowed on the way up. |
| RolledCounters.BandwidthNeverOverflows | internal/app/network.go:244-261 | For bandwidth of at most ten billion bytes per second no sum overflows, so the stored average is always within that bound. |
| RolledValues.PeaksAreExact | internal/store/rollups.go:197-208 | By induction over the levels: the peak of a rolled row is the maximum over all raw rows beneath it, and the rounded mean of the row does not exceed it. |
| RolledValues.NestedPeaks | internal/store/rollups.go:197-207 | After every run, for non-negative two-decimal raw values, the stored peak of a rolled row equals the largest raw value or raw peak beneath it, at every level. |
| RolledValues.NestedPeaksExactlyWhen | internal/store/rollups.go:197-207 | Without any assumption on the values: a stored peak is the largest of the raw values beneath it and the rounded means in between, so it is the raw maximum if and only if no such mean exceeds that; at 10m it always is. |
| RolledCounters.NestedCounterPeaks | internal/store/rollups.go:201-204 | The same for 64-bit counters with no assumption at all, overflowing sums included. |
| RolledValues.NewestDocument | internal/store/plugins.go:448-449 | Every stored row of a plugin that is not averaged is the raw document beneath it with the strictly greatest capture time. |
| RolledValues.NewestCharge | internal/store/rollups.go:186 | Every stored row of the load plugin has the charge state that was captured last beneath it. |
| RolledValues.LastLeafIsNewest | internal/store/rollups.go:98-104 | The last raw row beneath a row was captured strictly after all others, not after the row's own time, and at most 160 minutes before it. |
| DeviceMerge.NeverDowngrades | internal/app/smart.go:753-790 | Scanned devices come first, in order; such a device ends up verified if and only if its known match was, and then with the match's type and parser, whatever the configured list says. |
| DeviceMerge.NeverInventsVerification | internal/app/smart.go:713-720 | Every verified device of the result has a verified known device of the same name, type and parser. |
| DeviceMerge.MergedNames | internal/app/smart.go:755-808 | The result names exactly the scanned and the configured devices. |
| DeviceMerge.ConfigureKeeps | internal/app/smart.go:778-806 | Configured devices never remove or reorder a merged one, nor change its verification. |
| ConfiguredDevices.ConfiguredValuesWin | internal/app/smart.go:724-791 | A scanned device of a name scanned once: if unverified it ends with the trimmed type and the parser of the last configured entry of its name that gives a type; the last info name and protocol given win in any case; where none is given the device keeps its own. |
| ConfiguredDevices.SingleEntryGoesTo | internal/app/smart.go:783-805 | Among any scanned devices a configured entry goes to the last one of its name and type, else to the only one of its name, else to the end; every other device stays as it is. |
| ConfiguredDevices.ConfiguredAloneIsAdded | internal/app/smart.go:793-805 | A configured device of a name found nowhere else is added with its own values, or with the type and parser verified about its known match. |
| ConfiguredDevices.ParserTypes | internal/app/smart.go:384-395 | Which types stand for the nvme and the sat parser; any other type is its own parser, in lower case and trimmed. |
| ConfiguredDevices.NamedInOrder | internal/app/smart.go:690-708 | The merge looks at the non-nil named devices of a list, all of them and in order. |
| DeviceMerge.MatchMeans | internal/app/smart.go:763-768 | A device is matched with the last known one of its name and type, else with the only known one of its name, else with none. |
| SmartDevices.DeviceInfo.PreserveVerifiedType | internal/app/smart.go:713-720 | Copies type, parser and the verified mark of a verified known device in place; does nothing otherwise. |
| SmartDevices.DeviceInfo.ApplyConfiguredMetadata | internal/app/smart.go:724-739 | In-place override by configured values; the type only while it is not verified. |
| SmartDevices.BuildKeyIndex | internal/app/smart.go:741-747 | The pointer index by name and type knows the last device of each key, nil and nameless entries left out. |
| SmartDevices.BuildUniqueNameIndex | internal/app/smart.go:690-708 | The pointer index by name knows exactly the names that occur once. |
| SmartDevices.MergeScanned | internal/app/smart.go:755-773 | Fresh copies of the scanned devices with what is verified about them, and the index that points into them. |
| SmartDevices.MergeConfigured1 | internal/app/smart.go:783-805 | One configured device changes the merged object it refers to, through either index, or is appended as a copy; the by-name index stays as it was before the loop. |
| SmartDevices.MergeDeviceLists | internal/app/smart.go:683-809 | The pointer version computes the merge on values, returns pairwise distinct new objects and changes no input object; with nothing scanned or configured it returns the known list itself. |
| SmartManager.ExclusionIsExact | internal/app/smart.go:324-345 | After the exclusion filter an entry has a listed device if and only if it had one before and its disk is not excluded: exclusion never makes an ambiguous name unique. |
| SmartManager.SurvivesExactlyWhen | internal/app/smart.go:833-848 | Over the list itself: an entry stays, unchanged, if and only if it is not nil, its disk has a name, and either some device has exactly its name and type, or its type is empty and exactly one position holds its name. |
| SmartManager.AllowedInOrder | internal/app/smart.go:324-345 | The filtered list holds exactly the non-nil, named devices that are not excluded, at ascending positions of the old list; without exclusions it is the old list. |
| SmartManager.Manager.FilterExcludedDevices | internal/app/smart.go:324-345 | Drops nil, nameless and excluded devices in order; without exclusions the list stays as it is, nil slots included. |
| SmartManager.Manager.UpdateSmartDevices | internal/app/smart.go:811-849 | Keeps exactly the non-nil data entries whose name and type is listed, or whose type is empty and whose name is listed once, for any order of the deletes. |
| SmartManager.Manager.ReconcileDevices | internal/app/smart.go:219-221 | Merge, filter and update agree: the data that survives is exactly the listed data, and none of it belongs to an excluded disk. |
| GpuAverages.GPUManager.CalculateGPUAverage | internal/app/gpu.go:440-474 | The average since the key's last snapshot; the shared last averages change only when samples arrived. |
| GpuAverages.GPUManager.GetCurrentData | internal/app/gpu.go:392-416 | For any order of the GPUs, the published map and the new state are those of the order-free definition. |
| GpuReadings.AccumulatorsHoldSamples | internal/app/gpu.go:323-390 | Over every run an accumulator counts its GPU's samples, sums their usage and power, and otherwise holds the latest sample. |
| GpuReadings.ReadingShowsLatest | internal/app/gpu.go:401-413 | Over every run a query reads exactly the GPUs that were sampled, with the temperature and both memory values of the latest sample to two decimals. |
| GpuReadings.UsageAndPowerAre | internal/app/gpu.go:441-474 | With new samples usage and power are two-decimal numbers; without them, both are zero for a GPU that reports neither temperature nor memory in use, and otherwise those of the average any key last took. |
| GpuReadings.SharedNamesShowIds | internal/app/gpu.go:406-409 | GPUs of one name, and only those, show their ids. |
| GpuReadings.NewSamplesInNumbers | internal/app/gpu.go:476-482 | Samples are new if and only if their number since the key's last look is not a multiple of 2^32. |
| GpuReadings.LiveKeyInNumbers | internal/app/live_current.go:395-401 | A live key is the time to live kept within 1000 and 65000 milliseconds, and 59999 for 60000. |
| GpuAverages.AveragesLoseNothing | internal/app/gpu.go:393-530 | Over every run in which no query of a key sees a positive multiple of 2^32 new samples: the key's readings weighted by their sample counts add up to the accumulated usage and power within 0.005 per counted sample, whatever other keys do, and they count every sample if and only if no 32-bit difference wrapped around. |
| GpuAverages.SamplesAddUpExactlyWhen | internal/app/gpu.go:476-482 | The counts never add up to more, and to the accumulator's count if and only if no 32-bit difference wrapped around. |
| GpuAverages.KeysDoNotInterfere | internal/app/gpu.go:441-474 | When new samples arrived, or the GPU looks suspended, a key publishes the same whole reading with and without all queries under other keys. |
| GpuAverages.IdleReadingIsShared | internal/app/gpu.go:446-454 | Without new samples and with the GPU active, usage and power are those of the average that any key last took, given from the history of queries alone. |
| GpuAverages.KeysInterfereExactlyWhen | internal/app/gpu.go:441-474 | Other keys leave a key's published usage and power alone if and only if it takes new samples, or the GPU looks suspended, or the average last taken by any key equals the one the key last took itself. |
| GpuAverages.LastTakerIsAlone | internal/app/gpu.go:446-473 | In particular nothing interferes with the key that took new samples of the GPU last. |
| GpuAverages.IdleKeysDoInterfere | internal/app/gpu.go:446-454 | A run on which a query under one key does change what another key publishes. |
| GpuAverages.LiveKeysAvoidCollector | internal/app/live_current.go:395-401 | A live request's key is within 1000 and 65000, never the collector's 60000, and not smaller for a longer time to live. |
| CollectorSelection.StartCollectorsByPriority | internal/app/gpu.go:785-823 | The loop with its set of selected groups computes the recursive selection. |
| CollectorSelection.PassIsExclusive | internal/app/gpu.go:788-822 | One pass starts vendors of different groups, or nvtop alone. |
| CollectorSelection.StartedExactlyWhen | internal/app/gpu.go:785-823 | By tool: an entry is started if and only if no nvtop had its turn in front of it, and it is nvtop's own turn (there, and no working vendor entry in front) or a working entry of a vendor that no working entry in front serves. |
| CollectorSelection.ResumesLater | internal/app/gpu.go:801-805 | nvtop's fallback resumes on a strict suffix of the priorities, so the chain of fallbacks ends. |
| CollectorSelection.ChainIsExclusive | internal/app/gpu.go:785-823 | Along the whole chain of nvtop failures every entry is started at most once, at most one collector per vendor group, and nvtop only while no vendor is started. |
| CollectorSelection.ChainIsComplete | internal/app/gpu.go:801-809 | If every started nvtop fails, each vendor group with a usable entry gets a collector. |
| CollectorSelection.RunRetryingCollector | internal/app/gpu.go:102-127 | The retry loop calls its error handler as often as the recursive definition says, for any outcomes and any answers of the handler. |
| CollectorSelection.HandlerIsBounded | internal/app/gpu_nvtop.go:127-140 | With a fallback the failure callback fires at most once per nvtop start; any handler is called at most five times between successes. |
| CollectorSelection.FiveFailuresAreHandled | internal/app/gpu.go:102-127 | Failures in a row are handled one by one, exactly five of them; the sixth ends the loop. |
| CollectorSelection.SuccessStartsOver | internal/app/gpu.go:104-112 | After up to five handled failures a success lets the count start over, unless the wait after it is cut short. |
| CollectorSelection.LastFailure | internal/app/gpu.go:113-126 | A handler that refuses, or an interrupted wait, ends the loop after the handled round; a dead context ends it before. |
| DeltaTracking.DeltaTracker.Delta | internal/deltatracker/deltatracker.go:75-90 | The 64-bit number that takes the previous value to the current one, modulo 2^64; zero without both. |
| DeltaTracking.DeltaTracker.Deltas | internal/deltatracker/deltatracker.go:49-62 | The loop over the current keys yields one delta per key, equal to the key's own. |
| DeltaTracking.DeltaTracker.Cycle | internal/deltatracker/deltatracker.go:93-98 | The current values become the previous ones and the current ones are empty. |
| Network.KeysNeverCollide | internal/app/network.go:196 | Tracker keys of different interfaces or directions differ. |
| Network.NetworkManager.RefreshNetInterfaces | internal/app/network.go:128-155 | The interface set is exactly the usable names of the last reading. |
| Network.NetworkManager.LoadAndTickNetBaseline | internal/app/network.go:164-175 | The key's baseline with the time moved to now, and the elapsed milliseconds as a 64-bit value. |
| Network.NetworkManager.TrackNics | internal/app/network.go:188-222 | The loop over the interfaces computes wrapped totals, the tracker's new values and the rates against its previous ones. |
| Network.NetworkManager.SumAndTrackPerNicDeltas | internal/app/network.go:180-223 | Wrapped totals, per-interface rates against the key's previous interval and the key's new values; no other key's tracker changes. |
| Network.NetworkManager.ApplyNetworkTotals | internal/app/network.go:235-263 | Published bandwidth never exceeds ten billion; an implausible rate publishes zero and clears all baselines and trackers. |
| Network.NetworkManager.UpdateNetworkStats | internal/app/network.go:97-113 | One whole update as a step of the abstract state of all keys, with what it publishes; while bandwidth is plausible every other key's tracker stays as it is. |
| NetworkRuns.BandwidthInNumbers | internal/app/network.go:226-263 | Up bandwidth comes from the bytes sent and down bandwidth from those received, each against the key's baseline over the elapsed time; an update is plausible if and only if both are at most 10000000000. |
| NetworkRuns.PerSecondInNumbers | internal/app/network.go:226-232 | A rise of a total is published as whole bytes per second, a drop as if the total had gone all the way around 2^64. |
| NetworkRuns.TotalsAreSums | internal/app/network.go:188-193 | The totals are the sums of the usable interfaces' own counters modulo 2^64, sent and received apart. |
| NetworkRuns.RatesShowCounters | internal/app/network.go:219 | Beside its rates an interface shows its own two counters. |
| NetworkRuns.UsableAndRead | internal/app/network.go:139-155 | An interface counts if and only if it was read and is usable. |
| Network.DropIsCaughtExactlyWhen | internal/app/network.go:226-232 | For totals that drop by d in a measurable time, the wrapped rate passes the threshold if and only if -1000 d modulo 2^64 is at least (10^10 + 1) per millisecond. |
| Network.SmallDropIsCaught | internal/app/network.go:226-263 | For 1000 d up to 2^64, a drop is caught if and only if 1000 d + (10^10 + 1) ms is at most 2^64. |
| Network.LargeDropSlipsThrough | internal/app/network.go:226-232 | The guard can miss: a drop within that range over one second too long is published as no traffic. |
| NetworkRuns.NothingIsLostOverARun | internal/app/network.go:180-223 | Over every run of updates under any keys, with each interface listed once per reading: what a key has counted of an interface, in either direction, is the rise of its counter since tracking began plus what resets took away, up to the next clearing and whatever other keys do; nothing stays uncounted if the key's updates take measurable time. |
| NetworkRuns.RatesAreOfTheAccount | internal/app/network.go:195-219 | The published rates of an interface come from exactly the bytes that its account takes in. |
| NetworkRuns.InStepExactlyWhen | internal/app/network.go:116-263 | Over every run of updates under any keys: a key's baseline and values are those of its own updates alone if and only if it is in step. Another key's clearing takes it out of step unless it has nothing to lose; its own next update that is plausible in both runs, or in neither, brings it back. |
| NetworkRuns.InStepPublishesAlike | internal/app/network.go:165-263 | A key in step publishes next what it would publish without all other keys: plausibility, rates and both bandwidths. |
| NetworkRuns.KeysDoNotInterfere | internal/app/network.go:165-263 | In particular a key is in step as long as no other key clears everything. |
| NetworkRuns.ClearedByAnotherKey | internal/app/network.go:116-128 | A run in which key 2's wrapped drop takes key 1's baseline away: key 1 next publishes no traffic, where on its own it would publish 500 bytes per second. |
| JournaldWire.Buffer.AppendField | internal/logging/journald/sender.go:88-104 | Appends one field in line form, or in sized form when the value holds a newline. |
| JournaldWire.Send | internal/logging/journald/sender.go:50-59 | The payload is the concatenation of all named fields. |
| JournaldWire.LittleEndianRoundTrip | internal/logging/journald/sender.go:92-94 | The eight size bytes read back as the value's length. |
| JournaldWire.BytesStandFor | internal/logging/journald/sender.go:92-94 | The sum of the size bytes, the j-th one counting 256 to the j, is the length: the least significant byte comes first. |
| JournaldWire.FieldRoundTrip | internal/logging/journald/sender.go:88-104 | A field with a clean name is read back, whatever its value and whatever follows it. |
| JournaldWire.DirtyNameIsLost | internal/logging/journald/sender.go:88-104 | A name that holds a separator is never read back. |
| JournaldWire.RoundTrip | internal/logging/journald/sender.go:50-59 | A reader of the Native Journal Protocol recovers exactly the named fields in order if and only if every name is free of '=' and newline, for arbitrary values of up to 2^64 - 1 bytes. |
| JournaldNames.NormalizeFieldComponent | internal/logging/journald/handler.go:282-317 | The loop over a builder computes the normalised form. |
| JournaldNames.NormalizeIsNormal | internal/logging/journald/handler.go:282-317 | The result is upper case letters, digits and single inner underscores, keeps exactly the letters and digits in order, and is a fixed point. |
| FieldSpelling.PiecesStayApart | internal/logging/journald/handler.go:296-313 | Pieces of a component stay apart by exactly one underscore if anything but letters and digits stands between them, and join if nothing does. |
| FieldSpelling.EndsAreDropped | internal/logging/journald/handler.go:283-314 | What stands before the first and behind the last letter or digit is dropped; a single one is spelled in upper case; without any nothing is left. |
| JournaldNames.FieldNameForAttr | internal/logging/journald/handler.go:225-280 | The loop over the path computes the joined name, with and without groups. |
| FieldSpelling.PathFromOutermost | internal/logging/journald/handler.go:225-252 | Without a prefix the name is the normalised outermost group, one underscore, and the name of the rest of the path; empty parts are left out. |
| FieldSpelling.PrefixComesFirst | internal/logging/journald/handler.go:269-280 | The prefix and one underscore stand in front of every name but seven standard ones, and of no empty name. |
| JournaldNames.FieldNamesAreClean | internal/logging/journald/handler.go:225-280 | Under a normal prefix every name the handler builds is normal, hence free of '=' and newline. |
| JournaldNames.ReservedNamesAreSafeExactlyWhen | internal/logging/journald/handler.go:269-280 | No attribute can take the name MESSAGE, PRIORITY or SYSLOG_IDENTIFIER if and only if the prefix is neither empty nor SYSLOG. |
| JournaldHandler.HandlerState.Set | internal/logging/journald/handler.go:166-173 | Replaces in place or appends; the index stays a bijection onto the fields. |
| JournaldHandler.HandlerState.SetIfMissing | internal/logging/journald/handler.go:175-181 | Appends only when the name is new; the index stays a bijection. |
| JournaldHandler.SetAllMeans | internal/logging/journald/handler.go:166-173 | After any sequence of assignments names are unique, stand where they first occurred and hold their last value. |
| JournaldHandler.Append | internal/logging/journald/handler.go:203-206 | Go's append: in place while the backing array has room, else into a larger array; the old slice still reads the same. |
| JournaldHandler.AddAttr | internal/logging/journald/handler.go:196-223 | With all groups appending to one shared backing array, the fields are those of the pure recursive flattening and the caller's path is untouched. |
| JournaldRecords.PairsAreLeaves | internal/logging/journald/handler.go:196-223 | Flattening an attribute yields the fields of its leaves in order: none is lost, added, moved or put under another path; groups without a key add nothing to the path. |
| JournaldHandler.AddChildren | internal/logging/journald/handler.go:207-209 | Siblings never see each other's path. |
| JournaldHandler.AddSourceFields | internal/logging/journald/handler.go:183-194 | Known source parts become fields unless their names are taken, unknown ones do not, in any state. |
| JournaldHandler.StatePool.GetState | internal/logging/journald/handler.go:143-157 | A state from the pool is empty, whatever the last record left in it. |
| JournaldHandler.StatePool.PutState | internal/logging/journald/handler.go:159-164 | The state goes back empty, with its backing array kept. |
| JournaldHandler.Handler.WithAttrs | internal/logging/journald/handler.go:128-132 | A new handler with the attributes added; the handler itself is unchanged. |
| JournaldHandler.Handler.WithGroup | internal/logging/journald/handler.go:134-141 | A new handler with the group added, or the handler itself for an empty name. |
| JournaldHandler.Handler.Handle | internal/logging/journald/handler.go:104-126 | The payload is a function of configuration and record alone, although state and arrays are reused from record to record. |
| JournaldHandler.NewHandler | internal/logging/journald/handler.go:58-98 | Fails on a blank identifier or when the sender cannot be created, in this order; the prefix is normal from then on. |
| JournaldRecords.RecordArrives | internal/logging/journald/handler.go:104-126 | Every payload a handler sends is read back as exactly the record's fields, with unique names. |
| JournaldRecords.ReservedFieldsSurvive | internal/logging/journald/handler.go:108-110 | Under a prefix that is neither empty nor SYSLOG, message, priority and identifier open the record with the handler's values, whatever the attributes are. |
| JournaldRecords.Priorities | internal/logging/journald/handler.go:391-402 | Levels below 0, 4 and 8 are sent as 7, 6 and 4, all others as 3. |
| JournaldRecords.SourceIsSent | internal/logging/journald/handler.go:183-194 | Exactly the known parts of a wanted source are sent, each under its standard name. |
| JournaldRecords.OwnAttributesComeFirst | internal/logging/journald/handler.go:116-123 | A handler's attributes equal attributes in front of the record's. |
| JournaldRecords.HandlerGroupWrapsEverything | internal/logging/journald/handler.go:134-141 | A handler's group equals one group around all attributes, those added before the group included. |
| ListenerFlags.SplitListenerAPIs | cmd/root.go:297-309 | The trimmed, non-empty pieces between the three API separators. |
| ListenerFlags.ListenerListFlag.Set | cmd/root.go:260-291 | Appends the specified listener, or reports the first error and leaves the list alone. |
| ListenerSpecs.AcceptedExactlyWhen | cmd/root.go:262-287 | A specification is accepted if and only if every part is key=value with one of the five keys, white space and case aside, and the last address given is not blank. |
| ListenerSpecs.AcceptedMeans | cmd/root.go:262-289 | Name, address and APIs are those of the last part that gives them, under either of two keys for address and APIs; a blank name becomes listener- and the number, no API the metrics API. |
| ListenerSpecs.APIsOfFirst | cmd/root.go:297-309 | APIs are listed with any mix of the three separators, in order, trimmed, empty ones left out. |
| ListenerFlags.ParsedIsWellFormed | cmd/root.go:260-309 | Every accepted listener has a non-empty trimmed name and address without commas and at least one API name free of separators. |
| ListenerFlags.PrintedIsReadBack | cmd/main_menu.go:534-536 | A printed listener is read back as itself, at any position, if and only if it is well formed. |
| ListenerFlags.PrintedListIsReadBack | cmd/main_menu.go:504-510 | The printed flags rebuild a list if and only if all its listeners are well formed. |
| ListenerFlags.ReplayRebuilds | cmd/main_menu.go:504-510 | For every sequence of accepted flags, printing the listeners and reading them again rebuilds the whole list, default names and APIs included. |
| ListenerFlags.DetachedListenerArgs | cmd/main_menu.go:504-510 | Each listener becomes one flag followed by its printed form, in order. |

## Left out

- SQLite, SQL errors, transactions and rollback: a table is a map and a call is one atomic step.
- JSON encoding: host facts, details and summary come encoded, and HistoryStore.Store.WriteSmartDevices takes the encoding of its records as a function.
- 64-bit overflow of times in milliseconds: times are unbounded integers.
- PluginHistory.AggregatePluginHistory: has no error for malformed JSON, because payloads are typed measurements; an absent measurement counts as zero.
- Floating point rounding: averages and sums of floats are exact reals, and a float converted to an integer loses its fraction only.
- Averages.AverageSystemStats: has no measurement for a GPU's temperature and sample count, which are not stored, nor for its package power, which rolled rows drop.
- Two containers of the same name in one snapshot: container measurements are keyed by name.
- RolledValues.NestedAverageError: excludes temperatures, whose divisor is not the number of source rows, and core loads, which are rounded to whole numbers; TemperatureError and CoreLoadError bound them one level at a time.
- RolledValues.NestedPeaks: assumes non-negative raw values with two decimals, which is what the collectors store; NestedPeaksExactlyWhen says what holds of others.
- GpuAverages.GPUManager.CalculateGPUAverage: omits engine based usage, a maximum over engines that does not add up, and package power.
- GpuAverages.GPUManager.GetCurrentData: omits the same fields.
- GpuAverages.AveragesLoseNothing: covers GPUs that report usage directly. Converting a sample count of 2^32 or more to 32 bits is taken to wrap around.
- GpuAverages.KeysInterfereExactlyWhen: compares usage and power; the name of an idle reading is the one at the time of the shared average.
- Matching nvtop devices to GPU slots, and the parsers of the collectors' outputs.
- CollectorSelection.RunRetryingCollector: commands, timers and the context are a script of outcomes.
- Starting NVML: a parameter says at which positions it would start; the deprecation warning is only logged.
- NetworkRuns.NothingIsLostOverARun: is about the byte deltas; rounding down to whole bytes per second is not summed up.
- The NICS configuration and the built-in interface filter: the set of usable names is a parameter. A failed reading of the counters changes nothing and is no update.
- Configured device parsing, smartctl output, eMMC and mdraid discovery: the merge takes any lists.
- Lower case outside ASCII: letters outside ASCII stay as they are, except the two whose lower case is ASCII. This touches the default branch of the parser type and no listener key.
- Go's map iteration order is an arbitrary choice in every loop over a map.
- Locks and concurrent calls: methods run one at a time, and the pool of handler states holds at most one spare.
- The caches of normalised names in the journald handler: they only save work.
- Resolving log values and formatting numbers, times and errors: an attribute holds its text, a group, or nothing.
- Socket errors and the memory file for large journald payloads.
- Strings are sequences of characters; on the journald wire one character stands for one byte.
- ListenerFlags.ListenerListFlag.Set: quotes no unknown key in its error message.
- The other flags of a detached process, and the HTTP, configuration, menu, Docker and D-Bus code: plumbing without invariants across functions.
