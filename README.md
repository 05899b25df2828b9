# Spectator: Atlas max gauge and metrics3 reporter bookkeeping

This project models two pieces of sequential bookkeeping in Netflix Spectator.
Both are modelled with a single thread, so every compare-and-set succeeds the
first time it is tried.

- **`AtlasMaxGauge`** is a gauge that reports the largest value submitted during
  a step window. `set(v)` raises the cell of the window in progress to `v` when
  `v` is larger. `value()` and `measure()` read the value of the last completed
  window. The gauge reports under a derived id: `statistic=max` is added, the
  id's own tags are added again after it, and then `atlas.dstype=gauge` is added.
  The step aggregator `StepDouble` is modelled abstractly. It has a writable
  current cell, the previous (completed) value, and a `Rotate` operation that
  closes a window. Both halves start at 0.0.
- **`SpectatorReporter`** copies a metrics3 registry into Spectator.
  `gaugeDoubles` holds the last value set for each gauge name. A name is
  registered with the Spectator registry only when it is first stored.
  `previousValues` holds a baseline for each meter name, starting at 0.
  `report` runs five loops: gauges, counters, histograms, meters and timers.
  Every gauge registration, counter increment and record call on the Spectator
  registry becomes an `Event` appended to `log`.

Files:

- `api.dfy` (`Api`): ids and tags, measurements, the clock.
- `impl.dfy` (`Impl`): `AtomicDouble`, and the abstract `StepDouble`.
- `atlas.dfy` (`Atlas`): the `AtlasMaxGauge` class, the derived id, and the window maximum with its lemmas.
- `reporter_spec.dfy` (`ReporterSpec`): the reporter's state as a value (`Book`) and one function per operation and loop.
- `reporter_props.dfy` (`ReporterProps`): the lemmas about those functions.
- `reporter.dfy` (`Reporter`): the `SpectatorReporter` class. Its methods update the maps in place and are proved against `ReporterSpec`.

Gauge values are `real`. Counts and snapshot values are Java `long`s, modelled
as the subset type `Long`; the meter's `prev - curr` wraps around as Java's
`long` subtraction does. The `NameFunction` is a pure function, and `None`
stands for a `null` id. A metrics3 sorted map is a sequence of entries in
iteration order.

The classes `StepDouble`, `AtomicDouble`, `AtlasMeter`, `Id`, `Statistic` and
`DsType` are not among the two modelled files. They are modelled abstractly,
holding only what the two files rely on. The code uses `Statistic.max`, which is the tag
`statistic=max`, and `DsType.gauge`, which the Atlas registry writes as
`atlas.dstype=gauge`. `Clock.WallTime` stands for the foreign `clock.wallTime()`
and `AtomicDouble`'s methods for the `java.util.concurrent` atomics. A meter's `lastModTime` is set from the clock at
construction and on every `set`.

## Model

| member | source | states |
|---|---|---|
| `Api.Id.WithTag` | spectator-reg-atlas/src/main/java/com/netflix/spectator/atlas/AtlasMaxGauge.java:45 | adding a tag sets that key to the new value, keeps every other tag, and keeps the name |
| `Api.Id.WithTags` | spectator-reg-atlas/src/main/java/com/netflix/spectator/atlas/AtlasMaxGauge.java:45 | re-adding a tag map: the added tags win on a shared key, and other tags are kept |
| `Impl.AtomicDouble.Get` | spectator-reg-atlas/src/main/java/com/netflix/spectator/atlas/AtlasMaxGauge.java:55 | returns the stored value |
| `Impl.AtomicDouble.CompareAndSet` | spectator-reg-atlas/src/main/java/com/netflix/spectator/atlas/AtlasMaxGauge.java:56 | succeeds exactly when the stored value equals the expected one; it then stores the new value and counts one write; on failure nothing is written |
| `Impl.AtomicDouble.GetAndSet` | spectator-reg-atlas/src/main/java/com/netflix/spectator/atlas/AtlasMaxGauge.java:63 | the rollover inside `poll()`: returns the stored value, stores the new one, and counts one write |
| `Impl.StepDouble.constructor` | spectator-reg-atlas/src/main/java/com/netflix/spectator/atlas/AtlasMaxGauge.java:42 | the current cell and the previous value both start at `init`, and the cell has never been written |
| `Impl.StepDouble.GetCurrent` | spectator-reg-atlas/src/main/java/com/netflix/spectator/atlas/AtlasMaxGauge.java:54 | returns the cell of the window in progress |
| `Impl.StepDouble.Poll` | spectator-reg-atlas/src/main/java/com/netflix/spectator/atlas/AtlasMaxGauge.java:63 | returns the completed window's value and changes nothing |
| `Impl.StepDouble.Rotate` | spectator-reg-atlas/src/main/java/com/netflix/spectator/atlas/AtlasMaxGauge.java:63 | at a step boundary the window in progress becomes the completed value, and the cell restarts from `init` with one more write counted |
| `Atlas.StatId` | spectator-reg-atlas/src/main/java/com/netflix/spectator/atlas/AtlasMaxGauge.java:43-45 | the derived id has the id's name and tags plus `statistic` and `atlas.dstype`; `atlas.dstype` is `gauge`; `statistic` is the id's own value if it had one and `max` otherwise; every other tag of the id is kept |
| `Atlas.AtlasMaxGauge.constructor` | spectator-reg-atlas/src/main/java/com/netflix/spectator/atlas/AtlasMaxGauge.java:40-46 | a fresh step aggregator whose cell and previous value are 0.0, with the gauge's clock and step; the reported id is `StatId(id)` |
| `Atlas.AtlasMaxGauge.Measure` | spectator-reg-atlas/src/main/java/com/netflix/spectator/atlas/AtlasMaxGauge.java:48-51 | exactly one measurement, with id `stat`, timestamp `clock.wallTime()`, and the completed window's value |
| `Atlas.AtlasMaxGauge.Set` | spectator-reg-atlas/src/main/java/com/netflix/spectator/atlas/AtlasMaxGauge.java:53-60 | the cell becomes the larger of its old value and `v`; exactly one write happens if `v` is larger, and none otherwise; the completed value is untouched; the last-modified time becomes the current wall time whatever `v` is |
| `Atlas.AtlasMaxGauge.Value` | spectator-reg-atlas/src/main/java/com/netflix/spectator/atlas/AtlasMaxGauge.java:62-64 | returns the completed window's value; it has no write frame, so the window in progress is untouched |
| `Atlas.SetAll` | spectator-reg-atlas/src/main/java/com/netflix/spectator/atlas/AtlasMaxGauge.java:53-60 | a run of `set` calls within one window leaves the cell at `WindowMax` of its value before the run and the submitted values, in order; the completed window's value is untouched |
| `Atlas.WindowMaxIsMaximum` | spectator-reg-atlas/src/main/java/com/netflix/spectator/atlas/AtlasMaxGauge.java:53-60 | after a run of `set` calls in one window (`SetAll`), the cell is at least its initial value and at least every submitted value, and it equals the initial value or one of the submitted values |
| `Atlas.WindowMaxIgnoresOrder` | spectator-reg-atlas/src/main/java/com/netflix/spectator/atlas/AtlasMaxGauge.java:53-60 | any reordering of the same submitted values leaves the window's cell after `SetAll` at the same value |
| `Atlas.TwoWindows` | spectator-reg-atlas/src/main/java/com/netflix/spectator/atlas/AtlasMaxGauge.java:40-64 | setting 5, 3 and 9 and then rotating reads 9.0; setting 1 in the next window and rotating reads 1.0 |
| `ReporterSpec.LongSub` | spectator-ext-spark/src/main/java/com/netflix/spectator/spark/SpectatorReporter.java:148 | long subtraction is exact when the difference fits in 64 bits, and it is congruent to the true difference modulo 2^64 |
| `ReporterProps.EmptyBookRegisteredOnce` | spectator-ext-spark/src/main/java/com/netflix/spectator/spark/SpectatorReporter.java:92-93 | with both maps empty and no registry calls yet, the registration invariant holds |
| `ReporterProps.SetGaugeValueFrame` | spectator-ext-spark/src/main/java/com/netflix/spectator/spark/SpectatorReporter.java:165-177 | after `setGaugeValue(name, v)`, `gaugeDoubles[name] == v`; no other gauge entry and no baseline changes; a name already known makes no registry call |
| `ReporterProps.SetGaugeValueKeepsRegisteredOnce` | spectator-ext-spark/src/main/java/com/netflix/spectator/spark/SpectatorReporter.java:165-185 | `setGaugeValue` keeps the invariant that a name was registered once if it is stored and maps to an id, and zero times otherwise; so `register` happens only on the inserting call |
| `ReporterProps.NullIdNeverRegistered` | spectator-ext-spark/src/main/java/com/netflix/spectator/spark/SpectatorReporter.java:169-172 | when the name function gives `null`, the name is still stored in `gaugeDoubles` but has no registration |
| `ReporterProps.GaugeLoopKeepsRegisteredOnce` | spectator-ext-spark/src/main/java/com/netflix/spectator/spark/SpectatorReporter.java:119-125 | the gauge loop keeps the registration invariant |
| `ReporterProps.CounterLoopKeepsRegisteredOnce` | spectator-ext-spark/src/main/java/com/netflix/spectator/spark/SpectatorReporter.java:127-129 | the counter loop keeps the registration invariant |
| `ReporterProps.MeterLoopRegistersNothing` | spectator-ext-spark/src/main/java/com/netflix/spectator/spark/SpectatorReporter.java:143-150 | the meter loop leaves `gaugeDoubles` unchanged and adds no gauge registration |
| `ReporterProps.HistogramLoopRegistersNothing` | spectator-ext-spark/src/main/java/com/netflix/spectator/spark/SpectatorReporter.java:131-141 | the histogram loop adds no gauge registration |
| `ReporterProps.TimerLoopRegistersNothing` | spectator-ext-spark/src/main/java/com/netflix/spectator/spark/SpectatorReporter.java:152-162 | the timer loop adds no gauge registration |
| `ReporterProps.SummaryRecordsAppend` | spectator-ext-spark/src/main/java/com/netflix/spectator/spark/SpectatorReporter.java:136-139 | recording the snapshot values one at a time, as the inner loop does, logs the records of the first values followed by those of the rest |
| `ReporterProps.TimerRecordsAppend` | spectator-ext-spark/src/main/java/com/netflix/spectator/spark/SpectatorReporter.java:157-160 | the same append law for the nanosecond records of a timer snapshot |
| `ReporterProps.RecordsRegisterNothing` | spectator-ext-spark/src/main/java/com/netflix/spectator/spark/SpectatorReporter.java:131-141 | no distribution-summary or timer record is a gauge registration |
| `ReporterProps.AppendKeepsRegisteredOnce` | spectator-ext-spark/src/main/java/com/netflix/spectator/spark/SpectatorReporter.java:148 | logging a counter increment, or any call that is not a gauge registration, keeps the registration invariant |
| `ReporterProps.ReportKeepsRegisteredOnce` | spectator-ext-spark/src/main/java/com/netflix/spectator/spark/SpectatorReporter.java:110-163 | a whole report keeps the registration invariant, so no gauge name is ever registered twice |
| `ReporterProps.GaugeLoopSetsNumericValues` | spectator-ext-spark/src/main/java/com/netflix/spectator/spark/SpectatorReporter.java:119-125 | the gauge loop overwrites the gauge map with the numeric readings (a later entry wins) and leaves every other name and every baseline alone |
| `ReporterProps.NumericValuesAt` | spectator-ext-spark/src/main/java/com/netflix/spectator/spark/SpectatorReporter.java:120-124 | with distinct names, a gauge entry is set if and only if its reading is a number, and it is set to that number; other readings are skipped |
| `ReporterProps.CounterLoopIsGaugeLoop` | spectator-ext-spark/src/main/java/com/netflix/spectator/spark/SpectatorReporter.java:127-129 | the counter loop has exactly the effect of the gauge loop on readings that carry each counter's count as a number (`CountersAsGauges`); with the two lemmas above, each counter sets its gauge to its count |
| `ReporterProps.RebaseAt` | spectator-ext-spark/src/main/java/com/netflix/spectator/spark/SpectatorReporter.java:144-145 | with distinct names, every reported meter's baseline becomes its current count |
| `ReporterProps.RebaseElsewhere` | spectator-ext-spark/src/main/java/com/netflix/spectator/spark/SpectatorReporter.java:187-194 | the baseline of a name not in the report is unchanged, present or absent alike |
| `ReporterProps.MeterLoopUsesPreviousReport` | spectator-ext-spark/src/main/java/com/netflix/spectator/spark/SpectatorReporter.java:143-150 | with distinct names, the meter loop keeps the gauge map; it sets the baselines to the current counts even for names with a `null` id; each counter increment is `prev - curr`, where `prev` is the baseline left by the previous report (0 on the first) |
| `ReporterProps.BaselineSwap` | spectator-ext-spark/src/main/java/com/netflix/spectator/spark/SpectatorReporter.java:187-194 | a second `getAndSetPrevious` on a name returns the value the first one stored; other names' baselines are unchanged |
| `ReporterProps.MeterIncrementIsNegated` | spectator-ext-spark/src/main/java/com/netflix/spectator/spark/SpectatorReporter.java:148 | as written, a meter that has counted 5 events adds -5 to its counter on the first report |
| `ReporterProps.AsWrittenIncrementsNegate` | spectator-ext-spark/src/main/java/com/netflix/spectator/spark/SpectatorReporter.java:144-148 | as written, over successive reports with non-negative counts the increments add up to the first baseline minus the latest count |
| `ReporterProps.IntendedIncrementsTelescope` | spectator-ext-spark/src/main/java/com/netflix/spectator/spark/SpectatorReporter.java:144-148 | with `curr - prev`, over successive reports the increments add up to the latest count minus the first baseline |
| `Reporter.SpectatorReporter.constructor` | spectator-ext-spark/src/main/java/com/netflix/spectator/spark/SpectatorReporter.java:92-107 | both maps start empty, no registry call has been made, and the registration invariant holds |
| `Reporter.SpectatorReporter.Register` | spectator-ext-spark/src/main/java/com/netflix/spectator/spark/SpectatorReporter.java:179-185 | returns the name function's id and registers a gauge reading the name's cell only when the id is not `null`; both maps are unchanged |
| `Reporter.SpectatorReporter.SetGaugeValue` | spectator-ext-spark/src/main/java/com/netflix/spectator/spark/SpectatorReporter.java:165-177 | the new state is `ReporterSpec.SetGaugeValue` of the old one: an unknown name is inserted and registered, then `gaugeDoubles[name] == v`; the registration invariant is kept |
| `Reporter.SpectatorReporter.GetAndSetPrevious` | spectator-ext-spark/src/main/java/com/netflix/spectator/spark/SpectatorReporter.java:187-195 | returns the stored baseline, or 0 for a name never seen, and stores the new value; nothing else changes, so the registration invariant is kept |
| `Reporter.SpectatorReporter.Report` | spectator-ext-spark/src/main/java/com/netflix/spectator/spark/SpectatorReporter.java:110-163 | the new state is the five loops applied in order to the old state, and the registration invariant is kept |
| `Reporter.SpectatorReporter.ReportGauges` | spectator-ext-spark/src/main/java/com/netflix/spectator/spark/SpectatorReporter.java:119-125 | the in-place loop ends in the state `GaugeLoop` gives, and keeps the registration invariant |
| `Reporter.SpectatorReporter.ReportCounters` | spectator-ext-spark/src/main/java/com/netflix/spectator/spark/SpectatorReporter.java:127-129 | the in-place loop ends in the state `CounterLoop` gives, and keeps the registration invariant |
| `Reporter.SpectatorReporter.ReportHistograms` | spectator-ext-spark/src/main/java/com/netflix/spectator/spark/SpectatorReporter.java:131-141 | only the log changes, and it gains one record per snapshot value of each histogram whose name maps to an id; the registration invariant is kept |
| `Reporter.SpectatorReporter.ReportMeters` | spectator-ext-spark/src/main/java/com/netflix/spectator/spark/SpectatorReporter.java:143-150 | the in-place loop ends in the state `MeterLoop` gives, and keeps the registration invariant |
| `Reporter.SpectatorReporter.ReportTimers` | spectator-ext-spark/src/main/java/com/netflix/spectator/spark/SpectatorReporter.java:152-162 | only the log changes, and it gains one nanosecond record per snapshot value of each timer whose name maps to an id; the registration invariant is kept |

## Left out

- Concurrency is not modelled: compare-and-set races, `putIfAbsent` races and memory visibility. With one writer, the retry branch of `set`'s loop (re-read and try again) cannot be reached; the model marks it with `assert false`.
- Floating point is not modelled. Values are `real`, so the NaN case, where NaN never beats the maximum, is left out. The `long` to `double` conversion of counter counts (line 128) is exact in the model.
- `StepDouble`'s internals are not part of this model: the clock check against the step boundary inside `getCurrent()` and `poll()`, and the case where several steps pass with no access. `Rotate` stands for one boundary crossing and is called by the environment.
- Impl.StepDouble.Poll: does not rotate when a step boundary has passed, because the rotation is the separate `Rotate`.
- Atlas.AtlasMaxGauge.Value: reads the completed value without the rotation check that `poll()` performs, for the same reason.
- `AtlasMeter`'s expiry (`ttl`, `hasExpired`) is not modelled. It only stores `ttl` and `lastModTime`.
- The builder, `ScheduledReporter` scheduling and the `super(...)` arguments are not modelled, because they are configuration of a foreign base class. The debug logging (lines 116-117 and 175) is left out because it is I/O.
- The Spectator registry calls (`gauge`, `counter(...).increment`, `distributionSummary(...).record`, `timer(...).record`) are foreign. Each is an `Event` in `log`. The gauge's later reads of its `AtomicDouble` are represented by the name of its `gaugeDoubles` entry.
- The name function is pure in the model. A Java `NameFunction` that returns `null` once and an id later would still not be retried (`SetGaugeValueFrame`: a known name makes no registry call). The exactly-once invariant assumes the function gives the same answer each time.
- The registry lookups `counter(id)` (line 148), `distributionSummary(id)` (line 134) and `timer(id)` (line 155) are not logged. So the model leaves no trace of a meter, histogram or timer whose lookup creates it in the registry without incrementing or recording anything, such as a histogram with an empty snapshot.
- The key order of the metrics3 sorted maps is not modelled. Entries come in the order given. The lemmas that need distinct names (which a map guarantees) require them.

## Findings

| source | as written | input that shows it | evidently intended | confidence | as-written member | corrected member |
|---|---|---|---|---|---|---|
| spectator-ext-spark/src/main/java/com/netflix/spectator/spark/SpectatorReporter.java:148 | the meter's counter is incremented by `prev - curr` | a meter that has counted 5 events at its first report gives `prev = 0`, `curr = 5`, so the counter is incremented by -5 | `curr - prev`, the events counted since the previous report, so that the counter's total follows the meter's count | high (not executed) | `ReporterSpec.MeterIncrement`, `ReporterProps.MeterIncrementIsNegated`, `ReporterProps.AsWrittenIncrementsNegate` | `ReporterProps.IntendedMeterIncrement`, `ReporterProps.IntendedIncrementsTelescope` |

The reporter model (`MeterStep`, `ReportMeters`) keeps the code's `prev - curr`, so that it describes the code as it is. The corrected increment and its total are proved alongside.
