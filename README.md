# SDS011 particulate-matter collector: a Dafny model

This project models the core of a Home Assistant custom component. The component polls an SDS011 particulate-matter sensor over a serial line. For it, the collector thread repeats one cycle:

- It wakes the sensor and waits out a warm-up delay, when one is configured.
- It takes `number_of_measurements` raw readings, pausing one second after each.
- It averages every channel (PM2.5, PM10) on its own, skipping missing readings.
- It stores each present average, rounded to one decimal, as the state of that channel's entity.
- It puts the sensor back to sleep, when a warm-up delay is configured.
- It waits out the rest of the measuring interval.

A finish event, set by `terminate`, ends the loop.

Modules, following the parts of `custom_components/sensor/sds011.py`:

- `Wrappers` (wrappers.dfy): `Option`, Python's `None` versus a value.
- `Aggregation` (aggregation.dfy): `avg` (`Avg`), the transposition `zip(*measurements)` (`Transpose`, whose width is `MinWidth`), and the column-wise reduction (`Aggregate`). Values are exact reals. An independent entry-by-entry definition of the mean (`CountPresent`, `SumPresent`) is the reference that `avg` is proved against.
- `Schedule` (schedule.dfy): the observable actions of the collector (`WakeUp`, `PowerDown`, `Query`, `Wait(d)`, `Publish(i, v)`) and specification functions for the trace of one cycle (`CycleTrace`, built phase by phase) and of a run of cycles (`RunTrace`). It also holds the entity states after publishing (`PublishedStates`, `RunStates`), the end-of-cycle pacing (`EndWait`) and rounding (`Round1`). The lemmas state the schedule's properties.
- `Entities` (sensor.dfy): the `Sensor` class, with its label (`Name`) and its state setter.
- `Collectors` (collector.dfy): the `Collector` class. Its methods update a `trace` of actions, the `finished` flag and the entities' states in place. Each of the trace-producing methods is proved against the matching `Schedule` function.

Behaviour of the code worth noting:

- The code waits one second after every query, the last one included (line 97).
- The finish flag is tested only at the head of the loop (line 87). A set flag makes the remaining waits of the cycle return at once (line 83), but the rest of the cycle still runs: the warm-up, the remaining queries and the publishing.
- `zip()` of no samples is empty, so no samples give no channels (`AggregateEmpty`), and nothing is published.
- A query that fails, or that returns `None` instead of a tuple, is not handled: `zip(*measurements)` would raise on a `None`. The model takes every reply to be a sample. `AggregateExample` averages four complete samples.

## Model

| member | source | states |
|---|---|---|
| Aggregation.AvgIsMean | custom_components/sensor/sds011.py:51-54 | `avg` equals the sum of the non-`None` entries divided by their count (counted entry by entry, independently of the filter), and `None` when there are none |
| Aggregation.AvgNoneIff | custom_components/sensor/sds011.py:52-54 | `avg` is `None` exactly when the input is empty or every entry is `None` |
| Aggregation.AvgIgnoresNone | custom_components/sensor/sds011.py:52 | inserting a `None` anywhere in the input leaves `avg` unchanged |
| Aggregation.AvgBounds | custom_components/sensor/sds011.py:51-54 | the average lies within any bounds of the present entries |
| Aggregation.PresentMatchesReference | custom_components/sensor/sds011.py:52 | the `None` filter keeps exactly the present entries: its length is their count and its `sum` is their sum |
| Aggregation.MinWidth | custom_components/sensor/sds011.py:99 | the width `zip` truncates to is at most every sample's length and equal to some sample's length (0 for no samples) |
| Aggregation.Transpose | custom_components/sensor/sds011.py:99 | `zip(*samples)` has `MinWidth` rows; row `i` has one entry per sample, and entry `k` is channel `i` of sample `k` |
| Aggregation.Aggregate | custom_components/sensor/sds011.py:99 | the aggregated list has one entry per column, as many as the shortest sample is long |
| Aggregation.AggregateEmpty | custom_components/sensor/sds011.py:99 | no samples give an empty aggregate |
| Aggregation.AggregateWidth | custom_components/sensor/sds011.py:99 | samples of one common width give exactly that many averaged channels |
| Aggregation.AggregateChannel | custom_components/sensor/sds011.py:99 | channel `i` of the aggregate is the mean of the present channel-`i` readings over all samples, and `None` exactly when all of them are missing |
| Aggregation.AggregateChannelsIndependent | custom_components/sensor/sds011.py:99 | channel `i` of the aggregate depends only on the channel-`i` readings |
| Aggregation.AggregateExample | custom_components/sensor/sds011.py:99 | four PM2.5/PM10 samples, one PM10 reading missing, average to 11.5 and 19.0 |
| Schedule.EndWait | custom_components/sensor/sds011.py:108-110 | the end-of-cycle wait `max(0, interval - elapsed)` is never negative, is 0 exactly when the work took at least the interval, and otherwise brings the cycle up to the interval |
| Schedule.Round1 | custom_components/sensor/sds011.py:103 | `round(value, 1)` is within 0.05 of the value and is a whole number of tenths |
| Schedule.Round1TiesToEven | custom_components/sensor/sds011.py:103 | at an exact tie between two tenths, `round(value, 1)` gives the even tenth |
| Schedule.Round1Idempotent | custom_components/sensor/sds011.py:103 | rounding a rounded value changes nothing |
| Schedule.PublishedStatesAt | custom_components/sensor/sds011.py:101-103 | after publishing, entity `i` holds the rounded column-`i` average when it is present; otherwise, and for entities without a column, its state is unchanged |
| Schedule.PublishIdempotent | custom_components/sensor/sds011.py:101-103 | publishing the same averages twice leaves the states as publishing them once |
| Schedule.PublishNothing | custom_components/sensor/sds011.py:101-103 | a cycle whose averages are all `None` leaves every entity's state as it was |
| Schedule.PublishTraceSpec | custom_components/sensor/sds011.py:101-103 | the publish loop updates every present channel, only present channels, each with its rounded average, once each, in channel order |
| Schedule.SamplingShape | custom_components/sensor/sds011.py:95-97 | the sampling burst is `number_of_measurements` times a query immediately followed by a one-second wait |
| Schedule.SamplingCounts | custom_components/sensor/sds011.py:95-97 | the burst issues exactly `number_of_measurements` queries and no power call |
| Schedule.CycleTraceParts | custom_components/sensor/sds011.py:88-110 | a cycle is warm-up, sampling, publishing, power-down and the end-of-cycle wait, in that order |
| Schedule.CyclePowerCounts | custom_components/sensor/sds011.py:89-106 | a cycle makes one wake-up and one power-down call when the warm-up delay is positive, none otherwise, and exactly `number_of_measurements` queries |
| Schedule.NoPowerCallsWithoutWarmUp | custom_components/sensor/sds011.py:89-106 | with a warm-up delay of 0 a cycle never wakes the sensor or puts it to sleep |
| Schedule.PowerCallsWithWarmUp | custom_components/sensor/sds011.py:89-106 | with a positive warm-up delay a cycle wakes the sensor once, first, then waits the warm-up; it puts the sensor to sleep once, after every query and every publish, just before the final wait |
| Schedule.QueryThenWait | custom_components/sensor/sds011.py:94-97 | every query of a cycle, the last one included, is immediately followed by a one-second wait |
| Schedule.StopEndsRun | custom_components/sensor/sds011.py:87 | a set flag starts no cycle; otherwise the loop runs every cycle up to and including the first one during which a stop was requested, and no further one |
| Schedule.LoopExit | custom_components/sensor/sds011.py:87 | when the loop stops, it has run exactly `CyclesRun` cycles, and the flag is set exactly when it was set before or a stop was requested |
| Schedule.RunQueries | custom_components/sensor/sds011.py:85-110 | cycles run to completion: `c` cycles issue exactly `c * number_of_measurements` queries |
| Entities.NameParts | custom_components/sensor/sds011.py:132 | `filter(bool, (name, kind))` keeps the name when it is set and non-empty, then the kind when it is non-empty |
| Entities.Sensor.constructor | custom_components/sensor/sds011.py:122-125 | a new entity keeps the given name and kind and has no state |
| Entities.Sensor.Name | custom_components/sensor/sds011.py:130-132 | the label is `name + " " + kind` when the name is non-empty, and `kind` alone when the name is missing or empty |
| Entities.Sensor.SetState | custom_components/sensor/sds011.py:138-141 | after the setter, the getter (the `state` field, lines 134-136) returns the stored value |
| Collectors.Collector.constructor | custom_components/sensor/sds011.py:58-77 | the sensor is put to sleep at once when the warm-up delay is positive and woken otherwise; two fresh entities, PM2.5 then PM10, carry the configured name and have no state; the flag is clear |
| Collectors.Collector.GetEntities | custom_components/sensor/sds011.py:79-80 | the entities are the PM2.5 and the PM10 sensor, in that order |
| Collectors.Collector.Wait | custom_components/sensor/sds011.py:82-83 | a wait on the finish event for the given time is recorded |
| Collectors.Collector.Terminate | custom_components/sensor/sds011.py:114-116 | the finish flag is set afterwards, whether or not it was set before, so a second call changes nothing |
| Collectors.Collector.Publish | custom_components/sensor/sds011.py:101-103 | the entities' states become `PublishedStates` of the old states, and the updates are recorded as `PublishAll` |
| Collectors.Collector.WarmUp | custom_components/sensor/sds011.py:89-92 | records a wake-up and the warm-up wait exactly when the warm-up delay is positive |
| Collectors.Collector.Measure | custom_components/sensor/sds011.py:94-97 | returns the device's replies in order and records `number_of_measurements` query/one-second-wait pairs |
| Collectors.Collector.CoolDown | custom_components/sensor/sds011.py:105-106 | records a power-down exactly when the warm-up delay is positive |
| Collectors.Collector.RunCycle | custom_components/sensor/sds011.py:88-110 | one loop iteration appends `CycleTrace` of the aggregated replies to the trace, and leaves the entity states as `PublishedStates` of the old ones |
| Collectors.Collector.RunCycleOf | custom_components/sensor/sds011.py:87-116 | one loop iteration, plus a `terminate()` during it that sets the flag without cutting the iteration short |
| Collectors.Collector.Run | custom_components/sensor/sds011.py:85-112 | `run` performs exactly the first `CyclesRun` cycles, appending their traces and applying their publishes; the flag ends up set exactly when it was set or a stop was requested |

## Left out

- Threads: `Collector` is a `threading.Thread`, `start()` spawns it and `terminate()` joins it (lines 57, 116). The model is sequential. A `terminate()` from another thread is a per-cycle stop request applied when the cycle ends. Because the flag is only tested at the loop head, where in the cycle the request arrives does not change what the loop does.
- Collectors.Collector.Terminate: does not model the `join()` of line 116, which waits for the thread to end; that is concurrency.
- Collectors.Collector.Wait: records the requested timeout of `Event.wait`, not how long the wait lasted; whether it returned early is timing.
- Collectors.Collector.Run: models a finite prefix of the endless loop, as many cycles as its input describes.
- Wall-clock time: `time.time()` (lines 88, 108) is not modelled. The work time of each cycle is an input, and `timedelta` durations are reals in seconds.
- The serial driver `sds011.SDS011`: opening the device (line 74) and the device identifier are not modelled. Each `query()` reply is an input sample. A query that raises, or that returns `None` instead of a tuple, is not modelled.
- Floating point: values are exact reals. `Round1` rounds to the nearest tenth with ties to even on exact reals. Python's `round` on binary floats can differ where the decimal value is not representable.
- Home Assistant plumbing: the configuration schema and its defaults (lines 25-33, 40-42), `setup_platform` and the stop-event listener (lines 36-48), logging, `should_poll`, `unit_of_measurement`, and the `hass` check with `schedule_update_ha_state` in the state setter (lines 143-144).
