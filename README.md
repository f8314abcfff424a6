# Sensor-value cache (`SensorData::SensorDataBuffer`)

This project models the cache behind the printer's sensor info screen. A build-time
catalog, sorted by name, pairs metric names such as `"bedTemp"` and `"printFan"` with
`Sensor` ordinals. The cache keeps one `Value` slot per ordinal: the raw value bits, a
`valid` flag, an `enabled` flag and a float/int type tag. It subscribes itself to the
external metrics registry by setting the `"SENSOR_INFO_SCREEN"` handler's bit in each
catalog metric's `enabled_handlers` mask. Each update the registry pushes is stored in
the matching slot. At most one cache is registered process-wide to receive those updates.

The project is split into these modules:

- `StringOrder` (string_order.dfy): the lexicographic order that stands in for `strcmp`.
  It is proved strict and transitive, and equal to the first-difference definition of
  `strcmp`'s order.
- `Catalog` (catalog.dfy): the sorted `(name, Sensor)` table, a `std::lower_bound`
  binary search, and the name lookup that the enable, disable and update paths share.
- `Metrics` (metrics.dfy): the external registry's metric records and handler list, the
  handler search, and setting or clearing one handler bit.
- `SensorModel` (sensor_model.dfy): the cache's state as values (slots, the
  `allMetricsEnabled` flag, the registry's records). It defines the pure transitions
  `EnableStep`, `DisableStep` and `NewDataStep` and proves what each one does.
- `SensorData` (sensor_data_buffer.dfy): the class `SensorDataBuffer`, which holds the
  slots in an `array` and the flag in a field, and the class `Registry`, which holds the
  global `buffer` pointer. The constructor, `Destroy`, `EnableMetrics`, `DisableMetrics`,
  `GetValue` and `HandleNewData` are each proved to perform exactly the transition of
  `SensorModel` in place. `GetHandler` is proved equal to `Metrics.FindHandler`. The helpers
  `Subscribe` and `Unsubscribe` are proved to update one record and one slot each. The
  loops carry the early-exit count as an invariant.
- `SensorProperties` (properties.dfy): properties that relate several calls. They cover:
  - the pigeonhole argument showing that, when the registry's metric names are unique,
    a `true` from `enableMetrics` means every catalog sensor is enabled;
  - enabling twice is the same as enabling once;
  - disabling undoes enabling;
  - the early exit;
  - the update/read round trip;
  - a concrete registry showing the unique-names premise is needed.
- `SensorScenario` (scenario.dfy): a client run through the classes. A two-sensor
  catalog reads back an update of 60.5. An update of an unknown metric is dropped. A
  second cache constructed after the first is destroyed has no valid reading.

Two behaviours of the code are easy to misread as stricter or looser than they are; the
model keeps them as written:

- `disableMetrics` returns early without clearing `allMetricsEnabled` when the handler
  is missing (`src/common/sensor_data_buffer.cpp:65-68`).
- `RegisterBuffer` asserts that no buffer at all is registered, even the same one again
  (`:101`), not only that no different buffer is.

## Model

| member | source | states |
|---|---|---|
| StringOrder.Less | src/common/sensor_data_buffer.cpp:49 | the `strcmp(a, b) < 0` comparison behind the catalog's order and `lower_bound` probe; it is strict, never holding between equal names |
| StringOrder.LessIsLexBefore | src/common/sensor_data_buffer.cpp:49 | `Less` holds exactly when `a` is a proper prefix of `b` or, at the first position where they differ, `a` has the smaller character |
| StringOrder.LessTransitive | src/common/sensor_data_buffer.cpp:49 | the name order is transitive, which lets the binary search carry "below the probe name" and "not below it" across the sorted catalog from one probe to the entries beside it |
| Catalog.LowerBound | src/common/sensor_data_buffer.cpp:49 | `std::lower_bound` on a sorted catalog: every entry before the result orders below the name, none from the result on does |
| Catalog.Lookup | src/common/sensor_data_buffer.cpp:49-50 | lookup yields `Some(sensor)` exactly when an entry has that name, and then it is that entry's sensor; `None` exactly when no entry has the name |
| Catalog.NamesCount | src/common/sensor_data_buffer.cpp:56 | a sorted catalog has as many distinct names as entries, which the size comparison of the early exit relies on |
| Metrics.FindHandler | src/common/sensor_data_buffer.cpp:24-30 | the handler found is the first in the list with the name; none exactly when no handler has it |
| Metrics.WithHandlerBit | src/common/sensor_data_buffer.cpp:52 | OR-ing in `1 << id` or AND-ing with `~(1 << id)`: bit `id` ends set or cleared, every other bit, the name and the type are untouched |
| SensorModel.ScanLength | src/common/sensor_data_buffer.cpp:48-60 | the loop visits records up to and including the first one after which the match count equals the catalog size, or all of them |
| SensorModel.ScanCompletesIff | src/common/sensor_data_buffer.cpp:56-61 | `enableMetrics` reaches its `return true` exactly when some prefix of the registry holds as many catalog matches as the catalog has entries |
| SensorModel.SetHandlerBitsEffects | src/common/sensor_data_buffer.cpp:50-52 | over the scanned prefix, only the handler's bit of catalog metrics changes; names, types, other bits and non-catalog records are kept |
| SensorModel.EnableVisit | src/common/sensor_data_buffer.cpp:49-53 | one loop pass: a catalog record gets the bit, its sensor's slot is enabled and the count grows by one; any other record changes nothing |
| SensorModel.DisableVisit | src/common/sensor_data_buffer.cpp:71-75 | one loop pass: a catalog record loses the bit and its sensor's slot is cleared; any other record changes nothing |
| SensorModel.EnableStep | src/common/sensor_data_buffer.cpp:38-62 | the result and state of one `enableMetrics`: the result is the flag afterwards, the store keeps its shape, a set flag returns `true` and a missing handler returns the flag with nothing changed; what else changes is stated by EnableStepEffects, EnableStepStopsAfter and EnableStepRunsToEnd |
| SensorModel.EnableStepStopsAfter | src/common/sensor_data_buffer.cpp:56-59 | when the count first reaches the catalog size at record `i`, the result is `true`, the flag is set, and only records up to `i` and their sensors are touched |
| SensorModel.EnableStepRunsToEnd | src/common/sensor_data_buffer.cpp:48-61 | when the count never reaches the catalog size, the result is `false`, every catalog record is subscribed and the partial enables persist |
| SensorModel.EnableStepEffects | src/common/sensor_data_buffer.cpp:38-62 | `true` with nothing changed when the flag is set; `false` with nothing changed when the handler is missing; otherwise the result matches the flag, slots only gain `enabled` (payload, `valid`, type kept) and only for sensors a registry record resolves to, no bit but the handler's changes, and non-catalog records are kept |
| SensorModel.DisableStep | src/common/sensor_data_buffer.cpp:64-79 | the state one `disableMetrics` leaves: the store keeps its shape, a missing handler changes nothing, otherwise the flag drops; what else changes is stated by DisableStepEffects |
| SensorModel.DisableStepEffects | src/common/sensor_data_buffer.cpp:64-79 | nothing changes (flag included) when the handler is missing; otherwise every catalog record loses the bit, its sensor's slot has `enabled` and `valid` false, no other bit, slot or record changes, and the flag drops |
| SensorModel.NewDataStep | src/common/sensor_data_buffer.cpp:87-98 | a FLOAT or INTEGER update of a catalog name writes its bits, sets `valid`, sets the type from the metric type and keeps `enabled`; other updates and all other slots are untouched |
| SensorData.SensorDataBuffer.constructor | src/common/sensor_data_buffer.cpp:12-15 | the new cache is registered, and its slots and the registry are what enabling from the initial store leaves |
| SensorData.SensorDataBuffer.Destroy | src/common/sensor_data_buffer.cpp:17-20 | the registry is emptied, and the slots, flag and registry records are what `DisableStep` leaves |
| SensorData.SensorDataBuffer.GetHandler | src/common/sensor_data_buffer.cpp:22-31 | the loop returns `FindHandler(handlers, "SENSOR_INFO_SCREEN")` |
| SensorData.SensorDataBuffer.EnableMetrics | src/common/sensor_data_buffer.cpp:38-62 | the result, the array of slots, the flag and the registry's records are exactly `EnableStep` of the state before |
| SensorData.SensorDataBuffer.Subscribe | src/common/sensor_data_buffer.cpp:52-53 | the record gets the bit, the slot gets `enabled`, nothing else in either array changes |
| SensorData.SensorDataBuffer.DisableMetrics | src/common/sensor_data_buffer.cpp:64-79 | the array of slots, the flag and the registry's records are exactly `DisableStep` of the state before |
| SensorData.SensorDataBuffer.Unsubscribe | src/common/sensor_data_buffer.cpp:73-75 | the record loses the bit, the slot loses `enabled` and `valid`, nothing else in either array changes |
| SensorData.SensorDataBuffer.GetValue | src/common/sensor_data_buffer.cpp:81-85 | the state is what `enableMetrics` leaves, and the value returned is a copy of the sensor's slot afterwards |
| SensorData.SensorDataBuffer.HandleNewData | src/common/sensor_data_buffer.cpp:87-98 | the slots become `NewDataStep` of the slots before; nothing else is writable |
| SensorData.Registry.constructor | src/common/sensor_data_buffer.cpp:4 | no cache is registered at start |
| SensorData.Registry.RegisterBuffer | src/common/sensor_data_buffer.cpp:100-104 | callable only while no cache is registered (the assertion); the given cache is registered afterwards |
| SensorData.Registry.UnregisterBuffer | src/common/sensor_data_buffer.cpp:106-109 | no cache is registered afterwards, whatever was before |
| SensorData.Registry.HandleNewData | src/common/sensor_data_buffer.cpp:111-116 | a registered cache's slots become `NewDataStep` of the update; with none registered nothing may change |
| SensorProperties.MatchedNamesCount | src/common/sensor_data_buffer.cpp:50-51 | with unique registry names, the running count equals the number of distinct catalog names matched |
| SensorProperties.FullCountMatchesCatalog | src/common/sensor_data_buffer.cpp:56-58 | with unique registry names, a count equal to the catalog size means every catalog sensor has been matched |
| SensorProperties.EnableKeepsCoherent | src/common/sensor_data_buffer.cpp:56-58 | with unique registry names, a `true` from `enableMetrics` means every catalog sensor's slot is enabled, and a set flag keeps meaning that |
| SensorProperties.DisableKeepsCoherent | src/common/sensor_data_buffer.cpp:64-78 | `disableMetrics` preserves coherence: if the flag was only set while every catalog sensor was enabled, it still is (a missing handler changes nothing; otherwise the flag drops) |
| SensorProperties.NewDataKeepsCoherent | src/common/sensor_data_buffer.cpp:93-95 | storing an update never changes any `enabled` flag |
| SensorProperties.EnableIdempotent | src/common/sensor_data_buffer.cpp:38-62 | a second `enableMetrics` right after the first returns the same result and leaves the same slots, flag and records |
| SensorProperties.DisableUndoesEnable | src/common/sensor_data_buffer.cpp:64-79 | disabling after enabling leaves exactly what disabling alone leaves: the bits set and slots enabled by the enable are all cleared again |
| SensorProperties.EnableStopsAtFullCount | src/common/sensor_data_buffer.cpp:48-60 | a record is touched only if it is in the catalog and the count had not yet reached the catalog size before it; every such record is subscribed, all catalog records when the result is `false` |
| SensorProperties.ReadAfterNewData | src/common/sensor_data_buffer.cpp:81-95 | after an update with bits V and type T of a catalog metric, the subscription attempt of `GetValue` leaves the slot valid with type T and bits V |
| SensorProperties.ReadAfterDisable | src/common/sensor_data_buffer.cpp:64-85 | after `disableMetrics` with the handler present, the `GetValue` of a sensor that a registry record resolves to returns a reading that is not valid, even after its subscription attempt |
| SensorProperties.DuplicateNamesFillCount | src/common/sensor_data_buffer.cpp:50-58 | two records with the same catalog name fill the count of a two-entry catalog: the result is `true` while the other sensor stays unsubscribed |
| SensorScenario.Start | src/common/sensor_data_buffer.cpp:12-15 | a freshly constructed cache is registered, has the first record's sensor enabled and no valid slot, and keeps the records' names and types |
| SensorScenario.UpdateThenRead | src/common/sensor_data_buffer.cpp:81-95 | an update of a subscribed FLOAT catalog metric delivered through the registry is read back as valid, enabled, float-typed, with its bits |
| SensorScenario.UpdateUnknown | src/common/sensor_data_buffer.cpp:111-116 | an update of a name outside the catalog delivered through the registry leaves the value store as it was |
| SensorScenario.Restart | src/common/sensor_data_buffer.cpp:17-20 | after destroying the cache, a second cache can be registered and its first reading is not valid |
| SensorScenario.Run | src/common/sensor_data_buffer.cpp:12-20 | for any two sorted catalog names and a third outside the catalog: update read back, unknown update dropped, no valid reading after a restart |
| SensorScenario.Scenario | src/common/sensor_data_buffer.cpp:12-20 | "bedTemp"/"printFan" with "unknownSensor": 60.5 is read back valid and float-typed, the unknown update is dropped, the restarted cache's first reading is not valid |

## Left out

- The FreeRTOS mutex and the `std::unique_lock`s (`src/common/sensor_data_buffer.cpp:3`, `:83`, `:92`, `:102`, `:107`, `:112`). Every operation is modelled as one atomic sequential step. Two consequences are outside a sequential model:
  - The free `HandleNewData` holds the mutex while the member `HandleNewData` locks it again (`:112-114` and `:92`).
  - `RegisterBuffer` checks its assertion before it takes the lock (`:101-102`).
- The assertion in `RegisterBuffer` becomes a precondition of `Registry.RegisterBuffer` and of the constructor. A program that registers twice does not verify, rather than aborting.
- The `enabled_handlers` bitmask is modelled as the set of its set bit positions, and handler identifiers as positions below 32. A shift by 32 or more, undefined in C++, is not modelled.
- The value union is modelled as its 32 raw bits. The cache copies `value_float` whatever the metric type, so no float or integer arithmetic is modelled.
- `first_sensor_to_log` (`:33-37`) only fills the unused second half of the `lower_bound` probe and has no effect on any result.
- `sensor_data_buffer.hpp` is not part of this model. The `sensors` table, `compareFN` and the `Value` layout are taken as given:
  - the catalog is a parameter, sorted by a lexicographic order on names that stands in for `strcmp` (`compareFN` is assumed to compare names with `strcmp`);
  - every catalog sensor is assumed to have a slot;
  - a new cache's slots are assumed to start with zero bits, not valid, not enabled and float-typed;
  - a new cache's `allMetricsEnabled` is assumed to start as `false`.
- The metrics registry's iterators and `metric_get_handlers` are modelled as an array of records and a list of handlers. The NUL terminator of the handler list is not modelled. `metric_point_t` is reduced to its metric record and its value bits.
- Names are modelled as character sequences, not NUL-terminated byte strings. Characters compare by code, where `strcmp` compares unsigned bytes.
- `info_screen_handler` (`:6-8`) is the same forwarding call as `Registry.HandleNewData` and has no member of its own.
- `src/gui/screen_menu_lan_settings.cpp` is not part of this model. It is menu and network-device glue over functions that are not visible.
- SensorProperties.EnableKeepsCoherent: assumes the registry's metric names are unique. The loop counts matching records, not distinct names, so without that premise `true` can be returned while a catalog sensor is still unsubscribed (SensorProperties.DuplicateNamesFillCount).
