# Beacon positioning core of the dolani mobile app, in Dafny

This project models the indoor-positioning pipeline of the dolani mobile
app. It covers these parts:

- **Signal smoothing.** `utils/signal-processing.ts` computes a weighted moving average over a per-beacon sliding window of RSSI samples.
- **Beacon scanner hook.** `hooks/useBeaconScanner.ts` covers the scan lifecycle, ingestion of scan callbacks, the throttled flush with stale eviction, and the strongest-first snapshot.
- **Resolution gate.** `hooks/useBeaconPositioning.ts` asks the backend which location the strongest beacon marks. Calls are subject to a cooldown and a distance limit.
- **Navigation store.** `store/useNavigationStore.ts` holds the store actions and the persisted recent history.

Modules, one per file:

| module | file | form |
|---|---|---|
| `Optional` | optional.dfy | `Option` datatype |
| `SignalProcessing` | signal_processing.dfy | `Wma` specification; `WeightedMovingAverage` loop; class `RssiSmoother` with a `windows` map field |
| `DistanceModel` | distance_model.dfy | what the scanner relies on from the distance estimator |
| `BeaconRegistry` | beacon_registry.dfy | pure specification of the beacon map: upsert, eviction, stable strongest-first sort, flush |
| `ScanLifecycle` | scan_lifecycle.dfy | pure transition functions of the scan lifecycle, and the invariant over every event trace |
| `BeaconScanner` | beacon_scanner.dfy | class `Scanner`; each callback is a method proved against the pure functions above |
| `BeaconPositioning` | beacon_positioning.dfy | the gate as a trace function `Gate`; class `Positioning` for the hook's refs |
| `NavigationStore` | navigation_store.dfy | the store actions as pure functions |

### Units and time

All values are exact integers:

- Raw RSSI is in dBm.
- Smoothed RSSI is in hundredths of a dBm. `Math.round(x * 100) / 100` becomes `RoundToHundredths`, and `Math.round` rounds halves up.
- Distance is in centimetres. The source's two-decimal metres are hundredths of a metre.
- Times are in milliseconds.

`Date.now()`, the adapter's answers and whether a call throws are all parameters of the methods.

### Callbacks and asynchronous code

Each hook callback runs as one sequential method call. `resolveStrongest` is split at its `await` into two methods:

- `BeginResolve` gates the call and records it before the request goes out.
- `CompleteResolve` publishes the response.

A call to `Gate` over a sequence of invocations gives the calls that are sent. `BeginResolve` performs one step of `Gate` (see `GateSnoc`). A sequence of `RssiSmoother.Push` calls for one UUID leaves the window `SlideAll` describes.

### Behaviour worth knowing

The model follows what the code does. These behaviours of the code are easy to miss:

- **stop keeps the power-state subscription.** `stop()` does not remove the adapter power-state subscription; only unmount does. After a bt-off start, then a stop, then a start with the adapter on, the scan runs while still subscribed. A power-on notification then runs `startScanning` again (`ScanLifecycle.StopKeepsPowerSubscription`).
- **Power loss while scanning is not observed.** The hook's header comment says bt-off is "detected automatically" (`hooks/useBeaconScanner.ts:63`). In the code the only way into bt-off is `startScanning` finding the adapter off; nothing watches the adapter while a scan runs.
- **The cooldown is not per beacon.** The gate skips "the same beacon" only when it was the last one resolved (`hooks/useBeaconPositioning.ts:56`): the cooldown is a single last-UUID record. Alternating between two beacons resolves each of them every time (`BeaconPositioning.AlternatingBeaconsAlwaysResolve`). So two calls for one identifier can fall within the cooldown window.
- **The snapshot sort has no identifier tie-break.** It is `Array.prototype.sort`, a stable sort, applied to the map in insertion order.
- **Flush does not touch the smoother.** Evicting a beacon leaves its smoothing window in place, and `startScanning` does not reset the published snapshot.
- **The session is cleared before the scan starts.** If starting the device scan throws, the registry and the smoother have already been cleared.

## Model

| member | source | states |
|---|---|---|
| SignalProcessing.Wma | utils/signal-processing.ts:8-21 | 0 for an empty window; otherwise the integer nearest to 100 times the weighted sum over the total weight 1 + … + n; a single sample smooths to itself |
| SignalProcessing.RoundToHundredths | utils/signal-processing.ts:20 | the result is the integer nearest to 100·num/den, halves rounded up |
| SignalProcessing.WeightedMovingAverage | utils/signal-processing.ts:8-21 | the accumulating loop returns `Wma(values)`, the weight-(i+1) average rounded to hundredths; an empty input gives 0 |
| SignalProcessing.WeightedSumBounds | utils/signal-processing.ts:14-18 | samples within [lo, hi] give a weighted sum between lo and hi times the total weight |
| SignalProcessing.WmaWithinRange | utils/signal-processing.ts:8-21 | the smoothed value of a non-empty window lies between its smallest and largest sample |
| SignalProcessing.WmaOfConstantWindow | utils/signal-processing.ts:8-21 | a window holding one repeated value smooths to exactly that value |
| SignalProcessing.WmaExample | utils/signal-processing.ts:8-21 | samples -70, -65, -60 smooth to -63.33 |
| SignalProcessing.Slide | utils/signal-processing.ts:43-46 | the new sample is appended; the oldest sample is dropped exactly when capacity is exceeded; the window never exceeds capacity |
| SignalProcessing.SlideAllKeepsNewest | utils/signal-processing.ts:36-49 | after any pushes, a window of positive capacity holds exactly the most recent samples it has room for, oldest first |
| SignalProcessing.RssiSmoother.constructor | utils/signal-processing.ts:27-33 | no windows, the given capacity |
| SignalProcessing.RssiSmoother.Push | utils/signal-processing.ts:36-49 | only this UUID's window changes, by one `Slide`; the result is the smoothed value of the new window; every other UUID's smoothed value is unchanged |
| SignalProcessing.RssiSmoother.Clear | utils/signal-processing.ts:52-54 | all windows are gone and every UUID reads as no data |
| SignalProcessing.RssiSmoother.Get | utils/signal-processing.ts:57-61 | no data exactly when the window is missing or empty, otherwise its smoothed value; nothing changes |
| BeaconRegistry.Upserted | hooks/useBeaconScanner.ts:161-167 | `Map.set`: the reading is filed under its UUID; other readings are unchanged; a new key goes last in insertion order; the registry stays well formed |
| BeaconRegistry.Evicted | hooks/useBeaconScanner.ts:90-95 | exactly the readings not older than the stale timeout remain, unchanged |
| BeaconRegistry.EvictedAmong | hooks/useBeaconScanner.ts:91-95 | deleting along the walked keys keeps a reading unless it was walked and is stale; kept readings are unchanged |
| BeaconRegistry.EvictedAmongAll | hooks/useBeaconScanner.ts:91-95 | a walk over every key of the map deletes exactly the stale readings |
| BeaconRegistry.FreshOrderKeepsOrder | hooks/useBeaconScanner.ts:90-95 | deleting stale keys keeps any two surviving keys in their insertion order |
| BeaconRegistry.FreshOrder | hooks/useBeaconScanner.ts:90-95 | the insertion order keeps exactly the surviving keys, without duplicates |
| BeaconRegistry.InsertKeepsOrder | hooks/useBeaconScanner.ts:97-99 | inserting into a strongest-first list adds exactly that reading and keeps it strongest first |
| BeaconRegistry.StrongestFirst | hooks/useBeaconScanner.ts:97-99 | the sort is a permutation of its input, ordered by descending smoothed RSSI |
| BeaconRegistry.Flushed | hooks/useBeaconScanner.ts:85-102 | a flush within 500 ms changes nothing; otherwise it records the time, keeps exactly the fresh readings unchanged with their keys in insertion order (`FreshOrder`), and publishes them strongest first |
| BeaconRegistry.Strongest | hooks/useBeaconScanner.ts:263 | no beacon exactly when the snapshot is empty; otherwise the head of the snapshot, which in a strongest-first snapshot is at least as strong as every other member |
| BeaconRegistry.StrongestAfterFlush | hooks/useBeaconScanner.ts:85-102 | after an accepted flush the reported beacon is a reading of the map at least as strong as every other, and there is one exactly when the map is not empty |
| BeaconRegistry.ValuesInOrderEnumerates | hooks/useBeaconScanner.ts:97 | the values in insertion order list every reading of the map exactly once |
| BeaconRegistry.StrongestFirstEnumerates | hooks/useBeaconScanner.ts:97-99 | the sorted snapshot lists exactly the map's readings, strongest first |
| BeaconRegistry.FlushedSnapshot | hooks/useBeaconScanner.ts:85-102 | after an accepted flush no reading is stale; every fresh reading is present unchanged; the snapshot lists exactly the map's readings, sorted |
| ScanLifecycle.AfterStartScanning | hooks/useBeaconScanner.ts:108-182 | scanning exactly when the adapter is on and the scan starts; bt-off exactly when the adapter answered not-on, then subscribed with the permission message (unauthorized) or the powered-off message; a thrown adapter query or device-scan start gives error with the thrown message or "Unknown BLE error"; the subscription changes only on bt-off; an error message exactly when not scanning |
| ScanLifecycle.AfterStart | hooks/useBeaconScanner.ts:197-200 | the intent is set; scanning exactly when the adapter is on and the scan starts; the invariant is kept |
| ScanLifecycle.AfterStop | hooks/useBeaconScanner.ts:202-207 | idle, no intent, no device scan; the subscription, error and app state are kept; the invariant holds whatever the state before |
| ScanLifecycle.AfterPowerChange | hooks/useBeaconScanner.ts:126-131 | nothing changes unless subscribed, powered on and wanted; only such a notification moves into scanning, and then drops the subscription; the invariant is kept |
| ScanLifecycle.AfterAppStateChange | hooks/useBeaconScanner.ts:213-237 | the app state is recorded and the intent kept; leaving the foreground while scanning pauses with no device scan; a change that neither pauses nor resumes changes only the app state; the invariant is kept |
| ScanLifecycle.AfterUnmount | hooks/useBeaconScanner.ts:251-255 | no intent, no device scan, no subscription, status and error kept; no later power notification can restart the scan |
| ScanLifecycle.InitialInv | hooks/useBeaconScanner.ts:69-80 | the initial lifecycle satisfies the invariant |
| ScanLifecycle.StepKeepsInv | hooks/useBeaconScanner.ts:108-240 | start, stop, power change and app-state change all preserve the invariant |
| ScanLifecycle.RunKeepsInv | hooks/useBeaconScanner.ts:108-240 | every event trace preserves the invariant |
| ScanLifecycle.NeverScansWithoutIntent | hooks/useBeaconScanner.ts:78 | from the initial state, no trace runs a device scan without the caller's intent; scanning implies a device scan |
| ScanLifecycle.BtOffThenPowerOnResumes | hooks/useBeaconScanner.ts:115-132 | a start with the adapter off goes to bt-off with the matching message; power-on then resumes scanning and drops the subscription |
| ScanLifecycle.StopThenPowerOnStaysIdle | hooks/useBeaconScanner.ts:202-207 | stop goes idle and clears intent; a later power-on changes nothing |
| ScanLifecycle.StopKeepsPowerSubscription | hooks/useBeaconScanner.ts:125-132 | a stop after a bt-off start leaves the subscription; a later powered-on start scans while subscribed and power-on restarts it |
| ScanLifecycle.PauseAndResume | hooks/useBeaconScanner.ts:213-237 | leaving the foreground pauses only a running scan; returning restarts only a paused scan the caller still wants |
| ScanLifecycle.BackgroundRoundTrip | hooks/useBeaconScanner.ts:213-237 | scanning, then background, gives paused with no device scan; foreground with the adapter on gives scanning again |
| BeaconScanner.BeaconKey | hooks/useBeaconScanner.ts:156 | the first advertised service UUID when there is one, else the local name when present, else the device id |
| BeaconScanner.EvictStale | hooks/useBeaconScanner.ts:90-95 | the deletion loop over the keys in insertion order leaves exactly the fresh keys in order (`FreshOrder`) and the fresh readings (`Evicted`) |
| BeaconScanner.Scanner.constructor | hooks/useBeaconScanner.ts:69-80 | idle, no intent, empty registry and smoother with window 5 |
| BeaconScanner.Scanner.StrongestBeacon | hooks/useBeaconScanner.ts:263 | no beacon exactly when the snapshot is empty; otherwise the head of the snapshot, which is at least as strong as every reading in it |
| BeaconScanner.Scanner.Flush | hooks/useBeaconScanner.ts:85-102 | the registry becomes `Flushed` of the old one; the lifecycle is unchanged; the scanner stays valid |
| BeaconScanner.Scanner.OnScanResult | hooks/useBeaconScanner.ts:149-170 | errors, missing devices and missing RSSI change nothing; otherwise the key's window slides, then the reading (raw, smoothed, estimate, now) is upserted and flushed |
| BeaconScanner.Scanner.StartScanning | hooks/useBeaconScanner.ts:108-182 | the lifecycle follows `AfterStartScanning`; the registry and smoother are cleared exactly when the adapter is on |
| BeaconScanner.Scanner.Start | hooks/useBeaconScanner.ts:197-200 | the intent is set, then `startScanning` runs |
| BeaconScanner.Scanner.Stop | hooks/useBeaconScanner.ts:202-207 | the intent is cleared, the device scan stops, the status is idle; the registry is kept |
| BeaconScanner.Scanner.OnPowerStateChange | hooks/useBeaconScanner.ts:126-131 | the listener restarts only when subscribed, powered on and wanted; the registry is cleared only then |
| BeaconScanner.Scanner.OnAppStateChange | hooks/useBeaconScanner.ts:213-237 | the lifecycle follows `AfterAppStateChange`; the registry is cleared only on a resume that starts a session |
| BeaconScanner.Scanner.Unmount | hooks/useBeaconScanner.ts:251-255 | the intent, the device scan and the subscription are dropped |
| BeaconPositioning.Admits | hooks/useBeaconPositioning.ts:56-65 | never admits a beacon beyond 15 m; refuses the last resolved UUID within 3000 ms of its call; for any other UUID, or after the cooldown, admits exactly the beacons within 15 m |
| BeaconPositioning.Recorded | hooks/useBeaconPositioning.ts:56-68 | a refused beacon leaves the cooldown unchanged; an admitted one is recorded with the time, is refused for the next 3000 ms and admitted again from then on |
| BeaconPositioning.Gate | hooks/useBeaconPositioning.ts:56-68 | never more calls than invocations; no call leaves the cooldown as it was |
| BeaconPositioning.Published | hooks/useBeaconPositioning.ts:72-79 | a location is published exactly when the request succeeded and the beacon is operating with a location |
| BeaconPositioning.GateSnoc | hooks/useBeaconPositioning.ts:56-68 | one more invocation is gated against the cooldown the earlier ones left, and recorded when sent |
| BeaconPositioning.GateSpacing | hooks/useBeaconPositioning.ts:56-68 | see "Properties of `GateSpacing`" below |
| BeaconPositioning.GateCallsNearby | hooks/useBeaconPositioning.ts:65 | every call comes from an invocation at most 15 m away, at that invocation's time |
| BeaconPositioning.FarBeaconsNeverResolve | hooks/useBeaconPositioning.ts:65 | invocations all farther than 15 m send nothing and leave the cooldown unchanged, whatever its state |
| BeaconPositioning.RepeatWithinCooldownSkipped | hooks/useBeaconPositioning.ts:56-62 | two invocations for one beacon within 3000 ms send exactly one call |
| BeaconPositioning.RepeatAfterCooldownResolved | hooks/useBeaconPositioning.ts:56-68 | an invocation after the cooldown sends a second call |
| BeaconPositioning.AlternatingBeaconsAlwaysResolve | hooks/useBeaconPositioning.ts:48-68 | with one last-UUID record, the sequence A, B, A of nearby beacons sends three calls |
| BeaconPositioning.SameDepsDoNotResolve | hooks/useBeaconPositioning.ts:85-89 | a new strongest reading with the same UUID and distance does not rerun the effect |
| BeaconPositioning.Positioning.constructor | hooks/useBeaconPositioning.ts:48-50 | no last UUID, time 0, no resolved location |
| BeaconPositioning.Positioning.BeginResolve | hooks/useBeaconPositioning.ts:53-68 | the call goes out exactly when the gate admits the beacon; the cooldown is recorded first; nothing else changes |
| BeaconPositioning.Positioning.CompleteResolve | hooks/useBeaconPositioning.ts:70-79 | an operating response with a location publishes it and sets the current location; failures keep the previous location |
| BeaconPositioning.Positioning.OnRender | hooks/useBeaconPositioning.ts:85-89 | the effect runs on the first render and on a change of the strongest beacon's UUID or distance; then `BeginResolve` runs |
| NavigationStore.Initial | store/useNavigationStore.ts:59-64 | nothing selected, not navigating, no emergency, no route, an empty history; stopping changes nothing and the persisted part is empty |
| NavigationStore.SetCurrentLocation | store/useNavigationStore.ts:66 | only the current location changes |
| NavigationStore.SetDestination | store/useNavigationStore.ts:67 | only the destination changes |
| NavigationStore.SetRoute | store/useNavigationStore.ts:68 | only the route changes |
| NavigationStore.StartNavigation | store/useNavigationStore.ts:70-71 | destination set, navigating, emergency flag as given, route cleared; location and history kept |
| NavigationStore.StopNavigation | store/useNavigationStore.ts:73-74 | not navigating, no emergency, route and destination cleared; location and history kept |
| NavigationStore.WithoutLocation | store/useNavigationStore.ts:80 | the filter keeps exactly the entries for other locations, never more |
| NavigationStore.WithoutLocationIsSubsequence | store/useNavigationStore.ts:80 | the filter keeps the surviving entries in their order |
| NavigationStore.WithoutLocationKeepsDistinct | store/useNavigationStore.ts:80 | a history with one entry per location keeps that property under the filter |
| NavigationStore.AddRecentNavigation | store/useNavigationStore.ts:76-82 | only the recent history changes |
| NavigationStore.AddRecentNavigationShape | store/useNavigationStore.ts:76-82 | see "Properties of `AddRecentNavigationShape`" below |
| NavigationStore.AddRecentNavigationKeepsDistinct | store/useNavigationStore.ts:76-82 | one entry per location is preserved |
| NavigationStore.AddRecentNavigationIdempotent | store/useNavigationStore.ts:76-82 | adding the same entry twice equals adding it once |
| NavigationStore.ClearRecent | store/useNavigationStore.ts:84 | the history is emptied and nothing else changes |
| NavigationStore.Partialize | store/useNavigationStore.ts:89-91 | exactly the recent history is persisted |

Properties of `GateSpacing`, over any invocation sequence:

- The cooldown records the last call sent, or is unchanged when none was sent.
- Consecutive calls for one beacon are at least 3000 ms apart.
- A first call for the recorded beacon is at least 3000 ms after the recorded time.
- There are never more calls than invocations.

Properties of `AddRecentNavigationShape`:

- The new entry comes first.
- The history holds at most 10 entries.
- No other entry has the new entry's location.
- The other entries are earlier entries, kept in their order.
- The cap drops the oldest entries: the others are the newest earlier entries for other locations.
- The history is as long as the cap allows.

## Left out

- **Distance estimator formula.** `rssiToDistance` (`utils/distance-model.ts`) is floating-point `Math.pow`. The scanner takes it as a function `estimate`, and the `Scanner` constructor requires `IsDistanceModel(estimate)`, so these facts are assumed of it, not proved:
  - it returns 10 cm for a non-negative RSSI;
  - it never returns less than 10 cm.

  Its formula and its monotonicity are not modelled.
- **Floating point in smoothing.** `WeightedMovingAverage` computes the average in exact rational arithmetic rather than IEEE doubles, so results exactly halfway between hundredths may differ from the source.
- **BLE manager and React plumbing.** The BLE manager singleton, the subscription objects, `console` logging, the `Platform` scan options and React's `useState`/`useCallback` are left out. The published `status`/`error` are the class fields.
- **Asynchronous interleaving.** Each callback and each half of `resolveStrongest` runs atomically. Interleavings inside `startScanning` (between the adapter query and the device-scan start) are not modelled.
- **Mount with autoStart.** `autoStart` on mount is the constructor followed by `Scanner.Start`.
- **Adapter subscription with emitCurrentState.** The initial notification of the power-state subscription is modelled as an ordinary later `OnPowerStateChange`.
- **Scan callbacks outside a session.** `BeaconScanner.Scanner.OnScanResult` accepts a callback in any state. The BLE library delivers callbacks only while a device scan runs, and the model does not restrict that.
- **One `now` for ingestion and flush.** `BeaconScanner.Scanner.OnScanResult` uses a single `now` for the reading's `lastSeen` and for the flush. The source calls `Date.now()` twice, moments apart.
- **Stable sort.** `BeaconRegistry.StrongestFirst` is a stable insertion sort like the engine's sort. Its stability is not stated as a lemma.
- **Resolve response shape.** `BeaconPositioning.Location` keeps id, type, name, room number and floor id. Coordinates, the nested floor and the department are left out because the gate never reads them.
- **Route shape.** `NavigationStore.PathResult` keeps the total distance and node ids in place of full graph nodes.
- **Out of scope.** The HTTP client, the react-query hooks, the MMKV storage adapter, rehydration, the settings store and every screen and component are outside the positioning core.
