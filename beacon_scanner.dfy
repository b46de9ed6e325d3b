/**
 * The beacon scanner hook as an object: the mutable refs of the hook
 * (beacon map, smoother, status, throttle time, intent) and its published
 * state (status, error, snapshot) are fields; every callback the hook
 * registers is a method, run as one sequential event. Time and hardware
 * outcomes are parameters.
 */
module BeaconScanner {
  import opened Optional
  import opened SignalProcessing
  import opened DistanceModel
  import opened BeaconRegistry
  import opened ScanLifecycle

  /** The smoother of the scanner keeps the last five samples of each beacon. */
  const SmootherWindowSize := 5

  /** A device as the BLE library reports it. */
  datatype Device = Device(id: string, localName: Option<string>, serviceUUIDs: Option<seq<string>>, rssi: Option<int>)

  /** One call of the scan callback: an error, or a (possibly null) device. */
  datatype ScanCallback = ScanError(message: string) | ScanResult(device: Option<Device>)

  /** The callback carries a usable reading: no error, a device, and an RSSI. */
  predicate IsReading(cb: ScanCallback)
  {
    cb.ScanResult? && cb.device.Some? && cb.device.value.rssi.Some?
  }

  /** The key a beacon is filed under: its first advertised service UUID, else its local name, else its device id. */
  function BeaconKey(d: Device): (k: string)
    ensures d.serviceUUIDs.Some? && |d.serviceUUIDs.value| > 0 ==> k == d.serviceUUIDs.value[0]
    ensures (d.serviceUUIDs.None? || d.serviceUUIDs.value == []) && d.localName.Some? ==> k == d.localName.value
    ensures (d.serviceUUIDs.None? || d.serviceUUIDs.value == []) && d.localName.None? ==> k == d.id
  {
    if d.serviceUUIDs.Some? && |d.serviceUUIDs.value| > 0 then d.serviceUUIDs.value[0]
    else if d.localName.Some? then d.localName.value
    else d.id
  }

  /** A registry reading agrees with its beacon's smoothing window: the latest raw sample, its smoothed value and the estimate from it. */
  ghost predicate AgreesWithWindow(r: BeaconReading, window: seq<int>, estimate: int -> int)
  {
    && window != []
    && r.rawRssi == window[|window| - 1]
    && r.smoothedRssi == Wma(window)
    && r.distance == estimate(r.smoothedRssi)
  }

  /**
   * The eviction loop of flush: walk the keys in insertion order and delete
   * every stale reading, returning the surviving keys in order and the map.
   */
  method EvictStale(keys: seq<string>, entries: map<string, BeaconReading>, now: int)
    returns (kept: seq<string>, remaining: map<string, BeaconReading>)
    requires forall k :: k in entries <==> k in keys
    ensures kept == FreshOrder(keys, entries, now)
    ensures remaining == Evicted(entries, now)
  {
    kept := [];
    remaining := entries;
    var i := 0;
    while i < |keys|
      invariant 0 <= i <= |keys|
      invariant kept == FreshOrder(keys[..i], entries, now)
      invariant remaining == EvictedAmong(entries, keys[..i], now)
    {
      var k := keys[i];
      assert keys[..i + 1] == keys[..i] + [k];
      FreshOrderSnoc(keys[..i], k, entries, now);
      EvictedAmongSnoc(entries, keys[..i], k, now);
      if IsStale(entries[k], now) {
        remaining := remaining - {k};
      } else {
        kept := kept + [k];
      }
      i := i + 1;
    }
    assert keys[..i] == keys;
    EvictedAmongAll(entries, keys, now);
  }

  class Scanner {
    var status: ScannerStatus
    var error: Option<string>
    var wantScanning: bool
    var powerSubscribed: bool
    var deviceScan: bool
    var appState: AppStateStatus

    var order: seq<string>
    var entries: map<string, BeaconReading>
    var lastFlush: int
    var beacons: seq<BeaconReading>

    const smoother: RssiSmoother
    /** rssiToDistance, as an estimator satisfying IsDistanceModel. */
    const estimate: int -> int

    function Lifecycle(): Lifecycle
      reads this
    {
      ScanLifecycle.Lifecycle(status, error, wantScanning, powerSubscribed, deviceScan, appState)
    }

    function State(): Registry
      reads this
    {
      Registry(order, entries, lastFlush, beacons)
    }

    ghost predicate Valid()
      reads this, smoother
    {
      && smoother.Valid()
      && smoother.windowSize == SmootherWindowSize
      && IsDistanceModel(estimate)
      && Inv(Lifecycle())
      && WellFormed(State())
      && SortedDesc(beacons)
      && (forall k :: k in entries ==> k in smoother.windows && AgreesWithWindow(entries[k], smoother.windows[k], estimate))
    }

    constructor (estimate: int -> int, appState: AppStateStatus)
      requires IsDistanceModel(estimate)
      ensures Valid() && fresh(smoother)
      ensures Lifecycle() == Initial(appState)
      ensures State() == EmptyRegistry && smoother.windows == map[]
    {
      status := Idle;
      error := None;
      wantScanning := false;
      powerSubscribed := false;
      deviceScan := false;
      this.appState := appState;
      order := [];
      entries := map[];
      lastFlush := 0;
      beacons := [];
      smoother := new RssiSmoother(SmootherWindowSize);
      this.estimate := estimate;
    }

    /** The derived strongest beacon: the head of the snapshot. */
    function StrongestBeacon(): (r: Option<BeaconReading>)
      reads this, smoother
      requires Valid()
      ensures r.None? <==> beacons == []
      ensures beacons != [] ==> r == Some(beacons[0])
      ensures r.Some? ==> r.value in beacons && forall b :: b in beacons ==> r.value.smoothedRssi >= b.smoothedRssi
    {
      BeaconRegistry.Strongest(beacons)
    }

    /** flush: throttled eviction of stale readings and a new strongest-first snapshot. */
    method Flush(now: int)
      requires Valid()
      modifies this
      ensures Valid()
      ensures State() == Flushed(old(State()), now)
      ensures Lifecycle() == old(Lifecycle())
    {
      if now - lastFlush < ThrottleMs {
        return;
      }
      ghost var g := State();
      ghost var r := Flushed(g, now);
      lastFlush := now;
      order, entries := EvictStale(order, entries, now);
      beacons := StrongestFirst(ValuesInOrder(order, entries));
      assert State() == r;
      forall k | k in entries
        ensures k in smoother.windows && AgreesWithWindow(entries[k], smoother.windows[k], estimate)
      {
        assert entries[k] == g.entries[k];
      }
    }

    /** The scan callback: ignore errors and devices without RSSI; otherwise smooth, estimate, upsert, flush. */
    method OnScanResult(cb: ScanCallback, now: int)
      requires Valid()
      modifies this, smoother
      ensures Valid()
      ensures Lifecycle() == old(Lifecycle())
      ensures !IsReading(cb) ==> State() == old(State()) && smoother.windows == old(smoother.windows)
      ensures IsReading(cb) ==>
        var key := BeaconKey(cb.device.value);
        var window := Slide(old(smoother.WindowOf(key)), cb.device.value.rssi.value, SmootherWindowSize);
        && smoother.windows == old(smoother.windows)[key := window]
        && State() == Flushed(Upserted(old(State()), BeaconReading(key, cb.device.value.rssi.value, Wma(window), estimate(Wma(window)), now)), now)
    {
      if cb.ScanError? {
        return;
      }
      if cb.device.None? || cb.device.value.rssi.None? {
        return;
      }
      var device := cb.device.value;
      var rssi := device.rssi.value;
      var uuid := BeaconKey(device);
      var smoothed := smoother.Push(uuid, rssi);
      var distance := estimate(smoothed);
      var reading := BeaconReading(uuid, rssi, smoothed, distance, now);
      if uuid !in entries {
        order := order + [uuid];
      }
      entries := entries[uuid := reading];
      assert State() == Upserted(old(State()), reading);
      Flush(now);
    }

    /** startScanning, with the adapter's answer and the outcome of starting a device scan as inputs. */
    method StartScanning(query: AdapterQuery, scanStart: Option<Thrown>)
      requires Valid()
      requires wantScanning
      modifies this, smoother
      ensures Valid()
      ensures Lifecycle() == AfterStartScanning(old(Lifecycle()), query, scanStart)
      ensures StartsSession(query) ==> State() == old(State()).(order := [], entries := map[]) && smoother.windows == map[]
      ensures !StartsSession(query) ==> State() == old(State()) && smoother.windows == old(smoother.windows)
    {
      error := None;
      match query {
        case QueryFailed(t) =>
          status := Error;
          error := Some(ErrorMessage(t));
        case Answered(s) =>
          if s != PoweredOn {
            status := BtOff;
            error := Some(if s == Unauthorized then PermissionDeniedMessage else PoweredOffMessage);
            powerSubscribed := true;
            return;
          }
          order := [];
          entries := map[];
          smoother.Clear();
          match scanStart {
            case None =>
              deviceScan := true;
              status := Scanning;
            case Some(t) =>
              status := Error;
              error := Some(ErrorMessage(t));
          }
      }
    }

    /** start: record the intent to scan, then startScanning. */
    method Start(query: AdapterQuery, scanStart: Option<Thrown>)
      requires Valid()
      modifies this, smoother
      ensures Valid()
      ensures Lifecycle() == AfterStart(old(Lifecycle()), query, scanStart)
      ensures StartsSession(query) ==> State() == old(State()).(order := [], entries := map[]) && smoother.windows == map[]
      ensures !StartsSession(query) ==> State() == old(State()) && smoother.windows == old(smoother.windows)
    {
      wantScanning := true;
      StartScanning(query, scanStart);
    }

    /** stop: drop the intent, stop the device scan, go idle. */
    method Stop()
      requires Valid()
      modifies this
      ensures Valid()
      ensures Lifecycle() == AfterStop(old(Lifecycle()))
      ensures State() == old(State())
    {
      wantScanning := false;
      deviceScan := false;
      status := Idle;
    }

    /** The adapter power-state listener. */
    method OnPowerStateChange(newState: AdapterState, query: AdapterQuery, scanStart: Option<Thrown>)
      requires Valid()
      modifies this, smoother
      ensures Valid()
      ensures Lifecycle() == AfterPowerChange(old(Lifecycle()), newState, query, scanStart)
      ensures PowerRestarts(old(Lifecycle()), newState) && StartsSession(query) ==>
        State() == old(State()).(order := [], entries := map[]) && smoother.windows == map[]
      ensures !(PowerRestarts(old(Lifecycle()), newState) && StartsSession(query)) ==>
        State() == old(State()) && smoother.windows == old(smoother.windows)
    {
      if powerSubscribed && newState == PoweredOn && wantScanning {
        powerSubscribed := false;
        StartScanning(query, scanStart);
      }
    }

    /** The app-state listener: pause on leaving the foreground, resume on return. */
    method OnAppStateChange(next: AppStateStatus, query: AdapterQuery, scanStart: Option<Thrown>)
      requires Valid()
      modifies this, smoother
      ensures Valid()
      ensures Lifecycle() == AfterAppStateChange(old(Lifecycle()), next, query, scanStart)
      ensures Resumes(old(Lifecycle()), next) && StartsSession(query) ==>
        State() == old(State()).(order := [], entries := map[]) && smoother.windows == map[]
      ensures !(Resumes(old(Lifecycle()), next) && StartsSession(query)) ==>
        State() == old(State()) && smoother.windows == old(smoother.windows)
    {
      var prev := appState;
      appState := next;
      if prev == Active && IsBackground(next) {
        if status == Scanning {
          deviceScan := false;
          status := Paused;
        }
        return;
      }
      if next == Active && IsBackground(prev) {
        if wantScanning && status == Paused {
          StartScanning(query, scanStart);
        }
      }
    }

    /** Unmount: drop the intent, stop the device scan and the power-state subscription. */
    method Unmount()
      modifies this
      ensures Lifecycle() == AfterUnmount(old(Lifecycle()))
      ensures State() == old(State())
    {
      wantScanning := false;
      deviceScan := false;
      powerSubscribed := false;
    }
  }
}
