/**
 * Beacon positioning: whenever the strongest beacon changes, ask the backend
 * which location the beacon marks and publish that location to the
 * navigation store. Calls are gated by a cooldown on the last resolved UUID
 * and a distance limit; the gate records the call before the request goes out.
 *
 * Distances are in centimetres, times in milliseconds.
 */
module BeaconPositioning {
  import opened Optional
  import opened BeaconRegistry
  import NavigationStore

  /** The same beacon is not resolved again within this many milliseconds. */
  const ResolveCooldownMs := 3000

  /** Beacons estimated farther than 15 m are not resolved. */
  const MaxResolveDistanceCm := 1500

  /** The location part of the resolve response (coordinates, floor and department are left out). */
  datatype Location = Location(id: int, kind: string, name: string, roomNumber: Option<string>, floorId: int)

  datatype ResolveResponse = ResolveResponse(beaconId: int, beaconName: Option<string>, operating: bool, location: Option<Location>)

  /** How the resolve request ended: a response, or a thrown error (network, HTTP status). */
  datatype ResolveOutcome = Resolved(response: ResolveResponse) | ResolveFailed

  /** The UUID and time of the last resolve call; no UUID before the first call. */
  datatype Cooldown = Cooldown(lastUuid: Option<string>, lastTime: int)

  const NoCooldown := Cooldown(None, 0)

  predicate CoolingDown(c: Cooldown, uuid: string, now: int)
  {
    c.lastUuid == Some(uuid) && now - c.lastTime < ResolveCooldownMs
  }

  /** The gate of resolveStrongest: not the same beacon within the cooldown, and near enough. */
  function Admits(c: Cooldown, b: BeaconReading, now: int): (ok: bool)
    ensures ok ==> b.distance <= MaxResolveDistanceCm
    ensures c.lastUuid == Some(b.uuid) && now - c.lastTime < ResolveCooldownMs ==> !ok
    ensures c.lastUuid != Some(b.uuid) ==> (ok <==> b.distance <= MaxResolveDistanceCm)
    ensures now - c.lastTime >= ResolveCooldownMs ==> (ok <==> b.distance <= MaxResolveDistanceCm)
  {
    !CoolingDown(c, b.uuid, now) && b.distance <= MaxResolveDistanceCm
  }

  /** The cooldown after the gate has seen b at now: an admitted beacon is recorded before the call. */
  function Recorded(c: Cooldown, b: BeaconReading, now: int): (r: Cooldown)
    ensures !Admits(c, b, now) ==> r == c
    ensures Admits(c, b, now) ==> r.lastUuid == Some(b.uuid) && r.lastTime == now
    ensures Admits(c, b, now) ==> forall t :: now <= t < now + ResolveCooldownMs ==> !Admits(r, b, t)
    ensures Admits(c, b, now) ==> forall t :: t >= now + ResolveCooldownMs ==> Admits(r, b, t)
  {
    if Admits(c, b, now) then Cooldown(Some(b.uuid), now) else c
  }

  /** The location a resolve outcome publishes, if any. */
  function Published(o: ResolveOutcome): (r: Option<Location>)
    ensures r.Some? <==> o.Resolved? && o.response.operating && o.response.location.Some?
    ensures r.Some? ==> r == o.response.location
  {
    match o
    case ResolveFailed => None
    case Resolved(res) => if res.operating then res.location else None
  }

  /** One invocation of resolveStrongest, and one request it sends. */
  datatype Trigger = Trigger(beacon: BeaconReading, now: int)
  datatype Call = Call(uuid: string, at: int)

  datatype GateResult = GateResult(cooldown: Cooldown, calls: seq<Call>)

  /** The calls a sequence of invocations sends, and the cooldown they leave. */
  function Gate(c: Cooldown, ts: seq<Trigger>): (r: GateResult)
    ensures |r.calls| <= |ts|
    ensures r.calls == [] ==> r.cooldown == c
  {
    if ts == [] then GateResult(c, [])
    else
      var g := Gate(c, ts[..|ts| - 1]);
      var t := ts[|ts| - 1];
      if Admits(g.cooldown, t.beacon, t.now)
      then GateResult(Recorded(g.cooldown, t.beacon, t.now), g.calls + [Call(t.beacon.uuid, t.now)])
      else g
  }

  /**
   * Over any sequence of invocations: the cooldown records the last call
   * sent (or is unchanged when none was sent), a call for the beacon the
   * initial cooldown names is at least ResolveCooldownMs after it, two
   * consecutive calls for the same beacon are at least ResolveCooldownMs
   * apart, and there are never more calls than invocations.
   */
  lemma {:induction false} GateSpacing(c: Cooldown, ts: seq<Trigger>)
    ensures var g := Gate(c, ts);
      && |g.calls| <= |ts|
      && (g.calls == [] ==> g.cooldown == c)
      && (g.calls != [] ==> g.cooldown == Cooldown(Some(g.calls[|g.calls| - 1].uuid), g.calls[|g.calls| - 1].at))
      && (g.calls != [] && c.lastUuid == Some(g.calls[0].uuid) ==> g.calls[0].at - c.lastTime >= ResolveCooldownMs)
      && (forall i :: 0 < i < |g.calls| && g.calls[i - 1].uuid == g.calls[i].uuid ==>
            g.calls[i].at - g.calls[i - 1].at >= ResolveCooldownMs)
  {
    if ts != [] {
      GateSpacing(c, ts[..|ts| - 1]);
    }
  }

  /** Every call is for an invocation whose beacon was within MaxResolveDistanceCm, at that invocation's time. */
  lemma {:induction false} GateCallsNearby(c: Cooldown, ts: seq<Trigger>)
    ensures forall call :: call in Gate(c, ts).calls ==>
      exists t :: t in ts && t.beacon.uuid == call.uuid && t.now == call.at && t.beacon.distance <= MaxResolveDistanceCm
  {
    if ts != [] {
      var init := ts[..|ts| - 1];
      GateCallsNearby(c, init);
      forall call | call in Gate(c, ts).calls
        ensures exists t :: t in ts && t.beacon.uuid == call.uuid && t.now == call.at && t.beacon.distance <= MaxResolveDistanceCm
      {
        if call in Gate(c, init).calls {
          var t :| t in init && t.beacon.uuid == call.uuid && t.now == call.at && t.beacon.distance <= MaxResolveDistanceCm;
          assert t in ts;
        } else {
          assert ts[|ts| - 1] in ts;
        }
      }
    }
  }

  /** A sequence of invocations all farther than the limit sends nothing and leaves the cooldown as it was. */
  lemma {:induction false} FarBeaconsNeverResolve(c: Cooldown, ts: seq<Trigger>)
    requires forall j :: 0 <= j < |ts| ==> ts[j].beacon.distance > MaxResolveDistanceCm
    ensures Gate(c, ts) == GateResult(c, [])
  {
    if ts != [] {
      FarBeaconsNeverResolve(c, ts[..|ts| - 1]);
    }
  }

  /** One more invocation: the gate sees it with the cooldown the earlier ones left. */
  lemma GateSnoc(c: Cooldown, ts: seq<Trigger>, t: Trigger)
    ensures var g := Gate(c, ts);
      Gate(c, ts + [t]) ==
        if Admits(g.cooldown, t.beacon, t.now)
        then GateResult(Cooldown(Some(t.beacon.uuid), t.now), g.calls + [Call(t.beacon.uuid, t.now)])
        else g
  {
  }

  /** The same beacon twice within the cooldown: only the first invocation calls the backend. */
  lemma RepeatWithinCooldownSkipped(c: Cooldown, b: BeaconReading, b2: BeaconReading, t1: int, t2: int)
    requires Admits(c, b, t1)
    requires b2.uuid == b.uuid && t1 <= t2 < t1 + ResolveCooldownMs
    ensures Gate(c, [Trigger(b, t1), Trigger(b2, t2)]).calls == [Call(b.uuid, t1)]
  {
    GateSnoc(c, [], Trigger(b, t1));
    GateSnoc(c, [Trigger(b, t1)], Trigger(b2, t2));
  }

  /** The same beacon again once the cooldown has run out is resolved again. */
  lemma RepeatAfterCooldownResolved(c: Cooldown, b: BeaconReading, b2: BeaconReading, t1: int, t2: int)
    requires Admits(c, b, t1)
    requires b2.uuid == b.uuid && b2.distance <= MaxResolveDistanceCm && t2 >= t1 + ResolveCooldownMs
    ensures Gate(c, [Trigger(b, t1), Trigger(b2, t2)]).calls == [Call(b.uuid, t1), Call(b.uuid, t2)]
  {
    GateSnoc(c, [], Trigger(b, t1));
    GateSnoc(c, [Trigger(b, t1)], Trigger(b2, t2));
  }

  /**
   * The cooldown remembers only the last UUID: alternating between two
   * nearby beacons resolves every time, however close together.
   */
  lemma AlternatingBeaconsAlwaysResolve(a: BeaconReading, b: BeaconReading, t1: int, t2: int, t3: int)
    requires a.uuid != b.uuid
    requires a.distance <= MaxResolveDistanceCm && b.distance <= MaxResolveDistanceCm
    ensures Gate(NoCooldown, [Trigger(a, t1), Trigger(b, t2), Trigger(a, t3)]).calls
         == [Call(a.uuid, t1), Call(b.uuid, t2), Call(a.uuid, t3)]
  {
    GateSnoc(NoCooldown, [], Trigger(a, t1));
    assert [] + [Trigger(a, t1)] == [Trigger(a, t1)];
    GateSnoc(NoCooldown, [Trigger(a, t1)], Trigger(b, t2));
    assert [Trigger(a, t1)] + [Trigger(b, t2)] == [Trigger(a, t1), Trigger(b, t2)];
    var g2 := Gate(NoCooldown, [Trigger(a, t1), Trigger(b, t2)]);
    assert g2 == GateResult(Cooldown(Some(b.uuid), t2), [Call(a.uuid, t1), Call(b.uuid, t2)]);
    assert Admits(g2.cooldown, a, t3);
    GateSnoc(NoCooldown, [Trigger(a, t1), Trigger(b, t2)], Trigger(a, t3));
    assert [Trigger(a, t1), Trigger(b, t2)] + [Trigger(a, t3)] == [Trigger(a, t1), Trigger(b, t2), Trigger(a, t3)];
  }

  /** The effect's dependencies: the strongest beacon's UUID and distance. */
  datatype EffectDeps = EffectDeps(uuid: Option<string>, distance: Option<int>)

  function DepsOf(strongest: Option<BeaconReading>): EffectDeps
  {
    match strongest
    case None => EffectDeps(None, None)
    case Some(b) => EffectDeps(Some(b.uuid), Some(b.distance))
  }

  /** The effect runs on the first render and whenever its dependencies change; it resolves only a present beacon. */
  predicate EffectResolves(prev: Option<EffectDeps>, strongest: Option<BeaconReading>)
  {
    strongest.Some? && prev != Some(DepsOf(strongest))
  }

  /** A change of the strongest beacon that keeps its UUID and distance (a new RSSI only) does not re-run the effect. */
  lemma SameDepsDoNotResolve(prev: BeaconReading, next: BeaconReading)
    requires next.uuid == prev.uuid && next.distance == prev.distance
    ensures !EffectResolves(Some(DepsOf(Some(prev))), Some(next))
  {
  }

  /**
   * The positioning hook as an object: the cooldown refs, the last resolved
   * location, the effect's last dependencies, and the navigation store it
   * publishes to.
   */
  class Positioning {
    var lastResolvedUuid: Option<string>
    var lastResolveTime: int
    var resolvedLocation: Option<Location>
    var lastDeps: Option<EffectDeps>
    var store: NavigationStore.NavigationState

    function CooldownState(): Cooldown
      reads this
    {
      Cooldown(lastResolvedUuid, lastResolveTime)
    }

    constructor (store: NavigationStore.NavigationState)
      ensures CooldownState() == NoCooldown
      ensures resolvedLocation.None? && lastDeps.None? && this.store == store
    {
      lastResolvedUuid := None;
      lastResolveTime := 0;
      resolvedLocation := None;
      lastDeps := None;
      this.store := store;
    }

    /**
     * The synchronous part of resolveStrongest: skip a beacon in its
     * cooldown or too far away; otherwise record it and send the request.
     */
    method BeginResolve(beacon: BeaconReading, now: int) returns (call: bool)
      modifies this
      ensures call == Admits(old(CooldownState()), beacon, now)
      ensures CooldownState() == Recorded(old(CooldownState()), beacon, now)
      ensures call ==> CooldownState() == Cooldown(Some(beacon.uuid), now)
      ensures resolvedLocation == old(resolvedLocation) && store == old(store) && lastDeps == old(lastDeps)
    {
      if lastResolvedUuid == Some(beacon.uuid) && now - lastResolveTime < ResolveCooldownMs {
        return false;
      }
      if beacon.distance > MaxResolveDistanceCm {
        return false;
      }
      lastResolvedUuid := Some(beacon.uuid);
      lastResolveTime := now;
      call := true;
    }

    /**
     * The continuation of resolveStrongest once the request ends: an
     * operating beacon with a location publishes it; anything else,
     * including a failed request, keeps the previous location.
     */
    method CompleteResolve(outcome: ResolveOutcome)
      modifies this
      ensures Published(outcome).Some? ==>
        resolvedLocation == Published(outcome)
        && store == NavigationStore.SetCurrentLocation(old(store), Some(Published(outcome).value.id))
      ensures Published(outcome).None? ==> resolvedLocation == old(resolvedLocation) && store == old(store)
      ensures CooldownState() == old(CooldownState()) && lastDeps == old(lastDeps)
    {
      if outcome.Resolved? && outcome.response.operating && outcome.response.location.Some? {
        var location := outcome.response.location.value;
        resolvedLocation := Some(location);
        store := NavigationStore.SetCurrentLocation(store, Some(location.id));
      }
    }

    /** A render with the current strongest beacon: run the effect when its dependencies changed. */
    method OnRender(strongest: Option<BeaconReading>, now: int) returns (call: bool)
      modifies this
      ensures lastDeps == Some(DepsOf(strongest))
      ensures call == (EffectResolves(old(lastDeps), strongest) && Admits(old(CooldownState()), strongest.value, now))
      ensures EffectResolves(old(lastDeps), strongest) ==> CooldownState() == Recorded(old(CooldownState()), strongest.value, now)
      ensures !EffectResolves(old(lastDeps), strongest) ==> CooldownState() == old(CooldownState())
      ensures resolvedLocation == old(resolvedLocation) && store == old(store)
    {
      var deps := DepsOf(strongest);
      var runs := lastDeps != Some(deps);
      lastDeps := Some(deps);
      call := false;
      if runs && strongest.Some? {
        call := BeginResolve(strongest.value, now);
      }
    }
  }
}
