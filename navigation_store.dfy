/**
 * The navigation store: live navigation state and the persisted recent
 * history. Every action is a pure update from the old state to the new one.
 */
module NavigationStore {
  import opened Optional

  /** The recent history keeps at most this many entries. */
  const MaxRecent := 10

  datatype RecentNavigation = RecentNavigation(
    locationId: int,
    name: string,
    roomNumber: Option<string>,
    buildingName: string,
    floorNumber: int,
    timestamp: int)

  /** A route from the pathfinding service: its length and the ids of the nodes along it. */
  datatype PathResult = PathResult(totalDistance: real, nodeIds: seq<int>)

  datatype NavigationState = NavigationState(
    currentLocationId: Option<int>,
    destinationId: Option<int>,
    isNavigating: bool,
    isEmergency: bool,
    routeResult: Option<PathResult>,
    recentNavigations: seq<RecentNavigation>)

  /** The part of the state written to storage. */
  datatype Persisted = Persisted(recentNavigations: seq<RecentNavigation>)

  /** The state before any action: nothing selected, no navigation, an empty history. */
  function Initial(): (s: NavigationState)
    ensures s.currentLocationId.None? && s.destinationId.None? && s.routeResult.None?
    ensures !s.isNavigating && !s.isEmergency
    ensures s.recentNavigations == [] && DistinctLocations(s.recentNavigations)
    ensures StopNavigation(s) == s && Partialize(s) == Persisted([])
  {
    NavigationState(None, None, false, false, None, [])
  }

  function SetCurrentLocation(s: NavigationState, id: Option<int>): (r: NavigationState)
    ensures r.currentLocationId == id
    ensures r.(currentLocationId := s.currentLocationId) == s
  {
    s.(currentLocationId := id)
  }

  function SetDestination(s: NavigationState, id: Option<int>): (r: NavigationState)
    ensures r.destinationId == id
    ensures r.(destinationId := s.destinationId) == s
  {
    s.(destinationId := id)
  }

  function SetRoute(s: NavigationState, route: Option<PathResult>): (r: NavigationState)
    ensures r.routeResult == route
    ensures r.(routeResult := s.routeResult) == s
  {
    s.(routeResult := route)
  }

  /** startNavigation; callers that omit the flag pass emergency = false. */
  function StartNavigation(s: NavigationState, destinationId: int, emergency: bool): (r: NavigationState)
    ensures r.destinationId == Some(destinationId) && r.isNavigating && r.isEmergency == emergency && r.routeResult.None?
    ensures r.currentLocationId == s.currentLocationId && r.recentNavigations == s.recentNavigations
  {
    s.(destinationId := Some(destinationId), isNavigating := true, isEmergency := emergency, routeResult := None)
  }

  function StopNavigation(s: NavigationState): (r: NavigationState)
    ensures !r.isNavigating && !r.isEmergency && r.routeResult.None? && r.destinationId.None?
    ensures r.currentLocationId == s.currentLocationId && r.recentNavigations == s.recentNavigations
  {
    s.(isNavigating := false, isEmergency := false, routeResult := None, destinationId := None)
  }

  /** filter(r => r.locationId !== id) */
  function WithoutLocation(l: seq<RecentNavigation>, id: int): (r: seq<RecentNavigation>)
    ensures forall x :: x in r <==> x in l && x.locationId != id
    ensures |r| <= |l|
  {
    if l == [] then []
    else (if l[0].locationId != id then [l[0]] else []) + WithoutLocation(l[1..], id)
  }

  /** a is b with some entries left out, the rest kept in order. */
  ghost predicate IsSubsequence(a: seq<RecentNavigation>, b: seq<RecentNavigation>)
    decreases |b|
  {
    if a == [] then true
    else if b == [] then false
    else (a[0] == b[0] && IsSubsequence(a[1..], b[1..])) || IsSubsequence(a, b[1..])
  }

  predicate DistinctLocations(l: seq<RecentNavigation>)
  {
    forall i, j :: 0 <= i < j < |l| ==> l[i].locationId != l[j].locationId
  }

  /** Put the entry first, drop older entries for the same location, keep the first MaxRecent. */
  function AddRecentNavigation(s: NavigationState, entry: RecentNavigation): (r: NavigationState)
    ensures r.(recentNavigations := s.recentNavigations) == s
  {
    var full := [entry] + WithoutLocation(s.recentNavigations, entry.locationId);
    s.(recentNavigations := if |full| > MaxRecent then full[..MaxRecent] else full)
  }

  function ClearRecent(s: NavigationState): (r: NavigationState)
    ensures r.recentNavigations == []
    ensures r.(recentNavigations := s.recentNavigations) == s
  {
    s.(recentNavigations := [])
  }

  /** Only the recent history is persisted. */
  function Partialize(s: NavigationState): (p: Persisted)
    ensures p.recentNavigations == s.recentNavigations
  {
    Persisted(s.recentNavigations)
  }

  lemma {:induction false} WithoutLocationIsSubsequence(l: seq<RecentNavigation>, id: int)
    ensures IsSubsequence(WithoutLocation(l, id), l)
  {
    if l != [] {
      var rest := WithoutLocation(l[1..], id);
      WithoutLocationIsSubsequence(l[1..], id);
      if l[0].locationId != id {
        assert ([l[0]] + rest)[1..] == rest;
      } else {
        assert WithoutLocation(l, id) == rest;
      }
    }
  }

  lemma {:induction false} WithoutLocationKeepsDistinct(l: seq<RecentNavigation>, id: int)
    requires DistinctLocations(l)
    ensures DistinctLocations(WithoutLocation(l, id))
  {
    if l != [] {
      var tail := l[1..];
      assert DistinctLocations(tail);
      WithoutLocationKeepsDistinct(tail, id);
      var rest := WithoutLocation(tail, id);
      if l[0].locationId != id {
        forall x | x in rest
          ensures x.locationId != l[0].locationId
        {
          var j :| 0 <= j < |tail| && tail[j] == x;
          assert l[j + 1] == x;
        }
        var r := [l[0]] + rest;
        forall i, j | 0 <= i < j < |r|
          ensures r[i].locationId != r[j].locationId
        {
          assert r[j] == rest[j - 1];
          if i > 0 {
            assert r[i] == rest[i - 1];
          } else {
            assert rest[j - 1] in rest;
          }
        }
      }
    }
  }

  lemma {:induction false} SubsequencePrefix(a: seq<RecentNavigation>, b: seq<RecentNavigation>, k: nat)
    requires IsSubsequence(a, b)
    requires k <= |a|
    ensures IsSubsequence(a[..k], b)
    decreases |b|
  {
    if k == 0 {
    } else if a[0] == b[0] && IsSubsequence(a[1..], b[1..]) {
      SubsequencePrefix(a[1..], b[1..], k - 1);
      assert a[..k][1..] == a[1..][..k - 1];
    } else {
      SubsequencePrefix(a, b[1..], k);
    }
  }

  /**
   * After adding an entry the history starts with it, holds at most MaxRecent
   * entries, no other entry is for the same location, the other entries are
   * earlier entries in their old relative order, the cap drops the oldest of
   * them, and the history is as long as the cap allows.
   */
  lemma AddRecentNavigationShape(s: NavigationState, entry: RecentNavigation)
    ensures var h := AddRecentNavigation(s, entry).recentNavigations;
      && |h| > 0 && h[0] == entry
      && |h| <= MaxRecent
      && (forall i :: 1 <= i < |h| ==> h[i].locationId != entry.locationId && h[i] in s.recentNavigations)
      && IsSubsequence(h[1..], s.recentNavigations)
      && h[1..] == WithoutLocation(s.recentNavigations, entry.locationId)[..|h| - 1]
      && |h| == if 1 + |WithoutLocation(s.recentNavigations, entry.locationId)| > MaxRecent then MaxRecent
                else 1 + |WithoutLocation(s.recentNavigations, entry.locationId)|
  {
    var rest := WithoutLocation(s.recentNavigations, entry.locationId);
    var full := [entry] + rest;
    var h := AddRecentNavigation(s, entry).recentNavigations;
    assert h == full[..|h|];
    assert h[1..] == rest[..|h| - 1];
    forall i | 1 <= i < |h|
      ensures h[i].locationId != entry.locationId && h[i] in s.recentNavigations
    {
      assert h[i] == rest[i - 1];
      assert rest[i - 1] in rest;
    }
    WithoutLocationIsSubsequence(s.recentNavigations, entry.locationId);
    SubsequencePrefix(rest, s.recentNavigations, |h| - 1);
  }

  /** A history with one entry per location keeps one entry per location after an add. */
  lemma AddRecentNavigationKeepsDistinct(s: NavigationState, entry: RecentNavigation)
    requires DistinctLocations(s.recentNavigations)
    ensures DistinctLocations(AddRecentNavigation(s, entry).recentNavigations)
  {
    var rest := WithoutLocation(s.recentNavigations, entry.locationId);
    WithoutLocationKeepsDistinct(s.recentNavigations, entry.locationId);
    var full := [entry] + rest;
    forall i, j | 0 <= i < j < |full|
      ensures full[i].locationId != full[j].locationId
    {
      assert full[j] == rest[j - 1];
      if i > 0 {
        assert full[i] == rest[i - 1];
      } else {
        assert rest[j - 1] in rest;
      }
    }
  }

  /** Adding an entry twice in a row is the same as adding it once. */
  lemma AddRecentNavigationIdempotent(s: NavigationState, entry: RecentNavigation)
    ensures AddRecentNavigation(AddRecentNavigation(s, entry), entry) == AddRecentNavigation(s, entry)
  {
    var h := AddRecentNavigation(s, entry).recentNavigations;
    AddRecentNavigationShape(s, entry);
    var rest := WithoutLocation(h, entry.locationId);
    assert h == [h[0]] + h[1..];
    WithoutLocationAllKept(h[1..], entry.locationId);
    assert rest == h[1..];
  }

  lemma {:induction false} WithoutLocationAllKept(l: seq<RecentNavigation>, id: int)
    requires forall i :: 0 <= i < |l| ==> l[i].locationId != id
    ensures WithoutLocation(l, id) == l
  {
    if l != [] {
      WithoutLocationAllKept(l[1..], id);
    }
  }
}
