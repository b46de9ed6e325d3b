/**
 * The beacon registry of the scanner: a map from beacon key to its latest
 * reading, kept in insertion order as a JavaScript Map is, together with the
 * time of the last accepted flush and the strongest-first snapshot that the
 * last flush published.
 *
 * Smoothed RSSI is in hundredths of a dBm, distance in centimetres, times in
 * milliseconds.
 */
module BeaconRegistry {
  import opened Optional

  /** Readings not refreshed for longer than this are evicted at a flush. */
  const StaleTimeoutMs := 5000

  /** A flush less than this long after the last accepted one does nothing. */
  const ThrottleMs := 500

  datatype BeaconReading = BeaconReading(uuid: string, rawRssi: int, smoothedRssi: int, distance: int, lastSeen: int)

  /** order: the map's keys in insertion order; entries: the map itself. */
  datatype Registry = Registry(order: seq<string>, entries: map<string, BeaconReading>, lastFlush: int, snapshot: seq<BeaconReading>)

  const EmptyRegistry := Registry([], map[], 0, [])

  predicate Distinct(s: seq<string>)
  {
    forall i, j :: 0 <= i < j < |s| ==> s[i] != s[j]
  }

  /** The order lists each key of the map exactly once, and every reading is filed under its own UUID. */
  ghost predicate WellFormed(g: Registry)
  {
    && Distinct(g.order)
    && (forall k :: k in g.entries <==> k in g.order)
    && (forall k :: k in g.entries ==> g.entries[k].uuid == k)
  }

  predicate IsStale(r: BeaconReading, now: int)
  {
    now - r.lastSeen > StaleTimeoutMs
  }

  /** Map.set: replace the reading under r.uuid in place, or append a new key. */
  function Upserted(g: Registry, r: BeaconReading): (g': Registry)
    ensures g'.entries.Keys == g.entries.Keys + {r.uuid}
    ensures g'.entries[r.uuid] == r
    ensures forall k :: k in g.entries && k != r.uuid ==> g'.entries[k] == g.entries[k]
    ensures r.uuid in g.entries ==> g'.order == g.order
    ensures r.uuid !in g.entries ==> g'.order == g.order + [r.uuid]
    ensures g'.lastFlush == g.lastFlush && g'.snapshot == g.snapshot
    ensures WellFormed(g) ==> WellFormed(g')
  {
    if r.uuid in g.entries then g.(entries := g.entries[r.uuid := r])
    else g.(order := g.order + [r.uuid], entries := g.entries[r.uuid := r])
  }

  /** The map after deleting every stale reading. */
  function Evicted(entries: map<string, BeaconReading>, now: int): (r: map<string, BeaconReading>)
    ensures forall k :: k in r <==> k in entries && !IsStale(entries[k], now)
    ensures forall k :: k in r ==> r[k] == entries[k]
  {
    map k | k in entries && !IsStale(entries[k], now) :: entries[k]
  }

  /** The map after deleting, key by key along ks, every stale reading. */
  function EvictedAmong(entries: map<string, BeaconReading>, ks: seq<string>, now: int): (r: map<string, BeaconReading>)
    ensures forall k :: k in r <==> k in entries && !(k in ks && IsStale(entries[k], now))
    ensures forall k :: k in r ==> r[k] == entries[k]
  {
    if ks == [] then entries
    else
      var k := ks[|ks| - 1];
      var r := EvictedAmong(entries, ks[..|ks| - 1], now);
      if k in entries && IsStale(entries[k], now) then r - {k} else r
  }

  lemma EvictedAmongSnoc(entries: map<string, BeaconReading>, ks: seq<string>, k: string, now: int)
    ensures EvictedAmong(entries, ks + [k], now)
         == var r := EvictedAmong(entries, ks, now); if k in entries && IsStale(entries[k], now) then r - {k} else r
  {
  }

  /** Walking every key of the map deletes exactly the stale readings. */
  lemma EvictedAmongAll(entries: map<string, BeaconReading>, ks: seq<string>, now: int)
    requires forall k :: k in entries ==> k in ks
    ensures EvictedAmong(entries, ks, now) == Evicted(entries, now)
  {
  }

  /** The insertion order after deleting every stale reading. */
  function FreshOrder(order: seq<string>, entries: map<string, BeaconReading>, now: int): (r: seq<string>)
    ensures forall k :: k in r <==> k in order && k in entries && !IsStale(entries[k], now)
    ensures Distinct(order) ==> Distinct(r)
  {
    if order == [] then []
    else
      var k := order[|order| - 1];
      FreshOrder(order[..|order| - 1], entries, now) + (if k in entries && !IsStale(entries[k], now) then [k] else [])
  }

  /** Filtering one more key at the end of the order filters the prefix and then that key. */
  lemma FreshOrderSnoc(order: seq<string>, k: string, entries: map<string, BeaconReading>, now: int)
    ensures FreshOrder(order + [k], entries, now)
         == FreshOrder(order, entries, now) + (if k in entries && !IsStale(entries[k], now) then [k] else [])
  {
  }

  /** Deleting stale keys keeps the surviving keys in their insertion order, as Map.delete does. */
  lemma {:induction false} FreshOrderKeepsOrder(order: seq<string>, entries: map<string, BeaconReading>, now: int, a: int, b: int)
    requires 0 <= a < b < |order|
    requires order[a] in entries && !IsStale(entries[order[a]], now)
    requires order[b] in entries && !IsStale(entries[order[b]], now)
    ensures var r := FreshOrder(order, entries, now);
      exists i, j :: 0 <= i < j < |r| && r[i] == order[a] && r[j] == order[b]
    decreases |order|
  {
    var init := order[..|order| - 1];
    var prev := FreshOrder(init, entries, now);
    var r := FreshOrder(order, entries, now);
    assert order == init + [order[|order| - 1]];
    FreshOrderSnoc(init, order[|order| - 1], entries, now);
    if b == |order| - 1 {
      assert order[a] == init[a];
      var i :| 0 <= i < |prev| && prev[i] == order[a];
      assert r[i] == order[a] && r[|prev|] == order[b];
    } else {
      assert order[a] == init[a] && order[b] == init[b];
      FreshOrderKeepsOrder(init, entries, now, a, b);
      var i, j :| 0 <= i < j < |prev| && prev[i] == order[a] && prev[j] == order[b];
      assert r[i] == prev[i] && r[j] == prev[j];
    }
  }

  /** Array.from(map.values()): the readings in insertion order. */
  function ValuesInOrder(order: seq<string>, entries: map<string, BeaconReading>): (r: seq<BeaconReading>)
    requires forall k :: k in order ==> k in entries
  {
    seq(|order|, i requires 0 <= i < |order| => entries[order[i]])
  }

  predicate SortedDesc(s: seq<BeaconReading>)
  {
    forall i, j :: 0 <= i < j < |s| ==> s[i].smoothedRssi >= s[j].smoothedRssi
  }

  /** Insert x after every reading at least as strong as x. */
  function Insert(l: seq<BeaconReading>, x: BeaconReading): seq<BeaconReading>
  {
    if l == [] then [x]
    else if l[0].smoothedRssi >= x.smoothedRssi then [l[0]] + Insert(l[1..], x)
    else [x] + l
  }

  /** A reading at least as strong as every reading of a strongest-first list may head it. */
  lemma SortedCons(h: BeaconReading, s: seq<BeaconReading>)
    requires SortedDesc(s)
    requires forall i :: 0 <= i < |s| ==> h.smoothedRssi >= s[i].smoothedRssi
    ensures SortedDesc([h] + s)
  {
  }

  /** Every reading of Insert(l, x) is x or a reading of l. */
  lemma {:induction false} InsertMembers(l: seq<BeaconReading>, x: BeaconReading)
    ensures forall b :: b in Insert(l, x) ==> b == x || b in l
  {
    if l != [] && l[0].smoothedRssi >= x.smoothedRssi {
      InsertMembers(l[1..], x);
    }
  }

  /** Inserting into a strongest-first list adds exactly x and keeps the list strongest first. */
  lemma {:induction false} InsertKeepsOrder(l: seq<BeaconReading>, x: BeaconReading)
    requires SortedDesc(l)
    ensures multiset(Insert(l, x)) == multiset(l) + multiset{x}
    ensures SortedDesc(Insert(l, x))
  {
    if l == [] {
    } else if l[0].smoothedRssi >= x.smoothedRssi {
      var tail := l[1..];
      assert SortedDesc(tail);
      InsertKeepsOrder(tail, x);
      InsertMembers(tail, x);
      var rest := Insert(tail, x);
      assert l == [l[0]] + tail;
      forall i | 0 <= i < |rest|
        ensures l[0].smoothedRssi >= rest[i].smoothedRssi
      {
        assert rest[i] in rest;
      }
      SortedCons(l[0], rest);
    } else {
      SortedCons(x, l);
    }
  }

  /**
   * The list sorted by smoothed RSSI, strongest first, with no tie-break:
   * a stable sort, so readings of equal strength keep their order.
   */
  function StrongestFirst(s: seq<BeaconReading>): (r: seq<BeaconReading>)
    ensures multiset(r) == multiset(s)
    ensures SortedDesc(r)
  {
    if s == [] then []
    else
      var init := s[..|s| - 1];
      assert s == init + [s[|s| - 1]];
      InsertKeepsOrder(StrongestFirst(init), s[|s| - 1]);
      Insert(StrongestFirst(init), s[|s| - 1])
  }

  /**
   * flush: throttled to once per ThrottleMs; an accepted flush records the
   * time, evicts every stale reading and publishes the remaining readings
   * strongest first.
   */
  function Flushed(g: Registry, now: int): (r: Registry)
    requires WellFormed(g)
    ensures WellFormed(r)
    ensures now - g.lastFlush < ThrottleMs ==> r == g
    ensures now - g.lastFlush >= ThrottleMs ==> r.lastFlush == now
    ensures now - g.lastFlush >= ThrottleMs ==> r.order == FreshOrder(g.order, g.entries, now)
    ensures now - g.lastFlush >= ThrottleMs ==> forall k :: k in r.entries <==> k in g.entries && !IsStale(g.entries[k], now)
    ensures forall k :: k in r.entries ==> r.entries[k] == g.entries[k]
    ensures now - g.lastFlush >= ThrottleMs ==> r.snapshot == StrongestFirst(ValuesInOrder(r.order, r.entries))
  {
    if now - g.lastFlush < ThrottleMs then g
    else
      var order := FreshOrder(g.order, g.entries, now);
      var entries := Evicted(g.entries, now);
      Registry(order, entries, now, StrongestFirst(ValuesInOrder(order, entries)))
  }

  /** The first reading of a snapshot, or None when it is empty. */
  function Strongest(snapshot: seq<BeaconReading>): (r: Option<BeaconReading>)
    ensures r.None? <==> snapshot == []
    ensures r.Some? ==> r.value in snapshot
    ensures snapshot != [] ==> r == Some(snapshot[0])
    ensures r.Some? && SortedDesc(snapshot) ==> forall b :: b in snapshot ==> r.value.smoothedRssi >= b.smoothedRssi
  {
    if |snapshot| > 0 then Some(snapshot[0]) else None
  }

  lemma {:induction false} DistinctCardinality(s: seq<string>)
    requires Distinct(s)
    ensures |set k | k in s| == |s|
  {
    if s != [] {
      var n := |s|;
      var init := s[..n - 1];
      DistinctCardinality(init);
      assert (set k | k in s) == (set k | k in init) + {s[n - 1]};
      assert s[n - 1] !in (set k | k in init);
    }
  }

  /** In a well-formed registry the readings in insertion order list each map value exactly once. */
  lemma ValuesInOrderEnumerates(g: Registry)
    requires WellFormed(g)
    ensures |ValuesInOrder(g.order, g.entries)| == |g.entries|
    ensures forall b :: b in ValuesInOrder(g.order, g.entries) ==> b.uuid in g.entries && g.entries[b.uuid] == b
    ensures forall k :: k in g.entries ==> g.entries[k] in ValuesInOrder(g.order, g.entries)
  {
    var vals := ValuesInOrder(g.order, g.entries);
    DistinctCardinality(g.order);
    assert g.entries.Keys == set k | k in g.order;
    forall k | k in g.entries
      ensures g.entries[k] in vals
    {
      var i :| 0 <= i < |g.order| && g.order[i] == k;
      assert vals[i] == g.entries[k];
    }
  }

  /** The strongest-first list of a well-formed registry's readings lists exactly its map values. */
  lemma StrongestFirstEnumerates(g: Registry)
    requires WellFormed(g)
    ensures var s := StrongestFirst(ValuesInOrder(g.order, g.entries));
      && SortedDesc(s)
      && |s| == |g.entries|
      && (forall b :: b in s ==> b.uuid in g.entries && g.entries[b.uuid] == b)
      && (forall k :: k in g.entries ==> g.entries[k] in s)
  {
    var vals := ValuesInOrder(g.order, g.entries);
    var s := StrongestFirst(vals);
    ValuesInOrderEnumerates(g);
    assert multiset(s) == multiset(vals);
    assert |s| == |multiset(s)| == |multiset(vals)| == |vals|;
    forall b | b in s
      ensures b in vals
    {
      assert b in multiset(s);
    }
    forall k | k in g.entries
      ensures g.entries[k] in s
    {
      assert g.entries[k] in multiset(vals);
    }
  }

  /**
   * After an accepted flush no reading in the map is stale, every reading
   * that was fresh is still there unchanged, and the snapshot lists exactly
   * the readings of the map, strongest first.
   */
  lemma FlushedSnapshot(g: Registry, now: int)
    requires WellFormed(g)
    requires now - g.lastFlush >= ThrottleMs
    ensures var r := Flushed(g, now);
      && r.lastFlush == now
      && (forall k :: k in r.entries ==> !IsStale(r.entries[k], now))
      && (forall k :: k in g.entries && !IsStale(g.entries[k], now) ==> k in r.entries && r.entries[k] == g.entries[k])
      && SortedDesc(r.snapshot)
      && |r.snapshot| == |r.entries|
      && (forall b :: b in r.snapshot ==> b.uuid in r.entries && r.entries[b.uuid] == b)
      && (forall k :: k in r.entries ==> r.entries[k] in r.snapshot)
  {
    StrongestFirstEnumerates(Flushed(g, now));
  }

  /**
   * The beacon reported as strongest after an accepted flush is a reading
   * of the map at least as strong as every other, and there is one exactly
   * when the map is not empty.
   */
  lemma StrongestAfterFlush(g: Registry, now: int)
    requires WellFormed(g)
    requires now - g.lastFlush >= ThrottleMs
    ensures var r := Flushed(g, now);
      var top := Strongest(r.snapshot);
      && (top.None? <==> |r.entries| == 0)
      && (top.Some? ==> top.value.uuid in r.entries && r.entries[top.value.uuid] == top.value)
      && (top.Some? ==> forall k :: k in r.entries ==> top.value.smoothedRssi >= r.entries[k].smoothedRssi)
  {
    FlushedSnapshot(g, now);
  }
}
