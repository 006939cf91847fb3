/** The "Top 10 Pickup Zones" table (app.py:103-105): trips grouped by pickup
    location, inner-joined with the zone reference on the location id, sorted
    by trip count, largest first, and cut to ten rows. */
module TopZones {
  import opened Trips
  import opened Tables

  const TOP_N := 10

  /** One row of the zone reference table. */
  datatype Zone = Zone(locationId: int, borough: string, zone: string)

  /** One row of the chart table: a pickup location, its trip count, and the
      names of the reference entry it joined with. */
  datatype ZoneTrips = ZoneTrips(locationId: int, trips: nat, borough: string, zone: string)

  function TripsOf(r: ZoneTrips): int { r.trips }

  /** The `PULocationID` column. */
  function PickupIds(trips: seq<Trip>): (ids: seq<int>)
    ensures |ids| == |trips|
    ensures forall i :: 0 <= i < |trips| ==> ids[i] == trips[i].raw.puLocationId
  {
    seq(|trips|, i requires 0 <= i < |trips| => trips[i].raw.puLocationId)
  }

  /** How often an inner merge yields row `r` for location `id` with `trips`
      trips: once per copy of the matching reference entry. */
  function MatchMultiplicity(r: ZoneTrips, id: int, trips: nat, lookup: seq<Zone>): nat {
    if r.locationId == id && r.trips == trips then multiset(lookup)[Zone(id, r.borough, r.zone)] else 0
  }

  /** How often the merge of the group sizes of `ids` over `keys` with the
      reference yields row `r`. */
  function JoinMultiplicity(r: ZoneTrips, keys: seq<int>, ids: seq<int>, lookup: seq<Zone>): nat {
    if r.locationId in keys && r.trips == Count(ids, r.locationId)
    then multiset(lookup)[Zone(r.locationId, r.borough, r.zone)] else 0
  }

  /** Every reference entry for location `id`, joined with its trip count, in
      reference order. */
  function MatchZone(id: int, trips: nat, lookup: seq<Zone>): (rows: seq<ZoneTrips>)
    ensures forall r :: r in rows ==>
      r.locationId == id && r.trips == trips && Zone(id, r.borough, r.zone) in lookup
    ensures forall z :: z in lookup && z.locationId == id ==>
      ZoneTrips(id, trips, z.borough, z.zone) in rows
    ensures forall r :: multiset(rows)[r] == MatchMultiplicity(r, id, trips, lookup)
  {
    if lookup == [] then []
    else
      assert lookup == [lookup[0]] + lookup[1..];
      var here := if lookup[0].locationId == id then [ZoneTrips(id, trips, lookup[0].borough, lookup[0].zone)] else [];
      here + MatchZone(id, trips, lookup[1..])
  }

  /** The group sizes for `keys`, merged with the reference on the location id:
      a key without a reference entry contributes no row. */
  function JoinCounts(keys: seq<int>, ids: seq<int>, lookup: seq<Zone>): (rows: seq<ZoneTrips>)
    ensures forall r :: r in rows ==>
      && r.locationId in keys
      && r.trips == Count(ids, r.locationId)
      && Zone(r.locationId, r.borough, r.zone) in lookup
    ensures forall z :: z in lookup && z.locationId in keys ==>
      ZoneTrips(z.locationId, Count(ids, z.locationId), z.borough, z.zone) in rows
  {
    if keys == [] then []
    else MatchZone(keys[0], Count(ids, keys[0]), lookup) + JoinCounts(keys[1..], ids, lookup)
  }

  /** Over distinct keys the join holds one row per (key, matching reference
      entry) pair, as often as that entry occurs in the reference. */
  lemma {:induction false} JoinCountsMultiplicity(keys: seq<int>, ids: seq<int>, lookup: seq<Zone>)
    requires NoDuplicates(keys)
    ensures forall r :: multiset(JoinCounts(keys, ids, lookup))[r] == JoinMultiplicity(r, keys, ids, lookup)
  {
    if keys != [] {
      assert NoDuplicates(keys[1..]) by {
        forall i, j | 0 <= i < j < |keys[1..]| ensures keys[1..][i] != keys[1..][j] {
          assert keys[1..][i] == keys[i + 1] && keys[1..][j] == keys[j + 1];
        }
      }
      assert keys[0] !in keys[1..] by {
        forall k | 0 <= k < |keys[1..]| ensures keys[1..][k] != keys[0] {
          assert keys[1..][k] == keys[k + 1];
        }
      }
      JoinCountsMultiplicity(keys[1..], ids, lookup);
      assert forall x :: x in keys <==> x == keys[0] || x in keys[1..];
    }
  }

  /** `groupby("PULocationID").size()` (ascending ids) merged with the lookup
      (app.py:103-104): one row per pair of a location with trips and a
      reference entry for it, carrying that location's trip count. */
  function ZoneCounts(filtered: seq<Trip>, lookup: seq<Zone>): (joined: seq<ZoneTrips>)
    ensures forall r :: multiset(joined)[r] == JoinMultiplicity(r, PickupIds(filtered), PickupIds(filtered), lookup)
  {
    var ids := PickupIds(filtered);
    StrictlyIncreasingNoDuplicates(SortedKeys(ids));
    JoinCountsMultiplicity(SortedKeys(ids), ids, lookup);
    JoinCounts(SortedKeys(ids), ids, lookup)
  }

  /** With a duplicate-free reference the merged table has no repeated row. */
  lemma ZoneCountsDistinct(filtered: seq<Trip>, lookup: seq<Zone>)
    requires NoDuplicates(lookup)
    ensures NoDuplicates(ZoneCounts(filtered, lookup))
  {
    var joined := ZoneCounts(filtered, lookup);
    NoDuplicatesMultiset(lookup);
    assert forall r :: multiset(joined)[r] <= 1;
    NoDuplicatesMultiset(joined);
  }

  /** app.py:103-105. */
  function TopPickupZones(filtered: seq<Trip>, lookup: seq<Zone>): (top: seq<ZoneTrips>)
    ensures |top| <= TOP_N
    ensures |top| == if |ZoneCounts(filtered, lookup)| < TOP_N then |ZoneCounts(filtered, lookup)| else TOP_N
    ensures multiset(top) <= multiset(ZoneCounts(filtered, lookup))
    ensures NonIncreasing(top, TripsOf)
    ensures NoDuplicates(lookup) ==> NoDuplicates(top)
    ensures forall r :: r in top ==>
      && r.trips == Count(PickupIds(filtered), r.locationId)
      && r.trips > 0
      && Zone(r.locationId, r.borough, r.zone) in lookup
  {
    var joined := ZoneCounts(filtered, lookup);
    var top := TopBy(joined, TOP_N, TripsOf);
    assert NoDuplicates(lookup) ==> NoDuplicates(top) by {
      if NoDuplicates(lookup) {
        ZoneCountsDistinct(filtered, lookup);
        SubMultisetNoDuplicates(top, joined);
      }
    }
    assert forall r :: r in top ==> r in joined by {
      forall r | r in top ensures r in joined {
        assert r in multiset(top);
      }
    }
    top
  }

  // ---------------------------------------------------------------- lemmas

  /** Every location with trips and a reference entry is either shown or has
      no more trips than any location shown: the table is a true top ten. */
  lemma TopPickupZonesAreTop(filtered: seq<Trip>, lookup: seq<Zone>)
    ensures forall z, r ::
      && z in lookup && z.locationId in PickupIds(filtered)
      && ZoneTrips(z.locationId, Count(PickupIds(filtered), z.locationId), z.borough, z.zone)
           !in TopPickupZones(filtered, lookup)
      && r in TopPickupZones(filtered, lookup)
      ==> r.trips >= Count(PickupIds(filtered), z.locationId)
  {
    var ids := PickupIds(filtered);
    var joined := ZoneCounts(filtered, lookup);
    var sorted := SortDescending(joined, TripsOf);
    SortDescendingSorted(joined, TripsOf);
    forall z | z in lookup && z.locationId in ids
        && ZoneTrips(z.locationId, Count(ids, z.locationId), z.borough, z.zone) !in TopPickupZones(filtered, lookup)
      ensures forall r :: r in TopPickupZones(filtered, lookup) ==> r.trips >= Count(ids, z.locationId)
    {
      var row := ZoneTrips(z.locationId, Count(ids, z.locationId), z.borough, z.zone);
      assert row in joined;
      assert row in multiset(sorted);
      TakeOfSortedIsTop(sorted, TOP_N, TripsOf, row);
    }
  }

  /** When the merge has at most ten rows, every joined pair of a location
      and a reference entry for it is shown. */
  lemma TopPickupZonesShowsAllWhenFew(filtered: seq<Trip>, lookup: seq<Zone>, z: Zone)
    requires |ZoneCounts(filtered, lookup)| <= TOP_N
    requires z in lookup && z.locationId in PickupIds(filtered)
    ensures ZoneTrips(z.locationId, Count(PickupIds(filtered), z.locationId), z.borough, z.zone)
      in TopPickupZones(filtered, lookup)
  {
    var ids := PickupIds(filtered);
    var row := ZoneTrips(z.locationId, Count(ids, z.locationId), z.borough, z.zone);
    var joined := ZoneCounts(filtered, lookup);
    assert row in joined;
    var sorted := SortDescending(joined, TripsOf);
    assert row in multiset(sorted);
    assert Take(sorted, TOP_N) == sorted;
  }
}
