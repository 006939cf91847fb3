/** The "Average Fare by Hour" table (app.py:112-117): the mean fare of each
    pickup hour that occurs in the working subset, by ascending hour, with no
    row for an hour without trips. */
module FareByHour {
  import opened Trips
  import opened Tables
  import Cleaning
  import Metrics

  datatype HourFare = HourFare(hour: int, meanFare: real)

  /** The mask of one `groupby` group: pickup hour `h`. */
  function AtHour(h: int): Trip -> bool {
    (t: Trip) => t.pickupHour == h
  }

  /** The fares of the trips picked up in hour `h`, in frame order. */
  function FaresAtHour(trips: seq<Trip>, h: int): (fares: seq<real>)
    ensures fares == Metrics.Column(Where(trips, AtHour(h)), Metrics.Fare)
    ensures (fares == []) <==> h !in Hours(trips)
  {
    if trips == [] then []
    else
      var rest := FaresAtHour(trips[1..], h);
      assert Hours(trips) == [trips[0].pickupHour] + Hours(trips[1..]);
      if trips[0].pickupHour == h then
        assert Where(trips, AtHour(h)) == [trips[0]] + Where(trips[1..], AtHour(h));
        Metrics.ColumnCons(trips[0], Where(trips[1..], AtHour(h)), Metrics.Fare);
        [trips[0].raw.fareAmount] + rest
      else
        assert Where(trips, AtHour(h)) == Where(trips[1..], AtHour(h));
        rest
  }

  /** One row per key: the key and the mean fare of its trips. */
  function MeansFor(trips: seq<Trip>, hours: seq<int>): (rows: seq<HourFare>)
    requires forall h :: h in hours ==> h in Hours(trips)
    ensures |rows| == |hours|
    ensures forall i :: 0 <= i < |hours| ==>
      rows[i].hour == hours[i] && Metrics.Mean(FaresAtHour(trips, hours[i])) == Some(rows[i].meanFare)
  {
    if hours == [] then []
    else [HourFare(hours[0], Metrics.Mean(FaresAtHour(trips, hours[0])).value)] + MeansFor(trips, hours[1..])
  }

  /** app.py:112-117. */
  function AverageFareByHour(filtered: seq<Trip>): (table: seq<HourFare>)
    ensures forall i, j :: 0 <= i < j < |table| ==> table[i].hour < table[j].hour
    ensures forall h :: h in Hours(filtered) <==> exists i :: 0 <= i < |table| && table[i].hour == h
    ensures forall i :: 0 <= i < |table| ==>
      Metrics.Mean(FaresAtHour(filtered, table[i].hour)) == Some(table[i].meanFare)
  {
    var keys := SortedKeys(Hours(filtered));
    var table := MeansFor(filtered, keys);
    assert forall h :: h in keys <==> exists i :: 0 <= i < |keys| && keys[i] == h;
    table
  }

  // ---------------------------------------------------------------- lemmas

  /** On a subset of the clean dataset every hour's mean fare keeps the fare
      bounds. */
  lemma CleanHourlyFaresInBounds(filtered: seq<Trip>)
    requires forall t :: t in filtered ==> Cleaning.Plausible(t)
    ensures forall r :: r in AverageFareByHour(filtered) ==> 0.0 < r.meanFare < Cleaning.MAX_FARE
  {
    var table := AverageFareByHour(filtered);
    forall r | r in table ensures 0.0 < r.meanFare < Cleaning.MAX_FARE {
      var fares := FaresAtHour(filtered, r.hour);
      var atHour := Where(filtered, AtHour(r.hour));
      forall k | 0 <= k < |fares| ensures 0.0 < fares[k] < Cleaning.MAX_FARE {
        assert atHour[k] in atHour;
      }
      Metrics.MeanWithin(fares, 0.0, Cleaning.MAX_FARE);
    }
  }
}
