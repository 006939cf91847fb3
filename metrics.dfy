/** The five key metrics of the working subset (app.py:86-94). A mean of no
    rows is pandas' NaN; here it is `None`. */
module Metrics {
  import opened Trips
  import Cleaning

  function Sum(xs: seq<real>): real {
    if xs == [] then 0.0 else xs[0] + Sum(xs[1..])
  }

  /** `Series.mean()`: missing for an empty column, else the sum over the count. */
  function Mean(xs: seq<real>): (m: Option<real>)
    ensures m.None? <==> xs == []
    ensures m.Some? ==> m.value * |xs| as real == Sum(xs)
  {
    if xs == [] then None else Some(Sum(xs) / |xs| as real)
  }

  function Fare(t: Trip): real { t.raw.fareAmount }

  function TotalAmount(t: Trip): real { t.raw.totalAmount }

  function Distance(t: Trip): real { t.raw.tripDistance }

  function Duration(t: Trip): real { t.tripDurationMin }

  /** One numeric column of a frame, row by row. */
  function Column(trips: seq<Trip>, field: Trip -> real): (xs: seq<real>)
    ensures |xs| == |trips|
    ensures forall i :: 0 <= i < |trips| ==> xs[i] == field(trips[i])
  {
    seq(|trips|, i requires 0 <= i < |trips| => field(trips[i]))
  }

  lemma ColumnCons(t: Trip, rest: seq<Trip>, field: Trip -> real)
    ensures Column([t] + rest, field) == [field(t)] + Column(rest, field)
  {
  }

  datatype Summary = Summary(
    totalTrips: nat,
    averageFare: Option<real>,
    totalRevenue: real,
    averageDistance: Option<real>,
    averageDuration: Option<real>)

  /** "Total Trips", "Average Fare", "Total Revenue", "Avg Distance" and
      "Avg Duration" of app.py:86-94 (their display formatting aside). */
  function KeyMetrics(filtered: seq<Trip>): (m: Summary)
    ensures m.totalTrips == |filtered|
    ensures m.averageFare.None? <==> filtered == []
    ensures m.averageDistance.None? <==> filtered == []
    ensures m.averageDuration.None? <==> filtered == []
    ensures filtered == [] ==> m.totalRevenue == 0.0
    ensures filtered != [] ==> m.averageFare.value * |filtered| as real == Sum(Column(filtered, Fare))
    ensures filtered != [] ==> m.averageDistance.value * |filtered| as real == Sum(Column(filtered, Distance))
    ensures filtered != [] ==> m.averageDuration.value * |filtered| as real == Sum(Column(filtered, Duration))
    ensures m.totalRevenue == Sum(Column(filtered, TotalAmount))
  {
    Summary(
      |filtered|,
      Mean(Column(filtered, Fare)),
      Sum(Column(filtered, TotalAmount)),
      Mean(Column(filtered, Distance)),
      Mean(Column(filtered, Duration)))
  }

  // ---------------------------------------------------------------- lemmas

  lemma {:induction false} SumBounds(xs: seq<real>, lo: real, hi: real)
    requires forall i :: 0 <= i < |xs| ==> lo < xs[i] < hi
    requires xs != []
    ensures lo * |xs| as real < Sum(xs) < hi * |xs| as real
  {
    var head, tail := xs[0], xs[1..];
    assert Sum(xs) == head + Sum(tail);
    assert lo < head < hi;
    if tail == [] {
      assert |xs| as real == 1.0;
    } else {
      assert forall i :: 0 <= i < |tail| ==> tail[i] == xs[i + 1];
      SumBounds(tail, lo, hi);
      var m := |tail| as real;
      var n := |xs| as real;
      assert n == m + 1.0;
      var rest := Sum(tail);
      assert lo * m < rest < hi * m;
      assert lo * n == lo * m + lo by { assert lo * n == lo * (m + 1.0); }
      assert hi * n == hi * m + hi by { assert hi * n == hi * (m + 1.0); }
      assert lo * n < rest + head < hi * n;
    }
  }

  /** A mean of values strictly between two bounds lies strictly between them. */
  lemma MeanWithin(xs: seq<real>, lo: real, hi: real)
    requires xs != []
    requires forall i :: 0 <= i < |xs| ==> lo < xs[i] < hi
    ensures lo < Mean(xs).value < hi
  {
    SumBounds(xs, lo, hi);
    var n := |xs| as real;
    var m := Mean(xs).value;
    assert m * n == Sum(xs);
    assert (m - lo) * n > 0.0 && (hi - m) * n > 0.0;
  }

  /** On a non-empty subset of the clean dataset every mean keeps the
      cleaning bounds. */
  lemma CleanSubsetMetricsInBounds(filtered: seq<Trip>)
    requires filtered != []
    requires forall t :: t in filtered ==> Cleaning.Plausible(t)
    ensures 0.0 < KeyMetrics(filtered).averageFare.value < Cleaning.MAX_FARE
    ensures 0.0 < KeyMetrics(filtered).averageDistance.value < Cleaning.MAX_DISTANCE
    ensures Cleaning.MIN_DURATION < KeyMetrics(filtered).averageDuration.value < Cleaning.MAX_DURATION
  {
    assert forall i :: 0 <= i < |filtered| ==> filtered[i] in filtered;
    MeanWithin(Column(filtered, Fare), 0.0, Cleaning.MAX_FARE);
    MeanWithin(Column(filtered, Distance), 0.0, Cleaning.MAX_DISTANCE);
    MeanWithin(Column(filtered, Duration), Cleaning.MIN_DURATION, Cleaning.MAX_DURATION);
  }

  lemma SumOfThree(xs: seq<real>)
    requires |xs| == 3
    ensures Sum(xs) == xs[0] + xs[1] + xs[2]
  {
    var tail := xs[1..];
    assert Sum(xs) == xs[0] + Sum(tail);
    assert tail[0] == xs[1] && tail[1..] == xs[2..];
    assert Sum(tail) == xs[1] + Sum(xs[2..]);
    assert xs[2..][0] == xs[2] && xs[2..][1..] == [];
    assert Sum(xs[2..]) == xs[2];
  }

  /** Three trips with fares 10, 20 and 30: mean fare 20 and revenue the sum of
      exactly their three totals. */
  lemma ThreeFaresExample(t1: Trip, t2: Trip, t3: Trip)
    requires t1.raw.fareAmount == 10.0 && t2.raw.fareAmount == 20.0 && t3.raw.fareAmount == 30.0
    ensures KeyMetrics([t1, t2, t3]).averageFare == Some(20.0)
    ensures KeyMetrics([t1, t2, t3]).totalRevenue == t1.raw.totalAmount + t2.raw.totalAmount + t3.raw.totalAmount
  {
    SumOfThree(Column([t1, t2, t3], Fare));
    SumOfThree(Column([t1, t2, t3], TotalAmount));
  }
}
