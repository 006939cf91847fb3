/** The "Trips by Day and Hour" grid (app.py:157-168): trips counted per
    (weekday, pickup hour), pivoted to one row per pickup hour that occurs
    and one column per weekday, a missing cell filled with 0, and the
    columns put in Monday..Sunday order. */
module DayHourMatrix {
  import opened Trips
  import opened Tables

  /** The column order of app.py:166, Monday first (weekday number 0). */
  const DAYS_ORDER: seq<string> :=
    ["Monday", "Tuesday", "Wednesday", "Thursday", "Friday", "Saturday", "Sunday"]

  /** The weekday numbers, in column order. */
  const WEEKDAYS: seq<int> := [0, 1, 2, 3, 4, 5, 6]

  /** The `weekday_order` map of app.py:162-163 applied to one weekday number;
      a number outside 0..6 has no name. */
  function DayName(d: int): (name: Option<string>)
    ensures name.Some? <==> 0 <= d < 7
    ensures name.Some? ==> name.value == DAYS_ORDER[d]
  {
    if 0 <= d < 7 then Some(DAYS_ORDER[d]) else None
  }

  /** The column labels the pivot produces: the names of the weekdays present. */
  function DayNames(trips: seq<Trip>): set<string> {
    set t | t in trips && DayName(t.pickupDay).Some? :: DayName(t.pickupDay).value
  }

  /** The mask of one cell: pickup hour `h` on weekday `d`. */
  function InCell(h: int, d: int): Trip -> bool {
    (t: Trip) => t.pickupHour == h && t.pickupDay == d
  }

  /** Reference definition of one cell: the number of trips picked up in hour
      `h` of weekday `d`. */
  function TripsAt(trips: seq<Trip>, h: int, d: int): (n: nat)
    ensures n == 0 <==> forall t :: t in trips ==> !(t.pickupHour == h && t.pickupDay == d)
  {
    var at := Where(trips, InCell(h, d));
    assert at != [] ==> at[0] in at;
    |at|
  }

  /** The weekdays of the trips picked up in hour `h`, in frame order. */
  function DaysAtHour(trips: seq<Trip>, h: int): (ds: seq<int>)
    ensures forall d :: d in ds ==> exists t :: t in trips && t.pickupDay == d
  {
    if trips == [] then []
    else
      var rest := DaysAtHour(trips[1..], h);
      assert forall t :: t in trips[1..] ==> t in trips;
      if trips[0].pickupHour == h then [trips[0].pickupDay] + rest else rest
  }

  /** One grid row per hour key: the count of each weekday, in column order. */
  function GridRows(trips: seq<Trip>, hours: seq<int>): (rows: seq<seq<nat>>)
    ensures |rows| == |hours|
    ensures forall i :: 0 <= i < |hours| ==> rows[i] == CountsFor(DaysAtHour(trips, hours[i]), WEEKDAYS)
  {
    if hours == [] then []
    else [CountsFor(DaysAtHour(trips, hours[0]), WEEKDAYS)] + GridRows(trips, hours[1..])
  }

  /** The sum of every cell of a grid. */
  function GridTotal(cells: seq<seq<nat>>): nat {
    if cells == [] then 0 else Total(cells[0]) + GridTotal(cells[1..])
  }

  datatype Pivot = Pivot(hours: seq<int>, columns: seq<string>, cells: seq<seq<nat>>)

  /** The grid with every weekday column present (missing cells 0): what
      app.py:165-168 produces whenever it does not fail. */
  function DayHourPivot(filtered: seq<Trip>): (p: Pivot)
    ensures StrictlyIncreasing(p.hours)
    ensures forall h :: h in p.hours <==> h in Hours(filtered)
    ensures p.columns == DAYS_ORDER
    ensures |p.cells| == |p.hours|
    ensures forall i :: 0 <= i < |p.cells| ==> |p.cells[i]| == |DAYS_ORDER|
    ensures forall i, d :: 0 <= i < |p.cells| && 0 <= d < |DAYS_ORDER| ==>
      p.cells[i][d] == TripsAt(filtered, p.hours[i], d)
  {
    var hours := SortedKeys(Hours(filtered));
    var cells := GridRows(filtered, hours);
    forall i, d | 0 <= i < |cells| && 0 <= d < |DAYS_ORDER|
      ensures cells[i][d] == TripsAt(filtered, hours[i], d)
    {
      assert WEEKDAYS[d] == d;
      CountDaysAtHour(filtered, hours[i], d);
    }
    Pivot(hours, DAYS_ORDER, cells)
  }

  /** app.py:157-168 as written: `bar_pivot[days_order]` raises a KeyError
      as soon as one of the seven names is not a column of the pivot. */
  function PivotAsWritten(filtered: seq<Trip>): (r: Result<Pivot, string>)
    ensures r.Err? <==> exists d :: 0 <= d < 7 && d !in Days(filtered)
    ensures r.Ok? ==> r.value == DayHourPivot(filtered)
  {
    if exists n :: n in DAYS_ORDER && n !in DayNames(filtered) then
      var n :| n in DAYS_ORDER && n !in DayNames(filtered);
      var d :| 0 <= d < 7 && DAYS_ORDER[d] == n;
      assert d !in Days(filtered) by {
        forall i | 0 <= i < |filtered| ensures Days(filtered)[i] != d {
          assert filtered[i] in filtered;
        }
      }
      Err("KeyError")
    else
      assert forall d :: 0 <= d < 7 ==> d in Days(filtered) by {
        forall d | 0 <= d < 7 ensures d in Days(filtered) {
          assert DAYS_ORDER[d] in DAYS_ORDER;
          var t :| t in filtered && DayName(t.pickupDay) == Some(DAYS_ORDER[d]);
          var i :| 0 <= i < |filtered| && filtered[i] == t;
          assert Days(filtered)[i] == d;
        }
      }
      Ok(DayHourPivot(filtered))
  }

  // ---------------------------------------------------------------- lemmas

  /** Counting a weekday among the trips of one hour is the reference cell. */
  lemma {:induction false} CountDaysAtHour(trips: seq<Trip>, h: int, d: int)
    ensures Count(DaysAtHour(trips, h), d) == TripsAt(trips, h, d)
  {
    var at := InCell(h, d);
    if trips != [] {
      CountDaysAtHour(trips[1..], h, d);
      assert trips == [trips[0]] + trips[1..];
      WhereCons(trips[0], trips[1..], at);
      if trips[0].pickupHour == h {
        CountCons(trips[0].pickupDay, DaysAtHour(trips[1..], h), d);
      }
    }
  }

  /** The trips of hour `h` are as many as the hour's group. */
  lemma {:induction false} DaysAtHourSize(trips: seq<Trip>, h: int)
    ensures |DaysAtHour(trips, h)| == Count(Hours(trips), h)
  {
    if trips != [] {
      DaysAtHourSize(trips[1..], h);
      assert Hours(trips) == [trips[0].pickupHour] + Hours(trips[1..]);
      CountCons(trips[0].pickupHour, Hours(trips[1..]), h);
    }
  }

  lemma WeekdaysDistinct()
    ensures NoDuplicates(WEEKDAYS)
  {
  }

  /** Over trips with weekdays 0..6, the grid rows of some hour keys hold as
      many trips as those keys' groups. */
  lemma {:induction false} GridRowsTotal(trips: seq<Trip>, hours: seq<int>)
    requires forall t :: t in trips ==> 0 <= t.pickupDay < 7
    ensures GridTotal(GridRows(trips, hours)) == Total(CountsFor(Hours(trips), hours))
  {
    if hours != [] {
      GridRowsTotal(trips, hours[1..]);
      var ds := DaysAtHour(trips, hours[0]);
      assert forall x :: x in ds ==> x in WEEKDAYS;
      WeekdaysDistinct();
      CountsCoverAll(ds, WEEKDAYS);
      DaysAtHourSize(trips, hours[0]);
      assert GridRows(trips, hours)[1..] == GridRows(trips, hours[1..]);
    }
  }

  /** Every trip of the working subset lands in exactly one cell. */
  lemma PivotTotal(filtered: seq<Trip>)
    requires forall t :: t in filtered ==> 0 <= t.pickupDay < 7
    ensures GridTotal(DayHourPivot(filtered).cells) == |filtered|
  {
    var hs := Hours(filtered);
    var keys := SortedKeys(hs);
    GridRowsTotal(filtered, keys);
    StrictlyIncreasingNoDuplicates(keys);
    CountsCoverAll(hs, keys);
  }

  /** Derived rows have weekdays 0..6, so the grid of the cleaned, filtered
      frame accounts for every trip. */
  lemma DerivedPivotTotal(filtered: seq<Trip>)
    requires forall t :: t in filtered ==> DerivedFrom(t)
    ensures GridTotal(DayHourPivot(filtered).cells) == |filtered|
  {
    forall t | t in filtered ensures 0 <= t.pickupDay < 7 {
      DerivedRanges(t);
    }
    PivotTotal(filtered);
  }

  /** An empty working subset makes the grid fail. */
  lemma EmptySubsetPivotFails()
    ensures PivotAsWritten([]).Err?
  {
    assert 0 !in Days([]);
  }

  /** A single trip already makes the grid fail, although the corrected grid
      has one row holding that trip. */
  lemma SingleTripPivotFails(t: Trip)
    requires 0 <= t.pickupDay < 7
    ensures PivotAsWritten([t]).Err?
    ensures |DayHourPivot([t]).cells| == 1
    ensures GridTotal(DayHourPivot([t]).cells) == 1
  {
    var other := (t.pickupDay + 1) % 7;
    assert other !in Days([t]);
    var p := DayHourPivot([t]);
    forall k | 0 <= k < |p.hours| ensures p.hours[k] == t.pickupHour {
      assert p.hours[k] in Hours([t]);
    }
    assert t.pickupHour in Hours([t]);
    assert |p.hours| == 1;
    PivotTotal([t]);
  }
}
