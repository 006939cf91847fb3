/** Trip records as the dashboard reads them from the trip file, and the
    columns `load_data` derives from them (app.py:36-42). */
module Trips {

  datatype Option<+T> = None | Some(value: T)

  /** A value, or the exception an operation raises instead. */
  datatype Result<+T, +E> = Ok(value: T) | Err(error: E)

  /** One row of the raw trip file. Timestamps are whole seconds since
      1970-01-01 00:00 in the records' own local time (no zone conversion). */
  datatype RawTrip = RawTrip(
    pickup: int,
    dropoff: int,
    fareAmount: real,
    tipAmount: real,
    totalAmount: real,
    tripDistance: real,
    puLocationId: int,
    paymentType: int)

  /** A tip percentage: a finite value, or the infinity that a division of a
      non-zero tip by a zero fare produces. */
  datatype Pct = Finite(value: real) | PosInf | NegInf

  /** A row of the trip frame: its index label, the raw columns, the derived
      columns and the payment-name column (None until the script assigns it,
      and None where the decoding map has no entry, as pandas' NaN). */
  datatype Trip = Trip(
    rowIndex: int,
    raw: RawTrip,
    pickupHour: int,
    pickupDay: int,
    pickupDate: int,
    tripDurationMin: real,
    tipPct: Pct,
    paymentName: Option<string>)

  const SECONDS_PER_DAY := 86400
  const SECONDS_PER_HOUR := 3600

  /** `.dt.date`, as a day number counted from 1970-01-01. */
  function PickupDate(ts: int): (d: int)
    ensures d * SECONDS_PER_DAY <= ts < (d + 1) * SECONDS_PER_DAY
  {
    ts / SECONDS_PER_DAY
  }

  /** `.dt.hour`: the hour of the day the timestamp falls in. */
  function PickupHour(ts: int): (h: int)
    ensures 0 <= h < 24
    ensures PickupDate(ts) * SECONDS_PER_DAY + h * SECONDS_PER_HOUR <= ts
    ensures ts < PickupDate(ts) * SECONDS_PER_DAY + (h + 1) * SECONDS_PER_HOUR
  {
    (ts % SECONDS_PER_DAY) / SECONDS_PER_HOUR
  }

  /** `.dt.dayofweek`: 0 is Monday and 6 is Sunday; 1970-01-01 was a Thursday. */
  function DayOfWeek(ts: int): (w: int)
    ensures 0 <= w < 7
  {
    (ts / SECONDS_PER_DAY + 3) % 7
  }

  /** `(dropoff - pickup).dt.total_seconds() / 60`, not rounded. */
  function DurationMinutes(pickup: int, dropoff: int): (m: real)
    ensures m * 60.0 == (dropoff - pickup) as real
  {
    (dropoff - pickup) as real / 60.0
  }

  /** `(tip / fare * 100).fillna(0)`: only 0/0 (NaN) becomes 0; a non-zero tip
      over a zero fare stays an infinity. */
  function TipPercent(tip: real, fare: real): (p: Pct)
    ensures fare != 0.0 ==> p.Finite? && p.value * fare == tip * 100.0
    ensures fare == 0.0 ==> (p == Finite(0.0) <==> tip == 0.0)
    ensures fare == 0.0 && tip > 0.0 ==> p == PosInf
    ensures fare == 0.0 && tip < 0.0 ==> p == NegInf
  {
    if fare != 0.0 then Finite(tip / fare * 100.0)
    else if tip == 0.0 then Finite(0.0)
    else if tip > 0.0 then PosInf
    else NegInf
  }

  /** The derived columns of a row agree with its raw columns. */
  predicate DerivedFrom(t: Trip) {
    && t.pickupHour == PickupHour(t.raw.pickup)
    && t.pickupDay == DayOfWeek(t.raw.pickup)
    && t.pickupDate == PickupDate(t.raw.pickup)
    && t.tripDurationMin == DurationMinutes(t.raw.pickup, t.raw.dropoff)
    && t.tipPct == TipPercent(t.raw.tipAmount, t.raw.fareAmount)
  }

  function Derive(rowIndex: int, r: RawTrip): Trip {
    Trip(rowIndex, r,
         PickupHour(r.pickup), DayOfWeek(r.pickup), PickupDate(r.pickup),
         DurationMinutes(r.pickup, r.dropoff),
         TipPercent(r.tipAmount, r.fareAmount),
         None)
  }

  /** The frame as read (index 0..n-1) with the five derived columns added. */
  function DeriveColumns(raw: seq<RawTrip>): (rows: seq<Trip>)
    ensures |rows| == |raw|
    ensures forall i :: 0 <= i < |rows| ==>
      rows[i].rowIndex == i && rows[i].raw == raw[i] && DerivedFrom(rows[i]) && rows[i].paymentName == None
  {
    seq(|raw|, i requires 0 <= i < |raw| => Derive(i, raw[i]))
  }

  /** The `pickup_hour` column. */
  function Hours(trips: seq<Trip>): (hs: seq<int>)
    ensures |hs| == |trips|
    ensures forall i :: 0 <= i < |trips| ==> hs[i] == trips[i].pickupHour
  {
    seq(|trips|, i requires 0 <= i < |trips| => trips[i].pickupHour)
  }

  /** The `pickup_day` column. */
  function Days(trips: seq<Trip>): (ds: seq<int>)
    ensures |ds| == |trips|
    ensures forall i :: 0 <= i < |trips| ==> ds[i] == trips[i].pickupDay
  {
    seq(|trips|, i requires 0 <= i < |trips| => trips[i].pickupDay)
  }

  /** A derived row's hour and weekday are in range. */
  lemma DerivedRanges(t: Trip)
    requires DerivedFrom(t)
    ensures 0 <= t.pickupHour < 24 && 0 <= t.pickupDay < 7
  {
  }

  /** The weekday numbering is anchored on the calendar: 1970-01-01 was a
      Thursday (3) and 2024-01-01 00:00 a Monday (0). */
  lemma DayOfWeekAnchors()
    ensures DayOfWeek(0) == 3
    ensures DayOfWeek(1704067200) == 0
    ensures DayOfWeek(1704067200 + 6 * SECONDS_PER_DAY) == 6
  {
    assert PickupDate(1704067200) == 19723;
    assert PickupDate(1704067200 + 6 * SECONDS_PER_DAY) == 19729;
  }

  /** The weekday depends on the date only: all instants of one day share it. */
  lemma DayOfWeekByDate(a: int, b: int)
    requires PickupDate(a) == PickupDate(b)
    ensures DayOfWeek(a) == DayOfWeek(b)
  {
  }

  /** The weekday advances by one, modulo 7, from one day to the next. */
  lemma DayOfWeekNextDay(ts: int)
    ensures DayOfWeek(ts + SECONDS_PER_DAY) == (DayOfWeek(ts) + 1) % 7
  {
    assert PickupDate(ts + SECONDS_PER_DAY) == PickupDate(ts) + 1;
  }
}
