/** The script's module-level trip frame `df` (app.py:52), which lines 62-63
    extend in place with the payment-name column. */
module Dashboard {
  import opened Trips
  import opened Tables
  import Cleaning
  import Payments
  import Filters
  import Metrics
  import PaymentBreakdown
  import DayHourMatrix

  class TripFrame {
    var rows: seq<Trip>

    /** The frame invariant `load_data` establishes and the in-place column
        assignments keep: the rows are clean, derived from their raw columns
        and densely indexed. `AssignPaymentNames` relies on it to hand the
        sidebar defaults a derived, fully named frame. */
    ghost predicate Valid()
      reads this
    {
      forall i :: 0 <= i < |rows| ==>
        rows[i].rowIndex == i && Cleaning.Plausible(rows[i]) && DerivedFrom(rows[i])
    }

    /** `df = load_data()` (app.py:52). */
    constructor Load(raw: seq<RawTrip>)
      ensures Valid()
      ensures rows == Cleaning.LoadData(raw)
    {
      rows := Cleaning.LoadData(raw);
    }

    /** `df["payment_name"] = df["payment_type"].map(payment_map)` (app.py:62):
        every row gets the mapped name, missing for codes the map lacks; no
        other column changes. */
    method MapPaymentNames()
      requires Valid()
      modifies this
      ensures Valid()
      ensures |rows| == |old(rows)|
      ensures forall i :: 0 <= i < |rows| ==>
        rows[i] == old(rows[i]).(paymentName := Payments.MapCode(old(rows[i]).raw.paymentType))
    {
      var current := rows;
      rows := seq(|current|, i requires 0 <= i < |current| =>
        current[i].(paymentName := Payments.MapCode(current[i].raw.paymentType)));
    }

    /** `df["payment_name"] = df["payment_name"].fillna("Unknown")` (app.py:63):
        every missing name becomes "Unknown"; present names and all other
        columns stay. */
    method FillMissingPaymentNames()
      requires Valid()
      modifies this
      ensures Valid()
      ensures |rows| == |old(rows)|
      ensures forall i :: 0 <= i < |rows| ==>
        rows[i] == old(rows[i]).(paymentName := Some(Payments.FillUnknown(old(rows[i]).paymentName)))
    {
      var current := rows;
      rows := seq(|current|, i requires 0 <= i < |current| =>
        current[i].(paymentName := Some(Payments.FillUnknown(current[i].paymentName))));
    }

    /** Lines 62-63 in sequence: afterwards no row's name is missing, and each
        is the decoding of the row's own payment code. */
    method AssignPaymentNames()
      requires Valid()
      modifies this
      ensures Valid()
      ensures |rows| == |old(rows)|
      ensures forall i :: 0 <= i < |rows| ==>
        rows[i] == old(rows[i]).(paymentName := Some(Payments.PaymentName(old(rows[i]).raw.paymentType)))
      ensures rows == NamedRows(old(rows))
      ensures forall t :: t in rows ==> DerivedFrom(t) && t.paymentName.Some?
    {
      MapPaymentNames();
      FillMissingPaymentNames();
    }
  }

  /** The rows after lines 62-63, as a value. */
  function NamedRows(rows: seq<Trip>): (named: seq<Trip>)
    ensures |named| == |rows|
    ensures forall i :: 0 <= i < |rows| ==>
      named[i] == rows[i].(paymentName := Some(Payments.PaymentName(rows[i].raw.paymentType)))
  {
    seq(|rows|, i requires 0 <= i < |rows| =>
      rows[i].(paymentName := Some(Payments.PaymentName(rows[i].raw.paymentType))))
  }

  /** Whatever the selection, the charts of the working subset agree with the
      "Total Trips" metric: the payment counts and the day-hour cells each add
      up to the number of selected trips. */
  lemma ChartsAccountForEveryTrip(raw: seq<RawTrip>, sel: Filters.Selection)
    ensures var filtered := Filters.ApplySelection(NamedRows(Cleaning.LoadData(raw)), sel);
      && KeySum(PaymentBreakdown.PaymentCounts(filtered), PaymentBreakdown.CountOf)
         == Metrics.KeyMetrics(filtered).totalTrips
      && DayHourMatrix.GridTotal(DayHourMatrix.DayHourPivot(filtered).cells)
         == Metrics.KeyMetrics(filtered).totalTrips
  {
    var df := NamedRows(Cleaning.LoadData(raw));
    var filtered := Filters.ApplySelection(df, sel);
    forall t | t in filtered ensures DerivedFrom(t) && t.paymentName.Some? {
      var i :| 0 <= i < |df| && df[i] == t;
    }
    PaymentBreakdown.PaymentCountsMatchTotalTrips(filtered);
    DayHourMatrix.DerivedPivotTotal(filtered);
  }
}
