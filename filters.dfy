/** The filter engine (app.py:56-59, 65-69, 75-79): the sidebar's selection and
    the combined mask that produces the working subset `filtered`. */
module Filters {
  import opened Trips
  import opened Tables

  /** One sidebar selection: an inclusive date range (day numbers), an
      inclusive hour range and the chosen payment names. */
  datatype Selection = Selection(
    startDate: int,
    endDate: int,
    firstHour: int,
    lastHour: int,
    payments: set<string>)

  /** The row mask of app.py:76-78; `isin` is false for a missing name. */
  predicate Selected(sel: Selection, t: Trip) {
    && sel.startDate <= t.pickupDate <= sel.endDate
    && sel.firstHour <= t.pickupHour <= sel.lastHour
    && t.paymentName.Some? && t.paymentName.value in sel.payments
  }

  /** `filtered = df[mask]` (app.py:75-79): the selected rows, in frame order,
      with their index labels kept. */
  function ApplySelection(df: seq<Trip>, sel: Selection): (filtered: seq<Trip>)
    ensures |filtered| <= |df|
    ensures forall t :: t in filtered <==> t in df && Selected(sel, t)
  {
    Where(df, t => Selected(sel, t))
  }

  /** `df["payment_name"].unique()`, the options and default of the
      payment multiselect (app.py:65-69). */
  function PresentPaymentNames(df: seq<Trip>): (names: set<string>)
    ensures forall t :: t in df && t.paymentName.Some? ==> t.paymentName.value in names
    ensures forall n :: n in names ==> exists t :: t in df && t.paymentName == Some(n)
  {
    set t | t in df && t.paymentName.Some? :: t.paymentName.value
  }

  /** `df["pickup_date"].min()` (app.py:56). */
  function MinDate(df: seq<Trip>): (d: int)
    requires df != []
    ensures forall t :: t in df ==> d <= t.pickupDate
    ensures exists t :: t in df && t.pickupDate == d
  {
    if |df| == 1 then df[0].pickupDate
    else
      var rest := MinDate(df[1..]);
      if df[0].pickupDate <= rest then df[0].pickupDate else rest
  }

  /** `df["pickup_date"].max()` (app.py:56). */
  function MaxDate(df: seq<Trip>): (d: int)
    requires df != []
    ensures forall t :: t in df ==> t.pickupDate <= d
    ensures exists t :: t in df && t.pickupDate == d
  {
    if |df| == 1 then df[0].pickupDate
    else
      var rest := MaxDate(df[1..]);
      if df[0].pickupDate >= rest then df[0].pickupDate else rest
  }

  /** The selection the sidebar starts with: the whole date span, hours 0-23
      and every payment name present (app.py:57, 59, 68). */
  function DefaultSelection(df: seq<Trip>): (sel: Selection)
    requires df != []
    ensures sel.firstHour == 0 && sel.lastHour == 23
    ensures sel.payments == PresentPaymentNames(df)
    ensures forall t :: t in df ==> sel.startDate <= t.pickupDate <= sel.endDate
    ensures exists t :: t in df && t.pickupDate == sel.startDate
    ensures exists t :: t in df && t.pickupDate == sel.endDate
  {
    Selection(MinDate(df), MaxDate(df), 0, 23, PresentPaymentNames(df))
  }

  // ---------------------------------------------------------------- lemmas

  /** The working subset keeps its rows in the order of the frame. */
  lemma ApplySelectionIsSubsequence(df: seq<Trip>, sel: Selection)
    ensures IsSubsequence(ApplySelection(df, sel), df)
  {
    WhereIsSubsequence(df, t => Selected(sel, t));
  }

  /** An empty payment selection selects nothing (it does not mean "all"). */
  lemma EmptyPaymentSelection(df: seq<Trip>, sel: Selection)
    requires sel.payments == {}
    ensures ApplySelection(df, sel) == []
  {
    WhereNone(df, t => Selected(sel, t));
  }

  /** An inverted date or hour range selects nothing, without failing. */
  lemma InvertedRangeSelectsNothing(df: seq<Trip>, sel: Selection)
    requires sel.startDate > sel.endDate || sel.firstHour > sel.lastHour
    ensures ApplySelection(df, sel) == []
  {
    WhereNone(df, t => Selected(sel, t));
  }

  /** A selection that covers every row's date, hour and (present) payment
      name gives back the frame unchanged, in order. */
  lemma CoveringSelectionKeepsAll(df: seq<Trip>, sel: Selection)
    requires forall t :: t in df ==> Selected(sel, t)
    ensures ApplySelection(df, sel) == df
  {
    WhereAll(df, t => Selected(sel, t));
  }

  /** The sidebar's default selection keeps the whole named, derived frame. */
  lemma DefaultSelectionKeepsAll(df: seq<Trip>)
    requires df != []
    requires forall t :: t in df ==> DerivedFrom(t) && t.paymentName.Some?
    ensures ApplySelection(df, DefaultSelection(df)) == df
  {
    var sel := DefaultSelection(df);
    forall t | t in df ensures Selected(sel, t) {
      DerivedRanges(t);
    }
    CoveringSelectionKeepsAll(df, sel);
  }
}
