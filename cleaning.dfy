/** The record sanitizer of `load_data` (app.py:44-49): three bound masks on
    fare, distance and duration, then a fresh dense index. */
module Cleaning {
  import opened Trips
  import opened Tables

  const MAX_FARE := 200.0
  const MAX_DISTANCE := 50.0
  const MIN_DURATION := 1.0
  const MAX_DURATION := 180.0

  predicate FareInRange(t: Trip) { 0.0 < t.raw.fareAmount < MAX_FARE }

  predicate DistanceInRange(t: Trip) { 0.0 < t.raw.tripDistance < MAX_DISTANCE }

  predicate DurationInRange(t: Trip) { MIN_DURATION < t.tripDurationMin < MAX_DURATION }

  /** The three bounds every record of the clean dataset satisfies. */
  predicate Plausible(t: Trip) {
    FareInRange(t) && DistanceInRange(t) && DurationInRange(t)
  }

  /** The same bounds stated on a raw record, with the duration derived. */
  predicate PlausibleRaw(r: RawTrip) {
    && 0.0 < r.fareAmount < MAX_FARE
    && 0.0 < r.tripDistance < MAX_DISTANCE
    && MIN_DURATION < DurationMinutes(r.pickup, r.dropoff) < MAX_DURATION
  }

  /** The three masks of app.py:45-47, applied in the source's order. */
  function Clean(rows: seq<Trip>): (r: seq<Trip>)
    ensures forall t :: t in r <==> t in rows && Plausible(t)
  {
    Where(Where(Where(rows, FareInRange), DistanceInRange), DurationInRange)
  }

  /** `reset_index(drop=True)`: the same rows, relabelled 0..n-1. */
  function ResetIndex(rows: seq<Trip>): (r: seq<Trip>)
    ensures |r| == |rows|
    ensures forall i :: 0 <= i < |r| ==> r[i].rowIndex == i && r[i].(rowIndex := rows[i].rowIndex) == rows[i]
  {
    seq(|rows|, i requires 0 <= i < |rows| => rows[i].(rowIndex := i))
  }

  /** Lines 45-49: clean, then renumber the survivors densely. */
  function Sanitize(rows: seq<Trip>): (r: seq<Trip>)
    ensures |r| == |Clean(rows)|
    ensures forall i :: 0 <= i < |r| ==> r[i] == Clean(rows)[i].(rowIndex := i)
    ensures forall i :: 0 <= i < |r| ==> r[i].rowIndex == i && Plausible(r[i])
  {
    var kept := Clean(rows);
    assert forall i :: 0 <= i < |kept| ==> kept[i] in kept;
    ResetIndex(kept)
  }

  /** `load_data` after the file read: derive the columns, then sanitize. */
  function LoadData(raw: seq<RawTrip>): (df: seq<Trip>)
    ensures forall i :: 0 <= i < |df| ==>
      && df[i].rowIndex == i && Plausible(df[i])
      && DerivedFrom(df[i]) && df[i].paymentName == None
  {
    var derived := DeriveColumns(raw);
    var kept := Clean(derived);
    assert forall i :: 0 <= i < |kept| ==> kept[i] in kept;
    assert forall t :: t in derived ==> DerivedFrom(t) && t.paymentName == None;
    Sanitize(derived)
  }

  /** The raw columns of a frame, row by row. */
  function Raws(rows: seq<Trip>): (rs: seq<RawTrip>)
    ensures |rs| == |rows|
    ensures forall i :: 0 <= i < |rows| ==> rs[i] == rows[i].raw
  {
    if rows == [] then [] else [rows[0].raw] + Raws(rows[1..])
  }

  // ---------------------------------------------------------------- lemmas

  /** The three masks select exactly what their conjunction selects. */
  lemma CleanIsConjunction(rows: seq<Trip>)
    ensures Clean(rows) == Where(rows, Plausible)
  {
    var fareAndDistance := t => FareInRange(t) && DistanceInRange(t);
    WhereWhere(rows, FareInRange, DistanceInRange, fareAndDistance);
    WhereWhere(rows, fareAndDistance, DurationInRange, Plausible);
  }

  /** The masks commute: every order of application gives the clean rows. */
  lemma CleanAnyOrder(rows: seq<Trip>)
    ensures Where(Where(Where(rows, FareInRange), DurationInRange), DistanceInRange) == Clean(rows)
    ensures Where(Where(Where(rows, DistanceInRange), FareInRange), DurationInRange) == Clean(rows)
    ensures Where(Where(Where(rows, DistanceInRange), DurationInRange), FareInRange) == Clean(rows)
    ensures Where(Where(Where(rows, DurationInRange), FareInRange), DistanceInRange) == Clean(rows)
    ensures Where(Where(Where(rows, DurationInRange), DistanceInRange), FareInRange) == Clean(rows)
  {
    CleanIsConjunction(rows);
    var fd := t => FareInRange(t) && DistanceInRange(t);
    var fu := t => FareInRange(t) && DurationInRange(t);
    var du := t => DistanceInRange(t) && DurationInRange(t);
    var df := t => DistanceInRange(t) && FareInRange(t);
    var uf := t => DurationInRange(t) && FareInRange(t);
    var ud := t => DurationInRange(t) && DistanceInRange(t);
    WhereWhere(rows, FareInRange, DurationInRange, fu);
    WhereWhere(rows, fu, DistanceInRange, Plausible);
    WhereWhere(rows, DistanceInRange, FareInRange, df);
    WhereWhere(rows, df, DurationInRange, Plausible);
    WhereWhere(rows, DistanceInRange, DurationInRange, du);
    WhereWhere(rows, du, FareInRange, Plausible);
    WhereWhere(rows, DurationInRange, FareInRange, uf);
    WhereWhere(rows, uf, DistanceInRange, Plausible);
    WhereWhere(rows, DurationInRange, DistanceInRange, ud);
    WhereWhere(rows, ud, FareInRange, Plausible);
  }

  /** Cleaning keeps the surviving rows in their original order. */
  lemma CleanIsSubsequence(rows: seq<Trip>)
    ensures IsSubsequence(Clean(rows), rows)
  {
    CleanIsConjunction(rows);
    WhereIsSubsequence(rows, Plausible);
  }

  /** Cleaning an already clean frame changes nothing. */
  lemma CleanIdempotent(rows: seq<Trip>)
    ensures Clean(Clean(rows)) == Clean(rows)
  {
    CleanIsConjunction(rows);
    CleanIsConjunction(Clean(rows));
    WhereAll(Clean(rows), Plausible);
  }

  /** Sanitizing the clean dataset again, renumbering included, changes nothing. */
  lemma SanitizeIdempotent(rows: seq<Trip>)
    ensures Sanitize(Sanitize(rows)) == Sanitize(rows)
  {
    var once := Sanitize(rows);
    CleanIsConjunction(once);
    WhereAll(once, Plausible);
    assert Clean(once) == once;
    var twice := ResetIndex(once);
    assert forall i :: 0 <= i < |twice| ==> twice[i] == once[i];
  }

  lemma RawsOfResetIndex(rows: seq<Trip>)
    ensures Raws(ResetIndex(rows)) == Raws(rows)
  {
  }

  lemma RawsCons(t: Trip, rows: seq<Trip>)
    ensures Raws([t] + rows) == [t.raw] + Raws(rows)
  {
  }

  /** On derived rows the bounds of a row are the bounds of its raw record, so
      the clean rows carry exactly the plausible raw records. */
  lemma {:induction false} RawsOfWhere(rows: seq<Trip>)
    requires forall t :: t in rows ==> DerivedFrom(t)
    ensures Raws(Where(rows, Plausible)) == Where(Raws(rows), PlausibleRaw)
  {
    if rows != [] {
      assert rows == [rows[0]] + rows[1..];
      RawsOfWhere(rows[1..]);
      RawsCons(rows[0], rows[1..]);
      WhereCons(rows[0].raw, Raws(rows[1..]), PlausibleRaw);
      assert rows[0] in rows;
      assert Plausible(rows[0]) == PlausibleRaw(rows[0].raw);
      if Plausible(rows[0]) {
        RawsCons(rows[0], Where(rows[1..], Plausible));
        assert Where(rows, Plausible) == [rows[0]] + Where(rows[1..], Plausible);
      } else {
        assert Where(rows, Plausible) == Where(rows[1..], Plausible);
      }
    }
  }

  /** The raw records that survive `load_data` are exactly the plausible ones,
      in file order: an order-preserving subsequence of the input. */
  lemma LoadDataSelectsPlausible(raw: seq<RawTrip>)
    ensures Raws(LoadData(raw)) == Where(raw, PlausibleRaw)
    ensures IsSubsequence(Raws(LoadData(raw)), raw)
  {
    var derived := DeriveColumns(raw);
    assert Raws(derived) == raw;
    CleanIsConjunction(derived);
    RawsOfWhere(derived);
    RawsOfResetIndex(Clean(derived));
    WhereIsSubsequence(raw, PlausibleRaw);
  }

  /** On clean derived rows the tip percentage is always the finite quotient:
      fare > 0 rules out the zero-fare cases. */
  lemma SanitizedTipPercent(raw: seq<RawTrip>)
    ensures forall t :: t in LoadData(raw) ==>
      t.tipPct == Finite(t.raw.tipAmount * 100.0 / t.raw.fareAmount)
  {
    forall t | t in LoadData(raw)
      ensures t.tipPct == Finite(t.raw.tipAmount * 100.0 / t.raw.fareAmount)
    {
      var fare, tip := t.raw.fareAmount, t.raw.tipAmount;
      assert fare > 0.0;
      assert tip / fare * 100.0 == tip * 100.0 / fare;
    }
  }
}
