# NYC taxi trip dashboard: a verified model of its data pipeline

`app.py` is a Streamlit dashboard over a file of NYC yellow-taxi trip records.
This project models its data pipeline in Dafny:

- `load_data` derives columns from each record and cleans the frame with fixed bounds;
- the payment code is decoded to a name;
- the sidebar's date, hour and payment selection becomes one combined row mask;
- the five key metrics are computed over the working subset `filtered`;
- the four aggregate tables behind the charts: top pickup zones, average fare by hour, payment-type counts, and the weekday × hour grid.

The properties proved include:

- the cleaning bounds hold;
- cleaning keeps an order-preserving subsequence, its masks commute, it is idempotent, and it renumbers rows 0..n-1;
- the derived hour is 0..23 and the weekday is 0..6;
- payment decoding never leaves a name missing;
- filter membership is an exact if-and-only-if;
- the top-zone table holds min(10, joined rows) of the joined rows (a location with several reference entries joins once per entry), and no joined row left out has more trips than one shown;
- the hourly means are per-hour means in ascending hour order;
- the payment counts, and the cells of the corrected weekday × hour grid (equal to the script's own grid whenever that grid succeeds), each add up to the number of selected trips.

Files, one Dafny module each:

| file | module | models |
|---|---|---|
| trips.dfy | `Trips` | trip records, derived columns (app.py:36-42) |
| tables.dfy | `Tables` | the frame operations the script uses: row masks, group sizes, group keys, sorting by a count, `head` |
| cleaning.dfy | `Cleaning` | the bound masks and re-indexing of `load_data` (app.py:44-49) |
| payments.dfy | `Payments` | payment-code decoding (app.py:60-63) |
| dashboard.dfy | `Dashboard` | the module-level frame `df` as a class whose methods add the payment-name column in place (app.py:52, 62-63) |
| filters.dfy | `Filters` | sidebar selection and combined filter (app.py:56-59, 65-69, 75-79) |
| metrics.dfy | `Metrics` | key metrics (app.py:86-94) |
| zones.dfy | `TopZones` | top 10 pickup zones (app.py:103-105) |
| hours.dfy | `FareByHour` | average fare by hour (app.py:112-117) |
| breakdown.dfy | `PaymentBreakdown` | payment-type counts (app.py:140-145) |
| pivot.dfy | `DayHourMatrix` | trips by weekday and hour (app.py:157-168) |

Modelling conventions:

- Timestamps are whole seconds since 1970-01-01 00:00, taken in the records' own (naive) local time.
  - The date is the day number `ts / 86400`.
  - The hour is `(ts % 86400) / 3600`.
  - The weekday is `(date + 3) % 7`, with Monday = 0, because 1970-01-01 was a Thursday.
  - Dafny's Euclidean `/` and `%` give pandas' floor semantics for timestamps before 1970 too.
- Money, distance and duration are exact `real`s.
- A pandas missing value (NaN) is `None` of an `Option`:
  - the payment name before `fillna`;
  - the mean of an empty column.
- A raised exception is `Err` of a `Result`.
- Every row keeps its pandas index label in `rowIndex`.
  - `reset_index(drop=True)` renumbers the labels.
  - The combined filter keeps the labels of the rows it selects.

Where the code does not do what one might expect, the model follows the code:

- **Tip percentage.** One might expect the tip percentage to be 0 whenever the fare is zero. `fillna(0)` only replaces NaN, which only 0/0 produces. A non-zero tip over a zero fare gives ±infinity, and `TipPercent` keeps that as `PosInf`/`NegInf`. After cleaning the fare is positive, so every kept row has the finite ratio (`Cleaning.SanitizedTipPercent`).
- **Day × hour grid.** The grid has one row per pickup hour that occurs, not 24 rows. It fails outright when a weekday is absent (see Findings).

## Model

| member | source | states |
|---|---|---|
| Trips.PickupDate | app.py:38 | the date is the day whose 86400-second span contains the pickup instant |
| Trips.PickupHour | app.py:36 | the hour is 0..23, and the pickup instant lies inside that hour of its date |
| Trips.DayOfWeek | app.py:37 | the weekday is 0..6 |
| Trips.DayOfWeekAnchors | app.py:37 | the numbering follows the calendar with Monday = 0: 1970-01-01 (a Thursday) is 3, 2024-01-01 (a Monday) is 0 and the Sunday after it is 6 |
| Trips.DayOfWeekByDate | app.py:37-38 | two instants of the same date have the same weekday |
| Trips.DurationMinutes | app.py:39-41 | the duration in minutes times 60 is exactly the dropoff-minus-pickup seconds |
| Trips.TipPercent | app.py:42 | non-zero fare: a finite percentage p with p·fare = 100·tip. Zero fare: 0 exactly when the tip is 0 (NaN filled), otherwise +inf or -inf by the tip's sign |
| Trips.DeriveColumns | app.py:36-42 | one row per record, in order, labelled 0..n-1, with every derived column agreeing with its record and no payment name yet |
| Trips.DerivedRanges | app.py:36-37 | a derived row's hour is in 0..23 and its weekday in 0..6 |
| Trips.DayOfWeekNextDay | app.py:37 | one day later the weekday advances by one, modulo 7 |
| Trips.Hours | app.py:36 | the `pickup_hour` column, row by row |
| Trips.Days | app.py:37 | the `pickup_day` column, row by row |
| Tables.NoDuplicatesMultiset | app.py:104 | a sequence is duplicate-free exactly when no element occurs more than once |
| Tables.SubMultisetNoDuplicates | app.py:105 | part of a duplicate-free table is duplicate-free |
| Tables.Where | app.py:45-47 | a boolean mask keeps exactly the rows satisfying it, never more rows than given |
| Tables.WhereMultiplicity | app.py:45-47 | a mask keeps every copy of an accepted row and no copy of a rejected one |
| Tables.WhereIsSubsequence | app.py:45-47 | a mask keeps its rows in their original order |
| Tables.WhereAll | app.py:75-79 | a mask every row satisfies gives back the frame unchanged |
| Tables.WhereNone | app.py:75-79 | a mask no row satisfies gives the empty frame |
| Tables.WhereWhere | app.py:45-47 | two masks in sequence equal the single conjoined mask |
| Tables.WhereCommutes | app.py:45-47 | two masks in sequence commute |
| Tables.Count | app.py:103 | a group's size is at most the row count, and positive exactly when the key occurs |
| Tables.CountsCoverAll | app.py:140-143 | the group sizes over distinct keys that cover every row add up to the number of rows |
| Tables.Distinct | app.py:141 | the group keys have no duplicates and are exactly the values that occur |
| Tables.SortedKeys | app.py:113-114 | `groupby` keys are strictly ascending and are exactly the values that occur |
| Tables.SortDescending | app.py:105 | sorting by count is a permutation of the rows that keeps the total of the counts |
| Tables.SortDescendingSorted | app.py:105 | the sorted rows have non-increasing counts |
| Tables.SortDescendingDistinct | app.py:105 | sorting rows without duplicates leaves none |
| Tables.Take | app.py:105 | `head(n)` is the first min(n, length) rows |
| Tables.TakeSubMultiset | app.py:105 | `head` keeps only rows it is given, each at most as often |
| Tables.TopBy | app.py:105 | sort-then-`head(n)` gives min(n, length) rows, non-increasing, drawn from the given rows |
| Tables.TakeOfSortedIsTop | app.py:105 | a row left out by `head` has no larger count than any row kept |
| Cleaning.Clean | app.py:45-47 | a row survives the three masks exactly when its fare, distance and duration are all within bounds |
| Cleaning.ResetIndex | app.py:49 | the same rows, labelled 0..n-1, nothing else changed |
| Cleaning.Sanitize | app.py:45-49 | the result is the cleaned rows, one for one and in order, each relabelled by its position; every row is within bounds |
| Cleaning.LoadData | app.py:36-49 | every row of the loaded frame is labelled by its position, is within bounds, has derived columns agreeing with its record, and has no payment name yet |
| Cleaning.CleanIsConjunction | app.py:45-47 | the three masks in sequence are the one conjoined bound mask |
| Cleaning.CleanAnyOrder | app.py:45-47 | applying the three masks in any of the six orders gives the same frame |
| Cleaning.CleanIsSubsequence | app.py:45-47 | cleaning keeps the surviving rows in their original order |
| Cleaning.CleanIdempotent | app.py:45-47 | cleaning a clean frame changes nothing |
| Cleaning.SanitizeIdempotent | app.py:45-49 | cleaning and renumbering again changes nothing, the labels included |
| Cleaning.RawsOfWhere | app.py:45-47 | on derived rows, the raw records kept by the bound mask are the plausible raw records |
| Cleaning.LoadDataSelectsPlausible | app.py:36-49 | the loaded frame carries exactly the plausible input records, in file order: an order-preserving subsequence of the file |
| Cleaning.SanitizedTipPercent | app.py:42-45 | on the loaded frame every tip percentage is the finite 100·tip/fare |
| Payments.MapCode | app.py:60-62 | `map` gives a name exactly for the codes 1..4 and a missing value otherwise |
| Payments.FillUnknown | app.py:63 | a present name is kept, a missing one becomes "Unknown" |
| Payments.PaymentName | app.py:60-63 | the final name is "Unknown" exactly for codes outside 1..4, and for 1..4 it is "Credit Card", "Cash", "No Charge" or "Dispute" |
| Payments.PaymentNameInjective | app.py:60 | distinct known codes have distinct names |
| Dashboard.TripFrame.Load | app.py:52 | `df` is the loaded frame, with the frame invariant established |
| Dashboard.TripFrame.MapPaymentNames | app.py:62 | each row gains the mapped name of its own code; nothing else changes; the invariant is kept |
| Dashboard.TripFrame.FillMissingPaymentNames | app.py:63 | each missing name becomes "Unknown"; nothing else changes; the invariant is kept |
| Dashboard.TripFrame.AssignPaymentNames | app.py:62-63 | afterwards every row's name is present and is the decoding of its own code; nothing else changes; by the frame invariant every row is still derived, as the sidebar defaults need |
| Dashboard.NamedRows | app.py:62-63 | the named frame has the same rows, each with its code's decoded name |
| Dashboard.ChartsAccountForEveryTrip | app.py:75-168 | for any input file and any selection: the payment counts, and the cells of the corrected day-hour grid (equal to the script's grid whenever that succeeds), each add up to "Total Trips" |
| Filters.ApplySelection | app.py:75-79 | a row is in the working subset exactly when it is in the frame, its date and hour are inside the inclusive ranges, and its payment name is present and selected |
| Filters.PresentPaymentNames | app.py:65-69 | every present payment name is an option, and every option is some row's name |
| Filters.MinDate | app.py:56 | the minimum date is no later than any row's date and is attained |
| Filters.MaxDate | app.py:56 | the maximum date is no earlier than any row's date and is attained |
| Filters.ApplySelectionIsSubsequence | app.py:75-79 | the working subset keeps the frame's order |
| Filters.EmptyPaymentSelection | app.py:78 | selecting no payment type gives an empty subset |
| Filters.InvertedRangeSelectsNothing | app.py:76-77 | an inverted date or hour range gives an empty subset, without failing |
| Filters.CoveringSelectionKeepsAll | app.py:75-79 | a selection covering every row gives the frame itself |
| Filters.DefaultSelection | app.py:56-68 | hours 0 to 23, every payment name present in the frame, and a date span whose ends are dates of the frame and that contains every row's date |
| Filters.DefaultSelectionKeepsAll | app.py:56-69 | the sidebar's initial selection (full date span, hours 0-23, all names present) keeps the whole named frame |
| Metrics.Mean | app.py:88 | the mean is missing exactly for an empty column, and otherwise times the count is the sum |
| Metrics.KeyMetrics | app.py:86-94 | "Total Trips" is the subset's size; each mean is missing exactly when the subset is empty, and otherwise times the size is its column's sum; the revenue is the sum of `total_amount` (0 for an empty subset) |
| Metrics.SumBounds | app.py:88 | values strictly between two bounds sum to strictly between n times the bounds |
| Metrics.MeanWithin | app.py:88 | the mean of values strictly between two bounds is strictly between them |
| Metrics.CleanSubsetMetricsInBounds | app.py:86-94 | on a non-empty clean subset, each of the three means stays within that column's cleaning bounds |
| Metrics.SumOfThree | app.py:90 | a three-element sum is the sum of its elements |
| Metrics.ThreeFaresExample | app.py:88-90 | for fares 10, 20 and 30 the average fare is 20, and the revenue is the sum of the three totals |
| TopZones.MatchZone | app.py:104 | the join rows for one location are exactly the lookup entries with that id, each carrying the location's count, one row per copy of the entry |
| TopZones.JoinCounts | app.py:103-104 | every joined row is a grouped location with its own trip count and a lookup entry; every lookup entry of a grouped location is joined |
| TopZones.ZoneCounts | app.py:103-104 | the merged table holds each (location with trips, matching reference entry) pair with that location's trip count, exactly as often as the entry occurs in the reference, and nothing else |
| TopZones.JoinCountsMultiplicity | app.py:104 | over distinct group keys, the inner merge yields each matching pair once per copy of its reference entry |
| TopZones.ZoneCountsDistinct | app.py:103-104 | a duplicate-free reference gives a merged table without repeated rows |
| TopZones.TopPickupZones | app.py:103-105 | min(10, joined rows) rows drawn from the joined table, counts non-increasing, each row's count is the number of subset trips from that location (positive) and names a lookup entry, and with a duplicate-free reference no row repeats |
| TopZones.TopPickupZonesAreTop | app.py:103-105 | a joined location missing from the table has no more trips than any location shown |
| TopZones.TopPickupZonesShowsAllWhenFew | app.py:103-105 | when the merge has at most ten rows, every joined (location, reference entry) pair is shown |
| FareByHour.FaresAtHour | app.py:113-114 | the fares are the `fare_amount` column of the hour's group, every trip of that hour once, in frame order; none exactly when the hour does not occur |
| FareByHour.MeansFor | app.py:114-115 | each row is its key's mean fare |
| FareByHour.AverageFareByHour | app.py:112-117 | strictly ascending hours, a row exactly for each hour that occurs (no zero rows), and each value the mean fare of that hour's trips |
| FareByHour.CleanHourlyFaresInBounds | app.py:112-117 | on a clean subset every hourly mean fare is strictly between 0 and 200 |
| PaymentBreakdown.NamesOf | app.py:141 | the grouping column holds exactly the present names of the subset; when every row is named it is each row's own name, row by row |
| PaymentBreakdown.CountNamesOf | app.py:141-143 | a name's group size in that column is the number of trips carrying that name |
| PaymentBreakdown.PaymentCountsAreGroupSizes | app.py:140-145 | each breakdown row counts exactly the selected trips of its name |
| PaymentBreakdown.Tally | app.py:141-143 | one row per key with that key's group size; the counts total the group sizes |
| PaymentBreakdown.PaymentCounts | app.py:140-145 | counts non-increasing, names distinct, a row exactly for each name that occurs, each count the size of that name's group (positive), and the counts summing to the named rows |
| PaymentBreakdown.TallyRowsDistinct | app.py:141-143 | rows over distinct keys have no duplicates |
| PaymentBreakdown.SameRows | app.py:144 | a reordering has the same rows |
| PaymentBreakdown.SortedTallyRows | app.py:141-144 | every sorted row is a key with its own group size |
| PaymentBreakdown.SortedTallyDistinct | app.py:141-144 | the sorted rows have distinct names |
| PaymentBreakdown.SortedTallyCovers | app.py:141-144 | the sorted rows name exactly the keys |
| PaymentBreakdown.SortedTally | app.py:141-144 | sorting the tally keeps one row per key, each with its group size |
| PaymentBreakdown.PaymentCountsMatchTotalTrips | app.py:140-145 | once every row is named, the counts add up to "Total Trips" |
| DayHourMatrix.DayName | app.py:162-163 | weekdays 0..6 are named Monday..Sunday; other numbers have no name |
| DayHourMatrix.TripsAt | app.py:157-160 | a cell is zero exactly when no trip has that hour and weekday |
| DayHourMatrix.DaysAtHour | app.py:157-158 | every weekday listed for an hour is some trip's weekday |
| DayHourMatrix.GridRows | app.py:156-167 | each grid row holds the weekday counts of its hour |
| DayHourMatrix.DayHourPivot | app.py:157-168 | strictly ascending hours, exactly those that occur; columns Monday..Sunday; every cell, absent pairs included, the reference count of trips at that hour and weekday |
| DayHourMatrix.PivotAsWritten | app.py:157-168 | fails exactly when some weekday 0..6 does not occur in the subset; otherwise it is the grid above |
| DayHourMatrix.CountDaysAtHour | app.py:157-160 | counting a weekday among an hour's trips gives the reference cell count |
| DayHourMatrix.DaysAtHourSize | app.py:157-160 | an hour's trips are as many as its hour group |
| DayHourMatrix.GridRowsTotal | app.py:157-165 | over trips with weekdays 0..6, the grid rows of some hours hold as many trips as those hours' groups |
| DayHourMatrix.PivotTotal | app.py:157-168 | with weekdays 0..6, the grid's cells sum to the subset's size |
| DayHourMatrix.DerivedPivotTotal | app.py:157-168 | on derived rows the grid's cells sum to the subset's size |
| DayHourMatrix.EmptySubsetPivotFails | app.py:168 | an empty working subset makes the grid fail |
| DayHourMatrix.SingleTripPivotFails | app.py:168 | a one-trip subset makes the grid fail, while the corrected grid has one row holding that trip |

## Left out

- Reading the Parquet file and the zone CSV, and the missing-file error path (app.py:27-32, 101-102). The rows are parameters instead: `Cleaning.LoadData` takes the records and `TopZones.TopPickupZones` takes the lookup.
- `st.cache_data` and the Streamlit widgets, titles, captions and all Plotly figures. The widgets' values are the `Filters.Selection` parameter.
- Timezone handling; timestamps are whole seconds in the records' own local time. Sub-second precision is left out too.
- Floating point. Amounts are exact reals, so rounding, NaN inputs and display formatting (app.py:86-94) are not modelled.
- The histogram of trip distances (app.py:124-135): it is pure presentation.
- The date widget's intermediate one-date value (app.py:57), on which `date_range[1]` at app.py:76 would fail. `Filters.Selection` always carries both ends.
- `filtered_df` (app.py:72): it is computed and never used.
- The weekday recomputation of app.py:153-154. The frame always has the derived weekday column, and the model reads it as the `pickupDay` field. Its name in the script differs, so the recomputation would in fact always run; it yields the same values.
- Filters.MinDate: an empty loaded frame, where the minimum of the object-typed date column is a missing value and the date widget fails, is not modelled. `MinDate`, `MaxDate` and `DefaultSelection` require a non-empty frame.
- Tables.SortDescending: a stable sort. pandas' default quicksort does not promise an order among rows with equal counts. The model's tie order is one of the allowed ones; the properties proved (non-increasing counts, same rows) hold for any tie order.
- PaymentBreakdown.PaymentCounts: the group keys are taken in last-occurrence order, not pandas' lexicographic string order, before the sort by count. Only the order of ties differs, and pandas leaves that unspecified after the unstable sort.
- TopZones.Zone: the lookup keeps only the id, borough and zone name, not the service-zone column.
- DayHourMatrix.DayHourPivot: cells are exact counts, where pandas shows floats after `fillna(0)`.

## Findings

| source | as written | input that shows it | evidently intended | confidence | as-written member | corrected member |
|---|---|---|---|---|---|---|
| app.py:168 | `bar_pivot[days_order]` selects all seven weekday columns, but the pivot only has columns for the weekdays that occur in the working subset, so the selection raises a KeyError | a selection whose trips miss some weekday: a single trip, a one-day date range, or no payment type selected | every weekday column present, an absent weekday showing 0 trips | not executed | DayHourMatrix.PivotAsWritten, DayHourMatrix.SingleTripPivotFails, DayHourMatrix.EmptySubsetPivotFails | DayHourMatrix.DayHourPivot, DayHourMatrix.PivotTotal |
