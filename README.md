# BitesUAE dashboard: a Dafny model of its data pipeline

The BitesUAE dashboard is a Streamlit script over a food-delivery operation's
tables. With the widgets and charts stripped away, it does five things:

- it left-joins the orders with customers, restaurants and delivery events into one
  order "fact" table;
- it filters that table by an inclusive date range and four multiselects (city, zone,
  cuisine, restaurant tier);
- it takes two views of the filtered table `df`: `delivered`, the rows whose status is
  "Delivered", and `delivered_events`, the rows that have a delivered time;
- it computes the Executive KPIs (GMV, AOV, discount burn, repeat rate, GMV by zone and
  by cuisine) and the Manager KPIs (on-time rate, average delivery time, cancellation
  rate, Late / On Time counts per zone);
- it projects a what-if on-time rate and recovered GMV from two slider values.

The model is pure, like the script. Every step is a Dafny function over
`seq<OrderFact>`, and lemmas state the properties. Amounts and rates are exact `real`s.
Timestamps are whole seconds since the epoch, and calendar dates are day numbers.

Modules, one per component:

- `Records` (records.dfy): the rows of the input tables, the joined `OrderFact` with its
  nullable flattened columns, and `DateOf`, which gives the calendar date of a timestamp.
- `Seqs` (seqs.dfy): the primitives behind the data-frame calls. These are mask selection
  (`Filter`), counts, sums, a reference masked sum, percentages, subsequences, and key
  matching for joins and `groupby`.
- `Join` (join.dfy): pandas' `merge(how="left")` and the three joins.
- `Filters` (filters.dfy): the date and categorical filters and `delivered`.
- `Executive` (executive.dfy) and `Manager` (manager.dfy): the two views' metrics.
- `Projection` (projection.dfy): the what-if formulas.
- `Dashboard` (dashboard.dfy): each view's metrics as one result, and a worked
  three-order example taken end to end.

How missing values and NaN are modelled:

- A null cell (pandas NaN or NaT) is `Option.None`.
- pandas compares NaT as false in both directions. So a row whose estimate is missing is
  not on time for the on-time rate, yet gets the "On Time" label in the delay breakdown.
  `Manager.OnTimeRateVersusLabels` proves this. The rate's numerator never exceeds the
  On Time label count, and one such row makes it strictly smaller.
- A metric that pandas computes as NaN from an empty denominator is `None`. So is a
  division by a zero GMV. The script does not guard these cases, and neither does the
  model.

Where the script's behaviour differs from what the metric names suggest, the model
follows the script:

- `delivered_events` is `df` restricted to rows with a delivered time, whatever their
  status (app.py:125), not `delivered` restricted that way.
- Empty denominators give NaN rather than a sentinel 0.
- `groupby` drops rows whose key is null. The per-zone and per-cuisine sums therefore
  have no bucket for a null zone or cuisine.

## Model

| member | source | states |
|---|---|---|
| Records.DateOf | app.py:65-66 | the calendar date of a timestamp is the day whose [midnight, next midnight) interval contains it |
| Records.DateOfUnique | app.py:65-66 | that day is unique: any day whose interval contains the timestamp is its date |
| Seqs.Filter | app.py:78 | mask selection keeps exactly the rows that satisfy the mask (every kept row satisfies it, every satisfying row is kept) and never lengthens the table |
| Seqs.FilterIsSubsequence | app.py:64-76 | a mask selection is a subsequence of its input: no row is invented, duplicated or reordered |
| Seqs.FilterFilter | app.py:64-76 | two masks applied one after the other select exactly what their conjunction selects |
| Seqs.SumFilterIsMaskedSum | app.py:86 | summing a column over the selected rows equals summing it over all rows with the unselected ones counted as 0 |
| Seqs.SumPartition | app.py:106 | a column sum splits into the sum over the rows a mask selects plus the sum over the rest |
| Seqs.CountPartition | app.py:141-145 | every row is counted by exactly one of a predicate and its negation |
| Seqs.Rate | app.py:96-98 | a `mean() * 100` of booleans is undefined (NaN) exactly when there are none; otherwise it lies in [0, 100], times the count gives 100 × the number that hold, and is 0 exactly when none holds |
| Seqs.Percent | app.py:127-134 | 100 × part / whole lies in [0, 100], times whole gives 100 × part, is 0 iff part is 0 and is 100 iff part equals whole |
| Join.Lookup | app.py:38-40 | the match for a key is a row of the table with that key, and there is none exactly when no row has the key |
| Join.LeftJoin | app.py:38-40 | a left join never has fewer rows than its left side |
| Join.LeftJoinKeepsRows | app.py:38-40 | every left row appears in the join with its first match attached, or with null when nothing matches, so unmatched rows are kept, not dropped |
| Join.LeftJoinUnique | app.py:38-40 | with unique keys on the joined side, a left join keeps every left row exactly once and in order, and attaches its match or null |
| Join.BuildFacts | app.py:38-40 | the fact table built by the three left joins has at least as many rows as there are orders, and every order appears in some row of it |
| Join.BuildFactsOneRowPerOrder | app.py:38-40 | with unique customer, restaurant and order ids on the joined side, the fact table has exactly one row per order, in order, carrying the matching customer, restaurant and delivery event, or null for each that has no match |
| Join.UnmatchedOrderKept | app.py:38 | an order whose customer id matches no customer stays in the table with a null customer and a null city |
| Filters.ByDate | app.py:64-67 | the date filter keeps exactly the rows with start <= date(order_datetime) <= end: every in-range row of the input is kept, and the result holds only rows of the input, in order |
| Filters.ByCategory | app.py:69-76 | an empty selection returns the input unchanged; otherwise a row is kept iff its value is non-null and selected, so a null never matches; every kept row is an input row the selection admits; the result is a subsequence of the input |
| Filters.ApplyFilters | app.py:62-76 | `df` holds exactly the fact rows that pass the date range and all four selections, as a subsequence of the fact table; the single-selection form is `Filters.ApplyFiltersIsConjunction` |
| Filters.ByCategoryIsSelection | app.py:69-76 | every categorical filter is the selection "the selection is empty or holds the row's value" |
| Filters.ApplyFiltersIsConjunction | app.py:62-76 | the date, city, zone, cuisine and tier filters combine by AND: the filtered table is one selection by their conjunction |
| Filters.ApplyFiltersExact | app.py:62-76 | `df` is a subsequence of the fact table, every row of it passes every filter, and every fact row that passes them all is in it |
| Filters.InDateRangeBounds | app.py:64-67 | the date range covers whole days: a row passes iff its timestamp lies between midnight of the start day and midnight after the end day |
| Filters.ReversedRangeIsEmpty | app.py:64-67 | a range whose start is after its end selects no row, without failing |
| Filters.NoFilterIsIdentity | app.py:62-76 | with empty selections and a date range covering every order, `df` is the whole fact table |
| Filters.NullNeverMatches | app.py:71-72 | with a non-empty zone selection, a row with a null zone is never in `df` |
| Filters.Delivered | app.py:78 | every row of `delivered` has status "Delivered", and every delivered row of `df` is in it; it holds only rows of `df`, in order |
| Filters.DeliveredWithinFiltered | app.py:78 | `delivered` is a subsequence of `df` and of the fact table, and is the single selection of the fact rows that pass the filters and were delivered |
| Executive.Gmv | app.py:86 | GMV of no delivered rows is 0, and GMV is never negative when no gross amount is; `Executive.GmvIsMaskedSum`, `Executive.GmvAdditive` and `Executive.GroupSumTotal` relate it to the fact table, splits and the grouped sums |
| Executive.GmvIsMaskedSum | app.py:86 | GMV over the filtered view equals the gross amount over the fact table masked to the rows that pass the filters and were delivered |
| Executive.GmvAdditive | app.py:86 | GMV of two tables joined end to end is the sum of their GMVs |
| Executive.Aov | app.py:87 | AOV is undefined (NaN) exactly when nothing was delivered; otherwise AOV × the number of delivered rows is the GMV |
| Executive.AovWithinAmounts | app.py:87 | AOV lies between any lower and upper bound of the delivered gross amounts |
| Executive.DiscountBurn | app.py:88-91 | discount burn is undefined exactly when GMV is 0; otherwise burn × GMV is 100 × the total discount |
| Executive.DiscountBurnIsPercentage | app.py:88-91 | when every discount is between 0 and its order's gross amount, the burn lies in [0, 100] |
| Executive.Repeaters | app.py:93-96 | the repeating customers are customers of `delivered` |
| Executive.RepeatRate | app.py:93-98 | repeat rate is undefined exactly when nothing was delivered; otherwise it lies in [0, 100], equals 100 × repeaters / distinct customers, and is 0 iff no customer has more than one delivered order |
| Executive.NoRepeaters | app.py:93-97 | there is no repeating customer exactly when every customer's group has at most one order |
| Executive.RepeatersBound | app.py:93-97 | distinct customers plus repeating customers never exceed the number of delivered rows |
| Executive.RepeatRateZeroWhenCustomersDistinct | app.py:93-98 | when no customer id occurs twice in `delivered`, the repeat rate is exactly 0 |
| Executive.GroupSum | app.py:106 | the grouped sum has one group for each non-null value that occurs, and none for null; each group's value is the gross amount summed over exactly the rows carrying that value |
| Executive.GmvByZone | app.py:106 | GMV by zone has a bar for exactly the non-null zones that occur, and each bar is the gross amount of that zone's delivered rows |
| Executive.GmvByCuisine | app.py:112 | GMV by cuisine has a slice for exactly the non-null cuisines that occur, and each slice is the gross amount of that cuisine's delivered rows |
| Executive.GroupSumDropsNullKeys | app.py:106 | appending a row whose key is null leaves every group sum unchanged |
| Executive.GroupSumsOverKeys | app.py:112 | the group GMVs summed over distinct keys equal the GMV of the rows keyed by one of them |
| Executive.GroupSumTotal | app.py:106 | the group sums, added over all groups, equal the total GMV less the GMV of the rows whose key is null |
| Manager.DeliveredEvents | app.py:125 | every row of `delivered_events` has a delivered time, and every row of `df` that has one is in it; it holds only rows of `df`, in order |
| Manager.DeliveredEventsIgnoreStatus | app.py:125 | any row of `df` with a delivered time and a status other than "Delivered" is in `delivered_events` but not in `delivered` |
| Manager.IsOnTime | app.py:128-129 | the rate's test holds exactly when both timestamps are present and the row is not labelled "Late": a missing timestamp (NaT) is never on time |
| Manager.OnTimeRate | app.py:127-131 | the on-time rate is undefined exactly when there are no events; otherwise it lies in [0, 100] and times the event count equals 100 × the number delivered no later than estimated |
| Manager.AvgDelivery | app.py:133 | the average delivery time is undefined exactly when every duration is null; otherwise times the non-null count it equals their sum |
| Manager.CancellationRate | app.py:134 | the cancellation rate is undefined exactly when `df` is empty; otherwise it lies in [0, 100] and times the row count of `df` (not of `delivered`) equals 100 × the cancelled rows |
| Manager.CancelledAndDeliveredFit | app.py:134 | cancelled rows and delivered rows together never exceed the rows of `df` |
| Manager.DelayLabel | app.py:142-145 | only a row with both timestamps can be "Late"; a row missing either is "On Time", and so is a delivery exactly at its estimate |
| Manager.TieIsOnTime | app.py:141-145 | a delivery exactly at its estimate is labelled "On Time" and counts as on time for the rate |
| Manager.LabelMatchesRateWhenTimed | app.py:141-145 | with both timestamps present, the "On Time" label and the rate's `<=` test agree |
| Manager.LabelsCoverEvents | app.py:141-145 | the Late and On Time counts add up to the number of events |
| Manager.OnTimeRateVersusLabels | app.py:127-145 | the rate's numerator never exceeds the On Time label count, equals it when every event has both timestamps, and is strictly smaller when some event has a delivered time but no estimate |
| Manager.DelayByZone | app.py:147 | the zone × status table has exactly the (zone, label) groups that occur with a non-null zone; each count is positive and is the number of that zone's events carrying that label |
| Manager.GroupSize | app.py:147 | a (zone, label) group is listed exactly when its count is positive |
| Manager.DelayByZonePartition | app.py:141-147 | in each zone the Late and On Time counts add up to the zone's events |
| Projection.ProjectedOnTime | app.py:163 | the projected rate is at most 100, is at most rate + prep/2, equals one of the two, and never falls below a rate that is at most 100 |
| Projection.ProjectedOnTimeMonotone | app.py:163 | a bigger prep-time reduction never projects a lower rate |
| Projection.ProjectedOnTimeIsPercentage | app.py:163 | for a rate in [0, 100] the projection stays in [rate, 100], and adds exactly prep/2 while below the cap |
| Projection.RecoveredGmv | app.py:164 | recovered GMV × 100 is GMV × the reduction, and lies between 5% and 30% of a non-negative GMV |
| Projection.WorkedExamples | app.py:160-164 | 80 + 5 min gives 82.5, 97 + 15 min is capped at 100, and a 10% reduction of a GMV of 100000 recovers 10000 |
| Dashboard.ExecutiveView | app.py:86-112 | the Executive GMV is the masked gross sum of `df`; AOV and repeat rate are undefined exactly when `df` has no delivered row; the repeat rate is a percentage; burn is undefined exactly when GMV is 0 |
| Dashboard.ManagerView | app.py:125-164 | the on-time rate is undefined exactly when no row of `df` has a delivered time; the cancellation rate exactly when `df` is empty; the projection is undefined with the rate and otherwise lies between the rate and 100; recovered GMV × 100 is GMV × the reduction |
| Dashboard.ThreeOrderScenario | app.py:38-134 | with three orders on one day (two delivered, for 100 and 200, and one cancelled), no dimension rows and nothing selected: GMV is 300, AOV is 150, the repeat rate is 0 and the cancellation rate is 100/3 |

## Left out

- Loading the CSV files and caching them (app.py:11-33) is file I/O and framework
  memoisation. The tables are inputs, with dates already parsed to whole seconds,
  timezone-naive.
- `order_items` and `riders` are loaded but never used.
- Streamlit UI is left out: page configuration, sidebar widgets, the view radio, columns
  and metric tiles, and the f-string formatting and rounding of displayed numbers. The
  widgets' values (date range, selections, slider values) are function inputs, and the
  two branches of the radio are `Dashboard.ExecutiveView` and `Dashboard.ManagerView`.
- Plotly chart construction is left out. So is the ascending `sort_values` of GMV by
  zone (app.py:106), which only orders the bars, and the sorted key order of `groupby`:
  grouped results are maps.
- IEEE floating point is not modelled: amounts and rates are exact reals. NaN and ±inf
  results are both `None`, and a NaN on-time rate makes the projection `None`.
- `Dashboard.ManagerView`: `gmv` is bound only in the Executive branch (app.py:86) but is
  read in the Manager branch (app.py:164), so that branch raises a NameError. The model
  takes `gmv` as a parameter instead of reproducing the crash.
- `st.date_input` can return a single date instead of a pair (app.py:47-50). The model
  always takes a two-date range.
- The city column: the model takes `city` from the customers table only. If
  restaurants.csv also carried a `city` column, pandas would rename both columns with
  `_x`/`_y` suffixes at app.py:39, and app.py:52 and 70 would fail to find `city`.
- The order columns (ids, order datetime, amounts, status) are assumed non-null. A
  pandas sum would skip a NaN amount.
- `Join.BuildFacts` promises only that every order appears, in at least one row. Exactly
  one row per order, in order, is proved (`Join.BuildFactsOneRowPerOrder`) only when the
  customer, restaurant and event ids are unique.
- `Join.LeftJoin` states only a row-count bound in its own contract. That every left
  row is kept is `Join.LeftJoinKeepsRows`. Duplicate keys on the joined side are
  modelled (the left row is repeated once per match), but one row per left row, in
  order, is proved only under unique keys (`Join.LeftJoinUnique`).
