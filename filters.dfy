/** The filter engine: the sidebar's date range and four multiselects applied
    to the fact table (app.py lines 62-76), and the delivered-only view (line 78). */
module Filters {
  import opened Records
  import opened Seqs

  /** What the sidebar widgets return: an inclusive date range and one
      selection per categorical column (empty means "no restriction"). */
  datatype Criteria = Criteria(
    startDate: Date,
    endDate: Date,
    cities: set<string>,
    zones: set<string>,
    cuisines: set<string>,
    tiers: set<string>)

  /** The calendar date of the order lies in [start, end]. */
  predicate InDateRange(f: OrderFact, start: Date, end: Date) {
    start <= DateOf(f.order.orderDatetime) <= end
  }

  function DateWithin(start: Date, end: Date): OrderFact -> bool {
    f => InDateRange(f, start, end)
  }

  /** pandas `isin(selection)`: a null cell is never in the selection. */
  predicate IsIn(v: Option<string>, selection: set<string>) {
    v.Some? && v.value in selection
  }

  function InSelection(selection: set<string>, column: OrderFact -> Option<string>): OrderFact -> bool {
    f => IsIn(column(f), selection)
  }

  /** The `OrderFact` column accessors as function values, so a column can be
      passed to `InSelection`, `HasKey` and the groupings, and two mentions of
      the same column are the same term to the verifier. */
  function City(f: OrderFact): Option<string> { f.City() }
  function Zone(f: OrderFact): Option<string> { f.Zone() }
  function CuisineType(f: OrderFact): Option<string> { f.CuisineType() }
  function RestaurantTier(f: OrderFact): Option<string> { f.RestaurantTier() }

  /** The rows whose `column` is the non-null value `k`: one group of a `groupby`. */
  function HasKey(column: OrderFact -> Option<string>, k: string): OrderFact -> bool {
    f => column(f) == Some(k)
  }

  /** The rows whose `column` is not null. */
  function KeyPresent(column: OrderFact -> Option<string>): OrderFact -> bool {
    f => column(f).Some?
  }

  /** The date mask, inclusive at both ends. */
  function ByDate(s: seq<OrderFact>, start: Date, end: Date): (r: seq<OrderFact>)
    ensures forall i :: 0 <= i < |r| ==> start <= DateOf(r[i].order.orderDatetime) <= end
    ensures forall i :: 0 <= i < |s| && start <= DateOf(s[i].order.orderDatetime) <= end ==> s[i] in r
    ensures forall x :: x in r ==> x in s
    ensures IsSubsequence(r, s)
  {
    FilterIsSubsequence(s, DateWithin(start, end));
    Filter(s, DateWithin(start, end))
  }

  /** One categorical filter: skipped when nothing is selected, otherwise the
      rows whose value is one of the selected ones. */
  function ByCategory(s: seq<OrderFact>, selection: set<string>, column: OrderFact -> Option<string>): (r: seq<OrderFact>)
    ensures |selection| == 0 ==> r == s
    ensures |selection| > 0 ==> forall x :: x in s ==> (x in r <==> column(x).Some? && column(x).value in selection)
    ensures |selection| > 0 ==> forall i :: 0 <= i < |s| && column(s[i]).None? ==> s[i] !in r
    ensures forall x :: x in r ==> x in s && Admits(selection, column(x))
    ensures IsSubsequence(r, s)
  {
    if |selection| == 0 then
      SubsequenceReflexive(s);
      s
    else
      FilterIsSubsequence(s, InSelection(selection, column));
      Filter(s, InSelection(selection, column))
  }

  /** `df` after the filter block: the date mask, then city, zone, cuisine and
      tier. A row is kept exactly when it passes all five, and the kept rows
      stay in their order in the fact table. */
  function ApplyFilters(facts: seq<OrderFact>, c: Criteria): (r: seq<OrderFact>)
    ensures forall x :: x in r ==> x in facts && Selected(c, x)
    ensures forall x :: x in facts && Selected(c, x) ==> x in r
    ensures IsSubsequence(r, facts)
  {
    var byDate := ByDate(facts, c.startDate, c.endDate);
    var byCity := ByCategory(byDate, c.cities, City);
    var byZone := ByCategory(byCity, c.zones, Zone);
    var byCuisine := ByCategory(byZone, c.cuisines, CuisineType);
    var r := ByCategory(byCuisine, c.tiers, RestaurantTier);
    FilterIsSubsequence(facts, DateWithin(c.startDate, c.endDate));
    SubsequenceTransitive(byCity, byDate, facts);
    SubsequenceTransitive(byZone, byCity, facts);
    SubsequenceTransitive(byCuisine, byZone, facts);
    SubsequenceTransitive(r, byCuisine, facts);
    r
  }

  /** A selection admits a value when it is empty or holds the value. */
  predicate Admits(selection: set<string>, v: Option<string>) {
    |selection| == 0 || IsIn(v, selection)
  }

  /** The conjunction of every predicate the filter block applies. */
  predicate Selected(c: Criteria, f: OrderFact) {
    && InDateRange(f, c.startDate, c.endDate)
    && Admits(c.cities, f.City())
    && Admits(c.zones, f.Zone())
    && Admits(c.cuisines, f.CuisineType())
    && Admits(c.tiers, f.RestaurantTier())
  }

  function SelectedBy(c: Criteria): OrderFact -> bool {
    f => Selected(c, f)
  }

  function AdmittedBy(selection: set<string>, column: OrderFact -> Option<string>): OrderFact -> bool {
    f => Admits(selection, column(f))
  }

  /** Every categorical filter is a selection by `Admits`. */
  lemma ByCategoryIsSelection(s: seq<OrderFact>, selection: set<string>, column: OrderFact -> Option<string>)
    ensures ByCategory(s, selection, column) == Filter(s, AdmittedBy(selection, column))
  {
    if |selection| == 0 {
      FilterKeepsAll(s, AdmittedBy(selection, column));
    } else {
      FilterExtensional(s, InSelection(selection, column), AdmittedBy(selection, column));
    }
  }

  /** The filters combine by AND: the filtered table is the single selection
      of the rows that pass every predicate. */
  lemma ApplyFiltersIsConjunction(facts: seq<OrderFact>, c: Criteria)
    ensures ApplyFilters(facts, c) == Filter(facts, SelectedBy(c))
  {
    var p0 := DateWithin(c.startDate, c.endDate);
    var p1 := AdmittedBy(c.cities, City);
    var p2 := AdmittedBy(c.zones, Zone);
    var p3 := AdmittedBy(c.cuisines, CuisineType);
    var p4 := AdmittedBy(c.tiers, RestaurantTier);
    var d0 := Filter(facts, p0);
    ByCategoryIsSelection(d0, c.cities, City);
    FilterFilter(facts, p0, p1);
    var q1 := And(p0, p1);
    var d1 := Filter(facts, q1);
    ByCategoryIsSelection(d1, c.zones, Zone);
    FilterFilter(facts, q1, p2);
    var q2 := And(q1, p2);
    var d2 := Filter(facts, q2);
    ByCategoryIsSelection(d2, c.cuisines, CuisineType);
    FilterFilter(facts, q2, p3);
    var q3 := And(q2, p3);
    var d3 := Filter(facts, q3);
    ByCategoryIsSelection(d3, c.tiers, RestaurantTier);
    FilterFilter(facts, q3, p4);
    var q4 := And(q3, p4);
    FilterExtensional(facts, q4, SelectedBy(c));
  }

  /** The filtered table holds exactly the rows that pass every predicate, as
      a subsequence of the fact table: nothing is invented or reordered. */
  lemma ApplyFiltersExact(facts: seq<OrderFact>, c: Criteria)
    ensures IsSubsequence(ApplyFilters(facts, c), facts)
    ensures forall i :: 0 <= i < |ApplyFilters(facts, c)| ==> Selected(c, ApplyFilters(facts, c)[i])
    ensures forall i :: 0 <= i < |facts| && Selected(c, facts[i]) ==> facts[i] in ApplyFilters(facts, c)
  {
    ApplyFiltersIsConjunction(facts, c);
    FilterIsSubsequence(facts, SelectedBy(c));
  }

  /** The date range is inclusive of whole days: a row is kept exactly when its
      timestamp lies between midnight of the start day and midnight after the end day. */
  lemma InDateRangeBounds(f: OrderFact, start: Date, end: Date)
    ensures InDateRange(f, start, end) <==>
      start * SECONDS_PER_DAY <= f.order.orderDatetime < (end + 1) * SECONDS_PER_DAY
  {
    var t := f.order.orderDatetime;
    var d := DateOf(t);
    if InDateRange(f, start, end) {
      assert start * SECONDS_PER_DAY <= d * SECONDS_PER_DAY;
      assert (d + 1) * SECONDS_PER_DAY <= (end + 1) * SECONDS_PER_DAY;
    }
  }

  /** A reversed date range (start after end) selects nothing, without failing. */
  lemma ReversedRangeIsEmpty(facts: seq<OrderFact>, c: Criteria)
    requires c.startDate > c.endDate
    ensures ApplyFilters(facts, c) == []
  {
    ApplyFiltersIsConjunction(facts, c);
    FilterDropsAll(facts, SelectedBy(c));
  }

  /** With nothing selected and a date range covering every order, the
      filtered table is the whole fact table. */
  lemma NoFilterIsIdentity(facts: seq<OrderFact>, c: Criteria)
    requires |c.cities| == 0 && |c.zones| == 0 && |c.cuisines| == 0 && |c.tiers| == 0
    requires forall i :: 0 <= i < |facts| ==> InDateRange(facts[i], c.startDate, c.endDate)
    ensures ApplyFilters(facts, c) == facts
  {
    ApplyFiltersIsConjunction(facts, c);
    FilterKeepsAll(facts, SelectedBy(c));
  }

  /** A non-empty selection drops every row whose value is null. */
  lemma NullNeverMatches(facts: seq<OrderFact>, c: Criteria, f: OrderFact)
    requires |c.zones| > 0 && f.Zone().None?
    ensures f !in ApplyFilters(facts, c)
  {
    ApplyFiltersIsConjunction(facts, c);
  }

  predicate IsDelivered(f: OrderFact) {
    f.order.orderStatus == "Delivered"
  }

  /** `delivered`: the filtered rows whose status is "Delivered". */
  function Delivered(df: seq<OrderFact>): (r: seq<OrderFact>)
    ensures forall i :: 0 <= i < |r| ==> r[i].order.orderStatus == "Delivered"
    ensures forall i :: 0 <= i < |df| && df[i].order.orderStatus == "Delivered" ==> df[i] in r
    ensures forall x :: x in r ==> x in df
    ensures IsSubsequence(r, df)
  {
    FilterIsSubsequence(df, IsDelivered);
    Filter(df, IsDelivered)
  }

  /** `delivered` is a subsequence of `df`, hence of the fact table, and is
      the single selection of the delivered rows that pass every filter. */
  lemma DeliveredWithinFiltered(facts: seq<OrderFact>, c: Criteria)
    ensures IsSubsequence(Delivered(ApplyFilters(facts, c)), ApplyFilters(facts, c))
    ensures IsSubsequence(Delivered(ApplyFilters(facts, c)), facts)
    ensures Delivered(ApplyFilters(facts, c)) == Filter(facts, And(SelectedBy(c), IsDelivered))
  {
    var df := ApplyFilters(facts, c);
    FilterIsSubsequence(df, IsDelivered);
    ApplyFiltersExact(facts, c);
    SubsequenceTransitive(Delivered(df), df, facts);
    ApplyFiltersIsConjunction(facts, c);
    FilterFilter(facts, SelectedBy(c), IsDelivered);
  }
}
