/** The Manager view's metrics (app.py lines 125-147): on-time rate, average
    delivery time, cancellation rate and the Late / On Time count per zone.
    pandas compares a missing timestamp (NaT) as false both ways; a NaN
    result from an empty denominator is `None`. */
module Manager {
  import opened Records
  import opened Seqs
  import opened Filters

  predicate HasDeliveredTime(f: OrderFact) {
    f.DeliveredTime().Some?
  }

  /** `delivered_events`: the filtered rows with a delivered time, whatever their status. */
  function DeliveredEvents(df: seq<OrderFact>): (r: seq<OrderFact>)
    ensures forall i :: 0 <= i < |r| ==> r[i].DeliveredTime().Some?
    ensures forall i :: 0 <= i < |df| && df[i].DeliveredTime().Some? ==> df[i] in r
    ensures forall x :: x in r ==> x in df
    ensures IsSubsequence(r, df)
  {
    FilterIsSubsequence(df, HasDeliveredTime);
    Filter(df, HasDeliveredTime)
  }

  /** `delivered_events` is not restricted to the "Delivered" rows: a row of
      `df` with a delivered time and another status is counted in it but not
      in `delivered`. */
  lemma DeliveredEventsIgnoreStatus(df: seq<OrderFact>, i: int)
    requires 0 <= i < |df|
    requires df[i].DeliveredTime().Some? && df[i].order.orderStatus != "Delivered"
    ensures df[i] in DeliveredEvents(df)
    ensures df[i] !in Delivered(df)
  {
  }

  /** Both timestamps the delay comparisons read are present (neither is NaT). */
  predicate IsTimed(f: OrderFact) {
    f.DeliveredTime().Some? && f.EstimatedDeliveryTime().Some?
  }

  /** `delivered_time <= estimated_delivery_time`, false when either is NaT:
      on time for the rate exactly when timed and not labelled "Late". */
  predicate IsOnTime(f: OrderFact): (b: bool)
    ensures b <==> IsTimed(f) && DelayLabel(f) == OnTime
  {
    IsTimed(f) && f.DeliveredTime().value <= f.EstimatedDeliveryTime().value
  }

  /** On-time rate: the percentage of `delivered_events` delivered no later
      than estimated; NaN (`None`) when there are none. */
  function OnTimeRate(events: seq<OrderFact>): (r: Option<real>)
    ensures r.None? <==> |events| == 0
    ensures r.Some? ==> 0.0 <= r.value <= 100.0
    ensures r.Some? ==> r.value * (|events| as real) == 100.0 * (Count(events, IsOnTime) as real)
  {
    Rate(Count(events, IsOnTime), |events|)
  }

  predicate HasDuration(f: OrderFact) {
    f.ActualDeliveryTimeMins().Some?
  }

  function Duration(f: OrderFact): real {
    if f.ActualDeliveryTimeMins().Some? then f.ActualDeliveryTimeMins().value else 0.0
  }

  /** Average delivery time: the mean of the non-null durations (pandas skips
      NaN); NaN (`None`) when every duration is missing. */
  function AvgDelivery(events: seq<OrderFact>): (r: Option<real>)
    ensures r.None? <==> forall i :: 0 <= i < |events| ==> !HasDuration(events[i])
    ensures r.Some? ==> r.value * (Count(events, HasDuration) as real) == Sum(Filter(events, HasDuration), Duration)
  {
    var n := Count(events, HasDuration);
    CountZero(events, HasDuration);
    if n == 0 then None
    else Some(Sum(Filter(events, HasDuration), Duration) / (n as real))
  }

  predicate IsCancelled(f: OrderFact) {
    f.order.orderStatus == "Cancelled"
  }

  /** Cancellation rate: the percentage of all filtered rows (not only the
      delivered ones) whose status is "Cancelled"; NaN (`None`) on no rows. */
  function CancellationRate(df: seq<OrderFact>): (r: Option<real>)
    ensures r.None? <==> |df| == 0
    ensures r.Some? ==> 0.0 <= r.value <= 100.0
    ensures r.Some? ==> r.value * (|df| as real) == 100.0 * (Count(df, IsCancelled) as real)
  {
    Rate(Count(df, IsCancelled), |df|)
  }

  /** Cancelled and delivered rows are disjoint parts of `df`. */
  lemma CancelledAndDeliveredFit(df: seq<OrderFact>)
    ensures Count(df, IsCancelled) + |Delivered(df)| <= |df|
  {
    forall i | 0 <= i < |df| && IsCancelled(df[i]) ensures Not(IsDelivered)(df[i]) {
      assert df[i].order.orderStatus[0] == 'C';
    }
    CountMonotone(df, IsCancelled, Not(IsDelivered));
    CountPartition(df, IsDelivered);
  }

  datatype DelayStatus = Late | OnTime

  /** The delay label: "Late" exactly when `delivered_time > estimated_delivery_time`
      (strict, and false when either is NaT), otherwise "On Time". */
  function DelayLabel(f: OrderFact): (st: DelayStatus)
    ensures st == Late ==> IsTimed(f)
    ensures !IsTimed(f) ==> st == OnTime
    ensures IsTimed(f) && f.DeliveredTime() == f.EstimatedDeliveryTime() ==> st == OnTime
  {
    if IsTimed(f) && f.DeliveredTime().value > f.EstimatedDeliveryTime().value
    then Late
    else OnTime
  }

  function LabelledAs(st: DelayStatus): OrderFact -> bool {
    f => DelayLabel(f) == st
  }

  /** A delivery at exactly the estimate is on time for both the rate and the label. */
  lemma TieIsOnTime(f: OrderFact)
    requires f.DeliveredTime().Some? && f.DeliveredTime() == f.EstimatedDeliveryTime()
    ensures DelayLabel(f) == OnTime
    ensures IsOnTime(f)
  {
  }

  /** With both timestamps present, the label and the rate's test agree. */
  lemma LabelMatchesRateWhenTimed(f: OrderFact)
    requires f.DeliveredTime().Some? && f.EstimatedDeliveryTime().Some?
    ensures DelayLabel(f) == OnTime <==> IsOnTime(f)
  {
  }

  /** Every event gets exactly one label: Late and On Time counts add up to the events. */
  lemma LabelsCoverEvents(events: seq<OrderFact>)
    ensures Count(events, LabelledAs(Late)) + Count(events, LabelledAs(OnTime)) == |events|
  {
    CountPartition(events, LabelledAs(Late));
    FilterExtensional(events, Not(LabelledAs(Late)), LabelledAs(OnTime));
  }

  /** The rate's numerator never exceeds the On Time label count; they are equal
      when every event has both timestamps, and a single event with a delivered
      time but no estimate (labelled "On Time", never on time for the rate)
      makes the numerator strictly smaller. */
  lemma OnTimeRateVersusLabels(events: seq<OrderFact>)
    ensures Count(events, IsOnTime) <= Count(events, LabelledAs(OnTime))
    ensures (forall i :: 0 <= i < |events| ==> IsTimed(events[i])) ==>
      Count(events, IsOnTime) == Count(events, LabelledAs(OnTime))
    ensures forall i :: 0 <= i < |events| && events[i].DeliveredTime().Some? && events[i].EstimatedDeliveryTime().None? ==>
      Count(events, IsOnTime) < Count(events, LabelledAs(OnTime))
  {
    CountMonotone(events, IsOnTime, LabelledAs(OnTime));
    if forall i :: 0 <= i < |events| ==> IsTimed(events[i]) {
      forall i | 0 <= i < |events| ensures IsOnTime(events[i]) == LabelledAs(OnTime)(events[i]) {
      }
      FilterExtensional(events, IsOnTime, LabelledAs(OnTime));
    }
    forall i | 0 <= i < |events| && events[i].DeliveredTime().Some? && events[i].EstimatedDeliveryTime().None?
      ensures Count(events, IsOnTime) < Count(events, LabelledAs(OnTime))
    {
      MissingEstimateWidensGap(events, i);
    }
  }

  /** Split the events around a row with no estimate: the row adds to the On
      Time label count and not to the rate's numerator. */
  lemma MissingEstimateWidensGap(events: seq<OrderFact>, i: int)
    requires 0 <= i < |events| && events[i].EstimatedDeliveryTime().None?
    ensures Count(events, IsOnTime) < Count(events, LabelledAs(OnTime))
  {
    var pre, row, post := events[..i], [events[i]], events[i + 1..];
    assert events == pre + row + post;
    FilterAppend(pre + row, post, IsOnTime);
    FilterAppend(pre, row, IsOnTime);
    FilterAppend(pre + row, post, LabelledAs(OnTime));
    FilterAppend(pre, row, LabelledAs(OnTime));
    CountMonotone(pre, IsOnTime, LabelledAs(OnTime));
    CountMonotone(post, IsOnTime, LabelledAs(OnTime));
    assert Filter(row, IsOnTime) == [];
    assert Filter(row, LabelledAs(OnTime)) == row;
  }

  /** The rows of one (zone, label) group. */
  function InGroup(zone: string, st: DelayStatus): OrderFact -> bool {
    And(HasKey(Zone, zone), LabelledAs(st))
  }

  /** The (zone, label) pairs that occur with a non-null zone: the groups of
      `groupby(["zone", "status"])`. */
  function DelayGroups(events: seq<OrderFact>): set<(string, DelayStatus)> {
    set i | 0 <= i < |events| && events[i].Zone().Some? :: (events[i].Zone().value, DelayLabel(events[i]))
  }

  /** `groupby(["zone", "status"]).size()`: the row count of each non-empty group. */
  function DelayByZone(events: seq<OrderFact>): (m: map<(string, DelayStatus), nat>)
    ensures m.Keys == DelayGroups(events)
    ensures forall g :: g in m ==> m[g] > 0
    ensures forall g :: g in m ==> m[g] == Count(Filter(events, HasKey(Zone, g.0)), LabelledAs(g.1))
  {
    forall g: (string, DelayStatus)
      ensures Count(events, InGroup(g.0, g.1)) == Count(Filter(events, HasKey(Zone, g.0)), LabelledAs(g.1))
    {
      FilterFilter(events, HasKey(Zone, g.0), LabelledAs(g.1));
    }
    map g | g in DelayGroups(events) :: GroupSize(events, g.0, g.1)
  }

  function GroupSize(events: seq<OrderFact>, zone: string, st: DelayStatus): (n: nat)
    ensures (zone, st) in DelayGroups(events) <==> n > 0
  {
    GroupSizePositive(events, zone, st);
    Count(events, InGroup(zone, st))
  }

  lemma GroupSizePositive(events: seq<OrderFact>, zone: string, st: DelayStatus)
    ensures (zone, st) in DelayGroups(events) <==> Count(events, InGroup(zone, st)) > 0
  {
    if (zone, st) in DelayGroups(events) {
      var i :| 0 <= i < |events| && events[i].Zone().Some? && (events[i].Zone().value, DelayLabel(events[i])) == (zone, st);
      assert Zone(events[i]) == Some(zone);
      assert HasKey(Zone, zone)(events[i]) && LabelledAs(st)(events[i]);
      assert InGroup(zone, st)(events[i]);
      CountPositive(events, InGroup(zone, st), i);
    }
    if Count(events, InGroup(zone, st)) > 0 {
      var g := Filter(events, InGroup(zone, st));
      assert g[0] in g && InGroup(zone, st)(g[0]);
      assert HasKey(Zone, zone)(g[0]) && LabelledAs(st)(g[0]);
      assert Zone(g[0]) == Some(zone);
      var i :| 0 <= i < |events| && events[i] == g[0];
      assert events[i].Zone() == Some(zone) && DelayLabel(events[i]) == st;
      assert (events[i].Zone().value, DelayLabel(events[i])) == (zone, st);
    }
  }

  /** The count a group shows, 0 for a group that does not appear. */
  function Shown(m: map<(string, DelayStatus), nat>, g: (string, DelayStatus)): nat {
    if g in m then m[g] else 0
  }

  /** In each zone the Late and On Time bars add up to the zone's events;
      rows with a null zone appear in no group. */
  lemma DelayByZonePartition(events: seq<OrderFact>, zone: string)
    ensures Shown(DelayByZone(events), (zone, Late)) + Shown(DelayByZone(events), (zone, OnTime))
      == Count(events, HasKey(Zone, zone))
  {
    var m := DelayByZone(events);
    var inZone := Filter(events, HasKey(Zone, zone));
    GroupSizePositive(events, zone, Late);
    GroupSizePositive(events, zone, OnTime);
    CountPartition(inZone, LabelledAs(Late));
    FilterFilter(events, HasKey(Zone, zone), LabelledAs(Late));
    FilterFilter(events, HasKey(Zone, zone), Not(LabelledAs(Late)));
    FilterExtensional(events, And(HasKey(Zone, zone), Not(LabelledAs(Late))), InGroup(zone, OnTime));
  }
}
