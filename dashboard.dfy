/** The two views the script renders from the filtered table `df`: the
    Executive branch (app.py lines 86-112) and the Manager branch (lines
    125-164), as plain results instead of metric tiles and charts. */
module Dashboard {
  import opened Records
  import opened Seqs
  import opened Join
  import opened Filters
  import opened Executive
  import opened Manager
  import opened Projection

  datatype ExecutiveSummary = ExecutiveSummary(
    gmv: real,
    aov: Option<real>,
    repeatRate: Option<real>,
    discountBurn: Option<real>,
    gmvByZone: map<string, real>,
    gmvByCuisine: map<string, real>)

  /** The Executive metrics of `df`, all read from its delivered rows. */
  function ExecutiveView(df: seq<OrderFact>): (v: ExecutiveSummary)
    ensures v.gmv == MaskedSum(df, IsDelivered, GrossAmount)
    ensures v.aov.None? <==> forall i :: 0 <= i < |df| ==> df[i].order.orderStatus != "Delivered"
    ensures v.repeatRate.None? <==> v.aov.None?
    ensures v.repeatRate.Some? ==> 0.0 <= v.repeatRate.value <= 100.0
    ensures v.discountBurn.None? <==> v.gmv == 0.0
  {
    var delivered := Delivered(df);
    SumFilterIsMaskedSum(df, IsDelivered, GrossAmount);
    CountZero(df, IsDelivered);
    ExecutiveSummary(
      Gmv(delivered),
      Aov(delivered),
      RepeatRate(delivered),
      DiscountBurn(delivered),
      GmvByZone(delivered),
      GmvByCuisine(delivered))
  }

  datatype ManagerSummary = ManagerSummary(
    onTimeRate: Option<real>,
    avgDelivery: Option<real>,
    cancellationRate: Option<real>,
    delayByZone: map<(string, DelayStatus), nat>,
    projectedOnTime: Option<real>,
    recoveredGmv: real)

  /** The Manager metrics of `df` and the what-if projection for the two
      slider values. `gmv` is the GMV of the same `df`, passed in; a NaN
      on-time rate makes the projected rate NaN too. */
  function ManagerView(df: seq<OrderFact>, prepReduction: int, cancelReduction: int, gmv: real): (v: ManagerSummary)
    requires PREP_MIN <= prepReduction <= PREP_MAX
    requires CANCEL_MIN <= cancelReduction <= CANCEL_MAX
    ensures v.onTimeRate.None? <==> forall i :: 0 <= i < |df| ==> df[i].DeliveredTime().None?
    ensures v.cancellationRate.None? <==> |df| == 0
    ensures v.projectedOnTime.None? <==> v.onTimeRate.None?
    ensures v.projectedOnTime.Some? ==> v.onTimeRate.value <= v.projectedOnTime.value <= 100.0
    ensures v.recoveredGmv * 100.0 == gmv * (cancelReduction as real)
  {
    var events := DeliveredEvents(df);
    CountZero(df, HasDeliveredTime);
    var rate := OnTimeRate(events);
    var projected := if rate.Some? then Some(ProjectedOnTime(rate.value, prepReduction)) else None;
    ManagerSummary(
      rate,
      AvgDelivery(events),
      CancellationRate(df),
      DelayByZone(events),
      projected,
      RecoveredGmv(gmv, cancelReduction))
  }

  const SCENARIO_DAY: Date := 20000
  const SCENARIO_TIME: Timestamp := SCENARIO_DAY * SECONDS_PER_DAY + 3600

  /** Three orders on one day: two delivered (100 and 200, different
      customers) and one cancelled. */
  function ScenarioOrders(): seq<Order> {
    [ Order(1, 10, 100, SCENARIO_TIME, 100.0, 10.0, "Delivered"),
      Order(2, 11, 100, SCENARIO_TIME, 200.0, 0.0, "Delivered"),
      Order(3, 10, 100, SCENARIO_TIME, 50.0, 0.0, "Cancelled") ]
  }

  function Unmatched(o: Order): OrderFact {
    OrderFact(o, None, None, None)
  }

  lemma ScenarioFacts(os: seq<Order>)
    requires os == ScenarioOrders()
    ensures BuildFacts(os, [], [], []) == [Unmatched(os[0]), Unmatched(os[1]), Unmatched(os[2])]
  {
    BuildFactsOneRowPerOrder(os, [], [], []);
  }

  lemma ScenarioFilteredTable()
    ensures var os := ScenarioOrders();
      ApplyFilters(BuildFacts(os, [], [], []), Criteria(SCENARIO_DAY, SCENARIO_DAY, {}, {}, {}, {}))
        == [Unmatched(os[0]), Unmatched(os[1]), Unmatched(os[2])]
  {
    var os := ScenarioOrders();
    ScenarioFacts(os);
    ScenarioUnfiltered([Unmatched(os[0]), Unmatched(os[1]), Unmatched(os[2])]);
  }

  lemma ScenarioUnfiltered(facts: seq<OrderFact>)
    requires var os := ScenarioOrders(); facts == [Unmatched(os[0]), Unmatched(os[1]), Unmatched(os[2])]
    ensures ApplyFilters(facts, Criteria(SCENARIO_DAY, SCENARIO_DAY, {}, {}, {}, {})) == facts
  {
    DateOfUnique(SCENARIO_TIME, SCENARIO_DAY);
    NoFilterIsIdentity(facts, Criteria(SCENARIO_DAY, SCENARIO_DAY, {}, {}, {}, {}));
  }

  lemma ScenarioMetrics(df: seq<OrderFact>)
    requires var os := ScenarioOrders(); df == [Unmatched(os[0]), Unmatched(os[1]), Unmatched(os[2])]
    ensures ExecutiveView(df).gmv == 300.0
    ensures ExecutiveView(df).aov == Some(150.0)
    ensures ExecutiveView(df).repeatRate == Some(0.0)
    ensures CancellationRate(df) == Some(100.0 / 3.0)
  {
    var os := ScenarioOrders();
    var f1, f2, f3 := Unmatched(os[0]), Unmatched(os[1]), Unmatched(os[2]);
    assert df[1..] == [f2, f3] && [f2, f3][1..] == [f3] && [f3][1..] == [];
    assert IsDelivered(f1) && IsDelivered(f2);
    assert f3.order.orderStatus[0] == 'C';
    assert !IsDelivered(f3) && IsCancelled(f3);
    assert !IsCancelled(f1) && !IsCancelled(f2);
    assert Filter([f3], IsDelivered) == [];
    assert Filter([f2, f3], IsDelivered) == [f2];
    var delivered := Delivered(df);
    assert delivered == [f1, f2];
    assert delivered[1..] == [f2] && [f2][1..] == [];
    assert Sum([f2], GrossAmount) == 200.0;
    assert Gmv(delivered) == 300.0;
    assert CustomerKey(f1) == 10 && CustomerKey(f2) == 11;
    assert UniqueKeys(delivered, CustomerKey);
    RepeatRateZeroWhenCustomersDistinct(delivered);
    assert Filter([f3], IsCancelled) == [f3];
    assert Filter([f2, f3], IsCancelled) == [f3];
    assert Filter(df, IsCancelled) == [f3];
  }

  /** End to end, with no dimension rows and nothing selected: GMV 300, AOV
      150, no repeat customer, and one cancellation in three orders. */
  lemma ThreeOrderScenario()
    ensures var df := ApplyFilters(BuildFacts(ScenarioOrders(), [], [], []), Criteria(SCENARIO_DAY, SCENARIO_DAY, {}, {}, {}, {}));
      && ExecutiveView(df).gmv == 300.0
      && ExecutiveView(df).aov == Some(150.0)
      && ExecutiveView(df).repeatRate == Some(0.0)
      && CancellationRate(df) == Some(100.0 / 3.0)
  {
    ScenarioFilteredTable();
    var os := ScenarioOrders();
    ScenarioMetrics([Unmatched(os[0]), Unmatched(os[1]), Unmatched(os[2])]);
  }
}
