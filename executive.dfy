/** The Executive view's metrics over `delivered` (app.py lines 86-98, 106, 112).
    A result that pandas computes as NaN (or infinity) from an empty
    denominator is `None`. */
module Executive {
  import opened Records
  import opened Seqs
  import opened Join
  import opened Filters

  /** GMV: the gross amount summed over the delivered rows (0 when there are
      none, never negative when no gross amount is). */
  function Gmv(delivered: seq<OrderFact>): (r: real)
    ensures |delivered| == 0 ==> r == 0.0
    ensures (forall i :: 0 <= i < |delivered| ==> 0.0 <= delivered[i].order.grossAmount) ==> 0.0 <= r
  {
    SumNonNegative(delivered, GrossAmount);
    Sum(delivered, GrossAmount)
  }

  /** GMV over the filtered view is the gross amount of the fact table masked
      to the rows that pass the filters and were delivered. */
  lemma GmvIsMaskedSum(facts: seq<OrderFact>, c: Criteria)
    ensures Gmv(Delivered(ApplyFilters(facts, c))) == MaskedSum(facts, And(SelectedBy(c), IsDelivered), GrossAmount)
  {
    DeliveredWithinFiltered(facts, c);
    SumFilterIsMaskedSum(facts, And(SelectedBy(c), IsDelivered), GrossAmount);
  }

  /** GMV is additive over a split of the rows. */
  lemma GmvAdditive(a: seq<OrderFact>, b: seq<OrderFact>)
    ensures Gmv(a + b) == Gmv(a) + Gmv(b)
  {
    SumAppend(a, b, GrossAmount);
  }

  /** AOV: the mean gross amount; NaN (`None`) when nothing was delivered. */
  function Aov(delivered: seq<OrderFact>): (r: Option<real>)
    ensures r.None? <==> |delivered| == 0
    ensures r.Some? ==> r.value * (|delivered| as real) == Gmv(delivered)
  {
    if |delivered| == 0 then None else Some(Gmv(delivered) / (|delivered| as real))
  }

  /** AOV lies between the smallest and the largest gross amount. */
  lemma AovWithinAmounts(delivered: seq<OrderFact>, lo: real, hi: real)
    requires forall i :: 0 <= i < |delivered| ==> lo <= delivered[i].order.grossAmount <= hi
    requires |delivered| > 0
    ensures lo <= Aov(delivered).value <= hi
  {
    SumBounds(delivered, GrossAmount, lo, hi);
    MeanBetween(Aov(delivered).value, |delivered| as real, Gmv(delivered), lo, hi);
  }

  /** Discount burn: 100 * total discount / GMV; undefined (`None`) when GMV is 0. */
  function DiscountBurn(delivered: seq<OrderFact>): (r: Option<real>)
    ensures r.None? <==> Gmv(delivered) == 0.0
    ensures r.Some? ==> r.value * Gmv(delivered) == 100.0 * Sum(delivered, DiscountAmount)
  {
    var gmv := Gmv(delivered);
    if gmv == 0.0 then None else Some(100.0 * Sum(delivered, DiscountAmount) / gmv)
  }

  /** When every discount is between 0 and its order's gross amount the burn is a
      percentage in [0, 100]. */
  lemma DiscountBurnIsPercentage(delivered: seq<OrderFact>)
    requires forall i :: 0 <= i < |delivered| ==>
      0.0 <= delivered[i].order.discountAmount <= delivered[i].order.grossAmount
    requires DiscountBurn(delivered).Some?
    ensures 0.0 <= DiscountBurn(delivered).value <= 100.0
  {
    var g := Gmv(delivered);
    var d := Sum(delivered, DiscountAmount);
    SumMonotone(delivered, DiscountAmount, GrossAmount);
    SumNonNegative(delivered, DiscountAmount);
    assert 0.0 <= d <= g;
    var b := DiscountBurn(delivered).value;
    assert b * g == 100.0 * d;
    assert g > 0.0;
    assert 0.0 * g <= b * g <= 100.0 * g;
    ScaleOrder(0.0, b, g);
    ScaleOrder(b, 100.0, g);
  }

  /** The customer ids that occur in `delivered` (the groups of `groupby("customer_id")`). */
  function Customers(delivered: seq<OrderFact>): set<int> {
    set i | 0 <= i < |delivered| :: delivered[i].order.customerId
  }

  /** The size of customer `c`'s group. */
  function OrderCount(delivered: seq<OrderFact>, c: int): nat {
    |Matches(delivered, CustomerKey, c)|
  }

  /** The customers with more than one delivered order. */
  function Repeaters(delivered: seq<OrderFact>): (r: set<int>)
    ensures r <= Customers(delivered)
  {
    set c | c in Customers(delivered) && OrderCount(delivered, c) > 1
  }

  /** Repeat rate: the percentage of distinct customers with more than one
      delivered order; NaN (`None`) when nothing was delivered. */
  function RepeatRate(delivered: seq<OrderFact>): (r: Option<real>)
    ensures r.None? <==> |delivered| == 0
    ensures r.Some? ==> 0.0 <= r.value <= 100.0
    ensures r.Some? ==> r.value * (|Customers(delivered)| as real) == 100.0 * (|Repeaters(delivered)| as real)
    ensures r.Some? ==> (r.value == 0.0 <==> forall c :: c in Customers(delivered) ==> OrderCount(delivered, c) <= 1)
  {
    SubsetCardinality(Repeaters(delivered), Customers(delivered));
    NoRepeaters(delivered);
    CustomersEmpty(delivered);
    Rate(|Repeaters(delivered)|, |Customers(delivered)|)
  }

  /** There are no customers exactly when there are no rows. */
  lemma CustomersEmpty(delivered: seq<OrderFact>)
    ensures |Customers(delivered)| == 0 <==> |delivered| == 0
  {
    if |delivered| > 0 {
      assert delivered[0].order.customerId in Customers(delivered);
    }
  }

  /** There are no repeaters exactly when every customer's group has at most one order. */
  lemma NoRepeaters(delivered: seq<OrderFact>)
    ensures |Repeaters(delivered)| == 0 <==> forall c :: c in Customers(delivered) ==> OrderCount(delivered, c) <= 1
  {
    var r := Repeaters(delivered);
    if |r| > 0 {
      var c :| c in r;
    } else {
      assert r == {};
      forall c | c in Customers(delivered) ensures OrderCount(delivered, c) <= 1 {
        assert c !in r;
      }
    }
  }

  lemma SubsetCardinality(a: set<int>, b: set<int>)
    requires a <= b
    ensures |a| <= |b|
  {
    assert b == a + (b - a);
  }

  lemma CustomersCons(delivered: seq<OrderFact>)
    requires |delivered| > 0
    ensures Customers(delivered) == Customers(delivered[1..]) + {delivered[0].order.customerId}
  {
    var t := delivered[1..];
    forall c | c in Customers(delivered) ensures c in Customers(t) + {delivered[0].order.customerId} {
      var i :| 0 <= i < |delivered| && delivered[i].order.customerId == c;
      if i > 0 {
        assert t[i - 1] == delivered[i];
      }
    }
    forall c | c in Customers(t) ensures c in Customers(delivered) {
      var i :| 0 <= i < |t| && t[i].order.customerId == c;
      assert delivered[i + 1] == t[i];
    }
  }

  lemma OrderCountCons(delivered: seq<OrderFact>, c: int)
    requires |delivered| > 0
    ensures OrderCount(delivered, c)
      == (if c == delivered[0].order.customerId then 1 else 0) + OrderCount(delivered[1..], c)
  {
    assert KeyIs(CustomerKey, c)(delivered[0]) == (delivered[0].order.customerId == c);
  }

  /** A customer with an order in `delivered` is one of its customers. */
  lemma CountedCustomerIsPresent(delivered: seq<OrderFact>, c: int)
    requires OrderCount(delivered, c) > 0
    ensures c in Customers(delivered)
  {
    var ms := Matches(delivered, CustomerKey, c);
    var m := ms[0];
    assert m in ms && KeyIs(CustomerKey, c)(m);
    var j :| 0 <= j < |delivered| && delivered[j] == m;
    assert delivered[j].order.customerId == c;
  }

  /** Each customer group beyond the first order of that customer needs one
      more delivered row: distinct customers plus repeaters never exceed the rows. */
  lemma {:induction false} RepeatersBound(delivered: seq<OrderFact>)
    ensures |Customers(delivered)| + |Repeaters(delivered)| <= |delivered|
  {
    if |delivered| > 0 {
      var t := delivered[1..];
      var cx := delivered[0].order.customerId;
      RepeatersBound(t);
      CustomersCons(delivered);
      if cx in Customers(t) {
        RepeatersOfReturningCustomer(delivered);
        SubsetCardinality(Repeaters(delivered), Repeaters(t) + {cx});
      } else {
        RepeatersOfNewCustomer(delivered);
        SubsetCardinality(Repeaters(delivered), Repeaters(t));
      }
    }
  }

  /** A first row whose customer also orders later can add only that customer
      to the repeaters. */
  lemma RepeatersOfReturningCustomer(delivered: seq<OrderFact>)
    requires |delivered| > 0 && delivered[0].order.customerId in Customers(delivered[1..])
    ensures Repeaters(delivered) <= Repeaters(delivered[1..]) + {delivered[0].order.customerId}
  {
    forall c | c in Repeaters(delivered) && c != delivered[0].order.customerId
      ensures c in Repeaters(delivered[1..])
    {
      OrderCountCons(delivered, c);
      CountedCustomerIsPresent(delivered[1..], c);
    }
  }

  /** A first row whose customer has no later order adds no repeater. */
  lemma RepeatersOfNewCustomer(delivered: seq<OrderFact>)
    requires |delivered| > 0 && delivered[0].order.customerId !in Customers(delivered[1..])
    ensures Repeaters(delivered) <= Repeaters(delivered[1..])
  {
    var t := delivered[1..];
    var cx := delivered[0].order.customerId;
    forall c | c in Repeaters(delivered) ensures c in Repeaters(t) {
      OrderCountCons(delivered, c);
      if c == cx {
        if OrderCount(t, cx) > 0 {
          CountedCustomerIsPresent(t, cx);
        }
      } else {
        CountedCustomerIsPresent(t, c);
      }
    }
  }

  /** The repeat rate is 0 when no customer id occurs twice in `delivered`. */
  lemma RepeatRateZeroWhenCustomersDistinct(delivered: seq<OrderFact>)
    requires |delivered| > 0
    requires UniqueKeys(delivered, CustomerKey)
    ensures RepeatRate(delivered) == Some(0.0)
  {
    forall c | c in Customers(delivered) ensures OrderCount(delivered, c) <= 1 {
      UniqueKeysMatchAtMostOne(delivered, CustomerKey, c);
    }
  }

  /** The rows whose `column` is one of the non-null values `ks`. */
  function KeyIn(column: OrderFact -> Option<string>, ks: seq<string>): OrderFact -> bool {
    f => column(f).Some? && column(f).value in ks
  }

  /** The groups of `groupby(column)`: the non-null values that occur. */
  function GroupKeys(delivered: seq<OrderFact>, column: OrderFact -> Option<string>): set<string> {
    set i | 0 <= i < |delivered| && column(delivered[i]).Some? :: column(delivered[i]).value
  }

  /** `groupby(column)["gross_amount"].sum()`: GMV per non-null value of `column`. */
  function GroupSum(delivered: seq<OrderFact>, column: OrderFact -> Option<string>): (m: map<string, real>)
    ensures m.Keys == GroupKeys(delivered, column)
    ensures forall k :: k in m <==> exists i :: 0 <= i < |delivered| && column(delivered[i]) == Some(k)
    ensures forall k :: k in m ==> m[k] == MaskedSum(delivered, HasKey(column, k), GrossAmount)
  {
    forall k ensures Gmv(Filter(delivered, HasKey(column, k))) == MaskedSum(delivered, HasKey(column, k), GrossAmount) {
      SumFilterIsMaskedSum(delivered, HasKey(column, k), GrossAmount);
    }
    forall k ensures k in GroupKeys(delivered, column) <==> exists i :: 0 <= i < |delivered| && column(delivered[i]) == Some(k) {
      if exists i :: 0 <= i < |delivered| && column(delivered[i]) == Some(k) {
        var i :| 0 <= i < |delivered| && column(delivered[i]) == Some(k);
        assert column(delivered[i]).value == k;
      }
    }
    map k | k in GroupKeys(delivered, column) :: Gmv(Filter(delivered, HasKey(column, k)))
  }

  /** GMV by zone (app.py line 106, before the display sort): one group per
      zone that occurs, none for a null zone, each holding the gross amount of
      the rows in that zone. */
  function GmvByZone(delivered: seq<OrderFact>): (m: map<string, real>)
    ensures forall z :: z in m <==> exists i :: 0 <= i < |delivered| && delivered[i].Zone() == Some(z)
    ensures forall z :: z in m ==> m[z] == MaskedSum(delivered, HasKey(Zone, z), GrossAmount)
  {
    GroupSum(delivered, Zone)
  }

  /** GMV by cuisine (app.py line 112): one group per cuisine that occurs,
      none for a null cuisine, each holding the gross amount of the rows of
      that cuisine. */
  function GmvByCuisine(delivered: seq<OrderFact>): (m: map<string, real>)
    ensures forall k :: k in m <==> exists i :: 0 <= i < |delivered| && delivered[i].CuisineType() == Some(k)
    ensures forall k :: k in m ==> m[k] == MaskedSum(delivered, HasKey(CuisineType, k), GrossAmount)
  {
    GroupSum(delivered, CuisineType)
  }

  /** A row whose key is null belongs to no group: appending it changes nothing. */
  lemma GroupSumDropsNullKeys(delivered: seq<OrderFact>, column: OrderFact -> Option<string>, x: OrderFact)
    requires column(x).None?
    ensures GroupSum(delivered + [x], column) == GroupSum(delivered, column)
  {
    var d' := delivered + [x];
    assert GroupKeys(d', column) == GroupKeys(delivered, column) by {
      forall k | k in GroupKeys(d', column) ensures k in GroupKeys(delivered, column) {
        var i :| 0 <= i < |d'| && column(d'[i]).Some? && column(d'[i]).value == k;
        assert d'[i] == delivered[i];
      }
      forall k | k in GroupKeys(delivered, column) ensures k in GroupKeys(d', column) {
        var i :| 0 <= i < |delivered| && column(delivered[i]).Some? && column(delivered[i]).value == k;
        assert d'[i] == delivered[i];
      }
    }
    forall k | k in GroupKeys(delivered, column)
      ensures Gmv(Filter(d', HasKey(column, k))) == Gmv(Filter(delivered, HasKey(column, k)))
    {
      FilterAppend(delivered, [x], HasKey(column, k));
      assert Filter([x], HasKey(column, k)) == [];
      assert Filter(delivered, HasKey(column, k)) + [] == Filter(delivered, HasKey(column, k));
    }
  }

  /** The sum of the values a map holds under the keys `ks`. */
  function SumValues(m: map<string, real>, ks: seq<string>): real
    requires forall i :: 0 <= i < |ks| ==> ks[i] in m
  {
    if |ks| == 0 then 0.0 else m[ks[0]] + SumValues(m, ks[1..])
  }

  ghost predicate Distinct(ks: seq<string>) {
    forall i, j :: 0 <= i < j < |ks| ==> ks[i] != ks[j]
  }

  /** The GMV of each group in `ks`, added up. */
  function SumOfGroups(delivered: seq<OrderFact>, column: OrderFact -> Option<string>, ks: seq<string>): real {
    if |ks| == 0 then 0.0
    else Gmv(Filter(delivered, HasKey(column, ks[0]))) + SumOfGroups(delivered, column, ks[1..])
  }

  /** Splitting the rows keyed by one of `[k] + rest` into those keyed `k` and the rest. */
  lemma SplitFirstKey(delivered: seq<OrderFact>, column: OrderFact -> Option<string>, k: string, rest: seq<string>)
    requires k !in rest
    ensures Gmv(Filter(delivered, KeyIn(column, [k] + rest)))
      == Gmv(Filter(delivered, HasKey(column, k))) + Gmv(Filter(delivered, KeyIn(column, rest)))
  {
    var ks := [k] + rest;
    var all := Filter(delivered, KeyIn(column, ks));
    SumPartition(all, HasKey(column, k), GrossAmount);
    FilterFilter(delivered, KeyIn(column, ks), HasKey(column, k));
    FilterExtensional(delivered, And(KeyIn(column, ks), HasKey(column, k)), HasKey(column, k));
    FilterFilter(delivered, KeyIn(column, ks), Not(HasKey(column, k)));
    FilterExtensional(delivered, And(KeyIn(column, ks), Not(HasKey(column, k))), KeyIn(column, rest));
  }

  /** Summing the per-group GMV over distinct keys gives the GMV of the rows
      whose key is one of them. */
  lemma {:induction false} GroupSumsOverKeys(delivered: seq<OrderFact>, column: OrderFact -> Option<string>, ks: seq<string>)
    requires Distinct(ks)
    ensures SumOfGroups(delivered, column, ks) == Gmv(Filter(delivered, KeyIn(column, ks)))
  {
    if |ks| == 0 {
      FilterDropsAll(delivered, KeyIn(column, ks));
    } else {
      var rest := ks[1..];
      assert Distinct(rest);
      assert ks == [ks[0]] + rest;
      GroupSumsOverKeys(delivered, column, rest);
      SplitFirstKey(delivered, column, ks[0], rest);
    }
  }

  /** Reading the grouped map over keys `ks` adds up the groups' GMV. */
  lemma {:induction false} SumValuesOfGroupSum(delivered: seq<OrderFact>, column: OrderFact -> Option<string>, ks: seq<string>)
    requires forall i :: 0 <= i < |ks| ==> ks[i] in GroupKeys(delivered, column)
    ensures SumValues(GroupSum(delivered, column), ks) == SumOfGroups(delivered, column, ks)
  {
    if |ks| > 0 {
      SumValuesOfGroupSum(delivered, column, ks[1..]);
    }
  }

  /** pandas drops null keys: the per-group sums, added up over the groups,
      give the GMV of the rows with a non-null key, which is the total GMV
      less the GMV of the rows whose key is null. */
  lemma GroupSumTotal(delivered: seq<OrderFact>, column: OrderFact -> Option<string>, ks: seq<string>)
    requires Distinct(ks)
    requires forall k :: k in ks <==> k in GroupKeys(delivered, column)
    ensures forall i :: 0 <= i < |ks| ==> ks[i] in GroupSum(delivered, column)
    ensures SumValues(GroupSum(delivered, column), ks) == Gmv(Filter(delivered, KeyPresent(column)))
    ensures SumValues(GroupSum(delivered, column), ks) == Gmv(delivered) - Gmv(Filter(delivered, Not(KeyPresent(column))))
  {
    var m := GroupSum(delivered, column);
    KeysListed(delivered, column, ks);
    SumValuesOfGroupSum(delivered, column, ks);
    GroupSumsOverKeys(delivered, column, ks);
    AllKeysArePresentKeys(delivered, column, ks);
    var present := Gmv(Filter(delivered, KeyPresent(column)));
    assert SumValues(m, ks) == present;
    SumPartition(delivered, KeyPresent(column), GrossAmount);
    assert Gmv(delivered) == present + Gmv(Filter(delivered, Not(KeyPresent(column))));
  }

  /** Every listed key has a group in the grouped map. */
  lemma KeysListed(delivered: seq<OrderFact>, column: OrderFact -> Option<string>, ks: seq<string>)
    requires forall k :: k in ks <==> k in GroupKeys(delivered, column)
    ensures forall i :: 0 <= i < |ks| ==> ks[i] in GroupKeys(delivered, column)
    ensures forall i :: 0 <= i < |ks| ==> ks[i] in GroupSum(delivered, column)
  {
    forall i | 0 <= i < |ks| ensures ks[i] in GroupKeys(delivered, column) {
      assert ks[i] in ks;
    }
  }

  /** When `ks` lists every group, "the key is one of `ks`" selects exactly
      the rows whose key is not null. */
  lemma AllKeysArePresentKeys(delivered: seq<OrderFact>, column: OrderFact -> Option<string>, ks: seq<string>)
    requires forall k :: k in ks <==> k in GroupKeys(delivered, column)
    ensures Filter(delivered, KeyIn(column, ks)) == Filter(delivered, KeyPresent(column))
  {
    forall i | 0 <= i < |delivered|
      ensures KeyIn(column, ks)(delivered[i]) == KeyPresent(column)(delivered[i])
    {
      if column(delivered[i]).Some? {
        assert column(delivered[i]).value in GroupKeys(delivered, column);
      }
    }
    FilterExtensional(delivered, KeyIn(column, ks), KeyPresent(column));
  }
}
