/** The join assembler: pandas `merge(..., how="left")` of the orders against
    customers, restaurants and delivery events (app.py lines 38-40). */
module Join {
  import opened Records
  import opened Seqs

  /** The row a key-unique table holds for `k`, if any. */
  function Lookup<R>(rs: seq<R>, rkey: R -> int, k: int): (r: Option<R>)
    ensures r.Some? ==> r.value in rs && rkey(r.value) == k
    ensures r.None? <==> forall i :: 0 <= i < |rs| ==> rkey(rs[i]) != k
  {
    var ms := Matches(rs, rkey, k);
    if |ms| == 0 then None else Some(ms[0])
  }

  /** One fact row per match, or the row with a null dimension when nothing matched. */
  function JoinRow<R>(f: OrderFact, ms: seq<R>, attach: (OrderFact, Option<R>) -> OrderFact): seq<OrderFact> {
    if |ms| == 0 then [attach(f, None)]
    else seq(|ms|, i requires 0 <= i < |ms| => attach(f, Some(ms[i])))
  }

  /** Left join on `fkey(fact) == rkey(row)`: each fact row, in order, expands
      to one row per matching dimension row, or to one row with the dimension
      null when none matches. */
  function LeftJoin<R>(
    facts: seq<OrderFact>,
    rs: seq<R>,
    fkey: OrderFact -> int,
    rkey: R -> int,
    attach: (OrderFact, Option<R>) -> OrderFact): (r: seq<OrderFact>)
    ensures |r| >= |facts|
  {
    if |facts| == 0 then []
    else JoinRow(facts[0], Matches(rs, rkey, fkey(facts[0])), attach) + LeftJoin(facts[1..], rs, fkey, rkey, attach)
  }

  /** No fact row is dropped by a left join: each appears with its first match
      attached, or with null when nothing matches. */
  lemma {:induction false} LeftJoinKeepsRows<R>(
    facts: seq<OrderFact>,
    rs: seq<R>,
    fkey: OrderFact -> int,
    rkey: R -> int,
    attach: (OrderFact, Option<R>) -> OrderFact)
    ensures forall i :: 0 <= i < |facts| ==>
      attach(facts[i], Lookup(rs, rkey, fkey(facts[i]))) in LeftJoin(facts, rs, fkey, rkey, attach)
    ensures forall i :: 0 <= i < |facts| && (forall j :: 0 <= j < |rs| ==> rkey(rs[j]) != fkey(facts[i])) ==>
      attach(facts[i], None) in LeftJoin(facts, rs, fkey, rkey, attach)
  {
    if |facts| > 0 {
      var head := JoinRow(facts[0], Matches(rs, rkey, fkey(facts[0])), attach);
      var tail := LeftJoin(facts[1..], rs, fkey, rkey, attach);
      LeftJoinKeepsRows(facts[1..], rs, fkey, rkey, attach);
      assert LeftJoin(facts, rs, fkey, rkey, attach) == head + tail;
      assert head[0] == attach(facts[0], Lookup(rs, rkey, fkey(facts[0])));
      forall i | 1 <= i < |facts|
        ensures attach(facts[i], Lookup(rs, rkey, fkey(facts[i]))) in head + tail
      {
        assert facts[1..][i - 1] == facts[i];
      }
    }
  }

  /** Some row of `rows` carries order `o`. */
  ghost predicate HasOrder(rows: seq<OrderFact>, o: Order) {
    exists j :: 0 <= j < |rows| && rows[j].order == o
  }

  /** The rows of `b` carry every order that a row of `a` carries. */
  ghost predicate KeepsOrders(a: seq<OrderFact>, b: seq<OrderFact>) {
    forall i :: 0 <= i < |a| ==> HasOrder(b, a[i].order)
  }

  lemma KeepsOrdersTransitive(a: seq<OrderFact>, b: seq<OrderFact>, c: seq<OrderFact>)
    requires KeepsOrders(a, b) && KeepsOrders(b, c)
    ensures KeepsOrders(a, c)
  {
    forall i | 0 <= i < |a| ensures HasOrder(c, a[i].order) {
      var j :| 0 <= j < |b| && b[j].order == a[i].order;
      assert HasOrder(c, b[j].order);
    }
  }

  /** A left join whose `attach` leaves the order alone keeps every order. */
  lemma LeftJoinKeepsOrders<R>(
    facts: seq<OrderFact>,
    rs: seq<R>,
    fkey: OrderFact -> int,
    rkey: R -> int,
    attach: (OrderFact, Option<R>) -> OrderFact)
    requires forall f, o :: attach(f, o).order == f.order
    ensures KeepsOrders(facts, LeftJoin(facts, rs, fkey, rkey, attach))
  {
    var r := LeftJoin(facts, rs, fkey, rkey, attach);
    LeftJoinKeepsRows(facts, rs, fkey, rkey, attach);
    forall i | 0 <= i < |facts| ensures HasOrder(r, facts[i].order) {
      var x := attach(facts[i], Lookup(rs, rkey, fkey(facts[i])));
      assert x in r;
      var j :| 0 <= j < |r| && r[j] == x;
    }
  }

  /** With unique keys on the dimension side a left join keeps every fact row
      exactly once, in order, attaching its match or null. */
  lemma {:induction false} LeftJoinUnique<R>(
    facts: seq<OrderFact>,
    rs: seq<R>,
    fkey: OrderFact -> int,
    rkey: R -> int,
    attach: (OrderFact, Option<R>) -> OrderFact)
    requires UniqueKeys(rs, rkey)
    ensures |LeftJoin(facts, rs, fkey, rkey, attach)| == |facts|
    ensures forall i :: 0 <= i < |facts| ==>
      LeftJoin(facts, rs, fkey, rkey, attach)[i] == attach(facts[i], Lookup(rs, rkey, fkey(facts[i])))
  {
    if |facts| > 0 {
      var tail := LeftJoin(facts[1..], rs, fkey, rkey, attach);
      LeftJoinUnique(facts[1..], rs, fkey, rkey, attach);
      UniqueJoinRow(facts[0], rs, fkey, rkey, attach);
      var r := LeftJoin(facts, rs, fkey, rkey, attach);
      assert r == [attach(facts[0], Lookup(rs, rkey, fkey(facts[0])))] + tail;
      forall i | 1 <= i < |facts|
        ensures r[i] == attach(facts[i], Lookup(rs, rkey, fkey(facts[i])))
      {
        assert r[i] == tail[i - 1];
        assert facts[1..][i - 1] == facts[i];
      }
    }
  }

  /** Under unique keys a fact row joins to exactly one row. */
  lemma UniqueJoinRow<R>(
    f: OrderFact,
    rs: seq<R>,
    fkey: OrderFact -> int,
    rkey: R -> int,
    attach: (OrderFact, Option<R>) -> OrderFact)
    requires UniqueKeys(rs, rkey)
    ensures JoinRow(f, Matches(rs, rkey, fkey(f)), attach) == [attach(f, Lookup(rs, rkey, fkey(f)))]
  {
    UniqueKeysMatchAtMostOne(rs, rkey, fkey(f));
  }

  function CustomerKey(f: OrderFact): int { f.order.customerId }
  function RestaurantKey(f: OrderFact): int { f.order.restaurantId }
  function OrderKey(f: OrderFact): int { f.order.orderId }

  function CustomerId(c: Customer): int { c.customerId }
  function RestaurantId(r: Restaurant): int { r.restaurantId }
  function EventOrderId(e: DeliveryEvent): int { e.orderId }

  function AttachCustomer(f: OrderFact, c: Option<Customer>): OrderFact { f.(customer := c) }
  function AttachRestaurant(f: OrderFact, r: Option<Restaurant>): OrderFact { f.(restaurant := r) }
  function AttachDelivery(f: OrderFact, e: Option<DeliveryEvent>): OrderFact { f.(delivery := e) }

  /** The orders before any join: every dimension still null. */
  function Unjoined(orders: seq<Order>): (r: seq<OrderFact>)
    ensures |r| == |orders|
    ensures forall i :: 0 <= i < |orders| ==> r[i] == OrderFact(orders[i], None, None, None)
  {
    seq(|orders|, i requires 0 <= i < |orders| => OrderFact(orders[i], None, None, None))
  }

  /** The order fact table: orders left-joined with customers on customer id,
      then restaurants on restaurant id, then delivery events on order id. */
  function BuildFacts(
    orders: seq<Order>,
    customers: seq<Customer>,
    restaurants: seq<Restaurant>,
    events: seq<DeliveryEvent>): (r: seq<OrderFact>)
    ensures |r| >= |orders|
    ensures forall i :: 0 <= i < |orders| ==> HasOrder(r, orders[i])
  {
    var base := Unjoined(orders);
    var withCustomers := LeftJoin(base, customers, CustomerKey, CustomerId, AttachCustomer);
    var withRestaurants := LeftJoin(withCustomers, restaurants, RestaurantKey, RestaurantId, AttachRestaurant);
    var withEvents := LeftJoin(withRestaurants, events, OrderKey, EventOrderId, AttachDelivery);
    LeftJoinKeepsOrders(base, customers, CustomerKey, CustomerId, AttachCustomer);
    LeftJoinKeepsOrders(withCustomers, restaurants, RestaurantKey, RestaurantId, AttachRestaurant);
    LeftJoinKeepsOrders(withRestaurants, events, OrderKey, EventOrderId, AttachDelivery);
    KeepsOrdersTransitive(base, withCustomers, withRestaurants);
    KeepsOrdersTransitive(base, withRestaurants, withEvents);
    withEvents
  }

  /** With unique keys on all three dimension tables the fact table has exactly
      one row per order, in order, carrying the customer, restaurant and
      delivery event whose key matches, or null where none does. */
  lemma BuildFactsOneRowPerOrder(
    orders: seq<Order>,
    customers: seq<Customer>,
    restaurants: seq<Restaurant>,
    events: seq<DeliveryEvent>)
    requires UniqueKeys(customers, CustomerId)
    requires UniqueKeys(restaurants, RestaurantId)
    requires UniqueKeys(events, EventOrderId)
    ensures |BuildFacts(orders, customers, restaurants, events)| == |orders|
    ensures forall i :: 0 <= i < |orders| ==>
      BuildFacts(orders, customers, restaurants, events)[i] == OrderFact(
        orders[i],
        Lookup(customers, CustomerId, orders[i].customerId),
        Lookup(restaurants, RestaurantId, orders[i].restaurantId),
        Lookup(events, EventOrderId, orders[i].orderId))
  {
    var base := Unjoined(orders);
    var withCustomers := LeftJoin(base, customers, CustomerKey, CustomerId, AttachCustomer);
    LeftJoinUnique(base, customers, CustomerKey, CustomerId, AttachCustomer);
    var withRestaurants := LeftJoin(withCustomers, restaurants, RestaurantKey, RestaurantId, AttachRestaurant);
    LeftJoinUnique(withCustomers, restaurants, RestaurantKey, RestaurantId, AttachRestaurant);
    LeftJoinUnique(withRestaurants, events, OrderKey, EventOrderId, AttachDelivery);
  }

  /** An order whose customer id matches no customer is kept, with a null customer. */
  lemma UnmatchedOrderKept(
    orders: seq<Order>,
    customers: seq<Customer>,
    restaurants: seq<Restaurant>,
    events: seq<DeliveryEvent>,
    i: int)
    requires UniqueKeys(customers, CustomerId)
    requires UniqueKeys(restaurants, RestaurantId)
    requires UniqueKeys(events, EventOrderId)
    requires 0 <= i < |orders|
    requires forall j :: 0 <= j < |customers| ==> customers[j].customerId != orders[i].customerId
    ensures |BuildFacts(orders, customers, restaurants, events)| == |orders|
    ensures BuildFacts(orders, customers, restaurants, events)[i].order == orders[i]
    ensures BuildFacts(orders, customers, restaurants, events)[i].customer == None
    ensures BuildFacts(orders, customers, restaurants, events)[i].City() == None
  {
    BuildFactsOneRowPerOrder(orders, customers, restaurants, events);
  }
}
