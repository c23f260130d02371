/** The tables the dashboard reads and the denormalised order fact it builds
    from them. Nullable columns are `Option`s; timestamps are whole seconds
    since the epoch and calendar dates are day numbers. */
module Records {

  /** A nullable cell: `None` is pandas' NaN / NaT. */
  datatype Option<+T> = None | Some(value: T)

  type Timestamp = int
  type Date = int

  const SECONDS_PER_DAY: int := 86400

  /** The calendar date of a timestamp (pandas `.dt.date`): the day whose
      [midnight, next midnight) interval holds the instant. */
  function DateOf(t: Timestamp): (d: Date)
    ensures d * SECONDS_PER_DAY <= t < (d + 1) * SECONDS_PER_DAY
  {
    t / SECONDS_PER_DAY
  }

  /** Two dates bracketing a timestamp are unique: `DateOf` is the only
      day whose interval holds `t`. */
  lemma DateOfUnique(t: Timestamp, d: Date)
    requires d * SECONDS_PER_DAY <= t < (d + 1) * SECONDS_PER_DAY
    ensures DateOf(t) == d
  {
  }

  /** A row of customers.csv. */
  datatype Customer = Customer(customerId: int, city: Option<string>, signupDate: Option<Date>)

  /** A row of restaurants.csv. */
  datatype Restaurant = Restaurant(
    restaurantId: int,
    zone: Option<string>,
    cuisineType: Option<string>,
    restaurantTier: Option<string>)

  /** A row of orders.csv. */
  datatype Order = Order(
    orderId: int,
    customerId: int,
    restaurantId: int,
    orderDatetime: Timestamp,
    grossAmount: real,
    discountAmount: real,
    orderStatus: string)

  /** A row of delivery_events.csv; every timestamp may be missing (NaT). */
  datatype DeliveryEvent = DeliveryEvent(
    orderId: int,
    orderPlacedTime: Option<Timestamp>,
    restaurantConfirmedTime: Option<Timestamp>,
    foodReadyTime: Option<Timestamp>,
    riderPickedUpTime: Option<Timestamp>,
    deliveredTime: Option<Timestamp>,
    estimatedDeliveryTime: Option<Timestamp>,
    actualDeliveryTimeMins: Option<real>)

  /** One row of the joined table: an order with the customer, restaurant and
      delivery event the left joins found for it (`None` when none matched).
      The accessors give the flattened, nullable columns the dashboard reads. */
  datatype OrderFact = OrderFact(
    order: Order,
    customer: Option<Customer>,
    restaurant: Option<Restaurant>,
    delivery: Option<DeliveryEvent>)
  {
    function City(): Option<string> {
      if customer.Some? then customer.value.city else None
    }

    function Zone(): Option<string> {
      if restaurant.Some? then restaurant.value.zone else None
    }

    function CuisineType(): Option<string> {
      if restaurant.Some? then restaurant.value.cuisineType else None
    }

    function RestaurantTier(): Option<string> {
      if restaurant.Some? then restaurant.value.restaurantTier else None
    }

    function DeliveredTime(): Option<Timestamp> {
      if delivery.Some? then delivery.value.deliveredTime else None
    }

    function EstimatedDeliveryTime(): Option<Timestamp> {
      if delivery.Some? then delivery.value.estimatedDeliveryTime else None
    }

    function ActualDeliveryTimeMins(): Option<real> {
      if delivery.Some? then delivery.value.actualDeliveryTimeMins else None
    }
  }

  function GrossAmount(f: OrderFact): real { f.order.grossAmount }

  function DiscountAmount(f: OrderFact): real { f.order.discountAmount }
}
