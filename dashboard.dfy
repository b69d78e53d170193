/**
 * The restaurant dashboard's queries over the order list it fetched: the
 * status colour, the status filter, the per-status counts, the active
 * count, the revenue, and the one forward action each status offers.
 */
module Dashboard {
  import opened Wrappers
  import opened Seqs
  import opened OrderModel
  import OrderStore

  /** The filter value that shows every order. */
  const ALL: string := "all"

  /** The colour of any status the switch does not list. */
  const DEFAULT_COLOR: string := "bg-gray-500"

  /** The statuses the colour switch lists, in its order. */
  const LISTED: seq<string> := [CONFIRMED, PREPARING, READY, OUT_FOR_DELIVERY, DELIVERED, CANCELLED]

  /** `getStatusColor`. */
  function StatusColor(status: string): string {
    if status == CONFIRMED then "bg-blue-500"
    else if status == PREPARING then "bg-yellow-500"
    else if status == READY then "bg-orange-500"
    else if status == OUT_FOR_DELIVERY then "bg-purple-500"
    else if status == DELIVERED then "bg-green-500"
    else if status == CANCELLED then "bg-red-500"
    else DEFAULT_COLOR
  }

  /** Any status outside the switch falls back to grey; the listed ones never do. */
  lemma StatusColorDefault(status: string)
    ensures status !in LISTED <==> StatusColor(status) == DEFAULT_COLOR
  {
  }

  /** The six listed statuses get six different colours. */
  lemma StatusColorsDistinct(i: nat, j: nat)
    requires i < j < |LISTED|
    ensures StatusColor(LISTED[i]) != StatusColor(LISTED[j])
  {
  }

  // ---------------------------------------------------------------------
  // Filter and counts

  /** The filter's test: everything under `all`, otherwise an exact status match. */
  function Shown(filter: string): Order -> bool {
    (o: Order) => filter == ALL || o.status == filter
  }

  /** `filteredOrders`. */
  function FilterOrders(orders: seq<Order>, filter: string): seq<Order> {
    Filter(orders, Shown(filter))
  }

  /**
   * `all` shows every order; any other filter exactly the orders with that
   * status, in the order of the list.
   */
  lemma FilterOrdersExact(orders: seq<Order>, filter: string)
    ensures SelectsInOrder(FilterOrders(orders, filter), orders, Shown(filter))
    ensures filter == ALL ==> FilterOrders(orders, filter) == orders
    ensures filter != ALL ==>
      forall o :: o in FilterOrders(orders, filter) <==> o in orders && o.status == filter
    ensures multiset(FilterOrders(orders, filter)) <= multiset(orders)
  {
    if filter == ALL {
      FilterKeepsAll(orders, Shown(filter));
    }
    forall o ensures o in FilterOrders(orders, filter) <==> o in orders && Shown(filter)(o) {
      FilterMembership(orders, Shown(filter), o);
    }
    FilterSubMultiset(orders, Shown(filter));
    FilterSelectsInOrder(orders, Shown(filter));
  }

  /** `orderStats`. */
  datatype OrderStats = OrderStats(
    total: nat, confirmed: nat, preparing: nat, ready: nat,
    outForDelivery: nat, delivered: nat, cancelled: nat)

  /** Each count is the length of the list filtered by that status. */
  function Stats(orders: seq<Order>): OrderStats {
    OrderStats(
      |orders|,
      |FilterOrders(orders, CONFIRMED)|,
      |FilterOrders(orders, PREPARING)|,
      |FilterOrders(orders, READY)|,
      |FilterOrders(orders, OUT_FOR_DELIVERY)|,
      |FilterOrders(orders, DELIVERED)|,
      |FilterOrders(orders, CANCELLED)|)
  }

  /** The Active Orders card: confirmed, preparing, ready and out for delivery. */
  function ActiveCount(stats: OrderStats): nat {
    stats.confirmed + stats.preparing + stats.ready + stats.outForDelivery
  }

  predicate IsActive(o: Order) {
    o.status in [CONFIRMED, PREPARING, READY, OUT_FOR_DELIVERY]
  }

  predicate IsListed(o: Order) {
    o.status in LISTED
  }

  function ActiveTest(o: Order): bool { IsActive(o) }
  function ListedTest(o: Order): bool { IsListed(o) }

  /**
   * Counting by status, element by element: the four active counts add up
   * to the active orders, and the six counts to the orders with a listed
   * status.
   */
  lemma {:induction false} CountsByStatus(orders: seq<Order>)
    ensures Count(orders, Shown(CONFIRMED)) + Count(orders, Shown(PREPARING))
          + Count(orders, Shown(READY)) + Count(orders, Shown(OUT_FOR_DELIVERY))
         == Count(orders, ActiveTest)
    ensures Count(orders, ActiveTest) + Count(orders, Shown(DELIVERED)) + Count(orders, Shown(CANCELLED))
         == Count(orders, ListedTest)
    decreases |orders|
  {
    if orders != [] {
      CountsByStatus(orders[..|orders| - 1]);
    }
  }

  /** Each status count is the number of orders with that status. */
  lemma StatsCountStatuses(orders: seq<Order>)
    ensures var s := Stats(orders);
      && s.total == |orders|
      && s.confirmed == Count(orders, Shown(CONFIRMED))
      && s.preparing == Count(orders, Shown(PREPARING))
      && s.ready == Count(orders, Shown(READY))
      && s.outForDelivery == Count(orders, Shown(OUT_FOR_DELIVERY))
      && s.delivered == Count(orders, Shown(DELIVERED))
      && s.cancelled == Count(orders, Shown(CANCELLED))
  {
    FilterLength(orders, Shown(CONFIRMED));
    FilterLength(orders, Shown(PREPARING));
    FilterLength(orders, Shown(READY));
    FilterLength(orders, Shown(OUT_FOR_DELIVERY));
    FilterLength(orders, Shown(DELIVERED));
    FilterLength(orders, Shown(CANCELLED));
  }

  /**
   * The Active Orders card counts exactly the orders that are confirmed,
   * preparing, ready or out for delivery, and the six counts cover every
   * order whose status is listed.
   */
  lemma ActiveCountIsActiveOrders(orders: seq<Order>)
    ensures ActiveCount(Stats(orders)) == Count(orders, ActiveTest)
    ensures ActiveCount(Stats(orders)) + Stats(orders).delivered + Stats(orders).cancelled
         == Count(orders, ListedTest)
  {
    StatsCountStatuses(orders);
    CountsByStatus(orders);
  }

  /** When every status is one of the six, the six counts add up to the total. */
  lemma StatsCoverAllListed(orders: seq<Order>)
    requires forall i :: 0 <= i < |orders| ==> orders[i].status in LISTED
    ensures var s := Stats(orders);
      s.confirmed + s.preparing + s.ready + s.outForDelivery + s.delivered + s.cancelled == s.total
  {
    ActiveCountIsActiveOrders(orders);
    FilterKeepsAll(orders, ListedTest);
    FilterLength(orders, ListedTest);
  }

  // ---------------------------------------------------------------------
  // Revenue

  function OrderTotal(o: Order): int { o.total }

  /** An order's contribution to the revenue: its total once delivered, else nothing. */
  function DeliveredTotal(o: Order): int { if o.status == DELIVERED then o.total else 0 }

  /** `totalRevenue`: the totals of the delivered orders. */
  function TotalRevenue(orders: seq<Order>): int {
    Sum(FilterOrders(orders, DELIVERED), OrderTotal)
  }

  /** The revenue counts each delivered order's total once and nothing else. */
  lemma RevenueCountsDelivered(orders: seq<Order>)
    ensures TotalRevenue(orders) == Sum(orders, DeliveredTotal)
  {
    SumFilter(orders, Shown(DELIVERED), OrderTotal, DeliveredTotal);
  }

  /** Placing an order leaves the revenue as it was: the new order is only confirmed. */
  lemma PlacingKeepsRevenue(st: OrderStore.Store, data: OrderData, now: int)
    ensures TotalRevenue(OrderStore.Place(st, data, now).0.orders) == TotalRevenue(st.orders)
  {
    var orders' := OrderStore.Place(st, data, now).0.orders;
    var o := NewOrder(st.counter + 1, data, now);
    assert orders' == st.orders + [o];
    RevenueCountsDelivered(orders');
    RevenueCountsDelivered(st.orders);
    SumConcat(st.orders, [o], DeliveredTotal);
    assert Sum([o], DeliveredTotal) == Sum([], DeliveredTotal) + DeliveredTotal(o);
  }

  // ---------------------------------------------------------------------
  // The action buttons

  /** The status the order card's button moves to, if it shows one. */
  function NextAction(status: string): Option<string> {
    if status == DELIVERED || status == CANCELLED then None
    else if status == CONFIRMED then Some(PREPARING)
    else if status == PREPARING then Some(READY)
    else if status == READY then Some(OUT_FOR_DELIVERY)
    else if status == OUT_FOR_DELIVERY then Some(DELIVERED)
    else None
  }

  /**
   * The buttons only move forward along the tracking steps, one step at a
   * time: a status offers an action exactly when it is one of the first
   * four steps, and the action is the next step.
   */
  lemma NextActionIsNextStep(status: string)
    ensures NextAction(status).Some? <==> status in STEP_STATUSES[..4]
    ensures forall k :: 0 <= k < 4 && status == STEP_STATUSES[k] ==> NextAction(status) == Some(STEP_STATUSES[k + 1])
  {
    assert STEP_STATUSES[..4] == [CONFIRMED, PREPARING, READY, OUT_FOR_DELIVERY];
  }

  /**
   * A card whose order is not the first stored with its id: its button
   * updates the first order with that id instead, and the card's own order
   * is left exactly as it was.
   */
  lemma PressOnShadowedCard(st: OrderStore.Store, i: nat, j: nat, now: int)
    requires j < i < |st.orders| && st.orders[j].id == st.orders[i].id
    requires NextAction(st.orders[i].status).Some?
    ensures var st' := OrderStore.UpdateStatus(st, st.orders[i].id, NextAction(st.orders[i].status).value, now).0;
      |st'.orders| == |st.orders| && st'.orders[i] == st.orders[i]
    ensures var id := st.orders[i].id;
      var next := NextAction(st.orders[i].status).value;
      var st' := OrderStore.UpdateStatus(st, id, next, now).0;
      exists f :: 0 <= f <= j && st.orders[f].id == id && st'.orders == st.orders[f := ApplyStatus(st.orders[f], next, now)]
  {
    var id := st.orders[i].id;
    var f := OrderStore.FindOrder(st.orders, id);
    assert OrderStore.HasOrderId(id)(st.orders[j]);
    assert f.Some? && f.value <= j;
  }

  /**
   * Pressing an order's button changes the revenue only when it marks the
   * order delivered, and then by exactly that order's total.
   */
  lemma {:induction false} ActionRevenue(st: OrderStore.Store, id: int, i: nat, now: int)
    requires OrderStore.FindOrder(st.orders, id) == Some(i)
    requires NextAction(st.orders[i].status).Some?
    ensures var next := NextAction(st.orders[i].status).value;
      TotalRevenue(OrderStore.UpdateStatus(st, id, next, now).0.orders)
        == TotalRevenue(st.orders) + (if next == DELIVERED then st.orders[i].total else 0)
  {
    var o := st.orders[i];
    var next := NextAction(o.status).value;
    var orders' := OrderStore.UpdateStatus(st, id, next, now).0.orders;
    assert orders' == st.orders[i := ApplyStatus(o, next, now)];
    RevenueCountsDelivered(orders');
    RevenueCountsDelivered(st.orders);
    SumUpdate(st.orders, i, ApplyStatus(o, next, now), DeliveredTotal);
  }
}
