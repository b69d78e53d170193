/**
 * The simulated order backend: the ordered list of orders, the id counter
 * and the per-order progress timers, as a value (`Store`) with one function
 * per operation, and the `OrderService` class whose methods update that
 * state in place.
 */
module OrderStore {
  import opened Wrappers
  import opened Seqs
  import opened Sorting
  import opened OrderModel

  /** The counter's value when nothing has been stored yet. */
  const INITIAL_COUNTER: int := 1000

  /** Milliseconds between two firings of a progress timer. */
  const TICK_INTERVAL: int := 10000

  /** The statuses the progress timer applies, one per firing. */
  const PROGRESS_STEPS: seq<string> := [PREPARING, READY, OUT_FOR_DELIVERY, DELIVERED]

  /**
   * The whole state: the orders in insertion (or last sorted) order, the
   * last assigned id, and for each running timer its order id and the
   * index of the next progress step (`currentStep`).
   */
  datatype Store = Store(orders: seq<Order>, counter: int, timers: map<int, nat>)

  /** What `placeOrder` returns to its caller. */
  datatype PlaceResult = PlaceResult(success: bool, orderId: int, message: string)

  const PLACED_MESSAGE: string := "Order placed successfully!"

  function HasOrderId(id: int): Order -> bool { (o: Order) => o.id == id }

  /** The position of the first order with that id (`find`). */
  function FindOrder(orders: seq<Order>, id: int): Option<nat> {
    FindIndex(orders, HasOrderId(id))
  }

  /** `getOrder`: the first order with that id. */
  function Lookup(orders: seq<Order>, id: int): (r: Option<Order>)
    ensures r.Some? <==> exists i :: 0 <= i < |orders| && orders[i].id == id
    ensures r.Some? ==> r.value in orders && r.value.id == id
    ensures r.Some? ==> exists i ::
      0 <= i < |orders| && orders[i] == r.value && forall j :: 0 <= j < i ==> orders[j].id != id
  {
    match FindOrder(orders, id)
    case None => None
    case Some(i) => Some(orders[i])
  }

  /** `placeOrder`: the next id, a new confirmed order at the end, and a timer for it. */
  function Place(st: Store, data: OrderData, now: int): (Store, int) {
    var id := st.counter + 1;
    (Store(st.orders + [NewOrder(id, data, now)], id, st.timers[id := 0]), id)
  }

  /** `updateOrderStatus`: `false` and no change for an unknown id. */
  function UpdateStatus(st: Store, id: int, s: string, now: int): (Store, bool) {
    match FindOrder(st.orders, id)
    case None => (st, false)
    case Some(i) => (st.(orders := st.orders[i := ApplyStatus(st.orders[i], s, now)]), true)
  }

  /** `cancelOrder`: succeeds only for a found order that is confirmed or preparing. */
  function Cancel(st: Store, id: int, now: int): (Store, bool) {
    match FindOrder(st.orders, id)
    case None => (st, false)
    case Some(i) =>
      if Cancellable(st.orders[i])
      then (st.(orders := st.orders[i := ApplyCancel(st.orders[i], now)]), true)
      else (st, false)
  }

  /**
   * One firing of the progress timer of `orderId`: while steps remain it
   * applies the next one through `updateOrderStatus` (whatever the order's
   * status is by then) and advances; after the last one it clears itself.
   */
  function Tick(st: Store, orderId: int, now: int): Store {
    if orderId !in st.timers then st
    else
      var c := st.timers[orderId];
      if c < |PROGRESS_STEPS|
      then UpdateStatus(st, orderId, PROGRESS_STEPS[c], now).0.(timers := st.timers[orderId := c + 1])
      else st.(timers := st.timers - {orderId})
  }

  /** `getAllOrders`' comparator: the newer order may come first. */
  function NewerFirst(a: Order, b: Order): bool { a.orderTime >= b.orderTime }

  function AtRestaurant(restaurantId: int): Order -> bool {
    (o: Order) => o.restaurant.id == restaurantId
  }

  /** `getRestaurantOrders`. */
  function RestaurantOrders(orders: seq<Order>, restaurantId: int): seq<Order> {
    Filter(orders, AtRestaurant(restaurantId))
  }

  /** The invariant the service keeps: every order well-formed, every timer within its steps. */
  predicate Consistent(st: Store) {
    && (forall i :: 0 <= i < |st.orders| ==> WellFormed(st.orders[i]))
    && (forall id :: id in st.timers ==> st.timers[id] <= |PROGRESS_STEPS| && id <= st.counter)
  }

  // ---------------------------------------------------------------------
  // Placing orders

  /**
   * Placing returns the previous counter plus one, stores it as the new
   * counter, appends exactly one confirmed order at the end, leaves the
   * stored orders unchanged and starts that order's timer at step 0.
   */
  lemma PlaceEffect(st: Store, data: OrderData, now: int)
    ensures var (st', id) := Place(st, data, now);
      && id == st.counter + 1 && st'.counter == id
      && |st'.orders| == |st.orders| + 1
      && st'.orders[..|st.orders|] == st.orders
      && st'.orders[|st.orders|].status == CONFIRMED
      && st'.orders[|st.orders|].orderTime == now
      && st'.timers == st.timers[id := 0]
  {
    var (st', id) := Place(st, data, now);
    assert st'.orders[..|st.orders|] == st.orders;
  }

  /** A fresh service hands out 1001 first. */
  lemma FirstIdIs1001(data: OrderData, now: int)
    ensures Place(Store([], INITIAL_COUNTER, map[]), data, now).1 == 1001
  {
  }

  /** Placing keeps the invariant. */
  lemma PlaceConsistent(st: Store, data: OrderData, now: int)
    requires Consistent(st)
    ensures Consistent(Place(st, data, now).0)
  {
    var o := NewOrder(st.counter + 1, data, now);
    NewOrderShape(st.counter + 1, data, now);
    var st' := Place(st, data, now).0;
    forall i | 0 <= i < |st'.orders| ensures WellFormed(st'.orders[i]) {
      if i < |st.orders| { assert st'.orders[i] == st.orders[i]; }
    }
  }

  /** A run of placements with their timestamps: the final store and the ids returned. */
  function PlaceAll(st: Store, batch: seq<(OrderData, int)>): (Store, seq<int>)
    decreases |batch|
  {
    if batch == [] then (st, [])
    else
      var (st1, id) := Place(st, batch[0].0, batch[0].1);
      var (st2, ids) := PlaceAll(st1, batch[1..]);
      (st2, [id] + ids)
  }

  /**
   * Successive placements return strictly increasing ids, each above the
   * counter the run started from, and the counter ends at the last of them.
   */
  lemma {:induction false} PlaceAllIdsIncrease(st: Store, batch: seq<(OrderData, int)>)
    ensures var (st', ids) := PlaceAll(st, batch);
      && |ids| == |batch|
      && (forall i :: 0 <= i < |ids| ==> ids[i] == st.counter + 1 + i)
      && (forall i, j :: 0 <= i < j < |ids| ==> ids[i] < ids[j])
      && st'.counter == st.counter + |batch|
    decreases |batch|
  {
    if batch != [] {
      var (st1, id) := Place(st, batch[0].0, batch[0].1);
      PlaceAllIdsIncrease(st1, batch[1..]);
    }
  }

  /**
   * The id in the caller's data overrides the fresh one: when it differs and
   * no stored order has the fresh id, the id returned to the caller finds
   * nothing, and the order is found under the caller's id instead.
   */
  lemma CallerIdOverridesFreshId(st: Store, data: OrderData, now: int)
    requires data.id.Some? && data.id.value != st.counter + 1
    requires forall i :: 0 <= i < |st.orders| ==> st.orders[i].id != st.counter + 1
    ensures var (st', id) := Place(st, data, now);
      && Lookup(st'.orders, id) == None
      && Lookup(st'.orders, data.id.value).Some?
  {
    var (st', id) := Place(st, data, now);
    assert st'.orders[|st.orders|].id == data.id.value;
    forall i | 0 <= i < |st'.orders| ensures st'.orders[i].id != id {
      if i < |st.orders| { assert st'.orders[i] == st.orders[i]; }
    }
  }

  // ---------------------------------------------------------------------
  // Status updates and cancellation

  /**
   * An unknown id gives `false` and no change.  A known id gives `true`, and
   * only the first order with that id changes: its status becomes the new
   * one, whatever it was before.
   */
  lemma UpdateStatusEffect(st: Store, id: int, s: string, now: int)
    ensures var (st', ok) := UpdateStatus(st, id, s, now);
      && (ok <==> exists i :: 0 <= i < |st.orders| && st.orders[i].id == id)
      && (!ok ==> st' == st)
      && st'.counter == st.counter && st'.timers == st.timers
      && |st'.orders| == |st.orders|
      && (ok ==> exists i :: (0 <= i < |st.orders| && st.orders[i].id == id
                             && (forall j :: 0 <= j < i ==> st.orders[j].id != id)
                             && st'.orders == st.orders[i := ApplyStatus(st.orders[i], s, now)]
                             && st'.orders[i].status == s))
  {
    match FindOrder(st.orders, id)
    case None =>
    case Some(i) =>
  }

  /** Status updates keep the invariant. */
  lemma UpdateStatusConsistent(st: Store, id: int, s: string, now: int)
    requires Consistent(st)
    ensures Consistent(UpdateStatus(st, id, s, now).0)
  {
    match FindOrder(st.orders, id)
    case None =>
    case Some(i) =>
      ApplyStatusWellFormed(st.orders[i], s, now);
      ReplaceConsistent(st, i, ApplyStatus(st.orders[i], s, now));
  }

  /**
   * Cancelling succeeds exactly for a found order in `confirmed` or
   * `preparing`; on success only that order (the first with the id) changes,
   * to `cancelled` with one completed `cancelled` step appended; on failure
   * nothing changes; the id counter and the timers are never touched.
   */
  lemma CancelEffect(st: Store, id: int, now: int)
    ensures var (st', ok) := Cancel(st, id, now);
      && (ok <==> exists i :: 0 <= i < |st.orders| && st.orders[i].id == id
                    && (forall j :: 0 <= j < i ==> st.orders[j].id != id)
                    && Cancellable(st.orders[i]))
      && (!ok ==> st' == st)
      && (ok ==> exists i :: (0 <= i < |st.orders| && st.orders[i].id == id
                             && (forall j :: 0 <= j < i ==> st.orders[j].id != id)
                             && st'.orders == st.orders[i := ApplyCancel(st.orders[i], now)]))
      && st'.counter == st.counter && st'.timers == st.timers
  {
    match FindOrder(st.orders, id)
    case None =>
    case Some(i) =>
      forall i' | 0 <= i' < |st.orders| && st.orders[i'].id == id && (forall j :: 0 <= j < i' ==> st.orders[j].id != id)
        ensures i' == i
      {
      }
  }

  /** Cancellations keep the invariant. */
  lemma CancelConsistent(st: Store, id: int, now: int)
    requires Consistent(st)
    ensures Consistent(Cancel(st, id, now).0)
  {
    match FindOrder(st.orders, id)
    case None =>
    case Some(i) =>
      if Cancellable(st.orders[i]) {
        ApplyCancelWellFormed(st.orders[i], now);
        ReplaceConsistent(st, i, ApplyCancel(st.orders[i], now));
      }
  }

  /** Replacing one order by a well-formed one keeps the invariant. */
  lemma ReplaceConsistent(st: Store, i: nat, o': Order)
    requires Consistent(st)
    requires i < |st.orders|
    requires WellFormed(o')
    ensures Consistent(st.(orders := st.orders[i := o']))
  {
  }

  /** A second cancellation of the same order fails and changes nothing. */
  lemma CancelTwiceFails(st: Store, id: int, t1: int, t2: int)
    requires Cancel(st, id, t1).1
    ensures var st1 := Cancel(st, id, t1).0;
      Cancel(st1, id, t2) == (st1, false)
  {
    var i := FindOrder(st.orders, id).value;
    var st1 := Cancel(st, id, t1).0;
    assert st1.orders[i].id == id;
    assert forall j :: 0 <= j < i ==> st1.orders[j] == st.orders[j];
    assert FindOrder(st1.orders, id) == Some(i);
  }

  // ---------------------------------------------------------------------
  // Listing

  /** The comparator of `getAllOrders` is consistent. */
  lemma NewerFirstIsTotalPreorder()
    ensures TotalPreorder(NewerFirst)
  {
  }

  /**
   * `getAllOrders` returns the stored orders newest first, as a permutation
   * of what was stored, and keeps the insertion order among orders placed at
   * the same instant.
   */
  lemma AllOrdersSorted(orders: seq<Order>, sameTime: Order)
    ensures var r := InsertionSort(orders, NewerFirst);
      && (forall i, j :: 0 <= i < j < |r| ==> r[i].orderTime >= r[j].orderTime)
      && multiset(r) == multiset(orders)
      && Filter(r, EquivTo(NewerFirst, sameTime)) == Filter(orders, EquivTo(NewerFirst, sameTime))
  {
    NewerFirstIsTotalPreorder();
    SortSorted(orders, NewerFirst);
    SortPermutes(orders, NewerFirst);
    SortStable(orders, sameTime, NewerFirst);
  }

  /** Reordering keeps the invariant. */
  lemma SortConsistent(st: Store)
    requires Consistent(st)
    ensures Consistent(st.(orders := InsertionSort(st.orders, NewerFirst)))
  {
    var r := InsertionSort(st.orders, NewerFirst);
    SortPermutes(st.orders, NewerFirst);
    forall i | 0 <= i < |r| ensures WellFormed(r[i]) {
      assert r[i] in multiset(st.orders);
      var k :| 0 <= k < |st.orders| && st.orders[k] == r[i];
    }
  }

  /** `getRestaurantOrders` returns exactly that restaurant's orders, in stored order. */
  lemma RestaurantOrdersExact(orders: seq<Order>, restaurantId: int)
    ensures var r := RestaurantOrders(orders, restaurantId);
      && (forall o :: o in r <==> o in orders && o.restaurant.id == restaurantId)
      && multiset(r) <= multiset(orders)
    ensures SelectsInOrder(RestaurantOrders(orders, restaurantId), orders, AtRestaurant(restaurantId))
  {
    FilterSelectsInOrder(orders, AtRestaurant(restaurantId));
    forall o ensures o in RestaurantOrders(orders, restaurantId) <==> o in orders && o.restaurant.id == restaurantId {
      FilterMembership(orders, AtRestaurant(restaurantId), o);
    }
    FilterSubMultiset(orders, AtRestaurant(restaurantId));
  }

  // ---------------------------------------------------------------------
  // The progress simulation

  /** The instant of the `k`-th firing of a timer started at `start`. */
  function FiringTime(start: int, k: nat): int { start + k * TICK_INTERVAL }

  /** `n` firings of one timer, `TICK_INTERVAL` apart, the first one interval after `start`. */
  function Ticks(st: Store, orderId: int, n: nat, start: int): Store
    decreases n
  {
    if n == 0 then st else Tick(Ticks(st, orderId, n - 1, start), orderId, FiringTime(start, n))
  }

  /** Ticks keep the invariant. */
  lemma TickConsistent(st: Store, orderId: int, now: int)
    requires Consistent(st)
    ensures Consistent(Tick(st, orderId, now))
  {
    if orderId in st.timers && st.timers[orderId] < |PROGRESS_STEPS| {
      UpdateStatusConsistent(st, orderId, PROGRESS_STEPS[st.timers[orderId]], now);
    }
  }

  /**
   * One firing while steps remain: the order the timer addresses (the first
   * with its id, at `i`) takes the next progress status, with that step
   * completed at `now`; nothing else changes but the timer's position.
   */
  lemma TickAdvances(st: Store, orderId: int, now: int, i: nat, n: nat)
    requires Consistent(st)
    requires 1 <= n <= |PROGRESS_STEPS|
    requires orderId in st.timers && st.timers[orderId] == n - 1
    requires FindOrder(st.orders, orderId) == Some(i)
    ensures Tick(st, orderId, now).timers == st.timers[orderId := n]
    ensures Tick(st, orderId, now).counter == st.counter
    ensures |Tick(st, orderId, now).orders| == |st.orders|
    ensures Tick(st, orderId, now).orders[i].status == PROGRESS_STEPS[n - 1]
    ensures Tick(st, orderId, now).orders[i].trackingSteps[n] == Step(PROGRESS_STEPS[n - 1], STEP_MESSAGES[n], Some(now), true)
    ensures Tick(st, orderId, now).orders[i].trackingSteps[..n] == st.orders[i].trackingSteps[..n]
    ensures forall j :: 0 <= j < |st.orders| && j != i ==> Tick(st, orderId, now).orders[j] == st.orders[j]
    ensures FindOrder(Tick(st, orderId, now).orders, orderId) == Some(i)
  {
    var c := n - 1;
    var o := st.orders[i];
    var o' := ApplyStatus(o, PROGRESS_STEPS[c], now);
    ProgressStepApplied(o, c, now);
    FindOrderKeeps(st.orders, orderId, i, o');
    assert Tick(st, orderId, now) == Store(st.orders[i := o'], st.counter, st.timers[orderId := c + 1]);
    assert o'.trackingSteps[..c + 1] == o.trackingSteps[..c + 1];
  }

  /** Progress status `c` completes fixed step `c + 1` of a well-formed order and nothing else. */
  lemma ProgressStepApplied(o: Order, c: nat, now: int)
    requires WellFormed(o)
    requires c < |PROGRESS_STEPS|
    ensures ApplyStatus(o, PROGRESS_STEPS[c], now)
      == o.(status := PROGRESS_STEPS[c],
            trackingSteps := o.trackingSteps[c + 1 := Step(PROGRESS_STEPS[c], STEP_MESSAGES[c + 1], Some(now), true)])
  {
    var s := PROGRESS_STEPS[c];
    assert o.trackingSteps[c + 1].status == s;
    forall j | 0 <= j < c + 1 ensures o.trackingSteps[j].status != s {
      assert STEP_STATUSES[j] != s;
    }
    MarkStepEffect(o.trackingSteps, s, now);
  }

  /** Replacing the order found at `i` by one with the same id keeps it found there. */
  lemma FindOrderKeeps(orders: seq<Order>, id: int, i: nat, o': Order)
    requires FindOrder(orders, id) == Some(i)
    requires o'.id == id
    ensures FindOrder(orders[i := o'], id) == Some(i)
  {
    assert HasOrderId(id)(orders[i := o'][i]);
    assert forall j :: 0 <= j < i ==> orders[i := o'][j] == orders[j];
  }

  /** Steps 1..n of `o` are completed, step `k` at the `k`-th firing after `start`. */
  predicate ProgressedTo(o: Order, n: nat, start: int) {
    n <= |PROGRESS_STEPS| && |o.trackingSteps| > n &&
    forall k :: 1 <= k <= n ==>
      o.trackingSteps[k] == Step(PROGRESS_STEPS[k - 1], STEP_MESSAGES[k], Some(FiringTime(start, k)), true)
  }

  /**
   * Where the simulation of order `i` stands after `n` firings: the store is
   * consistent, the order is still at `i`, steps 1..n are completed on
   * schedule, its status is the last progress status applied, and its timer
   * holds `n`.
   */
  predicate Reached(s: Store, timers0: map<int, nat>, orderId: int, start: int, i: nat, n: nat) {
    && Consistent(s)
    && FindOrder(s.orders, orderId) == Some(i)
    && i < |s.orders|
    && ProgressedTo(s.orders[i], n, start)
    && (n >= 1 ==> s.orders[i].status == PROGRESS_STEPS[n - 1])
    && s.timers == timers0[orderId := n]
  }

  /**
   * Left alone, a timer started at step 0 applies `preparing`, `ready`,
   * `out_for_delivery` and `delivered`, one per firing and in that order,
   * completing step `k` at the `k`-th firing.
   */
  lemma SimulationProgresses(st: Store, orderId: int, start: int, i: nat, n: nat)
    requires Consistent(st)
    requires orderId in st.timers && st.timers[orderId] == 0
    requires FindOrder(st.orders, orderId) == Some(i)
    requires 1 <= n <= |PROGRESS_STEPS|
    ensures Consistent(Ticks(st, orderId, n, start))
    ensures FindOrder(Ticks(st, orderId, n, start).orders, orderId) == Some(i)
    ensures Ticks(st, orderId, n, start).orders[i].status == PROGRESS_STEPS[n - 1]
    ensures ProgressedTo(Ticks(st, orderId, n, start).orders[i], n, start)
    ensures Ticks(st, orderId, n, start).timers == st.timers[orderId := n]
  {
    SimulationReaches(st, orderId, start, i, n);
  }

  /** The induction behind `SimulationProgresses`, one firing at a time. */
  lemma {:induction false} SimulationReaches(st: Store, orderId: int, start: int, i: nat, n: nat)
    requires Consistent(st)
    requires orderId in st.timers && st.timers[orderId] == 0
    requires FindOrder(st.orders, orderId) == Some(i)
    requires n <= |PROGRESS_STEPS|
    ensures Reached(Ticks(st, orderId, n, start), st.timers, orderId, start, i, n)
    decreases n
  {
    if n == 0 {
      ReachedAtStart(st, orderId, start, i);
    } else {
      SimulationReaches(st, orderId, start, i, n - 1);
      OneMoreFiring(st, orderId, start, i, n);
    }
  }

  /** Before any firing the simulation stands at step 0. */
  lemma ReachedAtStart(st: Store, orderId: int, start: int, i: nat)
    requires Consistent(st)
    requires orderId in st.timers && st.timers[orderId] == 0
    requires FindOrder(st.orders, orderId) == Some(i)
    ensures Reached(Ticks(st, orderId, 0, start), st.timers, orderId, start, i, 0)
  {
    assert Ticks(st, orderId, 0, start) == st;
    assert st.timers == st.timers[orderId := 0];
    assert WellFormed(st.orders[i]);
  }

  /** The induction step of the simulation: firing `n` after `n - 1` firings. */
  lemma OneMoreFiring(st: Store, orderId: int, start: int, i: nat, n: nat)
    requires 1 <= n <= |PROGRESS_STEPS|
    requires Reached(Ticks(st, orderId, n - 1, start), st.timers, orderId, start, i, n - 1)
    ensures Reached(Ticks(st, orderId, n, start), st.timers, orderId, start, i, n)
  {
    var prev := Ticks(st, orderId, n - 1, start);
    var now := FiringTime(start, n);
    assert prev.timers[orderId] == n - 1;
    TickConsistent(prev, orderId, now);
    TickAdvances(prev, orderId, now, i, n);
    ReachedStep(prev, Tick(prev, orderId, now), st.timers, orderId, start, i, n);
  }

  /** What one firing's effect on order `i` and the timers adds to the progress reached. */
  lemma ReachedStep(prev: Store, next: Store, timers0: map<int, nat>, orderId: int, start: int, i: nat, n: nat)
    requires 1 <= n <= |PROGRESS_STEPS|
    requires Reached(prev, timers0, orderId, start, i, n - 1)
    requires Consistent(next)
    requires next.timers == prev.timers[orderId := n]
    requires FindOrder(next.orders, orderId) == Some(i)
    requires |next.orders| == |prev.orders|
    requires next.orders[i].status == PROGRESS_STEPS[n - 1]
    requires next.orders[i].trackingSteps[n] == Step(PROGRESS_STEPS[n - 1], STEP_MESSAGES[n], Some(FiringTime(start, n)), true)
    requires next.orders[i].trackingSteps[..n] == prev.orders[i].trackingSteps[..n]
    ensures Reached(next, timers0, orderId, start, i, n)
  {
    assert next.timers == timers0[orderId := n] by {
      assert timers0[orderId := n - 1][orderId := n] == timers0[orderId := n];
    }
    ProgressExtends(prev.orders[i], next.orders[i], n, start);
  }

  lemma ProgressExtends(o: Order, o': Order, n: nat, start: int)
    requires 1 <= n <= |PROGRESS_STEPS|
    requires ProgressedTo(o, n - 1, start)
    requires |o'.trackingSteps| > n
    requires o'.trackingSteps[..n] == o.trackingSteps[..n]
    requires o'.trackingSteps[n] == Step(PROGRESS_STEPS[n - 1], STEP_MESSAGES[n], Some(FiringTime(start, n)), true)
    ensures ProgressedTo(o', n, start)
  {
    forall k | 1 <= k < n
      ensures o'.trackingSteps[k] == o.trackingSteps[k]
    {
      assert o'.trackingSteps[k] == o'.trackingSteps[..n][k];
    }
  }

  /** After the fourth update the next firing clears the timer and changes no order. */
  lemma SimulationStops(st: Store, orderId: int, now: int)
    requires orderId in st.timers && st.timers[orderId] == |PROGRESS_STEPS|
    ensures Tick(st, orderId, now) == st.(timers := st.timers - {orderId})
    ensures orderId !in Tick(st, orderId, now).timers
    ensures forall later :: Tick(Tick(st, orderId, now), orderId, later) == Tick(st, orderId, now)
  {
  }

  /**
   * The timer is never stopped by a cancellation: an order cancelled before
   * the first firing is set back to `preparing` by it.
   */
  lemma CancelledOrderIsRevived(data: OrderData, t0: int, tCancel: int)
    requires data.id.None?
    ensures var (st1, id) := Place(Store([], INITIAL_COUNTER, map[]), data, t0);
      var (st2, ok) := Cancel(st1, id, tCancel);
      var st3 := Tick(st2, id, t0 + TICK_INTERVAL);
      && ok
      && Lookup(st2.orders, id).value.status == CANCELLED
      && Lookup(st3.orders, id).value.status == PREPARING
  {
    var (st1, id) := Place(Store([], INITIAL_COUNTER, map[]), data, t0);
    assert st1.orders[0].id == id;
    assert FindOrder(st1.orders, id) == Some(0);
    var st2 := Cancel(st1, id, tCancel).0;
    assert FindOrder(st2.orders, id) == Some(0);
    var st3 := Tick(st2, id, t0 + TICK_INTERVAL);
    assert FindOrder(st3.orders, id) == Some(0);
  }

  /** Cancelled and delivered orders are final: no further transition is intended. */
  predicate IsTerminal(o: Order) {
    o.status == CANCELLED || o.status == DELIVERED
  }

  /**
   * A firing that first looks at the order: when it is gone or already
   * cancelled or delivered, the timer clears itself and changes nothing else.
   */
  function GuardedTick(st: Store, orderId: int, now: int): Store {
    if orderId !in st.timers then st
    else match FindOrder(st.orders, orderId)
      case None => st.(timers := st.timers - {orderId})
      case Some(i) =>
        if IsTerminal(st.orders[i]) then st.(timers := st.timers - {orderId})
        else Tick(st, orderId, now)
  }

  /** A guarded firing never touches a cancelled (or delivered) order. */
  lemma GuardedTickKeepsTerminal(st: Store, orderId: int, now: int)
    ensures var st' := GuardedTick(st, orderId, now);
      && |st'.orders| == |st.orders|
      && (forall j :: 0 <= j < |st.orders| && IsTerminal(st.orders[j]) ==> st'.orders[j] == st.orders[j])
  {
  }

  /** Firings of any timers, in any order, each at its own time. */
  function GuardedTicks(st: Store, firings: seq<(int, int)>): Store
    decreases |firings|
  {
    if firings == [] then st
    else GuardedTicks(GuardedTick(st, firings[0].0, firings[0].1), firings[1..])
  }

  /** With guarded firings, a cancelled order stays exactly as it was cancelled. */
  lemma {:induction false} CancelledStaysCancelled(st: Store, firings: seq<(int, int)>, j: nat)
    requires j < |st.orders| && st.orders[j].status == CANCELLED
    ensures var st' := GuardedTicks(st, firings);
      j < |st'.orders| && st'.orders[j] == st.orders[j]
    decreases |firings|
  {
    if firings != [] {
      var st1 := GuardedTick(st, firings[0].0, firings[0].1);
      GuardedTickKeepsTerminal(st, firings[0].0, firings[0].1);
      CancelledStaysCancelled(st1, firings[1..], j);
    }
  }

  /** With the guard, the cancelled order of the scenario above stays cancelled. */
  lemma GuardedTickRespectsCancel(data: OrderData, t0: int, tCancel: int)
    requires data.id.None?
    ensures var (st1, id) := Place(Store([], INITIAL_COUNTER, map[]), data, t0);
      var st2 := Cancel(st1, id, tCancel).0;
      var st3 := GuardedTick(st2, id, t0 + TICK_INTERVAL);
      && Lookup(st3.orders, id).value.status == CANCELLED
      && id !in st3.timers
  {
    var (st1, id) := Place(Store([], INITIAL_COUNTER, map[]), data, t0);
    assert FindOrder(st1.orders, id) == Some(0);
    var st2 := Cancel(st1, id, tCancel).0;
    assert FindOrder(st2.orders, id) == Some(0);
  }

  // ---------------------------------------------------------------------
  // The service object

  /** What `saveToStorage` writes: the two persisted keys. */
  datatype Snapshot = Snapshot(orders: seq<Order>, orderIdCounter: int)

  class OrderService {
    var orders: seq<Order>
    var orderIdCounter: int
    var timers: map<int, nat>

    function State(): Store
      reads this
    {
      Store(orders, orderIdCounter, timers)
    }

    ghost predicate Valid()
      reads this
    {
      Consistent(State())
    }

    /** A service over empty storage. */
    constructor ()
      ensures State() == Store([], INITIAL_COUNTER, map[]) && Valid()
    {
      orders := [];
      orderIdCounter := INITIAL_COUNTER;
      timers := map[];
    }

    /**
     * A service restored from a snapshot; timers do not survive a reload, and
     * a snapshot of well-formed orders gives a service that keeps the invariant.
     */
    constructor Restore(saved: Snapshot)
      ensures State() == Store(saved.orders, saved.orderIdCounter, map[])
      ensures SaveToStorage() == saved
      ensures (forall i :: 0 <= i < |saved.orders| ==> WellFormed(saved.orders[i])) ==> Valid()
    {
      orders := saved.orders;
      orderIdCounter := saved.orderIdCounter;
      timers := map[];
    }

    /** `saveToStorage`: the snapshot of orders and counter. */
    function SaveToStorage(): (s: Snapshot)
      reads this
      ensures s.orders == orders && s.orderIdCounter == orderIdCounter
    {
      Snapshot(orders, orderIdCounter)
    }

    method PlaceOrder(data: OrderData, now: int) returns (res: PlaceResult)
      requires Valid()
      modifies this
      ensures Valid()
      ensures (State(), res.orderId) == Place(old(State()), data, now)
      ensures res.success && res.message == PLACED_MESSAGE
      ensures res.orderId == old(orderIdCounter) + 1
    {
      PlaceConsistent(State(), data, now);
      orderIdCounter := orderIdCounter + 1;
      var orderId := orderIdCounter;
      var order := NewOrder(orderId, data, now);
      orders := orders + [order];
      timers := timers[orderId := 0];
      res := PlaceResult(true, orderId, PLACED_MESSAGE);
    }

    /** `getOrder`: the first stored order with that id. */
    function GetOrder(orderId: int): (r: Option<Order>)
      reads this
      ensures r.Some? <==> exists i :: 0 <= i < |orders| && orders[i].id == orderId
      ensures r.Some? ==> r.value in orders && r.value.id == orderId
      ensures r.Some? ==> exists i ::
        0 <= i < |orders| && orders[i] == r.value && forall j :: 0 <= j < i ==> orders[j].id != orderId
    {
      Lookup(orders, orderId)
    }

    /** `getAllOrders`: sorts the stored list itself, newest first, and returns it. */
    method GetAllOrders() returns (r: seq<Order>)
      requires Valid()
      modifies this
      ensures Valid()
      ensures orders == InsertionSort(old(orders), NewerFirst) && r == orders
      ensures orderIdCounter == old(orderIdCounter) && timers == old(timers)
    {
      SortConsistent(State());
      var a := new Order[|orders|](i requires 0 <= i < |orders| reads this => orders[i]);
      assert a[..] == orders;
      SortInPlace(a, NewerFirst);
      orders := a[..];
      r := orders;
    }

    method UpdateOrderStatus(orderId: int, newStatus: string, now: int) returns (ok: bool)
      requires Valid()
      modifies this
      ensures Valid()
      ensures (State(), ok) == UpdateStatus(old(State()), orderId, newStatus, now)
    {
      UpdateStatusConsistent(State(), orderId, newStatus, now);
      var found := FindOrder(orders, orderId);
      if found.Some? {
        var i := found.value;
        var order := orders[i];
        var steps := MarkStep(order.trackingSteps, newStatus, now);
        orders := orders[i := order.(status := newStatus, trackingSteps := steps)];
        ok := true;
      } else {
        ok := false;
      }
    }

    /** One firing of the progress timer of `orderId`. */
    method ProgressTick(orderId: int, now: int)
      requires Valid()
      modifies this
      ensures Valid()
      ensures State() == Tick(old(State()), orderId, now)
    {
      ghost var before := State();
      TickConsistent(before, orderId, now);
      if orderId in timers {
        var currentStep := timers[orderId];
        if currentStep < |PROGRESS_STEPS| {
          var _ := UpdateOrderStatus(orderId, PROGRESS_STEPS[currentStep], now);
          assert State() == UpdateStatus(before, orderId, PROGRESS_STEPS[currentStep], now).0;
          timers := timers[orderId := currentStep + 1];
        } else {
          timers := timers - {orderId};
        }
      }
    }

    /** `getRestaurantOrders`. */
    function GetRestaurantOrders(restaurantId: int): (r: seq<Order>)
      reads this
      ensures forall o :: o in r <==> o in orders && o.restaurant.id == restaurantId
      ensures SelectsInOrder(r, orders, AtRestaurant(restaurantId))
    {
      RestaurantOrdersExact(orders, restaurantId);
      RestaurantOrders(orders, restaurantId)
    }

    method CancelOrder(orderId: int, now: int) returns (ok: bool)
      requires Valid()
      modifies this
      ensures Valid()
      ensures (State(), ok) == Cancel(old(State()), orderId, now)
    {
      CancelConsistent(State(), orderId, now);
      var found := FindOrder(orders, orderId);
      if found.Some? && Cancellable(orders[found.value]) {
        var i := found.value;
        var cancelStep := Step(CANCELLED, CANCEL_MESSAGE, Some(now), true);
        orders := orders[i := orders[i].(status := CANCELLED,
                                         trackingSteps := orders[i].trackingSteps + [cancelStep])];
        ok := true;
      } else {
        ok := false;
      }
    }
  }
}
