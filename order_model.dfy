/**
 * A single order of the simulated backend: its tracking steps, and what a
 * status update or a cancellation does to it.  Time is counted in integer
 * milliseconds.
 */
module OrderModel {
  import opened Wrappers
  import opened CartContext

  const CONFIRMED: string := "confirmed"
  const PREPARING: string := "preparing"
  const READY: string := "ready"
  const OUT_FOR_DELIVERY: string := "out_for_delivery"
  const DELIVERED: string := "delivered"
  const CANCELLED: string := "cancelled"

  /** The statuses of the five fixed tracking steps, in order. */
  const STEP_STATUSES: seq<string> := [CONFIRMED, PREPARING, READY, OUT_FOR_DELIVERY, DELIVERED]

  const STEP_MESSAGES: seq<string> := [
    "Order confirmed",
    "Restaurant is preparing your order",
    "Order ready for pickup",
    "Out for delivery",
    "Order delivered"
  ]

  const CANCEL_MESSAGE: string := "Order cancelled"

  /** The advisory delivery estimate: 45 minutes, in milliseconds. */
  const DELIVERY_ESTIMATE: int := 45 * 60000

  /** One tracking step; `timestamp` is `null` (`None`) until the step is reached. */
  datatype Step = Step(status: string, message: string, timestamp: Option<int>, completed: bool)

  /** The snapshot of the restaurant taken when the order is placed. */
  datatype RestaurantRef = RestaurantRef(id: int, name: string)

  /**
   * What the caller passes to `placeOrder`.  `id` is present when the caller's
   * object carries its own `id` field, which the spread copies over the fresh one.
   */
  datatype OrderData = OrderData(
    id: Option<int>,
    items: seq<LineItem>,
    deliveryInfo: DeliveryInfo,
    restaurant: RestaurantRef,
    subtotal: int, deliveryFee: int, tax: int, total: int)

  datatype Order = Order(
    id: int,
    items: seq<LineItem>,
    deliveryInfo: DeliveryInfo,
    restaurant: RestaurantRef,
    subtotal: int, deliveryFee: int, tax: int, total: int,
    status: string,
    orderTime: int,
    estimatedDelivery: int,
    trackingSteps: seq<Step>)

  /** The five fixed steps of a new order: only the first is reached, at `now`. */
  function FreshSteps(now: int): seq<Step> {
    [Step(CONFIRMED, STEP_MESSAGES[0], Some(now), true),
     Step(PREPARING, STEP_MESSAGES[1], None, false),
     Step(READY, STEP_MESSAGES[2], None, false),
     Step(OUT_FOR_DELIVERY, STEP_MESSAGES[3], None, false),
     Step(DELIVERED, STEP_MESSAGES[4], None, false)]
  }

  /**
   * The order `placeOrder` builds: `id: orderId` comes before the spread of
   * the caller's data, so a caller-supplied id wins; status, times and steps
   * come after it and cannot be overridden.
   */
  function NewOrder(orderId: int, data: OrderData, now: int): Order {
    Order(data.id.GetOr(orderId), data.items, data.deliveryInfo, data.restaurant,
          data.subtotal, data.deliveryFee, data.tax, data.total,
          CONFIRMED, now, now + DELIVERY_ESTIMATE, FreshSteps(now))
  }

  function StepHasStatus(s: string): Step -> bool { (st: Step) => st.status == s }

  /** Complete the first step whose status is `s`, if there is one. */
  function MarkStep(steps: seq<Step>, s: string, now: int): seq<Step> {
    match Seqs.FindIndex(steps, StepHasStatus(s))
    case None => steps
    case Some(k) => steps[k := steps[k].(completed := true, timestamp := Some(now))]
  }

  /** `updateOrderStatus` on a found order: the status is set whatever it was. */
  function ApplyStatus(o: Order, s: string, now: int): Order {
    o.(status := s, trackingSteps := MarkStep(o.trackingSteps, s, now))
  }

  /** The guard of `cancelOrder`. */
  predicate Cancellable(o: Order) {
    o.status == CONFIRMED || o.status == PREPARING
  }

  /** `cancelOrder` on a cancellable order: status `cancelled` and one step appended. */
  function ApplyCancel(o: Order, now: int): Order {
    o.(status := CANCELLED,
       trackingSteps := o.trackingSteps + [Step(CANCELLED, CANCEL_MESSAGE, Some(now), true)])
  }

  /**
   * The shape every stored order keeps: the five fixed steps first, only
   * cancellation steps after them, a step is completed exactly when it has a
   * timestamp, the first step is completed, and the estimate is 45 minutes
   * after the order time.
   */
  predicate WellFormed(o: Order) {
    && |o.trackingSteps| >= 5
    && (forall k :: 0 <= k < 5 ==>
          o.trackingSteps[k].status == STEP_STATUSES[k] && o.trackingSteps[k].message == STEP_MESSAGES[k])
    && (forall k :: 5 <= k < |o.trackingSteps| ==>
          o.trackingSteps[k].status == CANCELLED && o.trackingSteps[k].message == CANCEL_MESSAGE)
    && (forall k :: 0 <= k < |o.trackingSteps| ==>
          (o.trackingSteps[k].completed <==> o.trackingSteps[k].timestamp.Some?))
    && o.trackingSteps[0].completed
    && o.estimatedDelivery == o.orderTime + DELIVERY_ESTIMATE
  }

  /** The number of completed steps. */
  function CompletedCount(steps: seq<Step>): nat {
    if steps == [] then 0
    else CompletedCount(steps[..|steps| - 1]) + (if steps[|steps| - 1].completed then 1 else 0)
  }

  // ---------------------------------------------------------------------
  // Properties

  /**
   * A new order is `confirmed`, carries the caller's items, delivery details,
   * restaurant and amounts unchanged, has exactly the
   * five fixed steps in order with only the first completed (timestamped at
   * the order time) and the rest without a timestamp.
   */
  lemma NewOrderShape(orderId: int, data: OrderData, now: int)
    ensures var o := NewOrder(orderId, data, now);
      && o.status == CONFIRMED
      && o.orderTime == now && o.estimatedDelivery == now + 45 * 60000
      && o.items == data.items && o.deliveryInfo == data.deliveryInfo && o.restaurant == data.restaurant
      && o.subtotal == data.subtotal && o.deliveryFee == data.deliveryFee
      && o.tax == data.tax && o.total == data.total
      && |o.trackingSteps| == 5
      && (forall k :: 0 <= k < 5 ==> o.trackingSteps[k].status == STEP_STATUSES[k])
      && o.trackingSteps[0] == Step(CONFIRMED, "Order confirmed", Some(now), true)
      && (forall k :: 1 <= k < 5 ==> o.trackingSteps[k].timestamp == None && !o.trackingSteps[k].completed)
      && CompletedCount(o.trackingSteps) == 1
      && WellFormed(o)
  {
    var st := NewOrder(orderId, data, now).trackingSteps;
    assert st[..1][..0] == [];
    assert CompletedCount(st[..1]) == 1;
    assert st[..2][..1] == st[..1];
    assert CompletedCount(st[..2]) == 1;
    assert st[..3][..2] == st[..2];
    assert CompletedCount(st[..3]) == 1;
    assert st[..4][..3] == st[..3];
    assert CompletedCount(st[..4]) == 1;
    assert st[..4] == st[..|st| - 1];
  }

  /** The fresh id is used unless the caller's data brings its own. */
  lemma NewOrderId(orderId: int, data: OrderData, now: int)
    ensures data.id.None? ==> NewOrder(orderId, data, now).id == orderId
    ensures data.id.Some? ==> NewOrder(orderId, data, now).id == data.id.value
  {
  }

  /**
   * Marking a step completes exactly the first step with that status, stamps
   * it with `now`, and leaves every other step untouched; when no step has
   * that status nothing changes.
   */
  lemma MarkStepEffect(steps: seq<Step>, s: string, now: int)
    ensures var r := MarkStep(steps, s, now);
      && |r| == |steps|
      && ((forall k :: 0 <= k < |steps| ==> steps[k].status != s) ==> r == steps)
      && (forall k :: (0 <= k < |steps| && steps[k].status == s &&
                       (forall j :: 0 <= j < k ==> steps[j].status != s)) ==>
            r == steps[k := Step(s, steps[k].message, Some(now), true)])
  {
    var p := StepHasStatus(s);
    match Seqs.FindIndex(steps, p)
    case None =>
    case Some(k) =>
      forall k' | 0 <= k' < |steps| && steps[k'].status == s && (forall j :: 0 <= j < k' ==> steps[j].status != s)
        ensures k' == k
      {
      }
  }

  /**
   * `updateOrderStatus` on a found order sets the status unconditionally; the
   * steps change only at the first step with the new status, so a status
   * without a step (such as `cancelled`) leaves the steps as they were.
   */
  lemma ApplyStatusEffect(o: Order, s: string, now: int)
    ensures ApplyStatus(o, s, now).status == s
    ensures ApplyStatus(o, s, now).id == o.id && ApplyStatus(o, s, now).total == o.total
    ensures WellFormed(o) && s !in STEP_STATUSES && s != CANCELLED ==>
      ApplyStatus(o, s, now).trackingSteps == o.trackingSteps
    ensures WellFormed(o) && s == CANCELLED && |o.trackingSteps| == 5 ==>
      ApplyStatus(o, s, now).trackingSteps == o.trackingSteps
  {
    MarkStepEffect(o.trackingSteps, s, now);
    assert CANCELLED !in STEP_STATUSES;
    if WellFormed(o) && s !in STEP_STATUSES && (s != CANCELLED || |o.trackingSteps| == 5) {
      forall k | 0 <= k < |o.trackingSteps| ensures o.trackingSteps[k].status != s {
        if k < 5 { assert STEP_STATUSES[k] in STEP_STATUSES; }
      }
    }
  }

  /** A status update keeps a well-formed order well-formed. */
  lemma ApplyStatusWellFormed(o: Order, s: string, now: int)
    requires WellFormed(o)
    ensures WellFormed(ApplyStatus(o, s, now))
  {
    MarkStepEffect(o.trackingSteps, s, now);
  }

  /**
   * Cancelling keeps the earlier steps and appends one completed,
   * timestamped `cancelled` step, and keeps the order well-formed.
   */
  lemma ApplyCancelEffect(o: Order, now: int)
    requires WellFormed(o)
    ensures var c := ApplyCancel(o, now);
      && c.status == CANCELLED
      && |c.trackingSteps| == |o.trackingSteps| + 1
      && c.trackingSteps[..|o.trackingSteps|] == o.trackingSteps
      && c.trackingSteps[|o.trackingSteps|] == Step(CANCELLED, CANCEL_MESSAGE, Some(now), true)
      && CompletedCount(c.trackingSteps) == CompletedCount(o.trackingSteps) + 1
      && WellFormed(c)
      && !Cancellable(c)
  {
    var c := ApplyCancel(o, now);
    assert c.trackingSteps[..|c.trackingSteps| - 1] == o.trackingSteps;
  }

  /** Cancelling keeps a well-formed order well-formed. */
  lemma ApplyCancelWellFormed(o: Order, now: int)
    requires WellFormed(o)
    ensures WellFormed(ApplyCancel(o, now))
  {
    ApplyCancelEffect(o, now);
  }

  /**
   * An update to a step status that is not yet reached completes one more
   * step; the source never checks that the move is forward, so jumping from
   * `confirmed` to `ready` completes `ready` while `preparing` stays open.
   */
  lemma SkippingAheadLeavesGap(orderId: int, data: OrderData, t0: int, t1: int)
    ensures var o := ApplyStatus(NewOrder(orderId, data, t0), READY, t1);
      && o.status == READY
      && o.trackingSteps[2] == Step(READY, "Order ready for pickup", Some(t1), true)
      && !o.trackingSteps[1].completed && o.trackingSteps[1].timestamp == None
  {
    var o0 := NewOrder(orderId, data, t0);
    NewOrderShape(orderId, data, t0);
    MarkStepEffect(o0.trackingSteps, READY, t1);
    assert o0.trackingSteps[2].status == READY;
  }

  /**
   * Nor is the move checked to be forward: going back from `ready` to
   * `preparing` sets the earlier status while the `ready` step stays
   * completed, so the status is no longer that of the last completed step.
   */
  lemma MovingBackKeepsLaterStep(orderId: int, data: OrderData, t0: int, t1: int, t2: int)
    ensures var o := ApplyStatus(ApplyStatus(NewOrder(orderId, data, t0), READY, t1), PREPARING, t2);
      && o.status == PREPARING
      && o.trackingSteps[1] == Step(PREPARING, STEP_MESSAGES[1], Some(t2), true)
      && o.trackingSteps[2] == Step(READY, "Order ready for pickup", Some(t1), true)
  {
    var o0 := NewOrder(orderId, data, t0);
    SkippingAheadLeavesGap(orderId, data, t0, t1);
    var o1 := ApplyStatus(o0, READY, t1);
    NewOrderShape(orderId, data, t0);
    MarkStepEffect(o1.trackingSteps, PREPARING, t2);
    assert o1.trackingSteps[1].status == PREPARING;
    assert o1.trackingSteps[0].status != PREPARING;
  }
}
