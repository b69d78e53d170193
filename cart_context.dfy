/**
 * The shopping-cart store shared by the pages: a pure reducer over
 * `{items, deliveryInfo}` and the totals derived from the items.
 */
module CartContext {
  import opened Seqs

  /** One cart line; the display-only fields (image, description) are not modelled. */
  datatype LineItem = LineItem(id: int, name: string, price: int, quantity: int)

  datatype DeliveryInfo = DeliveryInfo(address: string, phone: string, name: string, instructions: string)

  datatype CartState = CartState(items: seq<LineItem>, deliveryInfo: DeliveryInfo)

  /** The dispatched actions; `Other` is any unrecognised `type`. */
  datatype Action =
    | AddToCart(payload: LineItem)
    | UpdateQuantity(id: int, quantity: int)
    | RemoveFromCart(id: int)
    | ClearCart
    | SetDeliveryInfo(info: DeliveryInfo)
    | Other(kind: string)

  /** The state the provider starts from: no items, every delivery field empty. */
  const InitialState: CartState := CartState([], DeliveryInfo("", "", "", ""))

  /** The standard delivery fee once the cart is not empty. */
  const DELIVERY_FEE: int := 150

  function HasId(id: int): LineItem -> bool { (it: LineItem) => it.id == id }
  function NotId(id: int): LineItem -> bool { (it: LineItem) => it.id != id }
  function IsPositive(it: LineItem): bool { it.quantity > 0 }

  predicate ContainsId(items: seq<LineItem>, id: int) {
    exists i :: 0 <= i < |items| && items[i].id == id
  }

  /** No two lines share an id. */
  predicate UniqueIds(items: seq<LineItem>) {
    forall i, j :: 0 <= i < j < |items| ==> items[i].id != items[j].id
  }

  /** `items.map(...)` that adds `q` to the quantity of every line with id `id`. */
  function AddQuantity(items: seq<LineItem>, id: int, q: int): seq<LineItem> {
    seq(|items|, i requires 0 <= i < |items| =>
      if items[i].id == id then items[i].(quantity := items[i].quantity + q) else items[i])
  }

  /** `items.map(...)` that sets the quantity of every line with id `id` to `q`. */
  function SetQuantity(items: seq<LineItem>, id: int, q: int): seq<LineItem> {
    seq(|items|, i requires 0 <= i < |items| =>
      if items[i].id == id then items[i].(quantity := q) else items[i])
  }

  /** The reducer. */
  function Reduce(state: CartState, action: Action): CartState {
    match action
    case AddToCart(payload) =>
      if ContainsId(state.items, payload.id)
      then state.(items := AddQuantity(state.items, payload.id, payload.quantity))
      else state.(items := state.items + [payload])
    case UpdateQuantity(id, q) =>
      state.(items := Filter(SetQuantity(state.items, id, q), IsPositive))
    case RemoveFromCart(id) =>
      state.(items := Filter(state.items, NotId(id)))
    case ClearCart =>
      state.(items := [])
    case SetDeliveryInfo(info) =>
      state.(deliveryInfo := info)
    case Other(_) =>
      state
  }

  function LineTotal(it: LineItem): int { it.price * it.quantity }
  function Quantity(it: LineItem): int { it.quantity }

  /** Sum of price times quantity over the lines. */
  function Subtotal(items: seq<LineItem>): int { Sum(items, LineTotal) }

  /** Sum of the quantities over the lines. */
  function ItemCount(items: seq<LineItem>): int { Sum(items, Quantity) }

  /** The fee is charged exactly when there is something to pay for. */
  function DeliveryFee(subtotal: int): (fee: int)
    ensures fee == DELIVERY_FEE <==> subtotal > 0
    ensures fee == 0 <==> subtotal <= 0
  {
    if subtotal > 0 then DELIVERY_FEE else 0
  }

  // ---------------------------------------------------------------------
  // Properties of the reducer

  /**
   * Adding an id that is already present keeps the number of lines, adds the
   * payload quantity to the matching lines and leaves every other line as it was.
   */
  lemma AddExistingMerges(state: CartState, payload: LineItem)
    requires ContainsId(state.items, payload.id)
    ensures var r := Reduce(state, AddToCart(payload)).items;
      && |r| == |state.items|
      && (forall i :: 0 <= i < |r| && state.items[i].id == payload.id ==>
            r[i] == state.items[i].(quantity := state.items[i].quantity + payload.quantity))
      && (forall i :: 0 <= i < |r| && state.items[i].id != payload.id ==> r[i] == state.items[i])
    ensures Reduce(state, AddToCart(payload)).deliveryInfo == state.deliveryInfo
  {
  }

  /** Adding a new id appends the payload as the last line. */
  lemma AddNewAppends(state: CartState, payload: LineItem)
    requires !ContainsId(state.items, payload.id)
    ensures Reduce(state, AddToCart(payload)).items == state.items + [payload]
  {
  }

  /** Adding never creates a second line for an id: unique ids stay unique. */
  lemma AddKeepsIdsUnique(state: CartState, payload: LineItem)
    requires UniqueIds(state.items)
    ensures UniqueIds(Reduce(state, AddToCart(payload)).items)
  {
    var r := Reduce(state, AddToCart(payload)).items;
    if !ContainsId(state.items, payload.id) {
      forall i, j | 0 <= i < j < |r| ensures r[i].id != r[j].id {
        if j == |state.items| {
          assert r[j] == payload && r[i] == state.items[i];
        }
      }
    }
  }

  /** Filtering keeps unique ids unique: the kept lines sit at distinct positions. */
  lemma FilterKeepsIdsUnique(items: seq<LineItem>, p: LineItem -> bool)
    requires UniqueIds(items)
    ensures UniqueIds(Filter(items, p))
  {
    var r := Filter(items, p);
    FilterSelectsInOrder(items, p);
    var idx :| PositionsWhere(idx, items, p) && Picks(r, items, idx);
    forall i, j | 0 <= i < j < |r| ensures r[i].id != r[j].id {
      assert idx[i] < idx[j];
    }
  }

  /**
   * The initial cart has unique ids and every action keeps them unique, so
   * every state the reducer reaches from `initialState` has unique ids.
   */
  lemma ReduceKeepsIdsUnique(state: CartState, action: Action)
    requires UniqueIds(state.items)
    ensures UniqueIds(Reduce(state, action).items)
    ensures UniqueIds(InitialState.items)
  {
    match action
    case AddToCart(payload) =>
      AddKeepsIdsUnique(state, payload);
    case UpdateQuantity(id, q) =>
      var m := SetQuantity(state.items, id, q);
      assert forall i :: 0 <= i < |m| ==> m[i].id == state.items[i].id;
      FilterKeepsIdsUnique(m, IsPositive);
    case RemoveFromCart(id) =>
      FilterKeepsIdsUnique(state.items, NotId(id));
    case ClearCart =>
    case SetDeliveryInfo(_) =>
    case Other(_) =>
  }

  /**
   * Without unique ids, adding an id that is present adds the payload
   * quantity once for every line that carries the id.
   */
  lemma AddCountsEveryMatch(state: CartState, payload: LineItem)
    requires ContainsId(state.items, payload.id)
    ensures ItemCount(Reduce(state, AddToCart(payload)).items)
         == ItemCount(state.items) + payload.quantity * Count(state.items, HasId(payload.id))
  {
    AddQuantityCount(state.items, payload.id, payload.quantity);
  }

  lemma {:induction false} AddQuantityCount(items: seq<LineItem>, id: int, q: int)
    ensures ItemCount(AddQuantity(items, id, q)) == ItemCount(items) + q * Count(items, HasId(id))
    decreases |items|
  {
    if items != [] {
      var n := |items| - 1;
      AddQuantityCount(items[..n], id, q);
      assert AddQuantity(items, id, q)[..n] == AddQuantity(items[..n], id, q);
      var c := Count(items[..n], HasId(id));
      if items[n].id == id {
        assert q * (c + 1) == q * c + q;
      }
    }
  }

  /** The index of the line carrying `id`, when the ids are unique. */
  lemma UniqueIndex(items: seq<LineItem>, id: int) returns (k: nat)
    requires UniqueIds(items) && ContainsId(items, id)
    ensures k < |items| && items[k].id == id
    ensures forall i :: 0 <= i < |items| && i != k ==> items[i].id != id
  {
    k :| 0 <= k < |items| && items[k].id == id;
  }

  /**
   * With unique ids, adding `q` of an item raises the item count by `q`, and
   * the subtotal by `q` times the price of the line it lands on: the stored
   * line's price when the id was present, the payload's otherwise.
   */
  lemma AddToCartTotals(state: CartState, payload: LineItem)
    requires UniqueIds(state.items)
    ensures var r := Reduce(state, AddToCart(payload)).items;
      && ItemCount(r) == ItemCount(state.items) + payload.quantity
      && (ContainsId(state.items, payload.id) ==>
            exists k :: 0 <= k < |state.items| && state.items[k].id == payload.id &&
              Subtotal(r) == Subtotal(state.items) + state.items[k].price * payload.quantity)
      && (!ContainsId(state.items, payload.id) ==>
            Subtotal(r) == Subtotal(state.items) + payload.price * payload.quantity)
  {
    var items := state.items;
    var r := Reduce(state, AddToCart(payload)).items;
    if ContainsId(items, payload.id) {
      var k := UniqueIndex(items, payload.id);
      var line := items[k].(quantity := items[k].quantity + payload.quantity);
      assert r == items[k := line];
      SumUpdate(items, k, line, Quantity);
      SumUpdate(items, k, line, LineTotal);
      assert LineTotal(line) == LineTotal(items[k]) + items[k].price * payload.quantity;
    } else {
      SumConcat(items, [payload], Quantity);
      SumConcat(items, [payload], LineTotal);
      assert Sum([payload], Quantity) == Quantity(payload);
      assert Sum([payload], LineTotal) == LineTotal(payload);
    }
  }

  /**
   * Setting a quantity prunes: the result is the lines after the update that
   * have a positive quantity, in their old order; the lines with the id carry
   * the new quantity and survive exactly when it is positive, and the others
   * are exactly the positive old lines.
   */
  lemma UpdateQuantityPrunes(state: CartState, id: int, q: int)
    ensures SelectsInOrder(Reduce(state, UpdateQuantity(id, q)).items, SetQuantity(state.items, id, q), IsPositive)
    ensures var r := Reduce(state, UpdateQuantity(id, q)).items;
      && (forall x :: x in r ==> x.quantity > 0)
      && (forall x :: x in r && x.id == id ==> x.quantity == q)
      && (forall x :: x in r && x.id != id <==> x in state.items && x.id != id && x.quantity > 0)
      && (q > 0 && ContainsId(state.items, id) ==> ContainsId(r, id))
      && Reduce(state, UpdateQuantity(id, q)).deliveryInfo == state.deliveryInfo
  {
    FilterSelectsInOrder(SetQuantity(state.items, id, q), IsPositive);
    PrunedLines(state.items, id, q);
    if q > 0 && ContainsId(state.items, id) {
      UpdatedLineSurvives(state.items, id, q);
    }
  }

  /** The lines kept after setting a quantity, by membership. */
  lemma PrunedLines(items: seq<LineItem>, id: int, q: int)
    ensures var r := Filter(SetQuantity(items, id, q), IsPositive);
      && (forall x :: x in r ==> x.quantity > 0)
      && (forall x :: x in r && x.id == id ==> x.quantity == q)
      && (forall x :: x in r && x.id != id <==> x in items && x.id != id && x.quantity > 0)
  {
    var m := SetQuantity(items, id, q);
    forall x ensures x in Filter(m, IsPositive) <==> x in m && IsPositive(x) {
      FilterMembership(m, IsPositive, x);
    }
    forall x | x in items && x.id != id ensures x in m {
      var i :| 0 <= i < |items| && items[i] == x;
      assert m[i] == x;
    }
  }

  /** A line set to a positive quantity stays in the cart. */
  lemma UpdatedLineSurvives(items: seq<LineItem>, id: int, q: int)
    requires q > 0 && ContainsId(items, id)
    ensures ContainsId(Filter(SetQuantity(items, id, q), IsPositive), id)
  {
    var m := SetQuantity(items, id, q);
    var i :| 0 <= i < |items| && items[i].id == id;
    FilterMembership(m, IsPositive, m[i]);
    var r := Filter(m, IsPositive);
    var j :| 0 <= j < |r| && r[j] == m[i];
    assert r[j].id == id;
  }

  /**
   * When every line is positive, setting an id's quantity to zero or less
   * has exactly the effect of removing that id.
   */
  lemma {:induction false} UpdateToZeroRemoves(state: CartState, id: int, q: int)
    requires q <= 0
    requires forall i :: 0 <= i < |state.items| ==> state.items[i].quantity > 0
    ensures Reduce(state, UpdateQuantity(id, q)) == Reduce(state, RemoveFromCart(id))
    decreases |state.items|
  {
    var items := state.items;
    if items != [] {
      var n := |items| - 1;
      var s' := state.(items := items[..n]);
      UpdateToZeroRemoves(s', id, q);
      assert SetQuantity(items, id, q)[..n] == SetQuantity(items[..n], id, q);
    }
  }

  /** Removing drops every line with the id and keeps the others, in order. */
  lemma RemoveDropsId(state: CartState, id: int)
    ensures SelectsInOrder(Reduce(state, RemoveFromCart(id)).items, state.items, NotId(id))
    ensures var r := Reduce(state, RemoveFromCart(id)).items;
      && (forall x :: x in r <==> x in state.items && x.id != id)
      && multiset(r) <= multiset(state.items)
      && Reduce(state, RemoveFromCart(id)).deliveryInfo == state.deliveryInfo
  {
    forall x ensures x in Filter(state.items, NotId(id)) <==> x in state.items && x.id != id {
      FilterMembership(state.items, NotId(id), x);
    }
    FilterSubMultiset(state.items, NotId(id));
    FilterSelectsInOrder(state.items, NotId(id));
  }

  /** Removing an id that is absent changes nothing. */
  lemma RemoveAbsentIsIdentity(state: CartState, id: int)
    requires !ContainsId(state.items, id)
    ensures Reduce(state, RemoveFromCart(id)) == state
  {
    FilterKeepsAll(state.items, NotId(id));
  }

  /** Clearing empties the items and keeps the delivery info; setting the info keeps the items. */
  lemma ClearAndSetInfo(state: CartState, info: DeliveryInfo)
    ensures Reduce(state, ClearCart) == CartState([], state.deliveryInfo)
    ensures Reduce(state, SetDeliveryInfo(info)) == CartState(state.items, info)
    ensures Subtotal(Reduce(state, ClearCart).items) == 0
    ensures DeliveryFee(Subtotal(Reduce(state, ClearCart).items)) == 0
  {
  }

  /** An action the reducer does not know returns the very same state. */
  lemma UnknownActionIsIdentity(state: CartState, kind: string)
    ensures Reduce(state, Other(kind)) == state
  {
  }

  /** With non-negative prices and positive quantities the subtotal is never negative. */
  lemma SubtotalNonNegative(items: seq<LineItem>)
    requires forall i :: 0 <= i < |items| ==> items[i].price >= 0 && items[i].quantity > 0
    ensures Subtotal(items) >= 0
    ensures ItemCount(items) >= |items|
  {
    SumNonNegative(items, LineTotal);
    CountAtLeastLength(items);
  }

  /**
   * With non-negative prices and positive quantities, the cart is charged the
   * delivery fee exactly when some line costs something.
   */
  lemma {:induction false} FeeChargedIff(items: seq<LineItem>)
    requires forall i :: 0 <= i < |items| ==> items[i].price >= 0 && items[i].quantity > 0
    ensures DeliveryFee(Subtotal(items)) == DELIVERY_FEE <==>
      exists i :: 0 <= i < |items| && items[i].price > 0
    ensures DeliveryFee(Subtotal(items)) == 0 <==>
      forall i :: 0 <= i < |items| ==> items[i].price == 0
    decreases |items|
  {
    if items != [] {
      var init := items[..|items| - 1];
      var last := items[|items| - 1];
      FeeChargedIff(init);
      SumNonNegative(init, LineTotal);
      assert Subtotal(items) == Subtotal(init) + last.price * last.quantity;
      if last.price > 0 {
        assert last.price * last.quantity > 0;
      }
      assert (exists i :: 0 <= i < |items| && items[i].price > 0) <==>
        (exists i :: 0 <= i < |init| && init[i].price > 0) || last.price > 0
      by {
        if exists i :: 0 <= i < |items| && items[i].price > 0 {
          var i :| 0 <= i < |items| && items[i].price > 0;
          if i < |init| { assert init[i] == items[i]; }
        }
        if exists i :: 0 <= i < |init| && init[i].price > 0 {
          var i :| 0 <= i < |init| && init[i].price > 0;
          assert items[i] == init[i];
        }
      }
    }
  }

  lemma {:induction false} CountAtLeastLength(items: seq<LineItem>)
    requires forall i :: 0 <= i < |items| ==> items[i].quantity > 0
    ensures ItemCount(items) >= |items|
    decreases |items|
  {
    if items != [] {
      CountAtLeastLength(items[..|items| - 1]);
    }
  }
}
