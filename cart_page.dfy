/**
 * The cart page's own list of lines: quantity changes that never go below
 * one, removal by id, and the totals with the page's fixed delivery fee.
 */
module CartPage {
  import opened Seqs
  import opened CartContext
  import Checkout

  /** The page's mock cart. */
  const INITIAL_ITEMS: seq<LineItem> := [
    LineItem(1, "Classic Beef Burger", 399, 2),
    LineItem(2, "French Fries", 149, 1)]

  /** The page's flat delivery fee. */
  const PAGE_DELIVERY_FEE: int := 99

  /** `updateQuantity`: ignored below one, otherwise sets the quantity of the lines with that id. */
  function UpdateQuantity(items: seq<LineItem>, id: int, newQuantity: int): seq<LineItem> {
    if newQuantity < 1 then items else SetQuantity(items, id, newQuantity)
  }

  /** `removeItem`: keeps the lines with another id. */
  function RemoveItem(items: seq<LineItem>, id: int): seq<LineItem> {
    Filter(items, NotId(id))
  }

  /** `total`: the subtotal plus the fixed fee. */
  function Total(items: seq<LineItem>): int {
    Subtotal(items) + PAGE_DELIVERY_FEE
  }

  /** Every line has a quantity of at least one. */
  predicate AllAtLeastOne(items: seq<LineItem>) {
    forall i :: 0 <= i < |items| ==> items[i].quantity >= 1
  }

  /**
   * A quantity below one changes nothing; otherwise exactly the lines with
   * that id take the new quantity, in place, and every other field and line
   * is kept.
   */
  lemma UpdateQuantityEffect(items: seq<LineItem>, id: int, newQuantity: int)
    ensures newQuantity < 1 ==> UpdateQuantity(items, id, newQuantity) == items
    ensures var r := UpdateQuantity(items, id, newQuantity);
      && |r| == |items|
      && forall i :: 0 <= i < |items| ==>
           && r[i].id == items[i].id && r[i].name == items[i].name && r[i].price == items[i].price
           && r[i].quantity == (if items[i].id == id && newQuantity >= 1 then newQuantity else items[i].quantity)
  {
  }

  /** Starting from quantities of at least one, updates and removals keep them so. */
  lemma QuantitiesStayPositive(items: seq<LineItem>, id: int, newQuantity: int)
    requires AllAtLeastOne(items)
    ensures AllAtLeastOne(UpdateQuantity(items, id, newQuantity))
    ensures AllAtLeastOne(RemoveItem(items, id))
  {
    var r := RemoveItem(items, id);
    forall i | 0 <= i < |r| ensures r[i].quantity >= 1 {
      assert r[i] in r;
    }
  }

  /** The mock cart has unique ids, and updating or removing keeps them unique. */
  lemma PageKeepsIdsUnique(items: seq<LineItem>, id: int, newQuantity: int)
    requires UniqueIds(items)
    ensures UniqueIds(UpdateQuantity(items, id, newQuantity))
    ensures UniqueIds(RemoveItem(items, id))
    ensures UniqueIds(INITIAL_ITEMS)
  {
    var r := UpdateQuantity(items, id, newQuantity);
    assert forall i :: 0 <= i < |r| ==> r[i].id == items[i].id;
    FilterKeepsIdsUnique(items, NotId(id));
  }

  /**
   * With unique ids, setting line `k` to a quantity of at least one moves the
   * subtotal by that line's price times the change.
   */
  lemma {:induction false} UpdateQuantitySubtotal(items: seq<LineItem>, k: nat, newQuantity: int)
    requires k < |items| && UniqueIds(items) && newQuantity >= 1
    ensures Subtotal(UpdateQuantity(items, items[k].id, newQuantity))
         == Subtotal(items) + items[k].price * (newQuantity - items[k].quantity)
  {
    var it := items[k];
    var r := UpdateQuantity(items, it.id, newQuantity);
    assert r == items[k := it.(quantity := newQuantity)];
    SumUpdate(items, k, it.(quantity := newQuantity), LineTotal);
    assert LineTotal(it.(quantity := newQuantity)) - LineTotal(it) == it.price * (newQuantity - it.quantity);
  }

  /**
   * Removal keeps exactly the lines with another id, in their order, and
   * takes exactly the totals of the removed lines off the subtotal.
   */
  lemma RemoveItemEffect(items: seq<LineItem>, id: int)
    ensures SelectsInOrder(RemoveItem(items, id), items, NotId(id))
    ensures forall x :: x in RemoveItem(items, id) <==> x in items && x.id != id
    ensures multiset(RemoveItem(items, id)) <= multiset(items)
    ensures Subtotal(RemoveItem(items, id)) == Subtotal(items) - Subtotal(Filter(items, HasId(id)))
  {
    forall x ensures x in RemoveItem(items, id) <==> x in items && x.id != id {
      FilterMembership(items, NotId(id), x);
    }
    FilterSubMultiset(items, NotId(id));
    FilterSelectsInOrder(items, NotId(id));
    SumSplit(items, HasId(id), NotId(id), LineTotal);
  }

  /** The mock cart is the one the checkout page summarises: 947 + 99 = 1046. */
  lemma MockCartMatchesCheckoutSummary()
    ensures Subtotal(INITIAL_ITEMS) == Checkout.SUMMARY_SUBTOTAL
    ensures PAGE_DELIVERY_FEE == Checkout.SUMMARY_DELIVERY_FEE
    ensures Total(INITIAL_ITEMS) == Checkout.SUMMARY_TOTAL
  {
    var first := INITIAL_ITEMS[..1];
    assert first[..0] == [];
    assert Subtotal(first) == Subtotal([]) + LineTotal(INITIAL_ITEMS[0]);
    assert Subtotal(INITIAL_ITEMS) == Subtotal(first) + LineTotal(INITIAL_ITEMS[1]);
  }
}
