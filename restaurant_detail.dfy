/**
 * The restaurant page: which restaurant the route id selects, the menu's
 * category filter, and the per-item quantity dictionary with the running
 * cart total recomputed after every change.
 */
module RestaurantDetail {
  import opened Wrappers
  import opened Seqs
  import opened Text

  /** A menu entry; `popular` is false where the source leaves it out. */
  datatype MenuItem = MenuItem(id: int, name: string, price: int, category: string, popular: bool)

  /** The page's fixed menu. */
  const MENU: seq<MenuItem> := [
    MenuItem(1, "Signature Dish", 899, "Main Course", true),
    MenuItem(2, "Special Platter", 1299, "Main Course", true),
    MenuItem(3, "Fresh Garden Salad", 349, "Appetizers", false),
    MenuItem(4, "Artisanal Dessert", 449, "Desserts", false)]

  // ---------------------------------------------------------------------
  // Selecting the restaurant

  /**
   * `restaurantsData[parseInt(id) - 1] || restaurantsData[0]`: the entry the
   * route id counts from one, else the first entry, else nothing.
   */
  function SelectRestaurant<R>(data: seq<R>, id: string): Option<R> {
    match ParseInt(id)
    case Some(n) =>
      if 1 <= n <= |data| then Some(data[n - 1])
      else if data != [] then Some(data[0]) else None
    case None => if data != [] then Some(data[0]) else None
  }

  /**
   * A route id that parses to `n` in `1..|data|` selects entry `n - 1`; any
   * other id, including one that does not parse, falls back to the first.
   */
  lemma SelectRestaurantCases<R>(data: seq<R>, id: string)
    ensures var r := SelectRestaurant(data, id);
      && (r.None? <==> data == [])
      && (ParseInt(id).Some? && 1 <= ParseInt(id).value <= |data| ==> r == Some(data[ParseInt(id).value - 1]))
      && (data != [] && !(ParseInt(id).Some? && 1 <= ParseInt(id).value <= |data|) ==> r == Some(data[0]))
  {
  }

  /** The route id `${n}` selects entry `n - 1` for every `n` in range. */
  lemma SelectByNumber<R>(data: seq<R>, n: nat)
    requires 1 <= n <= |data|
    ensures SelectRestaurant(data, NatToString(n)) == Some(data[n - 1])
  {
    ParseIntOfNatToString(n);
  }

  // ---------------------------------------------------------------------
  // The category filter

  const ALL_CATEGORIES: string := "all"
  const POPULAR: string := "Popular"

  function IsPopular(item: MenuItem): bool { item.popular }

  function InCategory(category: string): MenuItem -> bool {
    (item: MenuItem) => item.category == category
  }

  /** `filteredItems`. */
  function FilterMenu(menu: seq<MenuItem>, category: string): seq<MenuItem> {
    if category == ALL_CATEGORIES then menu
    else if category == POPULAR then Filter(menu, IsPopular)
    else Filter(menu, InCategory(category))
  }

  /**
   * `all` keeps the whole menu, `Popular` exactly the popular items, any
   * other value exactly the items of that category, each in menu order; the
   * result never holds more copies of an item than the menu.
   */
  lemma FilterMenuExact(menu: seq<MenuItem>, category: string)
    ensures category == ALL_CATEGORIES ==> FilterMenu(menu, category) == menu
    ensures category == POPULAR ==> SelectsInOrder(FilterMenu(menu, category), menu, IsPopular)
    ensures category != ALL_CATEGORIES && category != POPULAR ==>
      SelectsInOrder(FilterMenu(menu, category), menu, InCategory(category))
    ensures category == POPULAR ==>
      forall x :: x in FilterMenu(menu, category) <==> x in menu && x.popular
    ensures category != ALL_CATEGORIES && category != POPULAR ==>
      forall x :: x in FilterMenu(menu, category) <==> x in menu && x.category == category
    ensures multiset(FilterMenu(menu, category)) <= multiset(menu)
  {
    forall x ensures x in Filter(menu, IsPopular) <==> x in menu && x.popular {
      FilterMembership(menu, IsPopular, x);
    }
    forall x ensures x in Filter(menu, InCategory(category)) <==> x in menu && x.category == category {
      FilterMembership(menu, InCategory(category), x);
    }
    FilterSubMultiset(menu, IsPopular);
    FilterSubMultiset(menu, InCategory(category));
    FilterSelectsInOrder(menu, IsPopular);
    FilterSelectsInOrder(menu, InCategory(category));
  }

  // ---------------------------------------------------------------------
  // Quantities and the cart total

  /**
   * One property of the quantities object. Its key is the item id as the
   * object stores it, a string.
   */
  datatype Entry = Entry(key: string, qty: int)

  /** The object's properties in insertion order; a key occurs at most once. */
  type Quantities = seq<Entry>

  predicate UniqueKeys(q: Quantities) {
    forall i, j :: 0 <= i < j < |q| ==> q[i].key != q[j].key
  }

  function HasKey(key: string): Entry -> bool { (e: Entry) => e.key == key }

  /** `prev[itemId] || 0`. */
  function QuantityOf(q: Quantities, key: string): int {
    match FindIndex(q, HasKey(key))
    case Some(k) => q[k].qty
    case None => 0
  }

  /**
   * `{ ...prev, [key]: n }`: an existing property is overwritten, a new one
   * is added. Where a new key lands in the object's own ordering (integer-like
   * keys are ordered numerically) is not modelled: it is appended here, and
   * only the order-independent total is read.
   */
  function Put(q: Quantities, key: string, n: int): Quantities {
    match FindIndex(q, HasKey(key))
    case Some(k) => q[k := Entry(key, n)]
    case None => q + [Entry(key, n)]
  }

  function HasItemId(id: int): MenuItem -> bool { (item: MenuItem) => item.id == id }

  /** `menuItems.find(item => item.id === id)`. */
  function FindItem(menu: seq<MenuItem>, id: int): Option<MenuItem> {
    match FindIndex(menu, HasItemId(id))
    case Some(k) => Some(menu[k])
    case None => None
  }

  /** One property's share of the total: price times quantity for a menu item, else nothing. */
  function EntryValue(menu: seq<MenuItem>): Entry -> int {
    (e: Entry) =>
      match ParseInt(e.key)
      case None => 0
      case Some(id) =>
        match FindItem(menu, id)
        case Some(item) => item.price * e.qty
        case None => 0
  }

  /** The recomputed `cartTotal`. */
  function CartTotal(menu: seq<MenuItem>, q: Quantities): int {
    Sum(q, EntryValue(menu))
  }

  /** The price an id contributes per unit: its menu item's price, or nothing. */
  function UnitPrice(menu: seq<MenuItem>, id: int): int {
    match FindItem(menu, id)
    case Some(item) => item.price
    case None => 0
  }

  /** What one press of a quantity button produces. */
  datatype QuantityUpdate = QuantityUpdate(quantities: Quantities, cartTotal: int, toast: Option<string>)

  /**
   * `updateQuantity(itemId, delta)`: the new quantity is clamped at zero and
   * stored under the item's key, the total is recomputed over every stored
   * property, and an increase raises the "Added ... to cart" toast.
   */
  function UpdateQuantity(menu: seq<MenuItem>, q: Quantities, itemId: nat, delta: int): QuantityUpdate
    requires delta > 0 ==> FindItem(menu, itemId).Some?
  {
    var key := NatToString(itemId);
    var n := QuantityOf(q, key) + delta;
    var q' := Put(q, key, if n < 0 then 0 else n);
    QuantityUpdate(
      q',
      CartTotal(menu, q'),
      if delta > 0 then Some("Added " + FindItem(menu, itemId).value.name + " to cart") else None)
  }

  /** Distinct ids are stored under distinct keys. */
  lemma KeysDistinct(a: nat, b: nat)
    requires a != b
    ensures NatToString(a) != NatToString(b)
  {
    ParseIntOfNatToString(a);
    ParseIntOfNatToString(b);
  }

  /** Reading back what was put, and every other key as it was. */
  lemma PutEffect(q: Quantities, key: string, n: int)
    requires UniqueKeys(q)
    ensures UniqueKeys(Put(q, key, n))
    ensures QuantityOf(Put(q, key, n), key) == n
    ensures forall other :: other != key ==> QuantityOf(Put(q, key, n), other) == QuantityOf(q, other)
  {
    var q' := Put(q, key, n);
    match FindIndex(q, HasKey(key))
    case Some(k) =>
      assert q'[k] == Entry(key, n);
      forall other | other != key ensures QuantityOf(q', other) == QuantityOf(q, other) {
        match FindIndex(q, HasKey(other))
        case Some(j) =>
          assert q'[j] == q[j];
        case None =>
          assert forall j :: 0 <= j < |q'| ==> q'[j].key != other;
      }
    case None =>
      assert q'[|q|] == Entry(key, n);
      forall other | other != key ensures QuantityOf(q', other) == QuantityOf(q, other) {
        match FindIndex(q, HasKey(other))
        case Some(j) =>
          assert q'[j] == q[j];
        case None =>
          assert forall j :: 0 <= j < |q'| ==> q'[j].key != other;
      }
  }

  /**
   * A press sets the item's quantity to `max(0, previous + delta)` (never
   * below zero, so a decrement at zero stays at zero), leaves every other
   * item's quantity as it was, and keeps the keys unique.
   */
  lemma UpdateQuantityEffect(menu: seq<MenuItem>, q: Quantities, itemId: nat, delta: int)
    requires UniqueKeys(q)
    requires delta > 0 ==> FindItem(menu, itemId).Some?
    ensures var r := UpdateQuantity(menu, q, itemId, delta);
      var before := QuantityOf(q, NatToString(itemId));
      && UniqueKeys(r.quantities)
      && QuantityOf(r.quantities, NatToString(itemId)) == (if before + delta < 0 then 0 else before + delta)
      && QuantityOf(r.quantities, NatToString(itemId)) >= 0
      && (forall other: nat :: other != itemId ==>
            QuantityOf(r.quantities, NatToString(other)) == QuantityOf(q, NatToString(other)))
  {
    var key := NatToString(itemId);
    var n := QuantityOf(q, key) + delta;
    PutEffect(q, key, if n < 0 then 0 else n);
    forall other: nat | other != itemId
      ensures NatToString(other) != key
    {
      KeysDistinct(other, itemId);
    }
  }

  /** Storing `n` under `key` swaps that key's share of the total for the new one. */
  lemma PutTotal(menu: seq<MenuItem>, q: Quantities, key: string, n: int)
    requires UniqueKeys(q)
    ensures CartTotal(menu, Put(q, key, n))
         == CartTotal(menu, q) - EntryValue(menu)(Entry(key, QuantityOf(q, key))) + EntryValue(menu)(Entry(key, n))
  {
    var e := Entry(key, n);
    match FindIndex(q, HasKey(key))
    case Some(k) =>
      assert q[k] == Entry(key, QuantityOf(q, key));
      SumUpdate(q, k, e, EntryValue(menu));
    case None =>
      SumConcat(q, [e], EntryValue(menu));
      assert Sum([e], EntryValue(menu)) == Sum([], EntryValue(menu)) + EntryValue(menu)(e);
  }

  /** The share of an item's key is its unit price times the quantity. */
  lemma ItemShare(menu: seq<MenuItem>, itemId: nat, x: int)
    ensures EntryValue(menu)(Entry(NatToString(itemId), x)) == UnitPrice(menu, itemId) * x
  {
    ParseIntOfNatToString(itemId);
  }

  /**
   * The recomputed total swaps the item's old share (price times old
   * quantity) for its new one; ids outside the menu add nothing.
   */
  lemma UpdateQuantityTotal(menu: seq<MenuItem>, q: Quantities, itemId: nat, delta: int)
    requires UniqueKeys(q)
    requires delta > 0 ==> FindItem(menu, itemId).Some?
    ensures var r := UpdateQuantity(menu, q, itemId, delta);
      var key := NatToString(itemId);
      r.cartTotal == CartTotal(menu, q)
        - UnitPrice(menu, itemId) * QuantityOf(q, key) + UnitPrice(menu, itemId) * QuantityOf(r.quantities, key)
  {
    var key := NatToString(itemId);
    var before := QuantityOf(q, key);
    var n := before + delta;
    var m := if n < 0 then 0 else n;
    PutEffect(q, key, m);
    PutTotal(menu, q, key, m);
    ItemShare(menu, itemId, before);
    ItemShare(menu, itemId, m);
  }

  /** The toast appears exactly on an increase, naming the item added. */
  lemma ToastOnlyWhenAdding(menu: seq<MenuItem>, q: Quantities, itemId: nat, delta: int)
    requires delta > 0 ==> FindItem(menu, itemId).Some?
    ensures var r := UpdateQuantity(menu, q, itemId, delta);
      && (r.toast.Some? <==> delta > 0)
      && (delta > 0 ==> r.toast.value == "Added " + FindItem(menu, itemId).value.name + " to cart")
  {
  }
}
