# Food-delivery demo: order service, cart, checkout and listing pages in Dafny

This project models the logic of a small food-delivery web application and proves properties of that logic.

**The simulated order backend.** `OrderService` keeps the list of orders and a persisted id counter.

- Placing an order gives it the next id and five fixed tracking steps: confirmed, preparing, ready, out for delivery, delivered.
- A status update completes the first step that has the new status.
- A cancellation is allowed only from `confirmed` or `preparing`. It appends a `cancelled` step.
- A per-order timer drives every new order through the four remaining statuses, one every ten seconds.

**The client-side pages.**

- The cart reducer: add, update quantity, remove, clear, set delivery info. Also its totals.
- The checkout form: its per-step validator, the two-step wizard and the error clearing on input.
- The cart page's local item list.
- The restaurant dashboard: the status colours, the status filter, the counts, the revenue and the forward action of each order card.
- The restaurant page: which restaurant the route id opens, the menu filter, and the quantity dictionary with its running total.
- The home page: the cuisine filter, three sort orders, the cuisine buttons, the carousel index and the link on each restaurant card.

Modules follow the source files:

| module | models |
|---|---|
| `OrderModel`, `OrderStore` | `src/services/orderService.js` |
| `CartContext` | `src/context/CartContext.js` |
| `Checkout` | `src/pages/Checkout.js` |
| `CartPage` | `src/pages/Cart.js` |
| `Dashboard` | `src/pages/RestaurantDashboard.js` |
| `RestaurantDetail` | `src/pages/RestaurantDetail.js` |
| `Home` | `src/pages/Home.js` |

Four shared modules support them:

- Wrappers: an `Option` type.
- Seqs: `filter`, `reduce` and `findIndex` over sequences.
- Sorting: the stable comparison sort behind `Array.prototype.sort`, both as a function and in place on an array.
- Text: the JavaScript string operations the pages use. These are `trim`, `\s`, ASCII `toLowerCase`, `includes`, `split(',')[0]`, `parseInt` and number-to-string.

Where the source mutates an object, the model is a class whose methods reassign its fields:

- `OrderService` holds the order list, the counter and the timers.
- `CheckoutPage` holds the step, the form and the errors.

Each method is proved against a pure function of the old state (`OrderStore.Place`, `OrderStore.UpdateStatus`, `Checkout.StepErrors`, …). The properties are proved about those functions. `getAllOrders` and `filterRestaurants` copy the list into an array and sort it in place. Their results are tied to the functional sort.

Time is an integer count of milliseconds. The timers are modelled as the sequence of callbacks they would run (`OrderStore.Tick`), and the caller chooses the interleaving.

The model follows the code, including where it does not keep properties that the order pages appear to rely on:

- **Status and steps.** One might expect an order's status to always be that of its last completed step. The code does not keep this:
  - `updateOrderStatus` accepts a status further ahead, leaving a gap (`OrderModel.SkippingAheadLeavesGap`);
  - it also accepts an earlier status, leaving a later step completed (`OrderModel.MovingBackKeepsLaterStep`);
  - the timer keeps firing after a cancellation (first finding below).
- **Terminal statuses.** Only `cancelOrder` treats `delivered` and `cancelled` as final; `updateOrderStatus` does not.
- **Unique ids.** The caller's data is spread after the fresh id, so a caller-supplied `id` replaces it (`OrderStore.CallerIdOverridesFreshId`).

## Model

| member | source | states |
|---|---|---|
| OrderModel.NewOrder | src/services/orderService.js:10-49 | the order `placeOrder` builds; its shape is stated by `NewOrderShape` and `NewOrderId` |
| OrderModel.MarkStep | src/services/orderService.js:81-85 | completing the first step with a status; stated by `MarkStepEffect` |
| OrderModel.ApplyStatus | src/services/orderService.js:76-85 | `updateOrderStatus` on a found order; stated by `ApplyStatusEffect` and `ApplyStatusWellFormed` |
| OrderModel.ApplyCancel | src/services/orderService.js:122-129 | `cancelOrder` on a cancellable order; stated by `ApplyCancelEffect` |
| OrderModel.NewOrderShape | src/services/orderService.js:10-49 | a new order is `confirmed`, timed at placement with the estimate 45 minutes later, carries the caller's items, delivery details, restaurant, subtotal, fee, tax and total unchanged, and has exactly the five steps in order with only the first completed and timestamped (one completed step, well-formed) |
| OrderModel.NewOrderId | src/services/orderService.js:11-13 | the fresh id is used unless the caller's data brings its own `id`, which wins |
| OrderModel.MarkStepEffect | src/services/orderService.js:81-85 | the first step with the new status, and only it, becomes completed with the current time; with no such step nothing changes |
| OrderModel.ApplyStatusEffect | src/services/orderService.js:76-85 | the status is set unconditionally; a status without a step (e.g. `cancelled`) leaves the steps untouched |
| OrderModel.ApplyStatusWellFormed | src/services/orderService.js:76-85 | a status update keeps the step layout, the completed-iff-timestamped rule and the estimate |
| OrderModel.ApplyCancelEffect | src/services/orderService.js:122-129 | cancelling sets `cancelled`, keeps every earlier step and appends one completed, timestamped `cancelled` step; the result is well-formed and not cancellable again |
| OrderModel.SkippingAheadLeavesGap | src/services/orderService.js:75-91 | moving a new order straight to `ready` completes `ready` while `preparing` stays open: transitions are not checked |
| OrderModel.MovingBackKeepsLaterStep | src/services/orderService.js:75-91 | moving an order from `ready` back to `preparing` sets `preparing` and completes its step at that time while `ready` stays completed |
| OrderStore.Place | src/services/orderService.js:9-62 | `placeOrder` as a function of the store; stated by `PlaceEffect`, `PlaceConsistent` and `PlaceAllIdsIncrease` |
| OrderStore.UpdateStatus | src/services/orderService.js:75-91 | `updateOrderStatus` as a function of the store; stated by `UpdateStatusEffect` and `UpdateStatusConsistent` |
| OrderStore.Cancel | src/services/orderService.js:120-134 | `cancelOrder` as a function of the store; stated by `CancelEffect`, `CancelConsistent` and `CancelTwiceFails` |
| OrderStore.Tick | src/services/orderService.js:98-105 | one firing of the progress timer; stated by `TickAdvances`, `TickConsistent`, `SimulationProgresses` and `SimulationStops` |
| OrderStore.GuardedTick | src/services/orderService.js:98-105 | the firing corrected to leave cancelled and delivered orders alone; stated by `GuardedTickKeepsTerminal`, `CancelledStaysCancelled` and `GuardedTickRespectsCancel` |
| OrderStore.Lookup | src/services/orderService.js:65-67 | an order is found exactly when one with that id exists, and the one found is the first stored order with that id |
| OrderStore.PlaceEffect | src/services/orderService.js:9-62 | the id is the previous counter plus one and becomes the counter; exactly one confirmed order is appended at the end, the old orders are unchanged, and its timer starts at step 0 |
| OrderStore.FirstIdIs1001 | src/services/orderService.js:5-10 | with nothing stored the counter starts at 1000, so the first id is 1001 |
| OrderStore.PlaceConsistent | src/services/orderService.js:9-62 | placing keeps every order well-formed and every timer within its steps |
| OrderStore.PlaceAllIdsIncrease | src/services/orderService.js:10 | successive placements return ids counter+1, counter+2, … which strictly increase |
| OrderStore.CallerIdOverridesFreshId | src/services/orderService.js:11-13 | a caller-supplied id replaces the fresh one, so the returned id finds no order |
| OrderStore.UpdateStatusEffect | src/services/orderService.js:75-91 | succeeds iff some order has the id; on failure nothing changes; on success only the first such order changes, to the new status, and counter and timers are kept |
| OrderStore.UpdateStatusConsistent | src/services/orderService.js:75-91 | a status update keeps the store consistent |
| OrderStore.CancelEffect | src/services/orderService.js:120-134 | succeeds iff the first order with the id is confirmed or preparing; on failure nothing changes; on success the first order with the id, and only it, is cancelled; the counter and the timers are never touched |
| OrderStore.CancelConsistent | src/services/orderService.js:120-134 | cancelling keeps the store consistent |
| OrderStore.CancelTwiceFails | src/services/orderService.js:122 | a second cancellation of the same order fails and changes nothing |
| OrderStore.NewerFirstIsTotalPreorder | src/services/orderService.js:71 | the newest-first comparator is total and transitive |
| OrderStore.AllOrdersSorted | src/services/orderService.js:70-72 | the sorted list has non-increasing order times, is a permutation of the stored orders, and keeps orders with equal times in stored order |
| OrderStore.SortConsistent | src/services/orderService.js:70-72 | re-sorting the stored list keeps the store consistent |
| OrderStore.RestaurantOrdersExact | src/services/orderService.js:115-117 | exactly the stored orders of that restaurant, in stored order, none added or duplicated |
| OrderStore.TickConsistent | src/services/orderService.js:98-105 | one timer firing keeps the store consistent |
| OrderStore.TickAdvances | src/services/orderService.js:98-102 | the n-th firing (steps left) applies the n-th progress status, completes step n at that time, keeps steps before n, advances the timer to n and changes no other order |
| OrderStore.SimulationProgresses | src/services/orderService.js:94-106 | left alone, the n-th firing sets the n-th of `preparing`, `ready`, `out_for_delivery`, `delivered` and completes steps 1..n at 10-second intervals |
| OrderStore.SimulationStops | src/services/orderService.js:102-104 | after the fourth status the next firing only clears the timer, and later firings change nothing |
| OrderStore.CancelledOrderIsRevived | src/services/orderService.js:94-106 | a cancelled order is set back to `preparing` by its pending timer (as written) |
| OrderStore.GuardedTickKeepsTerminal | src/services/orderService.js:98-105 | a firing that checks the order first never changes a cancelled or delivered order (corrected) |
| OrderStore.CancelledStaysCancelled | src/services/orderService.js:98-105 | any sequence of checked firings leaves a cancelled order exactly as it was (corrected) |
| OrderStore.GuardedTickRespectsCancel | src/services/orderService.js:94-106 | with the check, the cancelled order stays cancelled and its timer is cleared (corrected) |
| OrderStore.OrderService.constructor | src/services/orderService.js:3-6 | with nothing stored: no orders, counter 1000, no timers |
| OrderStore.OrderService.Restore | src/services/orderService.js:3-6 | a stored snapshot is restored as orders and counter with no timers, saving it again gives the same snapshot, and a snapshot of well-formed orders gives a service that keeps the invariant |
| OrderStore.OrderService.SaveToStorage | src/services/orderService.js:109-112 | the saved snapshot is the current orders and counter |
| OrderStore.OrderService.PlaceOrder | src/services/orderService.js:9-62 | the new state and id are those of `Place`; the result reports success with the fixed message and id = old counter + 1 |
| OrderStore.OrderService.GetOrder | src/services/orderService.js:65-67 | found iff a stored order has the id, and the order found is the first stored order with it |
| OrderStore.OrderService.GetAllOrders | src/services/orderService.js:70-72 | the stored list itself is re-sorted newest first, stably, and returned |
| OrderStore.OrderService.UpdateOrderStatus | src/services/orderService.js:75-91 | new state and result are those of `UpdateStatus` |
| OrderStore.OrderService.ProgressTick | src/services/orderService.js:98-105 | new state is that of one timer firing |
| OrderStore.OrderService.GetRestaurantOrders | src/services/orderService.js:115-117 | exactly the stored orders of that restaurant, in stored order |
| OrderStore.OrderService.CancelOrder | src/services/orderService.js:120-134 | new state and result are those of `Cancel` |
| CartContext.Reduce | src/context/CartContext.js:5-55 | the cart reducer; stated action by action by the `CartContext` lemmas below |
| CartContext.Subtotal | src/context/CartContext.js:71 | the sum of price times quantity; stated by `AddToCartTotals` and `SubtotalNonNegative` |
| CartContext.ItemCount | src/context/CartContext.js:75 | the sum of quantities; stated by `AddToCartTotals` and `SubtotalNonNegative` |
| CartContext.DeliveryFee | src/context/CartContext.js:72 | the fee is 150 exactly when the subtotal is positive, else 0; its cart-level partner is `FeeChargedIff` |
| CartContext.FeeChargedIff | src/context/CartContext.js:71-72 | with non-negative prices and positive quantities, the fee is 150 exactly when some line has a positive price, and 0 exactly when every line is free |
| CartContext.AddExistingMerges | src/context/CartContext.js:7-17 | adding a present id keeps the lines and adds the payload quantity to the matching line only |
| CartContext.AddNewAppends | src/context/CartContext.js:19-22 | adding a new id appends the payload at the end |
| CartContext.AddKeepsIdsUnique | src/context/CartContext.js:7-22 | adding keeps line ids unique |
| CartContext.AddToCartTotals | src/context/CartContext.js:7-22 | with unique ids, adding raises the item count by the payload quantity and the subtotal by the existing line's price (or the payload's, when new) times that quantity |
| CartContext.ReduceKeepsIdsUnique | src/context/CartContext.js:5-55 | the initial cart has unique ids and each of the six actions keeps them unique, so every reachable cart has unique ids |
| CartContext.AddCountsEveryMatch | src/context/CartContext.js:9-17 | for any cart, adding a present id raises the item count by the payload quantity times the number of lines with that id |
| CartContext.UpdateQuantityPrunes | src/context/CartContext.js:24-32 | the result is exactly the updated lines with a positive quantity, in their order; the id's line carries the new quantity and stays when it is positive; other lines survive iff they had a positive quantity |
| CartContext.UpdateToZeroRemoves | src/context/CartContext.js:24-38 | on a cart of positive quantities, updating to zero or less is the same as removing the id |
| CartContext.RemoveDropsId | src/context/CartContext.js:34-38 | exactly the lines with other ids remain, in their order, none added |
| CartContext.RemoveAbsentIsIdentity | src/context/CartContext.js:34-38 | removing an absent id leaves the state unchanged |
| CartContext.ClearAndSetInfo | src/context/CartContext.js:40-50 | clearing empties the items and keeps the delivery info (then subtotal and fee are 0); setting the info replaces only it |
| CartContext.UnknownActionIsIdentity | src/context/CartContext.js:52-53 | an unknown action returns the state unchanged |
| CartContext.SubtotalNonNegative | src/context/CartContext.js:71-75 | with non-negative prices and positive quantities the subtotal is non-negative and the item count at least the number of lines |
| Checkout.FieldError | src/pages/Checkout.js:58-74 | the check of one card field; stated by `FieldErrorCases` and the three `…ValidIff` lemmas |
| Checkout.StepErrors | src/pages/Checkout.js:45-79 | the errors `validateStep` collects; stated by `Step1ValidIff`, `Step2CardValidIff`, `OtherStepsAlwaysPass` and `BlankReportsRequired` |
| Checkout.FieldErrorCases | src/pages/Checkout.js:58-74 | a card field has no error iff it is non-blank and well formed; blank gives the "required" message, otherwise malformed gives the "invalid" one |
| Checkout.RequiredErrorCases | src/pages/Checkout.js:49-54 | an address/city error occurs iff the trimmed field is empty, and is the "required" message |
| Checkout.BlankHasNoContent | src/pages/Checkout.js:58-60 | a blank card number strips to the empty string, so the "required" branch comes first |
| Checkout.CardNumberValidIff | src/pages/Checkout.js:58-62 | the card number passes iff, without whitespace, it is exactly 16 ASCII digits |
| Checkout.ExpiryValidIff | src/pages/Checkout.js:64-68 | the expiry passes iff it is two digits, `/`, two digits; month 13 passes too |
| Checkout.CvcValidIff | src/pages/Checkout.js:70-74 | the CVC passes iff it is 3 or 4 digits |
| Checkout.Step1ValidIff | src/pages/Checkout.js:48-55 | step 1 passes iff address and city are not blank, and only those two can be reported |
| Checkout.Step2CardValidIff | src/pages/Checkout.js:57-78 | step 2 with card payment passes iff all three card fields are well formed |
| Checkout.OtherStepsAlwaysPass | src/pages/Checkout.js:45-79 | any other step, or step 2 without card payment, reports no error |
| Checkout.BlankReportsRequired | src/pages/Checkout.js:58-74 | each blank card field is reported with its "required" message |
| Checkout.StepStaysInRange | src/pages/Checkout.js:81-89 | pressing only the buttons shown (Back when step > 1, Next when step < 2) keeps the step within 1..2 |
| Checkout.CheckoutPage.constructor | src/pages/Checkout.js:6-20 | the page starts at step 1 with the initial form and no errors |
| Checkout.CheckoutPage.ValidateStep | src/pages/Checkout.js:45-79 | the errors become exactly the step's errors, the result is true iff there are none, and step and form are kept |
| Checkout.CheckoutPage.HandleNext | src/pages/Checkout.js:81-85 | validates the current step and advances by one exactly when it passes |
| Checkout.CheckoutPage.HandleBack | src/pages/Checkout.js:87-89 | goes back one step and changes nothing else |
| Checkout.CheckoutPage.HandleChange | src/pages/Checkout.js:30-43 | the named field takes the event's value (the checked flag for the checkbox); its error is blanked only when it was non-empty; other errors and the step are kept |
| CartPage.UpdateQuantity | src/pages/Cart.js:26-33 | the page's quantity update; stated by `UpdateQuantityEffect` and `UpdateQuantitySubtotal` |
| CartPage.RemoveItem | src/pages/Cart.js:35-37 | the page's removal; stated by `RemoveItemEffect` |
| CartPage.Total | src/pages/Cart.js:39-41 | subtotal plus the fixed fee of 99; stated by `MockCartMatchesCheckoutSummary` |
| CartPage.UpdateQuantityEffect | src/pages/Cart.js:26-33 | a quantity below 1 changes nothing; otherwise exactly the lines with that id take the new quantity, all else kept |
| CartPage.QuantitiesStayPositive | src/pages/Cart.js:26-37 | updating and removing keep every quantity at least 1 |
| CartPage.PageKeepsIdsUnique | src/pages/Cart.js:7-37 | the mock cart has unique ids, and updating a quantity or removing a line keeps them unique |
| CartPage.UpdateQuantitySubtotal | src/pages/Cart.js:26-39 | with unique ids, the subtotal changes by the line's price times the quantity change |
| CartPage.RemoveItemEffect | src/pages/Cart.js:35-39 | exactly the lines with other ids remain, in their order, and the subtotal drops by the removed lines' amount |
| CartPage.MockCartMatchesCheckoutSummary | src/pages/Cart.js:7-41 | the initial cart's subtotal 947, fee 99 and total 1046 equal the checkout page's fixed summary |
| Dashboard.StatusColor | src/pages/RestaurantDashboard.js:28-38 | the badge colour; stated by `StatusColorDefault` and `StatusColorsDistinct` |
| Dashboard.FilterOrders | src/pages/RestaurantDashboard.js:40-43 | the status filter; stated by `FilterOrdersExact` |
| Dashboard.Stats | src/pages/RestaurantDashboard.js:45-53 | the six status counts; stated by `StatsCountStatuses`, `ActiveCountIsActiveOrders` and `StatsCoverAllListed` |
| Dashboard.TotalRevenue | src/pages/RestaurantDashboard.js:55-57 | the delivered revenue; stated by `RevenueCountsDelivered` and `PlacingKeepsRevenue` |
| Dashboard.NextAction | src/pages/RestaurantDashboard.js:187-221 | the button a card shows; stated by `NextActionIsNextStep` and `ActionRevenue` |
| Dashboard.StatusColorDefault | src/pages/RestaurantDashboard.js:28-38 | a status gets the grey default iff it is not one of the six listed |
| Dashboard.StatusColorsDistinct | src/pages/RestaurantDashboard.js:28-38 | the six listed statuses get six different colours |
| Dashboard.FilterOrdersExact | src/pages/RestaurantDashboard.js:40-43 | `all` shows every order; another filter shows exactly the orders with that status, in list order |
| Dashboard.StatsCountStatuses | src/pages/RestaurantDashboard.js:45-53 | each count is the number of orders with that status, and total is the list length |
| Dashboard.ActiveCountIsActiveOrders | src/pages/RestaurantDashboard.js:45-53 | the Active Orders card counts exactly the confirmed, preparing, ready and out-for-delivery orders; with delivered and cancelled it counts every listed order |
| Dashboard.StatsCoverAllListed | src/pages/RestaurantDashboard.js:45-53 | when every status is listed, the six counts add up to the total |
| Dashboard.RevenueCountsDelivered | src/pages/RestaurantDashboard.js:55-57 | revenue is the sum over all orders of the total of each delivered order |
| Dashboard.PlacingKeepsRevenue | src/pages/RestaurantDashboard.js:55-57 | placing an order leaves the revenue unchanged |
| Dashboard.NextActionIsNextStep | src/pages/RestaurantDashboard.js:187-221 | a card offers an action iff its status is one of the first four steps, and the action is the next step |
| Dashboard.ActionRevenue | src/pages/RestaurantDashboard.js:187-221 | for a card whose order is the first stored with its id, pressing its button raises the revenue by that order's total iff it marks the order delivered, else leaves it |
| Dashboard.PressOnShadowedCard | src/services/orderService.js:75-79 | for a card whose order comes after another with the same id, the button updates the first order with that id (at or before the earlier one) and leaves the card's own order unchanged |
| RestaurantDetail.SelectRestaurant | src/pages/RestaurantDetail.js:36 | the route lookup with its fallback; stated by `SelectRestaurantCases` and `SelectByNumber` |
| RestaurantDetail.FilterMenu | src/pages/RestaurantDetail.js:124-129 | the category filter; stated by `FilterMenuExact` |
| RestaurantDetail.UpdateQuantity | src/pages/RestaurantDetail.js:47-53 | the quantity dictionary update; stated by `UpdateQuantityEffect` |
| RestaurantDetail.CartTotal | src/pages/RestaurantDetail.js:56-60 | the running total over the dictionary; stated by `UpdateQuantityTotal` |
| RestaurantDetail.SelectRestaurantCases | src/pages/RestaurantDetail.js:36 | a route id parsing to n in 1..length opens entry n-1; any other id opens the first entry; nothing only when there is no data |
| RestaurantDetail.SelectByNumber | src/pages/RestaurantDetail.js:36 | the route id written as the number n opens entry n-1 |
| RestaurantDetail.FilterMenuExact | src/pages/RestaurantDetail.js:124-129 | `all` shows the whole menu, `Popular` exactly the popular items, another category exactly its items, each in menu order |
| RestaurantDetail.KeysDistinct | src/pages/RestaurantDetail.js:53 | different item ids give different dictionary keys |
| RestaurantDetail.PutEffect | src/pages/RestaurantDetail.js:53 | setting a key gives it the new quantity, keeps keys unique and leaves every other key |
| RestaurantDetail.UpdateQuantityEffect | src/pages/RestaurantDetail.js:51-53 | the item's quantity becomes the old one plus the change, clamped at 0; other items keep theirs |
| RestaurantDetail.UpdateQuantityTotal | src/pages/RestaurantDetail.js:51-60 | the new total is the old total with this item's amount recomputed at its new quantity |
| RestaurantDetail.ToastOnlyWhenAdding | src/pages/RestaurantDetail.js:62-69 | a toast appears iff the change is positive, naming the item added |
| Home.FilterCuisine | src/pages/Home.js:67-74 | the cuisine filter; stated by `FilterCuisineExact` |
| Home.SortRestaurants | src/pages/Home.js:77-97 | the sort by the chosen key; stated by `SortIsPermutation`, `UnknownSortKeepsOrder` and the three `…SortOrdered` lemmas |
| Home.Cuisines | src/pages/Home.js:49-51 | the cuisine buttons; stated by `CuisinesSpec`, `CuisinesDistinct` and `CapitalSortsBeforeAll` |
| Home.NextSlide | src/pages/Home.js:43 | the carousel step; stated by `SlideCycles` and `NextSlideInRange` |
| Home.CardLink | src/pages/Home.js:180 | the card link as written; stated by `CardOpensPrevious` and `SecondCardOpensWrongRestaurant` |
| Home.FilterCuisineExact | src/pages/Home.js:67-74 | `all` keeps the list; another choice keeps exactly the restaurants whose lowercased cuisine contains the lowercased choice, in their order, none added or duplicated |
| Home.FilterRestaurants | src/pages/Home.js:66-100 | the result is the filtered copy sorted by the chosen comparator; it only holds restaurants of the input that match the choice |
| Home.SortIsPermutation | src/pages/Home.js:77-97 | every sort key, and the default branch, only reorders |
| Home.UnknownSortKeepsOrder | src/pages/Home.js:95-96 | an unknown sort key leaves the order unchanged |
| Home.RatingSortOrdered | src/pages/Home.js:78-80 | ratings come out non-increasing, and equal ratings keep their order |
| Home.DeliveryTimeSortOrdered | src/pages/Home.js:81-87 | when every delivery time starts with a number, those numbers come out ascending |
| Home.MinOrderSortOrdered | src/pages/Home.js:88-94 | when every minimum order has a digit, the numbers its digits spell come out ascending |
| Home.MinOrderOfLabelledAmount | src/pages/Home.js:90-92 | a digit-free label followed by a number (such as "Rs. 150") sorts by that number |
| Home.DedupSpec | src/pages/Home.js:49 | the set keeps every segment once, adds none |
| Home.CuisinesSpec | src/pages/Home.js:49-51 | the buttons contain `all` and exactly the trimmed first comma segments of the cuisines, in default string order; every other button is the segment of some restaurant's cuisine |
| Home.SegmentsFrom | src/pages/Home.js:49-50 | a string is a segment exactly when it is the trimmed first comma segment of some restaurant's cuisine |
| Home.CuisinesDistinct | src/pages/Home.js:49-51 | no button appears twice, provided no segment is itself `all` |
| Home.CapitalSortsBeforeAll | src/pages/Home.js:49-51 | a cuisine `BBQ` sorts before `all`, so `all` is not necessarily first |
| Home.SlideCycles | src/pages/Home.js:41-46 | after n advances from slide 0 the slide is n mod 3, always one of the three, cycling every 3 |
| Home.NextSlideInRange | src/pages/Home.js:43 | from any slide in range (as a dot click sets) the next is in range, wrapping from 2 to 0 |
| Home.CardOpensPrevious | src/pages/Home.js:177-180 | as written, card i ≥ 1 of the unfiltered list opens restaurant i-1 and card 0 opens restaurant 0 |
| Home.SecondCardOpensWrongRestaurant | src/pages/Home.js:180 | as written, with two different restaurants the second card opens the first |
| Home.CorrectedCardOpensItsRestaurant | src/pages/Home.js:177-180 | corrected, every card of the filtered and sorted list opens its own restaurant |
| Seqs.FilterSelectsInOrder | src/pages/RestaurantDashboard.js:40-43 | `filter` keeps exactly the elements that pass, at strictly increasing positions of the input, so in their order |
| Seqs.SelectsInOrderIsFilter | src/pages/RestaurantDashboard.js:40-43 | any sequence picked that way is the filter's result: the description determines it |
| Sorting.SortPermutes | src/services/orderService.js:71 | `sort` returns a permutation of its input |
| Sorting.SortSorted | src/services/orderService.js:71 | with a consistent comparator the result is in order |
| Sorting.SortStable | src/services/orderService.js:71 | elements that compare equal keep their input order |
| Sorting.SortAgrees | src/pages/Home.js:81-94 | two comparators that agree on the elements sort alike |
| Sorting.StringLeTotalPreorder | src/pages/Home.js:51 | the default string order of `sort()` is total and transitive |
| Sorting.SortInPlace | src/services/orderService.js:71 | the in-place sort leaves the array holding the functional sort of its old contents |
| Text.TrimEmptyIffBlank | src/pages/Checkout.js:49-52 | `!s.trim()` holds exactly when the string is all whitespace |
| Text.RemoveWhitespace | src/pages/Checkout.js:60 | `replace(/\s/g, '')` keeps exactly the non-whitespace characters, in their order |
| Text.DigitsOnly | src/pages/Home.js:90-91 | `replace(/[^0-9]/g, '')` keeps exactly the ASCII digits, in their order |
| Text.ToLower | src/pages/Home.js:72 | lowercasing maps each ASCII capital to its small letter and keeps every other character |
| Text.FirstSegment | src/pages/Home.js:50 | `split(',')[0]` is the prefix before the first comma |
| Text.ParseIntOfNatToString | src/pages/RestaurantDetail.js:36 | `parseInt` of a number written in decimal gives the number back |

## Left out

- Persistence: `localStorage` and JSON encoding are not modelled. They are replaced by the `Snapshot` value the service restores from and saves. The cart's own save and reload effects (src/context/CartContext.js:78-93) are also left out.
- Timers: intervals and timeouts are left out. This covers the progress timer, the dashboard polling, the carousel interval, the toast and animation timeouts. The model has only the callbacks they would run, in an order the caller chooses.
- Dates: `Date` objects and ISO strings are left out. Times are integer milliseconds, and `estimatedDelivery` is the order time plus 45 minutes.
- Tax: the 10% tax and the total that includes it (src/context/CartContext.js:73-74) are floating-point and are not modelled. Order amounts are integers passed in by the caller.
- Dashboard.ActionRevenue: the revenue change is stated only for a card whose order is the first stored with its id. When ids repeat, the button updates the earlier order instead (`Dashboard.PressOnShadowedCard`). The revenue then moves by that order's change, which is not stated.
- Checkout submission: `handleSubmit` is a simulated API call followed by navigation, and is not modelled.
- Other files: the order tracking page, the header, the footer, the scraper and all markup are not part of this model.
- OrderStore.OrderService.Restore: a snapshot is taken as stored. For one whose orders are not well formed (storage edited by hand), the invariant is not promised.
- OrderStore.Lookup: order ids are integers. The `parseInt` that `getOrder` applies to a string id is not modelled.
- OrderStore.OrderService.GetRestaurantOrders: restaurant ids are integers compared exactly. JavaScript's `===` between a number and a string is not modelled.
- Checkout.CheckoutPage.HandleChange: its requirement that only the `saveCard` input is a checkbox restates the form's markup. Events for names outside the form's nine fields, which the source would add to the form object, are not modelled.
- Text.ToLower: lowercases ASCII letters only. The rest of Unicode's case mapping is left out.
- String order: `Sorting.StringLe` compares characters as Unicode scalar values, while JavaScript compares UTF-16 code units. The two differ only between characters above U+FFFF and characters in U+E000..U+FFFF.
- Home.RatingSortOrdered: ratings are integers in tenths of a star. The floating-point subtraction in the comparator is not modelled; it orders such values the same way.
- Home.DeliveryTimeSortOrdered: states the order only when every delivery time parses. With a `NaN` key the comparator is inconsistent, and the JavaScript engine's result depends on its sort algorithm; the model follows its insertion sort and treats `NaN` as "equal".
- Home.MinOrderSortOrdered: states the order only when every minimum order contains a digit, for the same reason.
- Number range: JavaScript numbers are doubles. The model uses unbounded integers, so precision loss beyond 2^53 is not modelled.
- Quantity dictionary: the restaurant page's dictionary is a sequence of key/quantity entries, and a new key is appended. JavaScript lists integer-like keys in numeric order, which is not modelled. Only the total over the entries is read, and it does not depend on their order.

## Findings

| source | as written | input that shows it | evidently intended | confidence | as-written member | corrected member |
|---|---|---|---|---|---|---|
| src/services/orderService.js:98-105 | the progress timer calls `updateOrderStatus` on every firing whatever the order's status | place an order, cancel it while `confirmed`, then let the timer fire once: the status becomes `preparing` | a cancelled (or delivered) order stays as it is, and its timer stops | high (not executed) | OrderStore.CancelledOrderIsRevived | OrderStore.GuardedTickRespectsCancel |
| src/pages/Home.js:180 with src/pages/RestaurantDetail.js:36 | each card links to `/restaurant/${index}`. The index is 0-based and counts the filtered, sorted list. The restaurant page reads entry `id - 1` of the full data and falls back to entry 0 | take two different restaurants, unfiltered. The second card (index 1) opens the first restaurant | each card opens the restaurant it shows | high (not executed) | Home.SecondCardOpensWrongRestaurant | Home.CorrectedCardOpensItsRestaurant |
