# Kenna Business App — verified model of the point of sale and the business pages

This project models the client-side logic of the Kenna business app, a
Next.js/React application for small businesses. The model covers:

- the point-of-sale screen: the cart, the catalogue and its stock, the
  low-stock list, and the payment handler with its M-Pesa exchange;
- the smaller cart of the simple point-of-sale component;
- the expenses and debts page;
- the sales (orders) page;
- the inventory page;
- the accounting page;
- the analytics dashboard;
- the authentication and subscription provider, the package page, the
  trial guard and the subscription countdown.

Each React handler is a transition on the component's state. Handlers that
build a new array or object from the old one (`filter`, `map`, `reduce`,
spreads) are Dafny functions on values. State that a component keeps and
updates field by field is a class with `modifies` clauses on its methods:
the point-of-sale screen (`PosCheckout.PointOfSale`) and the authentication
provider (`Auth.AuthProvider`). Each method's postcondition ties the new
state to the pure transition, and lemmas prove what that transition
promises. The dashboard's three aggregations are `forEach` loops over a
dictionary, so they are methods with loops. Each is proved equal to a
reference definition (`Tally.Tally`: add each amount to its key's entry),
and the dashboard lemmas state its properties.

Conventions of the model:

- Money is integer cents, so 10.00 is 1000.
- Instants are integer milliseconds; an ISO timestamp is its instant.
- The clock is a parameter (`now`) wherever the source reads it.
- `null` and `undefined` are `None`.
- The payment gateway's answers are inputs: the transaction id or an
  exception, whether the PIN was entered, and the successive status-check
  answers.

Behaviour the model keeps as the code is written:

- **Stale M-Pesa reference.** An M-Pesa payment is recorded under the
  transaction id stored by the *previous* checkout. The handler reads the
  id from the render it was created in, not the id it has just stored.
  `PosCheckout.CheckoutReference` states this in general.
  `PosCheckout.FirstMpesaSaleHasEmptyReference` exhibits a first sale
  recorded under the empty reference.
- **Low stock includes zero.** The point-of-sale low-stock list includes
  products with no stock. The inventory page's list excludes them.
- **Zero-quantity lines stay.** `updateQuantity` leaves a line of quantity 0
  in the cart.
- **Adding ignores stock.** `addToCart` appends a new product without
  checking its stock; only the disabled button prevents it.
  `PosCart.AddToCartIgnoresZeroStock` shows the result.
- **Repeated expense ids.** New expenses take `length + 1` as id. A delete
  followed by an add therefore repeats an id
  (`Expenses.DeleteThenAddRepeatsId`).
- **Ids and seeds.** New inventory items and debts take `length + 1` in the
  same way. The simple point-of-sale cart has no stock limit
  (`SimplePos.AddTimesUnbounded`).
- **Overdue countdown.** Once the end date has passed, the countdown's hours
  and minutes are truncated JavaScript remainders: zero or negative, not
  wrapped (`SubscriptionStatus.SplitWhenOverdue`).
- **Second free trial.** The package page refuses a second free trial only
  while a trial end is recorded, and a subscription clears that end. An
  account whose trial was replaced by a subscription that has since lapsed
  can therefore start a new 30-day trial
  (`Subscription.SecondTrialAfterLapse`).
- **Stock classes assume a non-negative reorder point.** The stock filter's
  classes are exclusive only when the reorder point is non-negative. The
  page never stores a negative one: `handleAddItem` rejects it and the
  seeded items have none. `Inventory.NegativeReorderPointOverlaps` shows
  that only such an item, which the page cannot produce, would be both "in
  stock" and "out of stock".

## Model

| member | source | states |
|---|---|---|
| Common.LowerChar | app/features/pos/page.tsx:90-93 | `toLowerCase` on one character: A–Z move up by 32, nothing else changes, and the result is never an upper-case letter |
| Common.Lower | app/features/pos/page.tsx:90-93 | `toLowerCase` keeps the length and lowers each character in place |
| Common.EmptyTermMatches | app/features/pos/page.tsx:90-93 | every text includes the empty search term, whatever its case |
| Common.DigitsRoundTrip | components/auth-provider.tsx:88-96 | `parseInt` reads the decimal string of any natural number back as that number |
| PosCart.FindLineAt | app/features/pos/page.tsx:97 | in a cart with one line per product, `find` by a line's id returns that line |
| PosCart.FindProductAt | app/features/pos/page.tsx:114 | in a catalogue with unique ids, `find` by a product's id returns that product |
| PosCart.TotalOrderIndependent | app/features/pos/page.tsx:135 | the cart total and the item count do not depend on the order of the lines |
| PosCart.TotalNonNegative | app/features/pos/page.tsx:135 | a cart within stock has a non-negative item count and, at non-negative prices, a non-negative total |
| PosCart.CartRunningTotals | app/features/pos/page.tsx:135 | the cart total and the item count start at 0, and each line adds its price times its quantity to the total and its quantity to the count (the item count is the reduce at line 201) |
| PosCart.AddToCart | app/features/pos/page.tsx:95-107 | a product without a line is appended with quantity 1; otherwise the same number of lines, with the product's line raised by one only while below the product's stock and every other line untouched |
| PosCart.AddToCartEffect | app/features/pos/page.tsx:95-107 | on a cart with one line per product: ids stay distinct, the product's quantity rises by one while below stock (1 for a new product), every other product's line is unchanged, and the total grows by the unit price times the units added |
| PosCart.AddToCartWithinStock | app/features/pos/page.tsx:95-107 | adding a catalogue product that has a line or at least one unit keeps every line within stock |
| PosCart.AddToCartIgnoresZeroStock | app/features/pos/page.tsx:105 | a product with no stock and no line enters the cart with a quantity above its stock |
| PosCart.RemoveFromCart | app/features/pos/page.tsx:109-111 | exactly the lines of other products remain, with their multiplicities, in order; no line for the id remains; a cart without it is unchanged |
| PosCart.RemoveFromCartKeepsOthers | app/features/pos/page.tsx:109-111 | removing one product does not change the line found for any other product |
| PosCart.RemoveFromCartSplit | app/features/pos/page.tsx:109-111 | any per-line sum splits into the removed product's term plus the sum over the remaining cart, whose ids stay distinct |
| PosCart.RemoveFromCartTotal | app/features/pos/page.tsx:109-111 | removal lowers the total by that product's price times its quantity and the item count by its quantity |
| PosCart.UpdateQuantity | app/features/pos/page.tsx:113-122 | no change for an unknown product or a quantity above stock; otherwise the product's lines get max(0, n), and every other line and every product snapshot is unchanged |
| PosCart.UpdateQuantityWithinStock | app/features/pos/page.tsx:113-122 | whatever quantity is asked for, every line stays within [0, stock] |
| PosCart.UpdateQuantityEffect | app/features/pos/page.tsx:113-122 | ids stay distinct, the set of products with a line is unchanged (a 0 line stays), the quantity is max(0, n) when the update applies, other lines are unchanged, and the total moves by price times the change |
| PosCart.UpdateInventory | app/features/pos/page.tsx:124-133 | the same products in the same order; each product's stock falls by its cart line's quantity with all other fields kept; products without a line are unchanged |
| PosCart.UpdateInventoryNonNegative | app/features/pos/page.tsx:124-133 | selling a cart within stock leaves no stock negative |
| PosCart.UpdateInventoryStock | app/features/pos/page.tsx:124-133 | total stock falls by the summed cart quantity of each catalogue product |
| PosCart.DemandIsItemCount | app/features/pos/page.tsx:124-133 | over a catalogue holding every cart product once, the summed per-product demand is the cart's item count |
| PosCart.StockConservation | app/features/pos/page.tsx:124-133 | selling a cart within stock takes exactly its item count off the shelves |
| PosCart.LowStock | app/features/pos/page.tsx:85-88 | exactly the products with stock at most 10, with their multiplicities, in catalogue order; out-of-stock products included |
| PosCart.SearchProducts | app/features/pos/page.tsx:90-93 | exactly the products whose name or category includes the term ignoring case, with their multiplicities, in catalogue order |
| PosCart.EmptySearchShowsAll | app/features/pos/page.tsx:90-93 | an empty search lists the whole catalogue |
| PosCheckout.FirstSettled | app/features/pos/page.tsx:177-182 | the index of the first status answer that is not `pending`; all earlier ones are `pending` |
| PosCheckout.PollUntilSettled | app/features/pos/page.tsx:177-182 | the polling loop makes one check per `pending` answer plus one, and returns the first answer that is not `pending` |
| PosCheckout.OrderItems | app/features/pos/page.tsx:225-229 | one order item per cart line, in order, with its name, quantity and price |
| PosCheckout.OrderItemsTotal | app/features/pos/page.tsx:220-233 | the stored order's items add up to the cart total |
| PosCheckout.CheckoutPaidIff | app/features/pos/page.tsx:140-199 | a checkout is paid iff cash covers the total and, for M-Pesa, phone and name are given and the gateway completes the payment |
| PosCheckout.CheckoutFailureChangesNothing | app/features/pos/page.tsx:140-198 | a refused or failed checkout changes no product, cart line, log or entered detail; only the stored M-Pesa id can change, and only once the gateway has returned one |
| PosCheckout.CheckoutStatusChecks | app/features/pos/page.tsx:171-187 | status checks are made only for M-Pesa with details, an id and an entered PIN, and then number one per `pending` answer plus one |
| PosCheckout.CheckoutRecords | app/features/pos/page.tsx:201-244 | a paid checkout records the cart total and item count, cash change (never negative) or 0, puts the payment and an order (`Paid`, the cart's items, the payment's reference and time) in front of the logs, and clears the cart and the entered details |
| PosCheckout.CheckoutReference | app/features/pos/page.tsx:161-205 | an M-Pesa payment's reference is the id stored before the click and the new id is kept for the next checkout; other methods use "POS-" and the clock |
| PosCheckout.FirstMpesaSaleHasEmptyReference | app/features/pos/page.tsx:161-205 | a first M-Pesa sale that completes at once is recorded, payment and order, under the empty reference |
| PosCheckout.CheckoutStock | app/features/pos/page.tsx:236-241 | a checkout keeps product ids unique, stock non-negative and the cart within stock; a paid one takes each product's cart quantity off its stock, exactly the item count in all; an unpaid one leaves the products alone |
| PosCheckout.Settle | app/features/pos/page.tsx:201-244 | the payment records the cart total and item count; the stock falls by the cart, the cart empties, the payment goes in front of the transactions and one order for the payment's amount in front of the orders |
| PosCheckout.Checkout | app/features/pos/page.tsx:137-259 | a paid checkout takes the cart off the stock and empties the cart; any other outcome leaves products, cart, orders and transactions as they were |
| PosCheckout.PointOfSale.constructor | app/features/pos/page.tsx:46-68 | five seeded products, empty cart and logs, cash selected, none of them low on stock |
| PosCheckout.PointOfSale.LowStockItems | app/features/pos/page.tsx:85-88 | the products of the screen with stock at most 10 |
| PosCheckout.PointOfSale.AddToCart | app/features/pos/page.tsx:95-107 | the cart becomes `AddToCart` of the old cart, nothing else changes, and the invariant holds |
| PosCheckout.PointOfSale.RemoveFromCart | app/features/pos/page.tsx:109-111 | the cart becomes `RemoveFromCart` of the old cart, nothing else changes, and the invariant holds |
| PosCheckout.PointOfSale.UpdateQuantity | app/features/pos/page.tsx:113-122 | the cart becomes `UpdateQuantity` of the old products and cart, nothing else changes, and the invariant holds |
| PosCheckout.PointOfSale.HandlePayment | app/features/pos/page.tsx:137-259 | the new state, outcome and number of status checks are those of `Checkout` on the old state, and the invariant holds |
| PosCheckout.PointOfSale.MpesaPayment | app/features/pos/page.tsx:150-199 | the M-Pesa branch leaves the state, outcome and number of status checks of `Checkout` on the old state |
| PosCheckout.PointOfSale.Settlement | app/features/pos/page.tsx:201-244 | the state and the payment become those of the settlement of the old state |
| SimplePos.InitialTotal | components/features/point-of-sale.tsx:11-14 | the seeded cart totals 35.50 |
| SimplePos.AddToCart | components/features/point-of-sale.tsx:22-31 | a new product is appended with quantity 1; an existing product's lines go up by one with no stock limit, other lines untouched |
| SimplePos.AddToCartTotalExisting | components/features/point-of-sale.tsx:22-31 | adding a product already in a cart with one line per product raises the total by its recorded price |
| SimplePos.AddToCartTotalNew | components/features/point-of-sale.tsx:22-31 | adding a new product raises the total by its price |
| SimplePos.AddTimesUnbounded | components/features/point-of-sale.tsx:22-31 | n additions of a product already in the cart raise its quantity by exactly n, with no bound |
| SimplePos.RemoveFromCart | components/features/point-of-sale.tsx:33-35 | exactly the lines of other products remain, with their multiplicities, in order |
| SimplePos.RemoveFromCartTotal | components/features/point-of-sale.tsx:33-35 | the remaining total plus the removed lines' total is the old total |
| SimplePos.UpdateQuantity | components/features/point-of-sale.tsx:37-41 | the product's lines get max(0, n); other lines and all products are unchanged; an absent product changes nothing |
| SimplePos.UpdateQuantityTotal | components/features/point-of-sale.tsx:37-41 | the total moves by the line's price times the change of its quantity |
| SimplePos.TotalNonNegative | components/features/point-of-sale.tsx:43 | with non-negative prices and quantities the total is non-negative |
| SimplePos.RunningTotal | components/features/point-of-sale.tsx:43 | the total starts at 0 and each line adds its price times its quantity |
| Orders.AverageOrderValue | components/features/analytics-dasboard.tsx:38-44 | with orders, the average times their number is the total sales; with none it is 0 (the sales page's average at app/features/sales/page.tsx:193-195 is the same) |
| Orders.TotalSalesBounds | app/features/sales/page.tsx:189-191 | with every total in [lo, hi], total sales lie in [n·lo, n·hi] |
| Orders.AverageWithinBounds | app/features/sales/page.tsx:193-195 | the average lies between the smallest and the largest bound of the order totals |
| Orders.RunningTotalSales | components/features/analytics-dasboard.tsx:38-40 | total sales start at 0 and each order adds its total (the sales page's reduce at app/features/sales/page.tsx:190 is the same) |
| Sales.FilteredOrders | app/features/sales/page.tsx:81-85 | exactly the orders whose customer or id includes the term ignoring case and whose status is the selected one (any for 'all'), with their multiplicities, in order |
| Sales.FilterShowsAll | app/features/sales/page.tsx:81-85 | an empty search with 'all' lists every order |
| Sales.KeyLessStrictWeak | app/features/sales/page.tsx:87-95 | the column comparison is asymmetric and its negation transitive |
| Sales.BeforeIsStrictWeakOrder | app/features/sales/page.tsx:87-95 | the comparator of either direction is a strict weak order |
| Sales.SortedOrders | app/features/sales/page.tsx:87-95 | the sorted table is a permutation of the filtered orders |
| Sales.SortedOrdersCorrect | app/features/sales/page.tsx:87-95 | the table is a permutation ordered by the selected column: never decreasing ascending, never increasing descending |
| Sales.SortedByTotalAscending | app/features/sales/page.tsx:87-95 | sorted by total ascending, totals never decrease along the table |
| Sales.HandleSort | app/features/sales/page.tsx:97-102 | the clicked column becomes the key; the direction becomes descending iff the same column was ascending |
| Sales.HandleSortToggles | app/features/sales/page.tsx:97-102 | clicking an ascending column twice restores the configuration |
| Sales.HandleNewOrder | app/features/sales/page.tsx:108-134 | a draft with customer, positive total and items becomes an "ORD-" order in front of the list and the form resets; otherwise nothing changes |
| Sales.HandleNewOrderSales | app/features/sales/page.tsx:108-134 | total sales grow by the draft's total exactly when the order is accepted |
| Sales.AddItemToNewOrder | app/features/sales/page.tsx:136-141 | an empty item (quantity 1, price 0) is appended; customer, total and status are kept |
| Sales.AddItemKeepsConsistent | app/features/sales/page.tsx:136-141 | a draft whose total is the sum of its items stays so after adding an empty item |
| Sales.UpdateNewOrderItem | app/features/sales/page.tsx:143-152 | only the item at the index takes the edit, and the total is recomputed as the sum of the items |
| Sales.UpdateNewOrderItemTotal | app/features/sales/page.tsx:143-152 | the total moves by the edited item's new amount less its old one |
| Sales.EmptyDraftConsistent | app/features/sales/page.tsx:47-52 | the empty form has total 0 and no items, hence is consistent |
| Sales.HandleUpdateOrderStatus | app/features/sales/page.tsx:154-157 | orders with the id take the new status; nothing else in any order changes |
| Sales.UpdateStatusKeepsSales | app/features/sales/page.tsx:154-157 | a status change keeps the total sales and the average order value |
| Inventory.Label | app/features/inventory/page.tsx:169-170 | "Out of Stock" iff quantity 0, "Low Stock" iff non-zero and at most the reorder point, "In Stock" iff above it |
| Inventory.ExactlyOneStatus | app/features/inventory/page.tsx:40-44 | with non-negative quantity and reorder point, each item is in exactly one stock class, the one its label shows |
| Inventory.NegativeReorderPointOverlaps | app/features/inventory/page.tsx:40-44 | only an item with a negative reorder point, which `handleAddItem` never stores, can be in both "in stock" and "out of stock": an empty one is |
| Inventory.FilteredInventory | app/features/inventory/page.tsx:38-46 | exactly the items whose name includes the term ignoring case and that meet the stock filter, with their multiplicities, in order |
| Inventory.AllWithEmptySearch | app/features/inventory/page.tsx:38-46 | an empty search with 'all' lists the whole inventory |
| Inventory.LowStockItems | app/features/inventory/page.tsx:48 | exactly the items with 0 < quantity ≤ reorder point, with their multiplicities, in order |
| Inventory.LowStockItemsIsLowStockFilter | app/features/inventory/page.tsx:38-48 | the low-stock panel equals the table under the 'low-stock' filter with an empty search |
| Inventory.HandleAddItem | app/features/inventory/page.tsx:50-58 | a named item with non-negative quantity and reorder point is appended with id length + 1 and the form resets; otherwise nothing changes |
| Inventory.AddKeepsIds | app/features/inventory/page.tsx:50-58 | sequential ids 1..n and non-negative fields are preserved, so ids stay distinct |
| Inventory.SeedsWellFormed | app/features/inventory/page.tsx:27-32 | the seeded items are well formed and only Gadget B is low on stock |
| Expenses.FilteredExpenses | app/features/expenses/page.tsx:77-81 | exactly the expenses whose description includes the term ignoring case and whose category is the chosen one (any for 'all'), with their multiplicities, in order |
| Expenses.FilterShowsAll | app/features/expenses/page.tsx:77-81 | an empty search with 'all' lists every expense |
| Expenses.HandleAddExpense | app/features/expenses/page.tsx:83-94 | a described, positive, categorised expense is appended with id length + 1 and the form resets to today; otherwise nothing changes |
| Expenses.AddExpenseTotal | app/features/expenses/page.tsx:83-94 | the total grows by the form's amount exactly when the expense is accepted |
| Expenses.HandleEditExpense | app/features/expenses/page.tsx:96-103 | every expense with the edited id is replaced by the edited one, the others are kept, and editing ends |
| Expenses.EditExpenseTotal | app/features/expenses/page.tsx:96-103 | with distinct ids, the total moves by the new amount less the old one |
| Expenses.HandleDeleteExpense | app/features/expenses/page.tsx:105-107 | exactly the expenses with other ids remain, with their multiplicities, in order |
| Expenses.DeleteExpenseTotal | app/features/expenses/page.tsx:105-107 | the remaining total plus the deleted expenses' total is the old total |
| Expenses.DeleteThenAddRepeatsId | app/features/expenses/page.tsx:83-107 | with ids 1..n, deleting expense 1 and adding one gives the new expense the id of the last one |
| Expenses.HandleAddDebt | app/features/expenses/page.tsx:109-120 | a named debt with positive amount is appended with id length + 1 and the form resets to 'owed' and today; otherwise nothing changes |
| Expenses.DebtTotalsPartition | app/features/expenses/page.tsx:123-124 | owed plus owing is the sum of all debts |
| Expenses.AddDebtTotals | app/features/expenses/page.tsx:109-124 | an accepted debt adds its amount to the total of its own kind only |
| Expenses.SeedExpenseTotal | app/features/expenses/page.tsx:45-51 | the seeded expenses total 18051.25 |
| Expenses.RunningTotalExpenses | app/features/expenses/page.tsx:122 | the expense total starts at 0 and each expense adds its amount |
| Expenses.RunningDebtTotals | app/features/expenses/page.tsx:123-124 | both debt totals start at 0; each debt adds its amount to the total of its own kind and nothing to the other |
| Expenses.SeedDebtTotals | app/features/expenses/page.tsx:53-57 | the seeded debts give 6000.00 owed and 3000.00 owing |
| Accounting.Abs | app/features/accounting/page.tsx:18 | `Math.abs`: non-negative, and x or −x |
| Accounting.IncomeNonNegative | app/features/accounting/page.tsx:17 | total income is never negative |
| Accounting.ExpensesAreNegatedSum | app/features/accounting/page.tsx:18 | total expenses are the negated sum of the negative amounts, never negative |
| Accounting.NetProfitIsSum | app/features/accounting/page.tsx:17-19 | net profit equals the sum of all transaction amounts |
| Accounting.SeedFigures | app/features/accounting/page.tsx:11-19 | the seeded ledger gives income 5000.00, expenses 1200.00 and net profit 3800.00 |
| Accounting.RunningFigures | app/features/accounting/page.tsx:17-19 | the three figures start at 0; each transaction adds a positive amount to income, a negative one's magnitude to expenses, and its amount to net profit |
| Analytics.Days | components/features/analytics-dasboard.tsx:36 | 7 days iff the range is '7d', 30 otherwise |
| Analytics.FilterByTimeRange | components/features/analytics-dasboard.tsx:30-34 | exactly the orders stamped at or after now less the range, with their multiplicities, in order |
| Analytics.WiderRangeSellsMore | components/features/analytics-dasboard.tsx:30-40 | with non-negative totals, a wider range never shows fewer sales |
| Analytics.ItemPairsOf | components/features/analytics-dasboard.tsx:49-55 | one (name, quantity) pair per item, in order |
| Analytics.ProductSales | components/features/analytics-dasboard.tsx:46-56 | the nested loops leave each product name with its summed quantity, names in first-seen order |
| Analytics.AddItems | components/features/analytics-dasboard.tsx:49-55 | the inner loop adds one order's items to the running tally |
| Analytics.TopOf | components/features/analytics-dasboard.tsx:57-59 | `slice(0, 5)` of the sorted tally: its first min(n, 5) entries |
| Analytics.MoreSoldIsStrictWeakOrder | components/features/analytics-dasboard.tsx:58 | "sold more" is a strict weak order |
| Analytics.TopSellingProducts | components/features/analytics-dasboard.tsx:46-60 | the result is the first five of the tally sorted by quantity, largest first |
| Analytics.TopSellingEntries | components/features/analytics-dasboard.tsx:46-60 | at most five distinct products, each sold in the range and shown with its total quantity |
| Analytics.TopSellingNonIncreasing | components/features/analytics-dasboard.tsx:57-59 | the shown quantities never increase down the list |
| Analytics.TopSellingDominates | components/features/analytics-dasboard.tsx:57-59 | no product left out sold more than any product shown |
| Analytics.TopSellingComplete | components/features/analytics-dasboard.tsx:57-59 | fewer than five shown means every product sold is shown |
| Analytics.DayOf | components/features/analytics-dasboard.tsx:65 | the day of an instant: the day number whose 24 hours contain it |
| Analytics.DayPairs | components/features/analytics-dasboard.tsx:64-70 | one (day, total) pair per order, in order |
| Analytics.EarlierDayIsStrictWeakOrder | components/features/analytics-dasboard.tsx:72 | "earlier day" is a strict weak order |
| Analytics.SalesByDay | components/features/analytics-dasboard.tsx:62-73 | the loop's per-day totals, sorted by day |
| Analytics.DayPairsTotal | components/features/analytics-dasboard.tsx:62-73 | the per-order day amounts add up to the total sales |
| Analytics.SalesByDayCorrect | components/features/analytics-dasboard.tsx:62-73 | days strictly increase; each day is listed iff some order falls on it, with the sum of that day's totals; the days add up to the total sales |
| Analytics.StatusPairs | components/features/analytics-dasboard.tsx:77-83 | one (status, 1) pair per order, in order |
| Analytics.StatusDistribution | components/features/analytics-dasboard.tsx:75-85 | the loop counts the orders of each status |
| Analytics.StatusPairsCount | components/features/analytics-dasboard.tsx:75-85 | the per-order counts add up to the number of orders |
| Analytics.StatusDistributionCorrect | components/features/analytics-dasboard.tsx:75-85 | statuses are distinct; a status is listed iff some order has it, with a count of at least 1; the counts add up to the number of orders |
| Auth.LoggedIn | components/auth-provider.tsx:51-66 | signing in succeeds iff the credentials are admin/password, which sets the user with start date now; the end dates are kept; a failure changes nothing |
| Auth.TrialStarted | components/auth-provider.tsx:78-86 | with no trial end, the trial ends 30 days from now; a trial already set is never restarted |
| Auth.Subscribed | components/auth-provider.tsx:88-96 | the subscription ends now plus the duration in days, the trial end is cleared, the user is kept, and the account is active exactly until that end |
| Auth.Active | components/auth-provider.tsx:98-102 | with neither a trial end nor a subscription end, no account is active |
| Auth.StartTrialIdempotent | components/auth-provider.tsx:78-86 | starting a trial again, at any time, changes nothing |
| Auth.ActiveAfterStartTrial | components/auth-provider.tsx:78-102 | a fresh trial keeps the account active for its 30 days |
| Auth.ActiveAfterUpdate | components/auth-provider.tsx:88-102 | a subscription of at least a day is active at once |
| Auth.SignedOutInactive | components/auth-provider.tsx:68-76 | after logging out nothing is active |
| Auth.ActiveEarlier | components/auth-provider.tsx:98-102 | an account active now was active at every earlier instant |
| Auth.AuthProvider.constructor | components/auth-provider.tsx:22-25 | no user and no end dates |
| Auth.AuthProvider.Login | components/auth-provider.tsx:51-66 | the new state and the result are those of `LoggedIn` on the old state |
| Auth.AuthProvider.Logout | components/auth-provider.tsx:68-76 | user and both end dates are cleared |
| Auth.AuthProvider.StartTrial | components/auth-provider.tsx:78-86 | the new state is `TrialStarted` of the old one |
| Auth.AuthProvider.UpdateSubscription | components/auth-provider.tsx:88-96 | the new state is `Subscribed` of the old one |
| Subscription.DurationDays | app/subscription/page.tsx:9-15 | a package's duration reads as 1, 7, 30 or 365 days, 30 for the free trial |
| Subscription.DurationStringsParse | app/subscription/page.tsx:10-14 | the table's duration strings read as 1, 7, 30 and 365 |
| Subscription.Confirm | app/subscription/page.tsx:32-47 | nothing selected: nothing happens; the free trial starts a trial iff no trial end is recorded and otherwise stops without navigating; any other package subscribes for its duration; every navigation leaves the account active and the user unchanged |
| Subscription.SecondTrialAfterLapse | app/subscription/page.tsx:36-42 | once a trial has been replaced by a one-day subscription that has lapsed, the account is inactive and choosing the free trial starts a new 30-day trial and navigates |
| Subscription.HandleConfirmation | app/subscription/page.tsx:32-47 | the provider's new state and the outcome are those of `Confirm` on its old state |
| TrialCheck.Redirects | components/trial-expiration-check.tsx:14 | the guard redirects only a signed-in user whose account is not active |
| TrialCheck.ShowsBanner | components/trial-expiration-check.tsx:19 | the banner shows only to a signed-in user whose account is active |
| TrialCheck.DaysLeft | components/trial-expiration-check.tsx:20 | the days announced are the time left to the trial's end rounded up to whole days |
| TrialCheck.CeilDays | components/trial-expiration-check.tsx:20 | `Math.ceil` of milliseconds over a day: the least d with ms ≤ d days |
| TrialCheck.RedirectAndBannerExclusive | components/trial-expiration-check.tsx:14-19 | the guard never both redirects and shows the banner, and does neither at the instant the trial ends |
| TrialCheck.BannerDaysLeft | components/trial-expiration-check.tsx:19-20 | the banner announces at least one day, and no more than the time left rounds up to |
| TrialCheck.FreshTrialBanner | components/trial-expiration-check.tsx:19-20 | a trial just started shows the banner with 30 days left |
| SubscriptionStatus.EndDate | components/subscription-status.tsx:16 | the trial end when there is one, the subscription end otherwise |
| SubscriptionStatus.JsRem | components/subscription-status.tsx:24-25 | JavaScript's `%`: in [0, b) and Euclidean for a ≥ 0; in (−b, 0] for a < 0, either 0 or the Euclidean remainder less b |
| SubscriptionStatus.Clamp | components/subscription-status.tsx:27 | the result lies in [0, 100] and equals x when x is already there |
| SubscriptionStatus.UpdateTimer | components/subscription-status.tsx:14-31 | nothing iff no user or no end date; otherwise the countdown's days, hours and minutes are `Split` of the end less now, and its progress, defined iff the end differs from the start, is the time left over the duration as a percentage clamped to [0, 100] |
| SubscriptionStatus.Split | components/subscription-status.tsx:23-25 | the days are the time left rounded down to whole days; hours and minutes lie in [0, 24) and [0, 60) with time left, in [−24, 0] and [−60, 0] once overdue |
| SubscriptionStatus.SplitBounds | components/subscription-status.tsx:23-25 | with time left, hours lie in [0, 24), minutes in [0, 60), and the parts give the time left rounded down to the minute |
| SubscriptionStatus.SplitWhenOverdue | components/subscription-status.tsx:23-25 | once overdue, the days are negative and hours and minutes lie in [−24, 0] and [−60, 0] |
| SubscriptionStatus.ProgressInRange | components/subscription-status.tsx:27 | with a non-zero duration, the progress bar is shown and lies in [0, 100] |
| SubscriptionStatus.CountdownShowsTimeLeft | components/subscription-status.tsx:14-25 | before the end, the countdown's hours and minutes lie in [0, 24) and [0, 60) and its parts give the time to the end rounded down to the minute |
| SubscriptionStatus.CountdownWhenOverdue | components/subscription-status.tsx:14-25 | after the end, the countdown shows negative days and hours and minutes in [−24, 0] and [−60, 0] |

## Left out

- Browser storage (`localStorage`, JSON), toasts, dialogs, routing, rendering and the export to CSV: I/O and presentation, not logic.
- Asynchrony and timers: `handlePayment` runs to completion on given gateway answers. The `isProcessingPayment` flag, the 5-second wait between status checks and the minute timer of the countdown are not modelled.
- The internals of the payment gateway (`lib/mpesa-api.ts`) are not part of this model. Its three calls are inputs: the transaction id or an exception, the PIN prompt's result, and the status answers.
- A gateway whose status stays `pending` forever makes the source loop forever. `Checkout` requires a settling answer instead (`GatewayTerminates`).
- Floating-point money: prices and amounts are integer cents. Rounding of sums such as 15.50 × 3 is not modelled, nor are `NaN` from `parseInt`/`parseFloat` on non-numeric input or `Infinity` from a division by zero. The progress is `None` where the source divides by a zero duration.
- Case folding covers ASCII letters only; other Unicode case mappings and UTF-16 code units versus code points are not modelled.
- Object key order: the dashboard's dictionaries are lists of keys in first-seen order. JavaScript orders integer-like keys first, and keys such as `constructor`, inherited from `Object.prototype`, behave differently; neither is modelled.
- The sales-per-day key, a UTC ISO date string, is modelled as the day number `timestamp / 86400000`. The two order the same way for four-digit years.
- `setDate` in local time is modelled as adding whole 24-hour days, so daylight-saving shifts are not modelled.
- Handlers that read the clock twice (the time and the "POS-" reference) read one `now`.
- The inventory stock filter is one of its four choices; other strings are not modelled.
- `Auth.AuthProvider.Login`: the user record written to storage and the asynchronous signature are not modelled; only the state change is.
- The other pages (customers, purchases, manufacturing, multi-currency, login form, charts) are outside this model.
