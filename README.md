# Warehouse-to-customer ordering core, in Dafny

This project models the workflow core of a Laravel warehouse and shop
back end. The parts modelled are:

- **Checkout.** A customer's cart becomes an order, its order items and
  stock decrements (`OrderController::store`).
- **Order updates.** Staff change an order's status and its payment status.
- **Order visibility.** What a customer may list and open.
- **Product management.** The validation bounds, the low-stock rule, the
  low-stock notification to every admin, and the low-stock listing.
- **Dashboards.** The four role dashboards (admin, warehouse manager,
  staff, customer) with their aggregations.

The application's tables are one mutable store, the class `Database.Db`.
Its fields are:

- products keyed by id;
- carts keyed by user id;
- orders and order items in insertion order, where an order's id is its
  position plus one;
- payment methods, users, roles and replenishment requests;
- a log of the notifications requested so far.

Each controller action is a method that takes that store as a parameter. Its `modifies` clause
names only the tables the action writes. Its `ensures` clause gives the
response and the whole new state.

The checkout is proved against specification functions in
`CheckoutSpec`:

- the product table after each line (`States`, `Decremented`);
- the frozen order items (`Snapshot`);
- the cart total (`CartTotal`);
- the low-stock notifications (`CheckoutNotices`).

Lemmas then establish what these functions mean. For example, each
product loses exactly the quantity the cart requests of it, and the order
total equals the sum of the frozen items.

Queries and predicates that only read are pure functions:

- the dashboards;
- the role predicates;
- `isLowStock`;
- the order listing and order view.

Modelling conventions:

- Prices (`decimal:2`) are integer cents.
- Timestamps and date-range bounds are integers.
- The random order-number suffix and the clock are parameters.
- A notification is a record appended to the log. Delivery is not modelled.

The model follows the code where one might expect otherwise:

- **Low-stock notifications.** A notification is requested after every
  decrement that leaves a product low. Repeated decrements of an
  already-low product notify again; there is no once-per-crossing rule
  (`CheckoutSpec.LowStockReportedAgain`).
- **Stock check.** The check is per cart line against the stock loaded
  before any decrement. Two lines for the same product can drive stock
  below zero (`CheckoutSpec.DuplicateLinesOversell`).
- **No transaction.** Checkout runs outside a transaction. The order
  number is generated once, with no collision retry.
- **Status changes.** `updateStatus` accepts any of the six statuses from
  any status. Nothing enforces the lifecycle order.

## Model

| member | source | states |
|---|---|---|
| Accounts.OneRoleName | app/Models/User.php:93-96 | `hasRole` holds for the user's own role name and for no other name |
| Accounts.AtMostOneRole | app/Models/User.php:103-136 | `isAdmin`, `isWarehouseManager`, `isStaff` and `isCustomer` test four distinct names, so at most one holds for a user |
| Catalog.LowStockBoundary | app/Models/Product.php:78-81 | a quantity equal to the threshold is low stock; one unit above it is not |
| Catalog.LowStockStaysLow | app/Models/Product.php:78-81 | lowering the quantity of a low-stock product keeps it low |
| Catalog.EmptyIsLowStock | app/Models/Product.php:78-81 | with the validated threshold of at least 1, a product at 0 is low stock |
| Records.ParseOrderStatus | app/Http/Controllers/OrderController.php:155-157 | a status name accepted by the `in:` rule is parsed to the status carrying exactly that name |
| Records.ParseOrderStatusName | app/Http/Controllers/OrderController.php:156 | each of the six order statuses is accepted under its own name and parsed back to itself |
| Records.ParsePaymentStatus | app/Http/Controllers/OrderController.php:186-188 | an accepted payment-status name is parsed to the status carrying exactly that name |
| Records.ParsePaymentStatusName | app/Http/Controllers/OrderController.php:187 | each of the three payment statuses is accepted under its own name and parsed back to itself |
| Products.ValidInputInBounds | app/Http/Controllers/ProductController.php:37-47 | a product that passes the create rules is stored with price >= 0, threshold >= 1 and quantity >= 0 |
| Products.BlankFieldsRejected | app/Http/Controllers/ProductController.php:38-39 | a name or description made only of whitespace fails `required`, on create and on update |
| Products.ApplyPatch | app/Http/Controllers/ProductController.php:89-106 | a validated partial update keeps the product within bounds; each of the six fields (name, description, price, quantity, threshold, status) takes the request's value when supplied and keeps its old value when omitted; an empty request changes nothing |
| Products.AdminRole | app/Http/Controllers/ProductController.php:147 | the Admin role found is the first role row named Admin (no earlier row has that name); none is found only when no row has that name |
| Products.NoAdminRoleNoNotices | app/Http/Controllers/ProductController.php:147-149 | without a role named Admin, nobody is notified |
| Products.LowStockNoticeIffAdmin | app/Http/Controllers/ProductController.php:145-156 | with well-formed user and role tables, a user receives a low-stock notification exactly when `isAdmin` holds for that user, and each admin receives exactly one |
| Products.LowStockNoticesDistinct | app/Http/Controllers/ProductController.php:150-154 | with distinct user ids, one fan-out never sends the same notification twice |
| Products.SendLowStockNotification | app/Http/Controllers/ProductController.php:145-156 | the loop appends exactly the notifications for the Admin-role users to the log and changes no other table |
| Products.Store | app/Http/Controllers/ProductController.php:35-63 | a product is created if and only if the request passes the rules (non-blank name of at most 255 characters, non-blank description, price and quantity at least 0, threshold at least 1); it gets a fresh id that no existing product uses; on rejection no table changes |
| Products.Update | app/Http/Controllers/ProductController.php:87-121 | rejects invalid fields first, then a missing id; otherwise assigns exactly the supplied fields; notifies the admins exactly when `quantity` was supplied and the product is now low; an updated product is on the `lowStock` listing exactly when it is low |
| Products.Destroy | app/Http/Controllers/ProductController.php:129-137 | reports not found if and only if the id is absent; removes exactly that product |
| CheckoutSpec.CheckoutNoticesListed | app/Http/Controllers/ProductController.php:163-165 | every product a checkout reports as low (OrderController.php:108-111) is on the `lowStock` listing of the table the checkout leaves, since stock only falls during a checkout |
| CheckoutSpec.DemandPrefix | app/Http/Controllers/OrderController.php:95-107 | with non-negative line quantities, the first k lines demand no more of any product than the whole cart |
| CheckoutSpec.States | app/Http/Controllers/OrderController.php:103-106 | the product table before the first line and after each line, each step one line's decrement |
| CheckoutSpec.StatesAt | app/Http/Controllers/OrderController.php:95-106 | after k lines, every product has lost exactly the total quantity the first k lines request of it; nothing but `quantity` changes, and no product appears or disappears |
| CheckoutSpec.DecrementedAt | app/Http/Controllers/OrderController.php:95-112 | after a checkout, each product has lost exactly the cart's total demand for it |
| CheckoutSpec.CheckoutStockDistinct | app/Http/Controllers/OrderController.php:75-106 | with one line per product and a passed pre-check, each line's product loses exactly that line's quantity; other products are untouched; no stock goes negative |
| CheckoutSpec.DuplicateLinesOversell | app/Http/Controllers/OrderController.php:75-81 | the pre-check is per line: two lines of 3 against a stock of 5 both pass and leave the stock at -1 |
| CheckoutSpec.SnapshotTotal | app/Http/Controllers/OrderController.php:87-101 | the order total equals the sum of quantity x frozen price over the order's items |
| CheckoutSpec.NoticesUpToSound | app/Http/Controllers/OrderController.php:108-111 | each checkout notification goes to an admin recipient and names the product of a line whose decrement left that product low |
| CheckoutSpec.NoticesUpToNone | app/Http/Controllers/OrderController.php:108-111 | a checkout where no decrement leaves a product low requests no notification |
| CheckoutSpec.LowStockReportedAgain | app/Http/Controllers/OrderController.php:108-111 | for a product at 5 with threshold 3, taking 3 notifies; a later checkout taking 1 more notifies again |
| CheckoutSpec.PlaceStep | app/Http/Controllers/OrderController.php:103-109 | one loop step: the line's product exists, loses the line's quantity, and is reported low exactly when its new quantity is at or below its threshold |
| CheckoutSpec.ToUpper | app/Http/Controllers/OrderController.php:86 | maps each lower-case ASCII letter to the upper-case letter at the same alphabet position; leaves every other character unchanged; so letters and digits become upper-case letters and digits |
| CheckoutSpec.OrderNumber | app/Http/Controllers/OrderController.php:86 | an order number is `ORD-` followed by the suffix upper-cased character by character; for a 10-character alphanumeric suffix it is 14 characters, upper-case after the prefix |
| Orders.PreCheck | app/Http/Controllers/OrderController.php:75-81 | reports stocked if and only if every line's product exists with enough stock; otherwise it names the first failing line and whether its product is missing or short |
| Orders.SnapshotStep | app/Http/Controllers/OrderController.php:96-101 | placing line `i` appends exactly that line's item (product, quantity, price at load time) to the items saved so far |
| Orders.NoticesStep | app/Http/Controllers/OrderController.php:108-111 | placing line `i` appends the recipients' low-stock notices when that decrement leaves the product low, and nothing otherwise |
| Orders.PlaceLine | app/Http/Controllers/OrderController.php:96-111 | one iteration extends the saved items, the stock table and the notification log from their values after `i` lines (`Snapshot` prefix, `States(..)[i]`, `NoticesUpTo(.., i)`) to their values after `i + 1` lines |
| Orders.PlaceLines | app/Http/Controllers/OrderController.php:95-112 | the loop leaves the products, items and notification log equal to `Decremented`, `Snapshot` and `CheckoutNotices` of the loaded table and the lines |
| Orders.PlaceLinesAsWritten | app/Http/Controllers/OrderController.php:95-112 | as written: stops right after the first decrement that leaves a product low, with that line's item and decrement saved; otherwise it completes like `PlaceLines` without notifying |
| Orders.Fulfil | app/Http/Controllers/OrderController.php:84-115 | after validation: appends one Pending/Pending order with the next id, the order number and the cart total, saves every line's item, decrements every line and notifies as `CheckoutNotices` says, then empties the cart |
| Orders.FulfilAsWritten | app/Http/Controllers/OrderController.php:84-115 | as written: the same order; either every line is placed without a product going low and the cart is emptied, or placing stops right after the first line that leaves its product low and the cart is kept |
| Orders.Checkout | app/Http/Controllers/OrderController.php:55-121 | the payment method is checked first, then an empty cart, then stock; a missing product or a line asking more than its product's stock is reported with that line; only an order that passes all three is created; the order is Pending/Pending with the cart total; its items, the stock and the notifications follow the specification functions; the cart ends empty; every failure changes no table |
| Orders.CheckoutAsWritten | app/Http/Controllers/OrderController.php:55-121 | as written: the same checks and failure reports, and the same new order; a cart whose checkout drives a product low ends `Aborted`, with the order saved, the items and decrements up to that line saved, the cart kept and no notification; otherwise the items, stock and emptied cart are as in `Checkout`, with no notification |
| Orders.UpdateStatus | app/Http/Controllers/OrderController.php:153-175 | rejects an unknown status name, then a missing order; otherwise sets the status and the acting staff id; moves `updated_at` only when something changed; notifies the order's owner |
| Orders.UpdatePaymentStatus | app/Http/Controllers/OrderController.php:184-202 | rejects an unknown payment status, then a missing order; otherwise changes only the payment status, plus `updated_at` when it differs |
| Orders.FindOrder | app/Http/Controllers/OrderController.php:132 | returns an order with that id when one exists; returns none when no order has that id |
| Orders.IndexVisibility | app/Http/Controllers/OrderController.php:37-42 | a customer lists exactly that customer's own orders; any other role lists every order; both listings are newest first |
| Orders.Show | app/Http/Controllers/OrderController.php:130-144 | not found if and only if no order has the id; refused only for a customer and only when an order with the id belongs to someone else; a customer opening their own order, and any other viewer, sees it |
| Dashboard.TotalIncomeAsSum | app/Http/Controllers/DashboardController.php:29-31 | total income is the sum over all orders of the amount of each paid order created in the range, with 0 for every other order |
| Dashboard.TotalIncomeAppend | app/Http/Controllers/DashboardController.php:29-31 | income is additive over any split of the orders table |
| Dashboard.NonEarningOrderAddsNothing | app/Http/Controllers/DashboardController.php:29-31 | an unpaid or out-of-range order, including every freshly checked-out order, leaves the income unchanged |
| Dashboard.EarningOrderAddsAmount | app/Http/Controllers/DashboardController.php:29-31 | a paid order created in the range adds exactly its amount |
| Dashboard.PaymentChangeIncome | app/Http/Controllers/DashboardController.php:29-31 | a payment-status update moves the income by the order's amount exactly when it makes the order start or stop counting |
| Dashboard.OrdersByStatusGroups | app/Http/Controllers/DashboardController.php:34-37 | a status has a group exactly when some order created in the range has that status |
| Dashboard.StatusCountsPartition | app/Http/Controllers/DashboardController.php:34-37 | the six status counts add up to the number of orders created in the range |
| Dashboard.LatestShape | app/Http/Controllers/DashboardController.php:40-43 | recent orders: min(n, table size) orders of the table, newest first, every order when the table is small enough, and no order newer than the last listed is left out |
| Dashboard.TallyKeys | app/Http/Controllers/DashboardController.php:66 | the grouping has a row exactly for each product that has counted items |
| Dashboard.TallyDistinct | app/Http/Controllers/DashboardController.php:66 | the grouping has one row per product |
| Dashboard.TallyRowStep | app/Http/Controllers/DashboardController.php:60-66 | folding one more item keeps every row equal to its product's name and totals over the items so far |
| Dashboard.TallyTotals | app/Http/Controllers/DashboardController.php:60-66 | every group row carries its product's name, its total quantity and its total quantity x price over the counted items |
| Dashboard.TallyCorrect | app/Http/Controllers/DashboardController.php:55-66 | the grouping is exactly one row per sold product, with that product's totals |
| Dashboard.TopSellingShape | app/Http/Controllers/DashboardController.php:67-68 | top sellers: exactly min(5, number of product groups) rows, largest quantity first |
| Dashboard.TopSellingRows | app/Http/Controllers/DashboardController.php:55-66 | each top-seller row is an existing product with its name and its totals over the items of paid orders created in the range |
| Dashboard.TopSellingKeepsLarger | app/Http/Controllers/DashboardController.php:55-69 | a product whose sold quantity beats the last top-seller row is listed |
| Dashboard.NewCustomersBounded | app/Http/Controllers/DashboardController.php:72-79 | new customers in the range never outnumber all customers |
| Dashboard.ApprovalQueues | app/Http/Controllers/DashboardController.php:50-52 | the admin queue holds exactly the requests awaiting admin approval, the warehouse queue exactly those approved by the admin and awaiting the warehouse, and no request is in both (warehouse queue at DashboardController.php:101-104) |
| Dashboard.RecentApprovedRequestsShape | app/Http/Controllers/DashboardController.php:111-115 | ten warehouse-approved requests, or all of them when there are fewer, and nothing else, most recently updated first |
| Dashboard.RecentApprovedRequestsComplete | app/Http/Controllers/DashboardController.php:111-115 | an approved request is listed whenever the list is short of ten or the request is more recently updated than the last row listed |
| Dashboard.InventoryOrdered | app/Http/Controllers/DashboardController.php:118-122 | with validated thresholds, out-of-stock count <= low-stock count <= product count |
| Dashboard.PendingOrdersQueue | app/Http/Controllers/DashboardController.php:141-144 | the staff's pending list holds exactly the Pending orders, oldest first |
| Dashboard.ProcessedOrdersShape | app/Http/Controllers/DashboardController.php:147-151 | ten orders whose staff id is this staff member, or all of them when there are fewer, and nothing else, most recently updated first |
| Dashboard.ProcessedOrdersComplete | app/Http/Controllers/DashboardController.php:147-151 | an order this staff member handled is listed whenever the list is short of ten or the order is more recently updated than the last row listed |
| Dashboard.ReadyForDeliveryQueue | app/Http/Controllers/DashboardController.php:154-157 | the delivery list holds exactly the Processing orders, least recently updated first |
| Dashboard.CustomerRecentOrdersOwn | app/Http/Controllers/DashboardController.php:175-179 | five of the customer's own orders, or all of them when there are fewer, and no one else's, newest first |
| Dashboard.CustomerRecentOrdersComplete | app/Http/Controllers/DashboardController.php:175-179 | an own order is listed whenever the list is short of five or the order is newer than the last row listed |
| Dashboard.CustomerOrderStatsBounded | app/Http/Controllers/DashboardController.php:182-190 | in-progress (Pending or Processing) plus delivered orders never exceed the customer's order count |
| Dashboard.CartSummaryEmpty | app/Http/Controllers/DashboardController.php:193-197 | no cart, or a cart just emptied by checkout, shows (0, 0); otherwise the count is the number of cart items |
| Scenarios.FirstLineGoesLow | app/Http/Controllers/OrderController.php:103-111 | for the example cart, the pre-check passes, the first line leaves product 1 low at 2 and the second line does not leave its product low |
| Scenarios.CheckoutAsWrittenExample | app/Http/Controllers/OrderController.php:108-111 | as written, the example checkout ends `Aborted` at line 0 with one item saved, product 1 at 2, product 2 untouched, the cart kept and nobody notified |
| Scenarios.ExampleTotal | app/Http/Controllers/OrderController.php:87 | the example cart's total is 3 x 10.00 + 1 x 5.00 = 35.00 |
| Scenarios.ExampleOrderNumber | app/Http/Controllers/OrderController.php:86 | the order number for suffix `abcdefghij` is `ORD-ABCDEFGHIJ` |
| Scenarios.ExampleRecipients | app/Http/Controllers/ProductController.php:145-154 | in the seeded store, with one Admin role and one admin, the admin is the only low-stock recipient |
| Scenarios.ExampleNotices | app/Http/Controllers/OrderController.php:103-111 | the corrected checkout of the example cart sends the admin exactly one low-stock notification, about product 1 |
| Scenarios.CheckoutExample | app/Http/Controllers/OrderController.php:55-121 | corrected, the same checkout creates a 35.00 order `ORD-ABCDEFGHIJ` with two items, leaves the products at 2 and 8 and the cart empty, and sends the admin one notification |

## Left out

- HTTP status codes, JSON bodies and eager loading (`with`, `load`, `fresh`) are not modelled. Each response is an outcome value carrying the data it reports.
- Categories (`attach`, `sync`, the `categories.*` rule), images and the `index`/`show` listings of products are out of scope.
- Notification delivery (mail, database channel, queues) is not modelled. A notification is a record in the store's log.
- The optional `index` filters `dateRange` and `orderNumber` are left out. They are scopes of the Order model, and app/Models/Order.php is not part of this model.
- `Cart::getTotalAmount` is not shown (app/Models/Cart.php is not part of this model). It is assumed to be the sum of quantity x current price. A line whose product row is gone contributes 0.
- The cart and replenishment-request controllers are not part of this model. Only their tables appear, as read by the dashboards.
- Timestamps are integers, and `whereBetween` is inclusive of both bounds. Dashboard date strings compared with datetime columns are not modelled: a date-only end bound means midnight, so orders later on the end day fall outside the range in the database.
- Validation reads the request as given. Request middleware such as `TrimStrings` (app/Http/Kernel.php is not part of this model) would also trim the stored name and description; the model stores them untrimmed and only uses PHP's `trim` characters to decide `required`.
- Prices are exact integer cents. Inputs with more than two decimals, and the rounding of the `decimal:2` cast, are not modelled.
- Concurrency, database transactions and foreign-key cascades (for example, deleting a product that order items still reference) are not modelled. Requests are applied one at a time.
- `Str::random(10)` and the clock are parameters. Order-number uniqueness is not modelled, because the source neither checks it nor retries.
- A cart line whose product row has been deleted makes the stock check read a property of null. Laravel turns this into an error before anything is written. The error page is not modelled: both checkout models report the outcome as `MissingProduct`.
- Dashboard.TopSellingShape: does not state that the five rows name distinct products, although the grouping it ranks has distinct products (Dashboard.TallyDistinct). SQL's order among equal quantities is unspecified, and the model fixes one.
- Dashboard.LatestShape and the other order-by lemmas state sortedness and membership, not which of several equal-key rows SQL returns first.

## Findings

| source | as written | input that shows it | evidently intended | confidence | as-written member | corrected member |
|---|---|---|---|---|---|---|
| app/Http/Controllers/OrderController.php:108-111 | checkout calls `sendLowStockNotification`, declared private at ProductController.php:145, from outside its class, which raises an exception; with no transaction, the order, the items and decrements so far stay saved, the cart is not cleared and no admin is notified | a cart taking 3 of a product with stock 5 and threshold 3, followed by 1 of another product | the admins are notified and the checkout completes: all items and decrements saved, cart emptied | high (not executed) | Orders.CheckoutAsWritten, exhibited by Scenarios.CheckoutAsWrittenExample | Orders.Checkout, exhibited by Scenarios.CheckoutExample |
