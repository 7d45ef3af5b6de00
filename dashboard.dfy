/**
 * Dashboards (app/Http/Controllers/DashboardController.php): the read-only
 * aggregations shown to each role. Each query is a function of the tables;
 * a date range is a pair of instants and `whereBetween` includes both ends.
 */
module Dashboard {
  import opened Wrappers
  import opened Seqs
  import opened Accounts
  import opened Catalog
  import opened Records
  import opened Database
  import opened Products
  import opened CheckoutSpec

  /** `whereBetween(column, [start, end])`: both bounds included. */
  predicate InRange(t: int, start: int, end: int)
  {
    start <= t <= end
  }

  function CreatedAt(o: Order): int { o.createdAt }

  function UpdatedAt(o: Order): int { o.updatedAt }

  /** Sorting key for ascending order by creation: `SortDesc` on it puts the oldest first. */
  function OldestCreatedFirst(o: Order): int { -o.createdAt }

  function OldestUpdatedFirst(o: Order): int { -o.updatedAt }

  // ---------------------------------------------------------------------
  // Admin dashboard
  // ---------------------------------------------------------------------

  /** An order whose amount counts as income: paid and created within the range. */
  predicate Earns(o: Order, start: int, end: int)
  {
    o.paymentStatus == PaymentStatus.Paid && InRange(o.createdAt, start, end)
  }

  /** `total_income`: the amounts of the paid orders created within the range. */
  function TotalIncome(orders: seq<Order>, start: int, end: int): int
  {
    SumOf(Filter(orders, (o: Order) => Earns(o, start, end)), (o: Order) => o.totalCents)
  }

  /** Income is the sum over all orders of the amount of each order that earns, and 0 for the others. */
  lemma {:induction false} TotalIncomeAsSum(orders: seq<Order>, start: int, end: int)
    ensures TotalIncome(orders, start, end)
         == SumOf(orders, (o: Order) => if Earns(o, start, end) then o.totalCents else 0)
  {
    if orders != [] {
      TotalIncomeAsSum(orders[1..], start, end);
    }
  }

  /** Income is additive over a split of the orders table. */
  lemma TotalIncomeAppend(a: seq<Order>, b: seq<Order>, start: int, end: int)
    ensures TotalIncome(a + b, start, end) == TotalIncome(a, start, end) + TotalIncome(b, start, end)
  {
    var p := (o: Order) => Earns(o, start, end);
    FilterAppend(a, b, p);
    SumOfAppend(Filter(a, p), Filter(b, p), (o: Order) => o.totalCents);
  }

  /**
   * An order that is not paid, or lies outside the range, adds nothing:
   * in particular a checkout, whose order starts with payment Pending,
   * leaves the income unchanged.
   */
  lemma NonEarningOrderAddsNothing(orders: seq<Order>, o: Order, start: int, end: int)
    requires !Earns(o, start, end)
    ensures TotalIncome(orders + [o], start, end) == TotalIncome(orders, start, end)
  {
    TotalIncomeAppend(orders, [o], start, end);
    assert Filter([o], (o: Order) => Earns(o, start, end)) == [];
  }

  /** A paid order within the range adds exactly its amount. */
  lemma EarningOrderAddsAmount(orders: seq<Order>, o: Order, start: int, end: int)
    requires Earns(o, start, end)
    ensures TotalIncome(orders + [o], start, end) == TotalIncome(orders, start, end) + o.totalCents
  {
    TotalIncomeAppend(orders, [o], start, end);
    var f := (o: Order) => o.totalCents;
    assert Filter([o], (o: Order) => Earns(o, start, end)) == [o];
    assert SumOf([o], f) == f(o) + SumOf([o][1..], f);
    assert [o][1..] == [];
  }

  /**
   * Changing one order's payment status moves the income by that order's
   * amount exactly when the change makes it start or stop counting.
   */
  lemma PaymentChangeIncome(orders: seq<Order>, k: nat, after: Order, start: int, end: int)
    requires k < |orders|
    requires after.totalCents == orders[k].totalCents && after.createdAt == orders[k].createdAt
    ensures TotalIncome(orders[k := after], start, end) == TotalIncome(orders, start, end)
      + (if Earns(after, start, end) then after.totalCents else 0)
      - (if Earns(orders[k], start, end) then orders[k].totalCents else 0)
  {
    var before, rest := orders[..k], orders[k + 1..];
    assert orders == before + [orders[k]] + rest;
    assert orders[k := after] == before + [after] + rest;
    TotalIncomeAppend(before + [orders[k]], rest, start, end);
    TotalIncomeAppend(before + [after], rest, start, end);
    if Earns(orders[k], start, end) {
      EarningOrderAddsAmount(before, orders[k], start, end);
    } else {
      NonEarningOrderAddsNothing(before, orders[k], start, end);
    }
    if Earns(after, start, end) {
      EarningOrderAddsAmount(before, after, start, end);
    } else {
      NonEarningOrderAddsNothing(before, after, start, end);
    }
  }

  /** Orders created within the range with the given status. */
  function StatusCount(orders: seq<Order>, status: OrderStatus, start: int, end: int): nat
  {
    |Filter(orders, (o: Order) => o.orderStatus == status && InRange(o.createdAt, start, end))|
  }

  /** Orders created within the range, whatever their status. */
  function RangeCount(orders: seq<Order>, start: int, end: int): nat
  {
    |Filter(orders, (o: Order) => InRange(o.createdAt, start, end))|
  }

  const AllOrderStatuses: set<OrderStatus> :=
    {OrderStatus.Pending, OrderStatus.Approved, OrderStatus.Rejected,
     OrderStatus.Processing, OrderStatus.Shipped, OrderStatus.Delivered}

  /** `orders_by_status`: one group per status that occurs within the range, with its count. */
  function OrdersByStatus(orders: seq<Order>, start: int, end: int): map<OrderStatus, nat>
  {
    map status | status in AllOrderStatuses && StatusCount(orders, status, start, end) > 0
      :: StatusCount(orders, status, start, end)
  }

  /** A status has a group exactly when some order created within the range has it. */
  lemma OrdersByStatusGroups(orders: seq<Order>, start: int, end: int, status: OrderStatus)
    ensures status in OrdersByStatus(orders, start, end) <==>
      exists o :: o in orders && o.orderStatus == status && InRange(o.createdAt, start, end)
  {
    var p := (o: Order) => o.orderStatus == status && InRange(o.createdAt, start, end);
    if StatusCount(orders, status, start, end) > 0 {
      var o := Filter(orders, p)[0];
      assert o in Filter(orders, p);
    }
    if o :| o in orders && o.orderStatus == status && InRange(o.createdAt, start, end) {
      FilterComplete(orders, p, o);
    }
  }

  /** The six group counts add up to the number of orders created within the range. */
  lemma {:induction false} StatusCountsPartition(orders: seq<Order>, start: int, end: int)
    ensures StatusCount(orders, OrderStatus.Pending, start, end) + StatusCount(orders, OrderStatus.Approved, start, end)
          + StatusCount(orders, OrderStatus.Rejected, start, end) + StatusCount(orders, OrderStatus.Processing, start, end)
          + StatusCount(orders, OrderStatus.Shipped, start, end) + StatusCount(orders, OrderStatus.Delivered, start, end)
         == RangeCount(orders, start, end)
  {
    if orders != [] {
      StatusCountsPartition(orders[1..], start, end);
    }
  }

  /** The `n` orders created last, newest first (`orderBy('created_at', 'desc')->limit(n)`). */
  function Latest(orders: seq<Order>, n: nat): seq<Order>
  {
    TopBy(orders, CreatedAt, n)
  }

  /**
   * `recent_orders` (n = 10) and the customer's recent orders (n = 5):
   * at most n orders of the table, newest first, all of them when there are
   * no more than n, and no order newer than the last one listed is missing.
   */
  lemma LatestShape(orders: seq<Order>, n: nat)
    ensures |Latest(orders, n)| == Min(n, |orders|)
    ensures forall i, j :: 0 <= i < j < |Latest(orders, n)| ==>
      Latest(orders, n)[i].createdAt >= Latest(orders, n)[j].createdAt
    ensures forall o :: o in Latest(orders, n) ==> o in orders
    ensures n >= |orders| ==> multiset(Latest(orders, n)) == multiset(orders)
    ensures forall o :: (o in orders && 0 < |Latest(orders, n)|
      && o.createdAt > Latest(orders, n)[|Latest(orders, n)| - 1].createdAt) ==> o in Latest(orders, n)
  {
    TopByShape(orders, CreatedAt, n);
    var t := Latest(orders, n);
    forall i, j | 0 <= i < j < |t| ensures t[i].createdAt >= t[j].createdAt {
      assert CreatedAt(t[i]) >= CreatedAt(t[j]);
    }
    forall o | o in orders && 0 < |t| && o.createdAt > t[|t| - 1].createdAt ensures o in t {
      TopByKeepsLarger(orders, CreatedAt, n, o);
    }
  }

  /** `pending_request_orders`: the requests still waiting for the admin. */
  function PendingRequestOrders(requests: seq<RequestOrder>): seq<RequestOrder>
  {
    Filter(requests, (r: RequestOrder) => r.adminApproval == Approval.Pending)
  }

  /** Top sellers: a product's aggregated sales over the counted order items. */
  datatype SalesRow = SalesRow(productId: nat, name: string, totalQuantity: int, totalRevenue: int)

  /**
   * An order item that the top-seller join keeps: its product row exists
   * and its order is paid and created within the range.
   */
  predicate Sold(item: OrderItem, orders: seq<Order>, products: map<nat, Product>, start: int, end: int)
  {
    item.productId in products && exists o :: o in orders && o.id == item.orderId && Earns(o, start, end)
  }

  function SoldItems(items: seq<OrderItem>, orders: seq<Order>, products: map<nat, Product>, start: int, end: int)
    : seq<OrderItem>
  {
    Filter(items, (it: OrderItem) => Sold(it, orders, products, start, end))
  }

  function NameOf(products: map<nat, Product>, id: nat): string
  {
    if id in products then products[id].name else ""
  }

  /** Quantity of product `id` over the items (the reference for a group's `total_quantity`). */
  function QuantityOf(items: seq<OrderItem>, id: nat): int
  {
    SumOf(Filter(items, (it: OrderItem) => it.productId == id), (it: OrderItem) => it.quantity)
  }

  /** Revenue of product `id` over the items at their frozen prices (the reference for `total_revenue`). */
  function RevenueOf(items: seq<OrderItem>, id: nat): int
  {
    SumOf(Filter(items, (it: OrderItem) => it.productId == id), (it: OrderItem) => it.quantity * it.priceCents)
  }

  /** The position of product `id`'s row, if it has one. */
  function RowOf(rows: seq<SalesRow>, id: nat): (r: Option<nat>)
    ensures r.Some? ==> r.value < |rows| && rows[r.value].productId == id
    ensures r.None? ==> forall k :: 0 <= k < |rows| ==> rows[k].productId != id
  {
    if rows == [] then None
    else if rows[|rows| - 1].productId == id then Some(|rows| - 1)
    else RowOf(rows[..|rows| - 1], id)
  }

  /**
   * `groupBy('products.id')` with the two sums: the items folded one by
   * one, a new row on a product's first item and its row updated after.
   */
  function Tally(items: seq<OrderItem>, products: map<nat, Product>): seq<SalesRow>
  {
    if items == [] then []
    else
      var rows := Tally(items[..|items| - 1], products);
      var it := items[|items| - 1];
      match RowOf(rows, it.productId)
      case Some(k) =>
        rows[k := rows[k].(totalQuantity := rows[k].totalQuantity + it.quantity,
                           totalRevenue := rows[k].totalRevenue + it.quantity * it.priceCents)]
      case None =>
        rows + [SalesRow(it.productId, NameOf(products, it.productId), it.quantity, it.quantity * it.priceCents)]
  }

  /** Appending an item moves only its own product's totals. */
  lemma TotalsAppend(items: seq<OrderItem>, it: OrderItem, id: nat)
    ensures QuantityOf(items + [it], id) == QuantityOf(items, id) + (if it.productId == id then it.quantity else 0)
    ensures RevenueOf(items + [it], id)
         == RevenueOf(items, id) + (if it.productId == id then it.quantity * it.priceCents else 0)
  {
    var p := (x: OrderItem) => x.productId == id;
    FilterAppend(items, [it], p);
    SumOfAppend(Filter(items, p), Filter([it], p), (x: OrderItem) => x.quantity);
    SumOfAppend(Filter(items, p), Filter([it], p), (x: OrderItem) => x.quantity * x.priceCents);
  }

  /** A grouping row: the product's name and its totals over the items. */
  predicate RowFor(row: SalesRow, items: seq<OrderItem>, products: map<nat, Product>)
  {
    && row.name == NameOf(products, row.productId)
    && row.totalQuantity == QuantityOf(items, row.productId)
    && row.totalRevenue == RevenueOf(items, row.productId)
  }

  /** Two groupings with the same products in the same places find the same row for every product. */
  lemma {:induction false} RowOfSameIds(a: seq<SalesRow>, b: seq<SalesRow>, id: nat)
    requires |a| == |b| && forall j :: 0 <= j < |a| ==> a[j].productId == b[j].productId
    ensures RowOf(a, id) == RowOf(b, id)
  {
    if a != [] {
      RowOfSameIds(a[..|a| - 1], b[..|b| - 1], id);
    }
  }

  /** Folding one more item keeps every row in place: its own row is updated or a row is appended. */
  lemma TallyGrows(items: seq<OrderItem>, it: OrderItem, products: map<nat, Product>)
    ensures var rows, out := Tally(items, products), Tally(items + [it], products);
      && |rows| <= |out| <= |rows| + 1
      && (forall j :: 0 <= j < |rows| ==> out[j].productId == rows[j].productId)
      && (|out| == |rows| <==> RowOf(rows, it.productId).Some?)
      && (|out| == |rows| + 1 ==> out[|rows|].productId == it.productId)
  {
    assert (items + [it])[..|items|] == items;
  }

  /** The grouping has a row for exactly the products that have items. */
  lemma {:induction false} TallyKeys(items: seq<OrderItem>, products: map<nat, Product>)
    ensures forall id :: RowOf(Tally(items, products), id).Some? <==> exists it :: it in items && it.productId == id
  {
    if items != [] {
      var n := |items| - 1;
      var init, it := items[..n], items[n];
      assert items == init + [it];
      TallyKeys(init, products);
      TallyGrows(init, it, products);
      var rows := Tally(init, products);
      var out := Tally(items, products);
      forall id ensures RowOf(out, id).Some? <==> exists x :: x in items && x.productId == id {
        if |out| == |rows| {
          RowOfSameIds(out, rows, id);
          if id == it.productId {
            assert RowOf(rows, id).Some?;
          }
        } else {
          assert out[..|rows|] == rows;
          if id == it.productId {
            assert RowOf(out, id) == Some(|rows|);
          } else {
            assert RowOf(out, id) == RowOf(rows, id);
          }
        }
      }
    }
  }

  /** The grouping has one row per product. */
  lemma {:induction false} TallyDistinct(items: seq<OrderItem>, products: map<nat, Product>)
    ensures forall j, k :: 0 <= j < k < |Tally(items, products)| ==>
      Tally(items, products)[j].productId != Tally(items, products)[k].productId
  {
    if items != [] {
      var n := |items| - 1;
      var init, it := items[..n], items[n];
      assert items == init + [it];
      TallyDistinct(init, products);
      TallyGrows(init, it, products);
      var rows := Tally(init, products);
      var out := Tally(items, products);
      forall j, k | 0 <= j < k < |out| ensures out[j].productId != out[k].productId {
        if k < |rows| {
          assert out[j].productId == rows[j].productId && out[k].productId == rows[k].productId;
        } else {
          assert RowOf(rows, it.productId).None? && out[k].productId == it.productId;
        }
      }
    }
  }

  /** No item of product `id` means zero totals for it. */
  lemma NoItemsNoTotals(items: seq<OrderItem>, id: nat)
    requires forall it :: it in items ==> it.productId != id
    ensures QuantityOf(items, id) == 0 && RevenueOf(items, id) == 0
  {
    var p := (it: OrderItem) => it.productId == id;
    if Filter(items, p) != [] {
      assert Filter(items, p)[0] in Filter(items, p);
    }
  }

  /** Folding item `it` keeps row `j` equal to its product's name and totals, given that the rows before it were. */
  lemma TallyRowStep(init: seq<OrderItem>, it: OrderItem, products: map<nat, Product>, j: nat)
    requires forall k :: 0 <= k < |Tally(init, products)| ==> RowFor(Tally(init, products)[k], init, products)
    requires forall a, b :: 0 <= a < b < |Tally(init, products)| ==>
      Tally(init, products)[a].productId != Tally(init, products)[b].productId
    requires RowOf(Tally(init, products), it.productId).None? ==> forall x :: x in init ==> x.productId != it.productId
    requires j < |Tally(init + [it], products)|
    ensures RowFor(Tally(init + [it], products)[j], init + [it], products)
  {
    TallyGrows(init, it, products);
    var rows := Tally(init, products);
    if RowOf(rows, it.productId).Some? {
      var k := RowOf(rows, it.productId).value;
      assert rows[j].productId == it.productId ==> j == k by {
        if j < k { assert rows[j].productId != rows[k].productId; }
        else if k < j { assert rows[k].productId != rows[j].productId; }
      }
      TallyRowHit(init, it, products, j);
    } else {
      TallyRowNew(init, it, products, j);
    }
  }

  /** Folding an item whose product already has a row adds the item's quantity and revenue to that row only. */
  lemma TallyHit(init: seq<OrderItem>, it: OrderItem, products: map<nat, Product>)
    requires RowOf(Tally(init, products), it.productId).Some?
    ensures var rows, k := Tally(init, products), RowOf(Tally(init, products), it.productId).value;
      Tally(init + [it], products)
        == rows[k := rows[k].(totalQuantity := rows[k].totalQuantity + it.quantity,
                              totalRevenue := rows[k].totalRevenue + it.quantity * it.priceCents)]
  {
    assert (init + [it])[..|init|] == init && (init + [it])[|init|] == it;
  }

  /** Folding an item whose product already has a row: row `j` keeps matching its product's totals. */
  lemma TallyRowHit(init: seq<OrderItem>, it: OrderItem, products: map<nat, Product>, j: nat)
    requires RowOf(Tally(init, products), it.productId).Some?
    requires j < |Tally(init, products)| && RowFor(Tally(init, products)[j], init, products)
    requires Tally(init, products)[j].productId == it.productId ==> j == RowOf(Tally(init, products), it.productId).value
    ensures j < |Tally(init + [it], products)| && RowFor(Tally(init + [it], products)[j], init + [it], products)
  {
    var rows := Tally(init, products);
    var k := RowOf(rows, it.productId).value;
    var out := Tally(init + [it], products);
    TallyHit(init, it, products);
    var id := rows[j].productId;
    assert QuantityOf(init + [it], id) == QuantityOf(init, id) + (if it.productId == id then it.quantity else 0)
        && RevenueOf(init + [it], id) == RevenueOf(init, id) + (if it.productId == id then it.quantity * it.priceCents else 0) by {
      TotalsAppend(init, it, id);
    }
    if j == k {
      assert out[j] == rows[j].(totalQuantity := rows[j].totalQuantity + it.quantity,
                                totalRevenue := rows[j].totalRevenue + it.quantity * it.priceCents);
    } else {
      assert out[j] == rows[j] && it.productId != id;
    }
  }

  /** Folding an item of a product not seen before: the old rows keep their totals and the new row is the item's. */
  lemma TallyRowNew(init: seq<OrderItem>, it: OrderItem, products: map<nat, Product>, j: nat)
    requires RowOf(Tally(init, products), it.productId).None?
    requires forall x :: x in init ==> x.productId != it.productId
    requires j <= |Tally(init, products)|
    requires j < |Tally(init, products)| ==> RowFor(Tally(init, products)[j], init, products)
    ensures j < |Tally(init + [it], products)| && RowFor(Tally(init + [it], products)[j], init + [it], products)
  {
    assert (init + [it])[..|init|] == init && (init + [it])[|init|] == it;
    var rows := Tally(init, products);
    var out := Tally(init + [it], products);
    assert out == rows + [SalesRow(it.productId, NameOf(products, it.productId), it.quantity, it.quantity * it.priceCents)];
    TotalsAppend(init, it, out[j].productId);
    if j == |rows| {
      NoItemsNoTotals(init, it.productId);
    } else {
      assert out[j] == rows[j];
    }
  }

  /** Every row of the grouping carries its product's name and totals over the items. */
  lemma {:induction false} TallyTotals(items: seq<OrderItem>, products: map<nat, Product>)
    ensures forall j :: 0 <= j < |Tally(items, products)| ==> RowFor(Tally(items, products)[j], items, products)
  {
    if items != [] {
      var n := |items| - 1;
      var init, it := items[..n], items[n];
      assert items == init + [it];
      TallyTotals(init, products);
      TallyDistinct(init, products);
      TallyKeys(init, products);
      forall j | 0 <= j < |Tally(items, products)| ensures RowFor(Tally(items, products)[j], items, products) {
        TallyRowStep(init, it, products, j);
      }
    }
  }

  /**
   * The grouping is correct: one row per product that has items, none for
   * any other, each carrying the product's totals over the items.
   */
  lemma TallyCorrect(items: seq<OrderItem>, products: map<nat, Product>)
    ensures forall j, k :: 0 <= j < k < |Tally(items, products)| ==>
      Tally(items, products)[j].productId != Tally(items, products)[k].productId
    ensures forall row :: row in Tally(items, products) ==> RowFor(row, items, products)
    ensures forall row :: row in Tally(items, products) ==> exists it :: it in items && it.productId == row.productId
    ensures forall it :: it in items ==> RowOf(Tally(items, products), it.productId).Some?
  {
    TallyKeys(items, products);
    TallyDistinct(items, products);
    TallyTotals(items, products);
    var rows := Tally(items, products);
    forall row | row in rows ensures exists it :: it in items && it.productId == row.productId {
      assert RowOf(rows, row.productId).Some?;
    }
  }

  /** `top_selling_products`: the five products with the largest sold quantity among counted items. */
  function TopSelling(items: seq<OrderItem>, orders: seq<Order>, products: map<nat, Product>, start: int, end: int)
    : seq<SalesRow>
  {
    TopBy(Tally(SoldItems(items, orders, products, start, end), products), (r: SalesRow) => r.totalQuantity, 5)
  }

  /** Top sellers: five rows, or every group when there are fewer, largest quantity first. */
  lemma TopSellingShape(items: seq<OrderItem>, orders: seq<Order>, products: map<nat, Product>, start: int, end: int)
    ensures var top := TopSelling(items, orders, products, start, end);
      && |top| == Min(5, |Tally(SoldItems(items, orders, products, start, end), products)|)
      && (forall i, j :: 0 <= i < j < |top| ==> top[i].totalQuantity >= top[j].totalQuantity)
  {
    var rows := Tally(SoldItems(items, orders, products, start, end), products);
    var key := (r: SalesRow) => r.totalQuantity;
    var top := TopSelling(items, orders, products, start, end);
    TopByShape(rows, key, 5);
    forall i, j | 0 <= i < j < |top| ensures top[i].totalQuantity >= top[j].totalQuantity {
      assert key(top[i]) >= key(top[j]);
    }
  }

  /**
   * Each top-seller row is an existing product with its name and its totals
   * over the items of paid orders created within the range.
   */
  lemma TopSellingRows(items: seq<OrderItem>, orders: seq<Order>, products: map<nat, Product>, start: int, end: int)
    ensures var sold := SoldItems(items, orders, products, start, end);
      forall row :: row in TopSelling(items, orders, products, start, end) ==>
        row.productId in products && RowFor(row, sold, products)
  {
    var sold := SoldItems(items, orders, products, start, end);
    var rows := Tally(sold, products);
    TallyCorrect(sold, products);
    TopByShape(rows, (r: SalesRow) => r.totalQuantity, 5);
    forall row | row in TopSelling(items, orders, products, start, end)
      ensures row.productId in products && RowFor(row, sold, products)
    {
      assert row in rows;
      var x :| x in sold && x.productId == row.productId;
    }
  }

  /** A product whose sold quantity beats the last top-seller row is among the top sellers. */
  lemma TopSellingKeepsLarger(items: seq<OrderItem>, orders: seq<Order>, products: map<nat, Product>, start: int, end: int,
                              it: OrderItem)
    requires it in SoldItems(items, orders, products, start, end)
    requires var top := TopSelling(items, orders, products, start, end);
      0 < |top| && QuantityOf(SoldItems(items, orders, products, start, end), it.productId) > top[|top| - 1].totalQuantity
    ensures exists row :: row in TopSelling(items, orders, products, start, end) && row.productId == it.productId
  {
    var sold := SoldItems(items, orders, products, start, end);
    var rows := Tally(sold, products);
    var top := TopSelling(items, orders, products, start, end);
    var key := (r: SalesRow) => r.totalQuantity;
    TallyRowOfItem(sold, products, it);
    var k := RowOf(rows, it.productId).value;
    assert key(rows[k]) > key(top[|top| - 1]);
    TopByKeepsLarger(rows, key, 5, rows[k]);
  }

  /** Every item tallied has a row, and that row holds the item's product totals. */
  lemma TallyRowOfItem(items: seq<OrderItem>, products: map<nat, Product>, it: OrderItem)
    requires it in items
    ensures RowOf(Tally(items, products), it.productId).Some?
    ensures RowFor(Tally(items, products)[RowOf(Tally(items, products), it.productId).value], items, products)
  {
    TallyKeys(items, products);
    TallyTotals(items, products);
  }

  /** `user_stats`: all customers, and those registered within the range. */
  datatype UserStats = UserStats(totalCustomers: nat, newCustomers: nat)

  function CustomerStats(users: seq<User>, start: int, end: int): UserStats
  {
    UserStats(
      |Filter(users, (u: User) => u.IsCustomer())|,
      |Filter(users, (u: User) => u.IsCustomer() && InRange(u.createdAt, start, end))|)
  }

  /** New customers are customers: the second count never exceeds the first. */
  lemma NewCustomersBounded(users: seq<User>, start: int, end: int)
    ensures CustomerStats(users, start, end).newCustomers <= CustomerStats(users, start, end).totalCustomers
  {
    FilterWeaker(users, (u: User) => u.IsCustomer() && InRange(u.createdAt, start, end), (u: User) => u.IsCustomer());
  }

  // ---------------------------------------------------------------------
  // Warehouse dashboard
  // ---------------------------------------------------------------------

  /** `pending_approvals`: approved by the admin, waiting for the warehouse. */
  function PendingApprovals(requests: seq<RequestOrder>): seq<RequestOrder>
  {
    Filter(requests, (r: RequestOrder) => r.adminApproval == Approval.Approved && r.warehouseApproval == Approval.Pending)
  }

  /**
   * The admin's queue and the warehouse's queue hold exactly the requests
   * at their stage, and no request is in both.
   */
  lemma ApprovalQueues(requests: seq<RequestOrder>)
    ensures forall r :: r in PendingRequestOrders(requests) <==> r in requests && r.adminApproval == Approval.Pending
    ensures forall r :: r in PendingApprovals(requests) <==>
      r in requests && r.adminApproval == Approval.Approved && r.warehouseApproval == Approval.Pending
    ensures forall r :: !(r in PendingRequestOrders(requests) && r in PendingApprovals(requests))
  {
    forall r | r in requests && r.adminApproval == Approval.Pending ensures r in PendingRequestOrders(requests) {
      FilterComplete(requests, (r: RequestOrder) => r.adminApproval == Approval.Pending, r);
    }
    forall r | r in requests && r.adminApproval == Approval.Approved && r.warehouseApproval == Approval.Pending
      ensures r in PendingApprovals(requests)
    {
      FilterComplete(requests,
        (r: RequestOrder) => r.adminApproval == Approval.Approved && r.warehouseApproval == Approval.Pending, r);
    }
  }

  function RequestUpdatedAt(r: RequestOrder): int { r.updatedAt }

  /** The requests the warehouse has approved, in table order. */
  function WarehouseApproved(requests: seq<RequestOrder>): seq<RequestOrder>
  {
    Filter(requests, (r: RequestOrder) => r.warehouseApproval == Approval.Approved)
  }

  /** `recent_approved_requests`: the ten warehouse-approved requests updated last. */
  function RecentApprovedRequests(requests: seq<RequestOrder>): seq<RequestOrder>
  {
    TopBy(WarehouseApproved(requests), RequestUpdatedAt, 10)
  }

  lemma RecentApprovedRequestsShape(requests: seq<RequestOrder>)
    ensures |RecentApprovedRequests(requests)| == Min(10, |WarehouseApproved(requests)|)
    ensures forall r :: r in RecentApprovedRequests(requests) ==> r in requests && r.warehouseApproval == Approval.Approved
    ensures forall i, j :: 0 <= i < j < |RecentApprovedRequests(requests)| ==>
      RecentApprovedRequests(requests)[i].updatedAt >= RecentApprovedRequests(requests)[j].updatedAt
  {
    var t := RecentApprovedRequests(requests);
    TopByShape(WarehouseApproved(requests), RequestUpdatedAt, 10);
    forall i, j | 0 <= i < j < |t| ensures t[i].updatedAt >= t[j].updatedAt {
      assert RequestUpdatedAt(t[i]) >= RequestUpdatedAt(t[j]);
    }
  }

  /** No approved request is left out while the list is short of ten or is more recent than its last row. */
  lemma RecentApprovedRequestsComplete(requests: seq<RequestOrder>, r: RequestOrder)
    requires r in requests && r.warehouseApproval == Approval.Approved
    requires var t := RecentApprovedRequests(requests); |t| < 10 || (0 < |t| && r.updatedAt > t[|t| - 1].updatedAt)
    ensures r in RecentApprovedRequests(requests)
  {
    var approved := WarehouseApproved(requests);
    var t := RecentApprovedRequests(requests);
    FilterComplete(requests, (r: RequestOrder) => r.warehouseApproval == Approval.Approved, r);
    TopByShape(approved, RequestUpdatedAt, 10);
    if |t| < 10 {
      assert r in multiset(approved);
    } else {
      assert RequestUpdatedAt(r) > RequestUpdatedAt(t[|t| - 1]);
      TopByKeepsLarger(approved, RequestUpdatedAt, 10, r);
    }
  }

  /** `inventory_summary`. */
  datatype Inventory = Inventory(total: nat, lowStock: nat, outOfStock: nat)

  function OutOfStock(products: map<nat, Product>): set<nat>
  {
    set id | id in products && products[id].quantity == 0
  }

  function InventorySummary(products: map<nat, Product>): Inventory
  {
    Inventory(|products.Keys|, |LowStockProducts(products).Keys|, |OutOfStock(products)|)
  }

  lemma SubsetCard(a: set<nat>, b: set<nat>)
    requires a <= b
    ensures |a| <= |b|
  {
    assert b == a + (b - a);
    assert a * (b - a) == {};
  }

  /**
   * With thresholds of at least 1 (which validation guarantees), an empty
   * product is low on stock, so out-of-stock <= low-stock <= all products.
   */
  lemma InventoryOrdered(products: map<nat, Product>)
    requires forall id :: id in products ==> products[id].InBounds()
    ensures InventorySummary(products).outOfStock <= InventorySummary(products).lowStock
    ensures InventorySummary(products).lowStock <= InventorySummary(products).total
  {
    var low := LowStockProducts(products).Keys;
    forall id | id in OutOfStock(products) ensures id in low {
      EmptyIsLowStock(products[id]);
    }
    SubsetCard(OutOfStock(products), low);
    SubsetCard(low, products.Keys);
  }

  // ---------------------------------------------------------------------
  // Staff dashboard
  // ---------------------------------------------------------------------

  /** `pending_orders`: every Pending order, oldest first. */
  function PendingOrders(orders: seq<Order>): seq<Order>
  {
    SortDesc(Filter(orders, (o: Order) => o.orderStatus == OrderStatus.Pending), OldestCreatedFirst)
  }

  /** The orders this staff member last handled, in table order. */
  function HandledBy(orders: seq<Order>, staffId: nat): seq<Order>
  {
    Filter(orders, (o: Order) => o.staffId == Some(staffId))
  }

  /** `processed_orders`: the ten orders this staff member last touched, most recent first. */
  function ProcessedOrders(orders: seq<Order>, staffId: nat): seq<Order>
  {
    TopBy(HandledBy(orders, staffId), UpdatedAt, 10)
  }

  /** `ready_for_delivery`: every Processing order, least recently updated first. */
  function ReadyForDelivery(orders: seq<Order>): seq<Order>
  {
    SortDesc(Filter(orders, (o: Order) => o.orderStatus == OrderStatus.Processing), OldestUpdatedFirst)
  }

  /** `pending_orders` holds exactly the Pending orders, oldest first. */
  lemma PendingOrdersQueue(orders: seq<Order>)
    ensures forall o :: o in PendingOrders(orders) <==> o in orders && o.orderStatus == OrderStatus.Pending
    ensures forall i, j :: 0 <= i < j < |PendingOrders(orders)| ==>
      PendingOrders(orders)[i].createdAt <= PendingOrders(orders)[j].createdAt
  {
    var pending := PendingOrders(orders);
    SortFilterMembers(orders, (o: Order) => o.orderStatus == OrderStatus.Pending, OldestCreatedFirst);
    forall i, j | 0 <= i < j < |pending| ensures pending[i].createdAt <= pending[j].createdAt {
      assert OldestCreatedFirst(pending[i]) >= OldestCreatedFirst(pending[j]);
    }
  }

  /** `ready_for_delivery` holds exactly the Processing orders, least recently updated first. */
  lemma ReadyForDeliveryQueue(orders: seq<Order>)
    ensures forall o :: o in ReadyForDelivery(orders) <==> o in orders && o.orderStatus == OrderStatus.Processing
    ensures forall i, j :: 0 <= i < j < |ReadyForDelivery(orders)| ==>
      ReadyForDelivery(orders)[i].updatedAt <= ReadyForDelivery(orders)[j].updatedAt
  {
    var ready := ReadyForDelivery(orders);
    SortFilterMembers(orders, (o: Order) => o.orderStatus == OrderStatus.Processing, OldestUpdatedFirst);
    forall i, j | 0 <= i < j < |ready| ensures ready[i].updatedAt <= ready[j].updatedAt {
      assert OldestUpdatedFirst(ready[i]) >= OldestUpdatedFirst(ready[j]);
    }
  }

  /** `processed_orders`: at most ten orders this staff member updated, most recent first. */
  lemma ProcessedOrdersShape(orders: seq<Order>, staffId: nat)
    ensures |ProcessedOrders(orders, staffId)| == Min(10, |HandledBy(orders, staffId)|)
    ensures forall o :: o in ProcessedOrders(orders, staffId) ==> o in orders && o.staffId == Some(staffId)
    ensures forall i, j :: 0 <= i < j < |ProcessedOrders(orders, staffId)| ==>
      ProcessedOrders(orders, staffId)[i].updatedAt >= ProcessedOrders(orders, staffId)[j].updatedAt
  {
    var t := ProcessedOrders(orders, staffId);
    TopByShape(HandledBy(orders, staffId), UpdatedAt, 10);
    forall i, j | 0 <= i < j < |t| ensures t[i].updatedAt >= t[j].updatedAt {
      assert UpdatedAt(t[i]) >= UpdatedAt(t[j]);
    }
  }

  /** No order this staff member handled is left out while the list is short of ten or is more recent than its last row. */
  lemma ProcessedOrdersComplete(orders: seq<Order>, staffId: nat, o: Order)
    requires o in orders && o.staffId == Some(staffId)
    requires var t := ProcessedOrders(orders, staffId); |t| < 10 || (0 < |t| && o.updatedAt > t[|t| - 1].updatedAt)
    ensures o in ProcessedOrders(orders, staffId)
  {
    var mine := HandledBy(orders, staffId);
    var t := ProcessedOrders(orders, staffId);
    FilterComplete(orders, (o: Order) => o.staffId == Some(staffId), o);
    TopByShape(mine, UpdatedAt, 10);
    if |t| < 10 {
      assert o in multiset(mine);
    } else {
      assert UpdatedAt(o) > UpdatedAt(t[|t| - 1]);
      TopByKeepsLarger(mine, UpdatedAt, 10, o);
    }
  }

  // ---------------------------------------------------------------------
  // Customer dashboard
  // ---------------------------------------------------------------------

  function OwnOrders(orders: seq<Order>, userId: nat): seq<Order>
  {
    Filter(orders, (o: Order) => o.userId == userId)
  }

  /** The customer's five newest orders. */
  function CustomerRecentOrders(orders: seq<Order>, userId: nat): seq<Order>
  {
    Latest(OwnOrders(orders, userId), 5)
  }

  /** Only the customer's own orders appear, newest first: five of them, or all of them when there are fewer. */
  lemma CustomerRecentOrdersOwn(orders: seq<Order>, userId: nat)
    ensures |CustomerRecentOrders(orders, userId)| == Min(5, |OwnOrders(orders, userId)|)
    ensures forall o :: o in CustomerRecentOrders(orders, userId) ==> o in orders && o.userId == userId
    ensures forall i, j :: 0 <= i < j < |CustomerRecentOrders(orders, userId)| ==>
      CustomerRecentOrders(orders, userId)[i].createdAt >= CustomerRecentOrders(orders, userId)[j].createdAt
  {
    LatestShape(OwnOrders(orders, userId), 5);
  }

  /** No own order is left out while the list is short of five or is newer than its last row. */
  lemma CustomerRecentOrdersComplete(orders: seq<Order>, userId: nat, o: Order)
    requires o in orders && o.userId == userId
    requires var t := CustomerRecentOrders(orders, userId); |t| < 5 || (0 < |t| && o.createdAt > t[|t| - 1].createdAt)
    ensures o in CustomerRecentOrders(orders, userId)
  {
    var own := OwnOrders(orders, userId);
    var t := CustomerRecentOrders(orders, userId);
    FilterComplete(orders, (o: Order) => o.userId == userId, o);
    TopByShape(own, CreatedAt, 5);
    if |t| < 5 {
      assert o in multiset(own);
    } else {
      assert CreatedAt(o) > CreatedAt(t[|t| - 1]);
      TopByKeepsLarger(own, CreatedAt, 5, o);
    }
  }

  /** `order_stats`. */
  datatype OrderStats = OrderStats(total: nat, pending: nat, delivered: nat)

  /** "Pending" on the customer dashboard covers both Pending and Processing orders. */
  predicate InProgress(o: Order)
  {
    o.orderStatus == OrderStatus.Pending || o.orderStatus == OrderStatus.Processing
  }

  function CustomerOrderStats(orders: seq<Order>, userId: nat): OrderStats
  {
    OrderStats(
      |OwnOrders(orders, userId)|,
      |Filter(orders, (o: Order) => o.userId == userId && InProgress(o))|,
      |Filter(orders, (o: Order) => o.userId == userId && o.orderStatus == OrderStatus.Delivered)|)
  }

  /** The in-progress and delivered counts are disjoint parts of the customer's orders. */
  lemma CustomerOrderStatsBounded(orders: seq<Order>, userId: nat)
    ensures CustomerOrderStats(orders, userId).pending + CustomerOrderStats(orders, userId).delivered
         <= CustomerOrderStats(orders, userId).total
  {
    FilterDisjointWithin(orders,
      (o: Order) => o.userId == userId && InProgress(o),
      (o: Order) => o.userId == userId && o.orderStatus == OrderStatus.Delivered,
      (o: Order) => o.userId == userId);
  }

  /** `cart_summary`: the number of cart items and the cart's total, (0, 0) without a cart. */
  datatype CartSummary = CartSummary(itemsCount: nat, totalCents: int)

  function CustomerCartSummary(carts: map<nat, seq<CartLine>>, products: map<nat, Product>, userId: nat): CartSummary
  {
    var lines := CartLines(carts, userId);
    CartSummary(|lines|, CartTotal(products, lines))
  }

  /**
   * A user without a cart, or whose cart a checkout has just emptied, sees
   * (0, 0); otherwise the count is the number of cart lines.
   */
  lemma CartSummaryEmpty(carts: map<nat, seq<CartLine>>, products: map<nat, Product>, userId: nat)
    ensures userId !in carts ==> CustomerCartSummary(carts, products, userId) == CartSummary(0, 0)
    ensures CustomerCartSummary(carts[userId := []], products, userId) == CartSummary(0, 0)
    ensures userId in carts ==> CustomerCartSummary(carts, products, userId).itemsCount == |carts[userId]|
  {
  }
}
