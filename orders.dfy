/**
 * Orders (app/Http/Controllers/OrderController.php): checkout of the
 * acting user's cart, the two status updates, and what a customer may see.
 */
module Orders {
  import opened Wrappers
  import opened Seqs
  import opened Accounts
  import opened Catalog
  import opened Records
  import opened Database
  import opened Products
  import opened CheckoutSpec

  /** Result of the stock pre-check: all lines stocked, or the first line that fails it. */
  datatype StockCheck = Stocked | Missing(line: nat) | Short(line: nat)

  datatype CheckoutOutcome =
    | CheckoutInvalid                   // the payment method does not exist
    | EmptyCart                         // no cart, or a cart without items
    | MissingProduct(line: nat)         // a line's product row is gone: the source raises an error
    | InsufficientStock(line: nat)      // "Not enough stock for ..."
    | Created(order: Order)
    | Aborted(order: Order, line: nat)  // the request failed after writing part of the order

  datatype StatusOutcome = StatusInvalid | StatusNotFound | StatusUpdated(order: Order)

  datatype ShowOutcome = ShowNotFound | Forbidden | Shown(order: Order)

  /** The stock pre-check: every line against the current stock, stopping at the first failure. */
  method PreCheck(products: map<nat, Product>, lines: seq<CartLine>) returns (c: StockCheck)
    ensures c.Stocked? <==> AllStocked(products, lines)
    ensures !c.Stocked? ==> c.line < |lines| && forall j :: 0 <= j < c.line ==> LineOk(products, lines[j])
    ensures c.Missing? ==> lines[c.line].productId !in products
    ensures c.Short? ==>
      lines[c.line].productId in products && lines[c.line].quantity > products[lines[c.line].productId].quantity
  {
    var i := 0;
    while i < |lines|
      invariant 0 <= i <= |lines|
      invariant forall j :: 0 <= j < i ==> LineOk(products, lines[j])
    {
      var line := lines[i];
      if line.productId !in products {
        return Missing(i);
      }
      if line.quantity > products[line.productId].quantity {
        return Short(i);
      }
      i := i + 1;
    }
    c := Stocked;
  }

  /** Decrements change quantities only, so a store whose products are the decremented table stays valid. */
  lemma StatesKeepBounds(db: Db, loaded: map<nat, Product>, lines: seq<CartLine>, k: nat)
    requires forall id :: id in loaded ==> id < db.nextProductId && loaded[id].InBounds()
    requires forall i :: 0 <= i < |db.orders| ==> db.orders[i].id == i + 1
    requires k <= |lines| && db.products == States(loaded, lines)[k]
    ensures db.Valid()
  {
    StatesAt(loaded, lines, k);
  }

  /** Placing line `i` appends that line's frozen item to the items saved so far. */
  lemma SnapshotStep(orderId: nat, ps: map<nat, Product>, lines: seq<CartLine>, i: nat, items0: seq<OrderItem>)
    requires i < |lines|
    ensures items0 + Snapshot(orderId, ps, lines)[..i + 1]
         == (items0 + Snapshot(orderId, ps, lines)[..i])
            + [OrderItem(orderId, lines[i].productId, lines[i].quantity, PriceOf(ps, lines[i].productId))]
  {
    var items := Snapshot(orderId, ps, lines);
    assert items[..i + 1] == items[..i] + [items[i]];
  }

  /** Placing line `i` appends the admins' notices exactly when that decrement leaves the product low. */
  lemma NoticesStep(ps: map<nat, Product>, lines: seq<CartLine>, recipients: seq<User>, i: nat, notices0: seq<Notice>)
    requires i < |lines|
    ensures LowAfter(ps, lines, i) ==>
      notices0 + NoticesUpTo(ps, lines, recipients, i + 1)
        == (notices0 + NoticesUpTo(ps, lines, recipients, i)) + LowStockNotices(recipients, lines[i].productId)
    ensures !LowAfter(ps, lines, i) ==>
      notices0 + NoticesUpTo(ps, lines, recipients, i + 1) == notices0 + NoticesUpTo(ps, lines, recipients, i)
  {
    var prior := NoticesUpTo(ps, lines, recipients, i);
    if LowAfter(ps, lines, i) {
      var added := LowStockNotices(recipients, lines[i].productId);
      assert NoticesUpTo(ps, lines, recipients, i + 1) == prior + added;
      assert (notices0 + prior) + added == notices0 + (prior + added);
    } else {
      assert NoticesUpTo(ps, lines, recipients, i + 1) == prior + [];
      assert prior + [] == prior;
    }
  }

  /**
   * One iteration of the second loop of `store`: record line `i`'s order
   * item with the loaded price, decrement its product and, when the product
   * is now low, notify the admins.
   */
  method PlaceLine(db: Db, orderId: nat, loaded: map<nat, Product>, lines: seq<CartLine>, i: nat,
                   ghost items0: seq<OrderItem>, ghost notices0: seq<Notice>)
    requires i < |lines| && AllStocked(loaded, lines)
    requires db.products == States(loaded, lines)[i]
    requires db.orderItems == items0 + Snapshot(orderId, loaded, lines)[..i]
    requires db.notices == notices0 + NoticesUpTo(loaded, lines, LowStockRecipients(db.users, db.roles), i)
    modifies db`products, db`orderItems, db`notices
    ensures db.products == States(loaded, lines)[i + 1]
    ensures db.orderItems == items0 + Snapshot(orderId, loaded, lines)[..i + 1]
    ensures db.notices == notices0 + NoticesUpTo(loaded, lines, LowStockRecipients(db.users, db.roles), i + 1)
  {
    var line := lines[i];
    PlaceStep(loaded, lines, i);
    SnapshotStep(orderId, loaded, lines, i, items0);
    NoticesStep(loaded, lines, LowStockRecipients(db.users, db.roles), i, notices0);
    db.orderItems := db.orderItems + [OrderItem(orderId, line.productId, line.quantity, loaded[line.productId].priceCents)];
    var product := db.products[line.productId];
    product := product.(quantity := product.quantity - line.quantity);
    db.products := db.products[line.productId := product];
    if product.IsLowStock() {
      SendLowStockNotification(db, line.productId);
    }
  }

  /**
   * The second loop of `store`: for each line, record its order item with
   * the loaded price, decrement the product's stock and, when the product
   * is now low, notify the admins.
   */
  method PlaceLines(db: Db, orderId: nat, loaded: map<nat, Product>, lines: seq<CartLine>)
    requires db.Valid() && db.products == loaded && AllStocked(loaded, lines)
    modifies db`products, db`orderItems, db`notices
    ensures db.Valid()
    ensures db.products == Decremented(loaded, lines)
    ensures db.orderItems == old(db.orderItems) + Snapshot(orderId, loaded, lines)
    ensures db.notices == old(db.notices) + CheckoutNotices(loaded, lines, LowStockRecipients(db.users, db.roles))
  {
    ghost var admins := LowStockRecipients(db.users, db.roles);
    ghost var items := Snapshot(orderId, loaded, lines);
    var i := 0;
    while i < |lines|
      invariant 0 <= i <= |lines|
      invariant db.products == States(loaded, lines)[i]
      invariant db.orderItems == old(db.orderItems) + items[..i]
      invariant db.notices == old(db.notices) + NoticesUpTo(loaded, lines, admins, i)
    {
      PlaceLine(db, orderId, loaded, lines, i, old(db.orderItems), old(db.notices));
      i := i + 1;
    }
    assert items[..i] == items;
    StatesKeepBounds(db, loaded, lines, i);
  }

  /**
   * The second loop of `store` as written: the low-stock call raises, so
   * the loop stops right after the first decrement that leaves its product
   * low, with that line's item and decrement already saved.
   */
  method PlaceLinesAsWritten(db: Db, orderId: nat, loaded: map<nat, Product>, lines: seq<CartLine>)
    returns (stopped: Option<nat>)
    requires db.Valid() && db.products == loaded && AllStocked(loaded, lines)
    modifies db`products, db`orderItems
    ensures db.Valid()
    ensures stopped.None? ==>
      && (forall j :: 0 <= j < |lines| ==> !LowAfter(loaded, lines, j))
      && db.products == Decremented(loaded, lines)
      && db.orderItems == old(db.orderItems) + Snapshot(orderId, loaded, lines)
    ensures stopped.Some? ==>
      && stopped.value < |lines|
      && LowAfter(loaded, lines, stopped.value)
      && (forall j :: 0 <= j < stopped.value ==> !LowAfter(loaded, lines, j))
      && db.products == States(loaded, lines)[stopped.value + 1]
      && db.orderItems == old(db.orderItems) + Snapshot(orderId, loaded, lines)[..stopped.value + 1]
  {
    ghost var items := Snapshot(orderId, loaded, lines);
    var i := 0;
    while i < |lines|
      invariant 0 <= i <= |lines|
      invariant db.products == States(loaded, lines)[i]
      invariant db.orderItems == old(db.orderItems) + items[..i]
      invariant forall j :: 0 <= j < i ==> !LowAfter(loaded, lines, j)
    {
      var line := lines[i];
      PlaceStep(loaded, lines, i);
      SnapshotStep(orderId, loaded, lines, i, old(db.orderItems));
      db.orderItems := db.orderItems + [OrderItem(orderId, line.productId, line.quantity, loaded[line.productId].priceCents)];
      var product := db.products[line.productId];
      product := product.(quantity := product.quantity - line.quantity);
      db.products := db.products[line.productId := product];
      if product.IsLowStock() {
        StatesKeepBounds(db, loaded, lines, i + 1);
        return Some(i);
      }
      i := i + 1;
    }
    assert items[..i] == items;
    StatesKeepBounds(db, loaded, lines, i);
    stopped := None;
  }

  /** The order `store` creates: Pending/Pending, priced at the cart's total, not yet handled by staff. */
  function NewOrder(id: nat, user: User, paymentMethodId: nat, notes: Option<string>, suffix: string, now: int,
                    total: int): Order
  {
    Order(id, user.id, OrderNumber(suffix), total, paymentMethodId, PaymentStatus.Pending, OrderStatus.Pending,
          notes, None, now, now)
  }

  /**
   * The part of `store` after validation, with the notification delivered:
   * create the order, place every line, then empty the cart.
   */
  method Fulfil(db: Db, user: User, paymentMethodId: nat, notes: Option<string>, suffix: string, now: int,
                lines: seq<CartLine>) returns (order: Order)
    requires db.Valid() && AllStocked(db.products, lines)
    modifies db`products, db`orders, db`orderItems, db`carts, db`notices
    ensures db.Valid()
    ensures order == NewOrder(|old(db.orders)| + 1, user, paymentMethodId, notes, suffix, now, CartTotal(old(db.products), lines))
    ensures db.orders == old(db.orders) + [order]
    ensures db.orderItems == old(db.orderItems) + Snapshot(order.id, old(db.products), lines)
    ensures db.products == Decremented(old(db.products), lines)
    ensures db.carts == old(db.carts)[user.id := []]
    ensures db.notices == old(db.notices) + CheckoutNotices(old(db.products), lines, LowStockRecipients(db.users, db.roles))
  {
    var loaded := db.products;
    order := NewOrder(|db.orders| + 1, user, paymentMethodId, notes, suffix, now, CartTotal(loaded, lines));
    db.orders := db.orders + [order];
    PlaceLines(db, order.id, loaded, lines);
    db.carts := db.carts[user.id := []];
  }

  /**
   * The part of `store` after validation, as written: create the order and
   * place lines until the first one that leaves its product low, where the
   * request fails; only a run that gets through every line empties the cart.
   */
  method FulfilAsWritten(db: Db, user: User, paymentMethodId: nat, notes: Option<string>, suffix: string, now: int,
                         lines: seq<CartLine>) returns (order: Order, stopped: Option<nat>)
    requires db.Valid() && AllStocked(db.products, lines)
    modifies db`products, db`orders, db`orderItems, db`carts
    ensures db.Valid()
    ensures order == NewOrder(|old(db.orders)| + 1, user, paymentMethodId, notes, suffix, now, CartTotal(old(db.products), lines))
    ensures db.orders == old(db.orders) + [order]
    ensures stopped.None? ==>
      && (forall j :: 0 <= j < |lines| ==> !LowAfter(old(db.products), lines, j))
      && db.orderItems == old(db.orderItems) + Snapshot(order.id, old(db.products), lines)
      && db.products == Decremented(old(db.products), lines)
      && db.carts == old(db.carts)[user.id := []]
    ensures stopped.Some? ==>
      && stopped.value < |lines|
      && LowAfter(old(db.products), lines, stopped.value)
      && (forall j :: 0 <= j < stopped.value ==> !LowAfter(old(db.products), lines, j))
      && db.orderItems == old(db.orderItems) + Snapshot(order.id, old(db.products), lines)[..stopped.value + 1]
      && db.products == States(old(db.products), lines)[stopped.value + 1]
      && db.carts == old(db.carts)
  {
    var loaded := db.products;
    order := NewOrder(|db.orders| + 1, user, paymentMethodId, notes, suffix, now, CartTotal(loaded, lines));
    db.orders := db.orders + [order];
    stopped := PlaceLinesAsWritten(db, order.id, loaded, lines);
    if stopped.None? {
      db.carts := db.carts[user.id := []];
    }
  }

  /**
   * `store` with the low-stock notification delivered to the admins: turn
   * the acting user's cart into a Pending/Pending order, freeze each line
   * into an order item, decrement stock line by line with a notification
   * after every decrement that leaves the product low, then empty the cart.
   * `suffix` stands for `Str::random(10)` and `now` for the clock.
   */
  method Checkout(db: Db, user: User, paymentMethodId: nat, notes: Option<string>, suffix: string, now: int)
    returns (r: CheckoutOutcome)
    requires db.Valid()
    modifies db`products, db`orders, db`orderItems, db`carts, db`notices
    ensures db.Valid()
    ensures r.CheckoutInvalid? <==> paymentMethodId !in db.paymentMethods
    ensures r.EmptyCart? <==> paymentMethodId in db.paymentMethods && old(CartLines(db.carts, user.id)) == []
    ensures r.MissingProduct? || r.InsufficientStock? ==>
      var lines := old(CartLines(db.carts, user.id));
      && r.line < |lines|
      && (forall j :: 0 <= j < r.line ==> LineOk(old(db.products), lines[j]))
      && (r.MissingProduct? <==> lines[r.line].productId !in old(db.products))
    ensures r.InsufficientStock? ==>
      var lines := old(CartLines(db.carts, user.id));
      && r.line < |lines| && lines[r.line].productId in old(db.products)
      && lines[r.line].quantity > old(db.products)[lines[r.line].productId].quantity
    ensures r.Created? <==>
      paymentMethodId in db.paymentMethods && old(CartLines(db.carts, user.id)) != []
      && AllStocked(old(db.products), old(CartLines(db.carts, user.id)))
    ensures !r.Aborted?
    ensures !r.Created? ==>
      && db.products == old(db.products) && db.orders == old(db.orders) && db.orderItems == old(db.orderItems)
      && db.carts == old(db.carts) && db.notices == old(db.notices)
    ensures r.Created? ==>
      var lines := old(CartLines(db.carts, user.id));
      && r.order.id == |old(db.orders)| + 1
      && r.order.userId == user.id
      && r.order.orderNumber == OrderNumber(suffix)
      && r.order.totalCents == CartTotal(old(db.products), lines)
      && r.order.orderStatus == OrderStatus.Pending
      && r.order.paymentStatus == PaymentStatus.Pending
      && r.order.paymentMethodId == paymentMethodId && r.order.notes == notes && r.order.staffId == None
      && r.order.createdAt == now && r.order.updatedAt == now
      && db.orders == old(db.orders) + [r.order]
      && db.orderItems == old(db.orderItems) + Snapshot(r.order.id, old(db.products), lines)
      && db.products == Decremented(old(db.products), lines)
      && db.carts == old(db.carts)[user.id := []]
      && db.notices == old(db.notices) + CheckoutNotices(old(db.products), lines, LowStockRecipients(db.users, db.roles))
  {
    if paymentMethodId !in db.paymentMethods {
      return CheckoutInvalid;
    }
    var lines := CartLines(db.carts, user.id);
    if lines == [] {
      return EmptyCart;
    }
    var loaded := db.products;
    var check := PreCheck(loaded, lines);
    if check.Missing? {
      return MissingProduct(check.line);
    } else if check.Short? {
      return InsufficientStock(check.line);
    }

    var order := Fulfil(db, user, paymentMethodId, notes, suffix, now, lines);
    r := Created(order);
  }

  /**
   * `store` as written: the low-stock call reaches a private method of the
   * product controller, which raises an error. The request then stops at
   * the first decrement that leaves a product low, after the order, the
   * items so far and the decrements so far have been saved; the cart keeps
   * its items and no notification goes out.
   */
  method CheckoutAsWritten(db: Db, user: User, paymentMethodId: nat, notes: Option<string>, suffix: string, now: int)
    returns (r: CheckoutOutcome)
    requires db.Valid()
    modifies db`products, db`orders, db`orderItems, db`carts, db`notices
    ensures db.Valid()
    ensures db.notices == old(db.notices)
    ensures r.CheckoutInvalid? <==> paymentMethodId !in db.paymentMethods
    ensures r.EmptyCart? <==> paymentMethodId in db.paymentMethods && old(CartLines(db.carts, user.id)) == []
    ensures r.MissingProduct? || r.InsufficientStock? ==>
      var lines := old(CartLines(db.carts, user.id));
      && r.line < |lines|
      && (forall j :: 0 <= j < r.line ==> LineOk(old(db.products), lines[j]))
      && (r.MissingProduct? <==> lines[r.line].productId !in old(db.products))
    ensures r.InsufficientStock? ==>
      var lines := old(CartLines(db.carts, user.id));
      && r.line < |lines| && lines[r.line].productId in old(db.products)
      && lines[r.line].quantity > old(db.products)[lines[r.line].productId].quantity
    ensures r.Created? || r.Aborted? <==>
      paymentMethodId in db.paymentMethods && old(CartLines(db.carts, user.id)) != []
      && AllStocked(old(db.products), old(CartLines(db.carts, user.id)))
    ensures !(r.Created? || r.Aborted?) ==>
      && db.products == old(db.products) && db.orders == old(db.orders) && db.orderItems == old(db.orderItems)
      && db.carts == old(db.carts)
    ensures r.Created? || r.Aborted? ==>
      var lines := old(CartLines(db.carts, user.id));
      && r.order == NewOrder(|old(db.orders)| + 1, user, paymentMethodId, notes, suffix, now, CartTotal(old(db.products), lines))
      && r.order.orderStatus == OrderStatus.Pending && r.order.paymentStatus == PaymentStatus.Pending
      && db.orders == old(db.orders) + [r.order]
    ensures r.Created? ==>
      var lines := old(CartLines(db.carts, user.id));
      && (forall j :: 0 <= j < |lines| ==> !LowAfter(old(db.products), lines, j))
      && db.orderItems == old(db.orderItems) + Snapshot(r.order.id, old(db.products), lines)
      && db.products == Decremented(old(db.products), lines)
      && db.carts == old(db.carts)[user.id := []]
    ensures r.Aborted? ==>
      var lines := old(CartLines(db.carts, user.id));
      && r.line < |lines|
      && LowAfter(old(db.products), lines, r.line)
      && (forall j :: 0 <= j < r.line ==> !LowAfter(old(db.products), lines, j))
      && db.orderItems == old(db.orderItems) + Snapshot(r.order.id, old(db.products), lines)[..r.line + 1]
      && db.products == States(old(db.products), lines)[r.line + 1]
      && db.carts == old(db.carts)
  {
    if paymentMethodId !in db.paymentMethods {
      return CheckoutInvalid;
    }
    var lines := CartLines(db.carts, user.id);
    if lines == [] {
      return EmptyCart;
    }
    var loaded := db.products;
    var check := PreCheck(loaded, lines);
    if check.Missing? {
      return MissingProduct(check.line);
    } else if check.Short? {
      return InsufficientStock(check.line);
    }

    var order, stopped := FulfilAsWritten(db, user, paymentMethodId, notes, suffix, now, lines);
    if stopped.Some? {
      return Aborted(order, stopped.value);
    }
    r := Created(order);
  }

  /** Eloquent's `save()` moves `updated_at` only when some attribute changed. */
  function Touched(before: Order, after: Order, now: int): Order
  {
    if after == before then before else after.(updatedAt := now)
  }

  /**
   * `updateStatus`: any of the six statuses, from any status, recorded with
   * the acting user as staff; the order's owner is notified.
   */
  method UpdateStatus(db: Db, id: nat, statusName: string, actor: User, now: int) returns (r: StatusOutcome)
    requires db.Valid()
    modifies db`orders, db`notices
    ensures db.Valid()
    ensures r.StatusInvalid? <==> ParseOrderStatus(statusName).None?
    ensures r.StatusNotFound? <==> ParseOrderStatus(statusName).Some? && !(1 <= id <= |old(db.orders)|)
    ensures !r.StatusUpdated? ==> db.orders == old(db.orders) && db.notices == old(db.notices)
    ensures r.StatusUpdated? ==>
      var before := old(db.orders)[id - 1];
      && r.order == Touched(before, before.(orderStatus := ParseOrderStatus(statusName).value, staffId := Some(actor.id)), now)
      && db.orders == old(db.orders)[id - 1 := r.order]
      && db.notices == old(db.notices) + [StatusChanged(before.userId, id)]
  {
    var status := ParseOrderStatus(statusName);
    if status.None? {
      return StatusInvalid;
    }
    if !(1 <= id <= |db.orders|) {
      return StatusNotFound;
    }
    var before := db.orders[id - 1];
    var order := Touched(before, before.(orderStatus := status.value, staffId := Some(actor.id)), now);
    db.orders := db.orders[id - 1 := order];
    db.notices := db.notices + [StatusChanged(order.userId, id)];
    r := StatusUpdated(order);
  }

  /** `updatePaymentStatus`: any of the three payment statuses; nothing else of the order changes. */
  method UpdatePaymentStatus(db: Db, id: nat, statusName: string, now: int) returns (r: StatusOutcome)
    requires db.Valid()
    modifies db`orders
    ensures db.Valid()
    ensures r.StatusInvalid? <==> ParsePaymentStatus(statusName).None?
    ensures r.StatusNotFound? <==> ParsePaymentStatus(statusName).Some? && !(1 <= id <= |old(db.orders)|)
    ensures !r.StatusUpdated? ==> db.orders == old(db.orders)
    ensures r.StatusUpdated? ==>
      var before := old(db.orders)[id - 1];
      && r.order == Touched(before, before.(paymentStatus := ParsePaymentStatus(statusName).value), now)
      && db.orders == old(db.orders)[id - 1 := r.order]
  {
    var status := ParsePaymentStatus(statusName);
    if status.None? {
      return StatusInvalid;
    }
    if !(1 <= id <= |db.orders|) {
      return StatusNotFound;
    }
    var before := db.orders[id - 1];
    var order := Touched(before, before.(paymentStatus := status.value), now);
    db.orders := db.orders[id - 1 := order];
    r := StatusUpdated(order);
  }

  /** `findOrFail`: the first order with this id. */
  function FindOrder(orders: seq<Order>, id: nat): (r: Option<Order>)
    ensures r.Some? ==> r.value in orders && r.value.id == id
    ensures r.None? ==> forall o :: o in orders ==> o.id != id
  {
    if orders == [] then None
    else if orders[0].id == id then Some(orders[0])
    else FindOrder(orders[1..], id)
  }

  /** The orders `index` may list for this viewer: a customer's own orders, or all of them. */
  function Visible(orders: seq<Order>, viewer: User): seq<Order>
  {
    if viewer.IsCustomer() then Filter(orders, (o: Order) => o.userId == viewer.id) else orders
  }

  /** `index` without its optional filters: the visible orders, newest first. */
  function Index(orders: seq<Order>, viewer: User): seq<Order>
  {
    SortDesc(Visible(orders, viewer), (o: Order) => o.createdAt)
  }

  /**
   * A customer's listing holds exactly the customer's own orders, anyone
   * else's listing holds every order, and both are newest first.
   */
  lemma IndexVisibility(orders: seq<Order>, viewer: User)
    ensures forall i, j :: 0 <= i < j < |Index(orders, viewer)| ==>
      Index(orders, viewer)[i].createdAt >= Index(orders, viewer)[j].createdAt
    ensures forall o :: o in Index(orders, viewer) ==> o in orders && (viewer.IsCustomer() ==> o.userId == viewer.id)
    ensures forall o :: o in orders && (!viewer.IsCustomer() || o.userId == viewer.id) ==> o in Index(orders, viewer)
  {
    var visible := Visible(orders, viewer);
    var listing := Index(orders, viewer);
    assert multiset(listing) == multiset(visible);
    forall o | o in listing ensures o in visible {
      assert o in multiset(listing);
    }
    forall o | o in orders && (!viewer.IsCustomer() || o.userId == viewer.id) ensures o in listing {
      if viewer.IsCustomer() {
        FilterComplete(orders, (o: Order) => o.userId == viewer.id, o);
      }
      assert o in multiset(visible);
    }
  }

  /** `show`: the order with this id, unless the viewer is a customer and it is someone else's. */
  function Show(orders: seq<Order>, viewer: User, id: nat): (r: ShowOutcome)
    ensures r.ShowNotFound? <==> forall o :: o in orders ==> o.id != id
    ensures r.Shown? ==> r.order in orders && r.order.id == id && (viewer.IsCustomer() ==> r.order.userId == viewer.id)
    ensures r.Forbidden? ==> viewer.IsCustomer() && exists o :: o in orders && o.id == id && o.userId != viewer.id
    ensures (exists o :: o in orders && o.id == id) && (forall o :: o in orders && o.id == id ==> o.userId == viewer.id)
      ==> r.Shown?
    ensures !viewer.IsCustomer() && (exists o :: o in orders && o.id == id) ==> r.Shown?
  {
    match FindOrder(orders, id)
    case None => ShowNotFound
    case Some(o) => if viewer.IsCustomer() && o.userId != viewer.id then Forbidden else Shown(o)
  }
}
