/**
 * Two checkouts of the same cart, run against a fresh store: one with the
 * controller as written, one with the low-stock notification delivered.
 * Product 1 has 5 in stock and threshold 3; the customer's cart takes 3 of
 * it and 1 of product 2.
 */
module Scenarios {
  import opened Wrappers
  import opened Seqs
  import opened Accounts
  import opened Catalog
  import opened Records
  import opened Database
  import opened Products
  import opened CheckoutSpec
  import opened Orders

  const Admin := User(1, Role(1, ADMIN), 0)
  const Customer := User(7, Role(4, CUSTOMER), 0)
  const Cart := [CartLine(1, 3), CartLine(2, 1)]

  /** A store with the two products, the customer's cart, one admin and payment method 1. */
  method Seed() returns (db: Db)
    ensures fresh(db) && db.Valid()
    ensures db.products == map[1 := Product("A", "a", 1000, 5, 3, true), 2 := Product("B", "b", 500, 9, 1, true)]
    ensures db.carts == map[Customer.id := Cart] && db.paymentMethods == {1}
    ensures db.users == [Admin, Customer] && db.roles == [Role(1, ADMIN), Role(4, CUSTOMER)]
    ensures db.orders == [] && db.orderItems == [] && db.notices == []
  {
    db := new Db([Admin, Customer], [Role(1, ADMIN), Role(4, CUSTOMER)], {1}, []);
    db.products := map[1 := Product("A", "a", 1000, 5, 3, true), 2 := Product("B", "b", 500, 9, 1, true)];
    db.nextProductId := 3;
    db.carts := map[Customer.id := Cart];
  }

  /** The checkout's first decrement leaves product 1 low, which is where the low-stock notification is attempted. */
  lemma FirstLineGoesLow(ps: map<nat, Product>)
    requires ps == map[1 := Product("A", "a", 1000, 5, 3, true), 2 := Product("B", "b", 500, 9, 1, true)]
    ensures AllStocked(ps, Cart)
    ensures LowAfter(ps, Cart, 0) && !LowAfter(ps, Cart, 1)
    ensures States(ps, Cart)[1][1].quantity == 2
    ensures Decremented(ps, Cart)[1].quantity == 2 && Decremented(ps, Cart)[2].quantity == 8
  {
    assert LineOk(ps, Cart[0]) && LineOk(ps, Cart[1]);
    var s := States(ps, Cart);
    assert s[1] == Decrement(ps, Cart[0]);
    assert s[2] == Decrement(s[1], Cart[1]);
  }

  /**
   * As written, the request fails at the first line: the order and that
   * line's item and decrement are saved, the cart still holds both lines,
   * and nobody is notified.
   */
  method CheckoutAsWrittenExample() returns (r: CheckoutOutcome, cart: seq<CartLine>, stockA: int, stockB: int, items: nat, sent: nat)
    ensures r.Aborted? && r.line == 0
    ensures cart == Cart
    ensures stockA == 2 && stockB == 9
    ensures items == 1 && sent == 0
  {
    var db := Seed();
    FirstLineGoesLow(db.products);
    ghost var ps := db.products;
    r := CheckoutAsWritten(db, Customer, 1, None, "abcdefghij", 0);
    assert States(ps, Cart)[1] == Decrement(ps, Cart[0]);
    cart := CartLines(db.carts, Customer.id);
    stockA := db.products[1].quantity;
    stockB := db.products[2].quantity;
    items := |db.orderItems|;
    sent := |db.notices|;
  }

  /** The example cart totals 3 x 10.00 + 1 x 5.00. */
  lemma ExampleTotal(ps: map<nat, Product>)
    requires ps == map[1 := Product("A", "a", 1000, 5, 3, true), 2 := Product("B", "b", 500, 9, 1, true)]
    ensures CartTotal(ps, Cart) == 3500
  {
    var f := (l: CartLine) => l.quantity * PriceOf(ps, l.productId);
    assert Cart[1..] == [CartLine(2, 1)] && Cart[1..][1..] == [];
    assert SumOf(Cart[1..], f) == 500;
  }

  /** The order number for the suffix `abcdefghij`. */
  lemma ExampleOrderNumber()
    ensures OrderNumber("abcdefghij") == "ORD-ABCDEFGHIJ"
  {
  }

  /** In the seeded store the one admin is the only low-stock recipient. */
  lemma ExampleRecipients(users: seq<User>, roles: seq<Role>)
    requires users == [Admin, Customer] && roles == [Role(1, ADMIN), Role(4, CUSTOMER)]
    ensures LowStockRecipients(users, roles) == [Admin]
  {
    var admin := Role(1, ADMIN);
    assert AdminRole(roles) == Some(admin);
    var p := (u: User) => u.role.id == admin.id;
    assert [Customer][1..] == [] && Filter([Customer], p) == [];
    assert [Admin, Customer][1..] == [Customer];
    assert Filter([Admin, Customer], p) == [Admin];
  }

  /** The corrected checkout of the example cart notifies the admin once, about product 1. */
  lemma ExampleNotices(ps: map<nat, Product>)
    requires ps == map[1 := Product("A", "a", 1000, 5, 3, true), 2 := Product("B", "b", 500, 9, 1, true)]
    ensures CheckoutNotices(ps, Cart, [Admin]) == [LowStock(Admin.id, 1)]
  {
    FirstLineGoesLow(ps);
    assert NoticesUpTo(ps, Cart, [Admin], 1) == [] + LowStockNotices([Admin], 1);
    assert CheckoutNotices(ps, Cart, [Admin]) == NoticesUpTo(ps, Cart, [Admin], 1) + [];
  }

  /**
   * With the notification delivered, the same checkout completes: the
   * order totals 3 x 10.00 + 1 x 5.00, both products are decremented, the
   * cart is emptied and the admin receives one low-stock notification.
   */
  method CheckoutExample() returns (r: CheckoutOutcome, cart: seq<CartLine>, stockA: int, stockB: int, items: nat, sent: seq<Notice>)
    ensures r.Created? && r.order.totalCents == 3500 && r.order.orderNumber == "ORD-ABCDEFGHIJ"
    ensures cart == []
    ensures stockA == 2 && stockB == 8
    ensures items == 2 && sent == [LowStock(Admin.id, 1)]
  {
    var db := Seed();
    FirstLineGoesLow(db.products);
    ExampleTotal(db.products);
    ExampleOrderNumber();
    ExampleRecipients(db.users, db.roles);
    ExampleNotices(db.products);
    r := Checkout(db, Customer, 1, None, "abcdefghij", 0);
    cart := CartLines(db.carts, Customer.id);
    stockA := db.products[1].quantity;
    stockB := db.products[2].quantity;
    items := |db.orderItems|;
    sent := db.notices;
  }
}
