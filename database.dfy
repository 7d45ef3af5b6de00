/**
 * The application's tables, as one mutable store that every controller
 * reads and writes. Products are keyed by id; orders are never deleted, so
 * an order's auto-increment id is its position plus one.
 */
module Database {
  import opened Accounts
  import opened Catalog
  import opened Records

  class Db {
    var products: map<nat, Product>
    var nextProductId: nat
    /** Cart items per user id; a user without an entry has no cart row. */
    var carts: map<nat, seq<CartLine>>
    var orders: seq<Order>
    var orderItems: seq<OrderItem>
    var paymentMethods: set<nat>
    var users: seq<User>
    var roles: seq<Role>
    var requestOrders: seq<RequestOrder>
    /** Notifications requested so far, oldest first. */
    var notices: seq<Notice>

    ghost predicate Valid()
      reads this
    {
      && (forall id :: id in products ==> id < nextProductId && products[id].InBounds())
      && (forall i :: 0 <= i < |orders| ==> orders[i].id == i + 1)
    }

    constructor (users: seq<User>, roles: seq<Role>, paymentMethods: set<nat>, requestOrders: seq<RequestOrder>)
      ensures Valid()
      ensures this.users == users && this.roles == roles
      ensures this.paymentMethods == paymentMethods && this.requestOrders == requestOrders
      ensures products == map[] && carts == map[] && nextProductId == 1
      ensures orders == [] && orderItems == [] && notices == []
    {
      this.users := users;
      this.roles := roles;
      this.paymentMethods := paymentMethods;
      this.requestOrders := requestOrders;
      products := map[];
      nextProductId := 1;
      carts := map[];
      orders := [];
      orderItems := [];
      notices := [];
    }
  }

  /** The items of a user's cart; none when the user has no cart. */
  function CartLines(carts: map<nat, seq<CartLine>>, userId: nat): seq<CartLine>
  {
    if userId in carts then carts[userId] else []
  }
}
