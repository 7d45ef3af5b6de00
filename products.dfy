/**
 * Product management (app/Http/Controllers/ProductController.php):
 * validated create, partial update with a low-stock notification,
 * delete, the admin fan-out of low-stock notifications, and the
 * low-stock listing.
 */
module Products {
  import opened Wrappers
  import opened Seqs
  import opened Accounts
  import opened Catalog
  import opened Records
  import opened Database

  /** The fields of a create request. */
  datatype ProductInput = ProductInput(
    name: string,
    description: string,
    priceCents: int,
    quantity: int,
    lowStockThreshold: int,
    status: bool)

  /** The fields of an update request; `None` is a field the request leaves out. */
  datatype ProductPatch = ProductPatch(
    name: Option<string>,
    description: Option<string>,
    priceCents: Option<int>,
    quantity: Option<int>,
    lowStockThreshold: Option<int>,
    status: Option<bool>)

  datatype StoreOutcome = StoreInvalid | ProductCreated(id: nat)
  datatype UpdateOutcome = UpdateInvalid | UpdateNotFound | Updated(product: Product)
  datatype DestroyOutcome = DestroyNotFound | Deleted

  /** The characters PHP's `trim` strips: space, tab, newline, carriage return, NUL and vertical tab. */
  predicate IsTrimmed(c: char)
  {
    c == ' ' || c == '\t' || c == '\n' || c == '\r' || c as int == 0 || c as int == 11
  }

  /** `required` refuses a string that trims to the empty string. */
  predicate Blank(s: string)
  {
    forall i :: 0 <= i < |s| ==> IsTrimmed(s[i])
  }

  /** `required|string|max:255`. */
  predicate ValidName(s: string) { !Blank(s) && |s| <= 255 }

  /** The validation rules of `store`. */
  predicate ValidInput(i: ProductInput)
  {
    && ValidName(i.name)
    && !Blank(i.description)
    && i.priceCents >= 0
    && i.quantity >= 0
    && i.lowStockThreshold >= 1
  }

  /** The `sometimes` rules of `update`: each supplied field obeys the rule of `store`. */
  predicate ValidPatch(p: ProductPatch)
  {
    && (p.name.Some? ==> ValidName(p.name.value))
    && (p.description.Some? ==> !Blank(p.description.value))
    && (p.priceCents.Some? ==> p.priceCents.value >= 0)
    && (p.quantity.Some? ==> p.quantity.value >= 0)
    && (p.lowStockThreshold.Some? ==> p.lowStockThreshold.value >= 1)
  }

  function NewProduct(i: ProductInput): Product
  {
    Product(i.name, i.description, i.priceCents, i.quantity, i.lowStockThreshold, i.status)
  }

  /** Mass assignment of the supplied fields. */
  function Apply(p: Product, patch: ProductPatch): Product
  {
    Product(
      patch.name.GetOr(p.name),
      patch.description.GetOr(p.description),
      patch.priceCents.GetOr(p.priceCents),
      patch.quantity.GetOr(p.quantity),
      patch.lowStockThreshold.GetOr(p.lowStockThreshold),
      patch.status.GetOr(p.status))
  }

  /** A validated product is stored within bounds with a non-negative quantity. */
  lemma ValidInputInBounds(i: ProductInput)
    requires ValidInput(i)
    ensures NewProduct(i).InBounds() && NewProduct(i).quantity >= 0
  {
  }

  /** A name or description made only of whitespace fails `required`, however long it is. */
  lemma BlankFieldsRejected(i: ProductInput)
    requires Blank(i.name) || Blank(i.description)
    ensures !ValidInput(i)
    ensures !ValidPatch(ProductPatch(Some(i.name), Some(i.description), None, None, None, None))
  {
  }

  /**
   * A validated update keeps a product within bounds; a supplied field takes
   * the request's value and a field left out keeps its old value.
   */
  lemma ApplyPatch(p: Product, patch: ProductPatch)
    requires p.InBounds() && ValidPatch(patch)
    ensures Apply(p, patch).InBounds()
    ensures Apply(p, patch).quantity == (if patch.quantity.Some? then patch.quantity.value else p.quantity)
    ensures Apply(p, patch).priceCents == (if patch.priceCents.Some? then patch.priceCents.value else p.priceCents)
    ensures Apply(p, patch).lowStockThreshold
         == (if patch.lowStockThreshold.Some? then patch.lowStockThreshold.value else p.lowStockThreshold)
    ensures Apply(p, patch).name == (if patch.name.Some? then patch.name.value else p.name)
    ensures Apply(p, patch).description == (if patch.description.Some? then patch.description.value else p.description)
    ensures Apply(p, patch).status == (if patch.status.Some? then patch.status.value else p.status)
    ensures patch == ProductPatch(None, None, None, None, None, None) ==> Apply(p, patch) == p
  {
  }

  /** `Role::where('name', 'Admin')->first()`: the first role row named Admin. */
  function AdminRole(roles: seq<Role>): (r: Option<Role>)
    ensures r.Some? ==> r.value in roles && r.value.name == ADMIN
    ensures r.Some? ==> exists i :: 0 <= i < |roles| && roles[i] == r.value && forall j :: 0 <= j < i ==> roles[j].name != ADMIN
    ensures r.None? ==> forall x :: x in roles ==> x.name != ADMIN
  {
    if roles == [] then None
    else if roles[0].name == ADMIN then Some(roles[0])
    else AdminRole(roles[1..])
  }

  /** The users whose `role_id` is the Admin role's id, in table order; none without an Admin role. */
  function LowStockRecipients(users: seq<User>, roles: seq<Role>): seq<User>
  {
    match AdminRole(roles)
    case None => []
    case Some(admin) => Filter(users, (u: User) => u.role.id == admin.id)
  }

  /** One low-stock notification per recipient, in order. */
  function LowStockNotices(recipients: seq<User>, productId: nat): (r: seq<Notice>)
    ensures |r| == |recipients|
    ensures forall k :: 0 <= k < |r| ==> r[k] == LowStock(recipients[k].id, productId)
  {
    seq(|recipients|, k requires 0 <= k < |recipients| => LowStock(recipients[k].id, productId))
  }

  /** Without a role named Admin nobody is notified. */
  lemma NoAdminRoleNoNotices(users: seq<User>, roles: seq<Role>, productId: nat)
    requires forall x :: x in roles ==> x.name != ADMIN
    ensures LowStockNotices(LowStockRecipients(users, roles), productId) == []
  {
  }

  /**
   * With well-formed role and user tables, a user is sent a low-stock
   * notification exactly when the user is an admin, and exactly once.
   */
  lemma LowStockNoticeIffAdmin(users: seq<User>, roles: seq<Role>, productId: nat, u: User)
    requires RolesWellFormed(roles) && UsersWellFormed(users, roles)
    requires u in users
    ensures LowStock(u.id, productId) in LowStockNotices(LowStockRecipients(users, roles), productId)
        <==> u.IsAdmin()
    ensures u.IsAdmin() ==> u in LowStockRecipients(users, roles)
    ensures u.IsAdmin() ==> multiset(LowStockNotices(LowStockRecipients(users, roles), productId))[LowStock(u.id, productId)] == 1
  {
    var recipients := LowStockRecipients(users, roles);
    var notices := LowStockNotices(recipients, productId);
    if u.IsAdmin() {
      assert u.role in roles;
      var admin := AdminRole(roles).value;
      assert u.role == admin by {
        var i :| 0 <= i < |roles| && roles[i] == u.role;
        var j :| 0 <= j < |roles| && roles[j] == admin;
        assert i == j;
      }
      FilterComplete(users, (v: User) => v.role.id == admin.id, u);
      var k :| 0 <= k < |recipients| && recipients[k] == u;
      assert notices[k] == LowStock(u.id, productId);
      NotifiedOnce(users, roles, productId, u.id);
    }
    if LowStock(u.id, productId) in notices {
      var k :| 0 <= k < |notices| && notices[k] == LowStock(u.id, productId);
      var v := recipients[k];
      var admin := AdminRole(roles).value;
      assert v in users && v.role.id == admin.id && v.id == u.id;
      assert v == u by {
        var i :| 0 <= i < |users| && users[i] == u;
        var j :| 0 <= j < |users| && users[j] == v;
        assert i == j;
      }
      assert u.role == admin by {
        var i :| 0 <= i < |roles| && roles[i] == u.role;
        var j :| 0 <= j < |roles| && roles[j] == admin;
        assert i == j;
      }
    }
  }

  /** With distinct user ids, a user who gets a notification of a fan-out gets exactly one. */
  lemma NotifiedOnce(users: seq<User>, roles: seq<Role>, productId: nat, userId: nat)
    requires forall i, j :: 0 <= i < j < |users| ==> users[i].id != users[j].id
    requires LowStock(userId, productId) in LowStockNotices(LowStockRecipients(users, roles), productId)
    ensures multiset(LowStockNotices(LowStockRecipients(users, roles), productId))[LowStock(userId, productId)] == 1
  {
    LowStockNoticesDistinct(users, roles, productId);
    OccursOnce(LowStockNotices(LowStockRecipients(users, roles), productId), LowStock(userId, productId));
  }

  /** With distinct user ids, no notification of one fan-out repeats another. */
  lemma LowStockNoticesDistinct(users: seq<User>, roles: seq<Role>, productId: nat)
    requires forall i, j :: 0 <= i < j < |users| ==> users[i].id != users[j].id
    ensures var notices := LowStockNotices(LowStockRecipients(users, roles), productId);
      forall i, j :: 0 <= i < j < |notices| ==> notices[i] != notices[j]
  {
    var recipients := LowStockRecipients(users, roles);
    if AdminRole(roles).Some? {
      var admin := AdminRole(roles).value;
      var p := (u: User) => u.role.id == admin.id;
      assert recipients == Filter(users, p);
      FilterKeepsDistinctIds(users, p);
    }
    var notices := LowStockNotices(recipients, productId);
    forall i, j | 0 <= i < j < |notices| ensures notices[i] != notices[j] {
      assert recipients[i].id != recipients[j].id;
      assert notices[i].recipient == recipients[i].id && notices[j].recipient == recipients[j].id;
    }
  }

  /** Filtering a user table with distinct ids keeps the ids distinct. */
  lemma {:induction false} FilterKeepsDistinctIds(users: seq<User>, p: User -> bool)
    requires forall i, j :: 0 <= i < j < |users| ==> users[i].id != users[j].id
    ensures forall i, j :: 0 <= i < j < |Filter(users, p)| ==> Filter(users, p)[i].id != Filter(users, p)[j].id
  {
    if users != [] {
      var rest := users[1..];
      assert forall i, j :: 0 <= i < j < |rest| ==> rest[i] == users[i + 1] && rest[j] == users[j + 1];
      FilterKeepsDistinctIds(rest, p);
      var fr := Filter(rest, p);
      var r := Filter(users, p);
      if p(users[0]) {
        assert r == [users[0]] + fr;
        forall i, j | 0 <= i < j < |r| ensures r[i].id != r[j].id {
          assert r[j] == fr[j - 1];
          if i == 0 {
            assert r[j] in rest;
            var k :| 0 <= k < |rest| && rest[k] == r[j];
            assert users[k + 1] == r[j];
          } else {
            assert r[i] == fr[i - 1];
            assert fr[i - 1].id != fr[j - 1].id;
          }
        }
      } else {
        assert r == fr;
      }
    }
  }

  /** `sendLowStockNotification`: notify every Admin user about the product. */
  method SendLowStockNotification(db: Db, productId: nat)
    modifies db`notices
    ensures db.notices == old(db.notices) + LowStockNotices(LowStockRecipients(db.users, db.roles), productId)
  {
    var adminRole := AdminRole(db.roles);
    if adminRole.Some? {
      var admins := Filter(db.users, (u: User) => u.role.id == adminRole.value.id);
      var i := 0;
      while i < |admins|
        invariant 0 <= i <= |admins|
        invariant db.notices == old(db.notices) + LowStockNotices(admins[..i], productId)
      {
        assert admins[..i + 1] == admins[..i] + [admins[i]];
        db.notices := db.notices + [LowStock(admins[i].id, productId)];
        i := i + 1;
      }
      assert admins[..i] == admins;
    }
  }

  /** `store`: validate, then insert the product under a fresh id. */
  method Store(db: Db, input: ProductInput) returns (r: StoreOutcome)
    requires db.Valid()
    modifies db`products, db`nextProductId
    ensures db.Valid()
    ensures r.ProductCreated? <==> ValidInput(input)
    ensures r.StoreInvalid? ==> db.products == old(db.products) && db.nextProductId == old(db.nextProductId)
    ensures r.ProductCreated? ==> r.id !in old(db.products) && db.products == old(db.products)[r.id := NewProduct(input)]
  {
    if !ValidInput(input) {
      return StoreInvalid;
    }
    var id := db.nextProductId;
    db.products := db.products[id := NewProduct(input)];
    db.nextProductId := id + 1;
    r := ProductCreated(id);
  }

  /**
   * `update`: validate the supplied fields, find the product, assign them,
   * and notify the admins when the request supplied `quantity` and the
   * product is now low on stock.
   */
  method Update(db: Db, id: nat, patch: ProductPatch) returns (r: UpdateOutcome)
    requires db.Valid()
    modifies db`products, db`notices
    ensures db.Valid()
    ensures r.UpdateInvalid? <==> !ValidPatch(patch)
    ensures r.UpdateNotFound? <==> ValidPatch(patch) && id !in old(db.products)
    ensures !r.Updated? ==> db.products == old(db.products) && db.notices == old(db.notices)
    ensures r.Updated? ==>
      && r.product == Apply(old(db.products)[id], patch)
      && db.products == old(db.products)[id := r.product]
      && db.notices == old(db.notices) +
           (if patch.quantity.Some? && r.product.IsLowStock()
            then LowStockNotices(LowStockRecipients(db.users, db.roles), id) else [])
    ensures r.Updated? ==> (id in LowStockProducts(db.products) <==> r.product.IsLowStock())
  {
    if !ValidPatch(patch) {
      return UpdateInvalid;
    }
    if id !in db.products {
      return UpdateNotFound;
    }
    var product := Apply(db.products[id], patch);
    ApplyPatch(db.products[id], patch);
    db.products := db.products[id := product];
    if patch.quantity.Some? && product.IsLowStock() {
      SendLowStockNotification(db, id);
    }
    r := Updated(product);
  }

  /** `destroy`: remove exactly the product with this id. */
  method Destroy(db: Db, id: nat) returns (r: DestroyOutcome)
    requires db.Valid()
    modifies db`products
    ensures db.Valid()
    ensures r.Deleted? <==> id in old(db.products)
    ensures db.products == old(db.products) - {id}
  {
    if id !in db.products {
      return DestroyNotFound;
    }
    db.products := db.products - {id};
    r := Deleted;
  }

  /** `lowStock`: the products whose quantity is at or below their threshold. */
  function LowStockProducts(products: map<nat, Product>): (r: map<nat, Product>)
    ensures forall id :: id in r <==> id in products && products[id].IsLowStock()
    ensures forall id :: id in r ==> r[id] == products[id]
  {
    map id | id in products && products[id].IsLowStock() :: products[id]
  }
}
