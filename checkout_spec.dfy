/**
 * What a checkout does to the tables, as functions of the product table
 * loaded at checkout and the cart's lines in cart order
 * (app/Http/Controllers/OrderController.php, `store`). The controller
 * methods in module Orders are proved against these.
 */
module CheckoutSpec {
  import opened Seqs
  import opened Accounts
  import opened Catalog
  import opened Records
  import opened Products

  /** The stock pre-check of one line: its product exists and has at least the requested quantity. */
  predicate LineOk(ps: map<nat, Product>, line: CartLine)
  {
    line.productId in ps && line.quantity <= ps[line.productId].quantity
  }

  predicate AllStocked(ps: map<nat, Product>, lines: seq<CartLine>)
  {
    forall j :: 0 <= j < |lines| ==> LineOk(ps, lines[j])
  }

  /** No two cart lines name the same product. */
  predicate DistinctProducts(lines: seq<CartLine>)
  {
    forall a, b :: 0 <= a < b < |lines| ==> lines[a].productId != lines[b].productId
  }

  /** `$product->quantity -= $item->quantity; $product->save();` for one line. */
  function Decrement(ps: map<nat, Product>, line: CartLine): map<nat, Product>
  {
    if line.productId in ps then
      ps[line.productId := ps[line.productId].(quantity := ps[line.productId].quantity - line.quantity)]
    else ps
  }

  /**
   * The product table before the first line and after each line's
   * decrement, one after the other: entry k is the table after k lines.
   */
  function States(ps: map<nat, Product>, lines: seq<CartLine>): (r: seq<map<nat, Product>>)
    ensures |r| == |lines| + 1 && r[0] == ps
    ensures forall k :: 0 <= k < |lines| ==> r[k + 1] == Decrement(r[k], lines[k])
  {
    if lines == [] then [ps]
    else
      var n := |lines| - 1;
      var s := States(ps, lines[..n]);
      assert forall k :: 0 <= k < n ==> lines[..n][k] == lines[k];
      s + [Decrement(s[n], lines[n])]
  }

  /** The product table after all the decrements of `lines`. */
  function Decremented(ps: map<nat, Product>, lines: seq<CartLine>): map<nat, Product>
  {
    States(ps, lines)[|lines|]
  }

  /** Total quantity the lines request of product `id`. */
  function Demand(lines: seq<CartLine>, id: nat): int
  {
    if lines == [] then 0
    else Demand(lines[..|lines| - 1], id) + (if lines[|lines| - 1].productId == id then lines[|lines| - 1].quantity else 0)
  }

  /**
   * After the first k lines the table has the same keys, and each product
   * has lost exactly the total quantity those lines request of it; nothing
   * but `quantity` changes.
   */
  lemma {:induction false} StatesAt(ps: map<nat, Product>, lines: seq<CartLine>, k: nat)
    requires k <= |lines|
    ensures States(ps, lines)[k].Keys == ps.Keys
    ensures forall id :: id in ps ==>
      States(ps, lines)[k][id] == ps[id].(quantity := ps[id].quantity - Demand(lines[..k], id))
  {
    if k > 0 {
      StatesAt(ps, lines, k - 1);
      assert lines[..k][..k - 1] == lines[..k - 1];
    }
  }

  lemma DecrementedAt(ps: map<nat, Product>, lines: seq<CartLine>)
    ensures Decremented(ps, lines).Keys == ps.Keys
    ensures forall id :: id in ps ==>
      Decremented(ps, lines)[id] == ps[id].(quantity := ps[id].quantity - Demand(lines, id))
  {
    StatesAt(ps, lines, |lines|);
    assert lines[..|lines|] == lines;
  }

  lemma {:induction false} DemandOfDistinct(lines: seq<CartLine>, j: nat)
    requires DistinctProducts(lines) && j < |lines|
    ensures Demand(lines, lines[j].productId) == lines[j].quantity
  {
    var n := |lines| - 1;
    if j < n {
      assert DistinctProducts(lines[..n]);
      assert lines[..n][j] == lines[j];
      DemandOfDistinct(lines[..n], j);
    } else {
      DemandAbsent(lines[..n], lines[j].productId);
    }
  }

  lemma {:induction false} DemandAbsent(lines: seq<CartLine>, id: nat)
    requires forall j :: 0 <= j < |lines| ==> lines[j].productId != id
    ensures Demand(lines, id) == 0
  {
    if lines != [] {
      DemandAbsent(lines[..|lines| - 1], id);
    }
  }

  /**
   * With distinct products per cart and a passed pre-check, each line's
   * product loses exactly the line's quantity, every other product is
   * untouched, and no stock goes negative.
   */
  lemma CheckoutStockDistinct(ps: map<nat, Product>, lines: seq<CartLine>)
    requires DistinctProducts(lines) && AllStocked(ps, lines)
    requires forall id :: id in ps ==> ps[id].quantity >= 0
    ensures Decremented(ps, lines).Keys == ps.Keys
    ensures forall j :: 0 <= j < |lines| ==>
      Decremented(ps, lines)[lines[j].productId].quantity == ps[lines[j].productId].quantity - lines[j].quantity
    ensures forall id :: id in ps && (forall j :: 0 <= j < |lines| ==> lines[j].productId != id) ==>
      Decremented(ps, lines)[id] == ps[id]
    ensures forall id :: id in ps ==> Decremented(ps, lines)[id].quantity >= 0
  {
    DecrementedAt(ps, lines);
    forall j | 0 <= j < |lines| ensures Demand(lines, lines[j].productId) == lines[j].quantity {
      DemandOfDistinct(lines, j);
    }
    forall id | id in ps && (forall j :: 0 <= j < |lines| ==> lines[j].productId != id)
      ensures Demand(lines, id) == 0
    {
      DemandAbsent(lines, id);
    }
    forall id | id in ps ensures Decremented(ps, lines)[id].quantity >= 0 {
      if j :| 0 <= j < |lines| && lines[j].productId == id {
        assert LineOk(ps, lines[j]);
      } else {
        assert Demand(lines, id) == 0;
      }
    }
  }

  /** The pre-check is per line: two lines of 3 against a stock of 5 both pass and the stock ends at -1. */
  lemma DuplicateLinesOversell()
    ensures var ps := map[1 := Product("A", "a", 100, 5, 1, true)];
      var lines := [CartLine(1, 3), CartLine(1, 3)];
      AllStocked(ps, lines) && 1 in Decremented(ps, lines) && Decremented(ps, lines)[1].quantity == -1
  {
    var ps := map[1 := Product("A", "a", 100, 5, 1, true)];
    var lines := [CartLine(1, 3), CartLine(1, 3)];
    var s := States(ps, lines);
    assert s[1] == Decrement(ps, lines[0]);
    assert s[2] == Decrement(s[1], lines[1]);
  }

  /** The current price of a product, 0 for one that does not exist. */
  function PriceOf(ps: map<nat, Product>, id: nat): int
  {
    if id in ps then ps[id].priceCents else 0
  }

  /** Cart total, assumed to be the sum of quantity times current price over the lines. */
  function CartTotal(ps: map<nat, Product>, lines: seq<CartLine>): int
  {
    SumOf(lines, (l: CartLine) => l.quantity * PriceOf(ps, l.productId))
  }

  /** Sum of quantity times unit price over order items. */
  function ItemsTotal(items: seq<OrderItem>): int
  {
    SumOf(items, (it: OrderItem) => it.quantity * it.priceCents)
  }

  /** The order items of a checkout: one per line, in cart order, each with the price read at checkout. */
  function Snapshot(orderId: nat, ps: map<nat, Product>, lines: seq<CartLine>): (r: seq<OrderItem>)
  {
    seq(|lines|, k requires 0 <= k < |lines| =>
      OrderItem(orderId, lines[k].productId, lines[k].quantity, PriceOf(ps, lines[k].productId)))
  }

  /** The frozen items of an order add up to the cart total charged for it. */
  lemma {:induction false} SnapshotTotal(orderId: nat, ps: map<nat, Product>, lines: seq<CartLine>)
    ensures ItemsTotal(Snapshot(orderId, ps, lines)) == CartTotal(ps, lines)
  {
    if lines != [] {
      SnapshotTotal(orderId, ps, lines[1..]);
      assert Snapshot(orderId, ps, lines)[1..] == Snapshot(orderId, ps, lines[1..]);
    }
  }

  /** After the decrement of line `j`, that line's product is low on stock. */
  predicate LowAfter(ps: map<nat, Product>, lines: seq<CartLine>, j: nat)
    requires j < |lines|
  {
    var d := States(ps, lines)[j + 1];
    lines[j].productId in d && d[lines[j].productId].IsLowStock()
  }

  /**
   * The low-stock notifications of the first n lines of a checkout: after
   * every decrement that leaves the product low, one notification to each
   * recipient.
   */
  function NoticesUpTo(ps: map<nat, Product>, lines: seq<CartLine>, recipients: seq<User>, n: nat): seq<Notice>
    requires n <= |lines|
  {
    if n == 0 then []
    else NoticesUpTo(ps, lines, recipients, n - 1)
         + (if LowAfter(ps, lines, n - 1) then LowStockNotices(recipients, lines[n - 1].productId) else [])
  }

  /** The low-stock notifications of a whole checkout. */
  function CheckoutNotices(ps: map<nat, Product>, lines: seq<CartLine>, recipients: seq<User>): seq<Notice>
  {
    NoticesUpTo(ps, lines, recipients, |lines|)
  }

  /**
   * Every notification of a checkout goes to a recipient and names the
   * product of a line whose decrement left that product low.
   */
  lemma {:induction false} NoticesUpToSound(ps: map<nat, Product>, lines: seq<CartLine>, recipients: seq<User>, n: nat)
    requires n <= |lines|
    ensures forall m :: m in NoticesUpTo(ps, lines, recipients, n) ==>
      && m.LowStock?
      && (exists u :: u in recipients && u.id == m.recipient)
      && (exists j :: 0 <= j < n && lines[j].productId == m.productId && LowAfter(ps, lines, j))
  {
    if n > 0 {
      NoticesUpToSound(ps, lines, recipients, n - 1);
      var prior := NoticesUpTo(ps, lines, recipients, n - 1);
      var low := LowAfter(ps, lines, n - 1);
      var added := if low then LowStockNotices(recipients, lines[n - 1].productId) else [];
      assert NoticesUpTo(ps, lines, recipients, n) == prior + added;
      forall m: Notice | m in prior + added
        ensures m.LowStock? && (exists u :: u in recipients && u.id == m.recipient)
        ensures exists j :: 0 <= j < n && lines[j].productId == m.productId && LowAfter(ps, lines, j)
      {
        if m !in prior {
          assert m in added;
          LowStockNoticesSound(recipients, lines[n - 1].productId, m);
        }
      }
    }
  }

  /** Each notice of a fan-out is a low-stock notice, about that product, to one of the recipients. */
  lemma LowStockNoticesSound(recipients: seq<User>, productId: nat, m: Notice)
    requires m in LowStockNotices(recipients, productId)
    ensures m.LowStock? && m.productId == productId && exists u :: u in recipients && u.id == m.recipient
  {
    var notices := LowStockNotices(recipients, productId);
    var k :| 0 <= k < |notices| && notices[k] == m;
    assert recipients[k] in recipients;
  }

  /** Lines never add stock, so a longer prefix of the cart demands at least as much of every product. */
  lemma {:induction false} DemandPrefix(lines: seq<CartLine>, k: nat, id: nat)
    requires k <= |lines|
    requires forall j :: 0 <= j < |lines| ==> lines[j].quantity >= 0
    ensures Demand(lines[..k], id) <= Demand(lines, id)
  {
    if k < |lines| {
      var n := |lines| - 1;
      assert lines[..n][..k] == lines[..k];
      assert forall j :: 0 <= j < n ==> lines[..n][j] == lines[j];
      DemandPrefix(lines[..n], k, id);
    } else {
      assert lines[..k] == lines;
    }
  }

  /**
   * Stock only falls during a checkout, so every product a checkout reports
   * as low is on the `lowStock` listing once the checkout is done.
   */
  lemma CheckoutNoticesListed(ps: map<nat, Product>, lines: seq<CartLine>, recipients: seq<User>, m: Notice)
    requires forall j :: 0 <= j < |lines| ==> lines[j].quantity >= 0
    requires m in CheckoutNotices(ps, lines, recipients)
    ensures m.LowStock? && m.productId in LowStockProducts(Decremented(ps, lines))
  {
    NoticesUpToSound(ps, lines, recipients, |lines|);
    var j :| 0 <= j < |lines| && lines[j].productId == m.productId && LowAfter(ps, lines, j);
    var id := m.productId;
    StatesAt(ps, lines, j + 1);
    DecrementedAt(ps, lines);
    DemandPrefix(lines, j + 1, id);
    assert id in ps;
  }

  /** When no decrement leaves its product low, a checkout requests no notification. */
  lemma {:induction false} NoticesUpToNone(ps: map<nat, Product>, lines: seq<CartLine>, recipients: seq<User>, n: nat)
    requires n <= |lines|
    requires forall j :: 0 <= j < n ==> !LowAfter(ps, lines, j)
    ensures NoticesUpTo(ps, lines, recipients, n) == []
  {
    if n > 0 {
      NoticesUpToNone(ps, lines, recipients, n - 1);
    }
  }

  /**
   * Notification is per decrement, not per crossing: a product at 5 with
   * threshold 3 is reported when a checkout takes 3, and again when the
   * next checkout takes 1 more from the already-low product.
   */
  lemma LowStockReportedAgain(recipients: seq<User>)
    ensures var ps := map[7 := Product("P", "p", 100, 5, 3, true)];
      var after := Decremented(ps, [CartLine(7, 3)]);
      && 7 in after && after[7].quantity == 2
      && CheckoutNotices(ps, [CartLine(7, 3)], recipients) == LowStockNotices(recipients, 7)
      && CheckoutNotices(after, [CartLine(7, 1)], recipients) == LowStockNotices(recipients, 7)
  {
    var ps := map[7 := Product("P", "p", 100, 5, 3, true)];
    var after := Decremented(ps, [CartLine(7, 3)]);
    assert States(ps, [CartLine(7, 3)])[1] == Decrement(ps, CartLine(7, 3));
    assert LowAfter(ps, [CartLine(7, 3)], 0);
    assert States(after, [CartLine(7, 1)])[1] == Decrement(after, CartLine(7, 1));
    assert LowAfter(after, [CartLine(7, 1)], 0);
    assert CheckoutNotices(ps, [CartLine(7, 3)], recipients)
      == NoticesUpTo(ps, [CartLine(7, 3)], recipients, 0) + LowStockNotices(recipients, 7);
    assert CheckoutNotices(after, [CartLine(7, 1)], recipients)
      == NoticesUpTo(after, [CartLine(7, 1)], recipients, 0) + LowStockNotices(recipients, 7);
  }

  /** One step of the checkout loop: what placing line `i` adds to the stock, items and notifications. */
  lemma PlaceStep(ps: map<nat, Product>, lines: seq<CartLine>, i: nat)
    requires i < |lines| && AllStocked(ps, lines)
    ensures var d := States(ps, lines)[i];
      var id := lines[i].productId;
      && id in d && id in ps
      && States(ps, lines)[i + 1] == d[id := d[id].(quantity := d[id].quantity - lines[i].quantity)]
      && (LowAfter(ps, lines, i) <==> d[id].quantity - lines[i].quantity <= d[id].lowStockThreshold)
  {
    StatesAt(ps, lines, i);
    assert LineOk(ps, lines[i]);
  }

  predicate IsAlnum(c: char) { 'a' <= c <= 'z' || 'A' <= c <= 'Z' || '0' <= c <= '9' }
  predicate IsUpperAlnum(c: char) { 'A' <= c <= 'Z' || '0' <= c <= '9' }

  /** What `Str::random(10)` yields: ten ASCII letters or digits. */
  predicate IsRandomSuffix(s: string) { |s| == 10 && forall i :: 0 <= i < |s| ==> IsAlnum(s[i]) }

  /** `strtoupper` on one character: ASCII lower-case letters only. */
  function ToUpper(c: char): (u: char)
    ensures IsAlnum(c) ==> IsUpperAlnum(u)
    ensures !('a' <= c <= 'z') ==> u == c
    ensures 'a' <= c <= 'z' ==> 'A' <= u <= 'Z' && u as int - 'A' as int == c as int - 'a' as int
  {
    if 'a' <= c <= 'z' then (c as int - 32) as char else c
  }

  /** `'ORD-' . strtoupper($suffix)`. */
  function OrderNumber(suffix: string): (r: string)
    ensures |r| == 4 + |suffix| && r[..4] == "ORD-"
    ensures forall i :: 0 <= i < |suffix| ==> r[4 + i] == ToUpper(suffix[i])
    ensures IsRandomSuffix(suffix) ==> |r| == 14 && forall i :: 4 <= i < |r| ==> IsUpperAlnum(r[i])
  {
    "ORD-" + seq(|suffix|, i requires 0 <= i < |suffix| => ToUpper(suffix[i]))
  }
}
