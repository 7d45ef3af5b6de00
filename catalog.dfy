/**
 * The product record (app/Models/Product.php). `price` is a `decimal:2`
 * column, held here exactly as integer cents; `quantity` and
 * `low_stock_threshold` are integers.
 */
module Catalog {

  datatype Product = Product(
    name: string,
    description: string,
    priceCents: int,
    quantity: int,
    lowStockThreshold: int,
    status: bool)
  {
    /** Low stock: the quantity is at or below the threshold. */
    predicate IsLowStock() { quantity <= lowStockThreshold }

    /** The bounds product validation puts on a stored price and threshold. */
    predicate InBounds() { priceCents >= 0 && lowStockThreshold >= 1 }
  }

  /** The threshold itself is low stock; one unit above it is not. */
  lemma LowStockBoundary(p: Product)
    ensures p.(quantity := p.lowStockThreshold).IsLowStock()
    ensures !p.(quantity := p.lowStockThreshold + 1).IsLowStock()
  {
  }

  /** Taking stock away never turns a low-stock product into one that is not. */
  lemma LowStockStaysLow(p: Product, q: int)
    requires p.IsLowStock() && q <= p.quantity
    ensures p.(quantity := q).IsLowStock()
  {
  }

  /** With a threshold of at least one, an empty product is low stock. */
  lemma EmptyIsLowStock(p: Product)
    requires p.InBounds() && p.quantity == 0
    ensures p.IsLowStock()
  {
  }
}
