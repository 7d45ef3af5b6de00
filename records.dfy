/**
 * Rows of the order, cart, notification and replenishment-request tables,
 * and the closed status sets the controllers accept.
 */
module Records {
  import opened Wrappers

  /** `order_status`: the values `updateStatus` accepts. */
  datatype OrderStatus = Pending | Approved | Rejected | Processing | Shipped | Delivered

  /** `payment_status`: the values `updatePaymentStatus` accepts. */
  datatype PaymentStatus = Pending | Paid | Failed

  /** `admin_approval_status` and `warehouse_approval_status` of a replenishment request. */
  datatype Approval = Pending | Approved | Rejected

  function OrderStatusName(s: OrderStatus): string
  {
    match s
    case Pending => "Pending"
    case Approved => "Approved"
    case Rejected => "Rejected"
    case Processing => "Processing"
    case Shipped => "Shipped"
    case Delivered => "Delivered"
  }

  function PaymentStatusName(s: PaymentStatus): string
  {
    match s
    case Pending => "Pending"
    case Paid => "Paid"
    case Failed => "Failed"
  }

  /** The `in:` rule of `updateStatus`: one of the six names, compared exactly. */
  function ParseOrderStatus(name: string): (r: Option<OrderStatus>)
    ensures r.Some? ==> OrderStatusName(r.value) == name
  {
    if name == "Pending" then Some(OrderStatus.Pending)
    else if name == "Approved" then Some(OrderStatus.Approved)
    else if name == "Rejected" then Some(OrderStatus.Rejected)
    else if name == "Processing" then Some(Processing)
    else if name == "Shipped" then Some(Shipped)
    else if name == "Delivered" then Some(Delivered)
    else None
  }

  /** The `in:` rule of `updatePaymentStatus`: one of the three names, compared exactly. */
  function ParsePaymentStatus(name: string): (r: Option<PaymentStatus>)
    ensures r.Some? ==> PaymentStatusName(r.value) == name
  {
    if name == "Pending" then Some(PaymentStatus.Pending)
    else if name == "Paid" then Some(Paid)
    else if name == "Failed" then Some(Failed)
    else None
  }

  /** Every order status is accepted under its own name. */
  lemma ParseOrderStatusName(s: OrderStatus)
    ensures ParseOrderStatus(OrderStatusName(s)) == Some(s)
  {
    match s
    case Pending =>
    case Approved =>
    case Rejected => assert "Rejected"[0] != "Pending"[0] && "Rejected"[0] != "Approved"[0];
    case Processing =>
    case Shipped =>
    case Delivered =>
  }

  /** Every payment status is accepted under its own name. */
  lemma ParsePaymentStatusName(s: PaymentStatus)
    ensures ParsePaymentStatus(PaymentStatusName(s)) == Some(s)
  {
  }

  /** A cart item: a product reference and the requested quantity. */
  datatype CartLine = CartLine(productId: nat, quantity: int)

  datatype Order = Order(
    id: nat,
    userId: nat,
    orderNumber: string,
    totalCents: int,
    paymentMethodId: nat,
    paymentStatus: PaymentStatus,
    orderStatus: OrderStatus,
    notes: Option<string>,
    staffId: Option<nat>,
    createdAt: int,
    updatedAt: int)

  /** An order item: a snapshot of one cart line with the unit price at checkout. */
  datatype OrderItem = OrderItem(orderId: nat, productId: nat, quantity: int, priceCents: int)

  /** A notification handed to the delivery layer, with the id of the user it is for. */
  datatype Notice =
    | LowStock(recipient: nat, productId: nat)
    | StatusChanged(recipient: nat, orderId: nat)

  /** A replenishment request with its two approval stages. */
  datatype RequestOrder = RequestOrder(
    id: nat,
    productId: nat,
    quantity: int,
    requestedBy: nat,
    adminApproval: Approval,
    warehouseApproval: Approval,
    updatedAt: int)
}
