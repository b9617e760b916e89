/** The records the frontend receives from the backend. */
module Domain {
  import opened Wrappers

  /** A menu item; `stock == None` means the stock is not tracked. */
  datatype Product = Product(
    id: string,
    name: string,
    price: string,
    description: Option<string>,
    categoryId: string,
    isSoldOut: bool,
    stock: Option<int>)

  datatype Category = Category(id: string, name: string)

  datatype Table = Table(id: string, tableNumber: int, isActive: bool)

  datatype SessionStatus = Active | Closed

  /** The status of an order, as a closed set instead of loose strings. */
  datatype Status = Pending | Confirmed | Preparing | Ready | Delivered | Cancelled | Paid

  datatype OrderItem = OrderItem(id: string, quantity: int, totalPrice: string, product: Product)

  /** An order; the kitchen reads its `status` although the shared order
      type omits it, so the model carries it. */
  datatype Order = Order(
    id: string,
    status: Status,
    totalAmount: string,
    createdAt: string,
    orderItems: seq<OrderItem>)

  /** The consumption of a session: the session, its table and its orders. */
  datatype SessionDetails = SessionDetails(
    id: string,
    tableId: string,
    status: SessionStatus,
    table: Table,
    orders: seq<Order>)
}
