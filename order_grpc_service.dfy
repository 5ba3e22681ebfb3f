/**
 * OrderGrpcService.ValidateOrder: the order service's read-only RPC that
 * answers whether an order exists and, when it does, projects its details.
 * An unknown id is an ordinary reply with Exists = false; only a data-store
 * failure becomes an RPC error (status Internal).
 */
module OrderGrpcService {
  import opened Common
  import opened OrderDomain

  /** The RPC's OrderDetails message (timestamps kept as instants). */
  datatype OrderDetails = OrderDetails(
    orderId: int,
    userId: int,
    status: string,
    totalAmount: real,
    createdAt: Instant,
    updatedAt: Instant)

  datatype ValidateOrderResponse = ValidateOrderResponse(
    orderExists: bool,
    message: string,
    order: Option<OrderDetails>)

  const FoundMessage: string := "Order found successfully"

  function NotFoundMessage(orderId: int): string
  {
    "Order with ID " + IntToString(orderId) + " not found"
  }

  /** The columns of an order the RPC copies into its reply. */
  function Details(o: Order): OrderDetails
  {
    OrderDetails(o.orderId, o.userId, o.status, o.totalAmount, o.createdAt, o.updatedAt)
  }

  /**
   * `ValidateOrder` over the Orders table. `storeFails` stands for the query
   * throwing. The function reads the table and writes nothing.
   */
  function ValidateOrder(orders: map<int, Order>, orderId: int, storeFails: bool): (r: RpcReply<ValidateOrderResponse>)
    ensures r.RpcError? <==> storeFails
    ensures r.RpcError? ==> r.code == Internal
    ensures r.Reply? ==> (r.response.orderExists <==> orderId in orders)
    ensures r.Reply? ==> (r.response.order.Some? <==> r.response.orderExists)
    ensures r.Reply? && orderId !in orders ==> r.response.message == NotFoundMessage(orderId)
    ensures r.Reply? && orderId in orders ==>
              var d := r.response.order.value;
              var o := orders[orderId];
              d.orderId == o.orderId && d.userId == o.userId && d.status == o.status && d.totalAmount == o.totalAmount
  {
    if storeFails then RpcError(Internal)
    else if orderId !in orders then
      Reply(ValidateOrderResponse(false, NotFoundMessage(orderId), None))
    else
      Reply(ValidateOrderResponse(true, FoundMessage, Some(Details(orders[orderId]))))
  }

  /** "Not found" is a reply, distinct from the Internal error a store failure yields. */
  lemma NotFoundIsNotAnError(orders: map<int, Order>, orderId: int)
    requires orderId !in orders
    ensures ValidateOrder(orders, orderId, false).Reply?
    ensures !ValidateOrder(orders, orderId, false).response.orderExists
    ensures ValidateOrder(orders, orderId, false) != ValidateOrder(orders, orderId, true)
  {
  }
}
