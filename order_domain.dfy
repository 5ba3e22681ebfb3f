/**
 * The order service's entities (Order, OrderItem, SpicyNoodle), the event
 * records it publishes and consumes, the order statuses its handlers write,
 * and the exceptions its operations can raise.
 *
 * The order service's own copies of PaymentCompletedEvent and
 * PaymentFailedEvent are kept separate from the payment service's records
 * (see PaymentDomain): the two services do not agree on their fields.
 */
module OrderDomain {
  import opened Common

  // ----- Entities -----

  datatype Order = Order(
    orderId: int,
    userId: int,
    status: string,
    totalAmount: real,
    createdAt: Instant,
    updatedAt: Instant)

  datatype OrderItem = OrderItem(
    orderItemId: int,
    orderId: int,
    noodleId: int,
    quantity: int,
    subtotal: real,
    createdAt: Instant)

  datatype SpicyNoodle = SpicyNoodle(
    noodleId: int,
    name: string,
    basePrice: real,
    isActive: bool)

  // ----- Order statuses written by the order service -----

  const Pending: string := "Pending"
  const Processing: string := "Processing"
  const AwaitingPayment: string := "AwaitingPayment"
  const InPreparation: string := "InPreparation"
  const PaymentFailedRetryable: string := "PaymentFailedRetryable"
  const Cancelled: string := "Cancelled"
  const PaymentProcessingFailed: string := "PaymentProcessingFailed"
  const PaymentProcessingError: string := "PaymentProcessingError"
  const PaymentTimeout: string := "PaymentTimeout"
  const Confirmed: string := "Confirmed"

  const DefaultCurrency: string := "VND"

  /** The order with a new status, stamped with the time of the write. */
  function WithStatus(o: Order, status: string, now: Instant): (r: Order)
    ensures r.status == status && r.updatedAt == now
    ensures r.orderId == o.orderId && r.userId == o.userId
    ensures r.totalAmount == o.totalAmount && r.createdAt == o.createdAt
  {
    o.(status := status, updatedAt := now)
  }

  /**
   * The Orders table after one order's status is overwritten, as every
   * order-side handler does: only that order's Status and UpdatedAt change.
   */
  function StatusWritten(orders: map<int, Order>, orderId: int, status: string, now: Instant): (r: map<int, Order>)
    requires orderId in orders
    ensures r.Keys == orders.Keys
    ensures r[orderId].status == status && r[orderId].updatedAt == now
    ensures r[orderId].(status := orders[orderId].status, updatedAt := orders[orderId].updatedAt) == orders[orderId]
    ensures forall id :: id in orders && id != orderId ==> r[id] == orders[id]
  {
    orders[orderId := WithStatus(orders[orderId], status, now)]
  }

  /**
   * Writing a status does not depend on the status the order had, so a
   * redelivered event leaves the same table as a single delivery, up to the
   * time stamp.
   */
  lemma RedeliveryKeepsStatus(orders: map<int, Order>, orderId: int, status: string, first: Instant, second: Instant)
    requires orderId in orders
    ensures StatusWritten(StatusWritten(orders, orderId, status, first), orderId, status, second)
            == StatusWritten(orders, orderId, status, second)
  {
  }

  // ----- Event records -----

  datatype OrderItemDto = OrderItemDto(
    noodleId: int,
    noodleName: string,
    quantity: int,
    subtotal: real)

  datatype OrderCreatedEvent = OrderCreatedEvent(
    orderId: int,
    userId: int,
    totalAmount: real,
    items: seq<OrderItemDto>,
    createdAt: Instant)

  /** The order service's PaymentRequested record, with the fields it sets and reads. */
  datatype PaymentRequestedEvent = PaymentRequestedEvent(
    orderId: int,
    userId: int,
    amount: real,
    currency: string,
    requestedAt: Instant)

  datatype OrderStatusChangedEvent = OrderStatusChangedEvent(
    orderId: int,
    userId: int,
    oldStatus: string,
    newStatus: string,
    totalAmount: real,
    changedAt: Instant)

  /** PaymentCompleted as the order service reads it (AmountPaid / PaidAt). */
  datatype PaymentCompletedEvent = PaymentCompletedEvent(
    orderId: int,
    userId: int,
    amountPaid: real,
    currency: string,
    paymentMethod: string,
    transactionId: string,
    paidAt: Instant)

  /** PaymentFailed as the order service reads it (with IsRetryable). */
  datatype PaymentFailedEvent = PaymentFailedEvent(
    orderId: int,
    userId: int,
    attemptedAmount: real,
    currency: string,
    paymentMethod: string,
    failureReason: string,
    errorCode: string,
    failedAt: Instant,
    isRetryable: bool)

  /** What the order service hands to its publish endpoint. */
  datatype OrderMessage =
    | PaymentRequestedMessage(paymentRequested: PaymentRequestedEvent)
    | OrderCreatedMessage(orderCreated: OrderCreatedEvent)
    | OrderStatusChangedMessage(statusChanged: OrderStatusChangedEvent)

  // ----- Exceptions -----

  /** The exceptions raised by the order service's operations and handlers. */
  datatype Failure =
    | OrderNotFound(orderId: int)                              // InvalidOperationException
    | InvalidPaymentAmount(amount: real)                       // InvalidOperationException
    | InvalidUserId(userId: int)                               // InvalidOperationException
    | PaymentServiceRequestFailed(errorMessage: Option<string>) // InvalidOperationException
    | NoodleNotFound(noodleId: int)                            // ArgumentException
    | StoreFailure                                             // raised by the data store
    | PublishFailure                                           // raised by the publish endpoint

  /** How a handler or operation ends: normally, or by throwing. */
  datatype Completion = Done | Threw(failure: Failure)

  /** An operation that returns a value or throws. */
  datatype Result<+T> = Ok(value: T) | Err(failure: Failure)
}
