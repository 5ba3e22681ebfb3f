/**
 * The order service's event consumers. Each one reads the order by id,
 * overwrites its Status (and UpdatedAt) without looking at the status it
 * had, and saves it; only HandlePaymentTimeout checks the current status.
 *
 * Oracles: `storeFails` says that the repository's UpdateAsync throws on the
 * handler's main write (nothing is saved then); `recoveryStoreFails` says the
 * same of the write on the failure path. `now` is the clock.
 */

/** OrderCreatedEventHandler: Pending orders move to Processing. */
module OrderCreatedEventHandler {
  import opened Common
  import opened OrderDomain
  import opened OrderStore

  /**
   * `UpdateOrderStatusAsync`: a missing order is only logged; an existing one
   * becomes "Processing" whatever its status was.
   */
  method UpdateOrderStatus(db: OrderDb, ev: OrderCreatedEvent, now: Instant, storeFails: bool) returns (c: Completion)
    requires db.Valid()
    modifies db`orders
    ensures db.Valid()
    ensures ev.orderId !in old(db.orders) ==> c == Done && db.orders == old(db.orders)
    ensures ev.orderId in old(db.orders) && storeFails ==> c == Threw(StoreFailure) && db.orders == old(db.orders)
    ensures ev.orderId in old(db.orders) && !storeFails ==>
              c == Done && db.orders == StatusWritten(old(db.orders), ev.orderId, Processing, now)
  {
    if ev.orderId !in db.orders {
      return Done;
    }
    if storeFails {
      return Threw(StoreFailure);
    }
    db.Update(WithStatus(db.orders[ev.orderId], Processing, now));
    c := Done;
  }

  /**
   * `Consume`: only a failure of the status write propagates; the analytics
   * and audit steps are logging whose exceptions are swallowed.
   */
  method Consume(db: OrderDb, ev: OrderCreatedEvent, now: Instant, storeFails: bool) returns (c: Completion)
    requires db.Valid()
    modifies db`orders
    ensures db.Valid()
    ensures c.Threw? <==> ev.orderId in old(db.orders) && storeFails
    ensures c.Threw? ==> c.failure == StoreFailure && db.orders == old(db.orders)
    ensures ev.orderId !in old(db.orders) ==> db.orders == old(db.orders)
    ensures c.Done? && ev.orderId in old(db.orders) ==>
              db.orders == StatusWritten(old(db.orders), ev.orderId, Processing, now)
  {
    c := UpdateOrderStatus(db, ev, now, storeFails);
  }
}

/** PaymentCompletedEventHandler: a paid order moves to InPreparation. */
module PaymentCompletedEventHandler {
  import opened Common
  import opened OrderDomain
  import opened OrderStore

  /** `UpdateOrderStatusToInPreparationAsync`: throws for a missing order. */
  method UpdateOrderStatusToInPreparation(db: OrderDb, ev: PaymentCompletedEvent, now: Instant, storeFails: bool)
    returns (c: Completion)
    requires db.Valid()
    modifies db`orders
    ensures db.Valid()
    ensures ev.orderId !in old(db.orders) ==> c == Threw(OrderNotFound(ev.orderId)) && db.orders == old(db.orders)
    ensures ev.orderId in old(db.orders) && storeFails ==> c == Threw(StoreFailure) && db.orders == old(db.orders)
    ensures ev.orderId in old(db.orders) && !storeFails ==>
              c == Done && db.orders == StatusWritten(old(db.orders), ev.orderId, InPreparation, now)
  {
    if ev.orderId !in db.orders {
      return Threw(OrderNotFound(ev.orderId));
    }
    if storeFails {
      return Threw(StoreFailure);
    }
    db.Update(WithStatus(db.orders[ev.orderId], InPreparation, now));
    c := Done;
  }

  /** `HandlePaymentProcessingFailureAsync`: marks an existing order "PaymentProcessingError"; its own errors are swallowed. */
  method HandlePaymentProcessingFailure(db: OrderDb, ev: PaymentCompletedEvent, now: Instant, storeFails: bool)
    requires db.Valid()
    modifies db`orders
    ensures db.Valid()
    ensures db.orders == if ev.orderId in old(db.orders) && !storeFails
                         then StatusWritten(old(db.orders), ev.orderId, PaymentProcessingError, now)
                         else old(db.orders)
  {
    if ev.orderId in db.orders && !storeFails {
      db.Update(WithStatus(db.orders[ev.orderId], PaymentProcessingError, now));
    }
  }

  /**
   * `Consume`: the status becomes "InPreparation" whatever it was; if that
   * write throws, the failure path runs and the exception is rethrown.
   */
  method Consume(db: OrderDb, ev: PaymentCompletedEvent, now: Instant, storeFails: bool, recoveryStoreFails: bool)
    returns (c: Completion)
    requires db.Valid()
    modifies db`orders
    ensures db.Valid()
    ensures ev.orderId !in old(db.orders) ==> c == Threw(OrderNotFound(ev.orderId)) && db.orders == old(db.orders)
    ensures ev.orderId in old(db.orders) && !storeFails ==>
              c == Done && db.orders == StatusWritten(old(db.orders), ev.orderId, InPreparation, now)
    ensures ev.orderId in old(db.orders) && storeFails ==>
              && c == Threw(StoreFailure)
              && db.orders == if recoveryStoreFails then old(db.orders)
                              else StatusWritten(old(db.orders), ev.orderId, PaymentProcessingError, now)
  {
    c := UpdateOrderStatusToInPreparation(db, ev, now, storeFails);
    if c.Threw? {
      HandlePaymentProcessingFailure(db, ev, now, recoveryStoreFails);
    }
  }
}

/** PaymentFailedEventHandler: a failed payment makes the order retryable or cancels it. */
module PaymentFailedEventHandler {
  import opened Common
  import opened OrderDomain
  import opened OrderStore

  /** The status written for a failed payment: retryable failures leave the order open, others cancel it. */
  function FailureStatus(isRetryable: bool): (s: string)
    ensures isRetryable <==> s == PaymentFailedRetryable
    ensures !isRetryable <==> s == Cancelled
  {
    if isRetryable then PaymentFailedRetryable else Cancelled
  }

  /** `UpdateOrderStatusToFailedAsync`: throws InvalidOperationException for a missing order. */
  method UpdateOrderStatusToFailed(db: OrderDb, ev: PaymentFailedEvent, now: Instant, storeFails: bool) returns (c: Completion)
    requires db.Valid()
    modifies db`orders
    ensures db.Valid()
    ensures ev.orderId !in old(db.orders) ==> c == Threw(OrderNotFound(ev.orderId)) && db.orders == old(db.orders)
    ensures ev.orderId in old(db.orders) && storeFails ==> c == Threw(StoreFailure) && db.orders == old(db.orders)
    ensures ev.orderId in old(db.orders) && !storeFails ==>
              && c == Done
              && db.orders == StatusWritten(old(db.orders), ev.orderId, FailureStatus(ev.isRetryable), now)
  {
    if ev.orderId !in db.orders {
      return Threw(OrderNotFound(ev.orderId));
    }
    if storeFails {
      return Threw(StoreFailure);
    }
    db.Update(WithStatus(db.orders[ev.orderId], FailureStatus(ev.isRetryable), now));
    c := Done;
  }

  /** `Consume`: every exception of the status write propagates. */
  method Consume(db: OrderDb, ev: PaymentFailedEvent, now: Instant, storeFails: bool) returns (c: Completion)
    requires db.Valid()
    modifies db`orders
    ensures db.Valid()
    ensures c.Done? <==> ev.orderId in old(db.orders) && !storeFails
    ensures c.Threw? ==> db.orders == old(db.orders)
    ensures ev.orderId !in old(db.orders) ==> c == Threw(OrderNotFound(ev.orderId))
    ensures c.Done? ==>
              db.orders == StatusWritten(old(db.orders), ev.orderId, FailureStatus(ev.isRetryable), now)
  {
    c := UpdateOrderStatusToFailed(db, ev, now, storeFails);
  }
}

/**
 * The order service's PaymentRequestedEventHandler: marks the order
 * AwaitingPayment, runs the fraud checks, forwards the request to the payment
 * service and computes the payment timeout. Any exception marks the order
 * PaymentProcessingFailed and is rethrown.
 */
module OrderPaymentRequestedEventHandler {
  import opened Common
  import opened OrderDomain
  import opened OrderStore

  const HighValueThreshold: real := 1000.0
  const PaymentTimeoutMinutes: int := 15

  /** The payment service client's PaymentRequestResult (the client itself turns its exceptions into Success = false). */
  datatype PaymentRequestResult = PaymentRequestResult(
    success: bool,
    paymentId: Option<string>,
    errorMessage: Option<string>)

  /** The outcome of the fraud checks: pass (perhaps flagged as high value), or the exception thrown. */
  datatype FraudVerdict = Pass(highValue: bool) | Reject(failure: Failure)

  /** `PerformFraudDetectionAsync`: the amount is checked before the user id; a high amount is only flagged. */
  function PerformFraudDetection(ev: PaymentRequestedEvent): (v: FraudVerdict)
    ensures v.Pass? <==> ev.amount > 0.0 && ev.userId > 0
    ensures v.Pass? ==> (v.highValue <==> ev.amount > HighValueThreshold)
    ensures ev.amount <= 0.0 ==> v == Reject(InvalidPaymentAmount(ev.amount))
    ensures ev.amount > 0.0 && ev.userId <= 0 ==> v == Reject(InvalidUserId(ev.userId))
  {
    if ev.amount <= 0.0 then Reject(InvalidPaymentAmount(ev.amount))
    else if ev.userId <= 0 then Reject(InvalidUserId(ev.userId))
    else Pass(ev.amount > HighValueThreshold)
  }

  /** `ForwardPaymentRequestAsync`: the payment service's refusal becomes an exception. */
  function ForwardPaymentRequest(result: PaymentRequestResult): (f: Option<Failure>)
    ensures f.None? <==> result.success
    ensures f.Some? ==> f.value == PaymentServiceRequestFailed(result.errorMessage)
  {
    if result.success then None else Some(PaymentServiceRequestFailed(result.errorMessage))
  }

  /** `SetupPaymentTimeoutAsync`: the timeout falls 15 minutes after the request; computing it cannot fail. */
  function PaymentTimeoutAt(ev: PaymentRequestedEvent): (t: Instant)
    ensures t - ev.requestedAt == 15 * 60 * 1000
  {
    ev.requestedAt + PaymentTimeoutMinutes * MillisPerMinute
  }

  /** The first exception raised after the status write, if any: fraud checks, then the forward. */
  function FailureAfterStatusWrite(ev: PaymentRequestedEvent, forward: PaymentRequestResult): Option<Failure>
  {
    match PerformFraudDetection(ev)
    case Reject(f) => Some(f)
    case Pass(_) => ForwardPaymentRequest(forward)
  }

  /** A request passes every step after the status write exactly when the amount and user are valid and the payment service accepts it. */
  lemma RequestSucceedsExactlyWhen(ev: PaymentRequestedEvent, forward: PaymentRequestResult)
    ensures FailureAfterStatusWrite(ev, forward).None? <==> ev.amount > 0.0 && ev.userId > 0 && forward.success
  {
  }

  /** `UpdateOrderStatusAsync`: throws for a missing order; otherwise "AwaitingPayment". */
  method UpdateOrderStatus(db: OrderDb, ev: PaymentRequestedEvent, now: Instant, storeFails: bool) returns (f: Option<Failure>)
    requires db.Valid()
    modifies db`orders
    ensures db.Valid()
    ensures ev.orderId !in old(db.orders) ==> f == Some(OrderNotFound(ev.orderId)) && db.orders == old(db.orders)
    ensures ev.orderId in old(db.orders) && storeFails ==> f == Some(StoreFailure) && db.orders == old(db.orders)
    ensures ev.orderId in old(db.orders) && !storeFails ==>
              f.None? && db.orders == StatusWritten(old(db.orders), ev.orderId, AwaitingPayment, now)
  {
    if ev.orderId !in db.orders {
      return Some(OrderNotFound(ev.orderId));
    }
    if storeFails {
      return Some(StoreFailure);
    }
    db.Update(WithStatus(db.orders[ev.orderId], AwaitingPayment, now));
    f := None;
  }

  /** `UpdateOrderStatusToFailedAsync`: marks an existing order "PaymentProcessingFailed"; its own errors are swallowed. */
  method UpdateOrderStatusToFailed(db: OrderDb, orderId: int, now: Instant, storeFails: bool)
    requires db.Valid()
    modifies db`orders
    ensures db.Valid()
    ensures db.orders == if orderId in old(db.orders) && !storeFails
                         then StatusWritten(old(db.orders), orderId, PaymentProcessingFailed, now)
                         else old(db.orders)
  {
    if orderId in db.orders && !storeFails {
      db.Update(WithStatus(db.orders[orderId], PaymentProcessingFailed, now));
    }
  }

  /**
   * `Consume`. `forward` is the payment service client's answer. On success
   * the order is AwaitingPayment and `timeoutAt` holds the scheduled timeout;
   * on any exception the failure path runs and the exception is rethrown.
   * The handler publishes nothing.
   */
  method Consume(db: OrderDb, ev: PaymentRequestedEvent, now: Instant, forward: PaymentRequestResult,
                 storeFails: bool, recoveryStoreFails: bool)
    returns (c: Completion, timeoutAt: Option<Instant>)
    requires db.Valid()
    modifies db`orders
    ensures db.Valid()
    ensures c.Done? <==> timeoutAt.Some?
    ensures ev.orderId !in old(db.orders) ==>
              c == Threw(OrderNotFound(ev.orderId)) && db.orders == old(db.orders)
    ensures ev.orderId in old(db.orders) && storeFails ==>
              && c == Threw(StoreFailure)
              && db.orders == if recoveryStoreFails then old(db.orders)
                              else StatusWritten(old(db.orders), ev.orderId, PaymentProcessingFailed, now)
    ensures ev.orderId in old(db.orders) && !storeFails ==>
              match FailureAfterStatusWrite(ev, forward)
              case None =>
                && c == Done
                && timeoutAt == Some(PaymentTimeoutAt(ev))
                && db.orders == StatusWritten(old(db.orders), ev.orderId, AwaitingPayment, now)
              case Some(f) =>
                && c == Threw(f)
                && db.orders == StatusWritten(old(db.orders), ev.orderId,
                                                if recoveryStoreFails then AwaitingPayment else PaymentProcessingFailed, now)
  {
    timeoutAt := None;
    var failure := UpdateOrderStatus(db, ev, now, storeFails);
    if failure.None? {
      match PerformFraudDetection(ev)
      case Reject(f) => failure := Some(f);
      case Pass(_) =>
    }
    if failure.None? {
      failure := ForwardPaymentRequest(forward);
    }
    if failure.None? {
      timeoutAt := Some(PaymentTimeoutAt(ev));
      return Done, timeoutAt;
    }
    UpdateOrderStatusToFailed(db, ev.orderId, now, recoveryStoreFails);
    c := Threw(failure.value);
  }

  /**
   * `HandlePaymentTimeout`: only an order still "AwaitingPayment" becomes
   * "PaymentTimeout" (and the payment is then cancelled through the client,
   * reported in `cancelRequested`); errors are swallowed.
   */
  method HandlePaymentTimeout(db: OrderDb, orderId: int, now: Instant, storeFails: bool) returns (cancelRequested: bool)
    requires db.Valid()
    modifies db`orders
    ensures db.Valid()
    ensures cancelRequested <==>
              orderId in old(db.orders) && old(db.orders)[orderId].status == AwaitingPayment && !storeFails
    ensures db.orders == if cancelRequested
                         then StatusWritten(old(db.orders), orderId, PaymentTimeout, now)
                         else old(db.orders)
  {
    cancelRequested := false;
    if orderId in db.orders && db.orders[orderId].status == AwaitingPayment && !storeFails {
      db.Update(WithStatus(db.orders[orderId], PaymentTimeout, now));
      cancelRequested := true;
    }
  }
}
