/**
 * The payment service's Payment entity, the event records it consumes and
 * publishes (its own copies: PaymentCompleted carries Amount / CompletedAt
 * and PaymentFailed has no IsRetryable), and the Payments table behind
 * PaymentDbContext together with the publish endpoint.
 */
module PaymentDomain {
  import opened Common

  datatype Payment = Payment(
    paymentId: int,
    orderId: int,
    amount: real,
    status: string,
    paymentMethod: Option<string>,
    transactionId: Option<string>,
    paidAt: Option<Instant>,
    createdAt: Instant)

  // ----- Payment statuses -----

  const Pending: string := "Pending"
  const Processing: string := "Processing"
  const Completed: string := "Completed"
  const Failed: string := "Failed"
  const Cancelled: string := "Cancelled"
  const Refunded: string := "Refunded"

  // ----- Event records -----

  /** PaymentRequested as the payment service reads it (Metadata is not modelled). */
  datatype PaymentRequestedEvent = PaymentRequestedEvent(
    orderId: int,
    userId: int,
    amount: real,
    currency: string,
    requestedAt: Instant)

  datatype PaymentCompletedEvent = PaymentCompletedEvent(
    orderId: int,
    userId: int,
    amount: real,
    paymentId: string,
    transactionId: string,
    completedAt: Instant)

  datatype PaymentFailedEvent = PaymentFailedEvent(
    orderId: int,
    userId: int,
    amount: real,
    reason: string,
    errorCode: string,
    failedAt: Instant)

  /** What the payment service could hand to its publish endpoint. */
  datatype PaymentMessage =
    | PaymentCompletedMessage(completed: PaymentCompletedEvent)
    | PaymentFailedMessage(failed: PaymentFailedEvent)

  /**
   * The Payments table, in primary-key order, and the outbox. PaymentId is
   * an identity column: `nextPaymentId` is the next value it hands out.
   */
  class PaymentDb {
    var payments: seq<Payment>
    var outbox: seq<PaymentMessage>
    var nextPaymentId: int

    /** Ids are positive, below the identity counter, and increase along the table. */
    ghost predicate Valid()
      reads this
    {
      && 0 < nextPaymentId
      && (forall k :: 0 <= k < |payments| ==> 0 < payments[k].paymentId < nextPaymentId)
      && (forall j, k :: 0 <= j < k < |payments| ==> payments[j].paymentId < payments[k].paymentId)
    }

    constructor ()
      ensures Valid()
      ensures payments == [] && outbox == []
    {
      payments := [];
      outbox := [];
      nextPaymentId := 1;
    }

    /** `Payments.Add` followed by `SaveChangesAsync`: the row gets the next PaymentId. */
    method Add(p: Payment) returns (saved: Payment)
      requires Valid()
      modifies this`payments, this`nextPaymentId
      ensures Valid()
      ensures saved == p.(paymentId := old(nextPaymentId))
      ensures payments == old(payments) + [saved]
      ensures nextPaymentId == old(nextPaymentId) + 1
    {
      saved := p.(paymentId := nextPaymentId);
      payments := payments + [saved];
      nextPaymentId := nextPaymentId + 1;
    }

    /** `SaveChangesAsync` after changing the tracked row at position `k`. */
    method Save(k: nat, p: Payment)
      requires Valid()
      requires k < |payments| && p.paymentId == payments[k].paymentId
      modifies this`payments
      ensures Valid()
      ensures payments == old(payments)[k := p]
    {
      payments := payments[k := p];
    }

    /** `IPublishEndpoint.Publish`: append to the outbox. */
    method Publish(m: PaymentMessage)
      modifies this`outbox
      ensures outbox == old(outbox) + [m]
    {
      outbox := outbox + [m];
    }
  }
}
