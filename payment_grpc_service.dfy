/**
 * PaymentGrpcService: the payment service's RPCs over the Payments table.
 * RequestPayment records a Pending credit-card payment; GetPaymentStatus
 * reports the newest payment of an order; CancelPayment cancels an order's
 * first Pending payment; RefundPayment refunds its first Completed payment
 * when the refund does not exceed the amount paid.
 *
 * `storeError` stands for SaveChangesAsync throwing with that message (the
 * three writing RPCs turn it into a failed response); `storeFails` for the
 * status query throwing (an RPC Internal error).
 */
module PaymentGrpcService {
  import opened Common
  import opened PaymentDomain

  const CreditCard: string := "Credit Card"
  const NotFoundStatus: string := "NotFound"
  const PaymentExpiryMinutes: int := 15

  // ----- RequestPayment -----

  datatype PaymentRequestDto = PaymentRequestDto(
    orderId: int,
    userId: int,
    amount: real,
    currency: string,
    requestedAt: Instant)

  /** The reply; unset proto fields are "" or None. */
  datatype PaymentRequestResult = PaymentRequestResult(
    success: bool,
    paymentId: string,
    paymentUrl: string,
    expiresAt: Option<Instant>,
    errorMessage: string)

  function PaymentUrl(orderId: int): string
  {
    "https://payment.example.com/pay/" + IntToString(orderId)
  }

  /**
   * `RequestPayment`: adds one Pending "Credit Card" payment for the request's
   * amount and answers with a "pay_" reference (not the row's PaymentId) that
   * expires 15 minutes later; a failed save is reported in the reply.
   */
  method RequestPayment(db: PaymentDb, request: PaymentRequestDto, now: Instant, paymentGuid: string,
                        storeError: Option<string>)
    returns (r: PaymentRequestResult)
    requires db.Valid()
    modifies db`payments, db`nextPaymentId
    ensures db.Valid()
    ensures r.success <==> storeError.None?
    ensures storeError.Some? ==>
              && r == PaymentRequestResult(false, "", "", None, storeError.value)
              && db.payments == old(db.payments)
    ensures storeError.None? ==>
              && r.paymentId == "pay_" + paymentGuid
              && r.paymentUrl == PaymentUrl(request.orderId)
              && r.expiresAt == Some(now + PaymentExpiryMinutes * MillisPerMinute)
              && db.payments == old(db.payments)
                   + [Payment(old(db.nextPaymentId), request.orderId, request.amount, Pending, Some(CreditCard), None, None, now)]
  {
    if storeError.Some? {
      return PaymentRequestResult(false, "", "", None, storeError.value);
    }
    var payment := db.Add(Payment(0, request.orderId, request.amount, Pending, Some(CreditCard), None, None, now));
    r := PaymentRequestResult(true, "pay_" + paymentGuid, PaymentUrl(request.orderId),
                              Some(now + PaymentExpiryMinutes * MillisPerMinute), "");
  }

  // ----- GetPaymentStatus -----

  /**
   * The position of the order's most recently created payment, if it has one
   * (among payments created at the same instant any may be chosen; this one
   * takes the later row).
   */
  function LatestPaymentIndex(payments: seq<Payment>, orderId: int): (r: Option<nat>)
    ensures r.None? <==> forall k :: 0 <= k < |payments| ==> payments[k].orderId != orderId
    ensures r.Some? ==>
              && r.value < |payments|
              && payments[r.value].orderId == orderId
              && forall k :: 0 <= k < |payments| && payments[k].orderId == orderId ==>
                   payments[k].createdAt <= payments[r.value].createdAt
  {
    if payments == [] then None
    else
      var last := |payments| - 1;
      var earlier := LatestPaymentIndex(payments[..last], orderId);
      assert forall k :: 0 <= k < last ==> payments[..last][k] == payments[k];
      if payments[last].orderId != orderId then earlier
      else if earlier.Some? && payments[earlier.value].createdAt > payments[last].createdAt then earlier
      else Some(last)
  }

  /** The reply; unset proto fields are "", 0 or None. */
  datatype PaymentStatusResponse = PaymentStatusResponse(
    status: string,
    transactionId: string,
    amountPaid: real,
    paidAt: Option<Instant>,
    failureReason: string)

  const NotFoundReason: string := "Payment not found for this order"
  const FailedReason: string := "Payment processing failed"

  /** The status reply for one payment: settlement details only for a Completed payment with PaidAt. */
  function StatusOf(p: Payment): (r: PaymentStatusResponse)
    ensures r.status == p.status
    ensures p.status == Completed && p.paidAt.Some? ==>
              && r.transactionId == (if p.transactionId.Some? then p.transactionId.value else "")
              && r.amountPaid == p.amount
              && r.paidAt == p.paidAt
              && r.failureReason == ""
    ensures p.status == Failed ==> r == PaymentStatusResponse(Failed, "", 0.0, None, FailedReason)
    ensures p.status != Completed && p.status != Failed ==> r == PaymentStatusResponse(p.status, "", 0.0, None, "")
  {
    if p.status == Completed && p.paidAt.Some? then
      PaymentStatusResponse(p.status, if p.transactionId.Some? then p.transactionId.value else "", p.amount, p.paidAt, "")
    else if p.status == Failed then
      PaymentStatusResponse(p.status, "", 0.0, None, FailedReason)
    else
      PaymentStatusResponse(p.status, "", 0.0, None, "")
  }

  /** `GetPaymentStatus`: "NotFound" for an order without payments, else the newest payment's status. */
  function GetPaymentStatus(payments: seq<Payment>, orderId: int, storeFails: bool): (r: RpcReply<PaymentStatusResponse>)
    ensures r.RpcError? <==> storeFails
    ensures r.Reply? && (forall k :: 0 <= k < |payments| ==> payments[k].orderId != orderId) ==>
              r.response == PaymentStatusResponse(NotFoundStatus, "", 0.0, None, NotFoundReason)
    ensures r.Reply? && (exists k :: 0 <= k < |payments| && payments[k].orderId == orderId) ==>
              exists k :: && 0 <= k < |payments|
                          && payments[k].orderId == orderId
                          && (forall j :: 0 <= j < |payments| && payments[j].orderId == orderId ==>
                                payments[j].createdAt <= payments[k].createdAt)
                          && r.response == StatusOf(payments[k])
  {
    if storeFails then RpcError(Internal)
    else
      match LatestPaymentIndex(payments, orderId)
      case None => Reply(PaymentStatusResponse(NotFoundStatus, "", 0.0, None, NotFoundReason))
      case Some(k) => Reply(StatusOf(payments[k]))
  }

  /** A payment recorded later than every other payment of its order is the one reported. */
  lemma NewestPaymentIsReported(payments: seq<Payment>, p: Payment)
    requires forall k :: 0 <= k < |payments| && payments[k].orderId == p.orderId ==> payments[k].createdAt <= p.createdAt
    ensures GetPaymentStatus(payments + [p], p.orderId, false) == Reply(StatusOf(p))
  {
    assert (payments + [p])[..|payments|] == payments;
  }

  // ----- CancelPayment and RefundPayment -----

  /** The position of the order's first payment (in table order) with the given status, if any. */
  function FirstWithStatus(payments: seq<Payment>, orderId: int, status: string): (r: Option<nat>)
    ensures r.None? <==> forall k :: 0 <= k < |payments| ==> !(payments[k].orderId == orderId && payments[k].status == status)
    ensures r.Some? ==>
              && r.value < |payments|
              && payments[r.value].orderId == orderId && payments[r.value].status == status
              && forall k :: 0 <= k < r.value ==> !(payments[k].orderId == orderId && payments[k].status == status)
  {
    if payments == [] then None
    else if payments[0].orderId == orderId && payments[0].status == status then Some(0)
    else
      match FirstWithStatus(payments[1..], orderId, status)
      case None => None
      case Some(k) => Some(k + 1)
  }

  datatype CancelPaymentResponse = CancelPaymentResponse(success: bool, message: string)

  const CannotCancelMessage: string := "Payment not found or cannot be cancelled"
  const CancelledMessage: string := "Payment cancelled successfully"

  /**
   * `CancelPayment`: only a Pending payment can be cancelled, and exactly that
   * one row changes. `queryError` is the message of a lookup query that
   * throws and `storeError` that of a save that throws; either is answered
   * with Success false and the exception's message.
   */
  method CancelPayment(db: PaymentDb, orderId: int, reason: string, queryError: Option<string>, storeError: Option<string>)
    returns (r: CancelPaymentResponse)
    requires db.Valid()
    modifies db`payments
    ensures db.Valid()
    ensures queryError.Some? ==> r == CancelPaymentResponse(false, queryError.value) && db.payments == old(db.payments)
    ensures var i := FirstWithStatus(old(db.payments), orderId, Pending);
            && (r.success <==> queryError.None? && i.Some? && storeError.None?)
            && (queryError.None? && i.None? ==> r.message == CannotCancelMessage)
            && (queryError.None? && i.Some? && storeError.Some? ==> r.message == storeError.value)
            && (r.success ==>
                  && r.message == CancelledMessage
                  && db.payments == old(db.payments)[i.value := old(db.payments)[i.value].(status := Cancelled)])
            && (!r.success ==> db.payments == old(db.payments))
  {
    if queryError.Some? {
      return CancelPaymentResponse(false, queryError.value);
    }
    var i := FirstWithStatus(db.payments, orderId, Pending);
    if i.None? {
      return CancelPaymentResponse(false, CannotCancelMessage);
    }
    if storeError.Some? {
      return CancelPaymentResponse(false, storeError.value);
    }
    db.Save(i.value, db.payments[i.value].(status := Cancelled));
    r := CancelPaymentResponse(true, CancelledMessage);
  }

  datatype RefundPaymentResponse = RefundPaymentResponse(success: bool, refundId: string, message: string)

  const CannotRefundMessage: string := "Payment not found or cannot be refunded"
  const RefundTooLargeMessage: string := "Refund amount cannot exceed payment amount"
  const RefundedMessage: string := "Refund processed successfully"

  /**
   * `RefundPayment`: the order's first Completed payment becomes Refunded
   * when the refund does not exceed the amount paid; otherwise nothing changes.
   * A lookup query (`queryError`) or save (`storeError`) that throws is
   * answered with Success false and the exception's message.
   */
  method RefundPayment(db: PaymentDb, orderId: int, amount: real, reason: string, refundGuid: string,
                       queryError: Option<string>, storeError: Option<string>)
    returns (r: RefundPaymentResponse)
    requires db.Valid()
    modifies db`payments
    ensures db.Valid()
    ensures queryError.Some? ==> r == RefundPaymentResponse(false, "", queryError.value) && db.payments == old(db.payments)
    ensures var i := FirstWithStatus(old(db.payments), orderId, Completed);
            && (r.success <==> queryError.None? && i.Some? && amount <= old(db.payments)[i.value].amount && storeError.None?)
            && (queryError.None? && i.None? ==> r.message == CannotRefundMessage)
            && (queryError.None? && i.Some? && amount > old(db.payments)[i.value].amount ==> r.message == RefundTooLargeMessage)
            && (queryError.None? && i.Some? && amount <= old(db.payments)[i.value].amount && storeError.Some? ==>
                  r.message == storeError.value)
            && (r.success ==>
                  && r.refundId == "rfnd_" + refundGuid
                  && r.message == RefundedMessage
                  && db.payments == old(db.payments)[i.value := old(db.payments)[i.value].(status := Refunded)])
            && (!r.success ==> r.refundId == "" && db.payments == old(db.payments))
  {
    if queryError.Some? {
      return RefundPaymentResponse(false, "", queryError.value);
    }
    var i := FirstWithStatus(db.payments, orderId, Completed);
    if i.None? {
      return RefundPaymentResponse(false, "", CannotRefundMessage);
    }
    if amount > db.payments[i.value].amount {
      return RefundPaymentResponse(false, "", RefundTooLargeMessage);
    }
    if storeError.Some? {
      return RefundPaymentResponse(false, "", storeError.value);
    }
    db.Save(i.value, db.payments[i.value].(status := Refunded));
    r := RefundPaymentResponse(true, "rfnd_" + refundGuid, RefundedMessage);
  }

  /** Once an order's only Pending payment is cancelled, a second cancellation finds nothing to cancel. */
  lemma {:induction false} CancelLeavesNoPending(payments: seq<Payment>, orderId: int, i: nat)
    requires FirstWithStatus(payments, orderId, Pending) == Some(i)
    requires forall k :: 0 <= k < |payments| && k != i ==> !(payments[k].orderId == orderId && payments[k].status == Pending)
    ensures FirstWithStatus(payments[i := payments[i].(status := Cancelled)], orderId, Pending).None?
  {
    var after := payments[i := payments[i].(status := Cancelled)];
    forall k | 0 <= k < |after|
      ensures !(after[k].orderId == orderId && after[k].status == Pending)
    {
      if k == i {
        assert after[k].status == Cancelled;
      }
    }
  }
}
