/**
 * OrderGrpcClient: how the payment service reads the order service's
 * ValidateOrder RPC. Both calls wrap any RPC error in an exception; asking
 * for the details of an order that does not exist yields null.
 */
module OrderGrpcClient {
  import opened Common
  import opened OrderDomain
  import opened OrderGrpcService

  /** A client call's outcome: a value, or the exception it raised. */
  datatype Answer<+T> = Value(v: T) | Raised

  /** `ValidateOrderExistsAsync`. */
  function ValidateOrderExists(reply: RpcReply<ValidateOrderResponse>): (a: Answer<bool>)
    ensures a.Raised? <==> reply.RpcError?
    ensures a.Value? ==> (a.v <==> reply.response.orderExists)
  {
    match reply
    case RpcError(_) => Raised
    case Reply(response) => Value(response.orderExists)
  }

  /** `GetOrderDetailsAsync`. */
  function GetOrderDetails(reply: RpcReply<ValidateOrderResponse>): (a: Answer<Option<OrderDetails>>)
    ensures a.Raised? <==> reply.RpcError?
    ensures a.Value? ==> a.v == (if reply.response.orderExists then reply.response.order else None)
  {
    match reply
    case RpcError(_) => Raised
    case Reply(response) => if !response.orderExists then Value(None) else Value(response.order)
  }

  /** Against a healthy order service the client sees the stored order exactly. */
  lemma ClientSeesStoredOrder(orders: map<int, Order>, orderId: int)
    ensures ValidateOrderExists(ValidateOrder(orders, orderId, false)) == Value(orderId in orders)
    ensures GetOrderDetails(ValidateOrder(orders, orderId, false))
            == if orderId in orders then Value(Some(Details(orders[orderId]))) else Value(None)
  {
  }
}

/**
 * The payment service's PaymentRequestedEventHandler: validates the order
 * over RPC with up to three attempts, checks the amount against the order's
 * total, records a "Processing" payment, settles it (a random draw in the
 * source, a parameter here) and publishes PaymentCompleted on success.
 * Every exception is caught and logged; no PaymentFailed event is ever
 * published.
 */
module PaymentRequestedEventHandler {
  import opened Common
  import opened OrderGrpcService
  import opened OrderGrpcClient
  import opened PaymentDomain

  const MaxRetries: nat := 3
  const RetryDelayMs: int := 200
  const SettlementDelayMs: int := 1000
  const AmountTolerance: real := 0.01
  const MockPaymentMethod: string := "Mock Payment"

  /** The order service's replies to the two calls one validation attempt may make. */
  datatype Attempt = Attempt(
    validateReply: RpcReply<ValidateOrderResponse>,
    detailsReply: RpcReply<ValidateOrderResponse>)

  /** What the validation loop leaves behind, with the waits it performed in order. */
  datatype RetryOutcome = RetryOutcome(
    orderExists: bool,
    details: Option<OrderDetails>,
    attemptsMade: nat,
    waits: seq<int>)

  /** The attempt reports that the order exists. */
  predicate ReportsExisting(a: Attempt)
  {
    ValidateOrderExists(a.validateReply) == Value(true)
  }

  // ----- The validation loop, as specification -----

  /**
   * The loop entered with retry count `k` and the order not yet found:
   * existence first; when it holds, the details are fetched and the loop
   * breaks, unless that fetch throws, in which case the count still advances
   * (with its wait) and the loop then stops because the order was found.
   * "Not found" and a thrown error both advance the count; the wait after
   * attempt k+1 is 200·(k+1) ms, and none follows the last attempt.
   */
  function RetryFrom(attempts: seq<Attempt>, k: nat): (r: RetryOutcome)
    requires k <= MaxRetries <= |attempts|
    ensures r.attemptsMade <= MaxRetries
    ensures k == MaxRetries || k < r.attemptsMade
    ensures r.details.Some? ==> r.orderExists
    decreases MaxRetries - k
  {
    if k == MaxRetries then RetryOutcome(false, None, k, [])
    else
      var wait := if k + 1 < MaxRetries then [RetryDelayMs * (k + 1)] else [];
      if ReportsExisting(attempts[k]) then
        match GetOrderDetails(attempts[k].detailsReply)
        case Value(d) => RetryOutcome(true, d, k + 1, [])
        case Raised => RetryOutcome(true, None, k + 1, wait)
      else
        var rest := RetryFrom(attempts, k + 1);
        rest.(waits := wait + rest.waits)
  }

  /** The whole validation loop, from the first attempt. */
  function RetryRun(attempts: seq<Attempt>): (r: RetryOutcome)
    requires MaxRetries <= |attempts|
    ensures 1 <= r.attemptsMade <= MaxRetries
    ensures r.details.Some? ==> r.orderExists
  {
    RetryFrom(attempts, 0)
  }

  /** An outcome with `earlier` waits performed before its own. */
  function Prefixed(earlier: seq<int>, o: RetryOutcome): RetryOutcome
  {
    o.(waits := earlier + o.waits)
  }

  lemma PrefixedTwice(a: seq<int>, b: seq<int>, o: RetryOutcome)
    ensures Prefixed(a, Prefixed(b, o)) == Prefixed(a + b, o)
  {
    assert a + (b + o.waits) == (a + b) + o.waits;
  }

  /** The validation loop of `Consume`. */
  method ValidateOrderWithRetry(attempts: seq<Attempt>)
    returns (orderExists: bool, details: Option<OrderDetails>, attemptsMade: nat, waits: seq<int>)
    requires MaxRetries <= |attempts|
    ensures RetryOutcome(orderExists, details, attemptsMade, waits) == RetryRun(attempts)
  {
    orderExists := false;
    details := None;
    attemptsMade := 0;
    waits := [];
    var retryCount: nat := 0;
    while retryCount < MaxRetries && !orderExists
      invariant retryCount <= MaxRetries
      invariant !orderExists ==>
                  && details.None?
                  && attemptsMade == retryCount
                  && RetryRun(attempts) == Prefixed(waits, RetryFrom(attempts, retryCount))
      invariant orderExists ==> RetryRun(attempts) == RetryOutcome(true, details, attemptsMade, waits)
      decreases MaxRetries - retryCount
    {
      ghost var waitsBefore := waits;
      attemptsMade := attemptsMade + 1;
      // "not found" and a thrown call both leave the order unfound
      if ValidateOrderExists(attempts[retryCount].validateReply) == Value(true) {
        orderExists := true;
        var fetched := GetOrderDetails(attempts[retryCount].detailsReply);
        if fetched.Value? {
          details := fetched.v;
          assert waits + [] == waits;
          break;
        }
      }
      retryCount := retryCount + 1;
      if retryCount < MaxRetries {
        waits := waits + [RetryDelayMs * retryCount];
      }
      if !orderExists {
        PrefixedTwice(waitsBefore, waits[|waitsBefore|..], RetryFrom(attempts, retryCount));
        assert waitsBefore + waits[|waitsBefore|..] == waits;
      }
    }
  }

  // ----- Properties of the validation loop -----

  /** The waits 200·(from+1), 200·(from+2), … of `n` consecutive retries. */
  function Waits(from: nat, n: nat): (s: seq<int>)
    ensures |s| == n
  {
    seq(n, i requires 0 <= i < n => RetryDelayMs * (from + i + 1))
  }

  function Sum(s: seq<int>): int
  {
    if s == [] then 0 else s[0] + Sum(s[1..])
  }

  lemma {:induction false} WaitsFrom(attempts: seq<Attempt>, k: nat)
    requires k <= MaxRetries <= |attempts|
    ensures var r := RetryFrom(attempts, k);
            && r.waits == Waits(k, |r.waits|)
            && (r.waits == [] || k + |r.waits| < MaxRetries)
            && k + |r.waits| <= r.attemptsMade
    decreases MaxRetries - k
  {
    if k < MaxRetries && !ReportsExisting(attempts[k]) {
      WaitsFrom(attempts, k + 1);
      var rest := RetryFrom(attempts, k + 1);
      if k + 1 < MaxRetries {
        assert [RetryDelayMs * (k + 1)] + Waits(k + 1, |rest.waits|) == Waits(k, 1 + |rest.waits|);
      }
    }
  }

  /**
   * The waits are 200, 400, … ms in order, fewer than the attempts allowed
   * and no more than the attempts made, so the loop waits at most 600 ms.
   */
  lemma BackoffSchedule(attempts: seq<Attempt>)
    requires MaxRetries <= |attempts|
    ensures var r := RetryRun(attempts);
            && r.waits == Waits(0, |r.waits|)
            && |r.waits| < MaxRetries
            && |r.waits| <= r.attemptsMade
            && Sum(r.waits) <= 600
  {
    WaitsFrom(attempts, 0);
    var n := |RetryRun(attempts).waits|;
    assert n == 0 || n == 1 || n == 2;
    if n == 1 {
      assert Sum(Waits(0, 1)) == 200 by { assert Waits(0, 1)[1..] == []; }
    } else if n == 2 {
      assert Sum(Waits(0, 2)) == 600 by {
        assert Waits(0, 2)[1..][1..] == [];
      }
    }
  }

  lemma {:induction false} StopsAtFirstExistingFrom(attempts: seq<Attempt>, k: nat)
    requires k <= MaxRetries <= |attempts|
    ensures var r := RetryFrom(attempts, k);
            && (r.orderExists <==> exists j :: k <= j < MaxRetries && ReportsExisting(attempts[j]))
            && (r.orderExists ==> ReportsExisting(attempts[r.attemptsMade - 1])
                                  && forall j :: k <= j < r.attemptsMade - 1 ==> !ReportsExisting(attempts[j]))
            && (!r.orderExists ==> r.attemptsMade == MaxRetries)
    decreases MaxRetries - k
  {
    if k < MaxRetries && !ReportsExisting(attempts[k]) {
      StopsAtFirstExistingFrom(attempts, k + 1);
    }
  }

  /**
   * The order is found exactly when one of the three attempts reports it;
   * the loop stops at the first such attempt, and otherwise uses all three.
   */
  lemma StopsAtFirstExisting(attempts: seq<Attempt>)
    requires MaxRetries <= |attempts|
    ensures var r := RetryRun(attempts);
            && 1 <= r.attemptsMade <= MaxRetries
            && (r.orderExists <==> exists j :: 0 <= j < MaxRetries && ReportsExisting(attempts[j]))
            && (r.orderExists ==> ReportsExisting(attempts[r.attemptsMade - 1])
                                  && forall j :: 0 <= j < r.attemptsMade - 1 ==> !ReportsExisting(attempts[j]))
            && (!r.orderExists ==> r.attemptsMade == MaxRetries)
  {
    StopsAtFirstExistingFrom(attempts, 0);
  }

  /** Whether an attempt answers "not found" or throws makes no difference to the loop. */
  lemma {:induction false} NotFoundRetriedLikeError(a: seq<Attempt>, b: seq<Attempt>, k: nat)
    requires k <= MaxRetries <= |a| == |b|
    requires forall j :: k <= j < MaxRetries ==>
               a[j] == b[j] || (!ReportsExisting(a[j]) && !ReportsExisting(b[j]))
    ensures RetryFrom(a, k) == RetryFrom(b, k)
    decreases MaxRetries - k
  {
    if k < MaxRetries {
      NotFoundRetriedLikeError(a, b, k + 1);
    }
  }

  /** An order that is never found costs all three attempts and waits 200 then 400 ms. */
  lemma NeverFoundWaitsTwice(attempts: seq<Attempt>)
    requires MaxRetries <= |attempts|
    requires forall j :: 0 <= j < MaxRetries ==> !ReportsExisting(attempts[j])
    ensures RetryRun(attempts) == RetryOutcome(false, None, 3, [200, 400])
  {
  }

  // ----- The amount gate -----

  /** The order was found, its details came back, and the amounts agree within 0.01. */
  predicate PassesGate(r: RetryOutcome, amount: real)
    ensures !r.orderExists || r.details.None? ==> !PassesGate(r, amount)
    ensures PassesGate(r, amount) ==>
              r.details.value.totalAmount - AmountTolerance <= amount <= r.details.value.totalAmount + AmountTolerance
  {
    r.orderExists && r.details.Some? && Abs(r.details.value.totalAmount - amount) <= AmountTolerance
  }

  /** The tolerance is inclusive on both sides of the order's total. */
  lemma GateTolerance(r: RetryOutcome, amount: real)
    requires r.orderExists && r.details.Some?
    ensures PassesGate(r, amount) <==>
              r.details.value.totalAmount - 0.01 <= amount <= r.details.value.totalAmount + 0.01
  {
  }

  /** Existence confirmed but the details call throwing leaves no details, so the request is rejected. */
  lemma DetailsFailureRejects(attempts: seq<Attempt>, amount: real)
    requires MaxRetries <= |attempts|
    requires ReportsExisting(attempts[0]) && attempts[0].detailsReply.RpcError?
    ensures RetryRun(attempts) == RetryOutcome(true, None, 1, [200])
    ensures !PassesGate(RetryRun(attempts), amount)
  {
  }

  /**
   * Against a healthy order service, a request for a stored order whose total
   * matches within 0.01 passes on the first attempt.
   */
  lemma StoredOrderPassesFirstAttempt(orders: map<int, OrderDomain.Order>, ev: PaymentRequestedEvent, attempts: seq<Attempt>)
    requires MaxRetries <= |attempts|
    requires ev.orderId in orders
    requires Abs(orders[ev.orderId].totalAmount - ev.amount) <= AmountTolerance
    requires attempts[0] == Attempt(ValidateOrder(orders, ev.orderId, false), ValidateOrder(orders, ev.orderId, false))
    ensures RetryRun(attempts).attemptsMade == 1
    ensures RetryRun(attempts).waits == []
    ensures PassesGate(RetryRun(attempts), ev.amount)
  {
    ClientSeesStoredOrder(orders, ev.orderId);
  }

  // ----- The handler -----

  /** Where an exception interrupts the handler after the gate (all are caught and logged). */
  datatype Fault = NoFault | InsertFails | SettleSaveFails | PublishFails

  function TransactionIdFor(guid: string): string
  {
    "txn_" + guid
  }

  /**
   * `Consume`. `attempts` are the order service's replies, `settles` the
   * outcome of the random settlement draw, `txnGuid` the GUID in the
   * transaction id, `createdAt` and `settledAt` the clock readings, and
   * `fault` where (if anywhere) an exception is raised. `waits` lists the
   * delays performed, in order.
   */
  method Consume(db: PaymentDb, ev: PaymentRequestedEvent, attempts: seq<Attempt>, settles: bool, txnGuid: string,
                 createdAt: Instant, settledAt: Instant, fault: Fault)
    returns (waits: seq<int>)
    requires db.Valid()
    requires MaxRetries <= |attempts|
    modifies db`payments, db`nextPaymentId, db`outbox
    ensures db.Valid()
    ensures |old(db.payments)| <= |db.payments| <= |old(db.payments)| + 1
    ensures db.payments[..|old(db.payments)|] == old(db.payments)
    ensures |old(db.outbox)| <= |db.outbox| <= |old(db.outbox)| + 1
    ensures forall k :: |old(db.outbox)| <= k < |db.outbox| ==> db.outbox[k].PaymentCompletedMessage?
    ensures var run := RetryRun(attempts);
            var inserted := PassesGate(run, ev.amount) && fault != InsertFails;
            var row := Payment(old(db.nextPaymentId), ev.orderId, ev.amount, Processing, Some(MockPaymentMethod), None, None, createdAt);
            var paid := row.(status := Completed, transactionId := Some(TransactionIdFor(txnGuid)), paidAt := Some(settledAt));
            && waits == run.waits + (if inserted then [SettlementDelayMs] else [])
            && (!inserted ==> db.payments == old(db.payments) && db.outbox == old(db.outbox))
            && (inserted && !settles ==>
                  && db.payments == old(db.payments) + [if fault == SettleSaveFails then row else row.(status := Failed)]
                  && db.outbox == old(db.outbox))
            && (inserted && settles ==>
                  && db.payments == old(db.payments) + [if fault == SettleSaveFails then row else paid]
                  && db.outbox == old(db.outbox)
                       + if fault == NoFault
                         then [PaymentCompletedMessage(PaymentCompletedEvent(ev.orderId, ev.userId, ev.amount,
                                 IntToString(paid.paymentId), TransactionIdFor(txnGuid), settledAt))]
                         else [])
  {
    var orderExists, details, attemptsMade;
    orderExists, details, attemptsMade, waits := ValidateOrderWithRetry(attempts);
    if !orderExists || details.None? || Abs(details.value.totalAmount - ev.amount) > AmountTolerance {
      return;
    }
    if fault == InsertFails {
      return;
    }
    var payment := db.Add(Payment(0, ev.orderId, ev.amount, Processing, Some(MockPaymentMethod), None, None, createdAt));
    var k := |db.payments| - 1;
    waits := waits + [SettlementDelayMs];
    if settles {
      payment := payment.(status := Completed, transactionId := Some(TransactionIdFor(txnGuid)), paidAt := Some(settledAt));
      if fault == SettleSaveFails {
        return;
      }
      db.Save(k, payment);
      if fault == PublishFails {
        return;
      }
      db.Publish(PaymentCompletedMessage(PaymentCompletedEvent(ev.orderId, ev.userId, ev.amount,
        IntToString(payment.paymentId), payment.transactionId.value, payment.paidAt.value)));
    } else {
      payment := payment.(status := Failed);
      if fault == SettleSaveFails {
        return;
      }
      db.Save(k, payment);
    }
  }
}
