/**
 * OrderService.CreateOrderAsync and OrderService.UpdateOrderStatusAsync.
 *
 * Creating an order stores a Pending row with a zero total first, prices
 * every requested item from the noodle catalogue (throwing on an unknown
 * noodle, which leaves the row behind), saves the items and the total, and
 * then publishes PaymentRequested followed by OrderCreated.
 */
module OrderService {
  import opened Common
  import opened OrderDomain
  import opened OrderStore

  datatype CreateOrderItemCommand = CreateOrderItemCommand(noodleId: int, quantity: int)

  datatype CreateOrderCommand = CreateOrderCommand(userId: int, items: seq<CreateOrderItemCommand>)

  datatype OrderItemResult = OrderItemResult(
    orderItemId: int,
    noodleId: int,
    noodleName: string,
    quantity: int,
    subtotal: real)

  datatype OrderResult = OrderResult(
    orderId: int,
    userId: int,
    status: string,
    totalAmount: real,
    createdAt: Instant,
    items: seq<OrderItemResult>)

  // ----- Pricing, as specification -----

  /** Every requested noodle is in the catalogue. */
  predicate AllKnown(noodles: map<int, SpicyNoodle>, items: seq<CreateOrderItemCommand>)
  {
    forall k :: 0 <= k < |items| ==> items[k].noodleId in noodles
  }

  /** The first requested noodle id missing from the catalogue, if any (see FirstUnknownIsAt). */
  function FirstUnknownNoodle(noodles: map<int, SpicyNoodle>, items: seq<CreateOrderItemCommand>): (r: Option<int>)
    ensures r.None? <==> AllKnown(noodles, items)
    ensures r.Some? ==> r.value !in noodles
  {
    if items == [] then None
    else if items[0].noodleId !in noodles then Some(items[0].noodleId)
    else
      var rest := FirstUnknownNoodle(noodles, items[1..]);
      assert AllKnown(noodles, items[1..]) ==> AllKnown(noodles, items) by {
        if AllKnown(noodles, items[1..]) {
          forall k | 0 <= k < |items| ensures items[k].noodleId in noodles {
            if k > 0 { assert items[k] == items[1..][k - 1]; }
          }
        }
      }
      rest
  }

  /** BasePrice x Quantity: the subtotal of one line. */
  function LineSubtotal(noodle: SpicyNoodle, quantity: int): real
  {
    noodle.basePrice * (quantity as real)
  }

  /** The sum of BasePrice x Quantity over the requested lines. */
  function CommandTotal(noodles: map<int, SpicyNoodle>, items: seq<CreateOrderItemCommand>): real
    requires AllKnown(noodles, items)
  {
    if items == [] then 0.0
    else
      var last := items[|items| - 1];
      CommandTotal(noodles, items[..|items| - 1]) + LineSubtotal(noodles[last.noodleId], last.quantity)
  }

  /** The OrderItem rows built for the request, before the store assigns their ids. */
  function PricedItems(noodles: map<int, SpicyNoodle>, orderId: int, items: seq<CreateOrderItemCommand>, now: Instant): (r: seq<OrderItem>)
    requires AllKnown(noodles, items)
    ensures |r| == |items|
  {
    seq(|items|, k requires 0 <= k < |items| =>
      OrderItem(0, orderId, items[k].noodleId, items[k].quantity,
                LineSubtotal(noodles[items[k].noodleId], items[k].quantity), now))
  }

  function SumOfSubtotals(rows: seq<OrderItem>): real
  {
    if rows == [] then 0.0 else SumOfSubtotals(rows[..|rows| - 1]) + rows[|rows| - 1].subtotal
  }

  /** The order's total is the sum of the subtotals of the items stored with it. */
  lemma {:induction false} TotalIsSumOfItemSubtotals(noodles: map<int, SpicyNoodle>, orderId: int,
                                                     items: seq<CreateOrderItemCommand>, now: Instant)
    requires AllKnown(noodles, items)
    ensures SumOfSubtotals(PricedItems(noodles, orderId, items, now)) == CommandTotal(noodles, items)
  {
    if items != [] {
      var front := items[..|items| - 1];
      assert AllKnown(noodles, front);
      TotalIsSumOfItemSubtotals(noodles, orderId, front, now);
      assert PricedItems(noodles, orderId, items, now)[..|items| - 1] == PricedItems(noodles, orderId, front, now);
    }
  }

  function ItemResults(rows: seq<OrderItem>): (r: seq<OrderItemResult>)
    ensures |r| == |rows|
  {
    seq(|rows|, k requires 0 <= k < |rows| =>
      OrderItemResult(rows[k].orderItemId, rows[k].noodleId, "", rows[k].quantity, rows[k].subtotal))
  }

  function ItemDtos(results: seq<OrderItemResult>): (r: seq<OrderItemDto>)
    ensures |r| == |results|
  {
    seq(|results|, k requires 0 <= k < |results| =>
      OrderItemDto(results[k].noodleId, "", results[k].quantity, results[k].subtotal))
  }

  /** OrderCreated's items mirror the requested lines one for one, each priced at BasePrice x Quantity. */
  lemma OrderCreatedItemsMirrorRequest(noodles: map<int, SpicyNoodle>, orderId: int,
                                       items: seq<CreateOrderItemCommand>, now: Instant)
    requires AllKnown(noodles, items)
    ensures var dtos := ItemDtos(ItemResults(PricedItems(noodles, orderId, items, now)));
            && |dtos| == |items|
            && forall k :: 0 <= k < |items| ==>
                 && dtos[k].noodleId == items[k].noodleId
                 && dtos[k].quantity == items[k].quantity
                 && dtos[k].subtotal == noodles[items[k].noodleId].basePrice * (items[k].quantity as real)
  {
  }

  /** The OrderItem rows appended after `before`: `priced` in order, numbered from `firstId`. */
  ghost predicate ItemsStored(before: seq<OrderItem>, after: seq<OrderItem>, priced: seq<OrderItem>, firstId: int)
  {
    && |after| == |before| + |priced|
    && after[..|before|] == before
    && forall k :: 0 <= k < |priced| ==> after[|before| + k] == priced[k].(orderItemId := firstId + k)
  }

  // ----- The operations -----

  /**
   * The step of `CreateOrderAsync` that throws, if any: the order insert, the
   * save of the item rows, the update that stores the total, or either publish.
   */
  datatype CreateFault =
    | NoCreateFault
    | InsertFails
    | ItemsSaveFails
    | TotalUpdateFails
    | PaymentRequestedPublishFails
    | OrderCreatedPublishFails

  /** The fault that takes effect: a request without items never reaches the item save or the total update. */
  function ReachedFault(fault: CreateFault, hasItems: bool): CreateFault
  {
    if !hasItems && (fault == ItemsSaveFails || fault == TotalUpdateFails) then NoCreateFault else fault
  }

  /**
   * `CreateOrderAsync`. A throwing step leaves behind whatever the steps
   * before it wrote, and the exception reaches the caller.
   */
  method CreateOrder(db: OrderDb, command: CreateOrderCommand, now: Instant, fault: CreateFault)
    returns (r: Result<OrderResult>)
    requires db.Valid()
    modifies db
    ensures db.Valid()
    ensures db.noodles == old(db.noodles)
    ensures ReachedFault(fault, command.items != []) == InsertFails ==>
              && r == Err(StoreFailure)
              && db.orders == old(db.orders) && db.orderItems == old(db.orderItems) && db.outbox == old(db.outbox)
    ensures var id := old(db.nextOrderId);
            var row := Order(id, command.userId, Pending, 0.0, now, now);
            var f := ReachedFault(fault, command.items != []);
            f != InsertFails ==>
            && id !in old(db.orders)
            && match FirstUnknownNoodle(old(db.noodles), command.items)
               case Some(unknown) =>
                 // the Pending row stays; nothing else is saved or published
                 && r == Err(NoodleNotFound(unknown))
                 && db.orders == old(db.orders)[id := row]
                 && db.orderItems == old(db.orderItems)
                 && db.outbox == old(db.outbox)
               case None =>
                 var total := CommandTotal(old(db.noodles), command.items);
                 var priced := PricedItems(old(db.noodles), id, command.items, now);
                 var paymentRequested := PaymentRequestedMessage(PaymentRequestedEvent(id, command.userId, total, DefaultCurrency, now));
                 var orderCreated := OrderCreatedMessage(OrderCreatedEvent(id, command.userId, total, ItemDtos(ItemResults(priced)), now));
                 && (f == ItemsSaveFails ==>
                       r == Err(StoreFailure) && db.orders == old(db.orders)[id := row]
                       && db.orderItems == old(db.orderItems) && db.outbox == old(db.outbox))
                 && (f != ItemsSaveFails ==> ItemsStored(old(db.orderItems), db.orderItems, priced, old(db.nextOrderItemId)))
                 && (f == TotalUpdateFails ==>
                       r == Err(StoreFailure) && db.orders == old(db.orders)[id := row] && db.outbox == old(db.outbox))
                 && (f != ItemsSaveFails && f != TotalUpdateFails ==> db.orders == old(db.orders)[id := row.(totalAmount := total)])
                 && (f == PaymentRequestedPublishFails ==> r == Err(PublishFailure) && db.outbox == old(db.outbox))
                 && (f == OrderCreatedPublishFails ==> r == Err(PublishFailure) && db.outbox == old(db.outbox) + [paymentRequested])
                 && (f == NoCreateFault ==>
                       r == Ok(OrderResult(id, command.userId, Pending, total, now, ItemResults(priced)))
                       && db.outbox == old(db.outbox) + [paymentRequested, orderCreated])
    // a request without items stores no item rows, keeps the zero total, and announces an empty order
    ensures command.items == [] && fault == NoCreateFault ==>
              var id := old(db.nextOrderId);
              && r == Ok(OrderResult(id, command.userId, Pending, 0.0, now, []))
              && db.orders == old(db.orders)[id := Order(id, command.userId, Pending, 0.0, now, now)]
              && db.orderItems == old(db.orderItems)
              && db.outbox == old(db.outbox)
                   + [PaymentRequestedMessage(PaymentRequestedEvent(id, command.userId, 0.0, DefaultCurrency, now)),
                      OrderCreatedMessage(OrderCreatedEvent(id, command.userId, 0.0, [], now))]
  {
    if fault == InsertFails {
      return Err(StoreFailure);
    }
    var created := db.Create(Order(0, command.userId, Pending, 0.0, now, now));
    var pricing := PriceItems(db.noodles, created.orderId, command.items, now);
    if pricing.Unknown? {
      return Err(NoodleNotFound(pricing.noodleId));
    }
    r := StoreItemsAndAnnounce(db, created, pricing.rows, pricing.total, now, fault);
  }

  /**
   * The rest of `CreateOrderAsync` once every line is priced: save the item
   * rows and the total (only when there are items), then publish
   * PaymentRequested and OrderCreated.
   */
  method StoreItemsAndAnnounce(db: OrderDb, created: Order, rows: seq<OrderItem>, total: real, now: Instant, fault: CreateFault)
    returns (r: Result<OrderResult>)
    requires db.Valid()
    requires created.orderId in db.orders && db.orders[created.orderId] == created && created.updatedAt == now
    requires rows == [] ==> total == created.totalAmount
    requires fault != InsertFails
    modifies db
    ensures db.Valid()
    ensures db.noodles == old(db.noodles)
    ensures var id := created.orderId;
            var f := ReachedFault(fault, rows != []);
            var paymentRequested := PaymentRequestedMessage(PaymentRequestedEvent(id, created.userId, total, DefaultCurrency, now));
            var orderCreated := OrderCreatedMessage(OrderCreatedEvent(id, created.userId, total, ItemDtos(ItemResults(rows)), created.createdAt));
            && (f == ItemsSaveFails ==>
                  r == Err(StoreFailure) && db.orders == old(db.orders)
                  && db.orderItems == old(db.orderItems) && db.outbox == old(db.outbox))
            && (f != ItemsSaveFails ==> ItemsStored(old(db.orderItems), db.orderItems, rows, old(db.nextOrderItemId)))
            && (f == TotalUpdateFails ==> r == Err(StoreFailure) && db.orders == old(db.orders) && db.outbox == old(db.outbox))
            && (f != ItemsSaveFails && f != TotalUpdateFails ==> db.orders == old(db.orders)[id := created.(totalAmount := total)])
            && (f == PaymentRequestedPublishFails ==> r == Err(PublishFailure) && db.outbox == old(db.outbox))
            && (f == OrderCreatedPublishFails ==> r == Err(PublishFailure) && db.outbox == old(db.outbox) + [paymentRequested])
            && (f == NoCreateFault ==>
                  r == Ok(OrderResult(id, created.userId, created.status, total, created.createdAt, ItemResults(rows)))
                  && db.outbox == old(db.outbox) + [paymentRequested, orderCreated])
  {
    var id := created.orderId;
    if |rows| > 0 {
      if fault == ItemsSaveFails {
        return Err(StoreFailure);
      }
      db.AddItems(rows);
      if fault == TotalUpdateFails {
        return Err(StoreFailure);
      }
      db.Update(created.(totalAmount := total, updatedAt := now));
    } else {
      assert db.orderItems[..|old(db.orderItems)|] == old(db.orderItems);
      assert created.(totalAmount := total) == created;
    }
    var results := ItemResults(rows);

    if fault == PaymentRequestedPublishFails {
      return Err(PublishFailure);
    }
    db.Publish(PaymentRequestedMessage(PaymentRequestedEvent(id, created.userId, total, DefaultCurrency, now)));
    if fault == OrderCreatedPublishFails {
      return Err(PublishFailure);
    }
    db.Publish(OrderCreatedMessage(OrderCreatedEvent(id, created.userId, total, ItemDtos(results), created.createdAt)));
    r := Ok(OrderResult(id, created.userId, created.status, total, created.createdAt, results));
  }

  /** The outcome of pricing a request: the first unknown noodle, or the item rows and their total. */
  datatype Pricing = Unknown(noodleId: int) | Priced(rows: seq<OrderItem>, total: real)

  /** The loop of `CreateOrderAsync` that looks up and prices each requested line, stopping at an unknown noodle. */
  method PriceItems(noodles: map<int, SpicyNoodle>, orderId: int, items: seq<CreateOrderItemCommand>, now: Instant)
    returns (p: Pricing)
    ensures match FirstUnknownNoodle(noodles, items)
            case Some(unknown) => p == Unknown(unknown)
            case None => p == Priced(PricedItems(noodles, orderId, items, now), CommandTotal(noodles, items))
  {
    var totalAmount := 0.0;
    var pending: seq<OrderItem> := [];
    var i := 0;
    while i < |items|
      invariant 0 <= i <= |items|
      invariant AllKnown(noodles, items[..i])
      invariant totalAmount == CommandTotal(noodles, items[..i])
      invariant pending == PricedItems(noodles, orderId, items[..i], now)
    {
      var item := items[i];
      if item.noodleId !in noodles {
        FirstUnknownIsAt(noodles, items, i);
        return Unknown(item.noodleId);
      }
      var orderItem := OrderItem(0, orderId, item.noodleId, item.quantity, LineSubtotal(noodles[item.noodleId], item.quantity), now);
      assert items[..i + 1] == items[..i] + [item];
      assert items[..i + 1][..i] == items[..i];
      pending := pending + [orderItem];
      totalAmount := totalAmount + orderItem.subtotal;
      i := i + 1;
    }
    assert items[..i] == items;
    p := Priced(pending, totalAmount);
  }

  /** When the lines before `i` are all known and line `i` is not, line `i` is the first unknown one. */
  lemma {:induction false} FirstUnknownIsAt(noodles: map<int, SpicyNoodle>, items: seq<CreateOrderItemCommand>, i: nat)
    requires i < |items|
    requires AllKnown(noodles, items[..i])
    requires items[i].noodleId !in noodles
    ensures FirstUnknownNoodle(noodles, items) == Some(items[i].noodleId)
  {
    if i > 0 {
      assert items[0].noodleId in noodles by { assert items[..i][0] == items[0]; }
      assert items[1..][..i - 1] == items[..i][1..];
      FirstUnknownIsAt(noodles, items[1..], i - 1);
    }
  }

  /** The step of `UpdateOrderStatusAsync` that throws, if any: the status update or either publish. */
  datatype StatusFault =
    | NoStatusFault
    | StatusWriteFails
    | StatusChangedPublishFails
    | ConfirmedPaymentPublishFails

  /**
   * `UpdateOrderStatusAsync`: false for an unknown order; otherwise store the
   * status, announce the change, and request payment again on "Confirmed".
   * A throwing step leaves behind what the steps before it wrote.
   */
  method UpdateOrderStatus(db: OrderDb, orderId: int, newStatus: string, now: Instant, fault: StatusFault)
    returns (r: Result<bool>)
    requires db.Valid()
    modifies db
    ensures db.Valid()
    ensures db.noodles == old(db.noodles) && db.orderItems == old(db.orderItems)
    ensures r == Ok(false) <==> orderId !in old(db.orders)
    ensures orderId !in old(db.orders) ==> db.orders == old(db.orders) && db.outbox == old(db.outbox)
    ensures orderId in old(db.orders) ==>
              var o := old(db.orders)[orderId];
              var changed := OrderStatusChangedMessage(OrderStatusChangedEvent(orderId, o.userId, o.status, newStatus, o.totalAmount, now));
              var confirmed := EqualsIgnoreCase(newStatus, Confirmed);
              var paymentRequested := PaymentRequestedMessage(PaymentRequestedEvent(orderId, o.userId, o.totalAmount, DefaultCurrency, now));
              && (fault == StatusWriteFails ==>
                    r == Err(StoreFailure) && db.orders == old(db.orders) && db.outbox == old(db.outbox))
              && (fault != StatusWriteFails ==> db.orders == old(db.orders)[orderId := WithStatus(o, newStatus, now)])
              && (fault == StatusChangedPublishFails ==> r == Err(PublishFailure) && db.outbox == old(db.outbox))
              && (fault == ConfirmedPaymentPublishFails ==>
                    db.outbox == old(db.outbox) + [changed] && r == (if confirmed then Err(PublishFailure) else Ok(true)))
              && (fault == NoStatusFault ==>
                    r == Ok(true) && db.outbox == old(db.outbox) + [changed] + (if confirmed then [paymentRequested] else []))
  {
    if orderId !in db.orders {
      return Ok(false);
    }
    var order := db.orders[orderId];
    var oldStatus := order.status;
    order := WithStatus(order, newStatus, now);
    if fault == StatusWriteFails {
      return Err(StoreFailure);
    }
    db.Update(order);
    if fault == StatusChangedPublishFails {
      return Err(PublishFailure);
    }
    db.Publish(OrderStatusChangedMessage(
      OrderStatusChangedEvent(orderId, order.userId, oldStatus, newStatus, order.totalAmount, order.updatedAt)));
    if EqualsIgnoreCase(newStatus, Confirmed) {
      if fault == ConfirmedPaymentPublishFails {
        return Err(PublishFailure);
      }
      db.Publish(PaymentRequestedMessage(PaymentRequestedEvent(orderId, order.userId, order.totalAmount, DefaultCurrency, now)));
    }
    r := Ok(true);
  }
}
