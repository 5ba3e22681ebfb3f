/**
 * The order service's persistent state: the Orders, OrderItems and
 * SpicyNoodles tables behind OrderDbContext and the order repository,
 * plus the publish endpoint, modelled as an outbox that `Publish` appends to.
 * Identity columns are modelled by counters that hand out the next key.
 */
module OrderStore {
  import opened Common
  import opened OrderDomain

  class OrderDb {
    var orders: map<int, Order>
    var orderItems: seq<OrderItem>
    var noodles: map<int, SpicyNoodle>
    var outbox: seq<OrderMessage>
    var nextOrderId: int
    var nextOrderItemId: int

    /** Keys agree with the rows' ids, and identity counters are ahead of every key. */
    ghost predicate Valid()
      reads this
    {
      && 0 < nextOrderId
      && 0 < nextOrderItemId
      && (forall id :: id in orders ==> orders[id].orderId == id && 0 < id < nextOrderId)
      && (forall k :: 0 <= k < |orderItems| ==> 0 < orderItems[k].orderItemId < nextOrderItemId)
      && (forall id :: id in noodles ==> noodles[id].noodleId == id)
    }

    constructor (catalog: map<int, SpicyNoodle>)
      requires forall id :: id in catalog ==> catalog[id].noodleId == id
      ensures Valid()
      ensures orders == map[] && orderItems == [] && outbox == []
      ensures noodles == catalog
    {
      orders := map[];
      orderItems := [];
      noodles := catalog;
      outbox := [];
      nextOrderId := 1;
      nextOrderItemId := 1;
    }

    /** `IOrderRepository.CreateAsync`: insert a row, the store assigning its OrderId. */
    method Create(o: Order) returns (created: Order)
      requires Valid()
      modifies this
      ensures Valid()
      ensures created == o.(orderId := old(nextOrderId))
      ensures old(nextOrderId) !in old(orders)
      ensures orders == old(orders)[created.orderId := created]
      ensures nextOrderId == old(nextOrderId) + 1
      ensures orderItems == old(orderItems) && noodles == old(noodles) && outbox == old(outbox)
      ensures nextOrderItemId == old(nextOrderItemId)
    {
      created := o.(orderId := nextOrderId);
      orders := orders[nextOrderId := created];
      nextOrderId := nextOrderId + 1;
    }

    /** `IOrderRepository.UpdateAsync`: overwrite the stored row with the same id. */
    method Update(o: Order)
      requires Valid()
      requires o.orderId in orders
      modifies this`orders
      ensures Valid()
      ensures orders == old(orders)[o.orderId := o]
    {
      orders := orders[o.orderId := o];
    }

    /** `SaveChangesAsync` on pending OrderItems: each gets the next identity value. */
    method AddItems(pending: seq<OrderItem>)
      requires Valid()
      modifies this`orderItems, this`nextOrderItemId
      ensures Valid()
      ensures |orderItems| == |old(orderItems)| + |pending|
      ensures orderItems[..|old(orderItems)|] == old(orderItems)
      ensures forall k :: 0 <= k < |pending| ==>
                orderItems[|old(orderItems)| + k] == pending[k].(orderItemId := old(nextOrderItemId) + k)
      ensures nextOrderItemId == old(nextOrderItemId) + |pending|
    {
      var i := 0;
      while i < |pending|
        invariant 0 <= i <= |pending|
        invariant Valid()
        invariant |orderItems| == |old(orderItems)| + i
        invariant orderItems[..|old(orderItems)|] == old(orderItems)
        invariant forall k :: 0 <= k < i ==>
                    orderItems[|old(orderItems)| + k] == pending[k].(orderItemId := old(nextOrderItemId) + k)
        invariant nextOrderItemId == old(nextOrderItemId) + i
      {
        orderItems := orderItems + [pending[i].(orderItemId := nextOrderItemId)];
        nextOrderItemId := nextOrderItemId + 1;
        i := i + 1;
      }
    }

    /** `IPublishEndpoint.Publish`: append to the outbox. */
    method Publish(m: OrderMessage)
      modifies this`outbox
      ensures outbox == old(outbox) + [m]
    {
      outbox := outbox + [m];
    }
  }
}
