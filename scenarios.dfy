/** Sequences of requests against one table, and what the handlers promise
    about them together. */
module Scenarios {
  import opened Wrappers
  import opened Strings
  import opened Attributes
  import opened Models
  import opened Keys
  import opened Pricing
  import opened OrderEncoding
  import opened TacoUtil
  import opened OrderRoundTrip
  import opened DynamoTable
  import opened Responses
  import CreateOrderHandler
  import CreateCustomerHandler
  import UpdateOrderHandler
  import GetOrderHandler

  /** An order that is written can be read back by its customer's email and
      its id: the read returns the stored order, with the status and total
      written, its tacos, toppings and side items in order, and its ids as
      given unless they contain their key markers. */
  method CreateThenGet(db: Table, order: Order, statuses: set<string>, now: string, uuid: UuidSource)
    returns (created: Response, fetched: Response)
    requires db.Valid()
    requires order.customerId.Some? && CreateOrderHandler.Writable(order, statuses)
    modifies db
    ensures created.statusCode == 201
    ensures fetched.statusCode == 200 && fetched.body.OrderJson?
    ensures MapToOrder(StoredItem(order, now, order.status.value, uuid), statuses) == Ok(fetched.body.order)
    ensures fetched.body.order.status == order.status
    ensures fetched.body.order.orderDate == Some(now)
    ensures fetched.body.order.totalPrice == CalculateTotalPrice(order)
    ensures Corresponds(order, fetched.body.order)
    ensures !Contains(order.customerId.value, CUSTOMER_PREFIX) ==> fetched.body.order.customerId == order.customerId
    ensures !Contains(OrderIdFor(order, uuid), ORDER_PREFIX) ==> fetched.body.order.id == Some(OrderIdFor(order, uuid))
  {
    ghost var item := StoredItem(order, now, order.status.value, uuid);
    created := CreateOrderHandler.HandleRequest(db, order, statuses, now, uuid);
    var orderId := OrderIdFor(order, uuid);
    ghost var key := OrderKey(order.customerId, Some(orderId));
    assert key in db.items && db.items[key] == item;
    var params := map["email" := order.customerId.value, "orderId" := orderId];
    assert OrderKey(Some(params["email"]), Some(params["orderId"])) == key;
    StoredItemDecodes(order, now, order.status.value, uuid, statuses);
    assert MapToOrder(db.items[key], statuses).Ok?;
    fetched := GetOrderHandler.HandleRequest(db, Some(params), statuses);
    assert fetched == Response(200, OrderJson(MapToOrder(item, statuses).value));
    RoundTrip(order, now, order.status.value, uuid, statuses);
    IdsRoundTrip(order, now, order.status.value, uuid, statuses);
  }

  /** A second customer registering with an email already taken is refused,
      and the first profile stays as it was written. */
  method DuplicateCustomer(db: Table, first: Customer, second: Customer)
    returns (r1: Response, r2: Response)
    requires db.Valid()
    requires ProfileKey(first.email) !in db.items && CreateCustomerHandler.FieldsGiven(first)
    requires second.email == first.email
    modifies db
    ensures r1.statusCode == 201 && r2.statusCode == 400
    ensures db.items == old(db.items)[ProfileKey(first.email) :=
                                      CreateCustomerHandler.ProfileItem(CustomerPartition(first.email), first)]
  {
    r1 := CreateCustomerHandler.HandleRequest(db, first);
    r2 := CreateCustomerHandler.HandleRequest(db, second);
  }

  /** Sending the same status update twice answers the same both times and
      leaves the table as one update leaves it. */
  method UpdateTwice(db: Table, req: UpdateOrderRequest, statuses: set<string>)
    returns (r1: Response, r2: Response)
    requires db.Valid()
    modifies db
    ensures r1 == r2
    ensures UpdateOrderHandler.Complete(req) && req.status.value in statuses ==>
      db.items == ApplyStatusUpdate(old(db.items), UpdateOrderHandler.TargetKey(req), req.status.value)
    ensures !(UpdateOrderHandler.Complete(req) && req.status.value in statuses) ==> db.items == old(db.items)
  {
    var key := UpdateOrderHandler.TargetKey(req);
    if req.status.Some? {
      StatusUpdateEffect(db.items, key, req.status.value);
      StatusUpdateIdempotent(db.items, key, req.status.value);
    }
    r1 := UpdateOrderHandler.HandleRequest(db, req, statuses);
    if req.status.Some? {
      StatusUpdateEffect(db.items, key, req.status.value);
    }
    r2 := UpdateOrderHandler.HandleRequest(db, req, statuses);
  }

  /** After a successful status update, reading the order shows the new status
      and everything else as before. */
  method UpdateThenGet(db: Table, req: UpdateOrderRequest, statuses: set<string>)
    returns (updated: Response, fetched: Response)
    requires db.Valid()
    requires UpdateOrderHandler.Complete(req) && req.status.value in statuses
    requires UpdateOrderHandler.TargetKey(req) in db.items
    requires MapToOrder(db.items[UpdateOrderHandler.TargetKey(req)], statuses).Ok?
    modifies db
    ensures updated.statusCode == 200
    ensures fetched == Response(200, OrderJson(
      MapToOrder(old(db.items)[UpdateOrderHandler.TargetKey(req)], statuses).value.(status := req.status)))
  {
    var key := UpdateOrderHandler.TargetKey(req);
    ghost var before := db.items[key];
    StatusUpdateReadBack(before, req.status.value, statuses);
    updated := UpdateOrderHandler.HandleRequest(db, req, statuses);
    var params := map["email" := req.email.value, "orderId" := req.orderId.value];
    fetched := GetOrderHandler.HandleRequest(db, Some(params), statuses);
  }
}
