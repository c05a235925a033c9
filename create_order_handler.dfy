/** `CreateOrderHandler`: stores a new order, with its tacos, toppings and side
    items embedded, under the customer's partition. */
module CreateOrderHandler {
  import opened Wrappers
  import opened Strings
  import opened Attributes
  import opened Models
  import opened Keys
  import opened Pricing
  import opened OrderEncoding
  import opened OrderRoundTrip
  import opened DynamoTable
  import opened Responses

  /** The order is written: its status names an `OrderStatus` constant (the
      request body parses), is not `null`, and no name in it is `null` (the
      store accepts the item). */
  predicate Writable(order: Order, statuses: set<string>)
  {
    order.status.Some? && order.status.value in statuses && NamesGiven(order)
  }

  /** `addItemsToOrder`: adds the `Tacos` and `SideItems` lists to the item. */
  method AddItemsToOrder(orderItem: Item, order: Order, uuid: UuidSource) returns (r: Item)
    ensures r == orderItem + ChildAttributes(order, uuid)
  {
    r := orderItem;
    if NotEmpty(order.tacos) {
      r := r["Tacos" := L(TacoList(order.tacos.value, uuid))];
    }
    if NotEmpty(order.sideItems) {
      r := r["SideItems" := L(SideItemList(order.sideItems.value, uuid))];
    }
  }

  /** `createOrderRecord`: builds the item attribute by attribute and puts it.
      `stored` is false when `getStatus()` is `null` (the item is never sent)
      or when the store refuses the item. */
  method CreateOrderRecord(db: Table, partitionKey: string, sortKey: string, order: Order,
                           now: string, uuid: UuidSource) returns (stored: bool)
    requires db.Valid()
    modifies db
    ensures db.Valid()
    ensures stored <==> order.status.Some? && NamesGiven(order)
    ensures stored ==> db.items == old(db.items)[Key(partitionKey, sortKey) :=
                                    OrderItem(partitionKey, sortKey, now, order.status.value, order, uuid)]
    ensures !stored ==> db.items == old(db.items)
  {
    var orderItem: Item := map[];
    orderItem := orderItem["PK" := S(partitionKey)];
    orderItem := orderItem["SK" := S(sortKey)];
    orderItem := orderItem["OrderDate" := S(now)];
    var totalPrice := CalculateTotalPrice(order);
    orderItem := orderItem["TotalPrice" := N(totalPrice)];
    if order.status.None? {
      return false;
    }
    orderItem := orderItem["Status" := S(order.status.value)];
    orderItem := AddItemsToOrder(orderItem, order, uuid);
    assert orderItem == OrderItem(partitionKey, sortKey, now, order.status.value, order, uuid);
    OrderItemTyped(partitionKey, sortKey, now, order.status.value, order, uuid);
    stored := db.PutItem(orderItem);
  }

  /** `handleRequest`: 201 and the order stored under
      `CUSTOMER#<customerId>` / `ORDER#<orderId>` (the given id or a fresh one),
      replacing any order stored there; otherwise 500 and the table unchanged. */
  method HandleRequest(db: Table, order: Order, statuses: set<string>, now: string, uuid: UuidSource)
    returns (resp: Response)
    requires db.Valid()
    modifies db
    ensures db.Valid()
    ensures Writable(order, statuses) ==>
      var orderId := OrderIdFor(order, uuid);
      && resp == Response(201, Text("Order with ID " + orderId + " created successfully."))
      && db.items == old(db.items)[OrderKey(order.customerId, Some(orderId)) :=
                                   StoredItem(order, now, order.status.value, uuid)]
    ensures !Writable(order, statuses) ==>
      resp == Response(500, Text("Error creating order")) && db.items == old(db.items)
  {
    if order.status.Some? && order.status.value !in statuses {
      // the body names no `OrderStatus` constant: parsing it throws
      return Response(500, Text("Error creating order"));
    }
    var customerId := order.customerId;
    var orderId := OrderIdFor(order, uuid);
    var partitionKey := CustomerPartition(customerId);
    var sortKey := OrderSortKey(Some(orderId));
    var stored := CreateOrderRecord(db, partitionKey, sortKey, order, now, uuid);
    if stored {
      resp := Response(201, Text("Order with ID " + orderId + " created successfully."));
    } else {
      resp := Response(500, Text("Error creating order"));
    }
  }
}
