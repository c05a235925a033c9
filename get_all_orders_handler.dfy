/** `GetAllOrdersHandler`: lists a customer's orders. */
module GetAllOrdersHandler {
  import opened Wrappers
  import opened Strings
  import opened Attributes
  import opened Models
  import opened Keys
  import opened TacoUtil
  import opened DynamoTable
  import opened Responses

  /** The customer's profile is never among the items the order query reads:
      its sort key does not begin with the order marker. */
  lemma ProfileNotListed(items: map<Key, Item>, email: string)
    ensures ProfileKey(Some(email)) !in QueryKeys(items, CustomerPartition(Some(email)), ORDER_PREFIX)
  {
    ProfileIsNotAnOrder(Some(email), None, None);
  }

  /** Every order stored for the customer is read, whatever its id. */
  lemma EveryOrderListed(items: map<Key, Item>, email: string, orderId: JString)
    requires OrderKey(Some(email), orderId) in items
    ensures OrderKey(Some(email), orderId) in QueryKeys(items, CustomerPartition(Some(email)), ORDER_PREFIX)
  {
    OrderSortKeyHasPrefix(orderId);
  }

  /** `getAllOrders(email)`: the customer's order items, in ascending sort-key
      order, each read as an order; the first item that cannot be read fails
      the whole call. */
  method GetAllOrders(db: Table, email: string, statuses: set<string>)
    returns (r: Result<seq<Order>, DecodeError>)
    requires db.Valid()
    ensures var ks := QueryKeys(db.items, CustomerPartition(Some(email)), ORDER_PREFIX);
      && (r.Ok? <==> forall i :: 0 <= i < |ks| ==> MapToOrder(db.items[ks[i]], statuses).Ok?)
      && (r.Ok? ==> |r.value| == |ks|
                    && forall i :: 0 <= i < |ks| ==> r.value[i] == MapToOrder(db.items[ks[i]], statuses).value)
  {
    var items := db.Query(CustomerPartition(Some(email)), ORDER_PREFIX);
    r := MapToOrders(items, statuses);
  }

  /** `handleRequest`: 400 without an email, 500 when any order item cannot be
      read, and otherwise 200 with the orders, which is the empty list for a
      customer with no orders. */
  method HandleRequest(db: Table, params: Option<map<string, string>>, statuses: set<string>)
    returns (resp: Response)
    requires db.Valid()
    ensures params.None? ==> resp == Response(500, Text("Error retrieving orders"))
    ensures params.Some? && "email" !in params.value ==> resp == Response(400, Text("Missing email"))
    ensures params.Some? && "email" in params.value ==>
      var ks := QueryKeys(db.items, CustomerPartition(Some(params.value["email"])), ORDER_PREFIX);
      && ((exists i :: 0 <= i < |ks| && MapToOrder(db.items[ks[i]], statuses).Err?) ==>
            resp == Response(500, Text("Error retrieving orders")))
      && ((forall i :: 0 <= i < |ks| ==> MapToOrder(db.items[ks[i]], statuses).Ok?) ==>
            && resp.statusCode == 200 && resp.body.OrdersJson? && |resp.body.orders| == |ks|
            && forall i :: 0 <= i < |ks| ==> resp.body.orders[i] == MapToOrder(db.items[ks[i]], statuses).value)
    ensures params.Some? && "email" in params.value ==>
      var pk := CustomerPartition(Some(params.value["email"]));
      (forall k :: k in db.items ==> !(k.pk == pk && StartsWith(k.sk, ORDER_PREFIX))) ==>
        resp == Response(200, OrdersJson([]))
  {
    if params.None? {
      return Response(500, Text("Error retrieving orders"));
    }
    var queryParams := params.value;
    if "email" !in queryParams {
      return Response(400, Text("Missing email"));
    }
    var email := queryParams["email"];
    if forall k :: k in db.items ==> !(k.pk == CustomerPartition(Some(email)) && StartsWith(k.sk, ORDER_PREFIX)) {
      EmptyQuery(db.items, CustomerPartition(Some(email)), ORDER_PREFIX);
    }
    var orders := GetAllOrders(db, email, statuses);
    if orders.Err? {
      return Response(500, Text("Error retrieving orders"));
    }
    resp := Response(200, OrdersJson(orders.value));
  }
}
