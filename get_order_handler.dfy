/** `GetOrderHandler`: reads one order by customer email and order id. */
module GetOrderHandler {
  import opened Wrappers
  import opened Strings
  import opened Attributes
  import opened Models
  import opened Keys
  import opened TacoUtil
  import opened DynamoTable
  import opened Responses

  /** `handleRequest` with the request's query-string parameters (`None` when
      the request has none, which makes `queryParams.get` throw): 400 without
      both parameters, 404 when no item is stored at the order's key, 500 when
      it cannot be read as an order, and 200 with the order it reads as. */
  method HandleRequest(db: Table, params: Option<map<string, string>>, statuses: set<string>)
    returns (resp: Response)
    ensures params.None? ==> resp == Response(500, Text("Error retrieving order"))
    ensures params.Some? && ("email" !in params.value || "orderId" !in params.value) ==>
      resp == Response(400, Text("Missing email or orderId"))
    ensures params.Some? && "email" in params.value && "orderId" in params.value ==>
      var key := OrderKey(Some(params.value["email"]), Some(params.value["orderId"]));
      && (key !in db.items ==> resp == Response(404, Text("Order not found")))
      && (key in db.items && MapToOrder(db.items[key], statuses).Err? ==>
            resp == Response(500, Text("Error retrieving order")))
      && (key in db.items && MapToOrder(db.items[key], statuses).Ok? ==>
            resp == Response(200, OrderJson(MapToOrder(db.items[key], statuses).value)))
  {
    if params.None? {
      return Response(500, Text("Error retrieving order"));
    }
    var queryParams := params.value;
    if "email" !in queryParams || "orderId" !in queryParams {
      return Response(400, Text("Missing email or orderId"));
    }
    var email, orderId := queryParams["email"], queryParams["orderId"];
    var partitionKey := CustomerPartition(Some(email));
    var sortKey := OrderSortKey(Some(orderId));
    var response := db.GetItem(Key(partitionKey, sortKey));
    if response.None? {
      return Response(404, Text("Order not found"));
    }
    var order := MapToOrder(response.value, statuses);
    if order.Err? {
      return Response(500, Text("Error retrieving order"));
    }
    resp := Response(200, OrderJson(order.value));
  }
}
