/** `UpdateOrderHandler`: sets the status of an existing order, and only of an
    existing one. */
module UpdateOrderHandler {
  import opened Wrappers
  import opened Strings
  import opened Attributes
  import opened Models
  import opened Keys
  import opened DynamoTable
  import opened Responses

  /** Every field the handler needs is non-null. */
  predicate Complete(req: UpdateOrderRequest)
  {
    req.email.Some? && req.orderId.Some? && req.status.Some?
  }

  /** The key the request addresses. */
  function TargetKey(req: UpdateOrderRequest): Key
  {
    OrderKey(req.email, req.orderId)
  }

  /** `handleRequest`: a status naming no `OrderStatus` constant fails to parse
      (500), a missing field is a 400, an order that is not stored is a 404, and
      otherwise only that order's `Status` changes (200). No call adds or removes
      a key. */
  method HandleRequest(db: Table, req: UpdateOrderRequest, statuses: set<string>) returns (resp: Response)
    requires db.Valid()
    modifies db
    ensures db.Valid()
    ensures db.items.Keys == old(db.items).Keys
    ensures req.status.Some? && req.status.value !in statuses ==>
      resp == Response(500, Text("Error updating order")) && db.items == old(db.items)
    ensures (req.status.None? || req.status.value in statuses) && !Complete(req) ==>
      resp == Response(400, Text("Missing required fields: email, orderId, or status"))
      && db.items == old(db.items)
    ensures Complete(req) && req.status.value in statuses && TargetKey(req) !in old(db.items) ==>
      resp == Response(404, Text("Order not found")) && db.items == old(db.items)
    ensures Complete(req) && req.status.value in statuses && TargetKey(req) in old(db.items) ==>
      && resp == Response(200, Text("\"success\""))
      && db.items == old(db.items)[TargetKey(req) := old(db.items)[TargetKey(req)]["Status" := S(req.status.value)]]
  {
    if req.status.Some? && req.status.value !in statuses {
      // the body names no `OrderStatus` constant: parsing it throws
      return Response(500, Text("Error updating order"));
    }
    if req.email.None? || req.orderId.None? || req.status.None? {
      return Response(400, Text("Missing required fields: email, orderId, or status"));
    }
    var partitionKey := CustomerPartition(req.email);
    var sortKey := OrderSortKey(req.orderId);
    StatusUpdateEffect(db.items, Key(partitionKey, sortKey), req.status.value);
    var applied := db.UpdateStatus(Key(partitionKey, sortKey), req.status.value);
    if applied {
      resp := Response(200, Text("\"success\""));
    } else {
      resp := Response(404, Text("Order not found"));
    }
  }
}
