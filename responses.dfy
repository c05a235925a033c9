/** What a handler answers: an HTTP status code and a body, either a plain
    message or the JSON of the objects it read. */
module Responses {
  import opened Models

  datatype Body =
    | Text(text: string)
    | OrderJson(order: Order)
    | OrdersJson(orders: seq<Order>)
    | MenuJson(menu: seq<MenuItem>)

  datatype Response = Response(statusCode: int, body: Body)
}
