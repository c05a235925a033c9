# Taco shop on one DynamoDB table

This project is a Dafny model of the data layer of the *DynamoTacos* Lambda
handlers. Customers, orders and the menu all live in one DynamoDB table. Each
item is addressed by a partition key `PK` and a sort key `SK`:

- a customer's profile is stored at `CUSTOMER#<email>` / `PROFILE`;
- each of the customer's orders is stored in the same partition at `ORDER#<orderId>`;
- an order's tacos (each with its toppings) and its side items are embedded in
  the order item as lists of maps;
- the menu is the `MENU` partition.

What is modelled:

- **Key schema** (`Keys`): the literal markers, key construction with Java's
  `"X" + null == "Xnull"`, and injectivity of order keys. A profile key is
  never an order key.
- **Price total** (`Pricing`): `calculateTotalPrice` in exact integer cents. It
  is proved equal to the plain sum of every taco, topping and side-item price.
- **Order layout** (`OrderEncoding`): `createOrderRecord` and
  `addItemsToOrder`, with the exact attribute set of every map. UUIDs are drawn
  from a parameter `uuid: Draw -> string`, where a `Draw` names each call of
  `UUID.randomUUID()`.
- **Order decoder** (`TacoUtil`): `mapToOrder`, including the SDK accessor
  behaviour. `.s()` and `.n()` give `null` on a differently typed value.
  `.l()` and `.m()` give an empty collection. Every exception the decoder can
  raise is a `DecodeError`, except the `OrderDate` parse (see "## Left out").
- **Round trip** (`OrderRoundTrip`): what a write followed by a read keeps and
  what it loses:
  - the menu item id is lost;
  - empty taco and side-item lists come back as `null`;
  - an id that contains its own marker is altered, because `String.replace`
    strips every occurrence.
- **The table** (`DynamoTable`): a class holding a map from `Key` to `Item`,
  with get-item, put-item, the conditional status update and query. Query
  results come in ascending sort-key order. Put-item refuses an item without
  string key attributes, or one that holds a value built by
  `AttributeValue.builder().s(null)`, since such a value carries no type.
- **Handlers**: one module per Java handler class (`CreateOrderHandler`,
  `CreateCustomerHandler`, `UpdateOrderHandler`, `GetOrderHandler`,
  `GetAllOrdersHandler`, `MenuHandler`). Each `HandleRequest` method returns a
  `Response(statusCode, body)` with the exact message texts.
- **Multi-request properties** (`Scenarios`): four request sequences over one
  table:
  - create then get;
  - the same email registered twice;
  - the same status update twice;
  - a status update then get.

Parameters stand in for what the code takes from outside:

- the clock is `now: string`;
- the random ids are `uuid`;
- the names of the `OrderStatus` and `FoodItemType` constants are
  `statuses: set<string>` and `foodItemTypes: set<string>` (those enums are not
  part of this model);
- a handler's parsed request is a datatype value, and its query-string
  parameters are `Option<map<string, string>>`, where `None` means the request
  had none.

Design choices that follow the code:

- Tacos, toppings and side items are embedded in the order item as lists of
  maps, as the handlers write them. They are not separate child items joined on
  read.
- Prices are exact integer cents, where the code uses `double`.
- `convertToMenuItem` yields a `null` description both when the attribute is
  absent and when it is present but not a string.
  `MenuHandler.ConvertToMenuItem` states both cases.

## Model

| member | source | states |
|---|---|---|
| Wrappers.Traverse | dynamo-tacos/DynamoTacos/src/main/java/dynamotaco/api/GetAllOrdersHandler.java:72-74 | a stream `map`/`collect` whose mapper may throw: succeeds iff every element does, then yields one result per element in order; otherwise fails with the error of some element |
| Strings.Concat | dynamo-tacos/DynamoTacos/src/main/java/dynamotaco/api/CreateOrderHandler.java:35-36 | Java string `+`: the prefix followed by the string, or by the text "null" when the string is null |
| Strings.ReplaceAll | dynamo-tacos/DynamoTacos/src/main/java/dynamotaco/util/TacoUtil.java:19-20 | `String.replace`: a string without the target comes back unchanged, and one that begins with the target begins with the replacement |
| Strings.ReplaceAllAfterPrefix | dynamo-tacos/DynamoTacos/src/main/java/dynamotaco/util/TacoUtil.java:19-20 | `replace` on a string that begins with the marker consumes that leading marker first, then carries on through the rest |
| Strings.RemoveAllIdentity | dynamo-tacos/DynamoTacos/src/main/java/dynamotaco/util/TacoUtil.java:19-20 | removing every occurrence of a marker leaves a string unchanged iff the marker does not occur in it, and otherwise makes it strictly shorter |
| Strings.Sorted | dynamo-tacos/DynamoTacos/src/main/java/dynamotaco/api/GetAllOrdersHandler.java:61-70 | the sort keys of a query in the order the store returns them: exactly the given set, each once, strictly ascending |
| Attributes.StringAttr | dynamo-tacos/DynamoTacos/src/main/java/dynamotaco/api/CreateOrderHandler.java:82-83 | a string attribute built from a possibly-null string reads back through `.s()` as that same string or null |
| Attributes.GetString | dynamo-tacos/DynamoTacos/src/main/java/dynamotaco/util/TacoUtil.java:16-17 | reading a dereferenced string attribute succeeds iff it is present and is a string, with that string |
| Attributes.GetNullableString | dynamo-tacos/DynamoTacos/src/main/java/dynamotaco/util/TacoUtil.java:31-32 | reading a string into a field succeeds iff the attribute is present; a value of another type reads as null |
| Attributes.GetNumber | dynamo-tacos/DynamoTacos/src/main/java/dynamotaco/util/TacoUtil.java:23 | parsing a number attribute succeeds iff it is present and is a number, with that number |
| Attributes.GetEnumName | dynamo-tacos/DynamoTacos/src/main/java/dynamotaco/util/TacoUtil.java:24 | `valueOf` of a string attribute succeeds iff it is present, is a string and names a constant |
| Keys.KeyOf | dynamo-tacos/DynamoTacos/src/main/java/dynamotaco/api/UpdateOrderHandler.java:38-47 | an item has a key iff its `PK` and `SK` are string attributes, and the key is those two strings |
| Keys.CustomerPartition | dynamo-tacos/DynamoTacos/src/main/java/dynamotaco/api/CreateCustomerHandler.java:38 | a partition key is `CUSTOMER#` followed by the email's text (`null` as "null") |
| Keys.OrderSortKey | dynamo-tacos/DynamoTacos/src/main/java/dynamotaco/api/CreateOrderHandler.java:36 | an order sort key is `ORDER#` followed by the order id's text |
| Keys.OrderKey | dynamo-tacos/DynamoTacos/src/main/java/dynamotaco/api/UpdateOrderHandler.java:33-34 | an order's key is the customer's `CUSTOMER#` partition and the order's `ORDER#` sort key |
| Keys.ProfileKey | dynamo-tacos/DynamoTacos/src/main/java/dynamotaco/api/CreateCustomerHandler.java:66-68 | a profile's key is the customer's `CUSTOMER#` partition and the sort key `PROFILE` |
| Keys.OrderKeyInjective | dynamo-tacos/DynamoTacos/src/main/java/dynamotaco/api/CreateOrderHandler.java:35-36 | two order keys are equal iff their customer texts and order-id texts are equal (null reads as "null") |
| Keys.OrderSortKeyHasPrefix | dynamo-tacos/DynamoTacos/src/main/java/dynamotaco/api/CreateOrderHandler.java:36 | every order sort key begins with `ORDER#` |
| Keys.ProfileIsNotAnOrder | dynamo-tacos/DynamoTacos/src/main/java/dynamotaco/api/CreateCustomerHandler.java:66-68 | `PROFILE` does not begin with `ORDER#`, so no profile key is an order key |
| Pricing.ToppingsTotalIsSum | dynamo-tacos/DynamoTacos/src/main/java/dynamotaco/api/CreateOrderHandler.java:118-121 | the toppings' contribution is the sum of their prices |
| Pricing.SideItemsTotalIsSum | dynamo-tacos/DynamoTacos/src/main/java/dynamotaco/api/CreateOrderHandler.java:123-126 | the side items' contribution is the sum of their prices |
| Pricing.TacosTotalIsSum | dynamo-tacos/DynamoTacos/src/main/java/dynamotaco/api/CreateOrderHandler.java:115-122 | the tacos' contribution is the sum of the taco prices plus the sum of all their topping prices, a null topping list counting nothing |
| Pricing.CalculateTotalPrice | dynamo-tacos/DynamoTacos/src/main/java/dynamotaco/api/CreateOrderHandler.java:114-127 | the total is the tacos' total plus the side items' total, a null list adding what an empty one adds, so an order without items totals 0 |
| Pricing.PriceLaw | dynamo-tacos/DynamoTacos/src/main/java/dynamotaco/api/CreateOrderHandler.java:114-127 | the total is the sum of every taco, topping and side-item price; null lists count nothing |
| Pricing.EmptyOrderTotalsZero | dynamo-tacos/DynamoTacos/src/main/java/dynamotaco/api/CreateOrderHandler.java:114-127 | an order without tacos and side items (null or empty) totals 0 |
| Pricing.TotalNonNegative | dynamo-tacos/DynamoTacos/src/main/java/dynamotaco/api/CreateOrderHandler.java:114-127 | when no unit price is negative, neither is the total |
| Pricing.ScenarioTotal | dynamo-tacos/DynamoTacos/src/main/java/dynamotaco/api/CreateOrderHandler.java:114-127 | a worked order (tacos 500 with toppings 100 and 75, and 650, one side 250) totals 1575 cents |
| OrderEncoding.OrderIdFor | dynamo-tacos/DynamoTacos/src/main/java/dynamotaco/api/CreateOrderHandler.java:33-34 | a supplied order id is kept; an absent one is a fresh UUID |
| OrderEncoding.ToppingMap | dynamo-tacos/DynamoTacos/src/main/java/dynamotaco/api/CreateOrderHandler.java:88-92 | a topping map holds exactly `ToppingId` (the given fresh id), `Name` and `Price` |
| OrderEncoding.SideItemMap | dynamo-tacos/DynamoTacos/src/main/java/dynamotaco/api/CreateOrderHandler.java:102-106 | a side-item map holds exactly `SideItemId` (the given fresh id), `Name` and `Price` |
| OrderEncoding.ToppingList | dynamo-tacos/DynamoTacos/src/main/java/dynamotaco/api/CreateOrderHandler.java:87-94 | one map per topping, in order, each with a fresh `ToppingId`, the `Name` and the `Price` |
| OrderEncoding.TacoMap | dynamo-tacos/DynamoTacos/src/main/java/dynamotaco/api/CreateOrderHandler.java:79-96 | a taco map holds exactly `TacoId` (fresh), `MenuItemId`, `Name`, `Price`, and `Toppings` iff the topping list is non-null |
| OrderEncoding.TacoList | dynamo-tacos/DynamoTacos/src/main/java/dynamotaco/api/CreateOrderHandler.java:78-98 | one taco map per taco, in input order |
| OrderEncoding.SideItemList | dynamo-tacos/DynamoTacos/src/main/java/dynamotaco/api/CreateOrderHandler.java:101-109 | one map per side item, in order, each with a fresh `SideItemId`, the `Name` and the `Price` |
| OrderEncoding.ChildAttributes | dynamo-tacos/DynamoTacos/src/main/java/dynamotaco/api/CreateOrderHandler.java:77-112 | `Tacos` is added iff the taco list is non-empty, and `SideItems` iff the side-item list is non-empty |
| OrderEncoding.OrderItem | dynamo-tacos/DynamoTacos/src/main/java/dynamotaco/api/CreateOrderHandler.java:58-67 | the order item has exactly `PK`, `SK`, `OrderDate`, `TotalPrice`, `Status` and the child lists; it is keyed by the given keys, and `TotalPrice` is the computed total |
| OrderEncoding.ToppingListTyped | dynamo-tacos/DynamoTacos/src/main/java/dynamotaco/api/CreateOrderHandler.java:89-91 | a topping list is storable iff every topping name is non-null |
| OrderEncoding.TacoMapTyped | dynamo-tacos/DynamoTacos/src/main/java/dynamotaco/api/CreateOrderHandler.java:80-95 | a taco map is storable iff its menu item id, its name and all its topping names are non-null |
| OrderEncoding.TacoListTyped | dynamo-tacos/DynamoTacos/src/main/java/dynamotaco/api/CreateOrderHandler.java:79-98 | the `Tacos` list is storable iff every taco's menu item id, name and topping names are non-null |
| OrderEncoding.SideItemListTyped | dynamo-tacos/DynamoTacos/src/main/java/dynamotaco/api/CreateOrderHandler.java:100-110 | the `SideItems` list is storable iff every side-item name is non-null |
| OrderEncoding.ChildAttributesTyped | dynamo-tacos/DynamoTacos/src/main/java/dynamotaco/api/CreateOrderHandler.java:77-112 | the child lists are storable iff every name in the lists written is non-null |
| OrderEncoding.OrderItemTyped | dynamo-tacos/DynamoTacos/src/main/java/dynamotaco/api/CreateOrderHandler.java:58-73 | the store accepts the order item iff no written taco, topping or side-item name or menu item id is null |
| TacoUtil.DecodeTopping | dynamo-tacos/DynamoTacos/src/main/java/dynamotaco/util/TacoUtil.java:37-44 | a topping reads iff its map has `ToppingId`, `Name` and a numeric `Price`, and it takes those values |
| TacoUtil.DecodeTaco | dynamo-tacos/DynamoTacos/src/main/java/dynamotaco/util/TacoUtil.java:28-48 | a taco reads iff `TacoId`, `Name`, a numeric `Price` and any `Toppings` read; it has toppings iff the map holds `Toppings`, and never a menu item id |
| TacoUtil.DecodeSideItem | dynamo-tacos/DynamoTacos/src/main/java/dynamotaco/util/TacoUtil.java:54-61 | a side item reads iff its map has `SideItemId`, `Name` and a numeric `Price`, and it takes those values |
| TacoUtil.MapToOrder | dynamo-tacos/DynamoTacos/src/main/java/dynamotaco/util/TacoUtil.java:14-66 | decoding succeeds iff the five header attributes are present and well typed, the status is a constant name and the child lists decode; the ids are the keys with every marker removed; total and status are as stored; tacos and side items are present iff their attributes are, decoded one for one |
| TacoUtil.MapToOrders | dynamo-tacos/DynamoTacos/src/main/java/dynamotaco/api/GetAllOrdersHandler.java:72-74 | one order per item, in order, or failure iff some item does not decode |
| OrderRoundTrip.ToppingListRoundTrip | dynamo-tacos/DynamoTacos/src/main/java/dynamotaco/util/TacoUtil.java:36-46 | a written topping list reads back with the same count, order, names and prices, and the fresh ids |
| OrderRoundTrip.TacoRoundTrip | dynamo-tacos/DynamoTacos/src/main/java/dynamotaco/util/TacoUtil.java:28-48 | a written taco reads back with its name, price and toppings, the fresh id, and no menu item id |
| OrderRoundTrip.TacoListRoundTrip | dynamo-tacos/DynamoTacos/src/main/java/dynamotaco/util/TacoUtil.java:27-50 | a written taco list reads back one for one, in order |
| OrderRoundTrip.SideItemListRoundTrip | dynamo-tacos/DynamoTacos/src/main/java/dynamotaco/util/TacoUtil.java:53-63 | a written side-item list reads back one for one, in order, with the fresh ids |
| OrderRoundTrip.StoredItemDecodes | dynamo-tacos/DynamoTacos/src/main/java/dynamotaco/util/TacoUtil.java:14-66 | the item written for any order decodes, given a known status name |
| OrderRoundTrip.StoredHeaderRoundTrip | dynamo-tacos/DynamoTacos/src/main/java/dynamotaco/util/TacoUtil.java:16-24 | the decoded header has the marker-stripped ids, the written timestamp and status, and the computed total |
| OrderRoundTrip.StoredChildrenRoundTrip | dynamo-tacos/DynamoTacos/src/main/java/dynamotaco/util/TacoUtil.java:27-63 | the decoded children correspond to the input's: present iff the input list was non-empty, then one for one, with the fresh taco and side-item ids |
| OrderRoundTrip.RoundTrip | dynamo-tacos/DynamoTacos/src/main/java/dynamotaco/util/TacoUtil.java:14-66 | decoding the written item gives back the header and every child's name and price as written, with the fresh taco and side-item ids; it loses menu item ids and turns empty taco and side lists into null |
| OrderRoundTrip.IdsRoundTrip | dynamo-tacos/DynamoTacos/src/main/java/dynamotaco/util/TacoUtil.java:19-20 | the customer id comes back unchanged iff it is non-null and free of `CUSTOMER#`; the order id iff it is free of `ORDER#` |
| OrderRoundTrip.EmbeddedMarkerIsLost | dynamo-tacos/DynamoTacos/src/main/java/dynamotaco/util/TacoUtil.java:19 | for x free of the marker, a customer id `CUSTOMER#` + x comes back as x, which differs from the id written |
| OrderRoundTrip.ToppingsTotalAgrees | dynamo-tacos/DynamoTacos/src/main/java/dynamotaco/api/CreateOrderHandler.java:118-121 | toppings that agree in prices have equal totals |
| OrderRoundTrip.TacosTotalAgrees | dynamo-tacos/DynamoTacos/src/main/java/dynamotaco/api/CreateOrderHandler.java:115-122 | tacos that agree one for one have equal totals |
| OrderRoundTrip.SideItemsTotalAgrees | dynamo-tacos/DynamoTacos/src/main/java/dynamotaco/api/CreateOrderHandler.java:123-126 | side items that agree in prices have equal totals |
| OrderRoundTrip.DecodedTotalMatches | dynamo-tacos/DynamoTacos/src/main/java/dynamotaco/api/CreateOrderHandler.java:114-127 | recomputing the total of a read-back order gives the total of the order written |
| OrderRoundTrip.StatusUpdateReadBack | dynamo-tacos/DynamoTacos/src/main/java/dynamotaco/util/TacoUtil.java:24 | after `Status` is set to a known name, a readable item reads as the same order with only the status changed |
| DynamoTable.ApplyStatusUpdate | dynamo-tacos/DynamoTacos/src/main/java/dynamotaco/api/UpdateOrderHandler.java:36-47 | `SET Status = :status` under the existence condition: the key set stays; every other item and every other attribute of the target stays; the target's `Status` becomes the new name when its key attributes exist, and otherwise nothing changes |
| DynamoTable.StatusUpdateEffect | dynamo-tacos/DynamoTacos/src/main/java/dynamotaco/api/UpdateOrderHandler.java:36-49 | on a well-keyed table the conditional update changes just the `Status` of the item at the key when one exists, changes nothing otherwise, and keeps the key set |
| DynamoTable.StatusUpdateIdempotent | dynamo-tacos/DynamoTacos/src/main/java/dynamotaco/api/UpdateOrderHandler.java:42-47 | applying the same status update twice gives the table that applying it once gives |
| DynamoTable.QueryKeys | dynamo-tacos/DynamoTacos/src/main/java/dynamotaco/api/GetAllOrdersHandler.java:61-70 | a `PK =` / `begins_with(SK, ..)` query reads exactly the stored keys of that partition under that prefix, in strictly ascending sort-key order |
| DynamoTable.PartitionQuery | dynamo-tacos/DynamoTacos/src/main/java/dynamotaco/api/MenuHandler.java:29-37 | a query with no sort-key condition reads every key of the partition |
| DynamoTable.QueryKeysDistinct | dynamo-tacos/DynamoTacos/src/main/java/dynamotaco/api/GetAllOrdersHandler.java:61-70 | a query reads no key twice |
| DynamoTable.EmptyQuery | dynamo-tacos/DynamoTacos/src/main/java/dynamotaco/api/GetAllOrdersHandler.java:61-74 | a partition with nothing under the prefix yields no items |
| DynamoTable.Table.GetItem | dynamo-tacos/DynamoTacos/src/main/java/dynamotaco/api/GetOrderHandler.java:44-49 | get-item returns the item stored at the key, or nothing iff none is |
| DynamoTable.Table.PutItem | dynamo-tacos/DynamoTacos/src/main/java/dynamotaco/api/CreateOrderHandler.java:69-73 | put-item replaces the entry at the item's key and nothing else, and is refused, changing nothing, iff the item lacks string keys or holds an untyped value |
| DynamoTable.Table.UpdateStatus | dynamo-tacos/DynamoTacos/src/main/java/dynamotaco/api/UpdateOrderHandler.java:36-51 | the conditional update applies iff an item is stored at the key, and the new table is the status-updated one |
| DynamoTable.Table.Query | dynamo-tacos/DynamoTacos/src/main/java/dynamotaco/api/GetAllOrdersHandler.java:61-70 | a query returns the items stored at the query's keys, in order, each carrying its own key |
| CreateOrderHandler.AddItemsToOrder | dynamo-tacos/DynamoTacos/src/main/java/dynamotaco/api/CreateOrderHandler.java:77-112 | the item gains exactly the child attributes of the order |
| CreateOrderHandler.CreateOrderRecord | dynamo-tacos/DynamoTacos/src/main/java/dynamotaco/api/CreateOrderHandler.java:58-75 | the order item is stored at the given keys iff the status and every name are non-null; otherwise the table is unchanged |
| CreateOrderHandler.HandleRequest | dynamo-tacos/DynamoTacos/src/main/java/dynamotaco/api/CreateOrderHandler.java:28-56 | 201 naming the order id, with the order stored at `CUSTOMER#<customerId>` / `ORDER#<orderId>` over whatever was there and all else unchanged; 500 with no write when the status is unknown or null or a name is null |
| CreateCustomerHandler.ProfileItem | dynamo-tacos/DynamoTacos/src/main/java/dynamotaco/api/CreateCustomerHandler.java:78-85 | the profile item holds exactly its keys (`SK` = `PROFILE`) and the four customer fields as given |
| CreateCustomerHandler.ProfileItemTyped | dynamo-tacos/DynamoTacos/src/main/java/dynamotaco/api/CreateCustomerHandler.java:80-85 | the store accepts the profile iff no customer field is null |
| CreateCustomerHandler.CustomerExists | dynamo-tacos/DynamoTacos/src/main/java/dynamotaco/api/CreateCustomerHandler.java:65-76 | true iff a profile is stored in the partition |
| CreateCustomerHandler.CreateCustomerRecord | dynamo-tacos/DynamoTacos/src/main/java/dynamotaco/api/CreateCustomerHandler.java:78-93 | the profile is stored at its key iff every field is non-null; otherwise nothing changes |
| CreateCustomerHandler.HandleRequest | dynamo-tacos/DynamoTacos/src/main/java/dynamotaco/api/CreateCustomerHandler.java:23-63 | 400 with the table unchanged when a profile exists; otherwise 201 with only the profile key written, or 500 with no write when a field is null |
| UpdateOrderHandler.HandleRequest | dynamo-tacos/DynamoTacos/src/main/java/dynamotaco/api/UpdateOrderHandler.java:21-77 | 500 for an unknown status name; 400 for a missing field; 404 when no order is stored at the key; otherwise 200 and only that item's `Status` changes; the key set never changes |
| GetOrderHandler.HandleRequest | dynamo-tacos/DynamoTacos/src/main/java/dynamotaco/api/GetOrderHandler.java:25-75 | 500 without parameters; 400 without email or order id; 404 when no item is stored at the key; 500 when it does not decode; otherwise 200 with the decoded order |
| GetAllOrdersHandler.ProfileNotListed | dynamo-tacos/DynamoTacos/src/main/java/dynamotaco/api/GetAllOrdersHandler.java:61-68 | the customer's profile is never among the orders listed |
| GetAllOrdersHandler.EveryOrderListed | dynamo-tacos/DynamoTacos/src/main/java/dynamotaco/api/GetAllOrdersHandler.java:61-68 | every order stored for the customer is listed |
| GetAllOrdersHandler.GetAllOrders | dynamo-tacos/DynamoTacos/src/main/java/dynamotaco/api/GetAllOrdersHandler.java:59-78 | one decoded order per order item of the partition, in sort-key order, or failure iff one of them does not decode |
| GetAllOrdersHandler.HandleRequest | dynamo-tacos/DynamoTacos/src/main/java/dynamotaco/api/GetAllOrdersHandler.java:26-57 | 400 without email; 500 when an order item does not decode; otherwise 200 with the orders; 200 with an empty list for a customer without orders |
| MenuHandler.ConvertToMenuItem | dynamo-tacos/DynamoTacos/src/main/java/dynamotaco/api/MenuHandler.java:62-75 | reads iff `id`, `name` and a numeric `price` are present and any `foodItemType` names a constant; description is null iff absent or not a string; the type is set iff present |
| MenuHandler.ConvertAll | dynamo-tacos/DynamoTacos/src/main/java/dynamotaco/api/MenuHandler.java:43-45 | one menu item per stored item, in order, or failure iff one does not read |
| MenuHandler.HandleRequest | dynamo-tacos/DynamoTacos/src/main/java/dynamotaco/api/MenuHandler.java:26-59 | 200 with one menu item per `MENU` item in sort-key order, or 500 when one does not read |
| Scenarios.CreateThenGet | dynamo-tacos/DynamoTacos/src/main/java/dynamotaco/api/GetOrderHandler.java:44-67 | a created order is fetched with 200 by email and id, with its status, timestamp, total and children as written, and its ids intact when free of markers |
| Scenarios.DuplicateCustomer | dynamo-tacos/DynamoTacos/src/main/java/dynamotaco/api/CreateCustomerHandler.java:40-48 | registering an email a second time gives 400 and leaves the first profile as written |
| Scenarios.UpdateTwice | dynamo-tacos/DynamoTacos/src/main/java/dynamotaco/api/UpdateOrderHandler.java:42-47 | the same update sent twice answers the same and leaves the table one update leaves |
| Scenarios.UpdateThenGet | dynamo-tacos/DynamoTacos/src/main/java/dynamotaco/api/GetOrderHandler.java:49-58 | after a successful update, the fetched order has the new status and is otherwise as before |

## Left out

- JSON parsing and printing, API Gateway events, CORS headers and logging are not modelled. A handler takes its parsed request and answers with a status code and a body.
- A request body that fails to parse is not modelled, except for one case. An enum-typed field naming no constant makes `CreateOrderHandler.HandleRequest` and `UpdateOrderHandler.HandleRequest` answer 500.
- UpdateOrderHandler.HandleRequest: the Java type of the update request's `status` is not part of this model. It is read as an `OrderStatus` name because the code calls `toString()` on it.
- Prices are integer cents; `double` arithmetic, `String.valueOf(double)` and `Double.parseDouble` are not modelled.
- `ZonedDateTime.parse` of `OrderDate` is not modelled: `OrderDate` is an opaque string, so a malformed timestamp does not make `TacoUtil.MapToOrder` fail.
- `UUID.randomUUID()` and `ZonedDateTime.now()` are parameters. Fresh UUIDs are not assumed distinct from each other or from existing ids.
- `order.setId(orderId)` writes into the parsed request object, which is discarded afterwards; the model has no such object to change.
- The table has no paging, throttling, capacity limits, network failures or concurrency. Exceptions other than the ones modelled (decode failures, refused writes, the failed update condition) do not occur in the model.
- The `OrderStatus` and `FoodItemType` enums are not part of this model; their constant names are passed in as sets.
- The frontend (`Amplified-Tacos`) is not part of this model: it makes authentication and HTTP calls and holds type declarations, with no logic of its own.
