/** `MenuHandler`: lists the menu, the items of the `MENU` partition. */
module MenuHandler {
  import opened Wrappers
  import opened Strings
  import opened Attributes
  import opened Models
  import opened Keys
  import opened DynamoTable
  import opened Responses

  /** `convertToMenuItem(item)`, where `foodItemTypes` are the names of the
      `FoodItemType` constants. */
  function ConvertToMenuItem(item: Item, foodItemTypes: set<string>): (r: Result<MenuItem, DecodeError>)
    ensures r.Ok? <==>
      && "id" in item && "name" in item
      && "price" in item && item["price"].N?
      && ("foodItemType" in item ==> item["foodItemType"].S? && item["foodItemType"].s in foodItemTypes)
    ensures r.Ok? ==>
      && r.value.id == AsS(item["id"])
      && r.value.name == AsS(item["name"])
      && r.value.price == item["price"].n
    ensures r.Ok? ==>
      (r.value.description.None? <==> "description" !in item || !item["description"].S?)
    ensures r.Ok? && "description" in item ==> r.value.description == AsS(item["description"])
    ensures r.Ok? ==>
      (r.value.foodItemType.Some? <==> "foodItemType" in item)
    ensures r.Ok? && "foodItemType" in item ==> r.value.foodItemType == Some(item["foodItemType"].s)
  {
    var id :- GetNullableString(item, "id");
    var name :- GetNullableString(item, "name");
    var price :- GetNumber(item, "price");
    var description := if "description" in item then AsS(item["description"]) else None;
    if "foodItemType" in item then
      var kind :- GetEnumName(item, "foodItemType", foodItemTypes);
      Ok(MenuItem(id, name, price, description, Some(kind)))
    else
      Ok(MenuItem(id, name, price, description, None))
  }

  /** `items.stream().map(MenuHandler::convertToMenuItem).collect(...)`. */
  function ConvertAll(items: seq<Item>, foodItemTypes: set<string>): (r: Result<seq<MenuItem>, DecodeError>)
    ensures r.Ok? <==> forall i :: 0 <= i < |items| ==> ConvertToMenuItem(items[i], foodItemTypes).Ok?
    ensures r.Ok? ==> |r.value| == |items|
    ensures r.Ok? ==> forall i :: 0 <= i < |items| ==> r.value[i] == ConvertToMenuItem(items[i], foodItemTypes).value
  {
    Traverse(items, (item: Item) => ConvertToMenuItem(item, foodItemTypes))
  }

  /** `handleRequest`: every item of the `MENU` partition, in ascending
      sort-key order, read as a menu item (200), or 500 when any of them
      cannot be read. */
  method HandleRequest(db: Table, foodItemTypes: set<string>) returns (resp: Response)
    requires db.Valid()
    ensures var ks := QueryKeys(db.items, MENU, "");
      && ((exists i :: 0 <= i < |ks| && ConvertToMenuItem(db.items[ks[i]], foodItemTypes).Err?) ==>
            resp == Response(500, Text("Error fetching menu items")))
      && ((forall i :: 0 <= i < |ks| ==> ConvertToMenuItem(db.items[ks[i]], foodItemTypes).Ok?) ==>
            && resp.statusCode == 200 && resp.body.MenuJson? && |resp.body.menu| == |ks|
            && forall i :: 0 <= i < |ks| ==> resp.body.menu[i] == ConvertToMenuItem(db.items[ks[i]], foodItemTypes).value)
  {
    var items := db.Query(MENU, "");
    var menuItems := ConvertAll(items, foodItemTypes);
    if menuItems.Err? {
      return Response(500, Text("Error fetching menu items"));
    }
    resp := Response(200, MenuJson(menuItems.value));
  }
}
