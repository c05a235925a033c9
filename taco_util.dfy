/** `TacoUtil.mapToOrder`: reads a stored order item back into an `Order`,
    including its embedded tacos, toppings and side items. */
module TacoUtil {
  import opened Wrappers
  import opened Strings
  import opened Attributes
  import opened Models
  import opened Keys

  /** One element of a `Toppings` list. A non-map element reads as an empty map,
      whose missing `ToppingId` then fails. */
  function DecodeTopping(v: AttrValue): (r: Result<Topping, DecodeError>)
    ensures var m := AsM(v);
      r.Ok? <==> "ToppingId" in m && "Name" in m && "Price" in m && m["Price"].N?
    ensures r.Ok? ==> var m := AsM(v);
      r.value == Topping(AsS(m["ToppingId"]), AsS(m["Name"]), m["Price"].n)
  {
    var m := AsM(v);
    var id :- GetNullableString(m, "ToppingId");
    var name :- GetNullableString(m, "Name");
    var price :- GetNumber(m, "Price");
    Ok(Topping(id, name, price))
  }

  /** One element of a `Tacos` list. The menu item id is never read back, and
      the toppings are present exactly when the map holds `Toppings`. */
  function DecodeTaco(v: AttrValue): (r: Result<Taco, DecodeError>)
    ensures var m := AsM(v);
      r.Ok? <==> "TacoId" in m && "Name" in m && "Price" in m && m["Price"].N?
                 && ("Toppings" in m ==> Traverse(AsL(m["Toppings"]), DecodeTopping).Ok?)
    ensures r.Ok? ==> var m := AsM(v);
      && r.value.id == AsS(m["TacoId"])
      && r.value.menuItemId == None
      && r.value.name == AsS(m["Name"])
      && r.value.price == m["Price"].n
      && (r.value.toppings.Some? <==> "Toppings" in m)
      && (r.value.toppings.Some? ==> Traverse(AsL(m["Toppings"]), DecodeTopping) == Ok(r.value.toppings.value))
  {
    var m := AsM(v);
    var id :- GetNullableString(m, "TacoId");
    var name :- GetNullableString(m, "Name");
    var price :- GetNumber(m, "Price");
    if "Toppings" in m then
      var toppings :- Traverse(AsL(m["Toppings"]), DecodeTopping);
      Ok(Taco(id, None, name, price, Some(toppings)))
    else
      Ok(Taco(id, None, name, price, None))
  }

  /** One element of a `SideItems` list. */
  function DecodeSideItem(v: AttrValue): (r: Result<SideItem, DecodeError>)
    ensures var m := AsM(v);
      r.Ok? <==> "SideItemId" in m && "Name" in m && "Price" in m && m["Price"].N?
    ensures r.Ok? ==> var m := AsM(v);
      r.value == SideItem(AsS(m["SideItemId"]), AsS(m["Name"]), m["Price"].n)
  {
    var m := AsM(v);
    var id :- GetNullableString(m, "SideItemId");
    var name :- GetNullableString(m, "Name");
    var price :- GetNumber(m, "Price");
    Ok(SideItem(id, name, price))
  }

  /** The header attributes `mapToOrder` dereferences are all there and well typed. */
  predicate HeaderReadable(item: Item, statuses: set<string>)
  {
    && "PK" in item && item["PK"].S?
    && "SK" in item && item["SK"].S?
    && "OrderDate" in item && item["OrderDate"].S?
    && "TotalPrice" in item && item["TotalPrice"].N?
    && "Status" in item && item["Status"].S? && item["Status"].s in statuses
  }

  /** `mapToOrder(item)`, where `statuses` are the names of the `OrderStatus`
      constants. The ids are the keys with every occurrence of their marker
      removed; total and status are read as stored, not recomputed. */
  function MapToOrder(item: Item, statuses: set<string>): (r: Result<Order, DecodeError>)
    ensures r.Ok? <==>
      && HeaderReadable(item, statuses)
      && ("Tacos" in item ==> Traverse(AsL(item["Tacos"]), DecodeTaco).Ok?)
      && ("SideItems" in item ==> Traverse(AsL(item["SideItems"]), DecodeSideItem).Ok?)
    ensures r.Ok? ==>
      && r.value.customerId == Some(ReplaceAll(item["PK"].s, CUSTOMER_PREFIX, ""))
      && r.value.id == Some(ReplaceAll(item["SK"].s, ORDER_PREFIX, ""))
      && r.value.orderDate == Some(item["OrderDate"].s)
      && r.value.totalPrice == item["TotalPrice"].n
      && r.value.status == Some(item["Status"].s)
    ensures r.Ok? ==>
      && (r.value.tacos.Some? <==> "Tacos" in item)
      && (r.value.tacos.Some? ==> Traverse(AsL(item["Tacos"]), DecodeTaco) == Ok(r.value.tacos.value))
      && (r.value.sideItems.Some? <==> "SideItems" in item)
      && (r.value.sideItems.Some? ==>
            Traverse(AsL(item["SideItems"]), DecodeSideItem) == Ok(r.value.sideItems.value))
  {
    var pk :- GetString(item, "PK");
    var sk :- GetString(item, "SK");
    var orderDate :- GetString(item, "OrderDate");
    var totalPrice :- GetNumber(item, "TotalPrice");
    var status :- GetEnumName(item, "Status", statuses);
    var tacos :-
      if "Tacos" in item then
        var ts :- Traverse(AsL(item["Tacos"]), DecodeTaco);
        Ok(Some(ts))
      else Ok(None);
    var sideItems :-
      if "SideItems" in item then
        var ss :- Traverse(AsL(item["SideItems"]), DecodeSideItem);
        Ok(Some(ss))
      else Ok(None);
    Ok(Order(
      Some(ReplaceAll(sk, ORDER_PREFIX, "")),
      Some(ReplaceAll(pk, CUSTOMER_PREFIX, "")),
      Some(orderDate), totalPrice, Some(status), tacos, sideItems))
  }

  /** `items.stream().map(TacoUtil::mapToOrder).collect(...)`: one order per
      item, in order, or the first failure. */
  function MapToOrders(items: seq<Item>, statuses: set<string>): (r: Result<seq<Order>, DecodeError>)
    ensures r.Ok? <==> forall i :: 0 <= i < |items| ==> MapToOrder(items[i], statuses).Ok?
    ensures r.Ok? ==> |r.value| == |items|
    ensures r.Ok? ==> forall i :: 0 <= i < |items| ==> r.value[i] == MapToOrder(items[i], statuses).value
  {
    Traverse(items, (item: Item) => MapToOrder(item, statuses))
  }
}
