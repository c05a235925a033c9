/** What survives a write by `CreateOrderHandler` followed by a read through
    `TacoUtil.mapToOrder`, and what does not. */
module OrderRoundTrip {
  import opened Wrappers
  import opened Strings
  import opened Attributes
  import opened Models
  import opened Keys
  import opened Pricing
  import opened OrderEncoding
  import opened TacoUtil

  /** The decoded toppings have the input's count, order, names and prices. */
  ghost predicate ToppingsAgree(input: seq<Topping>, decoded: seq<Topping>)
  {
    |input| == |decoded|
    && forall j :: 0 <= j < |input| ==>
         decoded[j].name == input[j].name && decoded[j].price == input[j].price
  }

  /** A decoded taco keeps name, price and toppings (present exactly when the
      input's list was non-null) and has lost its menu item id. */
  ghost predicate TacoAgrees(input: Taco, decoded: Taco)
  {
    && decoded.name == input.name
    && decoded.price == input.price
    && decoded.menuItemId == None
    && (decoded.toppings.Some? <==> input.toppings.Some?)
    && (decoded.toppings.Some? ==> ToppingsAgree(input.toppings.value, decoded.toppings.value))
  }

  ghost predicate SideItemsAgree(input: seq<SideItem>, decoded: seq<SideItem>)
  {
    |input| == |decoded|
    && forall k :: 0 <= k < |input| ==>
         decoded[k].name == input[k].name && decoded[k].price == input[k].price
  }

  /** The decoded order's children correspond to the input's: tacos and side
      items are present exactly when the input lists were non-empty, and then
      agree one for one, in order. */
  ghost predicate Corresponds(input: Order, decoded: Order)
  {
    && (decoded.tacos.Some? <==> NotEmpty(input.tacos))
    && (decoded.tacos.Some? ==>
          |decoded.tacos.value| == |input.tacos.value|
          && forall i :: 0 <= i < |input.tacos.value| ==> TacoAgrees(input.tacos.value[i], decoded.tacos.value[i]))
    && (decoded.sideItems.Some? <==> NotEmpty(input.sideItems))
    && (decoded.sideItems.Some? ==> SideItemsAgree(input.sideItems.value, decoded.sideItems.value))
  }

  lemma ToppingListRoundTrip(ts: seq<Topping>, i: nat, uuid: UuidSource)
    ensures var r := Traverse(ToppingList(ts, i, uuid), DecodeTopping);
      && r.Ok? && ToppingsAgree(ts, r.value)
      && forall j :: 0 <= j < |ts| ==> r.value[j].id == Some(uuid(ToppingIdDraw(i, j)))
  {
    var l := ToppingList(ts, i, uuid);
    forall j | 0 <= j < |ts|
      ensures DecodeTopping(l[j]) == Ok(Topping(Some(uuid(ToppingIdDraw(i, j))), ts[j].name, ts[j].price))
    {
    }
  }

  lemma TacoRoundTrip(t: Taco, i: nat, uuid: UuidSource)
    ensures var r := DecodeTaco(M(TacoMap(t, i, uuid)));
      r.Ok? && TacoAgrees(t, r.value) && r.value.id == Some(uuid(TacoIdDraw(i)))
  {
    if t.toppings.Some? {
      ToppingListRoundTrip(t.toppings.value, i, uuid);
    }
  }

  lemma TacoListRoundTrip(ts: seq<Taco>, uuid: UuidSource)
    ensures var r := Traverse(TacoList(ts, uuid), DecodeTaco);
      && r.Ok? && |r.value| == |ts|
      && (forall i :: 0 <= i < |ts| ==> TacoAgrees(ts[i], r.value[i]))
      && (forall i :: 0 <= i < |ts| ==> r.value[i].id == Some(uuid(TacoIdDraw(i))))
  {
    var l := TacoList(ts, uuid);
    forall i | 0 <= i < |ts|
      ensures DecodeTaco(l[i]).Ok? && TacoAgrees(ts[i], DecodeTaco(l[i]).value)
      ensures DecodeTaco(l[i]).value.id == Some(uuid(TacoIdDraw(i)))
    {
      TacoRoundTrip(ts[i], i, uuid);
    }
  }

  lemma SideItemListRoundTrip(ss: seq<SideItem>, uuid: UuidSource)
    ensures var r := Traverse(SideItemList(ss, uuid), DecodeSideItem);
      && r.Ok? && SideItemsAgree(ss, r.value)
      && forall k :: 0 <= k < |ss| ==> r.value[k].id == Some(uuid(SideItemIdDraw(k)))
  {
    var l := SideItemList(ss, uuid);
    forall k | 0 <= k < |ss|
      ensures DecodeSideItem(l[k]) == Ok(SideItem(Some(uuid(SideItemIdDraw(k))), ss[k].name, ss[k].price))
    {
    }
  }

  /** The item `CreateOrderHandler` stores for `order`, read back. */
  function StoredItem(order: Order, orderDate: string, status: string, uuid: UuidSource): Item
  {
    OrderItem(CustomerPartition(order.customerId), OrderSortKey(Some(OrderIdFor(order, uuid))),
              orderDate, status, order, uuid)
  }

  /** The stored item can always be read back when its status name is known. */
  lemma StoredItemDecodes(order: Order, orderDate: string, status: string, uuid: UuidSource, statuses: set<string>)
    requires status in statuses
    ensures MapToOrder(StoredItem(order, orderDate, status, uuid), statuses).Ok?
  {
    var item := StoredItem(order, orderDate, status, uuid);
    assert HeaderReadable(item, statuses);
    if "Tacos" in item {
      TacoListRoundTrip(order.tacos.value, uuid);
      assert AsL(item["Tacos"]) == TacoList(order.tacos.value, uuid);
    }
    if "SideItems" in item {
      SideItemListRoundTrip(order.sideItems.value, uuid);
      assert AsL(item["SideItems"]) == SideItemList(order.sideItems.value, uuid);
    }
  }

  lemma StoredHeaderRoundTrip(order: Order, orderDate: string, status: string, uuid: UuidSource, statuses: set<string>)
    requires status in statuses
    ensures var r := MapToOrder(StoredItem(order, orderDate, status, uuid), statuses);
      && r.Ok?
      && r.value.customerId == Some(ReplaceAll(Show(order.customerId), CUSTOMER_PREFIX, ""))
      && r.value.id == Some(ReplaceAll(OrderIdFor(order, uuid), ORDER_PREFIX, ""))
      && r.value.orderDate == Some(orderDate)
      && r.value.status == Some(status)
      && r.value.totalPrice == CalculateTotalPrice(order)
  {
    StoredItemDecodes(order, orderDate, status, uuid, statuses);
    var item := StoredItem(order, orderDate, status, uuid);
    var c, o := Show(order.customerId), OrderIdFor(order, uuid);
    assert item["PK"].s == CUSTOMER_PREFIX + c;
    assert item["SK"].s == ORDER_PREFIX + o;
    ReplaceAllAfterPrefix(CUSTOMER_PREFIX, c, "");
    ReplaceAllAfterPrefix(ORDER_PREFIX, o, "");
    assert "" + ReplaceAll(c, CUSTOMER_PREFIX, "") == ReplaceAll(c, CUSTOMER_PREFIX, "");
    assert "" + ReplaceAll(o, ORDER_PREFIX, "") == ReplaceAll(o, ORDER_PREFIX, "");
  }

  lemma StoredChildrenRoundTrip(order: Order, orderDate: string, status: string, uuid: UuidSource, statuses: set<string>)
    requires status in statuses
    ensures var r := MapToOrder(StoredItem(order, orderDate, status, uuid), statuses);
      && r.Ok?
      && Corresponds(order, r.value)
      && (r.value.tacos.Some? ==>
            forall i :: 0 <= i < |r.value.tacos.value| ==> r.value.tacos.value[i].id == Some(uuid(TacoIdDraw(i))))
      && (r.value.sideItems.Some? ==>
            forall k :: 0 <= k < |r.value.sideItems.value| ==>
              r.value.sideItems.value[k].id == Some(uuid(SideItemIdDraw(k))))
  {
    StoredItemDecodes(order, orderDate, status, uuid, statuses);
    if NotEmpty(order.tacos) {
      TacoListRoundTrip(order.tacos.value, uuid);
    }
    if NotEmpty(order.sideItems) {
      SideItemListRoundTrip(order.sideItems.value, uuid);
    }
  }

  /** Round trip: decoding the stored item succeeds; status, timestamp and total
      come back as written; names, prices, counts and order of every taco,
      topping and side item are kept; taco and side-item ids are the fresh
      ones drawn at write time (topping ids are `ToppingListRoundTrip`'s);
      menu item ids are lost; and an empty taco or side-item list comes back
      as `null` while an empty topping list comes back empty. */
  lemma RoundTrip(order: Order, orderDate: string, status: string, uuid: UuidSource, statuses: set<string>)
    requires status in statuses
    ensures var r := MapToOrder(StoredItem(order, orderDate, status, uuid), statuses);
      && r.Ok?
      && r.value.customerId == Some(ReplaceAll(Show(order.customerId), CUSTOMER_PREFIX, ""))
      && r.value.id == Some(ReplaceAll(OrderIdFor(order, uuid), ORDER_PREFIX, ""))
      && r.value.orderDate == Some(orderDate)
      && r.value.status == Some(status)
      && r.value.totalPrice == CalculateTotalPrice(order)
      && Corresponds(order, r.value)
      && (r.value.tacos.Some? ==>
            forall i :: 0 <= i < |r.value.tacos.value| ==> r.value.tacos.value[i].id == Some(uuid(TacoIdDraw(i))))
      && (r.value.sideItems.Some? ==>
            forall k :: 0 <= k < |r.value.sideItems.value| ==>
              r.value.sideItems.value[k].id == Some(uuid(SideItemIdDraw(k))))
  {
    StoredHeaderRoundTrip(order, orderDate, status, uuid, statuses);
    StoredChildrenRoundTrip(order, orderDate, status, uuid, statuses);
  }

  /** The ids come back unchanged exactly when the raw ids do not themselves
      contain the markers, because the decoder strips every occurrence. A
      `null` customer id comes back as the text "null". */
  lemma IdsRoundTrip(order: Order, orderDate: string, status: string, uuid: UuidSource, statuses: set<string>)
    requires status in statuses
    ensures var r := MapToOrder(StoredItem(order, orderDate, status, uuid), statuses);
      && r.Ok?
      && (r.value.customerId == order.customerId <==>
            order.customerId.Some? && !Contains(order.customerId.value, CUSTOMER_PREFIX))
      && (r.value.id == Some(OrderIdFor(order, uuid)) <==> !Contains(OrderIdFor(order, uuid), ORDER_PREFIX))
  {
    StoredHeaderRoundTrip(order, orderDate, status, uuid, statuses);
    RemoveAllIdentity(Show(order.customerId), CUSTOMER_PREFIX);
    RemoveAllIdentity(OrderIdFor(order, uuid), ORDER_PREFIX);
    if order.customerId.None? {
      ShorterNotContains("null", CUSTOMER_PREFIX);
    }
  }

  /** An id containing its own marker does not survive: a customer id of the
      form "CUSTOMER#" + x is read back as x. */
  lemma EmbeddedMarkerIsLost(order: Order, x: string, orderDate: string, status: string,
                             uuid: UuidSource, statuses: set<string>)
    requires status in statuses
    requires order.customerId == Some(CUSTOMER_PREFIX + x) && !Contains(x, CUSTOMER_PREFIX)
    ensures var r := MapToOrder(StoredItem(order, orderDate, status, uuid), statuses);
      r.Ok? && r.value.customerId == Some(x) && r.value.customerId != order.customerId
  {
    StoredHeaderRoundTrip(order, orderDate, status, uuid, statuses);
    ReplaceAllAfterPrefix(CUSTOMER_PREFIX, x, "");
    assert "" + ReplaceAll(x, CUSTOMER_PREFIX, "") == ReplaceAll(x, CUSTOMER_PREFIX, "");
    RemoveAllIdentity(x, CUSTOMER_PREFIX);
    assert |CUSTOMER_PREFIX + x| > |x|;
  }

  lemma {:induction false} ToppingsTotalAgrees(a: seq<Topping>, d: seq<Topping>)
    requires ToppingsAgree(a, d)
    ensures ToppingsTotal(d) == ToppingsTotal(a)
  {
    if a != [] {
      ToppingsTotalAgrees(a[1..], d[1..]);
    }
  }

  lemma {:induction false} TacosTotalAgrees(a: seq<Taco>, d: seq<Taco>)
    requires |a| == |d| && forall i :: 0 <= i < |a| ==> TacoAgrees(a[i], d[i])
    ensures TacosTotal(d) == TacosTotal(a)
  {
    if a != [] {
      if a[0].toppings.Some? {
        ToppingsTotalAgrees(a[0].toppings.value, d[0].toppings.value);
      }
      assert forall i :: 0 <= i < |a| - 1 ==> a[1..][i] == a[i + 1] && d[1..][i] == d[i + 1];
      TacosTotalAgrees(a[1..], d[1..]);
    }
  }

  lemma {:induction false} SideItemsTotalAgrees(a: seq<SideItem>, d: seq<SideItem>)
    requires SideItemsAgree(a, d)
    ensures SideItemsTotal(d) == SideItemsTotal(a)
  {
    if a != [] {
      SideItemsTotalAgrees(a[1..], d[1..]);
    }
  }

  /** The stored total is consistent with the order read back: recomputing the
      price of a corresponding order gives the same total (an empty list
      decoded as `null` still contributes zero). */
  lemma DecodedTotalMatches(input: Order, decoded: Order)
    requires Corresponds(input, decoded)
    ensures CalculateTotalPrice(decoded) == CalculateTotalPrice(input)
  {
    if decoded.tacos.Some? {
      TacosTotalAgrees(input.tacos.value, decoded.tacos.value);
    }
    if decoded.sideItems.Some? {
      SideItemsTotalAgrees(input.sideItems.value, decoded.sideItems.value);
    }
  }

  /** Setting a known status name on a readable order item reads back as the
      same order with only its status changed. */
  lemma StatusUpdateReadBack(item: Item, status: string, statuses: set<string>)
    requires MapToOrder(item, statuses).Ok? && status in statuses
    ensures MapToOrder(item["Status" := S(status)], statuses)
            == Ok(MapToOrder(item, statuses).value.(status := Some(status)))
  {
    var updated := item["Status" := S(status)];
    assert HeaderReadable(updated, statuses);
    assert updated["PK"] == item["PK"] && updated["SK"] == item["SK"];
  }
}
