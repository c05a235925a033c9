/** How `CreateOrderHandler` lays an order out as one stored item: header
    attributes plus the tacos (each with its toppings) and the side items as
    embedded lists of maps. */
module OrderEncoding {
  import opened Wrappers
  import opened Strings
  import opened Attributes
  import opened Models
  import opened Keys
  import opened Pricing

  /** One call of `UUID.randomUUID()`, named by the place it is made: for the
      order id, for the i-th taco, for the j-th topping of the i-th taco, and for
      the k-th side item. A `UuidSource` stands for the generator's answers. */
  datatype Draw =
    | OrderIdDraw
    | TacoIdDraw(taco: nat)
    | ToppingIdDraw(taco: nat, topping: nat)
    | SideItemIdDraw(side: nat)

  type UuidSource = Draw -> string

  /** `Optional.ofNullable(order.getId()).orElse(UUID.randomUUID().toString())`. */
  function OrderIdFor(order: Order, uuid: UuidSource): (id: string)
    ensures order.id.Some? ==> id == order.id.value
    ensures order.id.None? ==> id == uuid(OrderIdDraw)
  {
    match order.id
    case Some(given) => given
    case None => uuid(OrderIdDraw)
  }

  /** One topping's map: exactly its fresh id, its name and its price. */
  function ToppingMap(t: Topping, toppingId: string): (m: Item)
    ensures m.Keys == {"ToppingId", "Name", "Price"}
    ensures m["ToppingId"] == S(toppingId) && AsS(m["Name"]) == t.name && m["Price"] == N(t.price)
  {
    map["ToppingId" := S(toppingId), "Name" := StringAttr(t.name), "Price" := N(t.price)]
  }

  /** The `Toppings` list of the i-th taco: one map per topping, in order. */
  function ToppingList(ts: seq<Topping>, i: nat, uuid: UuidSource): (l: seq<AttrValue>)
    ensures |l| == |ts|
    ensures forall j :: 0 <= j < |ts| ==> l[j] == M(ToppingMap(ts[j], uuid(ToppingIdDraw(i, j))))
  {
    seq(|ts|, j requires 0 <= j < |ts| => M(ToppingMap(ts[j], uuid(ToppingIdDraw(i, j)))))
  }

  /** The map for the i-th taco; `Toppings` is written whenever the taco's topping
      list is non-null, even when it is empty. */
  function TacoMap(t: Taco, i: nat, uuid: UuidSource): (m: Item)
    ensures m.Keys == {"TacoId", "MenuItemId", "Name", "Price"} + (if t.toppings.Some? then {"Toppings"} else {})
    ensures m["TacoId"] == S(uuid(TacoIdDraw(i)))
    ensures AsS(m["MenuItemId"]) == t.menuItemId && AsS(m["Name"]) == t.name
    ensures m["Price"] == N(t.price)
    ensures t.toppings.Some? ==> m["Toppings"] == L(ToppingList(t.toppings.value, i, uuid))
  {
    var base := map[
      "TacoId" := S(uuid(TacoIdDraw(i))),
      "MenuItemId" := StringAttr(t.menuItemId),
      "Name" := StringAttr(t.name),
      "Price" := N(t.price)];
    match t.toppings
    case None => base
    case Some(ts) => base["Toppings" := L(ToppingList(ts, i, uuid))]
  }

  /** The `Tacos` list: one map per taco, in order. */
  function TacoList(ts: seq<Taco>, uuid: UuidSource): (l: seq<AttrValue>)
    ensures |l| == |ts|
    ensures forall i :: 0 <= i < |ts| ==> l[i] == M(TacoMap(ts[i], i, uuid))
  {
    seq(|ts|, i requires 0 <= i < |ts| => M(TacoMap(ts[i], i, uuid)))
  }

  /** One side item's map: exactly its fresh id, its name and its price. */
  function SideItemMap(s: SideItem, sideItemId: string): (m: Item)
    ensures m.Keys == {"SideItemId", "Name", "Price"}
    ensures m["SideItemId"] == S(sideItemId) && AsS(m["Name"]) == s.name && m["Price"] == N(s.price)
  {
    map["SideItemId" := S(sideItemId), "Name" := StringAttr(s.name), "Price" := N(s.price)]
  }

  /** The `SideItems` list: one map per side item, in order. */
  function SideItemList(ss: seq<SideItem>, uuid: UuidSource): (l: seq<AttrValue>)
    ensures |l| == |ss|
    ensures forall k :: 0 <= k < |ss| ==> l[k] == M(SideItemMap(ss[k], uuid(SideItemIdDraw(k))))
  {
    seq(|ss|, k requires 0 <= k < |ss| => M(SideItemMap(ss[k], uuid(SideItemIdDraw(k)))))
  }

  /** The `Tacos` and `SideItems` attributes `addItemsToOrder` adds: each only
      when its list is non-null and non-empty. */
  function ChildAttributes(order: Order, uuid: UuidSource): (m: Item)
    ensures m.Keys == (if NotEmpty(order.tacos) then {"Tacos"} else {})
                      + (if NotEmpty(order.sideItems) then {"SideItems"} else {})
    ensures NotEmpty(order.tacos) ==> m["Tacos"] == L(TacoList(order.tacos.value, uuid))
    ensures NotEmpty(order.sideItems) ==> m["SideItems"] == L(SideItemList(order.sideItems.value, uuid))
  {
    var withTacos: Item :=
      if NotEmpty(order.tacos) then map["Tacos" := L(TacoList(order.tacos.value, uuid))] else map[];
    if NotEmpty(order.sideItems)
    then withTacos["SideItems" := L(SideItemList(order.sideItems.value, uuid))]
    else withTacos
  }

  /** The item `createOrderRecord` stores for an order with the given keys,
      timestamp and status name. */
  function OrderItem(pk: string, sk: string, orderDate: string, status: string,
                     order: Order, uuid: UuidSource): (item: Item)
    ensures item.Keys == {"PK", "SK", "OrderDate", "TotalPrice", "Status"}
                         + (if NotEmpty(order.tacos) then {"Tacos"} else {})
                         + (if NotEmpty(order.sideItems) then {"SideItems"} else {})
    ensures KeyOf(item) == Some(Key(pk, sk))
    ensures item["OrderDate"] == S(orderDate) && item["Status"] == S(status)
    ensures item["TotalPrice"] == N(CalculateTotalPrice(order))
    ensures NotEmpty(order.tacos) ==> item["Tacos"] == L(TacoList(order.tacos.value, uuid))
    ensures NotEmpty(order.sideItems) ==> item["SideItems"] == L(SideItemList(order.sideItems.value, uuid))
  {
    var header: Item := map[
      "PK" := S(pk),
      "SK" := S(sk),
      "OrderDate" := S(orderDate),
      "TotalPrice" := N(CalculateTotalPrice(order)),
      "Status" := S(status)];
    var children := ChildAttributes(order, uuid);
    assert header.Keys == {"PK", "SK", "OrderDate", "TotalPrice", "Status"};
    assert header.Keys !! children.Keys;
    header + children
  }

  // ---------------------------------------------------------------------------
  // Which orders the store accepts: every string written through
  // `AttributeValue.builder().s(..)` must be non-null.

  /** The taco's menu item id and name, and its toppings' names, are non-null. */
  predicate TacoNamesGiven(t: Taco)
  {
    && t.menuItemId.Some? && t.name.Some?
    && (t.toppings.Some? ==> forall j :: 0 <= j < |t.toppings.value| ==> t.toppings.value[j].name.Some?)
  }

  /** Every string the layout of `order` writes is non-null: those of each taco
      and of each side item, when those lists are written at all. */
  predicate NamesGiven(order: Order)
  {
    && (NotEmpty(order.tacos) ==>
          forall i :: 0 <= i < |order.tacos.value| ==> TacoNamesGiven(order.tacos.value[i]))
    && (NotEmpty(order.sideItems) ==>
          forall k :: 0 <= k < |order.sideItems.value| ==> order.sideItems.value[k].name.Some?)
  }

  lemma ToppingListTyped(ts: seq<Topping>, i: nat, uuid: UuidSource)
    ensures Typed(L(ToppingList(ts, i, uuid))) <==> forall j :: 0 <= j < |ts| ==> ts[j].name.Some?
  {
    var l := ToppingList(ts, i, uuid);
    forall j | 0 <= j < |ts| ensures Typed(l[j]) <==> ts[j].name.Some? {
      var m := ToppingMap(ts[j], uuid(ToppingIdDraw(i, j)));
      assert m["Name"] == StringAttr(ts[j].name);
      StringAttrTyped(ts[j].name);
    }
  }

  lemma TacoMapTyped(t: Taco, i: nat, uuid: UuidSource)
    ensures Typed(M(TacoMap(t, i, uuid))) <==> TacoNamesGiven(t)
  {
    var m := TacoMap(t, i, uuid);
    StringAttrTyped(t.menuItemId);
    StringAttrTyped(t.name);
    if t.toppings.Some? {
      ToppingListTyped(t.toppings.value, i, uuid);
    }
    assert Typed(M(m)) <==> forall k :: k in m ==> Typed(m[k]);
    assert m["MenuItemId"] == StringAttr(t.menuItemId) && m["Name"] == StringAttr(t.name);
  }

  lemma TacoListTyped(ts: seq<Taco>, uuid: UuidSource)
    ensures Typed(L(TacoList(ts, uuid))) <==> forall i :: 0 <= i < |ts| ==> TacoNamesGiven(ts[i])
  {
    var l := TacoList(ts, uuid);
    forall i | 0 <= i < |ts| ensures Typed(l[i]) <==> TacoNamesGiven(ts[i]) {
      TacoMapTyped(ts[i], i, uuid);
    }
  }

  lemma SideItemListTyped(ss: seq<SideItem>, uuid: UuidSource)
    ensures Typed(L(SideItemList(ss, uuid))) <==> forall k :: 0 <= k < |ss| ==> ss[k].name.Some?
  {
    var l := SideItemList(ss, uuid);
    forall k | 0 <= k < |ss| ensures Typed(l[k]) <==> ss[k].name.Some? {
      var m := SideItemMap(ss[k], uuid(SideItemIdDraw(k)));
      assert m["Name"] == StringAttr(ss[k].name);
      StringAttrTyped(ss[k].name);
    }
  }

  /** The child lists are accepted exactly when every name in them is given. */
  lemma ChildAttributesTyped(order: Order, uuid: UuidSource)
    ensures ItemTyped(ChildAttributes(order, uuid)) <==> NamesGiven(order)
  {
    var children := ChildAttributes(order, uuid);
    if NotEmpty(order.tacos) {
      TacoListTyped(order.tacos.value, uuid);
    }
    if NotEmpty(order.sideItems) {
      SideItemListTyped(order.sideItems.value, uuid);
    }
    assert ItemTyped(children) <==>
      && ("Tacos" in children ==> Typed(children["Tacos"]))
      && ("SideItems" in children ==> Typed(children["SideItems"]));
  }

  /** The store accepts the order item exactly when every name in the order is
      given; a `null` taco, topping or side-item name makes the write fail. */
  lemma OrderItemTyped(pk: string, sk: string, orderDate: string, status: string,
                       order: Order, uuid: UuidSource)
    ensures ItemTyped(OrderItem(pk, sk, orderDate, status, order, uuid)) <==> NamesGiven(order)
  {
    var item := OrderItem(pk, sk, orderDate, status, order, uuid);
    var children := ChildAttributes(order, uuid);
    ChildAttributesTyped(order, uuid);
    assert forall a :: a in children ==> item[a] == children[a];
    assert forall a :: a in item && a !in children ==> item[a].S? || item[a].N?;
  }
}
