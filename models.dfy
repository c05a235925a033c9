/** The domain objects the handlers read from requests and return in responses.
    A field that Java may leave `null` is optional here. Prices are exact cents.
    Enum-typed fields (`OrderStatus`, `FoodItemType`) hold the constant's name. */
module Models {
  import opened Wrappers
  import opened Strings

  datatype Topping = Topping(id: JString, name: JString, price: int)

  datatype SideItem = SideItem(id: JString, name: JString, price: int)

  datatype Taco = Taco(
    id: JString,
    menuItemId: JString,
    name: JString,
    price: int,
    toppings: Option<seq<Topping>>)

  datatype Order = Order(
    id: JString,
    customerId: JString,
    orderDate: JString,
    totalPrice: int,
    status: JString,
    tacos: Option<seq<Taco>>,
    sideItems: Option<seq<SideItem>>)

  datatype MenuItem = MenuItem(
    id: JString,
    name: JString,
    price: int,
    description: JString,
    foodItemType: JString)

  datatype Customer = Customer(
    firstName: JString,
    lastName: JString,
    email: JString,
    phoneNumber: JString)

  datatype UpdateOrderRequest = UpdateOrderRequest(
    email: JString,
    orderId: JString,
    status: JString)

  /** `CollectionUtils.isNotEmpty(xs)`: non-null and holding at least one element. */
  predicate NotEmpty<T>(xs: Option<seq<T>>)
  {
    xs.Some? && |xs.value| > 0
  }
}
