/** The order total of `CreateOrderHandler.calculateTotalPrice`: each taco's price
    plus its toppings, plus every side item; a `null` list adds nothing. */
module Pricing {
  import opened Wrappers
  import opened Models

  function ToppingsTotal(ts: seq<Topping>): int
  {
    if ts == [] then 0 else ts[0].price + ToppingsTotal(ts[1..])
  }

  /** One taco's contribution: its own price and the sum of its toppings. */
  function TacoTotal(t: Taco): int
  {
    t.price + (if t.toppings.Some? then ToppingsTotal(t.toppings.value) else 0)
  }

  function TacosTotal(ts: seq<Taco>): int
  {
    if ts == [] then 0 else TacoTotal(ts[0]) + TacosTotal(ts[1..])
  }

  function SideItemsTotal(ss: seq<SideItem>): int
  {
    if ss == [] then 0 else ss[0].price + SideItemsTotal(ss[1..])
  }

  /** A `null` taco or side-item list adds what an empty one adds: nothing. */
  function CalculateTotalPrice(o: Order): (total: int)
    ensures total == TacosTotal(OrEmpty(o.tacos)) + SideItemsTotal(OrEmpty(o.sideItems))
    ensures OrEmpty(o.tacos) == [] && OrEmpty(o.sideItems) == [] ==> total == 0
  {
    (if o.tacos.Some? then TacosTotal(o.tacos.value) else 0)
    + (if o.sideItems.Some? then SideItemsTotal(o.sideItems.value) else 0)
  }

  // ---------------------------------------------------------------------------
  // An independent statement of the price law: the sum, in any grouping, of
  // every unit price that appears in the order.

  function Sum(xs: seq<int>): int
  {
    if xs == [] then 0 else xs[0] + Sum(xs[1..])
  }

  function OrEmpty<T>(xs: Option<seq<T>>): seq<T>
  {
    if xs.Some? then xs.value else []
  }

  function TacoPrices(ts: seq<Taco>): seq<int>
  {
    seq(|ts|, i requires 0 <= i < |ts| => ts[i].price)
  }

  function ToppingPrices(ts: seq<Topping>): seq<int>
  {
    seq(|ts|, i requires 0 <= i < |ts| => ts[i].price)
  }

  function SideItemPrices(ss: seq<SideItem>): seq<int>
  {
    seq(|ss|, i requires 0 <= i < |ss| => ss[i].price)
  }

  /** The prices of every topping of every taco, taco by taco. */
  function AllToppingPrices(ts: seq<Taco>): seq<int>
  {
    if ts == [] then [] else ToppingPrices(OrEmpty(ts[0].toppings)) + AllToppingPrices(ts[1..])
  }

  /** Every unit price in the order: all tacos, then all toppings, then all side items. */
  function UnitPrices(o: Order): seq<int>
  {
    var ts := OrEmpty(o.tacos);
    TacoPrices(ts) + AllToppingPrices(ts) + SideItemPrices(OrEmpty(o.sideItems))
  }

  lemma {:induction false} SumAppend(a: seq<int>, b: seq<int>)
    ensures Sum(a + b) == Sum(a) + Sum(b)
  {
    if a == [] {
      assert a + b == b;
    } else {
      assert (a + b)[1..] == a[1..] + b;
      SumAppend(a[1..], b);
    }
  }

  lemma {:induction false} ToppingsTotalIsSum(ts: seq<Topping>)
    ensures ToppingsTotal(ts) == Sum(ToppingPrices(ts))
  {
    if ts != [] {
      assert ToppingPrices(ts)[1..] == ToppingPrices(ts[1..]);
      ToppingsTotalIsSum(ts[1..]);
    }
  }

  lemma {:induction false} SideItemsTotalIsSum(ss: seq<SideItem>)
    ensures SideItemsTotal(ss) == Sum(SideItemPrices(ss))
  {
    if ss != [] {
      assert SideItemPrices(ss)[1..] == SideItemPrices(ss[1..]);
      SideItemsTotalIsSum(ss[1..]);
    }
  }

  lemma {:induction false} TacosTotalIsSum(ts: seq<Taco>)
    ensures TacosTotal(ts) == Sum(TacoPrices(ts)) + Sum(AllToppingPrices(ts))
  {
    if ts != [] {
      assert TacoPrices(ts)[1..] == TacoPrices(ts[1..]);
      TacosTotalIsSum(ts[1..]);
      ToppingsTotalIsSum(OrEmpty(ts[0].toppings));
      SumAppend(ToppingPrices(OrEmpty(ts[0].toppings)), AllToppingPrices(ts[1..]));
    }
  }

  /** The price law: the total is the sum of every taco's, every topping's and
      every side item's price, and `null` lists count as empty. */
  lemma PriceLaw(o: Order)
    ensures CalculateTotalPrice(o) == Sum(UnitPrices(o))
    ensures CalculateTotalPrice(o) ==
      Sum(TacoPrices(OrEmpty(o.tacos))) + Sum(AllToppingPrices(OrEmpty(o.tacos)))
      + Sum(SideItemPrices(OrEmpty(o.sideItems)))
  {
    var ts := OrEmpty(o.tacos);
    TacosTotalIsSum(ts);
    SideItemsTotalIsSum(OrEmpty(o.sideItems));
    SumAppend(TacoPrices(ts), AllToppingPrices(ts));
    SumAppend(TacoPrices(ts) + AllToppingPrices(ts), SideItemPrices(OrEmpty(o.sideItems)));
  }

  /** An order without tacos and side items, `null` or empty, totals zero. */
  lemma EmptyOrderTotalsZero(o: Order)
    requires OrEmpty(o.tacos) == [] && OrEmpty(o.sideItems) == []
    ensures CalculateTotalPrice(o) == 0
  {
  }

  lemma {:induction false} SumNonNegative(xs: seq<int>)
    requires forall i :: 0 <= i < |xs| ==> xs[i] >= 0
    ensures Sum(xs) >= 0
  {
    if xs != [] {
      assert forall i :: 0 <= i < |xs| - 1 ==> xs[1..][i] == xs[i + 1];
      SumNonNegative(xs[1..]);
    }
  }

  /** With non-negative unit prices the total is non-negative. */
  lemma TotalNonNegative(o: Order)
    requires forall i :: 0 <= i < |UnitPrices(o)| ==> UnitPrices(o)[i] >= 0
    ensures CalculateTotalPrice(o) >= 0
  {
    PriceLaw(o);
    SumNonNegative(UnitPrices(o));
  }

  /** Two tacos at 5.00 and 6.50, the first with toppings at 1.00 and 0.75, and
      one side item at 2.50 total 15.75. */
  lemma ScenarioTotal(o: Order)
    requires o.tacos == Some([
      Taco(None, None, None, 500, Some([Topping(None, None, 100), Topping(None, None, 75)])),
      Taco(None, None, None, 650, None)])
    requires o.sideItems == Some([SideItem(None, None, 250)])
    ensures CalculateTotalPrice(o) == 1575
  {
    var ts := o.tacos.value;
    assert ts[1..][1..] == [];
    var ps := ts[0].toppings.value;
    assert ps[1..][1..] == [];
    assert o.sideItems.value[1..] == [];
  }
}
