/** The single-table key schema: every item is addressed by a partition key `PK`
    and a sort key `SK`, both strings built from a literal marker and an id. */
module Keys {
  import opened Wrappers
  import opened Strings
  import opened Attributes

  const CUSTOMER_PREFIX: string := "CUSTOMER#"
  const ORDER_PREFIX: string := "ORDER#"
  const PROFILE: string := "PROFILE"
  const MENU: string := "MENU"

  datatype Key = Key(pk: string, sk: string)

  /** The key an item is stored under: its `PK` and `SK` string attributes. */
  function KeyOf(item: Item): (k: Option<Key>)
    ensures k.Some? <==> "PK" in item && item["PK"].S? && "SK" in item && item["SK"].S?
    ensures k.Some? ==> item["PK"] == S(k.value.pk) && item["SK"] == S(k.value.sk)
  {
    if "PK" in item && item["PK"].S? && "SK" in item && item["SK"].S?
    then Some(Key(item["PK"].s, item["SK"].s))
    else None
  }

  /** `"CUSTOMER#" + email`, the partition holding a customer's profile and orders. */
  function CustomerPartition(email: JString): (pk: string)
    ensures StartsWith(pk, CUSTOMER_PREFIX) && pk[|CUSTOMER_PREFIX|..] == Show(email)
  {
    var pk := Concat(CUSTOMER_PREFIX, email);
    assert pk[..|CUSTOMER_PREFIX|] == CUSTOMER_PREFIX;
    pk
  }

  /** `"ORDER#" + orderId`, the sort key of an order within its customer's partition. */
  function OrderSortKey(orderId: JString): (sk: string)
    ensures StartsWith(sk, ORDER_PREFIX) && sk[|ORDER_PREFIX|..] == Show(orderId)
  {
    var sk := Concat(ORDER_PREFIX, orderId);
    assert sk[..|ORDER_PREFIX|] == ORDER_PREFIX;
    sk
  }

  /** The key of an order: the customer's partition, the order's sort key. */
  function OrderKey(customerId: JString, orderId: JString): (k: Key)
    ensures StartsWith(k.pk, CUSTOMER_PREFIX) && k.pk[|CUSTOMER_PREFIX|..] == Show(customerId)
    ensures StartsWith(k.sk, ORDER_PREFIX) && k.sk[|ORDER_PREFIX|..] == Show(orderId)
  {
    Key(CustomerPartition(customerId), OrderSortKey(orderId))
  }

  /** The key of a customer's profile: the customer's partition, `PROFILE`. */
  function ProfileKey(email: JString): (k: Key)
    ensures StartsWith(k.pk, CUSTOMER_PREFIX) && k.pk[|CUSTOMER_PREFIX|..] == Show(email)
    ensures k.sk == PROFILE
  {
    Key(CustomerPartition(email), PROFILE)
  }

  lemma PrefixCancel(p: string, a: string, b: string)
    ensures p + a == p + b <==> a == b
  {
    if p + a == p + b {
      assert a == (p + a)[|p|..] && b == (p + b)[|p|..];
    }
  }

  /** Distinct orders get distinct keys: the key determines the customer's and
      the order's text (a `null` id and the id "null" are indistinguishable). */
  lemma OrderKeyInjective(c1: JString, o1: JString, c2: JString, o2: JString)
    ensures OrderKey(c1, o1) == OrderKey(c2, o2) <==> Show(c1) == Show(c2) && Show(o1) == Show(o2)
  {
    PrefixCancel(CUSTOMER_PREFIX, Show(c1), Show(c2));
    PrefixCancel(ORDER_PREFIX, Show(o1), Show(o2));
  }

  /** Every order sort key begins with the order marker. */
  lemma OrderSortKeyHasPrefix(orderId: JString)
    ensures StartsWith(OrderSortKey(orderId), ORDER_PREFIX)
  {
    assert OrderSortKey(orderId)[..|ORDER_PREFIX|] == ORDER_PREFIX;
  }

  /** A profile is never taken for an order: its sort key does not begin with
      the order marker, so no profile key equals any order key. */
  lemma ProfileIsNotAnOrder(email: JString, c: JString, o: JString)
    ensures !StartsWith(PROFILE, ORDER_PREFIX)
    ensures ProfileKey(email) != OrderKey(c, o)
  {
    assert PROFILE[0] != ORDER_PREFIX[0];
    OrderSortKeyHasPrefix(o);
  }
}
