/** Stored items: a map from attribute name to a typed attribute value, with the
    accessors of the AWS SDK's `AttributeValue`. */
module Attributes {
  import opened Wrappers
  import opened Strings

  /** An attribute value: a string, a number (prices are exact cents), a list, a
      map, or `Unset`, the value `AttributeValue.builder().s(null).build()`
      yields, which carries no type at all. */
  datatype AttrValue =
    | S(s: string)
    | N(n: int)
    | L(l: seq<AttrValue>)
    | M(m: map<string, AttrValue>)
    | Unset

  type Item = map<string, AttrValue>

  /** `AttributeValue.builder().s(x).build()` for a possibly-null `x`. */
  function StringAttr(x: JString): (v: AttrValue)
    ensures AsS(v) == x
  {
    match x
    case None => Unset
    case Some(t) => S(t)
  }

  /** The value and everything nested in it carries a type; the store refuses
      to write an item holding an `Unset` value anywhere. */
  predicate Typed(v: AttrValue)
    decreases v
  {
    match v
    case Unset => false
    case L(l) => forall i :: 0 <= i < |l| ==> Typed(l[i])
    case M(m) => forall k :: k in m ==> Typed(m[k])
    case _ => true
  }

  predicate ItemTyped(item: Item)
  {
    forall k :: k in item ==> Typed(item[k])
  }

  /** A string attribute built from a possibly-null string is typed exactly
      when the string is non-null. */
  lemma StringAttrTyped(x: JString)
    ensures Typed(StringAttr(x)) <==> x.Some?
  {
  }

  /** `v.s()`: the string, or `null` when `v` is not a string. */
  function AsS(v: AttrValue): JString
  {
    if v.S? then Some(v.s) else None
  }

  /** `v.l()`: the list, or the SDK's empty auto-constructed list otherwise. */
  function AsL(v: AttrValue): seq<AttrValue>
  {
    if v.L? then v.l else []
  }

  /** `v.m()`: the map, or the SDK's empty auto-constructed map otherwise. */
  function AsM(v: AttrValue): Item
  {
    if v.M? then v.m else map[]
  }

  /** Why reading an item failed. Every case is an exception in the Java code,
      a `NullPointerException`, a `NumberFormatException` or an
      `IllegalArgumentException` from an enum's `valueOf`. */
  datatype DecodeError =
    | MissingAttribute(name: string)
    | NotAString(name: string)
    | NotANumber(name: string)
    | UnknownEnumName(name: string, given: string)

  /** `item.get(name).s()` where the caller dereferences the string: fails when
      the attribute is absent or is not a string. */
  function GetString(item: Item, name: string): (r: Result<string, DecodeError>)
    ensures r.Ok? <==> name in item && item[name].S?
    ensures r.Ok? ==> item[name] == S(r.value)
  {
    if name !in item then Err(MissingAttribute(name))
    else if !item[name].S? then Err(NotAString(name))
    else Ok(item[name].s)
  }

  /** `item.get(name).s()` stored into a field as is: fails only when the
      attribute is absent; a non-string value reads as `null`. */
  function GetNullableString(item: Item, name: string): (r: Result<JString, DecodeError>)
    ensures r.Ok? <==> name in item
    ensures r.Ok? ==> r.value == AsS(item[name])
  {
    if name !in item then Err(MissingAttribute(name)) else Ok(AsS(item[name]))
  }

  /** `Double.parseDouble(item.get(name).n())`: fails when the attribute is
      absent or is not a number. */
  function GetNumber(item: Item, name: string): (r: Result<int, DecodeError>)
    ensures r.Ok? <==> name in item && item[name].N?
    ensures r.Ok? ==> item[name] == N(r.value)
  {
    if name !in item then Err(MissingAttribute(name))
    else if !item[name].N? then Err(NotANumber(name))
    else Ok(item[name].n)
  }

  /** `E.valueOf(item.get(name).s())` for an enum whose constant names are
      `names`: fails when the attribute is absent, is not a string, or names no
      constant. */
  function GetEnumName(item: Item, name: string, names: set<string>): (r: Result<string, DecodeError>)
    ensures r.Ok? <==> name in item && item[name].S? && item[name].s in names
    ensures r.Ok? ==> item[name] == S(r.value)
  {
    var s :- GetString(item, name);
    if s in names then Ok(s) else Err(UnknownEnumName(name, s))
  }
}
