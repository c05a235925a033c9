/** The DynamoDB table the handlers share, as an in-memory map from `(PK, SK)`
    to the item stored there, with the four requests the handlers issue:
    get-item, put-item, the conditional status update, and query. */
module DynamoTable {
  import opened Wrappers
  import opened Strings
  import opened Attributes
  import opened Keys

  /** Every stored item carries its own key attributes. */
  ghost predicate WellKeyed(items: map<Key, Item>)
  {
    forall k :: k in items ==> KeyOf(items[k]) == Some(k)
  }

  /** `SET Status = :status` on the item at `k`, guarded by
      `attribute_exists(PK) AND attribute_exists(SK)`: an absent item fails the
      condition and the table stays as it was. */
  function ApplyStatusUpdate(items: map<Key, Item>, k: Key, status: string): (after: map<Key, Item>)
    ensures after.Keys == items.Keys
    ensures forall other :: other in items && other != k ==> after[other] == items[other]
    ensures k in items ==> after[k].Keys <= items[k].Keys + {"Status"}
    ensures k in items ==> forall a :: a in items[k] && a != "Status" ==> a in after[k] && after[k][a] == items[k][a]
    ensures k in items && "PK" in items[k] && "SK" in items[k] ==> "Status" in after[k] && after[k]["Status"] == S(status)
    ensures !(k in items && "PK" in items[k] && "SK" in items[k]) ==> after == items
  {
    if k in items && "PK" in items[k] && "SK" in items[k]
    then items[k := items[k]["Status" := S(status)]]
    else items
  }

  /** On a well-keyed table the condition holds exactly when an item is stored
      at the key; the update then changes that item's `Status` and nothing else,
      and never adds or removes a key. */
  lemma StatusUpdateEffect(items: map<Key, Item>, k: Key, status: string)
    requires WellKeyed(items)
    ensures var after := ApplyStatusUpdate(items, k, status);
      && after.Keys == items.Keys
      && WellKeyed(after)
      && (k in items ==> after == items[k := items[k]["Status" := S(status)]])
      && (k !in items ==> after == items)
      && (forall other :: other in items && other != k ==> after[other] == items[other])
  {
  }

  /** Repeating the same status update gives the table a single update gives. */
  lemma StatusUpdateIdempotent(items: map<Key, Item>, k: Key, status: string)
    ensures ApplyStatusUpdate(ApplyStatusUpdate(items, k, status), k, status) == ApplyStatusUpdate(items, k, status)
  {
    if k in items && "PK" in items[k] && "SK" in items[k] {
      var once := ApplyStatusUpdate(items, k, status);
      assert once[k]["Status" := S(status)] == once[k];
      assert once[k := once[k]] == once;
    }
  }

  /** The sort keys stored in partition `pk` that begin with `skPrefix`. */
  function MatchingSortKeys(items: map<Key, Item>, pk: string, skPrefix: string): set<string>
  {
    set k | k in items.Keys && k.pk == pk && StartsWith(k.sk, skPrefix) :: k.sk
  }

  /** The keys a query `PK = pk AND begins_with(SK, skPrefix)` reads: every such
      stored key, each once, in ascending sort-key order. */
  function QueryKeys(items: map<Key, Item>, pk: string, skPrefix: string): (ks: seq<Key>)
    ensures forall i :: 0 <= i < |ks| ==> ks[i] in items && ks[i].pk == pk && StartsWith(ks[i].sk, skPrefix)
    ensures forall k :: k in items && k.pk == pk && StartsWith(k.sk, skPrefix) ==> k in ks
    ensures forall i, j :: 0 <= i < j < |ks| ==> Lt(ks[i].sk, ks[j].sk)
  {
    var sks := Sorted(MatchingSortKeys(items, pk, skPrefix));
    var ks := seq(|sks|, i requires 0 <= i < |sks| => Key(pk, sks[i]));
    assert forall i :: 0 <= i < |ks| ==> ks[i] in items && StartsWith(ks[i].sk, skPrefix) by {
      forall i | 0 <= i < |ks| ensures ks[i] in items && StartsWith(ks[i].sk, skPrefix) {
        assert sks[i] in MatchingSortKeys(items, pk, skPrefix);
        var k :| k in items.Keys && k.pk == pk && StartsWith(k.sk, skPrefix) && k.sk == sks[i];
        assert ks[i] == k;
      }
    }
    assert forall k :: k in items && k.pk == pk && StartsWith(k.sk, skPrefix) ==> k in ks by {
      forall k | k in items && k.pk == pk && StartsWith(k.sk, skPrefix) ensures k in ks {
        assert k.sk in MatchingSortKeys(items, pk, skPrefix);
        var i :| 0 <= i < |sks| && sks[i] == k.sk;
        assert ks[i] == k;
      }
    }
    ks
  }

  /** With no prefix the query reads the whole partition. */
  lemma PartitionQuery(items: map<Key, Item>, pk: string)
    ensures forall k :: k in items && k.pk == pk ==> k in QueryKeys(items, pk, "")
  {
    assert forall k: Key :: StartsWith(k.sk, "");
  }

  /** Sort keys strictly increase along a query, so no key is read twice. */
  lemma QueryKeysDistinct(items: map<Key, Item>, pk: string, skPrefix: string)
    ensures var ks := QueryKeys(items, pk, skPrefix);
      forall i, j :: 0 <= i < |ks| && 0 <= j < |ks| && i != j ==> ks[i] != ks[j]
  {
    var ks := QueryKeys(items, pk, skPrefix);
    forall i, j | 0 <= i < |ks| && 0 <= j < |ks| && i != j ensures ks[i] != ks[j] {
      if i < j { assert Lt(ks[i].sk, ks[j].sk); } else { assert Lt(ks[j].sk, ks[i].sk); }
    }
  }

  /** A partition with nothing under the prefix answers with no items. */
  lemma EmptyQuery(items: map<Key, Item>, pk: string, skPrefix: string)
    requires forall k :: k in items ==> !(k.pk == pk && StartsWith(k.sk, skPrefix))
    ensures QueryKeys(items, pk, skPrefix) == []
  {
  }

  class Table {
    var items: map<Key, Item>

    ghost predicate Valid()
      reads this
    {
      WellKeyed(items)
    }

    constructor ()
      ensures Valid() && items == map[]
    {
      items := map[];
    }

    /** `getItem`: the item stored at `k`, if any. */
    method GetItem(k: Key) returns (r: Option<Item>)
      ensures r.Some? <==> k in items
      ensures r.Some? ==> r.value == items[k]
    {
      r := if k in items then Some(items[k]) else None;
    }

    /** `putItem`: an unconditional upsert at the item's own key, which replaces
      whatever was stored there. The store refuses (`ValidationException`) an
      item without string key attributes or holding an untyped value, and then
      nothing is written. */
    method PutItem(item: Item) returns (accepted: bool)
      requires Valid()
      modifies this
      ensures Valid()
      ensures accepted <==> KeyOf(item).Some? && ItemTyped(item)
      ensures accepted ==> items == old(items)[KeyOf(item).value := item]
      ensures !accepted ==> items == old(items)
    {
      accepted := KeyOf(item).Some? && ItemTyped(item);
      if accepted {
        items := items[KeyOf(item).value := item];
      }
    }

    /** `updateItem` with `SET #status = :status` and the existence condition;
      `applied` is false when the condition failed
      (`ConditionalCheckFailedException`). */
    method UpdateStatus(k: Key, status: string) returns (applied: bool)
      requires Valid()
      modifies this
      ensures Valid()
      ensures applied <==> k in old(items)
      ensures items == ApplyStatusUpdate(old(items), k, status)
    {
      applied := k in items && "PK" in items[k] && "SK" in items[k];
      StatusUpdateEffect(items, k, status);
      items := ApplyStatusUpdate(items, k, status);
    }

    /** `query` with `PK = pk AND begins_with(SK, skPrefix)`: the matching items
      in ascending sort-key order. */
    function Query(pk: string, skPrefix: string): (rs: seq<Item>)
      reads this
      requires Valid()
      ensures var ks := QueryKeys(items, pk, skPrefix);
        && |rs| == |ks|
        && forall i :: 0 <= i < |rs| ==> rs[i] == items[ks[i]] && KeyOf(rs[i]) == Some(ks[i])
    {
      var stored := items;
      var ks := QueryKeys(stored, pk, skPrefix);
      seq(|ks|, i requires 0 <= i < |ks| => stored[ks[i]])
    }
  }
}
