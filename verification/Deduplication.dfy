/** Telling items that were processed before from new ones, by the value of one property. */
module Deduplication {
  import opened Wrappers

  /** No JSON text is empty. */
  type JsonText = text: string | text != "" witness "null"

  /** An item: the JSON text of the property looked at, if the item has it, and the rest. */
  datatype Item = Item(property: Option<JsonText>, rest: string)

  /** Items lacking the property share the empty key, and no others have it. */
  function KeyOf(item: Item): (key: string)
    ensures key == "" <==> item.property.None?
  {
    if item.property.Some? then item.property.value else ""
  }

  /** Two items have the same key exactly if both lack the property, or both have it with the
      same text. */
  lemma SameKeyExactlyWhen(a: Item, b: Item)
    ensures KeyOf(a) == KeyOf(b) <==> a.property == b.property
    ensures a.property.Some? ==> KeyOf(a) == a.property.value
  {
  }

  function KeysOf(items: seq<Item>): (keys: seq<string>)
    ensures |keys| == |items| && forall i :: 0 <= i < |items| ==> keys[i] == KeyOf(items[i])
  {
    seq(|items|, i requires 0 <= i < |items| => KeyOf(items[i]))
  }

  datatype Split<T> = Split(unseen: seq<T>, processed: seq<T>)

  ghost predicate Distinct(keys: seq<string>) {
    forall i, j :: 0 <= i < j < |keys| ==> keys[i] != keys[j]
  }

  /** Every key in one of the two, once. */
  ghost predicate Splits(split: Split<string>, keys: seq<string>) {
    && Distinct(split.unseen + split.processed)
    && forall k :: k in split.unseen + split.processed <==> k in keys
  }

  /** The keys of the items, each once, in any order. */
  ghost predicate Lists(keys: seq<string>, items: seq<Item>) {
    Distinct(keys) && forall k :: k in keys <==> k in KeysOf(items)
  }

  /** No later item has the same text for the property, or lacks it too. */
  ghost predicate IsLast(items: seq<Item>, i: nat) {
    i < |items| && forall j :: i < j < |items| ==> items[j].property != items[i].property
  }

  /** The item is the last with its key. */
  ghost predicate IsTheLast(items: seq<Item>, item: Item) {
    exists i: nat :: IsLast(items, i) && items[i] == item
  }

  /** The items at the given keys: of each key, the last. */
  ghost predicate Looks(items: seq<Item>, keys: seq<string>, found: seq<Item>) {
    && KeysOf(found) == keys
    && forall i :: 0 <= i < |found| ==> IsTheLast(items, found[i])
  }

  class DataDeduplicationService {
    const deduplicator: seq<string> -> Split<string>

    constructor (deduplicator: seq<string> -> Split<string>)
      ensures this.deduplicator == deduplicator
    {
      this.deduplicator := deduplicator;
    }

    method CheckProcessedItemsAndRecord(items: seq<Item>) returns (split: Split<Item>)
      requires forall keys :: Distinct(keys) ==> Splits(deduplicator(keys), keys)
      ensures exists keys :: Lists(keys, items) && var checked := deduplicator(keys);
                && Looks(items, checked.unseen, split.unseen)
                && Looks(items, checked.processed, split.processed)
    {
      var itemLookup: map<string, nat> := map[];
      for index := 0 to |items|
        invariant forall k :: k in itemLookup <==> k in KeysOf(items[..index])
        invariant forall k :: k in itemLookup ==> itemLookup[k] < index && KeyOf(items[itemLookup[k]]) == k
        invariant forall k :: k in itemLookup ==> IsLast(items[..index], itemLookup[k])
      {
        assert KeysOf(items[..index + 1]) == KeysOf(items[..index]) + [KeyOf(items[index])];
        itemLookup := itemLookup[KeyOf(items[index]) := index];
      }
      assert items[..|items|] == items;
      var keys := ObjectKeys(itemLookup);
      assert Lists(keys, items);
      var checkedItems := deduplicator(keys);
      assert forall k :: k in checkedItems.unseen ==> k in checkedItems.unseen + checkedItems.processed;
      assert forall k :: k in checkedItems.processed ==> k in checkedItems.unseen + checkedItems.processed;
      var unseen := LookUp(items, itemLookup, checkedItems.unseen);
      var processed := LookUp(items, itemLookup, checkedItems.processed);
      return Split(unseen, processed);
    }

    /** In whatever order the runtime keeps them. */
    static method ObjectKeys(lookup: map<string, nat>) returns (keys: seq<string>)
      ensures Distinct(keys) && forall k :: k in keys <==> k in lookup
    {
      keys := [];
      var left := lookup.Keys;
      while left != {}
        invariant Distinct(keys) && left <= lookup.Keys
        invariant forall k :: k in keys <==> k in lookup && k !in left
        decreases |left|
      {
        var k :| k in left;
        keys, left := keys + [k], left - {k};
      }
    }

    static method LookUp(items: seq<Item>, lookup: map<string, nat>, keys: seq<string>) returns (found: seq<Item>)
      requires forall k :: k in keys ==> k in lookup
      requires forall k :: k in lookup ==> IsLast(items, lookup[k]) && KeyOf(items[lookup[k]]) == k
      ensures Looks(items, keys, found)
    {
      found := seq(|keys|, i requires 0 <= i < |keys| => items[lookup[keys[i]]]);
      forall i | 0 <= i < |keys|
        ensures IsTheLast(items, found[i])
      {
        assert keys[i] in keys && IsLast(items, lookup[keys[i]]);
      }
    }
  }

  // ---------- What comes out ----------

  /** Some of them agrees with the item in the property, or lacks it too. */
  ghost predicate Represented(item: Item, items: seq<Item>) {
    exists p :: 0 <= p < |items| && items[p].property == item.property
  }

  /** If the deduplicator splits the keys it is given, then of every key that the items
      have, the last item comes out, once, new or processed, and nothing else does. */
  lemma OneItemPerKey(items: seq<Item>, keys: seq<string>, checked: Split<string>, split: Split<Item>)
    requires Lists(keys, items) && Splits(checked, keys)
    requires Looks(items, checked.unseen, split.unseen) && Looks(items, checked.processed, split.processed)
    ensures var all := split.unseen + split.processed;
            && Distinct(KeysOf(all))
            && (forall k :: k in KeysOf(all) <==> k in KeysOf(items))
            && (forall i :: 0 <= i < |all| ==> IsTheLast(items, all[i]))
  {
    var all := split.unseen + split.processed;
    assert KeysOf(all) == checked.unseen + checked.processed;
    forall i | 0 <= i < |all|
      ensures IsTheLast(items, all[i])
    {
      if i < |split.unseen| {
        assert all[i] == split.unseen[i];
      } else {
        assert all[i] == split.processed[i - |split.unseen|];
      }
    }
  }

  /** So no two items that come out agree in the property, or lack it both, and each item that
      went in agrees with one of them. */
  lemma OneItemPerProperty(items: seq<Item>, keys: seq<string>, checked: Split<string>, split: Split<Item>)
    requires Lists(keys, items) && Splits(checked, keys)
    requires Looks(items, checked.unseen, split.unseen) && Looks(items, checked.processed, split.processed)
    ensures var all := split.unseen + split.processed;
            && (forall p, q :: 0 <= p < q < |all| ==> all[p].property != all[q].property)
            && (forall i :: 0 <= i < |items| ==> Represented(items[i], all))
  {
    OneItemPerKey(items, keys, checked, split);
    var all := split.unseen + split.processed;
    forall p, q | 0 <= p < q < |all|
      ensures all[p].property != all[q].property
    {
      assert KeysOf(all)[p] != KeysOf(all)[q];
    }
    forall i | 0 <= i < |items|
      ensures Represented(items[i], all)
    {
      assert KeysOf(items)[i] in KeysOf(all);
      var p :| 0 <= p < |all| && KeysOf(all)[p] == KeysOf(items)[i];
      SameKeyExactlyWhen(all[p], items[i]);
    }
  }

  /** Nothing is both new and processed. */
  lemma NewOrProcessed(items: seq<Item>, keys: seq<string>, checked: Split<string>, split: Split<Item>, i: nat, j: nat)
    requires Lists(keys, items) && Splits(checked, keys)
    requires Looks(items, checked.unseen, split.unseen) && Looks(items, checked.processed, split.processed)
    requires i < |split.unseen| && j < |split.processed|
    ensures KeyOf(split.unseen[i]) != KeyOf(split.processed[j])
  {
    OneItemPerKey(items, keys, checked, split);
    var all := split.unseen + split.processed;
    assert KeysOf(all)[i] == KeyOf(split.unseen[i]) && KeysOf(all)[|split.unseen| + j] == KeyOf(split.processed[j]);
  }

  /** As many items come out as there are different keys. */
  lemma AsManyAsKeys(items: seq<Item>, keys: seq<string>, checked: Split<string>, split: Split<Item>)
    requires Lists(keys, items) && Splits(checked, keys)
    requires Looks(items, checked.unseen, split.unseen) && Looks(items, checked.processed, split.processed)
    ensures |split.unseen| + |split.processed| == |set k | k in KeysOf(items)|
  {
    OneItemPerKey(items, keys, checked, split);
    var all := KeysOf(split.unseen + split.processed);
    assert (set k | k in KeysOf(items)) == set k | k in all;
    CountDistinct(all);
  }

  lemma {:induction false} CountDistinct(keys: seq<string>)
    requires Distinct(keys)
    ensures |set k | k in keys| == |keys|
  {
    if keys != [] {
      var init, last := keys[..|keys| - 1], keys[|keys| - 1];
      CountDistinct(init);
      assert keys == init + [last];
      assert (set k | k in keys) == (set k | k in init) + {last};
    }
  }

  /** No later item lacks the property. */
  ghost predicate IsLastLacking(items: seq<Item>, item: Item) {
    exists i :: 0 <= i < |items| && items[i] == item && items[i].property.None?
                && forall j :: i < j < |items| ==> items[j].property.Some?
  }

  /** Items lacking the property are one to the deduplicator: of all of them, the last comes
      out, and no other, new or processed. */
  lemma LackingItemsShareAKey(items: seq<Item>, keys: seq<string>, checked: Split<string>, split: Split<Item>)
    requires Lists(keys, items) && Splits(checked, keys)
    requires Looks(items, checked.unseen, split.unseen) && Looks(items, checked.processed, split.processed)
    ensures var all := split.unseen + split.processed;
            && (forall p, q :: 0 <= p < q < |all| ==> all[p].property.Some? || all[q].property.Some?)
            && (forall p :: 0 <= p < |all| && all[p].property.None? ==> IsLastLacking(items, all[p]))
            && ((exists p :: 0 <= p < |all| && all[p].property.None?) <==>
                (exists i :: 0 <= i < |items| && items[i].property.None?))
  {
    OneItemPerKey(items, keys, checked, split);
    var all := split.unseen + split.processed;
    forall p, q | 0 <= p < q < |all|
      ensures all[p].property.Some? || all[q].property.Some?
    {
      assert KeysOf(all)[p] != KeysOf(all)[q];
    }
    forall p | 0 <= p < |all| && all[p].property.None?
      ensures IsLastLacking(items, all[p])
    {
      var i: nat :| IsLast(items, i) && items[i] == all[p];
      assert forall j :: i < j < |items| ==> KeyOf(items[j]) != "";
    }
    KeyOccurs(items);
    KeyOccurs(all);
  }

  lemma KeyOccurs(items: seq<Item>)
    ensures "" in KeysOf(items) <==> exists i :: 0 <= i < |items| && items[i].property.None?
  {
    if "" in KeysOf(items) {
      var i :| 0 <= i < |items| && KeysOf(items)[i] == "";
      assert items[i].property.None?;
    }
    if i :| 0 <= i < |items| && items[i].property.None? {
      assert KeysOf(items)[i] == "";
    }
  }
}
