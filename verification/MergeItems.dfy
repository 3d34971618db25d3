/** Merging catalog rows with live discoveries
    (platform/backend/app/search/application.py). */
module MergeItems {

  /** An item by its cache key, the repository identities of its URLs, and
      whatever else it carries. */
  datatype Item = Item(key: string, identities: set<string>, content: nat)

  /** The ordered dictionary as its list of slots, and the owner of each
      repository identity. A slot's item always has the slot's key. */
  datatype Merge = Merge(slots: seq<Item>, owner: map<string, string>)

  const EMPTY_MERGE := Merge([], map[])

  function Keys(slots: seq<Item>): seq<string> {
    seq(|slots|, i requires 0 <= i < |slots| => slots[i].key)
  }

  function SlotOf(slots: seq<Item>, key: string): (i: nat)
    ensures i <= |slots|
    ensures i < |slots| ==> slots[i].key == key
    ensures i == |slots| <==> key !in Keys(slots)
  {
    if slots == [] then 0
    else if slots[0].key == key then
      assert Keys(slots)[0] == key;
      0
    else
      assert Keys(slots) == [slots[0].key] + Keys(slots[1..]);
      1 + SlotOf(slots[1..], key)
  }

  predicate Owned(m: Merge, item: Item) {
    exists identity :: identity in item.identities && identity in m.owner
  }

  /** `_claim`: a repository already merged drops the item, a known key may be
      refreshed, anything else takes a new slot and its identities. A refreshed
      slot does not take the identities of the item that refreshed it. */
  function Claim(m: Merge, item: Item, preferNew: bool): Merge {
    if Owned(m, item) then m
    else
      var i := SlotOf(m.slots, item.key);
      if i < |m.slots| then
        if preferNew then m.(slots := m.slots[i := item]) else m
      else
        Merge(m.slots + [item],
              map id | id in m.owner.Keys + item.identities :: if id in m.owner then m.owner[id] else item.key)
  }

  function ClaimAll(m: Merge, items: seq<Item>, preferNew: bool): Merge {
    if items == [] then m
    else Claim(ClaimAll(m, items[..|items| - 1], preferNew), items[|items| - 1], preferNew)
  }

  function Merged(cached: seq<Item>, live: seq<Item>): Merge {
    ClaimAll(ClaimAll(EMPTY_MERGE, cached, false), live, true)
  }

  /** `_merge_items`: the two claiming loops over the shared dictionaries. */
  method MergeCatalog(cached: seq<Item>, live: seq<Item>) returns (items: seq<Item>)
    ensures items == Merged(cached, live).slots
  {
    var m := EMPTY_MERGE;
    for i := 0 to |cached|
      invariant m == ClaimAll(EMPTY_MERGE, cached[..i], false)
    {
      assert cached[..i + 1][..i] == cached[..i];
      m := Claim(m, cached[i], false);
    }
    assert cached[..|cached|] == cached;
    ghost var base := m;
    for i := 0 to |live|
      invariant m == ClaimAll(base, live[..i], true)
    {
      assert live[..i + 1][..i] == live[..i];
      m := Claim(m, live[i], true);
    }
    assert live[..|live|] == live;
    items := m.slots;
  }

  // ---- what claiming keeps ------------------------------------------------

  predicate DistinctKeys(slots: seq<Item>) {
    forall i, j :: 0 <= i < j < |slots| ==> slots[i].key != slots[j].key
  }

  /** Every owned identity is owned by a slot. */
  predicate OwnersPresent(m: Merge) {
    forall id :: id in m.owner ==> m.owner[id] in Keys(m.slots)
  }

  predicate MergeOk(m: Merge) {
    DistinctKeys(m.slots) && OwnersPresent(m)
  }

  /** Slots keep their place and their key. */
  predicate Extends(before: Merge, after: Merge) {
    && |before.slots| <= |after.slots|
    && forall i :: 0 <= i < |before.slots| ==> after.slots[i].key == before.slots[i].key
  }

  lemma KeysAt(slots: seq<Item>, key: string)
    ensures key in Keys(slots) <==> exists i :: 0 <= i < |slots| && slots[i].key == key
  {
    if i :| 0 <= i < |slots| && slots[i].key == key {
      assert Keys(slots)[i] == key;
    }
  }

  lemma ClaimKeeps(m: Merge, item: Item, preferNew: bool)
    requires MergeOk(m)
    ensures var after := Claim(m, item, preferNew);
            && MergeOk(after) && Extends(m, after)
            && (forall id :: id in m.owner ==> id in after.owner && after.owner[id] == m.owner[id])
  {
    var after := Claim(m, item, preferNew);
    forall i | 0 <= i < |m.slots| ensures after.slots[i].key == m.slots[i].key {}
    assert |after.slots| > |m.slots| ==> item.key !in Keys(m.slots) && after.slots == m.slots + [item];
    forall i | 0 <= i < |m.slots| && |after.slots| > |m.slots| ensures m.slots[i].key != item.key {
      assert Keys(m.slots)[i] == m.slots[i].key;
    }
    forall id | id in after.owner ensures after.owner[id] in Keys(after.slots) {
      if id in m.owner {
        KeysAt(m.slots, m.owner[id]);
        KeysAt(after.slots, m.owner[id]);
      } else {
        assert after.slots[|m.slots|].key == item.key;
        KeysAt(after.slots, item.key);
      }
    }
  }

  lemma {:induction false} ClaimAllKeeps(m: Merge, items: seq<Item>, preferNew: bool)
    requires MergeOk(m)
    ensures var after := ClaimAll(m, items, preferNew);
            && MergeOk(after) && Extends(m, after)
            && (forall id :: id in m.owner ==> id in after.owner && after.owner[id] == m.owner[id])
    decreases |items|
  {
    if items != [] {
      var n := |items| - 1;
      ClaimAllKeeps(m, items[..n], preferNew);
      ClaimKeeps(ClaimAll(m, items[..n], preferNew), items[n], preferNew);
    }
  }

  /** Where a slot's item comes from. */
  predicate SlotsFrom(m: Merge, base: seq<Item>, items: seq<Item>) {
    forall i :: 0 <= i < |m.slots| ==>
      (i < |base| && m.slots[i] == base[i])
      || exists j :: 0 <= j < |items| && m.slots[i] == items[j]
  }

  lemma {:induction false} ClaimAllFrom(m: Merge, items: seq<Item>, preferNew: bool)
    ensures SlotsFrom(ClaimAll(m, items, preferNew), m.slots, items)
    ensures !preferNew ==> m.slots <= ClaimAll(m, items, preferNew).slots
    decreases |items|
  {
    if items != [] {
      var n := |items| - 1;
      var before := ClaimAll(m, items[..n], preferNew);
      ClaimAllFrom(m, items[..n], preferNew);
      var after := ClaimAll(m, items, preferNew);
      forall i | 0 <= i < |after.slots| && !(i < |m.slots| && after.slots[i] == m.slots[i])
        ensures exists j :: 0 <= j < |items| && after.slots[i] == items[j]
      {
        if i < |before.slots| && after.slots[i] == before.slots[i] {
          var j :| 0 <= j < |items[..n]| && before.slots[i] == items[..n][j];
          assert items[j] == after.slots[i];
        } else {
          assert after.slots[i] == items[n];
        }
      }
    }
  }

  /** An item is represented: its key has a slot, or one of its repositories
      belongs to one. */
  predicate Represented(m: Merge, item: Item) {
    || item.key in Keys(m.slots)
    || exists id :: id in item.identities && id in m.owner && m.owner[id] in Keys(m.slots)
  }

  lemma ExtendsRepresents(m: Merge, after: Merge, item: Item)
    requires MergeOk(m) && MergeOk(after) && Extends(m, after) && Represented(m, item)
    requires forall id :: id in m.owner ==> id in after.owner && after.owner[id] == m.owner[id]
    ensures Represented(after, item)
  {
    if item.key in Keys(m.slots) {
      KeysAt(m.slots, item.key);
      var i :| 0 <= i < |m.slots| && m.slots[i].key == item.key;
      assert after.slots[i].key == item.key;
      KeysAt(after.slots, item.key);
    } else {
      var id :| id in item.identities && id in m.owner && m.owner[id] in Keys(m.slots);
      assert after.owner[id] in Keys(after.slots);
    }
  }

  lemma ClaimRepresents(m: Merge, item: Item, preferNew: bool)
    requires MergeOk(m)
    ensures Represented(Claim(m, item, preferNew), item)
  {
    ClaimKeeps(m, item, preferNew);
    var after := Claim(m, item, preferNew);
    if !Owned(m, item) {
      assert SlotOf(m.slots, item.key) == |m.slots| ==> after.slots[|m.slots|].key == item.key;
      KeysAt(after.slots, item.key);
    }
  }

  lemma {:induction false} ClaimAllRepresents(m: Merge, items: seq<Item>, preferNew: bool, item: Item)
    requires MergeOk(m)
    requires item in items || Represented(m, item)
    ensures Represented(ClaimAll(m, items, preferNew), item)
    decreases |items|
  {
    if items != [] {
      var n := |items| - 1;
      var before := ClaimAll(m, items[..n], preferNew);
      ClaimAllKeeps(m, items[..n], preferNew);
      if item == items[n] {
        ClaimRepresents(before, item, preferNew);
      } else {
        assert items == items[..n] + [items[n]];
        ClaimAllRepresents(m, items[..n], preferNew, item);
        ClaimKeeps(before, items[n], preferNew);
        ExtendsRepresents(before, ClaimAll(m, items, preferNew), item);
      }
    }
  }

  /** Nothing vanishes: every input is represented in the merged list by its
      key or by the owner of one of its repositories. */
  lemma NothingLost(cached: seq<Item>, live: seq<Item>, item: Item)
    requires item in cached || item in live
    ensures Represented(Merged(cached, live), item)
  {
    ClaimAllKeeps(EMPTY_MERGE, cached, false);
    if item in cached {
      ClaimAllRepresents(EMPTY_MERGE, cached, false, item);
    }
    ClaimAllRepresents(ClaimAll(EMPTY_MERGE, cached, false), live, true, item);
  }

  // ---- who owns a repository ----------------------------------------------

  predicate DisjointIdentities(slots: seq<Item>) {
    forall i, j :: 0 <= i < j < |slots| ==> slots[i].identities !! slots[j].identities
  }

  /** Every identity of a slot's item is registered, to that slot. */
  predicate Registered(m: Merge) {
    forall i :: 0 <= i < |m.slots| ==>
      forall id :: id in m.slots[i].identities ==> id in m.owner && m.owner[id] == m.slots[i].key
  }

  /** Only slots own identities. */
  predicate OwnedBySlots(m: Merge) {
    forall id :: id in m.owner ==> exists i :: 0 <= i < |m.slots| && id in m.slots[i].identities
  }

  lemma RegisteredDisjoint(m: Merge)
    requires MergeOk(m) && Registered(m)
    ensures DisjointIdentities(m.slots)
  {
    forall i, j | 0 <= i < j < |m.slots| ensures m.slots[i].identities !! m.slots[j].identities {
      assert m.slots[i].key != m.slots[j].key;
    }
  }

  /** A claim that refreshes a slot, with repositories of its own. */
  predicate RefreshesUnregistered(m: Merge, item: Item) {
    !Owned(m, item) && item.key in Keys(m.slots) && item.identities != {}
  }

  /** Registration survives a claim exactly when the claim is not such a
      refresh. */
  lemma ClaimRegisteredIff(m: Merge, item: Item, preferNew: bool)
    requires MergeOk(m) && Registered(m)
    ensures Registered(Claim(m, item, preferNew)) <==> !(preferNew && RefreshesUnregistered(m, item))
  {
    var after := Claim(m, item, preferNew);
    var i := SlotOf(m.slots, item.key);
    if !Owned(m, item) && i < |m.slots| && preferNew && item.identities != {} {
      var id :| id in item.identities;
      assert after.slots[i] == item && id !in after.owner;
    }
    if !Owned(m, item) && i == |m.slots| {
      forall k, id | 0 <= k < |after.slots| && id in after.slots[k].identities
        ensures id in after.owner && after.owner[id] == after.slots[k].key
      {
        if k < |m.slots| {
          assert after.slots[k] == m.slots[k];
        }
      }
    }
  }

  lemma {:induction false} CatalogRegistered(m: Merge, items: seq<Item>)
    requires MergeOk(m) && Registered(m)
    ensures MergeOk(ClaimAll(m, items, false)) && Registered(ClaimAll(m, items, false))
    decreases |items|
  {
    if items != [] {
      var n := |items| - 1;
      CatalogRegistered(m, items[..n]);
      ClaimKeeps(ClaimAll(m, items[..n], false), items[n], false);
      ClaimRegisteredIff(ClaimAll(m, items[..n], false), items[n], false);
    }
  }

  lemma {:induction false} ClaimAllFront(m: Merge, items: seq<Item>, preferNew: bool)
    requires items != []
    ensures ClaimAll(m, items, preferNew) == ClaimAll(Claim(m, items[0], preferNew), items[1..], preferNew)
    decreases |items|
  {
    hide Claim;
    var n := |items| - 1;
    if n > 0 {
      ClaimAllFront(m, items[..n], preferNew);
      assert items[..n][1..] == items[1..][..n - 1];
    } else {
      assert items[..0] == [];
      assert ClaimAll(m, items[..0], preferNew) == m;
    }
  }

  // ---- catalog alone ------------------------------------------------------

  lemma FreshClaim(m: Merge, items: seq<Item>)
    requires items != [] && OwnedBySlots(m)
    requires DistinctKeys(m.slots + items) && DisjointIdentities(m.slots + items)
    ensures var next := Claim(m, items[0], false); next.slots == m.slots + [items[0]] && OwnedBySlots(next)
  {
    var all, item := m.slots + items, items[0];
    assert all[|m.slots|] == item;
    forall i | 0 <= i < |m.slots| ensures m.slots[i].identities !! item.identities && m.slots[i].key != item.key {
      assert all[i] == m.slots[i];
    }
    KeysAt(m.slots, item.key);
    var next := Claim(m, item, false);
    forall id | id in next.owner ensures exists i :: 0 <= i < |next.slots| && id in next.slots[i].identities {
      if id in m.owner {
        var i :| 0 <= i < |m.slots| && id in m.slots[i].identities;
        assert next.slots[i] == m.slots[i];
      } else {
        assert next.slots[|m.slots|] == item;
      }
    }
  }

  lemma {:induction false} ReclaimFresh(m: Merge, items: seq<Item>)
    requires MergeOk(m) && Registered(m)
    requires DistinctKeys(m.slots + items) && DisjointIdentities(m.slots + items)
    requires OwnedBySlots(m)
    ensures ClaimAll(m, items, false).slots == m.slots + items
    decreases |items|
  {
    if items == [] {
      assert m.slots + items == m.slots;
    } else {
      var item := items[0];
      FreshClaim(m, items);
      ClaimAllFront(m, items, false);
      ClaimKeeps(m, item, false);
      ClaimRegisteredIff(m, item, false);
      assert m.slots + [item] + items[1..] == m.slots + items;
      ReclaimFresh(Claim(m, item, false), items[1..]);
    }
  }

  /** Without live items: keys distinct, repositories disjoint, only catalog
      rows; and merging the result again changes nothing. */
  lemma CatalogMergeIdempotent(cached: seq<Item>)
    ensures var once := Merged(cached, []).slots;
            && DistinctKeys(once) && DisjointIdentities(once)
            && (forall i :: 0 <= i < |once| ==> once[i] in cached)
            && Merged(once, []).slots == once
  {
    var m := ClaimAll(EMPTY_MERGE, cached, false);
    var once := Merged(cached, []).slots;
    assert Merged(cached, []) == m;
    ClaimAllKeeps(EMPTY_MERGE, cached, false);
    ClaimAllFrom(EMPTY_MERGE, cached, false);
    CatalogRegistered(EMPTY_MERGE, cached);
    RegisteredDisjoint(m);
    assert EMPTY_MERGE.slots + once == once;
    hide ClaimAll, Claim, DistinctKeys, DisjointIdentities;
    ReclaimFresh(EMPTY_MERGE, once);
  }
}
