/** What merging catalog and live items comes to, for every catalog and every
    live list (platform/backend/app/search/application.py). */
module MergeOutcome {
  import opened Wrappers
  import opened MergeItems

  // ---- which items open a slot --------------------------------------------

  function IdentitiesOf(slots: seq<Item>): set<string> {
    set i, id | 0 <= i < |slots| && id in slots[i].identities :: id
  }

  /** An item whose key and whose repositories are all new. */
  predicate New(slots: seq<Item>, item: Item) {
    item.key !in Keys(slots) && item.identities !! IdentitiesOf(slots)
  }

  /** Of the first `n` items those that open a slot, in order. */
  function Openers(items: seq<Item>, n: nat): seq<Item>
    requires n <= |items|
  {
    if n == 0 then []
    else
      var before := Openers(items, n - 1);
      if New(before, items[n - 1]) then before + [items[n - 1]] else before
  }

  predicate Opens(items: seq<Item>, j: nat)
    requires j < |items|
  {
    New(Openers(items, j), items[j])
  }

  /** First-claim order: the openers by position in the input. */
  lemma {:induction false} OpenersInOrder(items: seq<Item>, n: nat) returns (at: seq<nat>)
    requires n <= |items|
    ensures |at| == |Openers(items, n)|
    ensures forall i :: 0 <= i < |at| ==> at[i] < n && items[at[i]] == Openers(items, n)[i]
    ensures forall i, j :: 0 <= i < j < |at| ==> at[i] < at[j]
    ensures forall j :: 0 <= j < n ==> (j in at <==> Opens(items, j))
  {
    hide New;
    if n == 0 {
      at := [];
    } else {
      at := OpenersInOrder(items, n - 1);
      if Opens(items, n - 1) {
        at := at + [n - 1];
      }
    }
  }

  lemma IdentitiesAppend(slots: seq<Item>, item: Item)
    ensures IdentitiesOf(slots + [item]) == IdentitiesOf(slots) + item.identities
  {
    var all := slots + [item];
    forall id | id in IdentitiesOf(slots) ensures id in IdentitiesOf(all) {
      var i :| 0 <= i < |slots| && id in slots[i].identities;
      assert all[i] == slots[i];
    }
    forall id | id in item.identities ensures id in IdentitiesOf(all) {
      assert all[|slots|] == item;
    }
  }

  lemma KeysAppend(slots: seq<Item>, item: Item)
    ensures Keys(slots + [item]) == Keys(slots) + [item.key]
  {
  }

  /** A merge that has the keys of these slots and owns their repositories. */
  predicate Stands(m: Merge, slots: seq<Item>) {
    Keys(m.slots) == Keys(slots) && m.owner.Keys == IdentitiesOf(slots)
  }

  /** Claiming keeps that, whether or not it refreshes. */
  lemma ClaimStands(m: Merge, slots: seq<Item>, item: Item, preferNew: bool)
    requires Stands(m, slots)
    ensures Stands(Claim(m, item, preferNew), if New(slots, item) then slots + [item] else slots)
    ensures Owned(m, item) <==> !(item.identities !! IdentitiesOf(slots))
    ensures !preferNew && m.slots == slots ==>
              Claim(m, item, preferNew).slots == if New(slots, item) then slots + [item] else slots
  {
    IdentitiesAppend(slots, item);
    KeysAppend(slots, item);
    KeysAppend(m.slots, item);
    var i := SlotOf(m.slots, item.key);
    if i < |m.slots| {
      assert Keys(m.slots[i := item]) == Keys(m.slots);
    }
  }

  lemma {:induction false} CatalogOpens(cached: seq<Item>, all: seq<Item>, n: nat)
    requires n <= |cached| && cached <= all
    ensures var m := ClaimAll(EMPTY_MERGE, cached[..n], false); m.slots == Openers(all, n) && Stands(m, Openers(all, n))
  {
    if n > 0 {
      CatalogOpens(cached, all, n - 1);
      assert cached[..n][..n - 1] == cached[..n - 1];
      var m := ClaimAll(EMPTY_MERGE, cached[..n - 1], false);
      assert ClaimAll(EMPTY_MERGE, cached[..n], false) == Claim(m, all[n - 1], false);
      ClaimStands(m, Openers(all, n - 1), all[n - 1], false);
      hide Claim, ClaimAll, New, Stands;
    }
  }

  // ---- the live loop ------------------------------------------------------

  /** The merge after the catalog and the first `n` live items. */
  function MergedUpTo(cached: seq<Item>, live: seq<Item>, n: nat): Merge
    requires n <= |live|
  {
    if n == 0 then ClaimAll(EMPTY_MERGE, cached, false)
    else Claim(MergedUpTo(cached, live, n - 1), live[n - 1], true)
  }

  lemma {:induction false} MergedUpToAll(cached: seq<Item>, live: seq<Item>, n: nat)
    requires n <= |live|
    ensures MergedUpTo(cached, live, n) == ClaimAll(ClaimAll(EMPTY_MERGE, cached, false), live[..n], true)
  {
    if n > 0 {
      MergedUpToAll(cached, live, n - 1);
      assert live[..n][..n - 1] == live[..n - 1];
    }
  }

  lemma MergedWhole(cached: seq<Item>, live: seq<Item>)
    ensures MergedUpTo(cached, live, |live|) == Merged(cached, live)
  {
    MergedUpToAll(cached, live, |live|);
    assert live[..|live|] == live;
  }

  lemma {:induction false} MergedOk(cached: seq<Item>, live: seq<Item>, n: nat)
    requires n <= |live|
    ensures MergeOk(MergedUpTo(cached, live, n))
  {
    if n == 0 {
      ClaimAllKeeps(EMPTY_MERGE, cached, false);
    } else {
      MergedOk(cached, live, n - 1);
      ClaimKeeps(MergedUpTo(cached, live, n - 1), live[n - 1], true);
    }
  }

  /** The items that opened a slot of the catalog or before the `j`th live item. */
  function OpenersBefore(cached: seq<Item>, live: seq<Item>, j: nat): seq<Item>
    requires j <= |live|
  {
    Openers(cached + live, |cached| + j)
  }

  /** Which repositories are owned after any prefix: those of the items that
      opened a slot, refreshed or not. */
  lemma {:induction false} OwnersAreOpeners(cached: seq<Item>, live: seq<Item>, n: nat)
    requires n <= |live|
    ensures var m := MergedUpTo(cached, live, n);
            && m.owner.Keys == IdentitiesOf(OpenersBefore(cached, live, n))
            && Keys(m.slots) == Keys(OpenersBefore(cached, live, n))
  {
    var all := cached + live;
    if n == 0 {
      CatalogOpens(cached, all, |cached|);
      assert cached[..|cached|] == cached;
    } else {
      OwnersAreOpeners(cached, live, n - 1);
      assert all[|cached| + n - 1] == live[n - 1];
      ClaimStands(MergedUpTo(cached, live, n - 1), OpenersBefore(cached, live, n - 1), live[n - 1], true);
    }
  }

  /** The live item at `j` takes its slot: its repositories avoid those of every
      item that opened a slot before it. */
  predicate Takes(cached: seq<Item>, live: seq<Item>, j: nat)
    requires j < |live|
  {
    live[j].identities !! IdentitiesOf(OpenersBefore(cached, live, j))
  }

  /** A live item takes its slot, new or known, exactly if it is not dropped for
      a repository, and otherwise changes nothing. */
  lemma TakesIff(cached: seq<Item>, live: seq<Item>, j: nat)
    requires j < |live|
    ensures var before, after := MergedUpTo(cached, live, j), MergedUpTo(cached, live, j + 1);
            if Takes(cached, live, j) then live[j] in after.slots && !Owned(before, live[j])
            else after == before && Owned(before, live[j])
  {
    OwnersAreOpeners(cached, live, j);
    hide OpenersBefore, IdentitiesOf;
    var before, after := MergedUpTo(cached, live, j), MergedUpTo(cached, live, j + 1);
    if !Owned(before, live[j]) {
      assert after.slots[SlotOf(before.slots, live[j].key)] == live[j];
    }
  }

  lemma OpenersStep(cached: seq<Item>, live: seq<Item>, n: nat)
    requires n < |live|
    ensures OpenersBefore(cached, live, n + 1) ==
            if Takes(cached, live, n) && live[n].key !in Keys(OpenersBefore(cached, live, n))
            then OpenersBefore(cached, live, n) + [live[n]] else OpenersBefore(cached, live, n)
  {
    assert (cached + live)[|cached| + n] == live[n];
  }

  /** The last of the first `n` live items that takes the slot of a key. */
  function LastTaker(cached: seq<Item>, live: seq<Item>, key: string, n: nat): (j: Option<nat>)
    requires n <= |live|
    ensures j.Some? ==>
              && j.value < n && live[j.value].key == key && Takes(cached, live, j.value)
              && forall k :: j.value < k < n && live[k].key == key ==> !Takes(cached, live, k)
    ensures j.None? ==> forall k :: 0 <= k < n && live[k].key == key ==> !Takes(cached, live, k)
  {
    hide Takes;
    if n == 0 then None
    else if live[n - 1].key == key && Takes(cached, live, n - 1) then Some(n - 1)
    else LastTaker(cached, live, key, n - 1)
  }

  function ContentOf(cached: seq<Item>, live: seq<Item>, opener: Item, n: nat): Item
    requires n <= |live|
  {
    match LastTaker(cached, live, opener.key, n)
    case Some(j) => live[j]
    case None => opener
  }

  lemma ContentNext(cached: seq<Item>, live: seq<Item>, opener: Item, n: nat)
    requires n < |live|
    ensures ContentOf(cached, live, opener, n + 1)
            == if live[n].key == opener.key && Takes(cached, live, n) then live[n]
               else ContentOf(cached, live, opener, n)
  {
    hide Takes;
  }

  predicate Holds(cached: seq<Item>, live: seq<Item>, n: nat, slots: seq<Item>)
    requires n <= |live|
  {
    var openers := OpenersBefore(cached, live, n);
    |slots| == |openers| && forall i :: 0 <= i < |slots| ==> slots[i] == ContentOf(cached, live, openers[i], n)
  }

  /** What each slot holds, for every catalog and every live list: the last live
      item of its key that takes it, else the item that opened it. */
  lemma {:induction false} SlotContents(cached: seq<Item>, live: seq<Item>, n: nat)
    requires n <= |live|
    ensures Holds(cached, live, n, MergedUpTo(cached, live, n).slots)
  {
    hide *;
    if n == 0 {
      CatalogContents(cached, live);
    } else {
      SlotContents(cached, live, n - 1);
      OwnersAreOpeners(cached, live, n - 1);
      DistinctUpTo(cached, live, n - 1);
      OwnedUpTo(cached, live, n - 1);
      ContentStep(cached, live, n - 1, MergedUpTo(cached, live, n - 1));
      UpToStep(cached, live, n - 1);
    }
  }

  lemma CatalogContents(cached: seq<Item>, live: seq<Item>)
    ensures Holds(cached, live, 0, MergedUpTo(cached, live, 0).slots)
  {
    CatalogOpens(cached, cached + live, |cached|);
    assert cached[..|cached|] == cached;
  }

  lemma DistinctUpTo(cached: seq<Item>, live: seq<Item>, n: nat)
    requires n <= |live|
    ensures DistinctKeys(MergedUpTo(cached, live, n).slots)
  {
    MergedOk(cached, live, n);
  }

  lemma OwnedUpTo(cached: seq<Item>, live: seq<Item>, n: nat)
    requires n < |live|
    ensures Takes(cached, live, n) <==> !Owned(MergedUpTo(cached, live, n), live[n])
  {
    TakesIff(cached, live, n);
  }

  lemma UpToStep(cached: seq<Item>, live: seq<Item>, n: nat)
    requires n < |live|
    ensures MergedUpTo(cached, live, n + 1) == Claim(MergedUpTo(cached, live, n), live[n], true)
  {
  }

  lemma KeysPointwise(a: seq<Item>, b: seq<Item>)
    requires Keys(a) == Keys(b)
    ensures |a| == |b| && forall i :: 0 <= i < |a| ==> a[i].key == b[i].key
  {
    assert |Keys(a)| == |a| && |Keys(b)| == |b|;
    forall i | 0 <= i < |a| ensures a[i].key == b[i].key {
      assert Keys(a)[i] == Keys(b)[i];
    }
  }

  lemma ContentStep(cached: seq<Item>, live: seq<Item>, n: nat, before: Merge)
    requires n < |live| && Holds(cached, live, n, before.slots)
    requires Keys(before.slots) == Keys(OpenersBefore(cached, live, n)) && DistinctKeys(before.slots)
    requires Takes(cached, live, n) <==> !Owned(before, live[n])
    ensures Holds(cached, live, n + 1, Claim(before, live[n], true).slots)
  {
    OpenersStep(cached, live, n);
    var item, openers, after := live[n], OpenersBefore(cached, live, n), OpenersBefore(cached, live, n + 1);
    KeysPointwise(before.slots, openers);
    var i := SlotOf(before.slots, item.key);
    forall k | 0 <= k < |openers| ensures openers[k].key == item.key <==> k == i {
      assert i == |openers| ==> Keys(before.slots)[k] == openers[k].key;
    }
    hide Takes, OpenersBefore, ContentOf, Owned;
    forall k | 0 <= k < |after|
      ensures k < |Claim(before, item, true).slots|
      ensures Claim(before, item, true).slots[k] == ContentOf(cached, live, after[k], n + 1)
    {
      ContentNext(cached, live, after[k], n);
    }
  }

  // ---- the merged list ----------------------------------------------------

  /** The item that opened a slot, or a live item of the same key. */
  predicate MayHold(opener: Item, live: seq<Item>, item: Item) {
    item.key == opener.key && (item == opener || item in live)
  }

  lemma ContentKinds(cached: seq<Item>, live: seq<Item>, opener: Item)
    ensures MayHold(opener, live, ContentOf(cached, live, opener, |live|))
  {
    hide Takes;
  }

  lemma WholeOpeners(cached: seq<Item>, live: seq<Item>)
    ensures OpenersBefore(cached, live, |live|) == Openers(cached + live, |cached + live|)
  {
  }

  lemma HoldsItems(cached: seq<Item>, live: seq<Item>, slots: seq<Item>)
    requires Holds(cached, live, |live|, slots)
    ensures var openers := OpenersBefore(cached, live, |live|);
            |slots| == |openers| && forall i :: 0 <= i < |slots| ==> MayHold(openers[i], live, slots[i])
  {
    hide OpenersBefore, ContentOf, MayHold;
    var openers := OpenersBefore(cached, live, |live|);
    forall i | 0 <= i < |slots| ensures MayHold(openers[i], live, slots[i]) {
      ContentKinds(cached, live, openers[i]);
    }
  }

  /** The merged list: distinct keys, one slot for each item that opens one, in
      the order of the input, so catalog slots before live-only ones; each slot
      holds its opener or a live item of the same key. */
  lemma MergedShape(cached: seq<Item>, live: seq<Item>) returns (at: seq<nat>)
    ensures var all, merged := cached + live, Merged(cached, live).slots;
            && DistinctKeys(merged) && |at| == |merged|
            && (forall i :: 0 <= i < |at| ==> at[i] < |all| && MayHold(all[at[i]], live, merged[i]))
            && (forall i, j :: 0 <= i < j < |at| ==> at[i] < at[j])
            && (forall j :: 0 <= j < |all| ==> (j in at <==> Opens(all, j)))
  {
    MergedWhole(cached, live);
    DistinctUpTo(cached, live, |live|);
    SlotContents(cached, live, |live|);
    HoldsItems(cached, live, Merged(cached, live).slots);
    WholeOpeners(cached, live);
    hide *;
    at := OpenersInOrder(cached + live, |cached + live|);
  }

  /** The documentation lets a live row win the content of its key. For every
      catalog and every live list, a live row unlike any other does so exactly
      when its repositories avoid those of every item that opened a slot before
      it, its own slot included, and no later row of the key does too. */
  lemma LiveCopyWinsIff(cached: seq<Item>, live: seq<Item>, j: nat)
    requires j < |live| && live[j] !in cached && forall k :: 0 <= k < |live| && k != j ==> live[k] != live[j]
    ensures live[j] in Merged(cached, live).slots <==>
            && Takes(cached, live, j)
            && forall k :: j < k < |live| && live[k].key == live[j].key ==> !Takes(cached, live, k)
  {
    MergedWhole(cached, live);
    SlotContents(cached, live, |live|);
    hide *;
    if live[j] in Merged(cached, live).slots {
      WinnerTakes(cached, live, j, Merged(cached, live).slots);
    }
    if Takes(cached, live, j) && forall k :: j < k < |live| && live[k].key == live[j].key ==> !Takes(cached, live, k) {
      LastTakerWins(cached, live, j, Merged(cached, live).slots);
    }
  }

  lemma WinnerTakes(cached: seq<Item>, live: seq<Item>, j: nat, slots: seq<Item>)
    requires j < |live| && live[j] !in cached && forall k :: 0 <= k < |live| && k != j ==> live[k] != live[j]
    requires Holds(cached, live, |live|, slots) && live[j] in slots
    ensures Takes(cached, live, j)
    ensures forall k :: j < k < |live| && live[k].key == live[j].key ==> !Takes(cached, live, k)
  {
    var openers := OpenersBefore(cached, live, |live|);
    hide OpenersBefore, Takes;
    var i :| 0 <= i < |openers| && ContentOf(cached, live, openers[i], |live|) == live[j];
    if openers[i] == live[j] {
      OpenerFromLive(cached, live, j, i);
    }
  }

  lemma OpenerFromLive(cached: seq<Item>, live: seq<Item>, j: nat, i: nat)
    requires j < |live| && live[j] !in cached && forall k :: 0 <= k < |live| && k != j ==> live[k] != live[j]
    requires var openers := OpenersBefore(cached, live, |live|); i < |openers| && openers[i] == live[j]
    ensures Takes(cached, live, j)
  {
    var all := cached + live;
    assert |cached| + |live| == |all|;
    hide Openers, Opens, Takes;
    var at := OpenersInOrder(all, |all|);
    assert all[at[i]] == live[j] && at[i] in at;
    assert at[i] == |cached| + j;
    OpenerTakes(cached, live, j);
  }

  lemma OpenerTakes(cached: seq<Item>, live: seq<Item>, j: nat)
    requires j < |live| && Opens(cached + live, |cached| + j)
    ensures Takes(cached, live, j)
  {
    assert (cached + live)[|cached| + j] == live[j];
  }

  lemma LastTakerWins(cached: seq<Item>, live: seq<Item>, j: nat, slots: seq<Item>)
    requires j < |live| && Takes(cached, live, j)
    requires forall k :: j < k < |live| && live[k].key == live[j].key ==> !Takes(cached, live, k)
    requires Holds(cached, live, |live|, slots)
    ensures live[j] in slots
  {
    TakenKeyKnown(cached, live, j, |live|);
    var openers := OpenersBefore(cached, live, |live|);
    KeysAt(openers, live[j].key);
    var i :| 0 <= i < |openers| && openers[i].key == live[j].key;
    LastTakerContent(cached, live, j, openers[i]);
    hide OpenersBefore, Takes, Keys, ContentOf;
    assert slots[i] == live[j];
  }

  lemma LastTakerContent(cached: seq<Item>, live: seq<Item>, j: nat, opener: Item)
    requires j < |live| && Takes(cached, live, j) && opener.key == live[j].key
    requires forall k :: j < k < |live| && live[k].key == live[j].key ==> !Takes(cached, live, k)
    ensures ContentOf(cached, live, opener, |live|) == live[j]
  {
    hide Takes;
    assert LastTaker(cached, live, live[j].key, |live|) == Some(j);
  }

  /** The key of an item that takes its slot stays among the keys. */
  lemma {:induction false} TakenKeyKnown(cached: seq<Item>, live: seq<Item>, j: nat, n: nat)
    requires j < n <= |live| && Takes(cached, live, j)
    ensures live[j].key in Keys(OpenersBefore(cached, live, n))
  {
    OpenersStep(cached, live, n - 1);
    hide OpenersBefore, Takes;
    KeysAppend(OpenersBefore(cached, live, n - 1), live[n - 1]);
    if j < n - 1 {
      TakenKeyKnown(cached, live, j, n - 1);
    }
  }

  // ---- one row per repository ---------------------------------------------

  /** An item that takes its slot, and shares a repository with what another
      slot holds. */
  predicate Clashes(m: Merge, item: Item) {
    && !Owned(m, item)
    && exists k :: 0 <= k < |m.slots| && m.slots[k].key != item.key && !(m.slots[k].identities !! item.identities)
  }

  /** A live claim breaks the rule of one row a repository exactly by such a
      clash, in every merge that still obeys it. */
  lemma ClaimDisjointIff(m: Merge, item: Item)
    requires MergeOk(m) && DisjointIdentities(m.slots)
    ensures DisjointIdentities(Claim(m, item, true).slots) <==> !Clashes(m, item)
  {
    var after := Claim(m, item, true).slots;
    var i := SlotOf(m.slots, item.key);
    if !Owned(m, item) {
      assert after[i] == item && forall k :: 0 <= k < |m.slots| && k != i ==> after[k] == m.slots[k];
      forall k | 0 <= k < |m.slots| ensures m.slots[k].key != item.key <==> k != i {
        assert i == |m.slots| ==> item.key !in Keys(m.slots) && Keys(m.slots)[k] == m.slots[k].key;
      }
      if Clashes(m, item) {
        var k :| 0 <= k < |m.slots| && m.slots[k].key != item.key && !(m.slots[k].identities !! item.identities);
        assert after[k] == m.slots[k] && !(after[k].identities !! after[i].identities);
      }
    }
  }

  /** After `n` live items no two slots share a repository. */
  predicate OneRowEach(cached: seq<Item>, live: seq<Item>, n: nat)
    requires n <= |live|
  {
    DisjointIdentities(MergedUpTo(cached, live, n).slots)
  }

  predicate ClashesAt(cached: seq<Item>, live: seq<Item>, j: nat)
    requires j < |live|
  {
    Clashes(MergedUpTo(cached, live, j), live[j])
  }

  /** No merge on the way ever has two rows of one repository, if and only if no
      live item clashes on its way in. */
  lemma {:induction false} OneRowThroughoutIff(cached: seq<Item>, live: seq<Item>, n: nat)
    requires n <= |live|
    ensures (forall k :: 0 <= k <= n ==> OneRowEach(cached, live, k))
            <==> (forall j :: 0 <= j < n ==> !ClashesAt(cached, live, j))
  {
    hide *;
    if n == 0 {
      CatalogOneRow(cached, live);
    } else {
      OneRowThroughoutIff(cached, live, n - 1);
      OneRowStep(cached, live, n - 1);
      assert OneRowEach(cached, live, n - 1) ==> (OneRowEach(cached, live, n) <==> !ClashesAt(cached, live, n - 1));
    }
  }

  lemma CatalogOneRow(cached: seq<Item>, live: seq<Item>)
    ensures OneRowEach(cached, live, 0)
  {
    CatalogRegistered(EMPTY_MERGE, cached);
    RegisteredDisjoint(ClaimAll(EMPTY_MERGE, cached, false));
  }

  lemma OneRowStep(cached: seq<Item>, live: seq<Item>, n: nat)
    requires n < |live|
    ensures OneRowEach(cached, live, n) ==> (OneRowEach(cached, live, n + 1) <==> !ClashesAt(cached, live, n))
  {
    MergedOk(cached, live, n);
    UpToStep(cached, live, n);
    hide MergedUpTo, DisjointIdentities, Clashes, Claim;
    if OneRowEach(cached, live, n) {
      ClaimDisjointIff(MergedUpTo(cached, live, n), live[n]);
    }
  }

  /** The item at this position of catalog and live list is in the list
      returned: a catalog item that opened its slot and was never refreshed, or
      the last live item to take its slot. */
  predicate Stays(cached: seq<Item>, live: seq<Item>, a: nat)
    requires a < |cached| + |live|
  {
    if a < |cached| then
      Opens(cached + live, a) && forall k :: 0 <= k < |live| && live[k].key == cached[a].key ==> !Takes(cached, live, k)
    else
      var j := a - |cached|;
      Takes(cached, live, j) && forall k :: j < k < |live| && live[k].key == live[j].key ==> !Takes(cached, live, k)
  }

  /** What opened a slot before a position is among the openers there. */
  lemma {:induction false} OpenerKept(items: seq<Item>, a: nat, b: nat)
    requires a < b <= |items| && Opens(items, a)
    ensures items[a].key in Keys(Openers(items, b)) && items[a].identities <= IdentitiesOf(Openers(items, b))
  {
    var before := Openers(items, b - 1);
    KeysAppend(before, items[b - 1]);
    IdentitiesAppend(before, items[b - 1]);
    if a < b - 1 {
      OpenerKept(items, a, b - 1);
    } else {
      assert (Keys(before) + [items[a].key])[|before|] == items[a].key;
    }
  }

  /** An item that stays avoids the repositories of all openers before it. */
  lemma StaysAvoids(cached: seq<Item>, live: seq<Item>, a: nat)
    requires a < |cached| + |live| && Stays(cached, live, a)
    ensures (cached + live)[a].identities !! IdentitiesOf(Openers(cached + live, a))
  {
  }

  lemma OneStaysPerKey(cached: seq<Item>, live: seq<Item>, a: nat, b: nat)
    requires a < b < |cached| + |live| && Stays(cached, live, a) && Stays(cached, live, b)
    ensures (cached + live)[a].key != (cached + live)[b].key
  {
    if b < |cached| {
      OpenerKept(cached + live, a, b);
    }
    hide Takes, Opens;
  }

  /** Every slot of the merged list holds an item that stays. */
  lemma SlotStays(cached: seq<Item>, live: seq<Item>, i: nat) returns (a: nat)
    requires i < |Merged(cached, live).slots|
    ensures a < |cached| + |live| && Stays(cached, live, a) && (cached + live)[a] == Merged(cached, live).slots[i]
  {
    var all, slots := cached + live, Merged(cached, live).slots;
    MergedWhole(cached, live);
    SlotContents(cached, live, |live|);
    WholeOpeners(cached, live);
    hide Merged, MergedUpTo, Openers, Opens, Takes, OpenersBefore;
    var at := OpenersInOrder(all, |all|);
    var opener := all[at[i]];
    match LastTaker(cached, live, opener.key, |live|) {
      case Some(j) => a := |cached| + j;
      case None =>
        a := at[i];
        assert at[i] in at;
        LiveOpenerTakes(cached, live, a);
    }
  }

  lemma LiveOpenerTakes(cached: seq<Item>, live: seq<Item>, a: nat)
    requires a < |cached| + |live| && Opens(cached + live, a)
    ensures a >= |cached| ==> Takes(cached, live, a - |cached|)
    ensures a < |cached| ==> (cached + live)[a] == cached[a]
    ensures a >= |cached| ==> (cached + live)[a] == live[a - |cached|]
  {
    if a >= |cached| {
      OpenerTakes(cached, live, a - |cached|);
    }
  }

  /** And every item that stays is in the merged list. */
  lemma StaysInSlot(cached: seq<Item>, live: seq<Item>, a: nat)
    requires a < |cached| + |live| && Stays(cached, live, a)
    ensures (cached + live)[a] in Merged(cached, live).slots
  {
    MergedWhole(cached, live);
    SlotContents(cached, live, |live|);
    var slots := Merged(cached, live).slots;
    if a < |cached| {
      WholeOpeners(cached, live);
      OpenerStays(cached, live, a, slots);
    } else {
      hide Merged, MergedUpTo, Holds, Takes;
      LastTakerWins(cached, live, a - |cached|, slots);
    }
  }

  lemma OpenerStays(cached: seq<Item>, live: seq<Item>, a: nat, slots: seq<Item>)
    requires a < |cached| && Stays(cached, live, a) && Holds(cached, live, |live|, slots)
    ensures cached[a] in slots
  {
    var all := cached + live;
    WholeOpeners(cached, live);
    hide Openers, Opens, Takes, OpenersBefore;
    var at := OpenersInOrder(all, |all|);
    assert a in at;
    var i :| 0 <= i < |at| && at[i] == a;
    assert LastTaker(cached, live, cached[a].key, |live|) == None;
    assert slots[i] == cached[a];
  }

  /** Two items that stay and share a repository; the first did not open its
      slot, so nobody owns its repositories. */
  predicate Shares(cached: seq<Item>, live: seq<Item>, a: nat, b: nat)
    requires a < b < |cached| + |live|
  {
    && Stays(cached, live, a) && Stays(cached, live, b) && !Opens(cached + live, a)
    && !((cached + live)[a].identities !! (cached + live)[b].identities)
  }

  /** The documentation promises one result a repository. For every catalog and
      every live list, the list returned breaks that if and only if two of the
      items that stay share a repository, the earlier of which took a slot that
      another item had opened. */
  lemma OneRowPerRepositoryIff(cached: seq<Item>, live: seq<Item>)
    ensures !DisjointIdentities(Merged(cached, live).slots) <==>
            exists a: nat, b: nat :: a < b < |cached| + |live| && Shares(cached, live, a, b)
  {
    var slots := Merged(cached, live).slots;
    if !DisjointIdentities(slots) {
      var i, k :| 0 <= i < k < |slots| && !(slots[i].identities !! slots[k].identities);
      var a, b := SharedSlots(cached, live, i, k);
    }
    if a: nat, b: nat :| a < b < |cached| + |live| && Shares(cached, live, a, b) {
      SharesClash(cached, live, a, b);
    }
  }

  lemma SharedSlots(cached: seq<Item>, live: seq<Item>, i: nat, k: nat) returns (a: nat, b: nat)
    requires var slots := Merged(cached, live).slots; i < k < |slots| && !(slots[i].identities !! slots[k].identities)
    ensures a < b < |cached| + |live| && Shares(cached, live, a, b)
  {
    var slots := Merged(cached, live).slots;
    a := SlotStays(cached, live, i);
    b := SlotStays(cached, live, k);
    MergedWhole(cached, live);
    DistinctUpTo(cached, live, |live|);
    assert slots[i].key != slots[k].key;
    hide Merged, MergedUpTo, Stays, Opens, Openers;
    if b < a {
      a, b := b, a;
    }
    if Opens(cached + live, a) {
      OpenerKept(cached + live, a, b);
      StaysAvoids(cached, live, b);
    }
  }

  lemma SharesClash(cached: seq<Item>, live: seq<Item>, a: nat, b: nat)
    requires a < b < |cached| + |live| && Shares(cached, live, a, b)
    ensures !DisjointIdentities(Merged(cached, live).slots)
  {
    StaysInSlot(cached, live, a);
    StaysInSlot(cached, live, b);
    OneStaysPerKey(cached, live, a, b);
    hide Merged, Stays, Opens;
    var all, slots := cached + live, Merged(cached, live).slots;
    var i :| 0 <= i < |slots| && slots[i] == all[a];
    var k :| 0 <= k < |slots| && slots[k] == all[b];
    assert i < k || k < i;
  }

  /** Items that open slots never share a repository. */
  lemma {:induction false} OpenersDisjoint(items: seq<Item>, n: nat)
    requires n <= |items|
    ensures DisjointIdentities(Openers(items, n))
  {
    if n > 0 {
      OpenersDisjoint(items, n - 1);
      var before := Openers(items, n - 1);
      forall i | 0 <= i < |before| ensures before[i].identities <= IdentitiesOf(before) {}
    }
  }

  /** Two slots of the merged list share a repository only if a live item has
      refreshed one of them: two slots that hold the items that opened them
      never do. */
  lemma OnlyRefreshesDuplicate(cached: seq<Item>, live: seq<Item>, i: nat, k: nat)
    requires var slots := Merged(cached, live).slots; i < k < |slots| && !(slots[i].identities !! slots[k].identities)
    ensures var slots, openers := Merged(cached, live).slots, Openers(cached + live, |cached + live|);
            |slots| == |openers| && (slots[i] != openers[i] || slots[k] != openers[k])
  {
    OneOpenerEach(cached, live);
    OpenersDisjoint(cached + live, |cached + live|);
    hide *;
    var slots, openers := Merged(cached, live).slots, Openers(cached + live, |cached + live|);
    DisjointAt(openers, i, k);
  }

  lemma OneOpenerEach(cached: seq<Item>, live: seq<Item>)
    ensures |Merged(cached, live).slots| == |Openers(cached + live, |cached + live|)|
  {
    MergedWhole(cached, live);
    SlotContents(cached, live, |live|);
    WholeOpeners(cached, live);
    hide *;
    HoldsItems(cached, live, Merged(cached, live).slots);
  }

  lemma DisjointAt(slots: seq<Item>, i: nat, k: nat)
    requires i < k < |slots| && DisjointIdentities(slots)
    ensures slots[i].identities !! slots[k].identities
  {
  }

  lemma MergedThree(c: Item, a: Item, b: Item)
    ensures Merged([c], [a, b]) == Claim(Claim(Claim(EMPTY_MERGE, c, false), a, true), b, true)
  {
    hide Claim;
    assert [c][..0] == [] && [a, b][..1] == [a] && [a][..0] == [];
    assert ClaimAll(EMPTY_MERGE, [c], false) == Claim(EMPTY_MERGE, c, false);
    assert ClaimAll(Claim(EMPTY_MERGE, c, false), [a], true) == Claim(Claim(EMPTY_MERGE, c, false), a, true);
  }

  /** A merge of one slot that owns nothing. */
  lemma ClaimBare(key: string, content: nat)
    ensures var m := Claim(EMPTY_MERGE, Item(key, {}, content), false);
            m.slots == [Item(key, {}, content)] && m.owner == map[] && Keys(m.slots) == [key]
  {
  }

  /** It happens: a live copy whose repository the catalog did not know leaves it
      unregistered, and another item of that repository gets a row of its own. */
  lemma DuplicateRow(key: string, other: string, repository: string)
    requires key != other
    ensures var copy, second := Item(key, {repository}, 1), Item(other, {repository}, 2);
            Merged([Item(key, {}, 0)], [copy, second]).slots == [copy, second]
  {
    var row, copy, second := Item(key, {}, 0), Item(key, {repository}, 1), Item(other, {repository}, 2);
    MergedThree(row, copy, second);
    ClaimBare(key, 0);
    var m0 := Claim(EMPTY_MERGE, row, false);
    hide Merged;
    var m1 := Claim(m0, copy, true);
    assert m1.slots == [copy] && m1.owner == map[] && Keys(m1.slots) == [key];
    assert Claim(m1, second, true).slots == [copy, second];
  }

  /** And a live copy is kept out of its slot by another live item, although it
      shares no repository with the catalog. */
  lemma CopyKeptOut(key: string, other: string, repository: string)
    requires key != other
    ensures var row, first, copy := Item(key, {}, 0), Item(other, {repository}, 1), Item(key, {repository}, 2);
            Merged([row], [first, copy]).slots == [row, first]
  {
    var row, first, copy := Item(key, {}, 0), Item(other, {repository}, 1), Item(key, {repository}, 2);
    MergedThree(row, first, copy);
    ClaimBare(key, 0);
    var m0 := Claim(EMPTY_MERGE, row, false);
    hide Merged;
    var m1 := Claim(m0, first, true);
    assert m1.slots == [row, first] && repository in m1.owner;
    assert Owned(m1, copy);
  }
}
