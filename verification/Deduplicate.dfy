/** Evidence-preserving deduplication of normalized items, in place
    (platform/backend/app/normalization/pipeline.py). */
module Deduplicate {

  // ---- merging lists by key -----------------------------------------------

  /** The elements whose key has not occurred before, in order. */
  function KeepFirst<T, K(==)>(xs: seq<T>, key: T -> K): seq<T> {
    if xs == [] then []
    else
      var n := |xs| - 1;
      KeepFirst(xs[..n], key) + if key(xs[n]) in KeysOf(xs[..n], key) then [] else [xs[n]]
  }

  function KeysOf<T, K(==)>(xs: seq<T>, key: T -> K): set<K> {
    set i | 0 <= i < |xs| :: key(xs[i])
  }

  lemma KeysOfAppend<T, K>(xs: seq<T>, x: T, key: T -> K)
    ensures KeysOf(xs + [x], key) == KeysOf(xs, key) + {key(x)}
  {
    forall k | k in KeysOf(xs, key) ensures k in KeysOf(xs + [x], key) {
      var i :| 0 <= i < |xs| && key(xs[i]) == k;
      assert (xs + [x])[i] == xs[i];
    }
    assert (xs + [x])[|xs|] == x;
  }

  lemma KeysOfConcat<T, K>(xs: seq<T>, ys: seq<T>, key: T -> K)
    ensures KeysOf(xs + ys, key) == KeysOf(xs, key) + KeysOf(ys, key)
  {
    if ys == [] {
      assert xs + ys == xs;
    } else {
      var n := |ys| - 1;
      KeysOfConcat(xs, ys[..n], key);
      KeysOfAppend(xs + ys[..n], ys[n], key);
      KeysOfAppend(ys[..n], ys[n], key);
      assert ys == ys[..n] + [ys[n]] && xs + ys == xs + ys[..n] + [ys[n]];
    }
  }

  predicate DistinctBy<T, K(==)>(xs: seq<T>, key: T -> K) {
    forall i, j :: 0 <= i < j < |xs| ==> key(xs[i]) != key(xs[j])
  }

  lemma KeepFirstStep<T, K>(xs: seq<T>, n: nat, key: T -> K)
    requires n < |xs|
    ensures KeepFirst(xs[..n + 1], key)
            == KeepFirst(xs[..n], key) + if key(xs[n]) in KeysOf(xs[..n], key) then [] else [xs[n]]
    ensures KeysOf(xs[..n + 1], key) == KeysOf(xs[..n], key) + {key(xs[n])}
  {
    assert xs[..n + 1][..n] == xs[..n] && xs[..n + 1] == xs[..n] + [xs[n]];
    KeysOfAppend(xs[..n], xs[n], key);
  }

  /** One element a key, and none of the keys lost. */
  lemma {:induction false} KeepFirstKeys<T, K>(xs: seq<T>, n: nat, key: T -> K)
    requires n <= |xs|
    ensures KeysOf(KeepFirst(xs[..n], key), key) == KeysOf(xs[..n], key)
    ensures DistinctBy(KeepFirst(xs[..n], key), key)
  {
    if n > 0 {
      hide KeepFirst;
      KeepFirstKeys(xs, n - 1, key);
      KeepFirstStep(xs, n - 1, key);
      var before := KeepFirst(xs[..n - 1], key);
      forall i | 0 <= i < |before| ensures key(before[i]) in KeysOf(before, key) {}
      if key(xs[n - 1]) in KeysOf(xs[..n - 1], key) {
        assert before + [] == before;
      } else {
        KeysOfAppend(before, xs[n - 1], key);
      }
    }
  }

  /** What is kept are exactly the first occurrences of the keys, in the order
      of the list. */
  lemma {:induction false} KeepFirstIsFirst<T, K>(xs: seq<T>, n: nat, key: T -> K) returns (at: seq<nat>)
    requires n <= |xs|
    ensures |at| == |KeepFirst(xs[..n], key)|
    ensures forall i :: 0 <= i < |at| ==> at[i] < n && xs[at[i]] == KeepFirst(xs[..n], key)[i]
    ensures forall i, j :: 0 <= i < j < |at| ==> at[i] < at[j]
    ensures forall j :: 0 <= j < n ==> (j in at <==> key(xs[j]) !in KeysOf(xs[..j], key))
  {
    if n == 0 {
      at := [];
    } else {
      hide KeysOf;
      KeepFirstStep(xs, n - 1, key);
      hide KeepFirst;
      at := KeepFirstIsFirst(xs, n - 1, key);
      if key(xs[n - 1]) !in KeysOf(xs[..n - 1], key) {
        at := at + [n - 1];
      }
    }
  }

  /** `_merge_sources` and `_merge_evidence`: the loop over both lists with a
      set of the keys seen. */
  method MergeLists<T, K(==)>(left: seq<T>, right: seq<T>, key: T -> K) returns (result: seq<T>)
    ensures result == KeepFirst(left + right, key)
    ensures KeysOf(result, key) == KeysOf(left, key) + KeysOf(right, key)
    ensures DistinctBy(result, key)
  {
    var all := left + right;
    var seen: set<K> := {};
    result := [];
    for i := 0 to |all|
      invariant result == KeepFirst(all[..i], key)
      invariant seen == KeysOf(all[..i], key)
    {
      KeepFirstStep(all, i, key);
      if key(all[i]) !in seen {
        seen := seen + {key(all[i])};
        result := result + [all[i]];
      }
    }
    assert all[..|all|] == all;
    KeepFirstKeys(all, |all|, key);
    KeysOfConcat(left, right, key);
  }

  // ---- the items ----------------------------------------------------------

  /** A provenance entry, by the joined string the source compares. */
  datatype Source = Source(key: string, detail: nat)

  datatype Evidence = Evidence(id: nat, statement: string)

  const SOURCE_KEY: Source -> string := (s: Source) => s.key
  const EVIDENCE_KEY: Evidence -> nat := (e: Evidence) => e.id

  /** What an item holds at one moment. */
  datatype Snapshot = Snapshot(key: string, provenance: seq<Source>, evidence: seq<Evidence>, description: string)

  class Item {
    const key: string
    var provenance: seq<Source>
    var evidence: seq<Evidence>
    var description: string

    constructor (key: string, provenance: seq<Source>, evidence: seq<Evidence>, description: string)
      ensures this.key == key && Snap() == Snapshot(key, provenance, evidence, description)
    {
      this.key, this.provenance, this.evidence, this.description := key, provenance, evidence, description;
    }

    function Snap(): Snapshot
      reads this
    {
      Snapshot(key, provenance, evidence, description)
    }
  }

  const ITEM_KEY: Item -> string := (o: Item) => o.key

  function Snaps(items: seq<Item>): seq<Snapshot>
    reads items
  {
    seq(|items|, i reads items requires 0 <= i < |items| => items[i].Snap())
  }

  const EVIDENCE: Snapshot -> seq<Evidence> := (s: Snapshot) => s.evidence
  const PROVENANCE: Snapshot -> seq<Source> := (s: Snapshot) => s.provenance

  /** The lists of one group among the first `n` items, one after another. */
  function GroupList<T>(snaps: seq<Snapshot>, n: nat, key: string, list: Snapshot -> seq<T>): seq<T>
    requires n <= |snaps|
  {
    if n == 0 then []
    else GroupList(snaps, n - 1, key, list) + if snaps[n - 1].key == key then list(snaps[n - 1]) else []
  }

  function GroupSize(snaps: seq<Snapshot>, n: nat, key: string): nat
    requires n <= |snaps|
  {
    if n == 0 then 0 else GroupSize(snaps, n - 1, key) + if snaps[n - 1].key == key then 1 else 0
  }

  /** What a kept item's list comes to: its own list if it met no other of its
      group, else the first occurrence of each key over the lists of the group. */
  function Gathered<T, K(==)>(size: nat, all: seq<T>, key: T -> K): seq<T> {
    if size <= 1 then all else KeepFirst(all, key)
  }

  /** The first of the group's longest descriptions. */
  predicate FirstLongest(description: string, snaps: seq<Snapshot>, n: nat, key: string)
    requires n <= |snaps|
  {
    && (exists j :: 0 <= j < n && snaps[j].key == key && snaps[j].description == description
                    && forall k :: 0 <= k < j && snaps[k].key == key ==> |snaps[k].description| < |description|)
    && forall k :: 0 <= k < n && snaps[k].key == key ==> |snaps[k].description| <= |description|
  }

  /** The item now carries its whole group's evidence and provenance, each key
      at its first occurrence in input order and with what it said there, and
      the first of its longest descriptions. */
  predicate Carries(now: Snapshot, snaps: seq<Snapshot>, n: nat)
    requires n <= |snaps|
  {
    var size := GroupSize(snaps, n, now.key);
    && now.evidence == Gathered(size, GroupList(snaps, n, now.key, EVIDENCE), EVIDENCE_KEY)
    && now.provenance == Gathered(size, GroupList(snaps, n, now.key, PROVENANCE), SOURCE_KEY)
    && FirstLongest(now.description, snaps, n, now.key)
  }

  lemma {:induction false} GroupContains<T, K>(snaps: seq<Snapshot>, n: nat, j: nat, list: Snapshot -> seq<T>,
                                               key: T -> K)
    requires j < n <= |snaps|
    ensures KeysOf(list(snaps[j]), key) <= KeysOf(GroupList(snaps, n, snaps[j].key, list), key)
    ensures GroupSize(snaps, n, snaps[j].key) > 0
  {
    var added := if snaps[n - 1].key == snaps[j].key then list(snaps[n - 1]) else [];
    KeysOfConcat(GroupList(snaps, n - 1, snaps[j].key, list), added, key);
    if j < n - 1 {
      GroupContains(snaps, n - 1, j, list, key);
    }
  }

  lemma {:induction false} GroupEmpty<T>(snaps: seq<Snapshot>, n: nat, key: string, list: Snapshot -> seq<T>)
    requires n <= |snaps| && forall j :: 0 <= j < n ==> snaps[j].key != key
    ensures GroupList(snaps, n, key, list) == [] && GroupSize(snaps, n, key) == 0
  {
    if n > 0 {
      GroupEmpty(snaps, n - 1, key, list);
    }
  }

  /** A group is unaffected by an item of another. */
  lemma GroupOther(snaps: seq<Snapshot>, n: nat, now: Snapshot)
    requires n < |snaps| && snaps[n].key != now.key
    ensures Carries(now, snaps, n + 1) <==> Carries(now, snaps, n)
  {
    assert GroupList(snaps, n + 1, now.key, EVIDENCE) == GroupList(snaps, n, now.key, EVIDENCE);
    assert GroupList(snaps, n + 1, now.key, PROVENANCE) == GroupList(snaps, n, now.key, PROVENANCE);
  }

  lemma GroupNew(snaps: seq<Snapshot>, n: nat)
    requires n < |snaps| && forall j :: 0 <= j < n ==> snaps[j].key != snaps[n].key
    ensures Carries(snaps[n], snaps, n + 1)
  {
    GroupEmpty(snaps, n, snaps[n].key, EVIDENCE);
    GroupEmpty(snaps, n, snaps[n].key, PROVENANCE);
  }

  /** What `now` has after `was` took over what `added` adds. */
  predicate Merged(was: Snapshot, added: Snapshot, now: Snapshot) {
    && now.key == was.key
    && now.evidence == KeepFirst(was.evidence + added.evidence, EVIDENCE_KEY)
    && now.provenance == KeepFirst(was.provenance + added.provenance, SOURCE_KEY)
    && now.description ==
       if |added.description| > |was.description| then added.description else was.description
  }

  /** What adds no key adds nothing. */
  lemma {:induction false} KeepFirstNothingNew<T, K>(xs: seq<T>, ys: seq<T>, key: T -> K)
    requires KeysOf(ys, key) <= KeysOf(xs, key)
    ensures KeepFirst(xs + ys, key) == KeepFirst(xs, key)
  {
    if ys == [] {
      assert xs + ys == xs;
    } else {
      var n := |ys| - 1;
      assert key(ys[n]) in KeysOf(ys, key);
      KeysOfConcat(xs, ys[..n], key);
      KeysOfAppend(ys[..n], ys[n], key);
      assert ys == ys[..n] + [ys[n]] && (xs + ys)[..|xs| + n] == xs + ys[..n];
      KeepFirstNothingNew(xs, ys[..n], key);
    }
  }

  /** Keeping the first of each key early changes nothing later. */
  lemma {:induction false} KeepFirstEarly<T, K>(xs: seq<T>, ys: seq<T>, key: T -> K)
    ensures KeepFirst(KeepFirst(xs, key) + ys, key) == KeepFirst(xs + ys, key)
  {
    KeepFirstKeys(xs, |xs|, key);
    assert xs[..|xs|] == xs;
    var kept := KeepFirst(xs, key);
    if ys == [] {
      assert xs + ys == xs && kept + ys == kept;
      KeepFirstDistinct(kept, key);
    } else {
      var n := |ys| - 1;
      KeepFirstEarly(xs, ys[..n], key);
      KeysOfConcat(xs, ys[..n], key);
      KeysOfConcat(kept, ys[..n], key);
      assert (xs + ys)[..|xs| + n] == xs + ys[..n] && (kept + ys)[..|kept| + n] == kept + ys[..n];
    }
  }

  lemma {:induction false} KeepFirstDistinct<T, K>(xs: seq<T>, key: T -> K)
    requires DistinctBy(xs, key)
    ensures KeepFirst(xs, key) == xs
  {
    if xs != [] {
      var n := |xs| - 1;
      KeepFirstDistinct(xs[..n], key);
      assert xs == xs[..n] + [xs[n]];
    }
  }

  /** One list of a group, one more item taken over. */
  lemma GatherMore<T, K>(snaps: seq<Snapshot>, n: nat, was: seq<T>, added: seq<T>, group: string,
                         list: Snapshot -> seq<T>, key: T -> K)
    requires n < |snaps| && snaps[n].key == group && GroupSize(snaps, n, group) > 0
    requires was == Gathered(GroupSize(snaps, n, group), GroupList(snaps, n, group, list), key)
    requires added == list(snaps[n]) || (added == was && exists j :: 0 <= j < n && snaps[j] == snaps[n])
    ensures KeepFirst(was + added, key)
            == Gathered(GroupSize(snaps, n + 1, group), GroupList(snaps, n + 1, group, list), key)
  {
    var before, more := GroupList(snaps, n, group, list), list(snaps[n]);
    assert GroupList(snaps, n + 1, group, list) == before + more;
    assert before + [] == before && was + [] == was;
    hide KeepFirst, GroupList, KeysOf;
    KeepFirstEarly(before, added, key);
    if added != more {
      var j :| 0 <= j < n && snaps[j] == snaps[n];
      GroupContains(snaps, n, j, list, key);
      KeepFirstNothingNew(before, more, key);
      KeepFirstNothingNew(was, was, key);
      KeepFirstEarly(before, [], key);
    }
  }

  /** Merging one more item of the group into its holder keeps the account,
      also when the holder is merged with itself. */
  lemma GroupMerge(snaps: seq<Snapshot>, n: nat, was: Snapshot, added: Snapshot, now: Snapshot)
    requires n < |snaps| && snaps[n].key == was.key && Carries(was, snaps, n)
    requires added == snaps[n] || (added == was && exists j :: 0 <= j < n && snaps[j] == snaps[n])
    requires Merged(was, added, now)
    ensures Carries(now, snaps, n + 1)
  {
    var j :| 0 <= j < n && snaps[j].key == was.key;
    GroupContains(snaps, n, j, EVIDENCE, EVIDENCE_KEY);
    hide Gathered, KeepFirst, GroupList, GroupSize;
    GatherMore(snaps, n, was.evidence, added.evidence, was.key, EVIDENCE, EVIDENCE_KEY);
    GatherMore(snaps, n, was.provenance, added.provenance, was.key, PROVENANCE, SOURCE_KEY);
  }

  /** So no evidence id and no provenance key of the group is lost, and none is
      added. */
  lemma CarriesKeys(now: Snapshot, snaps: seq<Snapshot>, n: nat)
    requires n <= |snaps| && Carries(now, snaps, n)
    ensures KeysOf(now.evidence, EVIDENCE_KEY) == KeysOf(GroupList(snaps, n, now.key, EVIDENCE), EVIDENCE_KEY)
    ensures KeysOf(now.provenance, SOURCE_KEY) == KeysOf(GroupList(snaps, n, now.key, PROVENANCE), SOURCE_KEY)
    ensures GroupSize(snaps, n, now.key) > 1 ==>
              DistinctBy(now.evidence, EVIDENCE_KEY) && DistinctBy(now.provenance, SOURCE_KEY)
  {
    var evidence, provenance := GroupList(snaps, n, now.key, EVIDENCE), GroupList(snaps, n, now.key, PROVENANCE);
    assert evidence[..|evidence|] == evidence && provenance[..|provenance|] == provenance;
    hide KeepFirst, GroupList, KeysOf, DistinctBy;
    KeepFirstKeys(evidence, |evidence|, EVIDENCE_KEY);
    KeepFirstKeys(provenance, |provenance|, SOURCE_KEY);
  }

  lemma {:induction false} KeepFirstHead<T, K>(xs: seq<T>, key: T -> K)
    requires xs != []
    ensures KeepFirst(xs, key) != [] && KeepFirst(xs, key)[0] == xs[0]
  {
    var n := |xs| - 1;
    if n > 0 {
      KeepFirstHead(xs[..n], key);
    } else {
      assert KeysOf(xs[..0], key) == {};
    }
  }

  lemma {:induction false} GroupHead(snaps: seq<Snapshot>, n: nat, j: nat)
    requires j < n <= |snaps| && snaps[j].provenance != []
    requires forall i :: 0 <= i < j && snaps[i].key == snaps[j].key ==> snaps[i].provenance == []
    ensures var all := GroupList(snaps, n, snaps[j].key, PROVENANCE); all != [] && all[0] == snaps[j].provenance[0]
  {
    if j < n - 1 {
      GroupHead(snaps, n - 1, j);
    } else {
      NoneBefore(snaps, j, j);
    }
  }

  lemma {:induction false} NoneBefore(snaps: seq<Snapshot>, n: nat, j: nat)
    requires n <= j < |snaps|
    requires forall i :: 0 <= i < j && snaps[i].key == snaps[j].key ==> snaps[i].provenance == []
    ensures GroupList(snaps, n, snaps[j].key, PROVENANCE) == []
  {
    if n > 0 {
      NoneBefore(snaps, n - 1, j);
    }
  }

  /** The primary source of a group, which ranking reads, is that of its first
      item that has any. */
  lemma PrimarySourceKept(now: Snapshot, snaps: seq<Snapshot>, n: nat, j: nat)
    requires j < n <= |snaps| && Carries(now, snaps, n)
    requires snaps[j].key == now.key && snaps[j].provenance != []
    requires forall i :: 0 <= i < j && snaps[i].key == now.key ==> snaps[i].provenance == []
    ensures now.provenance != [] && now.provenance[0] == snaps[j].provenance[0]
  {
    GroupHead(snaps, n, j);
    KeepFirstHead(GroupList(snaps, n, now.key, PROVENANCE), SOURCE_KEY);
  }

  /** The body of the loop for a key already held: `current` takes over what
      `item` adds. They may be the same object. */
  method Absorb(current: Item, item: Item)
    modifies current
    ensures Merged(old(current.Snap()), old(item.Snap()), current.Snap())
  {
    ghost var added := item.Snap();
    current.provenance := MergeLists(current.provenance, item.provenance, SOURCE_KEY);
    current.evidence := MergeLists(current.evidence, item.evidence, EVIDENCE_KEY);
    assert item.description == added.description;
    if |item.description| > |current.description| {
      current.description := item.description;
    }
  }

  /** The item of a list that holds a key. */
  function HolderOf(kept: seq<Item>, key: string): (i: nat)
    ensures i <= |kept|
    ensures i < |kept| ==> kept[i].key == key
    ensures i == |kept| ==> key !in KeysOf(kept, ITEM_KEY)
  {
    if kept == [] then 0
    else if kept[0].key == key then 0
    else
      var i := HolderOf(kept[1..], key);
      assert forall k :: 0 <= k < |kept[1..]| ==> kept[1..][k] == kept[k + 1];
      assert i == |kept[1..]| ==>
               forall k :: 0 <= k < |kept[1..]| ==> ITEM_KEY(kept[1..][k]) in KeysOf(kept[1..], ITEM_KEY);
      1 + i
  }

  ghost predicate AllCarry(kept: seq<Item>, snaps: seq<Snapshot>, n: nat)
    requires n <= |snaps|
    reads kept
  {
    forall k :: 0 <= k < |kept| ==> Carries(kept[k].Snap(), snaps, n)
  }

  /** One turn of the loop: a new key is held by the item itself, a key already
      held has its holder absorb the item. */
  method Place(items: seq<Item>, kept: seq<Item>, item: Item, ghost snaps: seq<Snapshot>, ghost n: nat)
    returns (next: seq<Item>)
    requires item in items && forall o :: o in kept ==> o in items
    requires n < |snaps| && snaps[n].key == item.key
    requires DistinctBy(kept, ITEM_KEY) && AllCarry(kept, snaps, n)
    requires forall j :: 0 <= j < n ==> snaps[j].key in KeysOf(kept, ITEM_KEY)
    requires if item in kept then exists j :: 0 <= j < n && snaps[j] == snaps[n] else item.Snap() == snaps[n]
    modifies items
    ensures forall o :: o in next ==> o in items
    ensures forall o :: o in items && o !in next ==> o.Snap() == old(o.Snap())
    ensures next == kept + if item.key in KeysOf(kept, ITEM_KEY) then [] else [item]
    ensures AllCarry(next, snaps, n + 1)
  {
    hide Carries, Merged;
    var holder := HolderOf(kept, item.key);
    assert forall k :: 0 <= k < |kept| ==> ITEM_KEY(kept[k]) in KeysOf(kept, ITEM_KEY);
    if holder == |kept| {
      next := kept + [item];
      GroupNew(snaps, n);
      forall k | 0 <= k < |kept| ensures Carries(kept[k].Snap(), snaps, n + 1) {
        GroupOther(snaps, n, kept[k].Snap());
      }
    } else {
      next := kept;
      var current := kept[holder];
      ghost var was, added := current.Snap(), item.Snap();
      forall k | 0 <= k < |kept| && k != holder
        ensures kept[k] != current && Carries(kept[k].Snap(), snaps, n + 1)
      {
        GroupOther(snaps, n, kept[k].Snap());
      }
      assert current in kept;
      Absorb(current, item);
      GroupMerge(snaps, n, was, added, current.Snap());
    }
  }

  /** Snapshots of a list of items: equal items have equal snapshots. */
  predicate SnapsOf(items: seq<Item>, snaps: seq<Snapshot>) {
    && |snaps| == |items|
    && (forall j :: 0 <= j < |items| ==> snaps[j].key == items[j].key)
    && forall i, j :: 0 <= i < j < |items| && items[i] == items[j] ==> snaps[i] == snaps[j]
  }

  lemma ReadyToPlace(items: seq<Item>, snaps: seq<Snapshot>, i: nat, kept: seq<Item>)
    requires SnapsOf(items, snaps) && i < |items|
    requires kept == KeepFirst(items[..i], ITEM_KEY)
    ensures DistinctBy(kept, ITEM_KEY)
    ensures forall j :: 0 <= j < i ==> snaps[j].key in KeysOf(kept, ITEM_KEY)
    ensures snaps[i].key == items[i].key
    ensures items[i] in kept ==> exists j :: 0 <= j < i && snaps[j] == snaps[i]
    ensures KeepFirst(items[..i + 1], ITEM_KEY)
            == kept + if items[i].key in KeysOf(kept, ITEM_KEY) then [] else [items[i]]
  {
    KeepFirstKeys(items, i, ITEM_KEY);
    KeepFirstStep(items, i, ITEM_KEY);
    hide KeepFirst;
    forall j | 0 <= j < i ensures snaps[j].key in KeysOf(kept, ITEM_KEY) {
      assert ITEM_KEY(items[..i][j]) in KeysOf(items[..i], ITEM_KEY);
    }
    var at := KeepFirstIsFirst(items, i, ITEM_KEY);
    if items[i] in kept {
      var k :| 0 <= k < |kept| && kept[k] == items[i];
      assert snaps[at[k]] == snaps[i];
    }
  }

  /** `_deduplicate`: one item a key, in the order the keys first occur; each
      kept item ends up carrying the evidence and provenance of its whole group,
      the first occurrence of each key in input order, and the first of its
      longest descriptions; every other item is untouched. */
  method DeduplicateItems(items: seq<Item>) returns (kept: seq<Item>)
    modifies items
    ensures kept == KeepFirst(items, ITEM_KEY)
    ensures AllCarry(kept, old(Snaps(items)), |items|)
    ensures forall o :: o in items && o !in kept ==> o.Snap() == old(o.Snap())
  {
    ghost var snaps := Snaps(items);
    kept := [];
    assert KeepFirst(items[..0], ITEM_KEY) == kept && AllCarry(kept, snaps, 0);
    assert SnapsOf(items, snaps) && |snaps| == |items|;
    assert forall j :: 0 <= j < |items| ==> snaps[j] == old(items[j].Snap());
    hide *;
    for i := 0 to |items|
      invariant kept == KeepFirst(items[..i], ITEM_KEY)
      invariant AllCarry(kept, snaps, i)
      invariant forall o :: o in kept ==> o in items
      invariant forall o :: o in items && o !in kept ==> o.Snap() == old(o.Snap())
    {
      ReadyToPlace(items, snaps, i, kept);
      kept := Place(items, kept, items[i], snaps, i);
    }
    assert items[..|items|] == items;
  }
}
