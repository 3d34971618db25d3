/** A stable descending sort, as the positions of the input in output order. */
module StableSort {

  /** `a` comes out ahead of `b`: a larger key, or an equal one seen earlier. */
  predicate Ahead(keys: seq<int>, a: nat, b: nat)
    requires a < |keys| && b < |keys|
  {
    keys[a] > keys[b] || (keys[a] == keys[b] && a < b)
  }

  /** The first `n` positions, each once, in stable descending order. */
  predicate IsOrder(order: seq<nat>, keys: seq<int>, n: nat)
    requires n <= |keys|
  {
    && |order| == n
    && (forall i :: 0 <= i < |order| ==> order[i] < n)
    && (forall a: nat :: a < n ==> a in order)
    && forall i, j :: 0 <= i < j < |order| ==> Ahead(keys, order[i], order[j])
  }

  /** How many positions at the front of the order keep their place before a
      new key. */
  function PlaceFor(order: seq<nat>, keys: seq<int>, key: int): (p: nat)
    requires forall i :: 0 <= i < |order| ==> order[i] < |keys|
    ensures p <= |order|
    ensures forall i :: 0 <= i < p ==> keys[order[i]] >= key
    ensures p < |order| ==> keys[order[p]] < key
  {
    if order == [] || keys[order[0]] < key then 0
    else 1 + PlaceFor(order[1..], keys, key)
  }

  function Inserted(order: seq<nat>, p: nat, x: nat): (after: seq<nat>)
    requires p <= |order|
    ensures |after| == |order| + 1
    ensures forall a :: a in after <==> a in order || a == x
  {
    order[..p] + [x] + order[p..]
  }

  function Order(keys: seq<int>, n: nat): (order: seq<nat>)
    requires n <= |keys|
    ensures |order| == n && forall i :: 0 <= i < |order| ==> order[i] < n
  {
    if n == 0 then []
    else
      var before := Order(keys, n - 1);
      Inserted(before, PlaceFor(before, keys, keys[n - 1]), n - 1)
  }

  lemma {:induction false} OrderSorts(keys: seq<int>, n: nat)
    requires n <= |keys|
    ensures IsOrder(Order(keys, n), keys, n)
  {
    if n > 0 {
      OrderSorts(keys, n - 1);
      InsertSorts(keys, n, Order(keys, n - 1));
    }
  }

  lemma InsertSorts(keys: seq<int>, n: nat, before: seq<nat>)
    requires 0 < n <= |keys| && IsOrder(before, keys, n - 1)
    ensures IsOrder(Inserted(before, PlaceFor(before, keys, keys[n - 1]), n - 1), keys, n)
  {
    var p := PlaceFor(before, keys, keys[n - 1]);
    var order := Inserted(before, p, n - 1);
    assert order[p] == n - 1;
    forall i, j | 0 <= i < j < |order| ensures Ahead(keys, order[i], order[j]) {
      InsertedAhead(keys, n, before, p, i, j);
    }
    hide *;
    forall a: nat | a < n - 1 ensures a in order {
      assert a in before;
    }
  }

  lemma InsertedAhead(keys: seq<int>, n: nat, before: seq<nat>, p: nat, i: nat, j: nat)
    requires 0 < n <= |keys| && IsOrder(before, keys, n - 1)
    requires p == PlaceFor(before, keys, keys[n - 1]) && i < j < n
    ensures Ahead(keys, Inserted(before, p, n - 1)[i], Inserted(before, p, n - 1)[j])
  {
    if i < p < j {
      assert Ahead(keys, before[i], before[j - 1]);
    } else if i == p {
      assert j - 1 == p || Ahead(keys, before[p], before[j - 1]);
    } else if p < i {
      assert Ahead(keys, before[i - 1], before[j - 1]);
    } else if j < p {
      assert Ahead(keys, before[i], before[j]);
    }
  }

  /** Keys and stability leave no choice. */
  lemma OrderUnique(p: seq<nat>, q: seq<nat>, keys: seq<int>, n: nat)
    requires n <= |keys| && IsOrder(p, keys, n) && IsOrder(q, keys, n)
    ensures p == q
  {
    SamePrefix(p, q, keys, n, n);
  }

  lemma {:induction false} SamePrefix(p: seq<nat>, q: seq<nat>, keys: seq<int>, n: nat, m: nat)
    requires m <= n <= |keys| && IsOrder(p, keys, n) && IsOrder(q, keys, n)
    ensures p[..m] == q[..m]
  {
    if m > 0 {
      SamePrefix(p, q, keys, n, m - 1);
      NotBehind(p, q, keys, n, m - 1);
      NotBehind(q, p, keys, n, m - 1);
      assert p[..m] == p[..m - 1] + [p[m - 1]] && q[..m] == q[..m - 1] + [q[m - 1]];
    }
  }

  lemma NotBehind(p: seq<nat>, q: seq<nat>, keys: seq<int>, n: nat, m: nat)
    requires m < n <= |keys| && IsOrder(p, keys, n) && IsOrder(q, keys, n) && p[..m] == q[..m]
    ensures p[m] == q[m] || Ahead(keys, p[m], q[m])
  {
    assert q[m] in p;
    var i :| 0 <= i < |p| && p[i] == q[m];
    forall k | 0 <= k < m ensures p[k] != q[m] {
      assert p[k] == p[..m][k] == q[k];
      assert Ahead(keys, q[k], q[m]);
    }
    assert i == m || Ahead(keys, p[m], p[i]);
  }

  function KeysOf<T>(xs: seq<T>, key: T -> int): (keys: seq<int>)
    ensures |keys| == |xs| && forall i :: 0 <= i < |xs| ==> keys[i] == key(xs[i])
  {
    seq(|xs|, i requires 0 <= i < |xs| => key(xs[i]))
  }

  function Pick<T>(xs: seq<T>, order: seq<nat>): (picked: seq<T>)
    requires forall i :: 0 <= i < |order| ==> order[i] < |xs|
    ensures |picked| == |order| && forall i :: 0 <= i < |order| ==> picked[i] == xs[order[i]]
  {
    seq(|order|, i requires 0 <= i < |order| => xs[order[i]])
  }

  /** The list sorted by a key, largest first, ties in their old order. */
  function SortDescending<T>(xs: seq<T>, key: T -> int): (sorted: seq<T>)
    ensures |sorted| == |xs|
  {
    Pick(xs, Order(KeysOf(xs, key), |xs|))
  }

  /** The sort is a rearrangement, and the only stable descending one. */
  lemma SortMeaning<T>(xs: seq<T>, key: T -> int, order: seq<nat>)
    requires IsOrder(order, KeysOf(xs, key), |xs|)
    ensures forall i :: 0 <= i < |xs| ==> SortDescending(xs, key)[i] == xs[order[i]]
  {
    OrderSorts(KeysOf(xs, key), |xs|);
    OrderUnique(order, Order(KeysOf(xs, key), |xs|), KeysOf(xs, key), |xs|);
  }

  lemma SortedOut<T>(xs: seq<T>, key: T -> int)
    ensures var sorted := SortDescending(xs, key);
            && (forall i :: 0 <= i < |sorted| ==> sorted[i] in xs)
            && forall i, j :: 0 <= i < j < |sorted| ==> key(sorted[i]) >= key(sorted[j])
  {
    var keys := KeysOf(xs, key);
    var order := Order(keys, |xs|);
    OrderSorts(keys, |xs|);
    forall i, j | 0 <= i < j < |xs| ensures keys[order[i]] >= keys[order[j]] {
      assert Ahead(keys, order[i], order[j]);
    }
  }

  lemma SortKeepsElements<T>(xs: seq<T>, key: T -> int)
    ensures multiset(SortDescending(xs, key)) == multiset(xs)
  {
    PickKeeps(xs, KeysOf(xs, key), |xs|);
    assert xs[..|xs|] == xs;
  }

  lemma {:induction false} PickKeeps<T>(xs: seq<T>, keys: seq<int>, n: nat)
    requires n <= |keys| == |xs|
    ensures multiset(Pick(xs, Order(keys, n))) == multiset(xs[..n])
  {
    if n == 0 {
      assert Pick(xs, []) == [] && xs[..0] == [];
    } else {
      hide *;
      PickKeeps(xs, keys, n - 1);
      PickMore(xs, keys, n);
      PrefixMore(xs, n);
    }
  }

  lemma PickMore<T>(xs: seq<T>, keys: seq<int>, n: nat)
    requires 0 < n <= |keys| == |xs|
    ensures multiset(Pick(xs, Order(keys, n))) == multiset(Pick(xs, Order(keys, n - 1))) + multiset{xs[n - 1]}
  {
    var before := Order(keys, n - 1);
    var p := PlaceFor(before, keys, keys[n - 1]);
    assert Order(keys, n) == Inserted(before, p, n - 1);
    hide Inserted, Order, Pick, PlaceFor;
    PickInserted(xs, before, p, n - 1);
  }

  lemma PrefixMore<T>(xs: seq<T>, n: nat)
    requires 0 < n <= |xs|
    ensures multiset(xs[..n]) == multiset(xs[..n - 1]) + multiset{xs[n - 1]}
  {
    assert xs[..n] == xs[..n - 1] + [xs[n - 1]];
  }

  lemma PickConcat<T>(xs: seq<T>, a: seq<nat>, b: seq<nat>)
    requires forall i :: 0 <= i < |a| ==> a[i] < |xs|
    requires forall i :: 0 <= i < |b| ==> b[i] < |xs|
    ensures forall i :: 0 <= i < |a + b| ==> (a + b)[i] < |xs|
    ensures Pick(xs, a + b) == Pick(xs, a) + Pick(xs, b)
  {}

  lemma PickInserted<T>(xs: seq<T>, order: seq<nat>, p: nat, x: nat)
    requires p <= |order| && x < |xs| && forall i :: 0 <= i < |order| ==> order[i] < |xs|
    ensures forall i :: 0 <= i < |Inserted(order, p, x)| ==> Inserted(order, p, x)[i] < |xs|
    ensures multiset(Pick(xs, Inserted(order, p, x))) == multiset(Pick(xs, order)) + multiset{xs[x]}
  {
    assert order == order[..p] + order[p..];
    PickConcat(xs, order[..p], order[p..]);
    PickConcat(xs, order[..p], [x]);
    PickConcat(xs, order[..p] + [x], order[p..]);
    assert Pick(xs, [x]) == [xs[x]];
  }

  // ---- one sort after another ---------------------------------------------

  /** The larger first key, or an equal one and the larger second key, or equal
      ones and the earlier position. */
  predicate Lexicographic(first: seq<int>, second: seq<int>, a: nat, b: nat)
    requires a < |first| == |second| && b < |first|
  {
    first[a] > first[b] || (first[a] == first[b] && Ahead(second, a, b))
  }

  function Map<T, U>(xs: seq<T>, f: T -> U): (ys: seq<U>)
    ensures |ys| == |xs| && forall i :: 0 <= i < |xs| ==> ys[i] == f(xs[i])
  {
    seq(|xs|, i requires 0 <= i < |xs| => f(xs[i]))
  }

  /** Sorting by one key, cutting the list, completing the rows, and sorting
      them by another key. `at` are the positions of the result in the input. */
  lemma SortTwice<T, U>(xs: seq<T>, key: T -> int, limit: nat, f: T -> U, tier: U -> int) returns (at: seq<nat>)
    requires limit <= |xs|
    ensures var out := SortDescending(Map(SortDescending(xs, key)[..limit], f), tier);
            |at| == |out| == limit && forall i :: 0 <= i < limit ==> at[i] < |xs| && out[i] == f(xs[at[i]])
    ensures forall i, j :: 0 <= i < j < limit ==>
              Lexicographic(KeysOf(Map(xs, f), tier), KeysOf(xs, key), at[i], at[j])
    ensures forall i, p: nat :: 0 <= i < limit && p < |xs| && p !in at ==> Ahead(KeysOf(xs, key), at[i], p)
  {
    var keys := KeysOf(xs, key);
    var byKey := Order(keys, |xs|);
    OrderSorts(keys, |xs|);
    var cut := Map(SortDescending(xs, key)[..limit], f);
    var tiers := KeysOf(cut, tier);
    var byTier := Order(tiers, limit);
    OrderSorts(tiers, limit);
    hide Order, IsOrder, Lexicographic, Ahead;
    at := Composed(keys, byKey, KeysOf(Map(xs, f), tier), tiers, byTier);
  }

  lemma Composed(keys: seq<int>, byKey: seq<nat>, rowTiers: seq<int>, tiers: seq<int>, byTier: seq<nat>)
    returns (at: seq<nat>)
    requires IsOrder(byKey, keys, |keys|) && |rowTiers| == |keys| && |tiers| <= |keys|
    requires IsOrder(byTier, tiers, |tiers|) && forall k :: 0 <= k < |tiers| ==> tiers[k] == rowTiers[byKey[k]]
    ensures |at| == |tiers| && forall i :: 0 <= i < |at| ==> at[i] == byKey[byTier[i]] < |keys|
    ensures forall i, j :: 0 <= i < j < |at| ==> Lexicographic(rowTiers, keys, at[i], at[j])
    ensures forall i, p: nat :: 0 <= i < |at| && p < |keys| && p !in at ==> Ahead(keys, at[i], p)
  {
    at := seq(|tiers|, i requires 0 <= i < |tiers| => byKey[byTier[i]]);
    forall i, j | 0 <= i < j < |at| ensures Lexicographic(rowTiers, keys, at[i], at[j]) {
      assert Ahead(tiers, byTier[i], byTier[j]);
    }
    forall i, p: nat | 0 <= i < |at| && p < |keys| && p !in at ensures Ahead(keys, at[i], p) {
      assert p in byKey;
      var k := CutBehind(byKey, byTier, at, p);
      assert Ahead(keys, byKey[byTier[i]], byKey[k]);
    }
  }

  lemma CutBehind(byKey: seq<nat>, byTier: seq<nat>, at: seq<nat>, p: nat) returns (k: nat)
    requires |byTier| == |at| <= |byKey| && p in byKey && p !in at
    requires forall i :: 0 <= i < |at| ==> byTier[i] < |at| && at[i] == byKey[byTier[i]]
    requires forall a: nat :: a < |at| ==> a in byTier
    ensures |at| <= k < |byKey| && byKey[k] == p
  {
    k :| 0 <= k < |byKey| && byKey[k] == p;
    forall i | 0 <= i < |at| ensures byTier[i] != k {
      assert at[i] in at;
    }
    assert k !in byTier;
  }
}
