/** Presentation order of search results
    (platform/backend/app/verification/bridge.py, platform/backend/app/api/routes.py). */
module Tiers {
  import opened Wrappers
  import opened StableSort
  import opened Ranking

  const TIER_UNVERIFIED := 0
  const TIER_VERIFIED := 1
  const TIER_OFFICIAL := 2

  /** A search result with the badge attached to it, if a registry row matched. */
  datatype Row = Row(ranked: Ranked, badge: Option<bool>)

  /** `_result_tier`. */
  function Tier(row: Row): int {
    if Some("official_connectors") in row.ranked.item.providers then TIER_OFFICIAL
    else if row.badge == Some(true) then TIER_VERIFIED
    else TIER_UNVERIFIED
  }

  const TIER: Row -> int := (row: Row) => Tier(row)

  /** `order_results_by_tier`: the list is sorted in place. */
  method OrderResultsByTier(rows: array<Row>)
    modifies rows
    ensures rows[..] == SortDescending(old(rows[..]), TIER)
  {
    var sorted := SortDescending(rows[..], TIER);
    OrderSorts(KeysOf(rows[..], TIER), rows.Length);
    for i := 0 to rows.Length
      invariant rows[..i] == sorted[..i]
    {
      rows[i] := sorted[i];
    }
    assert rows[..] == rows[..rows.Length] && sorted == sorted[..rows.Length];
  }

  /** A vendor endpoint. */
  predicate Official(item: Item) {
    Some("official_connectors") in item.providers
  }

  /** The tiers, by what a row holds: a vendor endpoint with any badge, a row
      with the badge, and all others, a registry row without it included. */
  predicate InTier(row: Row, tier: int) {
    if Official(row.ranked.item) then tier == 2
    else if row.badge == Some(true) then tier == 1
    else tier == 0
  }

  // ---- counting -----------------------------------------------------------

  function CountTier(rows: seq<Row>, tier: int): (n: nat)
    ensures n <= |rows|
  {
    if rows == [] then 0
    else CountTier(rows[..|rows| - 1], tier) + if Tier(rows[|rows| - 1]) == tier then 1 else 0
  }

  /** `count_badge_tiers`. */
  method CountBadgeTiers(rows: seq<Row>) returns (verified: nat, official: nat)
    ensures verified == CountTier(rows, TIER_VERIFIED) && official == CountTier(rows, TIER_OFFICIAL)
    ensures verified == |InTierTo(rows, |rows|, 1)| && official == |InTierTo(rows, |rows|, 2)|
  {
    verified, official := 0, 0;
    for i := 0 to |rows|
      invariant verified == CountTier(rows[..i], TIER_VERIFIED) && official == CountTier(rows[..i], TIER_OFFICIAL)
    {
      assert rows[..i + 1][..i] == rows[..i];
      var tier := Tier(rows[i]);
      if tier == TIER_OFFICIAL {
        official := official + 1;
      } else if tier == TIER_VERIFIED {
        verified := verified + 1;
      }
    }
    assert rows[..|rows|] == rows;
    CountIsSize(rows, |rows|, TIER_VERIFIED);
    CountIsSize(rows, |rows|, TIER_OFFICIAL);
  }

  lemma TierMeaning(row: Row, tier: int)
    ensures Tier(row) == tier <==> InTier(row, tier)
  {
  }

  function InTierTo(rows: seq<Row>, n: nat, tier: int): set<int>
    requires n <= |rows|
  {
    set i | 0 <= i < n && InTier(rows[i], tier)
  }

  lemma {:induction false} CountIsSize(rows: seq<Row>, n: nat, tier: int)
    requires n <= |rows|
    ensures CountTier(rows[..n], tier) == |InTierTo(rows, n, tier)|
  {
    hide InTier, Tier;
    if n > 0 {
      CountIsSize(rows, n - 1, tier);
      TierMeaning(rows[n - 1], tier);
      assert rows[..n][..n - 1] == rows[..n - 1];
      assert InTierTo(rows, n, tier) == InTierTo(rows, n - 1, tier) + if InTier(rows[n - 1], tier) then {n - 1} else {};
    }
  }

  lemma {:induction false} CountsAreBoundaries(rows: seq<Row>)
    requires forall i, j :: 0 <= i < j < |rows| ==> Tier(rows[i]) >= Tier(rows[j])
    ensures var verified, official := CountTier(rows, TIER_VERIFIED), CountTier(rows, TIER_OFFICIAL);
            && verified + official <= |rows|
            && forall i :: 0 <= i < |rows| ==>
                 Tier(rows[i]) == if i < official then TIER_OFFICIAL
                                  else if i < official + verified then TIER_VERIFIED
                                  else TIER_UNVERIFIED
  {
    if rows != [] {
      var n := |rows| - 1;
      CountsAreBoundaries(rows[..n]);
      forall i | 0 <= i < n ensures rows[..n][i] == rows[i] && Tier(rows[i]) >= Tier(rows[n]) {}
    }
  }

  lemma {:induction false} CountConcat(a: seq<Row>, b: seq<Row>, tier: int)
    ensures CountTier(a + b, tier) == CountTier(a, tier) + CountTier(b, tier)
  {
    if b == [] {
      assert a + b == a;
    } else {
      var n := |b| - 1;
      CountConcat(a, b[..n], tier);
      assert (a + b)[..|a + b| - 1] == a + b[..n];
    }
  }

  lemma TakeOut(rows: seq<Row>, row: Row, tier: int) returns (rest: seq<Row>)
    requires row in rows
    ensures multiset(rest) + multiset{row} == multiset(rows)
    ensures CountTier(rows, tier) == CountTier(rest, tier) + if Tier(row) == tier then 1 else 0
  {
    var k :| 0 <= k < |rows| && rows[k] == row;
    rest := rows[..k] + rows[k + 1..];
    CountConcat(rows[..k], rows[k + 1..], tier);
    CountConcat(rows[..k] + [row], rows[k + 1..], tier);
    assert (rows[..k] + [row])[..k] == rows[..k];
    hide CountTier;
    assert rows == rows[..k] + [row] + rows[k + 1..];
  }

  lemma Cancel(m: multiset<Row>, n: multiset<Row>, row: Row)
    requires m + multiset{row} == n + multiset{row}
    ensures m == n
  {
    assert m == m + multiset{row} - multiset{row} == n;
  }

  lemma {:induction false} SameCounts(a: seq<Row>, b: seq<Row>, tier: int)
    requires multiset(a) == multiset(b)
    ensures CountTier(a, tier) == CountTier(b, tier)
    decreases |a|
  {
    if a == [] {
      assert |multiset(b)| == 0;
    } else {
      var n := |a| - 1;
      assert a == a[..n] + [a[n]] && a[n] in multiset(b);
      var rest := TakeOut(b, a[n], tier);
      Cancel(multiset(a[..n]), multiset(rest), a[n]);
      SameCounts(a[..n], rest, tier);
    }
  }

  /** Counting before or after the ordering gives the same, and the counts mark
      the blocks of the ordered list. */
  lemma OrderedBlocks(rows: seq<Row>)
    ensures var verified, official := CountTier(rows, TIER_VERIFIED), CountTier(rows, TIER_OFFICIAL);
            var sorted := SortDescending(rows, TIER);
            && multiset(sorted) == multiset(rows)
            && |sorted| == |rows| && verified + official <= |rows|
            && forall i :: 0 <= i < |rows| ==>
                 InTier(sorted[i], if i < official then 2 else if i < official + verified then 1 else 0)
  {
    var sorted := SortDescending(rows, TIER);
    SortKeepsElements(rows, TIER);
    SameCounts(sorted, rows, TIER_VERIFIED);
    SameCounts(sorted, rows, TIER_OFFICIAL);
    SortedOut(rows, TIER);
    forall i, j | 0 <= i < j < |sorted| ensures Tier(sorted[i]) >= Tier(sorted[j]) {
      assert TIER(sorted[i]) >= TIER(sorted[j]);
    }
    CountsAreBoundaries(sorted);
    forall row: Row, tier ensures Tier(row) == tier <==> InTier(row, tier) {
      TierMeaning(row, tier);
    }
    hide Tier, InTier, CountTier, SortDescending;
  }

  // ---- the order shown ----------------------------------------------------

  function AtMost(limit: nat, n: nat): nat { if limit < n then limit else n }

  function WithBadge(badges: Ranked -> Option<bool>): Ranked -> Row {
    (ranked: Ranked) => Row(ranked, badges(ranked))
  }

  /** What a search shows: the best `limit` results, with whatever badges the
      registry attaches to them, by tier. */
  function Shown(ranked: seq<Ranked>, limit: nat, badges: Ranked -> Option<bool>): seq<Row> {
    SortDescending(Map(ranked[..AtMost(limit, |ranked|)], WithBadge(badges)), TIER)
  }

  /** `a` is shown above `b`: by tier, then score, then place in the input. */
  predicate Above(a: Row, b: Row, atA: nat, atB: nat) {
    || Tier(a) > Tier(b)
    || (Tier(a) == Tier(b) && a.ranked.finalScore > b.ranked.finalScore)
    || (Tier(a) == Tier(b) && a.ranked.finalScore == b.ranked.finalScore && atA < atB)
  }

  /** One score is no smaller than another, and larger unless it was first. */
  predicate NotBelow(a: Ranked, b: Ranked, atA: nat, atB: nat) {
    a.finalScore > b.finalScore || (a.finalScore == b.finalScore && atA < atB)
  }

  lemma ShownOrder(scored: seq<Ranked>, limit: nat, badges: Ranked -> Option<bool>) returns (rows: seq<nat>)
    ensures var out := Shown(SortDescending(scored, FINAL_SCORE), limit, badges);
            && |rows| == |out| == AtMost(limit, |scored|)
            && (forall i :: 0 <= i < |rows| ==> rows[i] < |scored| && out[i] == WithBadge(badges)(scored[rows[i]]))
            && (forall i, j :: 0 <= i < j < |rows| ==> Above(out[i], out[j], rows[i], rows[j]))
    ensures forall i, k: nat :: 0 <= i < |rows| && k < |scored| && k !in rows ==>
              NotBelow(scored[rows[i]], scored[k], rows[i], k)
  {
    rows := SortTwice(scored, FINAL_SCORE, AtMost(limit, |scored|), WithBadge(badges), TIER);
    hide SortDescending;
    var out := Shown(SortDescending(scored, FINAL_SCORE), limit, badges);
    var tiers, scores := KeysOf(Map(scored, WithBadge(badges)), TIER), KeysOf(scored, FINAL_SCORE);
    forall i, j | 0 <= i < j < |rows| ensures Above(out[i], out[j], rows[i], rows[j]) {
      assert Lexicographic(tiers, scores, rows[i], rows[j]);
    }
    forall i, k: nat | 0 <= i < |rows| && k < |scored| && k !in rows
      ensures NotBelow(scored[rows[i]], scored[k], rows[i], k)
    {
      assert Ahead(scores, rows[i], k);
    }
  }

  /** Search results end to end, `at` being the input positions of the items
      shown: one row an item, in the order of `Above`; and an item that stays
      but is cut by the limit has no larger score than any item shown, whatever
      its tier. */
  lemma SearchOrder(terms: seq<string>, items: seq<Item>, w: Weights, limit: nat, badges: Ranked -> Option<bool>)
    returns (at: seq<nat>)
    ensures var scores := LexicalScores(terms, items);
            var stay := Survivors(scores, items, |items|);
            var out := Shown(Rank(terms, items, w), limit, badges);
            && |at| == |out| <= limit && (|out| == limit || |out| == |stay|)
            && (forall i :: 0 <= i < |at| ==>
                  at[i] in stay && out[i] == WithBadge(badges)(RankOne(scores, items[at[i]], w)))
            && (forall i, j :: 0 <= i < j < |at| ==> Above(out[i], out[j], at[i], at[j]))
            && forall i, p :: 0 <= i < |at| && p in stay && p !in at ==>
                 NotBelow(out[i].ranked, RankOne(scores, items[p], w), at[i], p)
  {
    hide FinalScore, Lexical, LexicalScores, Scored, SortDescending, Survivors, Survives, Tier;
    var scores := LexicalScores(terms, items);
    var stay := Survivors(scores, items, |items|);
    var scored := Scored(scores, items, w, |items|);
    ScoredSurvivors(scores, items, w, |items|);
    var rows := ShownOrder(scored, limit, badges);
    var out := Shown(Rank(terms, items, w), limit, badges);
    assert forall i :: 0 <= i < |rows| ==> out[i].ranked == scored[rows[i]];
    hide *;
    at := ThroughPositions(out, rows, stay);
    forall i, p | 0 <= i < |at| && p in stay && p !in at
      ensures NotBelow(out[i].ranked, RankOne(scores, items[p], w), at[i], p)
    {
      var k := CutAt(rows, stay, at, p);
      NotBelowThrough(scored[rows[i]], scored[k], rows[i], k, stay);
    }
  }

  lemma ThroughPositions(out: seq<Row>, rows: seq<nat>, stay: seq<nat>) returns (at: seq<nat>)
    requires |out| == |rows| && forall i :: 0 <= i < |rows| ==> rows[i] < |stay|
    requires forall i, j :: 0 <= i < j < |stay| ==> stay[i] < stay[j]
    requires forall i, j :: 0 <= i < j < |rows| ==> Above(out[i], out[j], rows[i], rows[j])
    ensures |at| == |rows| && forall i :: 0 <= i < |at| ==> at[i] == stay[rows[i]]
    ensures forall i, j :: 0 <= i < j < |at| ==> Above(out[i], out[j], at[i], at[j])
  {
    at := seq(|rows|, i requires 0 <= i < |rows| => stay[rows[i]]);
    forall i, j | 0 <= i < j < |at| ensures Above(out[i], out[j], at[i], at[j]) {
      assert Above(out[i], out[j], rows[i], rows[j]);
    }
  }

  lemma CutAt(rows: seq<nat>, stay: seq<nat>, at: seq<nat>, p: nat) returns (k: nat)
    requires |at| == |rows| && forall i :: 0 <= i < |rows| ==> rows[i] < |stay| && at[i] == stay[rows[i]]
    requires p in stay && p !in at
    ensures k < |stay| && stay[k] == p && k !in rows
  {
    k :| k < |stay| && stay[k] == p;
    forall j | 0 <= j < |rows| ensures rows[j] != k {
      assert at[j] in at;
    }
  }

  lemma NotBelowThrough(a: Ranked, b: Ranked, i: nat, j: nat, stay: seq<nat>)
    requires i < |stay| && j < |stay| && NotBelow(a, b, i, j)
    requires forall i, j :: 0 <= i < j < |stay| ==> stay[i] < stay[j]
    ensures NotBelow(a, b, stay[i], stay[j])
  {}

  /** Vendor endpoints are meant to be listed first. The rows shown are the best
      `limit` by score, whatever their tiers, and an official one heads them
      exactly when there is one among those: one that ranks behind `limit` others
      is cut before the tiers are looked at. */
  lemma OfficialFirstIff(ranked: seq<Ranked>, limit: nat, badges: Ranked -> Option<bool>)
    ensures var out := Shown(ranked, limit, badges); var n := |out|;
            && n <= limit && n <= |ranked| && (n == limit || n == |ranked|)
            && multiset(out) == multiset(Map(ranked[..n], WithBadge(badges)))
            && ((out != [] && Official(out[0].ranked.item)) <==>
                exists i :: 0 <= i < n && Official(ranked[i].item))
  {
    var n := AtMost(limit, |ranked|);
    var rows := Map(ranked[..n], WithBadge(badges));
    var out := Shown(ranked, limit, badges);
    SortKeepsElements(rows, TIER);
    SortedOut(rows, TIER);
    hide SortDescending;
    assert forall row: Row :: Official(row.ranked.item) <==> Tier(row) == TIER_OFFICIAL;
    if out != [] && Official(out[0].ranked.item) {
      var i :| 0 <= i < |rows| && rows[i] == out[0];
      assert rows[i].ranked == ranked[i];
    }
    if i :| 0 <= i < n && Official(ranked[i].item) {
      assert rows[i] in multiset(out);
      var j :| 0 <= j < |out| && out[j] == rows[i];
      assert j == 0 || TIER(out[0]) >= TIER(out[j]);
    }
  }
}
