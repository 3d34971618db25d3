/** How the signals of an item enter its score and its place in the ranking
    (platform/backend/app/query/ranking.py). */
module Signals {
  import opened Wrappers
  import opened Rounding
  import opened StableSort
  import opened Ranking

  // ---- the phrase ---------------------------------------------------------

  /** From `i` on the text holds the terms one after another, a single separator
      between each two. */
  predicate Adjacent(text: string, terms: seq<string>, separator: char, i: nat) {
    if terms == [] then i <= |text|
    else
      var end := i + |terms[0]|;
      && end <= |text| && text[i..end] == terms[0]
      && (|terms| == 1
          || (end < |text| && text[end] == separator && Adjacent(text, terms[1..], separator, end + 1)))
  }

  lemma OccursSplit(text: string, first: string, separator: char, rest: string, i: nat)
    ensures OccursAt(text, first + [separator] + rest, i) <==>
            var end := i + |first|;
            end < |text| && text[i..end] == first && text[end] == separator && OccursAt(text, rest, end + 1)
  {
    var phrase, end := first + [separator] + rest, i + |first|;
    if i + |phrase| <= |text| {
      var found := text[i..i + |phrase|];
      assert found == text[i..end] + [text[end]] + text[end + 1..end + 1 + |rest|];
      assert found[..|first|] == text[i..end] && found[|first|] == text[end];
      assert found[|first| + 1..] == text[end + 1..end + 1 + |rest|];
      assert phrase[..|first|] == first && phrase[|first| + 1..] == rest;
    }
  }

  lemma {:induction false} AdjacentJoined(text: string, terms: seq<string>, separator: char, i: nat)
    ensures Adjacent(text, terms, separator, i) <==> OccursAt(text, Join(terms, [separator]), i)
  {
    if |terms| > 1 {
      var rest := Join(terms[1..], [separator]);
      AdjacentJoined(text, terms[1..], separator, i + |terms[0]| + 1);
      OccursSplit(text, terms[0], separator, rest, i);
      assert Join(terms, [separator]) == terms[0] + [separator] + rest;
      hide OccursAt;
    }
  }

  lemma PhraseWith(text: string, terms: seq<string>, separator: char)
    ensures Contains(text, Join(terms, [separator])) <==>
            exists i :: 0 <= i <= |text| && Adjacent(text, terms, separator, i)
  {
    var phrase := Join(terms, [separator]);
    hide Adjacent, Join, OccursAt;
    if i :| 0 <= i <= |text| && OccursAt(text, phrase, i) {
      AdjacentJoined(text, terms, separator, i);
    }
    if i :| 0 <= i <= |text| && Adjacent(text, terms, separator, i) {
      AdjacentJoined(text, terms, separator, i);
    }
  }

  /** A full phrase match: the terms of the query stand in the identity of the item
      in order, single spaces between all of them or single hyphens. */
  lemma PhraseIff(terms: seq<string>, item: Item)
    ensures PhraseInIdentity(terms, item) <==>
            || (exists i :: 0 <= i <= |item.identity| && Adjacent(item.identity, terms, ' ', i))
            || (exists i :: 0 <= i <= |item.identity| && Adjacent(item.identity, terms, '-', i))
  {
    PhraseWith(item.identity, terms, ' ');
    PhraseWith(item.identity, terms, '-');
  }

  lemma {:induction false} MatchedEnds(terms: seq<string>, text: string)
    ensures CountMatched(terms, text) == |terms| <==> forall k :: 0 <= k < |terms| ==> Contains(text, terms[k])
    ensures CountMatched(terms, text) == 0 <==> forall k :: 0 <= k < |terms| ==> !Contains(text, terms[k])
  {
    hide Contains;
    if terms != [] {
      MatchedEnds(terms[1..], text);
      assert forall k :: 0 < k < |terms| ==> terms[k] == terms[1..][k - 1];
      assert forall k :: 0 <= k < |terms[1..]| ==> terms[1..][k] == terms[k + 1];
    }
  }

  /** A direct match, without counting: some term of the query occurs in the text,
      and either all of them do or the phrase stands in the identity. */
  lemma DirectIff(terms: seq<string>, item: Item)
    ensures Direct(terms, item) <==>
            && (exists k :: 0 <= k < |terms| && Contains(item.text, terms[k]))
            && ((forall k :: 0 <= k < |terms| ==> Contains(item.text, terms[k])) || PhraseInIdentity(terms, item))
  {
    MatchedEnds(terms, item.text);
    hide Contains, PhraseInIdentity;
  }

  // ---- the other signals --------------------------------------------------

  /** Freshness falls evenly from 1 to 0 over ninety days, in seconds. */
  lemma FreshnessDecays(item: Item)
    ensures item.ageSeconds <= 0 ==> Freshness(item) == 1.0
    ensures 0 <= item.ageSeconds <= 7776000 ==>
              Freshness(item) * 7776000.0 == (7776000 - item.ageSeconds) as real
    ensures item.ageSeconds >= 7776000 ==> Freshness(item) == 0.0
  {
  }

  lemma NewerIsFresher(newer: Item, older: Item)
    requires newer.ageSeconds <= older.ageSeconds
    ensures Freshness(newer) >= Freshness(older)
  {
  }

  /** Evidence is a sixth for each distinct evidence or source key, up to six of
      either kind. */
  lemma EvidenceCounts(item: Item)
    ensures item.evidenceKeys + item.sourceKeys <= 6 ==>
              Evidence(item) * 6.0 == (item.evidenceKeys + item.sourceKeys) as real
    ensures item.evidenceKeys + item.sourceKeys >= 6 ==> Evidence(item) == 1.0
  {
  }

  predicate NonNegative(w: Weights) {
    w.relevance >= 0.0 && w.reliability >= 0.0 && w.freshness >= 0.0 && w.evidence >= 0.0
  }

  /** At least as good by every signal. */
  predicate NoWorse(a: Item, b: Item) {
    && a.semantic >= b.semantic && a.reliability >= b.reliability && a.ageSeconds <= b.ageSeconds
    && a.evidenceKeys + a.sourceKeys >= b.evidenceKeys + b.sourceKeys
    && Priority(a) >= Priority(b)
  }

  lemma WeightedMonotone(w: real, x: real, y: real)
    requires w >= 0.0 && x >= y
    ensures Weighted(w, x) >= Weighted(w, y)
  {
    Product(w, x - y);
  }

  lemma QualityMonotone(lexicalA: real, a: Item, lexicalB: real, b: Item, w: Weights)
    requires NonNegative(w) && NoWorse(a, b) && lexicalA >= lexicalB
    ensures QualityScore(lexicalA, a, w) >= QualityScore(lexicalB, b, w)
  {
    NewerIsFresher(a, b);
    assert Evidence(a) >= Evidence(b);
    hide Weighted, Freshness, Evidence;
    WeightedMonotone(w.relevance, Max(a.semantic, lexicalA), Max(b.semantic, lexicalB));
    WeightedMonotone(w.reliability, a.reliability, b.reliability);
    WeightedMonotone(w.freshness, Freshness(a), Freshness(b));
    WeightedMonotone(w.evidence, Evidence(a), Evidence(b));
  }

  /** No signal counts against an item: one that is at least as good by each,
      source and lexical match included, never scores lower. */
  lemma ScoreMonotone(lexicalA: real, a: Item, lexicalB: real, b: Item, w: Weights)
    requires NonNegative(w) && NoWorse(a, b) && lexicalA >= lexicalB
    ensures FinalScore(lexicalA, a, w) >= FinalScore(lexicalB, b, w)
  {
    QualityMonotone(lexicalA, a, lexicalB, b, w);
    hide QualityScore, HalfEven, Priority;
    assert Bonus(lexicalA, a, w) >= Bonus(lexicalB, b, w);
    var x := lexicalA * 10.0 + QualityScore(lexicalA, a, w) + Bonus(lexicalA, a, w);
    var y := lexicalB * 10.0 + QualityScore(lexicalB, b, w) + Bonus(lexicalB, b, w);
    HalfEvenMonotone(y * 1000000.0, x * 1000000.0);
  }

  /** The same item but for its id and its age. */
  predicate SameButAge(a: Item, b: Item) {
    a == b.(id := a.id, ageSeconds := a.ageSeconds)
  }

  /** Within ninety days, and by more than a millionth of a point. */
  predicate Outweighs(newer: Item, older: Item, w: Weights) {
    && 0 <= newer.ageSeconds < older.ageSeconds <= 7776000
    && Weighted(w.freshness, (older.ageSeconds - newer.ageSeconds) as real) > 7.776
  }

  /** What age is worth: among otherwise equal items the newer scores higher as
      soon as its lead within the ninety days outweighs the rounding, which takes
      78 seconds under the shipped weights. */
  lemma NewerScoresHigher(lexical: real, newer: Item, older: Item, w: Weights)
    requires NonNegative(w) && SameButAge(newer, older)
    requires Outweighs(newer, older, w)
    ensures FinalScore(lexical, newer, w) > FinalScore(lexical, older, w)
  {
    QualityMonotone(lexical, newer, lexical, older, w);
    AgeLead(lexical, newer, older, w);
    hide QualityScore, HalfEven, Weighted;
    assert Priority(newer) == Priority(older);
    assert Bonus(lexical, newer, w) >= Bonus(lexical, older, w);
    var x := lexical * 10.0 + QualityScore(lexical, newer, w) + Bonus(lexical, newer, w);
    var y := lexical * 10.0 + QualityScore(lexical, older, w) + Bonus(lexical, older, w);
    Unscaled(QualityScore(lexical, newer, w) - QualityScore(lexical, older, w),
             Weighted(w.freshness, (older.ageSeconds - newer.ageSeconds) as real));
    HalfEvenApart(y * 1000000.0, x * 1000000.0);
  }

  lemma Unscaled(lead: real, scaled: real)
    requires lead * 7776000.0 == scaled && scaled > 7.776
    ensures lead > 0.000001
  {
  }

  lemma AgeLead(lexical: real, newer: Item, older: Item, w: Weights)
    requires SameButAge(newer, older) && 0 <= newer.ageSeconds <= older.ageSeconds <= 7776000
    ensures (QualityScore(lexical, newer, w) - QualityScore(lexical, older, w)) * 7776000.0
            == Weighted(w.freshness, (older.ageSeconds - newer.ageSeconds) as real)
  {
    FreshnessDecays(newer);
    FreshnessDecays(older);
    var f: real, g: real := Freshness(newer), Freshness(older);
    hide Freshness;
    assert Evidence(newer) == Evidence(older);
    assert QualityScore(lexical, newer, w) - QualityScore(lexical, older, w) == w.freshness * f - w.freshness * g;
    assert (f - g) * 7776000.0 == (older.ageSeconds - newer.ageSeconds) as real;
    assert (w.freshness * f - w.freshness * g) * 7776000.0 == w.freshness * ((f - g) * 7776000.0);
  }

  // ---- the order of the rows ----------------------------------------------

  /** The input positions of the ranked rows: each surviving item once, by score,
      ties in input order. */
  ghost predicate RanksAt(terms: seq<string>, items: seq<Item>, w: Weights, at: seq<nat>) {
    var scores, ranked := LexicalScores(terms, items), Rank(terms, items, w);
    && |at| == |ranked|
    && (forall k :: 0 <= k < |at| ==> at[k] < |items| && ranked[k] == RankOne(scores, items[at[k]], w))
    && (forall i :: i in at <==> i in Survivors(scores, items, |items|))
    && forall k, l :: 0 <= k < l < |at| ==>
         ranked[k].finalScore > ranked[l].finalScore
         || (ranked[k].finalScore == ranked[l].finalScore && at[k] < at[l])
  }

  lemma RankOrder(terms: seq<string>, items: seq<Item>, w: Weights) returns (at: seq<nat>)
    ensures RanksAt(terms, items, w, at)
  {
    hide Survivors, LexicalScores, FinalScore, Order, IsOrder, Ahead, RankOne, SortDescending;
    var scores := LexicalScores(terms, items);
    var rows, stay := Scored(scores, items, w, |items|), Survivors(scores, items, |items|);
    ScoredSurvivors(scores, items, w, |items|);
    hide Scored;
    var keys := KeysOf(rows, FINAL_SCORE);
    var order := Order(keys, |rows|);
    OrderSorts(keys, |rows|);
    SortMeaning(rows, FINAL_SCORE, order);
    at := Placed(stay, order, keys);
    InOrder(rows, keys, order, stay, SortDescending(rows, FINAL_SCORE), at);
  }

  lemma InOrder(rows: seq<Ranked>, keys: seq<int>, order: seq<nat>, stay: seq<nat>, ranked: seq<Ranked>, at: seq<nat>)
    requires |rows| == |keys| == |order| == |stay| == |ranked| == |at| && IsOrder(order, keys, |rows|)
    requires forall k :: 0 <= k < |rows| ==> keys[k] == rows[k].finalScore
    requires forall k :: 0 <= k < |rows| ==> ranked[k] == rows[order[k]] && at[k] == stay[order[k]]
    requires forall p, q :: 0 <= p < q < |stay| ==> stay[p] < stay[q]
    ensures forall k, l :: 0 <= k < l < |at| ==>
              ranked[k].finalScore > ranked[l].finalScore
              || (ranked[k].finalScore == ranked[l].finalScore && at[k] < at[l])
  {
    forall k, l | 0 <= k < l < |at|
      ensures ranked[k].finalScore > ranked[l].finalScore
              || (ranked[k].finalScore == ranked[l].finalScore && at[k] < at[l])
    {
      assert Ahead(keys, order[k], order[l]);
    }
  }

  /** The positions that stay, in the order of the sort. */
  lemma Placed(stay: seq<nat>, order: seq<nat>, keys: seq<int>) returns (at: seq<nat>)
    requires |keys| == |stay| && IsOrder(order, keys, |stay|)
    ensures |at| == |stay| && forall k :: 0 <= k < |at| ==> at[k] == stay[order[k]]
    ensures forall i :: i in at <==> i in stay
  {
    at := seq(|order|, k requires 0 <= k < |order| => stay[order[k]]);
    forall i | i in stay ensures i in at {
      var p :| 0 <= p < |stay| && stay[p] == i;
      assert p in order;
      var k :| 0 <= k < |order| && order[k] == p;
      assert at[k] == i;
    }
  }

  /** A newer item is never behind an older one that is its equal otherwise, but
      for a tie that the input order decides; and it is ahead as soon as its lead
      outweighs the rounding. */
  lemma NewerNeverBehind(terms: seq<string>, items: seq<Item>, w: Weights, at: seq<nat>, k: nat, l: nat)
    requires RanksAt(terms, items, w, at) && k < |at| && l < |at|
    requires NonNegative(w) && SameButAge(items[at[k]], items[at[l]])
    requires LexicalScores(terms, items)[items[at[k]].id] == LexicalScores(terms, items)[items[at[l]].id]
    requires items[at[k]].ageSeconds < items[at[l]].ageSeconds
    ensures var newer, older := items[at[k]], items[at[l]]; var ranked := Rank(terms, items, w);
            && (k < l || (ranked[k].finalScore == ranked[l].finalScore && at[l] < at[k]))
            && (Outweighs(newer, older, w) ==> k < l)
  {
    var newer, older := items[at[k]], items[at[l]];
    var lexical := LexicalScores(terms, items)[newer.id];
    var ranked := Rank(terms, items, w);
    assert ranked[k] == Ranked(newer, FinalScore(lexical, newer, w));
    assert ranked[l] == Ranked(older, FinalScore(lexical, older, w));
    assert l < k ==> ranked[l].finalScore > ranked[k].finalScore
                     || (ranked[l].finalScore == ranked[k].finalScore && at[l] < at[k]);
    hide RanksAt, LexicalScores, Rank, FinalScore, Survivors, NoWorse;
    assert NoWorse(newer, older) by { EqualButAge(newer, older); }
    ScoreMonotone(lexical, newer, lexical, older, w);
    if Outweighs(newer, older, w) {
      NewerScoresHigher(lexical, newer, older, w);
    }
  }

  lemma EqualButAge(newer: Item, older: Item)
    requires SameButAge(newer, older) && newer.ageSeconds <= older.ageSeconds
    ensures NoWorse(newer, older)
  {
  }
}
