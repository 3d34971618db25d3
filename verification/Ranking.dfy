/** Ranking catalog items for a query (platform/backend/app/query/ranking.py). */
module Ranking {
  import opened Wrappers
  import opened Rounding
  import opened StableSort

  // ---- items and queries --------------------------------------------------

  /** A stored score, validated to lie between 0 and 1. */
  type Unit = x: real | 0.0 <= x <= 1.0 witness 0.0

  /** What ranking reads of an item. `text` and `identity` are the lower-cased
      searchable fields; `semantic` is the clamped cosine similarity of its
      embedding and the query's. */
  datatype Item = Item(
    id: string,
    text: string,
    identity: string,
    providers: seq<Option<string>>,
    semantic: Unit,
    reliability: Unit,
    ageSeconds: int,
    evidenceKeys: nat,
    sourceKeys: nat)

  datatype Weights = Weights(relevance: real, reliability: real, freshness: real, evidence: real)

  const DEFAULT_WEIGHTS := Weights(0.45, 0.35, 0.10, 0.10)

  const SECONDS_PER_DAY := 86400

  const MILLION := 1000000

  function Max(a: real, b: real): real { if a >= b then a else b }

  function Min(a: real, b: real): real { if a <= b then a else b }

  /** `round(x, 6)`, in millionths. */
  function Millionths(x: real): int {
    HalfEven(x * 1000000.0)
  }

  // ---- lexical relevance --------------------------------------------------

  predicate OccursAt(text: string, term: string, i: nat) {
    i + |term| <= |text| && text[i..i + |term|] == term
  }

  predicate Contains(text: string, term: string) {
    exists i :: 0 <= i <= |text| && OccursAt(text, term, i)
  }

  function Join(terms: seq<string>, separator: string): string {
    if terms == [] then ""
    else if |terms| == 1 then terms[0]
    else terms[0] + separator + Join(terms[1..], separator)
  }

  function CountMatched(terms: seq<string>, text: string): (n: nat)
    ensures n <= |terms|
  {
    if terms == [] then 0
    else (if Contains(text, terms[0]) then 1 else 0) + CountMatched(terms[1..], text)
  }

  predicate PhraseInIdentity(terms: seq<string>, item: Item) {
    Contains(item.identity, Join(terms, " ")) || Contains(item.identity, Join(terms, "-"))
  }

  /** `_lexical_relevance`: 1 for the phrase, 0.9 for all terms, at most a half
      for some of them. */
  function Lexical(terms: seq<string>, item: Item): (score: real) {
    if terms == [] then 0.0
    else
      var matched := CountMatched(terms, item.text);
      if matched == 0 then 0.0
      else if PhraseInIdentity(terms, item) then 1.0
      else if matched == |terms| then 0.9
      else Partial(matched, |terms|)
  }

  function Partial(matched: nat, of: nat): real
    requires of > 0
  {
    HalfEven(matched as real / of as real * 0.5 * 1000000.0) as real / 1000000.0
  }

  /** A direct match: some term matched, and either all of them or the phrase. */
  predicate Direct(terms: seq<string>, item: Item) {
    var matched := CountMatched(terms, item.text);
    matched > 0 && (matched == |terms| || PhraseInIdentity(terms, item))
  }

  /** The buckets, exactly, through the six-digit rounding. A partial match
      falls to 0, or reaches a half, only in queries of a million terms. */
  lemma LexicalBuckets(terms: seq<string>, item: Item)
    ensures var score, matched, n := Lexical(terms, item), CountMatched(terms, item.text), |terms|;
            && (score >= 0.9 <==> Direct(terms, item))
            && (score >= 0.9 ==> score == if PhraseInIdentity(terms, item) then 1.0 else 0.9)
            && (score < 0.9 ==> 0.0 <= score <= 0.5)
            && (!Direct(terms, item) ==> (score == 0.0 <==> MILLION * matched <= n))
            && (!Direct(terms, item) ==> (score == 0.5 <==> n > 0 && MILLION * (n - matched) <= n))
  {
    if terms != [] {
      PartialBounds(CountMatched(terms, item.text), |terms|);
    }
  }

  lemma PartialBounds(matched: nat, n: nat)
    requires matched <= n && n > 0
    ensures 0.0 <= Partial(matched, n) <= 0.5
    ensures Partial(matched, n) == 0.0 <==> MILLION * matched <= n
    ensures Partial(matched, n) == 0.5 <==> MILLION * (n - matched) <= n
  {
    var ratio := matched as real / n as real;
    RatioBounds(matched as real, n as real, ratio);
    var x := ratio * 0.5 * 1000000.0;
    HalfEvenReaches(x, 500000);
    HalfEvenZero(x);
    HalfEvenMonotone(x, 500000.0);
    HalfEvenOfInt(500000);
    hide HalfEven;
    assert (MILLION * matched) as real == 1000000.0 * matched as real;
    assert (MILLION * (n - matched)) as real == 1000000.0 * (n as real - matched as real);
  }

  lemma RatioBounds(m: real, n: real, ratio: real)
    requires 0.0 <= m <= n && n > 0.0 && ratio * n == m
    ensures 0.0 <= ratio <= 1.0
    ensures ratio <= 0.000001 <==> 1000000.0 * m <= n
    ensures ratio >= 0.999999 <==> 1000000.0 * (n - m) <= n
  {
    ScaleLe(0.0, ratio, n, 0.0, m);
    ScaleLe(ratio, 1.0, n, m, n);
    ScaleLe(ratio, 0.000001, n, m, 0.000001 * n);
    ScaleLe(0.999999, ratio, n, 0.999999 * n, m);
  }

  lemma ScaleLe(x: real, y: real, n: real, xn: real, yn: real)
    requires n > 0.0 && x * n == xn && y * n == yn
    ensures x <= y <==> xn <= yn
  {
    if x > y {
      assert (x - y) * n > 0.0;
    } else {
      assert (y - x) * n >= 0.0;
    }
  }

  lemma HalfEvenZero(x: real)
    requires x >= 0.0
    ensures HalfEven(x) == 0 <==> x <= 0.5
  {
    if x <= 0.5 {
      HalfEvenUnique(x, 0);
    }
  }

  // ---- the score ----------------------------------------------------------

  function Priority(item: Item): real {
    if item.providers == [] then 1.0
    else match item.providers[0]
      case Some("official_connectors") => 1.5
      case Some("MCP Registry") => 1.25
      case _ => 1.0
  }

  function Freshness(item: Item): Unit {
    var age := Max(0.0, item.ageSeconds as real / SECONDS_PER_DAY as real);
    Max(0.0, Min(1.0, 1.0 - age / 90.0))
  }

  function Evidence(item: Item): Unit {
    Min(1.0, (item.evidenceKeys + item.sourceKeys) as real / 6.0)
  }

  function Weighted(w: real, x: real): real { w * x }

  function QualityScore(lexical: real, item: Item, w: Weights): real {
    Weighted(w.relevance, Max(item.semantic, lexical)) + Weighted(w.reliability, item.reliability)
    + Weighted(w.freshness, Freshness(item)) + Weighted(w.evidence, Evidence(item))
  }

  function Bonus(lexical: real, item: Item, w: Weights): real {
    if Priority(item) >= 1.5 && lexical >= 0.5 && QualityScore(lexical, item, w) >= 0.6 then 0.35
    else if Priority(item) > 1.0 && lexical >= 0.5 && QualityScore(lexical, item, w) >= 0.6 then 0.15
    else 0.0
  }

  /** `final_score`, in millionths. */
  function FinalScore(lexical: real, item: Item, w: Weights): int {
    Millionths(lexical * 10.0 + QualityScore(lexical, item, w) + Bonus(lexical, item, w))
  }

  /** The preference for official sources is kept to direct matches, but for
      queries that miss at most one term in a million. */
  lemma BonusNeedsMatch(terms: seq<string>, item: Item, w: Weights)
    ensures var lexical := Lexical(terms, item);
            Bonus(lexical, item, w) > 0.0 <==>
            && Priority(item) > 1.0 && QualityScore(lexical, item, w) >= 0.6
            && (Direct(terms, item)
                || (terms != [] && MILLION * (|terms| - CountMatched(terms, item.text)) <= |terms|))
  {
    LexicalBuckets(terms, item);
  }

  predicate Qualifies(lexical: real, quality: real) {
    lexical >= 0.5 && quality >= 0.6
  }

  /** By how much the bonuses favour a vendor endpoint over a rival: one of the
      registry, or one of any other source, which never has a bonus. */
  function Advantage(vendorQualifies: bool, rivalIsRegistry: bool, rivalQualifies: bool): real {
    if vendorQualifies then if rivalIsRegistry && rivalQualifies then 0.2 else 0.35
    else if rivalIsRegistry && rivalQualifies then -0.15
    else 0.0
  }

  /** Vendor endpoints are meant to outrank everything. For all lexical scores
      and qualities, and every rival that is not one itself, they do so if the
      rival leads by less than that advantage, to within a millionth, and do not
      if it leads by as much. */
  lemma VendorOutranks(vendorLexical: real, vendor: Item, rivalLexical: real, rival: Item, w: Weights)
    requires Priority(vendor) == 1.5 && Priority(rival) != 1.5
    ensures var vendorQuality := QualityScore(vendorLexical, vendor, w);
            var rivalQuality := QualityScore(rivalLexical, rival, w);
            var lead := 10.0 * (rivalLexical - vendorLexical) + rivalQuality - vendorQuality;
            var advantage := Advantage(Qualifies(vendorLexical, vendorQuality), Priority(rival) == 1.25,
                                       Qualifies(rivalLexical, rivalQuality));
            && (lead < advantage - 0.000001 ==>
                  FinalScore(vendorLexical, vendor, w) > FinalScore(rivalLexical, rival, w))
            && (lead >= advantage ==>
                  FinalScore(vendorLexical, vendor, w) <= FinalScore(rivalLexical, rival, w))
  {
    var x := (vendorLexical * 10.0 + QualityScore(vendorLexical, vendor, w)
              + Bonus(vendorLexical, vendor, w)) * 1000000.0;
    var y := (rivalLexical * 10.0 + QualityScore(rivalLexical, rival, w)
              + Bonus(rivalLexical, rival, w)) * 1000000.0;
    hide QualityScore, HalfEven;
    if y + 1.0 < x {
      HalfEvenApart(y, x);
    } else if x <= y {
      HalfEvenMonotone(x, y);
    }
  }

  lemma HalfEvenApart(x: real, y: real)
    requires x + 1.0 < y
    ensures HalfEven(x) < HalfEven(y)
  {
    var gap := HalfEven(y) - HalfEven(x);
    assert gap as real == HalfEven(y) as real - HalfEven(x) as real;
  }

  const VENDOR := Item("v", "q", "q", [Some("official_connectors")], 1.0, 0.5, 0, 0, 0)
  const MIRROR := Item("m", "q", "q", [Some("MCP Registry")], 1.0, 1.0, 0, 6, 0)

  /** With the shipped weights a full match from the vendor can come behind a
      full match from the mirror. */
  lemma VendorCanLose()
    ensures Direct(["q"], VENDOR) && Direct(["q"], MIRROR)
    ensures Bonus(Lexical(["q"], VENDOR), VENDOR, DEFAULT_WEIGHTS) == 0.35
    ensures FinalScore(Lexical(["q"], VENDOR), VENDOR, DEFAULT_WEIGHTS)
            < FinalScore(Lexical(["q"], MIRROR), MIRROR, DEFAULT_WEIGHTS)
  {
    FullMatch(VENDOR);
    FullMatch(MIRROR);
    VendorScores();
    hide *;
  }

  lemma VendorScores()
    ensures Bonus(1.0, VENDOR, DEFAULT_WEIGHTS) == 0.35
    ensures FinalScore(1.0, VENDOR, DEFAULT_WEIGHTS) < FinalScore(1.0, MIRROR, DEFAULT_WEIGHTS)
  {
    VendorQuality();
    hide QualityScore, HalfEven;
    assert Priority(VENDOR) == 1.5 && Priority(MIRROR) == 1.25;
    assert (10.0 + 0.725 + 0.35) * 1000000.0 == 11075000.0 && (10.0 + 1.0 + 0.15) * 1000000.0 == 11150000.0;
    HalfEvenApart(11075000.0, 11150000.0);
  }

  const WEAK_VENDOR := Item("v", "q", "q", [Some("official_connectors")], 1.0, 0.0, 0, 0, 0)
  const WEAK_MIRROR := Item("m", "q", "q", [Some("MCP Registry")], 1.0, 0.0, 0, 6, 0)

  /** Nor does it take a large lead: below 0.6 the vendor has no bonus at all,
      and a mirror a tenth of a point better comes first. */
  lemma WeakVendorLoses()
    ensures Direct(["q"], WEAK_VENDOR) && Direct(["q"], WEAK_MIRROR)
    ensures QualityScore(1.0, WEAK_VENDOR, DEFAULT_WEIGHTS) == 0.55
    ensures QualityScore(1.0, WEAK_MIRROR, DEFAULT_WEIGHTS) == 0.65
    ensures FinalScore(Lexical(["q"], WEAK_VENDOR), WEAK_VENDOR, DEFAULT_WEIGHTS)
            < FinalScore(Lexical(["q"], WEAK_MIRROR), WEAK_MIRROR, DEFAULT_WEIGHTS)
  {
    FullMatch(WEAK_VENDOR);
    FullMatch(WEAK_MIRROR);
    WeakVendorScores();
    hide *;
  }

  lemma WeakVendorScores()
    ensures QualityScore(1.0, WEAK_VENDOR, DEFAULT_WEIGHTS) == 0.55
    ensures QualityScore(1.0, WEAK_MIRROR, DEFAULT_WEIGHTS) == 0.65
    ensures FinalScore(1.0, WEAK_VENDOR, DEFAULT_WEIGHTS) < FinalScore(1.0, WEAK_MIRROR, DEFAULT_WEIGHTS)
  {
    assert Freshness(WEAK_VENDOR) == 1.0 && Freshness(WEAK_MIRROR) == 1.0;
    assert Evidence(WEAK_VENDOR) == 0.0 && Evidence(WEAK_MIRROR) == 1.0;
    assert QualityScore(1.0, WEAK_VENDOR, DEFAULT_WEIGHTS) == 0.55;
    assert QualityScore(1.0, WEAK_MIRROR, DEFAULT_WEIGHTS) == 0.65;
    hide QualityScore, HalfEven;
    assert Priority(WEAK_VENDOR) == 1.5 && Priority(WEAK_MIRROR) == 1.25;
    assert (10.0 + 0.55) * 1000000.0 == 10550000.0 && (10.0 + 0.65 + 0.15) * 1000000.0 == 10800000.0;
    HalfEvenApart(10550000.0, 10800000.0);
  }

  lemma FullMatch(item: Item)
    requires item.text == "q" && item.identity == "q"
    ensures Direct(["q"], item) && Lexical(["q"], item) == 1.0
  {
    assert OccursAt("q", "q", 0) && ["q"][1..] == [];
  }

  lemma VendorQuality()
    ensures QualityScore(1.0, VENDOR, DEFAULT_WEIGHTS) == 0.725
    ensures QualityScore(1.0, MIRROR, DEFAULT_WEIGHTS) == 1.0
  {
    assert Freshness(VENDOR) == 1.0 && Freshness(MIRROR) == 1.0;
    assert Evidence(VENDOR) == 0.0 && Evidence(MIRROR) == 1.0;
  }

  // ---- ranking ------------------------------------------------------------

  datatype Ranked = Ranked(item: Item, finalScore: int)

  const FINAL_SCORE: Ranked -> int := (r: Ranked) => r.finalScore

  /** The lexical scores by item id: of items that share an id the last counts. */
  function LexicalScores(terms: seq<string>, items: seq<Item>): (scores: map<string, real>)
    ensures forall id :: id in scores <==> exists i :: 0 <= i < |items| && items[i].id == id
  {
    if items == [] then map[]
    else
      var n := |items| - 1;
      assert forall i :: 0 <= i < n ==> items[..n][i] == items[i];
      LexicalScores(terms, items[..n])[items[n].id := Lexical(terms, items[n])]
  }

  predicate HasStrong(scores: map<string, real>) {
    exists id :: id in scores && scores[id] >= 0.9
  }

  /** Partial matches give way once there is a direct one. */
  predicate Survives(scores: map<string, real>, lexical: real) {
    !(HasStrong(scores) && 0.0 < lexical < 0.9)
  }

  /** The positions of the items that stay, in order. */
  function Survivors(scores: map<string, real>, items: seq<Item>, n: nat): (at: seq<nat>)
    requires n <= |items| && forall i :: 0 <= i < |items| ==> items[i].id in scores
    ensures forall i :: 0 <= i < |at| ==> at[i] < n
    ensures forall i, j :: 0 <= i < j < |at| ==> at[i] < at[j]
    ensures forall i: nat :: i < n ==> (i in at <==> Survives(scores, scores[items[i].id]))
  {
    if n == 0 then []
    else
      var before := Survivors(scores, items, n - 1);
      if Survives(scores, scores[items[n - 1].id]) then before + [n - 1] else before
  }

  function RankOne(scores: map<string, real>, item: Item, w: Weights): Ranked
    requires item.id in scores
  {
    Ranked(item, FinalScore(scores[item.id], item, w))
  }

  /** The rows of the first `n` items, before the sort. */
  function Scored(scores: map<string, real>, items: seq<Item>, w: Weights, n: nat): seq<Ranked>
    requires n <= |items| && forall i :: 0 <= i < |items| ==> items[i].id in scores
  {
    if n == 0 then []
    else
      var before := Scored(scores, items, w, n - 1);
      if Survives(scores, scores[items[n - 1].id]) then before + [RankOne(scores, items[n - 1], w)] else before
  }

  lemma {:induction false} ScoredSurvivors(scores: map<string, real>, items: seq<Item>, w: Weights, n: nat)
    requires n <= |items| && forall i :: 0 <= i < |items| ==> items[i].id in scores
    ensures var rows, at := Scored(scores, items, w, n), Survivors(scores, items, n);
            |rows| == |at| && forall i :: 0 <= i < |at| ==> rows[i] == RankOne(scores, items[at[i]], w)
  {
    if n > 0 {
      hide FinalScore, Survives;
      ScoredSurvivors(scores, items, w, n - 1);
      var rows, at := Scored(scores, items, w, n - 1), Survivors(scores, items, n - 1);
      var row := RankOne(scores, items[n - 1], w);
      var more := Survives(scores, scores[items[n - 1].id]);
      assert Scored(scores, items, w, n) == if more then rows + [row] else rows;
      assert Survivors(scores, items, n) == if more then at + [n - 1] else at;
      hide Scored, Survivors, RankOne;
    }
  }

  function Rank(terms: seq<string>, items: seq<Item>, w: Weights): seq<Ranked> {
    SortDescending(Scored(LexicalScores(terms, items), items, w, |items|), FINAL_SCORE)
  }

  /** `rank_items`: the scores table, the scan for a strong match, the scoring
      loop that skips, and the sort. */
  method RankItems(terms: seq<string>, items: seq<Item>, w: Weights) returns (ranked: seq<Ranked>)
    ensures ranked == Rank(terms, items, w)
  {
    var scores: map<string, real> := map[];
    for i := 0 to |items|
      invariant scores == LexicalScores(terms, items[..i])
    {
      assert items[..i + 1][..i] == items[..i];
      scores := scores[items[i].id := Lexical(terms, items[i])];
    }
    assert items[..|items|] == items;
    var hasStrongMatch := HasStrong(scores);
    hide HasStrong, LexicalScores, FinalScore, Lexical, SortDescending;
    ranked := [];
    for i := 0 to |items|
      invariant ranked == Scored(scores, items, w, i)
    {
      var lexical := scores[items[i].id];
      if hasStrongMatch && 0.0 < lexical < 0.9 {
        continue;
      }
      ranked := ranked + [Ranked(items[i], FinalScore(lexical, items[i], w))];
    }
    ranked := SortDescending(ranked, FINAL_SCORE);
  }

  /** Of the items with one id, the last: its lexical score serves them all. */
  function LastWith(items: seq<Item>, id: string): (item: Item)
    requires exists i :: 0 <= i < |items| && items[i].id == id
    ensures item in items && item.id == id
  {
    var n := |items| - 1;
    if items[n].id == id then items[n]
    else
      var i :| 0 <= i < |items| && items[i].id == id;
      assert items[..n][i].id == id;
      LastWith(items[..n], id)
  }

  lemma {:induction false} ScoreOf(terms: seq<string>, items: seq<Item>, i: nat)
    requires i < |items|
    ensures LexicalScores(terms, items)[items[i].id] == Lexical(terms, LastWith(items, items[i].id))
  {
    var n := |items| - 1;
    if items[i].id != items[n].id {
      ScoreOf(terms, items[..n], i);
    }
  }

  /** Which items are shown: all of them, unless there is a direct match; then
      the direct matches, and the items without any match. */
  lemma SurvivorsMeaning(terms: seq<string>, items: seq<Item>, i: nat)
    requires i < |items|
    ensures i in Survivors(LexicalScores(terms, items), items, |items|) <==>
            || (forall j :: 0 <= j < |items| ==> !Direct(terms, LastWith(items, items[j].id)))
            || Direct(terms, LastWith(items, items[i].id))
            || Lexical(terms, LastWith(items, items[i].id)) == 0.0
  {
    var scores := LexicalScores(terms, items);
    forall j | 0 <= j < |items|
      ensures scores[items[j].id] >= 0.9 <==> Direct(terms, LastWith(items, items[j].id))
      ensures scores[items[j].id] >= 0.0
    {
      ScoreOf(terms, items, j);
      LexicalBuckets(terms, LastWith(items, items[j].id));
    }
    ScoreOf(terms, items, i);
  }

  // ---- direct matches first -----------------------------------------------

  /** The highest score without any match, and the lowest of a direct one. */
  function CeilingWithoutMatch(w: Weights): int {
    Millionths(Max(w.relevance, 0.0) + Max(w.reliability, 0.0) + Max(w.freshness, 0.0) + Max(w.evidence, 0.0))
  }

  function FloorOfMatch(w: Weights): int {
    Millionths(9.0 + Min(w.relevance, 0.9 * w.relevance)
               + Min(w.reliability, 0.0) + Min(w.freshness, 0.0) + Min(w.evidence, 0.0))
  }

  /** No item without a match comes ahead of a direct one. */
  predicate DirectFirst(scores: map<string, real>, ranked: seq<Ranked>) {
    forall i, j :: 0 <= i < j < |ranked| && ranked[i].item.id in scores && ranked[j].item.id in scores ==>
      !(scores[ranked[i].item.id] == 0.0 && scores[ranked[j].item.id] >= 0.9)
  }

  lemma Scale(w: real, x: real)
    requires 0.0 <= x <= 1.0
    ensures Min(w, 0.0) <= Weighted(w, x) <= Max(w, 0.0)
    ensures x >= 0.9 ==> Min(w, 0.9 * w) <= Weighted(w, x)
    ensures x == 0.0 ==> Weighted(w, x) == 0.0
    ensures x == 1.0 ==> Weighted(w, x) == w
  {
    if w >= 0.0 {
      Product(w, x);
      Product(w, 1.0 - x);
      if x >= 0.9 { Product(w, x - 0.9); }
    } else {
      Product(0.0 - w, x);
      Product(0.0 - w, 1.0 - x);
    }
  }

  lemma Product(a: real, b: real)
    requires a >= 0.0 && b >= 0.0
    ensures a * b >= 0.0
  {}

  lemma WithoutMatchBelow(item: Item, w: Weights)
    ensures FinalScore(0.0, item, w) <= CeilingWithoutMatch(w)
  {
    Scale(w.relevance, item.semantic);
    Scale(w.reliability, item.reliability);
    Scale(w.freshness, Freshness(item));
    Scale(w.evidence, Evidence(item));
    hide Freshness, Evidence, HalfEven, Priority, Weighted;
    var top := Max(w.relevance, 0.0) + Max(w.reliability, 0.0) + Max(w.freshness, 0.0) + Max(w.evidence, 0.0);
    HalfEvenMonotone(QualityScore(0.0, item, w) * 1000000.0, top * 1000000.0);
  }

  lemma MatchAbove(lexical: real, item: Item, w: Weights)
    requires lexical == 0.9 || lexical == 1.0
    ensures FinalScore(lexical, item, w) >= FloorOfMatch(w)
  {
    Scale(w.relevance, Max(item.semantic, lexical));
    Scale(w.reliability, item.reliability);
    Scale(w.freshness, Freshness(item));
    Scale(w.evidence, Evidence(item));
    hide Freshness, Evidence, HalfEven, Priority, Weighted;
    var total := lexical * 10.0 + QualityScore(lexical, item, w) + Bonus(lexical, item, w);
    var bottom := 9.0 + Min(w.relevance, 0.9 * w.relevance)
      + Min(w.reliability, 0.0) + Min(w.freshness, 0.0) + Min(w.evidence, 0.0);
    HalfEvenMonotone(bottom * 1000000.0, total * 1000000.0);
  }

  /** Both ends are reached, by an item that matches nothing listed before one
      whose description holds the whole query. */
  function Extreme(id: string, text: string, semantic: Unit, high: Weights): Item {
    Item(id, text, "", [], semantic,
         if high.reliability > 0.0 then 1.0 else 0.0,
         if high.freshness > 0.0 then 0 else 90 * SECONDS_PER_DAY,
         if high.evidence > 0.0 then 6 else 0, 0)
  }

  function Opposite(w: Weights): Weights {
    Weights(0.0 - w.relevance, 0.0 - w.reliability, 0.0 - w.freshness, 0.0 - w.evidence)
  }

  function Best(w: Weights): Item {
    Extreme("best", "", if w.relevance > 0.0 then 1.0 else 0.0, w)
  }

  function Worst(w: Weights): Item {
    Extreme("worst", "q", if w.relevance > 0.0 then 0.0 else 1.0, Opposite(w))
  }

  lemma BestScores(w: Weights)
    ensures FinalScore(0.0, Best(w), w) == CeilingWithoutMatch(w)
  {
    var best := Best(w);
    assert Freshness(best) == if w.freshness > 0.0 then 1.0 else 0.0;
    assert Evidence(best) == if w.evidence > 0.0 then 1.0 else 0.0;
    assert QualityScore(0.0, best, w)
        == Max(w.relevance, 0.0) + Max(w.reliability, 0.0) + Max(w.freshness, 0.0) + Max(w.evidence, 0.0);
  }

  lemma WorstScores(w: Weights)
    ensures FinalScore(0.9, Worst(w), w) == FloorOfMatch(w)
  {
    var worst := Worst(w);
    assert Freshness(worst) == if w.freshness < 0.0 then 1.0 else 0.0;
    assert Evidence(worst) == if w.evidence < 0.0 then 1.0 else 0.0;
    assert QualityScore(0.9, worst, w)
        == Min(w.relevance, 0.9 * w.relevance) + Min(w.reliability, 0.0) + Min(w.freshness, 0.0) + Min(w.evidence, 0.0);
  }

  lemma {:induction false} RowOf(scores: map<string, real>, items: seq<Item>, w: Weights, n: nat, row: Ranked)
    requires n <= |items| && forall i :: 0 <= i < |items| ==> items[i].id in scores
    requires row in Scored(scores, items, w, n)
    ensures row.item in items && row == RankOne(scores, row.item, w)
  {
    if row !in Scored(scores, items, w, n - 1) {
      assert row == RankOne(scores, items[n - 1], w);
    } else {
      RowOf(scores, items, w, n - 1, row);
    }
  }

  /** The rows come out by score, each scored with its id's lexical score. */
  lemma RankedRows(terms: seq<string>, items: seq<Item>, w: Weights)
    ensures var scores, ranked := LexicalScores(terms, items), Rank(terms, items, w);
            && (forall i :: 0 <= i < |ranked| ==>
                  && ranked[i].item in items && ranked[i].item.id in scores
                  && ranked[i].finalScore == FinalScore(scores[ranked[i].item.id], ranked[i].item, w))
            && forall i, j :: 0 <= i < j < |ranked| ==> ranked[i].finalScore >= ranked[j].finalScore
  {
    var scores := LexicalScores(terms, items);
    var rows := Scored(scores, items, w, |items|);
    SortedOut(rows, FINAL_SCORE);
    hide FinalScore, Scored, LexicalScores, SortDescending, Lexical;
    forall row | row in rows
      ensures row.item in items && row.item.id in scores
      ensures row.finalScore == FinalScore(scores[row.item.id], row.item, w)
    {
      RowOf(scores, items, w, |items|, row);
    }
  }

  /** Direct matches come before the items without any, for every catalog and
      query, exactly for the weights that keep the two ranges of scores apart
      after rounding. */
  lemma DirectFirstIff(w: Weights)
    ensures (forall terms, items :: DirectFirst(LexicalScores(terms, items), Rank(terms, items, w)))
            <==> CeilingWithoutMatch(w) < FloorOfMatch(w)
  {
    if CeilingWithoutMatch(w) < FloorOfMatch(w) {
      forall terms, items ensures DirectFirst(LexicalScores(terms, items), Rank(terms, items, w)) {
        ApartMeansFirst(terms, items, w);
      }
    } else {
      OverlapMeansBehind(w);
    }
  }

  lemma ApartMeansFirst(terms: seq<string>, items: seq<Item>, w: Weights)
    requires CeilingWithoutMatch(w) < FloorOfMatch(w)
    ensures DirectFirst(LexicalScores(terms, items), Rank(terms, items, w))
  {
    var scores, ranked := LexicalScores(terms, items), Rank(terms, items, w);
    RankedRows(terms, items, w);
    hide FinalScore, Rank, LexicalScores, Lexical, CeilingWithoutMatch, FloorOfMatch;
    forall i | 0 <= i < |ranked|
      ensures scores[ranked[i].item.id] == 0.0 ==> ranked[i].finalScore <= CeilingWithoutMatch(w)
      ensures scores[ranked[i].item.id] >= 0.9 ==> ranked[i].finalScore >= FloorOfMatch(w)
    {
      var item := ranked[i].item;
      var k :| 0 <= k < |items| && items[k] == item;
      ScoreOf(terms, items, k);
      LexicalBuckets(terms, LastWith(items, item.id));
      if scores[item.id] == 0.0 {
        WithoutMatchBelow(item, w);
      } else if scores[item.id] >= 0.9 {
        MatchAbove(scores[item.id], item, w);
      }
    }
  }

  lemma OverlapMeansBehind(w: Weights)
    requires CeilingWithoutMatch(w) >= FloorOfMatch(w)
    ensures !DirectFirst(LexicalScores(["q"], [Best(w), Worst(w)]), Rank(["q"], [Best(w), Worst(w)], w))
  {
    var terms, items := ["q"], [Best(w), Worst(w)];
    var scores := LexicalScores(terms, items);
    OverlapLexical(w);
    BestScores(w);
    WorstScores(w);
    hide FinalScore, LexicalScores, Lexical, CeilingWithoutMatch, FloorOfMatch;
    assert Survives(scores, scores["best"]) && Survives(scores, scores["worst"]);
    var rows := Scored(scores, items, w, 2);
    assert Scored(scores, items, w, 1) == [RankOne(scores, items[0], w)];
    assert rows == [RankOne(scores, items[0], w), RankOne(scores, items[1], w)];
    var order: seq<nat> := [0, 1];
    assert order[0] == 0 && order[1] == 1;
    assert IsOrder(order, KeysOf(rows, FINAL_SCORE), 2);
    SortMeaning(rows, FINAL_SCORE, order);
  }

  lemma OverlapLexical(w: Weights)
    ensures var scores := LexicalScores(["q"], [Best(w), Worst(w)]);
            && scores.Keys == {"best", "worst"} && scores["best"] == 0.0 && scores["worst"] == 0.9
  {
    var terms, best, worst := ["q"], Best(w), Worst(w);
    assert OccursAt(worst.text, "q", 0);
    assert !Contains("", "q");
    assert CountMatched(terms[1..], best.text) == 0 && CountMatched(terms[1..], worst.text) == 0;
    assert Lexical(terms, best) == 0.0 && Lexical(terms, worst) == 0.9;
    assert [best, worst][..1] == [best] && [best][..0] == [];
    assert LexicalScores(terms, [best]) == map["best" := 0.0];
  }

  /** Weights that sum below 9 by half a millionth are enough, the shipped ones
      among them; to sum below 9 is not. */
  lemma WeightsBelowNine(w: Weights)
    requires w.relevance >= 0.0 && w.reliability >= 0.0 && w.freshness >= 0.0 && w.evidence >= 0.0
    requires w.relevance + w.reliability + w.freshness + w.evidence < 8.9999995
    ensures CeilingWithoutMatch(w) < FloorOfMatch(w)
  {
    var sum := w.relevance + w.reliability + w.freshness + w.evidence;
    var bottom := 9.0 + 0.9 * w.relevance;
    HalfEvenReaches(sum * 1000000.0, 9 * MILLION);
    HalfEvenReaches(bottom * 1000000.0, 9 * MILLION);
    hide HalfEven;
    assert CeilingWithoutMatch(w) == Millionths(sum);
    assert FloorOfMatch(w) == Millionths(bottom);
  }

  lemma NineIsNotEnough()
    ensures var w := Weights(0.0, 8.9999999, 0.0, 0.0);
            && w.relevance + w.reliability + w.freshness + w.evidence < 9.0
            && !(forall terms, items :: DirectFirst(LexicalScores(terms, items), Rank(terms, items, w)))
  {
    var w := Weights(0.0, 8.9999999, 0.0, 0.0);
    HalfEvenUnique(8999999.9, 9 * MILLION);
    HalfEvenUnique(9000000.0, 9 * MILLION);
    DirectFirstIff(w);
  }
}
