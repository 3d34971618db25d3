/** The scoring engine (platform/backend/app/verification/scoring.py).

    Credit is counted in hundredths of a point, because every entry of the
    breakdown is rounded to two decimals before it is summed. */
module Scoring {
  import opened Wrappers
  import opened Rounding
  import opened Records

  const WEIGHT_INSTALL_CONNECT := 25
  const WEIGHT_HANDSHAKE := 15
  const WEIGHT_TOOLS_LIST := 15
  const WEIGHT_TOOL_INVOCATION := 25
  const WEIGHT_SEMANTIC := 15
  const WEIGHT_MALFORMED_INPUT := 5

  const VERIFIED_MIN_SCORE := 80
  const REVIEW_MIN_SCORE := 40

  const REMOTE_ATTEMPTS_PLANNED := 3

  datatype SoftChecks = SoftChecks(
    installConnect: Option<real>,
    handshakeValid: Option<real>,
    toolsListSchema: Option<real>,
    toolInvocation: Option<real>,
    semanticValidity: Option<real>,
    noCrashMalformedInput: Option<real>,
    securityPenalty: real,
    latencyCategory: Option<string>,
    hardFail: bool,
    authBlocked: bool,
    invocationAttempted: bool)

  /** The names the breakdown can hold. */
  datatype Check =
    | CHECK_INSTALL_CONNECT
    | CHECK_HANDSHAKE
    | CHECK_TOOLS_LIST
    | CHECK_TOOL_INVOCATION
    | CHECK_SEMANTIC
    | CHECK_MALFORMED_INPUT
    | CHECK_LATENCY
    | CHECK_SECURITY

  /** One entry of the breakdown, in hundredths. */
  datatype Entry = Entry(check: Check, hundredths: int)

  datatype Outcome = Outcome(
    qualityScore: int,
    confidence: Confidence,
    status: ServerStatus,
    hardFail: bool,
    breakdown: seq<Entry>)

  function Clamp01(x: real): real {
    if x < 0.0 then 0.0 else if x > 1.0 then 1.0 else x
  }

  /** A share of a weight, rounded to hundredths of a point. */
  function Share(fraction: real, hundredths: real): int {
    HalfEven(fraction * hundredths)
  }

  lemma ProductNonNegative(a: real, b: real)
    requires 0.0 <= a && 0.0 <= b
    ensures 0.0 <= a * b
  {
  }

  lemma ShareMonotone(x: real, y: real, scale: real)
    requires 0.0 <= x <= y <= 1.0 && 0.0 <= scale
    ensures HalfEven(0.0) <= Share(x, scale) <= Share(y, scale) <= HalfEven(scale)
    ensures Share(0.0, scale) == HalfEven(0.0)
    ensures Share(1.0, scale) == HalfEven(scale)
  {
    ProductNonNegative(x, scale);
    ProductNonNegative(y - x, scale);
    ProductNonNegative(1.0 - y, scale);
    assert (y - x) * scale == y * scale - x * scale;
    assert (1.0 - y) * scale == scale - y * scale;
    HalfEvenMonotone(0.0, x * scale);
    HalfEvenMonotone(x * scale, y * scale);
    HalfEvenMonotone(y * scale, scale);
  }

  /** `round(clamp(value) * weight, 2)` in hundredths; nothing when absent. */
  function Credit(value: Option<real>, weight: nat): (h: int)
    ensures 0 <= h <= 100 * weight
    ensures value == Some(1.0) ==> h == 100 * weight
    ensures value == Some(0.0) ==> h == 0
  {
    match value
    case None => 0
    case Some(x) =>
      ShareMonotone(Clamp01(x), Clamp01(x), (100 * weight) as real);
      HalfEvenOfInt(0);
      HalfEvenOfInt(100 * weight);
      Share(Clamp01(x), (100 * weight) as real)
  }

  function LatencyPenalty(category: Option<string>): (points: nat) {
    if category == Some("moderate") then 3
    else if category == Some("slow") then 8
    else 0
  }

  /** `round(penalty * 10, 2)` in hundredths. */
  function SecurityDeduction(penalty: real): int {
    if penalty > 0.0 then HalfEven(penalty * 10.0 * 100.0) else 0
  }

  /** The rounded credit of every check; absent where the check is. */
  datatype Credits = Credits(
    installConnect: Option<int>,
    handshakeValid: Option<int>,
    toolsListSchema: Option<int>,
    toolInvocation: Option<int>,
    semanticValidity: Option<int>,
    noCrashMalformedInput: Option<int>)
  {
    function Sum(): int {
      Points(installConnect) + Points(handshakeValid) + Points(toolsListSchema)
      + Points(toolInvocation) + Points(semanticValidity) + Points(noCrashMalformedInput)
    }

    static function Points(credit: Option<int>): int {
      if credit.Some? then credit.value else 0
    }
  }

  function Rounded(value: Option<real>, weight: nat): Option<int> {
    if value.Some? then Some(Credit(value, weight)) else None
  }

  function CreditsOf(c: SoftChecks): Credits {
    Credits(Rounded(c.installConnect, WEIGHT_INSTALL_CONNECT),
            Rounded(c.handshakeValid, WEIGHT_HANDSHAKE),
            Rounded(c.toolsListSchema, WEIGHT_TOOLS_LIST),
            Rounded(c.toolInvocation, WEIGHT_TOOL_INVOCATION),
            Rounded(c.semanticValidity, WEIGHT_SEMANTIC),
            Rounded(c.noCrashMalformedInput, WEIGHT_MALFORMED_INPUT))
  }

  /** The exact sum the breakdown adds up to. */
  function RawHundredths(c: SoftChecks): int {
    CreditsOf(c).Sum() - 100 * LatencyPenalty(c.latencyCategory) - SecurityDeduction(c.securityPenalty)
  }

  function ClampHundredths(h: int): int {
    if h < 0 then 0 else if h > 10000 then 10000 else h
  }

  /** `int(round(clamp(raw, 0, 100)))`. */
  function RoundedScore(h: int): (score: int)
    ensures 0 <= score <= 100
  {
    HalfEvenMonotone(0.0, ClampHundredths(h) as real / 100.0);
    HalfEvenMonotone(ClampHundredths(h) as real / 100.0, 100.0);
    HalfEvenOfInt(0);
    HalfEvenOfInt(100);
    HalfEven(ClampHundredths(h) as real / 100.0)
  }

  function Quality(c: SoftChecks): int {
    if c.hardFail then 0 else RoundedScore(RawHundredths(c))
  }

  function ConfidenceFromAttempts(completed: int, planned: int): Confidence {
    if planned <= 1 then HIGH
    else
      var ratio := completed as real / planned as real;
      if ratio >= 1.0 then HIGH
      else if ratio >= 0.5 then MEDIUM
      else LOW
  }

  /** The status buckets, in the order the source tests them. */
  function Verdict(c: SoftChecks, confidence: Confidence): ServerStatus {
    var score := Quality(c);
    if c.hardFail then REJECTED
    else if c.authBlocked && !c.invocationAttempted then PARTIAL_VERIFIED
    else if score >= VERIFIED_MIN_SCORE && confidence == HIGH then VERIFIED
    else if score >= VERIFIED_MIN_SCORE && confidence == LOW then REVIEW
    else if REVIEW_MIN_SCORE <= score < VERIFIED_MIN_SCORE then REVIEW
    else if score < REVIEW_MIN_SCORE && confidence == HIGH then REJECTED
    else RETRY_PENDING
  }

  function Total(entries: seq<Entry>): int {
    if entries == [] then 0
    else Total(entries[..|entries| - 1]) + entries[|entries| - 1].hundredths
  }

  lemma TotalAppend(entries: seq<Entry>, e: Entry)
    ensures Total(entries + [e]) == Total(entries) + e.hundredths
  {
    assert (entries + [e])[..|entries|] == entries;
  }

  /** What the breakdown says under a name. */
  function Lookup(entries: seq<Entry>, check: Check): Option<int> {
    if entries == [] then None
    else if entries[|entries| - 1].check == check then Some(entries[|entries| - 1].hundredths)
    else Lookup(entries[..|entries| - 1], check)
  }

  lemma LookupAppend(entries: seq<Entry>, e: Entry, check: Check)
    ensures Lookup(entries + [e], check) == if e.check == check then Some(e.hundredths) else Lookup(entries, check)
  {
    assert (entries + [e])[..|entries|] == entries;
  }

  /** The nested `add`: an entry unless the check was not applicable; no other
      entry changes. */
  method Add(entries: seq<Entry>, check: Check, credit: Option<int>) returns (r: seq<Entry>)
    ensures Total(r) == Total(entries) + Credits.Points(credit)
    ensures forall c :: Lookup(r, c) == if c == check && credit.Some? then credit else Lookup(entries, c)
  {
    if credit.None? {
      return entries;
    }
    r := entries + [Entry(check, credit.value)];
    TotalAppend(entries, Entry(check, credit.value));
    forall c ensures Lookup(r, c) == if c == check then credit else Lookup(entries, c) {
      LookupAppend(entries, Entry(check, credit.value), c);
    }
  }

  /** What the breakdown holds under each name it can hold. */
  function EntryFor(check: Check, credits: Credits, latency: Option<string>, deduction: Option<int>): Option<int> {
    match check
    case CHECK_INSTALL_CONNECT => credits.installConnect
    case CHECK_HANDSHAKE => credits.handshakeValid
    case CHECK_TOOLS_LIST => credits.toolsListSchema
    case CHECK_TOOL_INVOCATION => credits.toolInvocation
    case CHECK_SEMANTIC => credits.semanticValidity
    case CHECK_MALFORMED_INPUT => credits.noCrashMalformedInput
    case CHECK_LATENCY =>
      if latency.Some? && latency.value != "" then Some(-100 * LatencyPenalty(latency)) else None
    case CHECK_SECURITY =>
      if deduction.Some? then Some(-deduction.value) else None
  }

  /** The six checks, entry by entry. */
  method FillChecks(credits: Credits) returns (breakdown: seq<Entry>)
    ensures Total(breakdown) == credits.Sum()
    ensures forall check :: Lookup(breakdown, check) == EntryFor(check, credits, None, None)
  {
    breakdown := Add([], CHECK_INSTALL_CONNECT, credits.installConnect);
    breakdown := Add(breakdown, CHECK_HANDSHAKE, credits.handshakeValid);
    breakdown := Add(breakdown, CHECK_TOOLS_LIST, credits.toolsListSchema);
    breakdown := Add(breakdown, CHECK_TOOL_INVOCATION, credits.toolInvocation);
    breakdown := Add(breakdown, CHECK_SEMANTIC, credits.semanticValidity);
    breakdown := Add(breakdown, CHECK_MALFORMED_INPUT, credits.noCrashMalformedInput);
    hide Lookup, Total;
  }

  /** Fills the breakdown: the checks, then the penalties. */
  method Breakdown(credits: Credits, latency: Option<string>, deduction: Option<int>)
    returns (breakdown: seq<Entry>)
    ensures Total(breakdown)
            == credits.Sum() - 100 * LatencyPenalty(latency) - Credits.Points(deduction)
    ensures forall check :: Lookup(breakdown, check) == EntryFor(check, credits, latency, deduction)
  {
    breakdown := FillChecks(credits);
    if latency.Some? && latency.value != "" {
      breakdown := Add(breakdown, CHECK_LATENCY, Some(-100 * LatencyPenalty(latency)));
    }
    if deduction.Some? {
      breakdown := Add(breakdown, CHECK_SECURITY, Some(-deduction.value));
    }
  }

  /** What the penalties take off: 3 points for moderate latency, 8 for slow, none
      for any other word, and ten times the security penalty to the hundredth. */
  lemma PenaltiesTaken(c: SoftChecks)
    ensures var latency := if c.latencyCategory == Some("moderate") then 300
                           else if c.latencyCategory == Some("slow") then 800 else 0;
            RawHundredths(c) == RawHundredths(c.(latencyCategory := None, securityPenalty := 0.0))
                                - latency - SecurityDeduction(c.securityPenalty)
    ensures c.securityPenalty <= 0.0 ==> SecurityDeduction(c.securityPenalty) == 0
    ensures c.securityPenalty > 0.0 ==>
              -0.5 <= c.securityPenalty * 1000.0 - SecurityDeduction(c.securityPenalty) as real <= 0.5
  {
    assert c.securityPenalty * 10.0 * 100.0 == c.securityPenalty * 1000.0;
  }

  function Deduction(c: SoftChecks): Option<int> {
    if c.securityPenalty > 0.0 then Some(SecurityDeduction(c.securityPenalty)) else None
  }

  function EntryOf(check: Check, c: SoftChecks): Option<int> {
    EntryFor(check, CreditsOf(c), c.latencyCategory, Deduction(c))
  }

  /** `score_server`: sums the breakdown, then walks the buckets. */
  method ScoreServer(c: SoftChecks, attemptsCompleted: int, attemptsPlanned: int)
    returns (outcome: Outcome)
    ensures outcome.qualityScore == Quality(c)
    ensures outcome.confidence == ConfidenceFromAttempts(attemptsCompleted, attemptsPlanned)
    ensures outcome.status == Verdict(c, outcome.confidence)
    ensures outcome.hardFail == c.hardFail
    ensures !c.hardFail ==> Total(outcome.breakdown) == RawHundredths(c)
    ensures forall check :: Lookup(outcome.breakdown, check) == if c.hardFail then None else EntryOf(check, c)
  {
    var confidence := ConfidenceFromAttempts(attemptsCompleted, attemptsPlanned);
    if c.hardFail {
      return Outcome(0, confidence, REJECTED, true, []);
    }
    var breakdown := Breakdown(CreditsOf(c), c.latencyCategory, Deduction(c));
    var score := RoundedScore(Total(breakdown));
    var status;
    if c.authBlocked && !c.invocationAttempted {
      status := PARTIAL_VERIFIED;
    } else if score >= VERIFIED_MIN_SCORE && confidence == HIGH {
      status := VERIFIED;
    } else if score >= VERIFIED_MIN_SCORE && confidence == LOW {
      status := REVIEW;
    } else if VERIFIED_MIN_SCORE - 1 >= score >= REVIEW_MIN_SCORE {
      status := REVIEW;
    } else if score < REVIEW_MIN_SCORE && confidence == HIGH {
      status := REJECTED;
    } else {
      status := RETRY_PENDING;
    }
    outcome := Outcome(score, confidence, status, false, breakdown);
  }

  // ---- where the buckets really begin ------------------------------------

  /** The bucket boundaries in exact credit: rounding half to even moves 80
      down to 79.50 points and 40 down to 39.50. */
  lemma BucketBoundaries(h: int)
    ensures RoundedScore(h) >= 80 <==> h >= 7950
    ensures RoundedScore(h) >= 40 <==> h >= 3950
  {
    HalfEvenReaches(ClampHundredths(h) as real / 100.0, 80);
    HalfEvenReaches(ClampHundredths(h) as real / 100.0, 40);
  }

  /** Every verdict of the engine, by exact credit and confidence. */
  lemma VerdictTable(c: SoftChecks, confidence: Confidence)
    requires !c.hardFail && !(c.authBlocked && !c.invocationAttempted)
    ensures var h := RawHundredths(c); var v := Verdict(c, confidence);
            && (v == VERIFIED <==> h >= 7950 && confidence == HIGH)
            && (v == REVIEW <==> 3950 <= h < 7950 || (h >= 7950 && confidence == LOW))
            && (v == REJECTED <==> h < 3950 && confidence == HIGH)
            && (v == RETRY_PENDING <==>
                (h < 3950 && confidence != HIGH) || (h >= 7950 && confidence == MEDIUM))
  {
    BucketBoundaries(RawHundredths(c));
  }

  lemma RatioAtLeast(completed: int, planned: int, bound: real)
    requires planned > 0
    ensures completed as real / planned as real >= bound <==> completed as real >= bound * planned as real
  {
    var ratio := completed as real / planned as real;
    assert completed as real == ratio * planned as real;
    if ratio >= bound {
      ProductNonNegative(ratio - bound, planned as real);
      assert (ratio - bound) * planned as real == ratio * planned as real - bound * planned as real;
    } else {
      assert (bound - ratio) * planned as real > 0.0;
      assert (bound - ratio) * planned as real == bound * planned as real - ratio * planned as real;
    }
  }

  /** Confidence is a comparison of the two counters, free of the division. */
  lemma ConfidenceByCounters(completed: int, planned: int)
    requires planned > 0
    ensures var c := ConfidenceFromAttempts(completed, planned);
            && (c == HIGH <==> planned == 1 || completed >= planned)
            && (c == LOW <==> planned > 1 && 2 * completed < planned)
  {
    RatioAtLeast(completed, planned, 1.0);
    RatioAtLeast(completed, planned, 0.5);
  }

  // ---- monotonicity -------------------------------------------------------

  /** A check may improve, or begin to count. */
  predicate NoWorse(a: Option<real>, b: Option<real>) {
    a.Some? ==> b.Some? && a.value <= b.value
  }

  predicate Improves(a: SoftChecks, b: SoftChecks) {
    && NoWorse(a.installConnect, b.installConnect)
    && NoWorse(a.handshakeValid, b.handshakeValid)
    && NoWorse(a.toolsListSchema, b.toolsListSchema)
    && NoWorse(a.toolInvocation, b.toolInvocation)
    && NoWorse(a.semanticValidity, b.semanticValidity)
    && NoWorse(a.noCrashMalformedInput, b.noCrashMalformedInput)
    && b.securityPenalty <= a.securityPenalty
    && LatencyPenalty(b.latencyCategory) <= LatencyPenalty(a.latencyCategory)
    && (b.hardFail ==> a.hardFail)
  }

  lemma CreditMonotone(a: Option<real>, b: Option<real>, weight: nat)
    requires NoWorse(a, b)
    ensures Credit(a, weight) <= Credit(b, weight)
  {
    if a.Some? {
      ShareMonotone(Clamp01(a.value), Clamp01(b.value), (100 * weight) as real);
    }
  }

  lemma DeductionMonotone(p: real, q: real)
    requires p <= q
    ensures SecurityDeduction(p) <= SecurityDeduction(q)
  {
    HalfEvenMonotone(p * 10.0 * 100.0, q * 10.0 * 100.0);
    if q > 0.0 {
      HalfEvenMonotone(0.0, q * 10.0 * 100.0);
      HalfEvenOfInt(0);
    }
  }

  lemma DeductionNonNegative(p: real)
    ensures SecurityDeduction(p) >= 0
  {
    if p > 0.0 {
      DeductionMonotone(0.0, p);
    }
  }

  lemma RoundedMonotone(a: Option<real>, b: Option<real>, weight: nat)
    requires NoWorse(a, b)
    ensures Credits.Points(Rounded(a, weight)) <= Credits.Points(Rounded(b, weight))
  {
    CreditMonotone(a, b, weight);
  }

  lemma RawMonotone(a: SoftChecks, b: SoftChecks)
    requires Improves(a, b)
    ensures RawHundredths(a) <= RawHundredths(b)
  {
    hide Rounded, NoWorse, SecurityDeduction, LatencyPenalty;
    RoundedMonotone(a.installConnect, b.installConnect, WEIGHT_INSTALL_CONNECT);
    RoundedMonotone(a.handshakeValid, b.handshakeValid, WEIGHT_HANDSHAKE);
    RoundedMonotone(a.toolsListSchema, b.toolsListSchema, WEIGHT_TOOLS_LIST);
    RoundedMonotone(a.toolInvocation, b.toolInvocation, WEIGHT_TOOL_INVOCATION);
    RoundedMonotone(a.semanticValidity, b.semanticValidity, WEIGHT_SEMANTIC);
    RoundedMonotone(a.noCrashMalformedInput, b.noCrashMalformedInput, WEIGHT_MALFORMED_INPUT);
    DeductionMonotone(b.securityPenalty, a.securityPenalty);
  }

  lemma RoundedScoreMonotone(h: int, k: int)
    requires h <= k
    ensures RoundedScore(h) <= RoundedScore(k)
  {
    HalfEvenMonotone(ClampHundredths(h) as real / 100.0, ClampHundredths(k) as real / 100.0);
  }

  /** No check that improves, or starts to count, and no penalty that shrinks
      ever lowers the score, through both roundings and the clamps. */
  lemma ScoreMonotone(a: SoftChecks, b: SoftChecks)
    requires Improves(a, b)
    ensures 0 <= Quality(a) <= Quality(b) <= 100
  {
    RawMonotone(a, b);
    RoundedScoreMonotone(RawHundredths(a), RawHundredths(b));
  }

  function Grade(status: ServerStatus): int {
    match status
    case REJECTED => 0
    case REVIEW => 1
    case VERIFIED => 2
    case _ => -1
  }

  /** At full confidence, and when credentials are not what stops the run, the
      verdict is one of three grades and follows the checks upwards. */
  lemma VerdictMonotone(a: SoftChecks, b: SoftChecks)
    requires Improves(a, b)
    requires !a.authBlocked && !b.authBlocked
    ensures 0 <= Grade(Verdict(a, HIGH)) <= Grade(Verdict(b, HIGH))
  {
    hide RawHundredths, Quality;
    ScoreMonotone(a, b);
  }

  /** Confidence is not monotone: the very checks that give REVIEW at low
      confidence give RETRY_PENDING at medium confidence. */
  lemma MediumConfidenceGap(c: SoftChecks)
    requires !c.hardFail && !(c.authBlocked && !c.invocationAttempted)
    ensures Verdict(c, MEDIUM) != Verdict(c, LOW) <==> RawHundredths(c) >= 7950
    ensures RawHundredths(c) >= 7950 ==>
              Verdict(c, LOW) == REVIEW && Verdict(c, MEDIUM) == RETRY_PENDING && Verdict(c, HIGH) == VERIFIED
  {
    VerdictTable(c, LOW);
    VerdictTable(c, MEDIUM);
    VerdictTable(c, HIGH);
  }

  /** A verified verdict needs connection and invocation credit, and credit from
      at least two of handshake, tool list and semantics: without either of the
      first two everything else is worth at most 75 points. */
  lemma VerifiedNeeds(c: SoftChecks, confidence: Confidence)
    requires Verdict(c, confidence) == VERIFIED
    ensures Credit(c.installConnect, WEIGHT_INSTALL_CONNECT) >= 450
    ensures c.installConnect in {None, Some(0.0), Some(1.0)} ==> c.installConnect == Some(1.0)
    ensures Credit(c.toolInvocation, WEIGHT_TOOL_INVOCATION) >= 450
    ensures Credit(c.handshakeValid, WEIGHT_HANDSHAKE) + Credit(c.toolsListSchema, WEIGHT_TOOLS_LIST)
            + Credit(c.semanticValidity, WEIGHT_SEMANTIC) >= 2450
  {
    hide Credit, Share, HalfEven, Clamp01, SecurityDeduction;
    VerdictTable(c, confidence);
    DeductionNonNegative(c.securityPenalty);
    hide Verdict, Quality, RoundedScore, LatencyPenalty;
  }
}
