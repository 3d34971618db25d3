/** Cutting JSON candidates out of free text
    (platform/backend/app/artifacts/integration_synthesizer.py). */
module Braces {
  import opened Wrappers

  // ---- balanced blocks, without any scan ----------------------------------

  function Delta(c: char): int {
    if c == '{' then 1 else if c == '}' then -1 else 0
  }

  /** Openers minus closers from `i` up to `j`. */
  function Balance(text: string, i: nat, j: nat): int
    requires i <= j <= |text|
  {
    if i == j then 0 else Balance(text, i, j - 1) + Delta(text[j - 1])
  }

  /** From `start` to `end` inclusive, the braces balance, and not earlier. */
  predicate IsBlock(text: string, start: nat, end: nat) {
    && start <= end < |text| && text[start] == '{'
    && Balance(text, start, end + 1) == 0
    && forall k :: start < k <= end ==> Balance(text, start, k) > 0
  }

  /** The opener at `k` is still open at `s`. */
  predicate OpenAt(text: string, k: nat, s: nat)
    requires k < s <= |text|
  {
    text[k] == '{' && forall m :: k < m <= s ==> Balance(text, k, m) > 0
  }

  /** No opener before `s` is still open there. */
  predicate Exposed(text: string, s: nat)
    requires s <= |text|
  {
    forall k :: 0 <= k < s ==> !OpenAt(text, k, s)
  }

  predicate IsTopLevel(text: string, start: nat, end: nat) {
    IsBlock(text, start, end) && Exposed(text, start)
  }

  // ---- the scan -----------------------------------------------------------

  datatype Span = Span(start: nat, end: nat)

  datatype State = State(depth: nat, start: Option<nat>, spans: seq<Span>)

  function Step(s: State, i: nat, c: char): State {
    if c == '{' then State(s.depth + 1, if s.depth == 0 then Some(i) else s.start, s.spans)
    else if c == '}' && s.depth > 0 then
      if s.depth == 1 && s.start.Some? then State(0, None, s.spans + [Span(s.start.value, i)])
      else s.(depth := s.depth - 1)
    else s
  }

  function Scan(text: string, n: nat): State
    requires n <= |text|
  {
    if n == 0 then State(0, None, []) else Step(Scan(text, n - 1), n - 1, text[n - 1])
  }

  predicate Inside(text: string, spans: seq<Span>) {
    forall i :: 0 <= i < |spans| ==> spans[i].start <= spans[i].end < |text|
  }

  function Slices(text: string, spans: seq<Span>): (slices: seq<string>)
    requires Inside(text, spans)
  {
    seq(|spans|, i requires 0 <= i < |spans| => text[spans[i].start..spans[i].end + 1])
  }

  // ---- what the scan finds ------------------------------------------------

  lemma {:induction false} BalanceSplits(text: string, i: nat, j: nat, k: nat)
    requires i <= j <= k <= |text|
    ensures Balance(text, i, k) == Balance(text, i, j) + Balance(text, j, k)
  {
    if j < k {
      BalanceSplits(text, i, j, k - 1);
    }
  }

  /** An excess of openers over some stretch before `s` leaves one of them
      open. */
  lemma {:induction false} ExcessIsOpen(text: string, k: nat, s: nat, from: nat) returns (opener: nat)
    requires k <= from <= s <= |text| && Balance(text, k, s) > 0
    requires forall m :: from <= m <= s ==> Balance(text, m, s) <= 0
    ensures opener < s && OpenAt(text, opener, s)
    decreases from
  {
    if Balance(text, from - 1, s) > 0 {
      opener := from - 1;
      forall m | opener < m <= s ensures Balance(text, opener, m) > 0 {
        BalanceSplits(text, opener, m, s);
      }
      assert Balance(text, opener, opener + 1) > 0;
    } else {
      opener := ExcessIsOpen(text, k, s, from - 1);
    }
  }

  lemma ExposedBalance(text: string, s: nat)
    requires s <= |text|
    ensures Exposed(text, s) <==> forall k :: 0 <= k <= s ==> Balance(text, k, s) <= 0
  {
    if Exposed(text, s) {
      forall k | 0 <= k <= s ensures Balance(text, k, s) <= 0 {
        if Balance(text, k, s) > 0 {
          var opener := ExcessIsOpen(text, k, s, s);
        }
      }
    } else {
      var k :| 0 <= k < s && OpenAt(text, k, s);
      assert Balance(text, k, s) > 0;
    }
  }

  /** Where the scan stands after `n` characters: the depth is the largest
      excess of openers up to here, and the pending start is their outermost. */
  predicate Tracks(text: string, n: nat, s: State)
    requires n <= |text|
  {
    && (forall k :: 0 <= k <= n ==> Balance(text, k, n) <= s.depth)
    && (s.depth == 0 <==> s.start.None?)
    && (s.start.Some? ==>
          && s.start.value < n && text[s.start.value] == '{' && Exposed(text, s.start.value)
          && Balance(text, s.start.value, n) == s.depth
          && forall k :: s.start.value < k <= n ==> Balance(text, s.start.value, k) > 0)
  }

  lemma {:induction false} ScanTracks(text: string, n: nat)
    requires n <= |text|
    ensures Tracks(text, n, Scan(text, n))
  {
    if n > 0 {
      ScanTracks(text, n - 1);
      ExposedBalance(text, n - 1);
    }
  }

  lemma InnerIsHidden(text: string, outer: nat, inner: nat)
    requires outer < inner <= |text| && Balance(text, outer, inner) > 0
    ensures !Exposed(text, inner)
  {
    ExposedBalance(text, inner);
  }

  /** Only the pending start can begin a top-level block that is still open. */
  lemma PendingOnly(text: string, n: nat, s: State, start: nat)
    requires n <= |text| && Tracks(text, n, s)
    requires start < n && text[start] == '{' && Exposed(text, start)
    requires forall k :: start < k <= n ==> Balance(text, start, k) > 0
    ensures s.start == Some(start)
  {
    assert Balance(text, start, n) > 0;
    var pending := s.start.value;
    if start < pending {
      InnerIsHidden(text, start, pending);
    } else if pending < start {
      InnerIsHidden(text, pending, start);
    }
  }

  /** A character ends a top-level block exactly when it is a closer that
      brings the scan back to depth 0. */
  lemma EndsBlock(text: string, n: nat, start: nat)
    requires n < |text|
    ensures var s := Scan(text, n);
            IsTopLevel(text, start, n) <==> text[n] == '}' && s.depth == 1 && s.start == Some(start)
  {
    var s := Scan(text, n);
    ScanTracks(text, n);
    if IsTopLevel(text, start, n) {
      assert Balance(text, start, n + 1) == Balance(text, start, n) + Delta(text[n]);
      assert start < n ==> Balance(text, start, n) > 0;
      assert start < n;
      PendingOnly(text, n, s, start);
    }
  }

  /** The scan finds the top-level blocks, all of them and nothing else, in
      text order and disjoint; a stray closer changes nothing. */
  lemma {:induction false} ScanExact(text: string, n: nat)
    requires n <= |text|
    ensures var spans := Scan(text, n).spans;
            && (forall span :: span in spans <==> span.end < n && IsTopLevel(text, span.start, span.end))
            && (forall i, j :: 0 <= i < j < |spans| ==> spans[i].end < spans[j].start)
            && (Scan(text, n).start.Some? ==>
                  forall i :: 0 <= i < |spans| ==> spans[i].end < Scan(text, n).start.value)
  {
    if n > 0 {
      ScanExact(text, n - 1);
      ScanTracks(text, n - 1);
      var before, after := Scan(text, n - 1), Scan(text, n);
      forall span: Span
        ensures span in after.spans <==> span.end < n && IsTopLevel(text, span.start, span.end)
      {
        if span.end == n - 1 {
          EndsBlock(text, n - 1, span.start);
        }
      }
    }
  }

  /** `_brace_match_json_candidates`. */
  method BraceMatchJsonCandidates(text: string) returns (candidates: seq<string>)
    ensures Inside(text, Scan(text, |text|).spans)
    ensures candidates == Slices(text, Scan(text, |text|).spans)
  {
    candidates := [];
    var depth: nat := 0;
    var start: Option<nat> := None;
    for i := 0 to |text|
      invariant depth == Scan(text, i).depth && start == Scan(text, i).start
      invariant Inside(text, Scan(text, i).spans)
      invariant candidates == Slices(text, Scan(text, i).spans)
    {
      ScanTracks(text, i);
      if text[i] == '{' {
        if depth == 0 {
          start := Some(i);
        }
        depth := depth + 1;
      } else if text[i] == '}' {
        if depth > 0 {
          depth := depth - 1;
          if depth == 0 && start.Some? {
            candidates := candidates + [text[start.value..i + 1]];
            start := None;
          }
        }
      }
    }
  }

  /** One opener that is never closed hides every later block. */
  lemma UnclosedHidesTheRest(text: string, k: nat, span: Span)
    requires k < |text| && OpenAt(text, k, |text|) && k < span.start
    ensures span !in Scan(text, |text|).spans
  {
    assert span.start <= |text| ==> OpenAt(text, k, span.start);
    ScanExact(text, |text|);
  }

  lemma {:induction false} BalanceWithin(text: string, start: nat, end: nat, i: nat, j: nat)
    requires start <= end < |text| && i <= j <= end + 1 - start
    ensures Balance(text[start..end + 1], i, j) == Balance(text, start + i, start + j)
  {
    if i < j {
      BalanceWithin(text, start, end, i, j - 1);
    }
  }

  lemma BlockWithin(text: string, start: nat, end: nat)
    requires IsBlock(text, start, end)
    ensures IsBlock(text[start..end + 1], 0, end - start)
  {
    var block := text[start..end + 1];
    BalanceWithin(text, start, end, 0, |block|);
    forall k | 0 < k <= end - start ensures Balance(block, 0, k) > 0 {
      BalanceWithin(text, start, end, 0, k);
    }
  }

  lemma OneBlock(block: string, span: Span)
    requires block != [] && IsBlock(block, 0, |block| - 1) && IsBlock(block, span.start, span.end)
    ensures Exposed(block, span.start) ==> span == Span(0, |block| - 1)
  {
    if span.start > 0 {
      assert OpenAt(block, 0, span.start);
    }
  }

  lemma ScanOfBlock(block: string)
    requires block != [] && IsBlock(block, 0, |block| - 1)
    ensures block[|block| - 1] == '}' && Scan(block, |block|).spans == [Span(0, |block| - 1)]
  {
    var n := |block|;
    assert Balance(block, 0, n) == Balance(block, 0, n - 1) + Delta(block[n - 1]);
    assert Exposed(block, 0);
    ScanExact(block, n);
    hide Scan, IsBlock, Exposed, Balance;
    var spans := Scan(block, n).spans;
    assert IsTopLevel(block, 0, n - 1);
    assert Span(0, n - 1) in spans;
    forall i | 0 <= i < |spans| ensures spans[i] == Span(0, n - 1) {
      assert spans[i] in spans;
      OneBlock(block, spans[i]);
    }
    assert |spans| > 1 ==> spans[0].end < spans[1].start;
  }

  /** Each candidate is the text of its block, from the opening brace to the
      closing one, and scanned again it yields itself and nothing else. */
  lemma CandidatesStand(text: string, k: nat)
    requires k < |Scan(text, |text|).spans|
    ensures Inside(text, Scan(text, |text|).spans)
    ensures var span := Scan(text, |text|).spans[k]; var block := Slices(text, Scan(text, |text|).spans)[k];
            && |block| == span.end - span.start + 1 && block[0] == '{' && block[|block| - 1] == '}'
            && (forall m :: 0 <= m < |block| ==> block[m] == text[span.start + m])
            && Scan(block, |block|).spans == [Span(0, |block| - 1)]
  {
    ScanExact(text, |text|);
    var spans := Scan(text, |text|).spans;
    forall i | 0 <= i < |spans| ensures spans[i].start <= spans[i].end < |text| {
      assert spans[i] in spans;
    }
    var span := spans[k];
    assert span in spans;
    BlockWithin(text, span.start, span.end);
    ScanOfBlock(text[span.start..span.end + 1]);
    hide Scan, Exposed, Balance;
  }
}
