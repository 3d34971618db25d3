/** The stdio JSON-RPC client (platform/backend/app/sandbox/local_mcp_client.py):
    newline framing of a chunked stream, and correlation of requests with
    responses. Characters stand for decoded text; what a line parses to is a
    parameter. */
module StdioClient {
  import opened Wrappers

  // ---- framing ------------------------------------------------------------

  function FirstNewline(s: string): (i: nat)
    ensures i <= |s|
    ensures i < |s| ==> s[i] == '\n'
    ensures forall k :: 0 <= k < i ==> s[k] != '\n'
  {
    if s == "" || s[0] == '\n' then 0 else 1 + FirstNewline(s[1..])
  }

  /** The terminated lines of a text, and what follows the last newline. */
  function Lines(s: string): seq<string>
    decreases |s|
  {
    var i := FirstNewline(s);
    if i == |s| then [] else [s[..i]] + Lines(s[i + 1..])
  }

  function Rest(s: string): string
    decreases |s|
  {
    var i := FirstNewline(s);
    if i == |s| then s else Rest(s[i + 1..])
  }

  predicate OneLine(s: string) {
    forall k :: 0 <= k < |s| ==> s[k] != '\n'
  }

  function Joined(lines: seq<string>): string {
    if lines == [] then "" else lines[0] + "\n" + Joined(lines[1..])
  }

  lemma NewlineFound(s: string)
    ensures '\n' in s <==> FirstNewline(s) < |s|
  {
  }

  /** A text that begins with a whole line is cut behind it. */
  lemma CutLine(line: string, tail: string)
    requires OneLine(line)
    ensures var s := line + ("\n" + tail);
            FirstNewline(s) == |line| && s[..|line|] == line && s[|line| + 1..] == tail
  {
    var s := line + ("\n" + tail);
    assert s[|line|] == '\n';
    assert forall k :: 0 <= k < |line| ==> s[k] == line[k];
  }

  lemma JoinedCons(line: string, lines: seq<string>, rest: string)
    ensures Joined([line] + lines) + rest == line + ("\n" + (Joined(lines) + rest))
  {
    assert ([line] + lines)[1..] == lines;
  }

  /** Lines and rest are the one way to cut a text at its newlines. */
  lemma {:induction false} LinesUnique(lines: seq<string>, rest: string)
    requires forall i :: 0 <= i < |lines| ==> OneLine(lines[i])
    requires OneLine(rest)
    ensures Lines(Joined(lines) + rest) == lines && Rest(Joined(lines) + rest) == rest
    decreases |lines|
  {
    hide Joined, OneLine;
    if lines == [] {
      assert Joined(lines) + rest == rest by {
        JoinedNil(rest);
      }
      assert FirstNewline(rest) == |rest| by {
        NoNewline(rest);
      }
    } else {
      assert lines == [lines[0]] + lines[1..];
      JoinedCons(lines[0], lines[1..], rest);
      CutLine(lines[0], Joined(lines[1..]) + rest);
      LinesUnique(lines[1..], rest);
    }
  }

  lemma JoinedNil(rest: string)
    ensures Joined([]) + rest == rest
  {
  }

  lemma NoNewline(s: string)
    requires OneLine(s)
    ensures FirstNewline(s) == |s|
  {
  }

  lemma SplitAtNewline(s: string)
    requires FirstNewline(s) < |s|
    ensures var i := FirstNewline(s); s == s[..i] + ("\n" + s[i + 1..])
  {
  }

  lemma {:induction false} JoinedLines(s: string)
    ensures Joined(Lines(s)) + Rest(s) == s && OneLine(Rest(s))
    decreases |s|
  {
    var i := FirstNewline(s);
    if i < |s| {
      hide Joined, OneLine;
      JoinedLines(s[i + 1..]);
      JoinedCons(s[..i], Lines(s[i + 1..]), Rest(s[i + 1..]));
      SplitAtNewline(s);
    } else {
      JoinedNil(s);
    }
  }

  /** Framing a text in two pieces frames it whole. */
  lemma {:induction false} LinesAppend(a: string, b: string)
    ensures Lines(a + b) == Lines(a) + Lines(Rest(a) + b)
    ensures Rest(a + b) == Rest(Rest(a) + b)
    decreases |a|
  {
    var i := FirstNewline(a);
    if i < |a| {
      var j := FirstNewline(a + b);
      assert (a + b)[i] == '\n';
      assert i == j;
      assert (a + b)[..i] == a[..i];
      assert (a + b)[i + 1..] == a[i + 1..] + b;
      LinesAppend(a[i + 1..], b);
    }
  }

  // ---- the client ---------------------------------------------------------

  /** The `id` member of a message. Numbers equal to an integer are that
      integer; arrays and objects cannot be looked up at all. */
  datatype MessageId = NoId | IntId(n: int) | OtherId | UnhashableId

  /** What a stripped line turns out to be. */
  datatype Parsed = Blank | NotJson | NotObject | Message(id: MessageId)

  datatype Settlement = Outstanding | Answered(line: string) | Failed | Cancelled

  datatype Future = Future(requestId: int, state: Settlement)

  /** `pending` maps a request id to its future. */
  datatype Client = Client(
    nextId: int,
    pending: map<int, nat>,
    futures: seq<Future>,
    buffer: string,
    connected: bool,
    reading: bool)

  const NEW_CLIENT := Client(0, map[], [], "", false, false)

  type Parser = string -> Parsed

  function Settle(futures: seq<Future>, i: nat, state: Settlement): seq<Future> {
    if i < |futures| && futures[i].state.Outstanding? then futures[i := futures[i].(state := state)] else futures
  }

  /** A line that makes the reader raise and end. */
  predicate Fatal(parse: Parser, line: string) {
    var p := parse(line);
    p.NotObject? || (p.Message? && p.id.UnhashableId?)
  }

  /** One complete line. */
  function Dispatch(parse: Parser, c: Client, line: string): Client {
    if Fatal(parse, line) then c.(reading := false)
    else
      match parse(line)
      case Message(IntId(n)) =>
        if n in c.pending then
          c.(pending := c.pending - {n}, futures := Settle(c.futures, c.pending[n], Answered(line)))
        else c
      case _ => c
  }

  /** Lines one after another, until one ends the reader. */
  function DispatchAll(parse: Parser, c: Client, lines: seq<string>): Client
    decreases |lines|
  {
    if lines == [] || !c.reading then c
    else DispatchAll(parse, Dispatch(parse, c, lines[0]), lines[1..])
  }

  /** The inner loop: complete lines leave the buffer one by one. */
  function Drain(parse: Parser, c: Client): Client
    decreases |c.buffer|
  {
    var i := FirstNewline(c.buffer);
    if !c.reading || i == |c.buffer| then c
    else Drain(parse, Dispatch(parse, c.(buffer := c.buffer[i + 1..]), c.buffer[..i]))
  }

  function Feed(parse: Parser, c: Client, chunk: string): Client {
    if c.reading then Drain(parse, c.(buffer := c.buffer + chunk)) else c
  }

  function FeedAll(parse: Parser, c: Client, chunks: seq<string>): Client
    decreases |chunks|
  {
    if chunks == [] then c else FeedAll(parse, Feed(parse, c, chunks[0]), chunks[1..])
  }

  function Concat(chunks: seq<string>): string {
    if chunks == [] then "" else chunks[0] + Concat(chunks[1..])
  }

  lemma {:induction false} DispatchAllAppend(parse: Parser, c: Client, a: seq<string>, b: seq<string>)
    ensures DispatchAll(parse, c, a + b) == DispatchAll(parse, DispatchAll(parse, c, a), b)
    decreases |a|
  {
    if a == [] {
      assert a + b == b;
    } else if c.reading {
      assert (a + b)[1..] == a[1..] + b;
      DispatchAllAppend(parse, Dispatch(parse, c, a[0]), a[1..], b);
    }
  }

  /** Dispatch neither reads nor writes the buffer. */
  lemma {:induction false} DispatchAllBuffer(parse: Parser, c: Client, lines: seq<string>, b: string)
    ensures DispatchAll(parse, c.(buffer := b), lines) == DispatchAll(parse, c, lines).(buffer := b)
    decreases |lines|
  {
    if lines != [] && c.reading {
      DispatchAllBuffer(parse, Dispatch(parse, c, lines[0]), lines[1..], b);
      assert Dispatch(parse, c.(buffer := b), lines[0]) == Dispatch(parse, c, lines[0]).(buffer := b);
    }
  }

  /** A line dispatched from the buffer or from a list does the same. */
  lemma DispatchBuffer(parse: Parser, c: Client, line: string, b: string)
    ensures Dispatch(parse, c.(buffer := b), line) == Dispatch(parse, c, line).(buffer := b)
  {
  }

  /** The loop dispatches the lines of the buffer and leaves its rest. */
  lemma {:induction false} DrainIsDispatch(parse: Parser, c: Client)
    ensures var after := Drain(parse, c);
            && after.(buffer := "") == DispatchAll(parse, c, Lines(c.buffer)).(buffer := "")
            && (after.reading ==> after.buffer == Rest(c.buffer))
    decreases |c.buffer|
  {
    hide Dispatch;
    var i := FirstNewline(c.buffer);
    if c.reading && i < |c.buffer| {
      var line, tail := c.buffer[..i], c.buffer[i + 1..];
      var next := Dispatch(parse, c, line).(buffer := tail);
      DispatchBuffer(parse, c, line, tail);
      DispatchBuffer(parse, c, line, c.buffer);
      DrainIsDispatch(parse, next);
      DispatchAllBuffer(parse, next, Lines(tail), c.buffer);
      assert Lines(c.buffer) == [line] + Lines(tail);
      assert Lines(c.buffer)[1..] == Lines(tail);
    }
  }

  /** Framing is chunk-independent. However a stream is cut into chunks, the
      requests and their settlements end up as if its lines had been dispatched
      one after another from the whole stream; and as long as no line ends the
      reader, the buffer holds exactly the unterminated rest. */
  lemma {:induction false} ChunkIndependence(parse: Parser, c: Client, chunks: seq<string>)
    requires OneLine(c.buffer)
    ensures var after := FeedAll(parse, c, chunks); var stream := c.buffer + Concat(chunks);
            && after.(buffer := "") == DispatchAll(parse, c, Lines(stream)).(buffer := "")
            && (after.reading ==> after.buffer == Rest(stream))
    decreases |chunks|
  {
    if chunks == [] {
      assert c.buffer + Concat(chunks) == c.buffer;
      assert FirstNewline(c.buffer) == |c.buffer|;
    } else if !c.reading {
      NotReadingStays(parse, c, chunks);
    } else {
      var first := c.buffer + chunks[0];
      var next := Feed(parse, c, chunks[0]);
      var stream := c.buffer + Concat(chunks);
      assert stream == first + Concat(chunks[1..]);
      DrainIsDispatch(parse, c.(buffer := first));
      DispatchAllBuffer(parse, c, Lines(first), first);
      LinesAppend(first, Concat(chunks[1..]));
      DispatchAllAppend(parse, c, Lines(first), Lines(Rest(first) + Concat(chunks[1..])));
      if next.reading {
        JoinedLines(first);
        ChunkIndependence(parse, next, chunks[1..]);
        SameButBuffer(parse, next, DispatchAll(parse, c, Lines(first)), Lines(Rest(first) + Concat(chunks[1..])));
      } else {
        NotReadingStays(parse, next, chunks[1..]);
      }
    }
  }

  lemma SameButBuffer(parse: Parser, c: Client, d: Client, lines: seq<string>)
    requires c.(buffer := "") == d.(buffer := "")
    ensures DispatchAll(parse, c, lines).(buffer := "") == DispatchAll(parse, d, lines).(buffer := "")
  {
    DispatchAllBuffer(parse, c, lines, "");
    DispatchAllBuffer(parse, d, lines, "");
  }

  lemma {:induction false} NotReadingStays(parse: Parser, c: Client, chunks: seq<string>)
    requires !c.reading
    ensures FeedAll(parse, c, chunks) == c
    decreases |chunks|
  {
    if chunks != [] {
      NotReadingStays(parse, c, chunks[1..]);
    }
  }

  // ---- the other events ---------------------------------------------------

  datatype Event =
    | Connect
    | Send
    | Chunk(text: string)
    | Eof
    | Expire(future: nat)
    | Cleanup

  /** `_send_request` up to its await. */
  function Sent(c: Client): Client {
    if !c.connected then c
    else c.(nextId := c.nextId + 1,
            pending := c.pending[c.nextId := |c.futures|],
            futures := c.futures + [Future(c.nextId, Outstanding)])
  }

  function FailedAt(c: Client, indices: set<nat>): seq<Future> {
    seq(|c.futures|, i requires 0 <= i < |c.futures| =>
      if i in indices && c.futures[i].state.Outstanding? then c.futures[i].(state := Failed) else c.futures[i])
  }

  /** End of the stream: every pending request fails at once. */
  function Ended(c: Client): Client {
    if !c.reading then c
    else c.(futures := FailedAt(c, set id | id in c.pending :: c.pending[id]), pending := map[], reading := false)
  }

  function Step(parse: Parser, c: Client, e: Event): Client {
    match e
    case Connect => c.(connected := true, reading := true)
    case Send => Sent(c)
    case Chunk(text) => Feed(parse, c, text)
    case Eof => Ended(c)
    case Expire(i) => c.(futures := Settle(c.futures, i, Cancelled))
    case Cleanup => c.(pending := map[], buffer := "", connected := false, reading := false)
  }

  function Play(parse: Parser, c: Client, events: seq<Event>): Client {
    if events == [] then c
    else Step(parse, Play(parse, c, events[..|events| - 1]), events[|events| - 1])
  }

  /** Ids are handed out once and in order; a pending id leads to its own
      future; an answer carries the id of the request it settles. */
  predicate Consistent(parse: Parser, c: Client) {
    && c.nextId == |c.futures|
    && (forall i :: 0 <= i < |c.futures| ==> c.futures[i].requestId == i)
    && (forall id :: id in c.pending ==> 0 <= id < |c.futures| && c.pending[id] == id)
    && (forall i :: 0 <= i < |c.futures| && c.futures[i].state.Answered? ==>
          parse(c.futures[i].state.line) == Message(IntId(c.futures[i].requestId)))
  }

  /** What later events leave of earlier requests: ids stay, settlements stay. */
  predicate Follows(c: Client, d: Client) {
    && |c.futures| <= |d.futures|
    && forall i :: 0 <= i < |c.futures| ==>
         && d.futures[i].requestId == c.futures[i].requestId
         && (!c.futures[i].state.Outstanding? ==> d.futures[i] == c.futures[i])
  }

  /** The state the loop goes on with after one line. */
  function AfterLine(parse: Parser, c: Client): Client
    requires FirstNewline(c.buffer) < |c.buffer|
  {
    var i := FirstNewline(c.buffer);
    Dispatch(parse, c.(buffer := c.buffer[i + 1..]), c.buffer[..i])
  }

  lemma AfterLineConsistent(parse: Parser, c: Client)
    requires Consistent(parse, c) && FirstNewline(c.buffer) < |c.buffer|
    ensures Consistent(parse, AfterLine(parse, c)) && Follows(c, AfterLine(parse, c))
    ensures |AfterLine(parse, c).futures| == |c.futures| && |AfterLine(parse, c).buffer| < |c.buffer|
  {
  }

  lemma FollowsTransitive(c: Client, d: Client, e: Client)
    requires Follows(c, d) && Follows(d, e)
    ensures Follows(c, e)
  {
  }

  lemma {:induction false} DrainConsistent(parse: Parser, c: Client)
    requires Consistent(parse, c)
    ensures Consistent(parse, Drain(parse, c)) && Follows(c, Drain(parse, c))
    ensures |Drain(parse, c).futures| == |c.futures|
    decreases |c.buffer|
  {
    if c.reading && FirstNewline(c.buffer) < |c.buffer| {
      AfterLineConsistent(parse, c);
      var next := AfterLine(parse, c);
      assert Drain(parse, c) == Drain(parse, next);
      hide Consistent, Follows, AfterLine, Dispatch;
      DrainConsistent(parse, next);
      FollowsTransitive(c, next, Drain(parse, next));
    }
  }

  lemma StepConsistent(parse: Parser, c: Client, e: Event)
    requires Consistent(parse, c)
    ensures Consistent(parse, Step(parse, c, e)) && Follows(c, Step(parse, c, e))
  {
    if e.Chunk? && c.reading {
      DrainConsistent(parse, c.(buffer := c.buffer + e.text));
    }
  }

  /** In every run, timeouts, cleanups and reconnects included: no request id is
      ever used twice, and a result only ever reaches the request whose id it
      carries. */
  lemma {:induction false} RunConsistent(parse: Parser, events: seq<Event>)
    ensures var c := Play(parse, NEW_CLIENT, events);
            && Consistent(parse, c)
            && forall i, j :: 0 <= i < j < |c.futures| ==> c.futures[i].requestId != c.futures[j].requestId
    decreases |events|
  {
    if events != [] {
      var n := |events| - 1;
      RunConsistent(parse, events[..n]);
      StepConsistent(parse, Play(parse, NEW_CLIENT, events[..n]), events[n]);
    }
  }

  /** A future settles at most once: whatever happens after it settled leaves
      it as it is, for the rest of the run. */
  lemma {:induction false} SettledOnce(parse: Parser, events: seq<Event>, n: nat)
    requires n <= |events|
    ensures Follows(Play(parse, NEW_CLIENT, events[..n]), Play(parse, NEW_CLIENT, events))
    decreases |events|
  {
    if n == |events| {
      assert events[..n] == events;
    } else {
      var m := |events| - 1;
      SettledOnce(parse, events[..m], n);
      assert events[..m][..n] == events[..n];
      RunConsistent(parse, events[..m]);
      StepConsistent(parse, Play(parse, NEW_CLIENT, events[..m]), events[m]);
    }
  }

  predicate Outstands(c: Client, i: nat) {
    i < |c.futures| && c.futures[i].state.Outstanding?
  }

  /** An unsettled request that has dropped out of the map: no later response
      and no end of stream can settle it, only its own timeout. */
  predicate Orphan(c: Client, i: nat) {
    Outstands(c, i) && i !in c.pending
  }

  /** An unsettled request that nothing but its timeout can settle as things
      stand: it is out of the map, or nobody reads. */
  predicate Stranded(c: Client, i: nat) {
    Outstands(c, i) && (i !in c.pending || !c.reading)
  }

  lemma {:induction false} DrainOrphans(parse: Parser, c: Client, i: nat)
    requires Consistent(parse, c)
    ensures Orphan(Drain(parse, c), i) <==> Orphan(c, i)
    decreases |c.buffer|
  {
    if c.reading && FirstNewline(c.buffer) < |c.buffer| {
      AfterLineConsistent(parse, c);
      var next := AfterLine(parse, c);
      assert Orphan(next, i) <==> Orphan(c, i);
      assert Drain(parse, c) == Drain(parse, next);
      DrainOrphans(parse, next, i);
    }
  }

  /** A request leaves the map unsettled only by a cleanup, which drops exactly
      the unsettled ones, and once out it never comes back. */
  lemma OrphansOnlyByCleanup(parse: Parser, c: Client, e: Event, i: nat)
    requires Consistent(parse, c)
    ensures Orphan(Step(parse, c, e), i) <==>
            if e.Cleanup? then Outstands(c, i) else Orphan(c, i) && e != Expire(i)
  {
    if e.Chunk? && c.reading {
      DrainOrphans(parse, c.(buffer := c.buffer + e.text), i);
    }
  }

  /** Over a run: the orphans at its end are the unsettled requests that were
      sent before some cleanup. */
  lemma {:induction false} OrphanIff(parse: Parser, events: seq<Event>, i: nat)
    ensures var c := Play(parse, NEW_CLIENT, events);
            Orphan(c, i) <==> Outstands(c, i) && CleanedUpSince(parse, events, i)
    decreases |events|
  {
    if events != [] {
      var n := |events| - 1;
      OrphanIff(parse, events[..n], i);
      RunConsistent(parse, events[..n]);
      CleanedUpStep(parse, events, i);
      CleanedUpKnown(parse, events[..n], i);
      var c := Play(parse, NEW_CLIENT, events[..n]);
      OrphansOnlyByCleanup(parse, c, events[n], i);
      OutstandsBefore(parse, c, events[n], i);
      assert Play(parse, NEW_CLIENT, events) == Step(parse, c, events[n]);
      assert events[n] == Expire(i) ==> !Outstands(Step(parse, c, events[n]), i);
      hide Play, Step, Consistent, CleanedUpSince;
    }
  }

  /** Some cleanup came after the request was sent. */
  ghost predicate CleanedUpSince(parse: Parser, events: seq<Event>, i: nat) {
    exists k :: 0 <= k < |events| && events[k].Cleanup? && i < |Play(parse, NEW_CLIENT, events[..k]).futures|
  }

  lemma CleanedUpKnown(parse: Parser, events: seq<Event>, i: nat)
    ensures CleanedUpSince(parse, events, i) ==> i < |Play(parse, NEW_CLIENT, events).futures|
  {
    if CleanedUpSince(parse, events, i) {
      var k :| 0 <= k < |events| && events[k].Cleanup? && i < |Play(parse, NEW_CLIENT, events[..k]).futures|;
      SettledOnce(parse, events, k);
    }
  }

  lemma CleanedUpStep(parse: Parser, events: seq<Event>, i: nat)
    requires events != []
    ensures var n := |events| - 1;
            CleanedUpSince(parse, events, i) <==>
            || CleanedUpSince(parse, events[..n], i)
            || (events[n].Cleanup? && i < |Play(parse, NEW_CLIENT, events[..n]).futures|)
  {
    hide Play;
    var n := |events| - 1;
    forall k | 0 <= k < n ensures events[..n][k] == events[k] && events[..n][..k] == events[..k] {}
    if CleanedUpSince(parse, events[..n], i) {
      var k :| 0 <= k < n && events[..n][k].Cleanup? && i < |Play(parse, NEW_CLIENT, events[..n][..k]).futures|;
      assert events[k].Cleanup? && i < |Play(parse, NEW_CLIENT, events[..k]).futures|;
    }
  }

  /** A request still unsettled was unsettled before, or has just been sent and
      is in the map. */
  lemma OutstandsBefore(parse: Parser, c: Client, e: Event, i: nat)
    requires Consistent(parse, c)
    ensures Outstands(Step(parse, c, e), i) ==>
              Outstands(c, i) || (e.Send? && i == |c.futures| && i in Step(parse, c, e).pending)
  {
    StepConsistent(parse, c, e);
    if e.Chunk? && c.reading {
      DrainConsistent(parse, c.(buffer := c.buffer + e.text));
    }
  }

  /** A reader outlives a chunk exactly if none of the lines it completes makes
      it raise. */
  lemma ReaderSurvivesIff(parse: Parser, c: Client, text: string)
    requires c.reading
    ensures Feed(parse, c, text).reading <==> forall line :: line in Lines(c.buffer + text) ==> !Fatal(parse, line)
  {
    DrainIsDispatch(parse, c.(buffer := c.buffer + text));
    DispatchSurvives(parse, c.(buffer := c.buffer + text), Lines(c.buffer + text));
    assert Feed(parse, c, text).reading == Feed(parse, c, text).(buffer := "").reading;
  }

  lemma {:induction false} DispatchSurvives(parse: Parser, c: Client, lines: seq<string>)
    requires c.reading
    ensures DispatchAll(parse, c, lines).reading <==> forall line :: line in lines ==> !Fatal(parse, line)
    decreases |lines|
  {
    if lines != [] && !Fatal(parse, lines[0]) {
      DispatchSurvives(parse, Dispatch(parse, c, lines[0]), lines[1..]);
      assert lines == [lines[0]] + lines[1..];
    }
  }

  /** How a request comes to be stranded: by a cleanup, by a line that ends the
      reader, or by being sent when nobody reads. */
  lemma StrandedOnlyBy(parse: Parser, c: Client, e: Event, i: nat)
    requires Consistent(parse, c) && Stranded(Step(parse, c, e), i) && !Stranded(c, i)
    ensures || e.Cleanup?
            || (e.Chunk? && exists line :: line in Lines(c.buffer + e.text) && Fatal(parse, line))
            || (e.Send? && !c.reading && i == |c.futures|)
  {
    OutstandsBefore(parse, c, e, i);
    OrphansOnlyByCleanup(parse, c, e, i);
    if e.Chunk? && c.reading {
      ReaderSurvivesIff(parse, c, e.text);
    }
    if e.Eof? && c.reading {
      EofSettlesAll(parse, c, i);
    }
  }

  /** What the end of the stream leaves unsettled are exactly the stranded
      requests. */
  lemma EofSettlesAll(parse: Parser, c: Client, i: nat)
    requires Consistent(parse, c)
    ensures Outstands(Step(parse, c, Eof), i) <==> Stranded(c, i)
    ensures c.reading ==> Step(parse, c, Eof).pending == map[]
  {
    if i in c.pending {
      assert c.pending[i] == i;
    }
  }

  /** Over every run: the end of the stream settles every request if and only if
      each one still open then has a reader alive and was sent after the last
      cleanup. */
  lemma EofSettlesAllIff(parse: Parser, events: seq<Event>)
    ensures var c := Play(parse, NEW_CLIENT, events);
            (forall i: nat :: !Outstands(Step(parse, c, Eof), i)) <==>
            forall i: nat :: Outstands(c, i) ==> c.reading && !CleanedUpSince(parse, events, i)
  {
    var c := Play(parse, NEW_CLIENT, events);
    RunConsistent(parse, events);
    forall i: nat
      ensures Outstands(Step(parse, c, Eof), i) <==>
              Outstands(c, i) && !(c.reading && !CleanedUpSince(parse, events, i))
    {
      EofSettlesAll(parse, c, i);
      OrphanIff(parse, events, i);
    }
  }

  /** A stranded request stays so through every event but its own timeout and,
      if it is still in the map, a new connection. */
  lemma StrandedStays(parse: Parser, c: Client, e: Event, i: nat)
    requires Consistent(parse, c) && Stranded(c, i) && e != Expire(i)
    requires e.Connect? ==> Orphan(c, i)
    ensures Stranded(Step(parse, c, e), i)
  {
    OrphansOnlyByCleanup(parse, c, e, i);
  }

  /** It happens: one line that is not an object ends the reader, and the end of
      the stream then leaves the request open and in the map. */
  lemma NotObjectStrands(parse: Parser)
    requires parse("[]") == NotObject
    ensures var c := Play(parse, NEW_CLIENT, [Connect, Send, Chunk("[]\n"), Eof]);
            Outstands(c, 0) && 0 in c.pending && !c.reading
  {
    var events := [Connect, Send, Chunk("[]\n"), Eof];
    assert events[..3] == [Connect, Send, Chunk("[]\n")] && events[..3][..2] == [Connect, Send];
    assert [Connect, Send][..1] == [Connect] && [Connect][..0] == [];
    var sent := Client(1, map[0 := 0], [Future(0, Outstanding)], "", true, true);
    assert Play(parse, NEW_CLIENT, [Connect]) == NEW_CLIENT.(connected := true, reading := true);
    assert Play(parse, NEW_CLIENT, [Connect, Send]) == sent;
    FatalLine(parse, sent, "[]");
    assert "[]" + "\n" == "[]\n";
    hide Feed;
    assert Play(parse, NEW_CLIENT, events[..3]) == Feed(parse, sent, "[]\n");
  }

  /** A whole line that ends the reader changes nothing else. */
  lemma FatalLine(parse: Parser, c: Client, line: string)
    requires c.reading && c.buffer == "" && OneLine(line) && Fatal(parse, line)
    ensures Feed(parse, c, line + "\n") == c.(reading := false)
  {
    CutLine(line, "");
    var text := line + "\n";
    assert line + ("\n" + "") == text && "" + text == text;
    var full := c.(buffer := text);
    assert Dispatch(parse, full.(buffer := text[|line| + 1..]), text[..|line|]) == c.(reading := false);
    assert Drain(parse, c.(reading := false)) == c.(reading := false);
  }

  /** The first line that answers a request, as far as the reader gets. */
  function FirstAnswer(parse: Parser, lines: seq<string>, id: int): Option<string>
    decreases |lines|
  {
    if lines == [] || Fatal(parse, lines[0]) then None
    else if parse(lines[0]) == Message(IntId(id)) then Some(lines[0])
    else FirstAnswer(parse, lines[1..], id)
  }

  /** In any arrival order: after a batch of lines, a pending request holds the
      first line that carries its id, unless a line before it ended the reader,
      and waits on if there is none. */
  lemma {:induction false} AnswersByArrival(parse: Parser, c: Client, lines: seq<string>, i: nat)
    requires Consistent(parse, c) && c.reading
    requires i in c.pending && c.futures[i].state.Outstanding?
    ensures var d := DispatchAll(parse, c, lines); var answer := FirstAnswer(parse, lines, i);
            i < |d.futures| && d.futures[i].state == if answer.Some? then Answered(answer.value) else Outstanding
    decreases |lines|
  {
    if lines != [] && !Fatal(parse, lines[0]) {
      var next := Dispatch(parse, c, lines[0]);
      if parse(lines[0]) == Message(IntId(i)) {
        AnsweredStays(parse, next, lines[1..], i);
      } else {
        AnswersByArrival(parse, next, lines[1..], i);
      }
    }
  }

  lemma {:induction false} AnsweredStays(parse: Parser, c: Client, lines: seq<string>, i: nat)
    requires Consistent(parse, c) && i < |c.futures| && !c.futures[i].state.Outstanding?
    ensures i < |DispatchAll(parse, c, lines).futures| && DispatchAll(parse, c, lines).futures[i] == c.futures[i]
    decreases |lines|
  {
    if lines != [] && c.reading {
      AnsweredStays(parse, Dispatch(parse, c, lines[0]), lines[1..], i);
    }
  }

  // ---- the class ----------------------------------------------------------

  class LocalMcpClient {
    const parse: Parser
    var requestId: int
    var pending: map<int, nat>
    var futures: seq<Future>
    var buffer: string
    var connected: bool
    var reading: bool

    function State(): Client
      reads this
    {
      Client(requestId, pending, futures, buffer, connected, reading)
    }

    constructor (parse: Parser)
      ensures this.parse == parse && State() == NEW_CLIENT
    {
      this.parse := parse;
      requestId, pending, futures, buffer, connected, reading := 0, map[], [], "", false, false;
    }

    method ConnectOnce()
      modifies this
      ensures State() == Step(parse, old(State()), Connect)
    {
      connected, reading := true, true;
    }

    /** `_send_request` up to its await; without a process it raises. */
    method SendRequest() returns (future: Option<nat>)
      modifies this
      ensures State() == Step(parse, old(State()), Send)
      ensures future == if old(connected) then Some(|old(futures)|) else None
    {
      if !connected {
        return None;
      }
      var id := requestId;
      requestId := requestId + 1;
      future := Some(|futures|);
      pending := pending[id := |futures|];
      futures := futures + [Future(id, Outstanding)];
    }

    /** `set_result` or `set_exception`, unless the future is done. */
    method SettleFuture(i: nat, state: Settlement)
      modifies this`futures
      ensures futures == Settle(old(futures), i, state)
    {
      if i < |futures| && futures[i].state.Outstanding? {
        futures := futures[i := futures[i].(state := state)];
      }
    }

    /** One complete line. */
    method DispatchLine(line: string)
      modifies this
      ensures State() == Dispatch(parse, old(State()), line)
    {
      match parse(line) {
        case Blank =>
        case NotJson =>
        case NotObject => reading := false;
        case Message(id) =>
          if id.UnhashableId? {
            reading := false;
          } else if id.IntId? && id.n in pending {
            var future := pending[id.n];
            pending := pending - {id.n};
            SettleFuture(future, Answered(line));
          }
      }
    }

    /** One chunk of the reading loop. */
    method ReadChunk(chunk: string)
      modifies this
      ensures State() == Step(parse, old(State()), Chunk(chunk))
    {
      if !reading {
        return;
      }
      buffer := buffer + chunk;
      ghost var start := State();
      NewlineFound(buffer);
      while reading && '\n' in buffer
        invariant '\n' in buffer <==> FirstNewline(buffer) < |buffer|
        invariant Drain(parse, State()) == Drain(parse, start)
        decreases |buffer|
      {
        var i := FirstNewline(buffer);
        var line := buffer[..i];
        buffer := buffer[i + 1..];
        DispatchLine(line);
        NewlineFound(buffer);
      }
    }

    /** The end of the stream. */
    method ReadEof()
      modifies this
      ensures State() == Step(parse, old(State()), Eof)
    {
      if !reading {
        return;
      }
      ghost var c := State();
      var waiting := set id | id in pending :: pending[id];
      ghost var failed: set<nat> := {};
      while waiting != {}
        invariant failed + waiting == set id | id in c.pending :: c.pending[id]
        invariant State() == c.(futures := FailedAt(c, failed))
        decreases waiting
      {
        var i :| i in waiting;
        waiting := waiting - {i};
        SettleFuture(i, Failed);
        failed := failed + {i};
      }
      pending := map[];
      reading := false;
    }

    /** `wait_for` gives up: the future is cancelled, its entry stays. */
    method ExpireRequest(i: nat)
      modifies this
      ensures State() == Step(parse, old(State()), Expire(i))
    {
      SettleFuture(i, Cancelled);
    }

    method Disconnect()
      modifies this
      ensures State() == Step(parse, old(State()), Cleanup)
    {
      connected, reading := false, false;
      pending := map[];
      buffer := "";
    }
  }
}
