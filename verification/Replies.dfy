/** What a server's replies come to: the verdict of a run, counted over the tools
    it listed and what it answered to each call
    (platform/backend/app/verification/verifiers.py). */
module Replies {
  import opened Wrappers
  import opened Rounding
  import opened Records
  import opened Scoring
  import opened Attempts
  import opened Finalize

  /** A served run: the tools listed, the reply to each call in turn, what the
      probe came to, and whether a token was attached. */
  datatype Session = Session(
    transport: Transport, tools: seq<Tool>, replies: nat -> Reply, probe: Probe, token: bool)

  function SessionOf(run: Run): Option<Session> {
    match run
    case Local(LocalServed(tools, replies, probe)) => Some(Session(LOCAL, tools, replies, probe, false))
    case Remote(RemoteServed(tools, replies, probe, token)) => Some(Session(REMOTE, tools, replies, probe, token))
    case Remote(AuthDemanded(ReconnectedWith(tools, replies, probe))) =>
      Some(Session(REMOTE, tools, replies, probe, true))
    case _ => None
  }

  /** With a token only read-only tools may be called. */
  predicate Allowed(s: Session, i: nat)
    requires i < |s.tools|
  {
    s.token ==> s.tools[i].readOnly
  }

  function AllowedTo(s: Session, n: nat): set<nat>
    requires n <= |s.tools|
  {
    set i: nat | i < n && Allowed(s, i)
  }

  /** How many tools listed before this one may be called. */
  ghost function Rank(s: Session, n: nat): nat
    requires n <= |s.tools|
  {
    |AllowedTo(s, n)|
  }

  /** Of the tools that may be called the first five are, if they have a name. */
  ghost predicate Called(s: Session, i: nat)
    requires i < |s.tools|
  {
    Allowed(s, i) && Rank(s, i) < 5 && s.tools[i].name != ""
  }

  /** Called, and such a reply. */
  ghost predicate Replied(s: Session, i: nat, p: Reply -> bool)
    requires i < |s.tools|
  {
    Called(s, i) && p(s.replies(Rank(s, i)))
  }

  /** The called ones among the first `n`, by what they replied. */
  ghost function CallsTo(s: Session, n: nat, p: Reply -> bool): set<nat>
    requires n <= |s.tools|
  {
    set i | 0 <= i < n && Replied(s, i, p)
  }

  ghost function Calls(s: Session, p: Reply -> bool): set<nat> {
    CallsTo(s, |s.tools|, p)
  }

  predicate Anything(r: Reply) { true }

  predicate Answers(r: Reply) { r.Answered? }

  predicate AnswersValidly(r: Reply) { r == Answered(true) }

  /** Exceptions leave no judgement. */
  predicate GetsJudged(r: Reply) { r.Answered? || r.ErrorResult? }

  // ---- the calls of a run -------------------------------------------------

  lemma RankStep(s: Session, n: nat)
    requires n < |s.tools|
    ensures Rank(s, n + 1) == Rank(s, n) + Count(Allowed(s, n))
  {
    hide Allowed;
    assert AllowedTo(s, n + 1) == AllowedTo(s, n) + if Allowed(s, n) then {n} else {};
  }

  lemma RankNone(s: Session)
    ensures Rank(s, 0) == 0
  {
    hide Allowed;
    assert AllowedTo(s, 0) == {};
  }

  lemma CallsStep(s: Session, n: nat, p: Reply -> bool)
    requires n < |s.tools|
    ensures |CallsTo(s, n + 1, p)| == |CallsTo(s, n, p)| + Count(Replied(s, n, p))
  {
    hide Replied;
    var added := if Replied(s, n, p) then {n} else {};
    assert CallsTo(s, n + 1, p) == CallsTo(s, n, p) + added;
  }

  /** The outcomes recorded for the first `n` tools. */
  function RecordedTo(s: Session, n: nat): seq<ToolOutcome>
    requires n <= |s.tools|
  {
    InvokedAll(FirstFew(Permitted(s.tools[..n], s.token)), s.replies, s.transport)
  }

  lemma PermittedStep(s: Session, n: nat)
    requires n < |s.tools|
    ensures Permitted(s.tools[..n + 1], s.token)
            == Permitted(s.tools[..n], s.token) + if Allowed(s, n) then [s.tools[n]] else []
  {
    assert s.tools[..n + 1][..n] == s.tools[..n];
  }

  lemma InvokedStep(tools: seq<Tool>, t: Tool, replies: nat -> Reply, transport: Transport)
    ensures InvokedAll(tools + [t], replies, transport)
            == InvokedAll(tools, replies, transport)
               + if t.name == "" then [] else [Invoked(t.name, replies(|tools|), transport)]
  {
    assert (tools + [t])[..|tools|] == tools;
  }

  lemma {:induction false} PermittedRank(s: Session, n: nat)
    requires n <= |s.tools|
    ensures |Permitted(s.tools[..n], s.token)| == Rank(s, n)
  {
    hide Rank;
    if n == 0 {
      RankNone(s);
      assert s.tools[..0] == [];
    } else {
      PermittedRank(s, n - 1);
      hide *;
      PermittedStep(s, n - 1);
      RankStep(s, n - 1);
    }
  }

  lemma FirstFewAppend(tools: seq<Tool>, t: Tool)
    ensures FirstFew(tools + [t]) == if |tools| < 5 then FirstFew(tools) + [t] else FirstFew(tools)
    ensures |tools| < 5 ==> FirstFew(tools) == tools
  {
  }

  lemma RecordedStep(s: Session, n: nat)
    requires n < |s.tools|
    ensures RecordedTo(s, n + 1)
            == RecordedTo(s, n)
               + if Called(s, n) then [Invoked(s.tools[n].name, s.replies(Rank(s, n)), s.transport)] else []
  {
    PermittedRank(s, n);
    PermittedStep(s, n);
    var before := Permitted(s.tools[..n], s.token);
    var t := s.tools[n];
    var more := RecordedTo(s, n);
    assert more == InvokedAll(FirstFew(before), s.replies, s.transport);
    FirstFewAppend(before, t);
    hide Rank, InvokedAll, Permitted, FirstFew, Invoked;
    if !Allowed(s, n) {
      assert before + [] == before && more + [] == more;
    } else if |before| < 5 {
      InvokedStep(before, t, s.replies, s.transport);
    } else {
      assert more + [] == more;
    }
  }

  lemma CountsAppend(outcomes: seq<ToolOutcome>, o: ToolOutcome)
    ensures Successes(outcomes + [o]) == Successes(outcomes) + Count(o.invocationStatus == INVOKED_OK)
    ensures Judged(outcomes + [o]) == Judged(outcomes) + Count(o.semanticValid.Some?)
    ensures JudgedValid(outcomes + [o]) == JudgedValid(outcomes) + Count(o.semanticValid == Some(true))
  {
    assert (outcomes + [o])[..|outcomes|] == outcomes;
  }

  lemma RecordedCounts(s: Session, n: nat)
    requires n < |s.tools|
    ensures |RecordedTo(s, n + 1)| == |RecordedTo(s, n)| + Count(Replied(s, n, Anything))
    ensures Successes(RecordedTo(s, n + 1)) == Successes(RecordedTo(s, n)) + Count(Replied(s, n, Answers))
    ensures Judged(RecordedTo(s, n + 1)) == Judged(RecordedTo(s, n)) + Count(Replied(s, n, GetsJudged))
    ensures JudgedValid(RecordedTo(s, n + 1)) == JudgedValid(RecordedTo(s, n)) + Count(Replied(s, n, AnswersValidly))
  {
    RecordedStep(s, n);
    RepliedMeans(s, n);
    hide RecordedTo, Called, Rank, Replied, Invoked, Successes, Judged, JudgedValid, InvokedAll, Permitted;
    hide Answers, GetsJudged, AnswersValidly;
    if Called(s, n) {
      var reply := s.replies(Rank(s, n));
      InvokedMeans(s.tools[n].name, reply, s.transport);
      CountsAppend(RecordedTo(s, n), Invoked(s.tools[n].name, reply, s.transport));
    } else {
      assert RecordedTo(s, n + 1) == RecordedTo(s, n);
    }
  }

  lemma RepliedMeans(s: Session, n: nat)
    requires n < |s.tools|
    ensures Replied(s, n, Anything) <==> Called(s, n)
    ensures Replied(s, n, Answers) <==> Called(s, n) && Answers(s.replies(Rank(s, n)))
    ensures Replied(s, n, GetsJudged) <==> Called(s, n) && GetsJudged(s.replies(Rank(s, n)))
    ensures Replied(s, n, AnswersValidly) <==> Called(s, n) && AnswersValidly(s.replies(Rank(s, n)))
  {
    hide Called, Rank;
  }

  lemma InvokedMeans(name: string, reply: Reply, transport: Transport)
    ensures Invoked(name, reply, transport).invocationStatus == INVOKED_OK <==> Answers(reply)
    ensures Invoked(name, reply, transport).semanticValid.Some? <==> GetsJudged(reply)
    ensures Invoked(name, reply, transport).semanticValid == Some(true) <==> AnswersValidly(reply)
  {
  }

  /** A call succeeded if the tool answered, is judged if it answered or came
      back as an error, and valid if the judge liked the answer. */
  lemma {:induction false} RepliesCounted(s: Session, n: nat)
    requires n <= |s.tools|
    ensures |RecordedTo(s, n)| == |CallsTo(s, n, Anything)|
    ensures Successes(RecordedTo(s, n)) == |CallsTo(s, n, Answers)|
    ensures Judged(RecordedTo(s, n)) == |CallsTo(s, n, GetsJudged)|
    ensures JudgedValid(RecordedTo(s, n)) == |CallsTo(s, n, AnswersValidly)|
  {
    hide *;
    if n == 0 {
      NoneRecorded(s);
    } else {
      RepliesCounted(s, n - 1);
      RecordedCounts(s, n - 1);
      CallsStep(s, n - 1, Anything);
      CallsStep(s, n - 1, Answers);
      CallsStep(s, n - 1, GetsJudged);
      CallsStep(s, n - 1, AnswersValidly);
    }
  }

  lemma NoneRecorded(s: Session)
    ensures RecordedTo(s, 0) == [] && forall p: Reply -> bool :: CallsTo(s, 0, p) == {}
    ensures Successes([]) == Judged([]) == JudgedValid([]) == 0
  {
    hide Replied;
    assert Permitted([], s.token) == [];
  }

  /** What a record of one call says; only a local client records a timeout. */
  predicate Accounts(o: ToolOutcome, name: string, reply: Reply, transport: Transport) {
    && o.toolName == name
    && (o.invocationStatus == INVOKED_OK <==> reply.Answered?)
    && (o.invocationStatus == INVOKED_TIMEOUT <==> reply.TimedOut? && transport.LOCAL?)
    && o.semanticValid ==
       match reply {
         case Answered(valid) => Some(valid)
         case ErrorResult => Some(false)
         case _ => None
       }
  }

  lemma InvokedAccounts(name: string, reply: Reply, transport: Transport)
    ensures Accounts(Invoked(name, reply, transport), name, reply, transport)
  {
  }

  /** Every call is recorded under the name of its tool, at the position the
      calls before it leave. */
  lemma {:induction false} CallRecorded(s: Session, i: nat, n: nat)
    requires i < n <= |s.tools| && Called(s, i)
    ensures var at := |CallsTo(s, i, Anything)|;
            && at < |RecordedTo(s, n)|
            && Accounts(RecordedTo(s, n)[at], s.tools[i].name, s.replies(Rank(s, i)), s.transport)
  {
    hide *;
    RecordedStep(s, n - 1);
    RepliesCounted(s, n - 1);
    if i < n - 1 {
      CallRecorded(s, i, n - 1);
    } else {
      InvokedAccounts(s.tools[i].name, s.replies(Rank(s, i)), s.transport);
    }
  }

  // ---- the probe ----------------------------------------------------------

  /** The first tool is probed, but never with a token, and locally only under
      a name. */
  predicate Probed(s: Session) {
    s.tools != [] && !s.token && (s.transport.LOCAL? ==> s.tools[0].name != "")
  }

  lemma NoFlag(stages: seq<StageResult>, more: seq<StageResult>)
    requires !Flagged(stages)
    ensures Flagged(stages + more) <==> Flagged(more)
  {
    if Flagged(more) {
      var i :| 0 <= i < |more| && more[i].kind == SECURITY_FLAG;
      assert (stages + more)[|stages| + i].kind == SECURITY_FLAG;
    }
  }

  lemma ProbeFlags(s: Session, stages: seq<StageResult>)
    requires !Flagged(stages)
    ensures s.transport.LOCAL? && !s.token ==>
              (LocalExercise(s.tools, s.replies, s.probe, stages).flagged <==> Probed(s) && !s.probe.Graceful?)
    ensures s.transport.REMOTE? ==>
              (RemoteExercise(s.tools, s.replies, s.probe, s.token, stages).flagged <==>
               Probed(s) && !s.probe.Graceful?)
  {
    var skipped := [StageResult(TOOL_INVOCATION, AUTH_REQUIRED)];
    assert !s.probe.Graceful? ==> ProbeStage(s.probe)[0].kind == SECURITY_FLAG;
    assert Flagged(ProbeStage(s.probe)) <==> !s.probe.Graceful?;
    assert !Flagged(skipped) && !Flagged([]);
    NoFlag(stages, skipped);
    NoFlag(stages, ProbeStage(s.probe));
    NoFlag(stages + skipped, ProbeStage(s.probe));
    assert stages + [] == stages && stages + skipped + [] == stages + skipped;
    hide Flagged;
  }

  /** The session behind every served run, and all that is kept of it. */
  lemma RunRecords(run: Run)
    ensures SessionOf(run).Some? <==> OutcomeOf(run).kind.SUCCESS?
    ensures SessionOf(run).Some? ==>
              var s := SessionOf(run).value; var o := OutcomeOf(run);
              && o.tools == s.tools && o.toolOutcomes == RecordedTo(s, |s.tools|) && o.authExercised == s.token
              && (o.malformedGraceful == Some(true) <==> Probed(s) && s.probe.Graceful?)
              && (o.securityFlagged <==> Probed(s) && !s.probe.Graceful?)
  {
    if SessionOf(run).Some? {
      var s := SessionOf(run).value;
      assert s.tools[..|s.tools|] == s.tools;
      var gated := [AUTH_STAGE, StageResult(CONNECT, SUCCESS)] + REMOTE_STAGES;
      ProbeFlags(s, LOCAL_STAGES);
      ProbeFlags(s, REMOTE_STAGES);
      ProbeFlags(s, gated);
      hide Flagged;
    }
  }

  // ---- what decides -------------------------------------------------------

  /** Half points the calls must bring in. */
  function Needed(s: Session): nat {
    if !Probed(s) then 49 else if s.probe.Graceful? then 39 else 69
  }

  ghost predicate EnoughReplies(s: Session) {
    EnoughCalls(|Calls(s, Answers)|, |Calls(s, Anything)|, |Calls(s, AnswersValidly)|, |Calls(s, GetsJudged)|,
                Needed(s))
  }

  /** The verdict of every served run, by what the server replied. */
  lemma RepliesDecideIff(run: Run)
    requires SessionOf(run).Some?
    ensures var enough := EnoughReplies(SessionOf(run).value); var soft := BuildSoftChecks(OutcomeOf(run));
            && (RawHundredths(soft) >= 7950 <==> enough)
            && (Verdict(soft, HIGH) == VERIFIED <==> enough)
  {
    var s := SessionOf(run).value;
    RunRecords(run);
    RepliesCounted(s, |s.tools|);
    RunsAreServed(run);
    hide OutcomeOf, BuildSoftChecks, RecordedTo, CallsTo, ServedRun, Successes, Judged, JudgedValid, EnoughCalls;
    CallsDecideIff(OutcomeOf(run));
  }

  /** A pass writes a verified status exactly if the server was served, its
      attempts are spent, and it replied well enough. */
  lemma VerifiedPassIff(row: Record, seen: Record, attempt: Attempt, now: int)
    requires 0 <= seen.attemptsCompleted
    ensures Finished(row, seen, attempt, now).status == VERIFIED <==>
            && SessionOf(attempt.run).Some?
            && (seen.transport.LOCAL? || SessionOf(attempt.run).value.token || seen.attemptsCompleted >= 2)
            && EnoughReplies(SessionOf(attempt.run).value)
  {
    RunRecords(attempt.run);
    AttemptCounters(seen, OutcomeOf(attempt.run));
    if SessionOf(attempt.run).Some? {
      ServedVerdictIff(seen, attempt);
      RepliesDecideIff(attempt.run);
    } else if Finished(row, seen, attempt, now).status == VERIFIED {
      VerifiedWrite(row, seen, attempt, now);
    }
  }

  lemma ServedFloor(o: AttemptOutcome)
    requires ServedRun(o) && (o.securityFlagged ==> o.tools != [])
    ensures RawHundredths(BuildSoftChecks(o)) >= 3950
  {
    ServedCredit(o);
    if o.toolOutcomes != [] {
      ShareNear(Successes(o.toolOutcomes), |o.toolOutcomes|, WEIGHT_TOOL_INVOCATION);
    } else {
      HalfEvenOfInt(1000);
      assert SecurityDeduction(1.0) == 1000 && SecurityDeduction(0.0) == 0;
      assert Connected(o.stages);
    }
    hide HalfEven;
  }

  /** Every served run, over any row and any stale read: it is never rejected. One
      that replied well enough is verified with its attempts spent, retried after
      the second of three, and reviewed after the first; any other is reviewed. */
  lemma ServedTable(row: Record, seen: Record, attempt: Attempt, now: int)
    requires 0 <= seen.attemptsCompleted && SessionOf(attempt.run).Some?
    ensures Finished(row, seen, attempt, now).status ==
            if !EnoughReplies(SessionOf(attempt.run).value) then REVIEW
            else if seen.transport.LOCAL? || SessionOf(attempt.run).value.token || seen.attemptsCompleted >= 2
            then VERIFIED
            else if seen.attemptsCompleted == 1 then RETRY_PENDING
            else REVIEW
  {
    var o := OutcomeOf(attempt.run);
    var r := Refined(seen, attempt.run);
    RunRecords(attempt.run);
    RunsAreServed(attempt.run);
    RepliesDecideIff(attempt.run);
    ServedFloor(o);
    WrittenBack(row, seen, attempt, now);
    NotBlocked(o);
    ConfidenceByCounters(Completed(r, o), Planned(r, o));
    hide OutcomeOf, BuildSoftChecks, RawHundredths, Verdict, EnoughReplies, Finished, ServedRun, RecordedTo, SessionOf;
    hide Probed;
    VerdictTable(BuildSoftChecks(o), RunConfidence(r, o));
  }

  /** The flag says whether any call of the last served run was answered; a
      server that answers none is never verified. */
  lemma FlagMeansAnswered(row: Record, seen: Record, attempt: Attempt, now: int)
    requires 0 <= seen.attemptsCompleted
    ensures var after := Finished(row, seen, attempt, now); var session := SessionOf(attempt.run);
            && (after.invocationVerified <==>
                if session.Some? then Calls(session.value, Answers) != {} else row.invocationVerified)
            && (after.status == VERIFIED ==> session.Some? && Calls(session.value, Answers) != {})
  {
    RunRecords(attempt.run);
    if SessionOf(attempt.run).Some? {
      var s := SessionOf(attempt.run).value;
      RepliesCounted(s, |s.tools|);
      assert Successes(OutcomeOf(attempt.run).toolOutcomes) > 0 <==> Calls(s, Answers) != {};
    }
    if Finished(row, seen, attempt, now).status == VERIFIED {
      VerifiedWrite(row, seen, attempt, now);
    }
  }

  /** Each call answered to the judge's liking or came back as an error: half of
      them must have been answered. */
  lemma HalfOfCalls(run: Run)
    requires SessionOf(run).Some? && Probed(SessionOf(run).value) && SessionOf(run).value.probe.Graceful?
    requires Calls(SessionOf(run).value, GetsJudged) == Calls(SessionOf(run).value, Anything)
    requires Calls(SessionOf(run).value, Answers) == Calls(SessionOf(run).value, AnswersValidly)
    ensures var s := SessionOf(run).value;
            Verdict(BuildSoftChecks(OutcomeOf(run)), HIGH) == VERIFIED <==>
            Calls(s, Anything) != {} && 2 * |Calls(s, Answers)| >= |Calls(s, Anything)|
  {
    var s := SessionOf(run).value;
    RunRecords(run);
    RunsAreServed(run);
    RepliesCounted(s, |s.tools|);
    hide OutcomeOf, BuildSoftChecks, RecordedTo, CallsTo, ServedRun, Successes, Judged, JudgedValid;
    HalfDecides(OutcomeOf(run));
  }

  lemma AnswersAreJudged(s: Session)
    ensures Calls(s, AnswersValidly) <= Calls(s, Answers) <= Calls(s, GetsJudged)
  {
    hide Called, Rank;
  }

  /** Each call answered to the judge's liking or raised in the client: a single
      answer is enough. */
  lemma OneAnswerIsEnough(run: Run)
    requires SessionOf(run).Some? && Probed(SessionOf(run).value) && SessionOf(run).value.probe.Graceful?
    requires Calls(SessionOf(run).value, GetsJudged) == Calls(SessionOf(run).value, AnswersValidly)
    ensures var s := SessionOf(run).value;
            Verdict(BuildSoftChecks(OutcomeOf(run)), HIGH) == VERIFIED <==> Calls(s, Answers) != {}
  {
    var s := SessionOf(run).value;
    RunRecords(run);
    RunsAreServed(run);
    RepliesCounted(s, |s.tools|);
    AnswersAreJudged(s);
    var o := OutcomeOf(run);
    assert CleanlyServed(o);
    var answers, valid, judged := Calls(s, Answers), Calls(s, AnswersValidly), Calls(s, GetsJudged);
    assert Successes(o.toolOutcomes) == |answers| && JudgedValid(o.toolOutcomes) == |valid|;
    assert Judged(o.toolOutcomes) == |judged|;
    hide *;
    assert answers == valid;
    OneSuccessDecides(o);
  }
}
