/** What a run that was never served comes to, failure by failure
    (platform/backend/app/verification/verifiers.py). */
module Failures {
  import opened Wrappers
  import opened Rounding
  import opened Records
  import opened Scoring
  import opened Attempts
  import opened Finalize

  /** Points earned by a run that fails: 25 for reaching the server or meeting its
      auth gate, 15 more for a handshake; nothing for tools that were never
      exercised. */
  function Points(run: Run): nat {
    match run
    case Local(UnparseableCommand) => 0
    case Local(Crashed(reached)) => if reached >= 2 then 40 else 0
    case Local(NotConnected(_)) => 25
    case Local(LocalServed(_, _, _)) => 0
    case Remote(ConnectFailed(_)) => 0
    case Remote(NoToolsWithToken) => 40
    case Remote(AuthDemanded(ScopesRejected)) => 0
    case Remote(AuthDemanded(_)) => 25
    case Remote(RemoteServed(_, _, _, _)) => 0
  }

  predicate Fails(run: Run) {
    !OutcomeOf(run).kind.SUCCESS?
  }

  lemma LastIs(stages: seq<StageResult>, last: StageResult, stage: Stage)
    ensures LastOf(stages + [last], stage) == if last.stage == stage then Some(last.kind) else LastOf(stages, stage)
  {
    assert (stages + [last])[..|stages|] == stages;
  }

  /** The stages a failing run leaves on record, as far as they count. */
  predicate Earns(stages: seq<StageResult>, points: nat) {
    && (Connected(stages) <==> points >= 25)
    && (LastOf(stages, HANDSHAKE) == Some(SUCCESS) <==> points == 40)
  }

  lemma LocalStages(run: LocalRun)
    requires !run.LocalServed?
    ensures Earns(LocalOutcome(run).stages, Points(Local(run)))
  {
    match run
    case UnparseableCommand =>
      LastIsThree([], StageResult(INSTALL, MALFORMED_KIND));
    case Crashed(reached) =>
      var n := if reached < 3 then reached else 3;
      PrefixStages(n);
      LastIsThree(LOCAL_STAGES[..n], StageResult(INSTALL, TRANSPORT_FAIL));
    case NotConnected(unauthorized) =>
      var last := StageResult(HANDSHAKE, if unauthorized then AUTH_REQUIRED else PROTOCOL_FAIL);
      PrefixStages(1);
      assert LocalOutcome(run).stages == LOCAL_STAGES[..1] + [last];
      LastIsThree(LOCAL_STAGES[..1], last);
  }

  lemma AuthStages(path: AuthPath)
    requires !path.ReconnectedWith?
    ensures Earns(AuthOutcome(path).stages, Points(Remote(AuthDemanded(path))))
  {
    LastIsThree([], AUTH_STAGE);
    if !path.TokenRejected? {
      var last := if path.NoCredential? then AUTH_STAGE else StageResult(CONNECT, MALFORMED_KIND);
      LastIsThree([AUTH_STAGE], last);
      assert AuthOutcome(path).stages == [AUTH_STAGE] + [last];
    }
  }

  lemma RemoteStages(run: RemoteRun)
    requires run.ConnectFailed? || run.NoToolsWithToken?
    ensures Earns(RemoteOutcome(run).stages, Points(Remote(run)))
  {
    if run.ConnectFailed? {
      LastIsThree([], StageResult(CONNECT, ClassifyRemoteFailure(run.reason)));
    } else {
      LastIsThree([], REMOTE_STAGES[0]);
      LastIsThree([REMOTE_STAGES[0]], REMOTE_STAGES[1]);
      assert REMOTE_STAGES == [REMOTE_STAGES[0]] + [REMOTE_STAGES[1]];
    }
  }

  lemma FailureStages(run: Run)
    requires Fails(run)
    ensures Earns(OutcomeOf(run).stages, Points(run))
  {
    hide Earns, Points, LocalExercise, RemoteExercise, LastOf;
    match run
    case Local(local) => LocalStages(local);
    case Remote(AuthDemanded(path)) => AuthStages(path);
    case Remote(remote) =>
      if !remote.RemoteServed? {
        RemoteStages(remote);
      }
  }

  lemma LastIsThree(stages: seq<StageResult>, last: StageResult)
    ensures forall stage :: stage in {INSTALL, CONNECT, HANDSHAKE} ==>
              LastOf(stages + [last], stage) == if last.stage == stage then Some(last.kind) else LastOf(stages, stage)
    ensures stages == [] ==> stages + [last] == [last]
  {
    LastIs(stages, last, INSTALL);
    LastIs(stages, last, CONNECT);
    LastIs(stages, last, HANDSHAKE);
  }

  /** What the first stages of a local run say. */
  lemma PrefixStages(n: nat)
    requires n <= 3
    ensures LastOf(LOCAL_STAGES[..n], INSTALL) == if n >= 1 then Some(SUCCESS) else None
    ensures LastOf(LOCAL_STAGES[..n], HANDSHAKE) == if n >= 2 then Some(SUCCESS) else None
    ensures LastOf(LOCAL_STAGES[..n], CONNECT) == None
  {
    if n > 0 {
      PrefixStages(n - 1);
      assert LOCAL_STAGES[..n] == LOCAL_STAGES[..n - 1] + [LOCAL_STAGES[n - 1]];
      LastIs(LOCAL_STAGES[..n - 1], LOCAL_STAGES[n - 1], INSTALL);
      LastIs(LOCAL_STAGES[..n - 1], LOCAL_STAGES[n - 1], HANDSHAKE);
      LastIs(LOCAL_STAGES[..n - 1], LOCAL_STAGES[n - 1], CONNECT);
    }
  }

  lemma FailureCredit(run: Run)
    requires Fails(run)
    ensures RawHundredths(BuildSoftChecks(OutcomeOf(run))) == 100 * Points(run)
    ensures Quality(BuildSoftChecks(OutcomeOf(run))) == Points(run)
  {
    var o := OutcomeOf(run);
    RunsAreWellFormed(run);
    FailureStages(run);
    NeverHardFail(o);
    hide OutcomeOf, LastOf, Connected, HalfEven;
    HalfEvenOfInt(Points(run));
    assert (100 * Points(run)) as real / 100.0 == Points(run) as real;
  }

  lemma NeverHardFail(o: AttemptOutcome)
    ensures !BuildSoftChecks(o).hardFail
  {
  }

  /** Which failures are laid to the transport; those are retried whatever they
      earned. */
  lemma TransportFailuresIff(run: Run)
    ensures OutcomeOf(run).kind.TRANSPORT_FAIL? <==>
            match run
            case Local(Crashed(_)) => true
            case Remote(ConnectFailed(None)) => true
            case Remote(ConnectFailed(Some(reason))) => reason in {"connection_error", "timeout", "rate_limited"}
            case _ => false
  {
    hide LocalExercise, RemoteExercise;
  }

  /** Every failing run, over any row and any stale read: the points it writes,
      and its status. An unparseable command is malformed at once, a gate leads to
      consent or a partial verdict, and anything else is retried while attempts
      are left; then it goes to review if the handshake had been reached and is
      rejected otherwise. How a failed connection is classified changes nothing
      of that. */
  lemma FailureTable(row: Record, seen: Record, attempt: Attempt, now: int)
    requires Fails(attempt.run) && 0 <= seen.attemptsCompleted
    ensures var after := Finished(row, seen, attempt, now);
            var left := seen.transport.REMOTE? && seen.attemptsCompleted < 2;
            && after.qualityScore == Points(attempt.run)
            && after.attemptsCompleted == (if left then seen.attemptsCompleted + 1 else after.attemptsPlanned)
            && after.attemptsPlanned == (if seen.transport.LOCAL? then 1 else 3)
            && after.lastAttemptAt == At(now)
            && (after.verifiedBadge <==> row.verifiedBadge && !seen.verifiedBadge)
            && after.invocationVerified == row.invocationVerified && after.ttlExpiresAt == row.ttlExpiresAt
            && if attempt.run == Local(UnparseableCommand) then after.status == ServerStatus.MALFORMED
               else if MetOtherGate(attempt.run) || DiscoversAuth(attempt.run)
               then after.status in {OAUTH_PENDING_CONSENT, PARTIAL_VERIFIED}
               else after.status == if left then RETRY_PENDING
                                    else if Points(attempt.run) == 40 then REVIEW else REJECTED
  {
    var o := OutcomeOf(attempt.run);
    RunsAreWellFormed(attempt.run);
    FailureCredit(attempt.run);
    FailureStatus(seen, attempt);
    WrittenBack(row, seen, attempt, now);
    BadgeAfterRun(row, seen, attempt, now);
    hide OutcomeOf, BuildSoftChecks, Quality, FinalStatus, Points, MetOtherGate, DiscoversAuth;
  }

  lemma FailureStatus(seen: Record, attempt: Attempt)
    requires Fails(attempt.run) && 0 <= seen.attemptsCompleted
    ensures var status := FinalStatus(Refined(seen, attempt.run), OutcomeOf(attempt.run), attempt.hasActiveCredential);
            if attempt.run == Local(UnparseableCommand) then status == ServerStatus.MALFORMED
            else if MetOtherGate(attempt.run) || DiscoversAuth(attempt.run)
            then status in {OAUTH_PENDING_CONSENT, PARTIAL_VERIFIED}
            else status == if seen.transport.REMOTE? && seen.attemptsCompleted < 2 then RETRY_PENDING
                           else if Points(attempt.run) == 40 then REVIEW else REJECTED
  {
    var o := OutcomeOf(attempt.run);
    var r := Refined(seen, attempt.run);
    RunsAreWellFormed(attempt.run);
    FailureCredit(attempt.run);
    GatesMet(attempt.run);
    MalformedIff(attempt.run);
    NoPrematureVerdict(seen, attempt);
    AttemptCounters(r, o);
    assert !o.authExercised;
    hide OutcomeOf, BuildSoftChecks, Quality, RawHundredths, Verdict, MetOtherGate, DiscoversAuth;
    if !o.kind.AUTH_REQUIRED? {
      NotBlocked(o);
      VerdictTable(BuildSoftChecks(o), RunConfidence(r, o));
    }
  }

  lemma MalformedIff(run: Run)
    ensures OutcomeOf(run).kind.MALFORMED_KIND? <==> run == Local(UnparseableCommand)
  {
    hide LocalExercise, RemoteExercise;
  }
}
