/** `VerificationPipeline._finalize`: from an outcome to the fields written
    (platform/backend/app/verification/verifiers.py).

    A run starts from the record as it was read; minutes later it writes a set
    of fields over the row as it is by then. `seen` is the record that was
    read, `row` the row written to. */
module Finalize {
  import opened Wrappers
  import opened Records
  import opened Scoring
  import opened Attempts

  /** The outcome of an attempt and the credential store's answer. */
  datatype Attempt = Attempt(run: Run, hasActiveCredential: bool)

  /** The fields a write sets; an absent field is left alone. */
  datatype Patch = Patch(
    status: Option<ServerStatus>,
    qualityScore: Option<int>,
    confidence: Option<Confidence>,
    attemptsCompleted: Option<int>,
    attemptsPlanned: Option<int>,
    auth: Option<(bool, AuthType, Option<OAuthFlow>)>,
    invocationVerified: Option<bool>,
    badge: Option<(bool, bool, Option<Via>)>,
    lastVerifiedAt: Option<int>,
    ttlExpiresAt: Option<Option<int>>,
    lastAttemptAt: Option<Stamp>)

  const NO_CHANGE := Patch(None, None, None, None, None, None, None, None, None, None, None)

  function Or<T>(change: Option<T>, current: T): T {
    if change.Some? then change.value else current
  }

  /** `UPDATE ... SET`: exactly the fields of the patch change. */
  function Apply(row: Record, p: Patch): Record {
    var (authRequired, authType, oauthFlow) := Or(p.auth, (row.authRequired, row.authType, row.oauthFlow));
    var (badge, viaAuth, via) := Or(p.badge, (row.verifiedBadge, row.verifiedViaAuth, row.lastVerifiedVia));
    row.(authRequired := authRequired,
         authType := authType,
         oauthFlow := oauthFlow,
         status := Or(p.status, row.status),
         qualityScore := Or(p.qualityScore, row.qualityScore),
         confidence := Or(p.confidence, row.confidence),
         attemptsCompleted := Or(p.attemptsCompleted, row.attemptsCompleted),
         attemptsPlanned := Or(p.attemptsPlanned, row.attemptsPlanned),
         invocationVerified := Or(p.invocationVerified, row.invocationVerified),
         verifiedBadge := badge,
         verifiedViaAuth := viaAuth,
         lastVerifiedVia := via,
         lastVerifiedAt := if p.lastVerifiedAt.Some? then p.lastVerifiedAt else row.lastVerifiedAt,
         ttlExpiresAt := Or(p.ttlExpiresAt, row.ttlExpiresAt),
         lastAttemptAt := Or(p.lastAttemptAt, row.lastAttemptAt))
  }

  function Planned(seen: Record, o: AttemptOutcome): int {
    if seen.transport.LOCAL? || o.authExercised then 1 else REMOTE_ATTEMPTS_PLANNED
  }

  function Min(a: int, b: int): int { if a <= b then a else b }

  function Completed(seen: Record, o: AttemptOutcome): int {
    Min(seen.attemptsCompleted + 1, Planned(seen, o))
  }

  function RunConfidence(seen: Record, o: AttemptOutcome): Confidence {
    ConfidenceFromAttempts(Completed(seen, o), Planned(seen, o))
  }

  /** A human must consent before this record can be verified. */
  predicate NeedsConsent(seen: Record, hasActiveCredential: bool) {
    seen.authType == OAUTH2 && seen.oauthFlow == Some(AUTHORIZATION_CODE) && !hasActiveCredential
  }

  /** The rules that override the scored status. */
  function Route(scored: ServerStatus, kind: Kind, authExercised: bool, attemptsLeft: bool,
                 authBlocked: bool, needsConsent: bool): ServerStatus
  {
    var structural := if kind.MALFORMED_KIND? then ServerStatus.MALFORMED else scored;
    var retried :=
      if kind.TRANSPORT_FAIL? || kind.TIMEOUT? then
        if attemptsLeft then RETRY_PENDING else if authBlocked then PARTIAL_VERIFIED else structural
      else structural;
    if kind.AUTH_REQUIRED? && !authExercised && retried !in {VERIFIED, REVIEW} then
      if needsConsent then OAUTH_PENDING_CONSENT else PARTIAL_VERIFIED
    else retried
  }

  /** The status a run ends in. `seen` is the record as the run left it, auth
      metadata refined. */
  function FinalStatus(seen: Record, o: AttemptOutcome, hasActiveCredential: bool): ServerStatus {
    var soft := BuildSoftChecks(o);
    Route(Verdict(soft, RunConfidence(seen, o)), o.kind, o.authExercised,
          Completed(seen, o) < Planned(seen, o), soft.authBlocked, NeedsConsent(seen, hasActiveCredential))
  }

  /** What the scorer and the routing made of a run. */
  datatype Decision = Decision(
    status: ServerStatus, quality: int, confidence: Confidence, completed: int, planned: int)

  function Decide(seen: Record, o: AttemptOutcome, hasActiveCredential: bool): Decision {
    Decision(FinalStatus(seen, o, hasActiveCredential), Quality(BuildSoftChecks(o)),
             RunConfidence(seen, o), Completed(seen, o), Planned(seen, o))
  }

  /** The fields written for a decision; `served` is a SUCCESS run, `succeeded`
      whether any of its tool calls did. */
  function DecisionPatch(seen: Record, d: Decision, served: bool, succeeded: bool, authExercised: bool,
                         now: int): Patch
  {
    Patch(
      Some(d.status), Some(d.quality), Some(d.confidence), Some(d.completed), Some(d.planned),
      Some((seen.authRequired, seen.authType, seen.oauthFlow)),
      if served then Some(succeeded) else None,
      if served && succeeded && d.status.VERIFIED?
      then Some((true, authExercised, Some(if authExercised then AUTH else ANONYMOUS)))
      else if !served && seen.verifiedBadge then Some((false, false, None))
      else None,
      if served then Some(now) else None,
      if served then Some(if d.status.VERIFIED? then Some(now + TtlSeconds(seen.transport)) else None) else None,
      Some(At(now)))
  }

  function FinalPatch(seen: Record, o: AttemptOutcome, hasActiveCredential: bool, now: int): Patch {
    DecisionPatch(seen, Decide(seen, o, hasActiveCredential), o.kind.SUCCESS?,
                  Successes(o.toolOutcomes) > 0, o.authExercised, now)
  }

  /** The row after a run that was started on `seen` writes its result. */
  function Finished(row: Record, seen: Record, attempt: Attempt, now: int): Record {
    Apply(row, FinalPatch(Refined(seen, attempt.run), OutcomeOf(attempt.run), attempt.hasActiveCredential, now))
  }

  /** The status rules as written, one override after another. */
  method RouteStatus(scored: ServerStatus, kind: Kind, authExercised: bool, attemptsLeft: bool,
                     authBlocked: bool, needsConsent: bool) returns (status: ServerStatus)
    ensures status == Route(scored, kind, authExercised, attemptsLeft, authBlocked, needsConsent)
  {
    status := scored;
    if kind.MALFORMED_KIND? {
      status := ServerStatus.MALFORMED;
    }
    if kind.TRANSPORT_FAIL? || kind.TIMEOUT? {
      if attemptsLeft {
        status := RETRY_PENDING;
      } else if authBlocked {
        status := PARTIAL_VERIFIED;
      }
    }
    if kind.AUTH_REQUIRED? && !authExercised && status != VERIFIED && status != REVIEW {
      if needsConsent {
        status := OAUTH_PENDING_CONSENT;
      } else {
        status := PARTIAL_VERIFIED;
      }
    }
  }

  /** The update dictionary as written, growing step by step. */
  method BuildUpdates(seen: Record, d: Decision, served: bool, succeeded: bool, authExercised: bool, now: int)
    returns (updates: Patch)
    ensures updates == DecisionPatch(seen, d, served, succeeded, authExercised, now)
  {
    var badgeEarned := d.status.VERIFIED? && succeeded;
    updates := NO_CHANGE.(
      status := Some(d.status),
      qualityScore := Some(d.quality),
      confidence := Some(d.confidence),
      attemptsCompleted := Some(d.completed),
      attemptsPlanned := Some(d.planned),
      lastAttemptAt := Some(At(now)),
      auth := Some((seen.authRequired, seen.authType, seen.oauthFlow)));
    if served {
      updates := updates.(
        invocationVerified := Some(succeeded),
        lastVerifiedAt := Some(now),
        ttlExpiresAt := Some(if d.status.VERIFIED? then Some(now + TtlSeconds(seen.transport)) else None));
      if badgeEarned {
        updates := updates.(badge := Some((true, authExercised, Some(if authExercised then AUTH else ANONYMOUS))));
      }
    } else if seen.verifiedBadge {
      updates := updates.(badge := Some((false, false, None)));
    }
  }

  /** `_finalize`: score, route, build the update. */
  method FinalizeRun(seen: Record, o: AttemptOutcome, hasActiveCredential: bool, now: int)
    returns (updates: Patch)
    ensures updates == FinalPatch(seen, o, hasActiveCredential, now)
  {
    var soft := BuildSoftChecks(o);
    var planned := Planned(seen, o);
    var completed := Completed(seen, o);
    var result := ScoreServer(soft, completed, planned);
    var status := RouteStatus(result.status, o.kind, o.authExercised, completed < planned,
                              soft.authBlocked, NeedsConsent(seen, hasActiveCredential));
    var decision := Decision(status, result.qualityScore, result.confidence, completed, planned);
    updates := BuildUpdates(seen, decision, o.kind.SUCCESS?, Successes(o.toolOutcomes) > 0, o.authExercised, now);
  }

  // ---- what one run decides -----------------------------------------------

  /** Nothing but the checks decides a run that met no auth gate. */
  lemma NotBlocked(o: AttemptOutcome)
    requires !o.kind.AUTH_REQUIRED?
    ensures !BuildSoftChecks(o).hardFail && !BuildSoftChecks(o).authBlocked
  {
  }

  lemma AttemptCounters(seen: Record, o: AttemptOutcome)
    requires 0 <= seen.attemptsCompleted
    ensures 1 <= Completed(seen, o) <= Planned(seen, o)
    ensures Planned(seen, o) in {1, 3}
    ensures RunConfidence(seen, o) == HIGH <==> Completed(seen, o) == Planned(seen, o)
  {
    ConfidenceByCounters(Completed(seen, o), Planned(seen, o));
  }

  /** No premature verdict, for every score, counter and kind of run: a run that
      ends in RETRY_PENDING has attempts left; a transport failure is retried as
      long as it has; a run that met an auth gate ends partial or waiting for
      consent, and no other run waits for consent. */
  lemma NoPrematureVerdict(seen: Record, attempt: Attempt)
    requires 0 <= seen.attemptsCompleted
    ensures var o := OutcomeOf(attempt.run); var r := Refined(seen, attempt.run);
            var status := FinalStatus(r, o, attempt.hasActiveCredential);
            && (status == RETRY_PENDING ==> Completed(seen, o) < Planned(seen, o))
            && (o.kind.TRANSPORT_FAIL? && Completed(seen, o) < Planned(seen, o) ==> status == RETRY_PENDING)
            && (o.kind.AUTH_REQUIRED? ==> status in {OAUTH_PENDING_CONSENT, PARTIAL_VERIFIED})
            && (status == OAUTH_PENDING_CONSENT <==>
                  o.kind.AUTH_REQUIRED? && NeedsConsent(r, attempt.hasActiveCredential))
            && (o.kind.MALFORMED_KIND? ==> status == ServerStatus.MALFORMED)
  {
    hide BuildSoftChecks, OutcomeOf, Quality, RawHundredths, Verdict;
    var o := OutcomeOf(attempt.run);
    var r := Refined(seen, attempt.run);
    RunsAreWellFormed(attempt.run);
    AttemptCounters(r, o);
    if o.kind.AUTH_REQUIRED? {
      AuthRunIsPartial(o, RunConfidence(r, o));
    } else {
      NotBlocked(o);
      VerdictTable(BuildSoftChecks(o), RunConfidence(r, o));
    }
  }

  /** An auth gate that was met with a credential on file, or locally. */
  predicate MetOtherGate(run: Run) {
    match run
    case Local(NotConnected(unauthorized)) => unauthorized
    case Remote(NoToolsWithToken) => true
    case Remote(AuthDemanded(TokenRejected)) => true
    case _ => false
  }

  predicate DiscoversAuth(run: Run) {
    run.Remote? && run.remote.AuthDemanded? && run.remote.path.NoCredential?
  }

  lemma GatesMet(run: Run)
    ensures OutcomeOf(run).kind.AUTH_REQUIRED? <==> MetOtherGate(run) || DiscoversAuth(run)
  {
    hide LocalExercise, RemoteExercise;
  }

  lemma WrittenBack(row: Record, seen: Record, attempt: Attempt, now: int)
    ensures var after := Finished(row, seen, attempt, now); var r := Refined(seen, attempt.run);
            && after.authRequired == r.authRequired && after.authType == r.authType && after.oauthFlow == r.oauthFlow
            && after.status == FinalStatus(r, OutcomeOf(attempt.run), attempt.hasActiveCredential)
  {
    hide FinalStatus, OutcomeOf, Quality, BuildSoftChecks, Refined;
  }

  /** A gate met without credentials is where auth metadata is discovered: the
      row written has it, whatever was read before, and waits for consent exactly
      if the discovered grant needs a human and no credential has become active.
      Every other run writes the metadata it read, and decides on that. */
  lemma ConsentIff(row: Record, seen: Record, attempt: Attempt, now: int)
    requires 0 <= seen.attemptsCompleted
    ensures var after := Finished(row, seen, attempt, now);
            match attempt.run
            case Remote(AuthDemanded(NoCredential(discovered, flow))) =>
              && after.authRequired && after.authType == discovered && after.oauthFlow == flow
              && after.status == if discovered == OAUTH2 && flow == Some(AUTHORIZATION_CODE)
                                    && !attempt.hasActiveCredential
                                 then OAUTH_PENDING_CONSENT else PARTIAL_VERIFIED
            case _ =>
              && after.authRequired == seen.authRequired
              && after.authType == seen.authType && after.oauthFlow == seen.oauthFlow
              && (after.status == OAUTH_PENDING_CONSENT <==>
                    && MetOtherGate(attempt.run) && seen.authType == OAUTH2
                    && seen.oauthFlow == Some(AUTHORIZATION_CODE) && !attempt.hasActiveCredential)
  {
    NoPrematureVerdict(seen, attempt);
    GatesMet(attempt.run);
    WrittenBack(row, seen, attempt, now);
    hide FinalStatus, Finished, OutcomeOf, Completed, Planned;
  }

  /** A pipeline run ends verified only from a served run at full attempts that
      connected and succeeded on some tool, and then it writes the badge, the
      flag and a fresh expiry in the same update. */
  lemma VerifiedWrite(row: Record, seen: Record, attempt: Attempt, now: int)
    requires 0 <= seen.attemptsCompleted
    requires Finished(row, seen, attempt, now).status == VERIFIED
    ensures var o := OutcomeOf(attempt.run); var after := Finished(row, seen, attempt, now);
            && o.kind.SUCCESS? && Connected(o.stages) && Successes(o.toolOutcomes) > 0
            && Completed(seen, o) == Planned(seen, o)
            && RawHundredths(BuildSoftChecks(o)) >= 7950
            && after.verifiedBadge && after.invocationVerified
            && after.ttlExpiresAt == Some(now + TtlSeconds(seen.transport))
            && after.verifiedViaAuth == o.authExercised
  {
    hide BuildSoftChecks, OutcomeOf, Quality, RawHundredths, Verdict;
    var o := OutcomeOf(attempt.run);
    var r := Refined(seen, attempt.run);
    RunsAreWellFormed(attempt.run);
    AttemptCounters(r, o);
    var confidence := RunConfidence(r, o);
    if o.kind.AUTH_REQUIRED? {
      AuthRunIsPartial(o, confidence);
    } else {
      NotBlocked(o);
      assert Verdict(BuildSoftChecks(o), confidence) == VERIFIED;
      VerifiedRunEvidence(o, confidence);
      VerdictTable(BuildSoftChecks(o), confidence);
    }
  }

  /** The badge after a run, exactly. It survives a served run that scored low;
      it is dropped by a failed run only if the record read at the start of the
      run already carried it. */
  lemma BadgeAfterRun(row: Record, seen: Record, attempt: Attempt, now: int)
    requires 0 <= seen.attemptsCompleted
    ensures var o := OutcomeOf(attempt.run); var after := Finished(row, seen, attempt, now);
            after.verifiedBadge <==>
            if o.kind.SUCCESS? then row.verifiedBadge || after.status == VERIFIED
            else row.verifiedBadge && !seen.verifiedBadge
  {
    if Finished(row, seen, attempt, now).status == VERIFIED {
      VerifiedWrite(row, seen, attempt, now);
    }
  }

  /** A served run is verified exactly at full attempts and 79.50 points. */
  lemma ServedVerdictIff(seen: Record, attempt: Attempt)
    requires 0 <= seen.attemptsCompleted
    requires OutcomeOf(attempt.run).kind.SUCCESS?
    ensures var o := OutcomeOf(attempt.run);
            FinalStatus(Refined(seen, attempt.run), o, attempt.hasActiveCredential) == VERIFIED <==>
            RawHundredths(BuildSoftChecks(o)) >= 7950 && Completed(seen, o) == Planned(seen, o)
  {
    var o := OutcomeOf(attempt.run);
    var r := Refined(seen, attempt.run);
    hide BuildSoftChecks, OutcomeOf, Quality, RawHundredths, Verdict;
    AttemptCounters(r, o);
    NotBlocked(o);
    VerdictTable(BuildSoftChecks(o), RunConfidence(r, o));
  }

  /** The comment beside the code says that the badge is cleared the moment a
      later run fails to reach a verified verdict. For a record nobody else
      touches meanwhile, that fails exactly on a served run of a badge holder
      that scores below 79.50 points or has attempts left. */
  lemma BadgeImpliesVerifiedIff(seen: Record, attempt: Attempt, now: int)
    requires 0 <= seen.attemptsCompleted
    ensures var o := OutcomeOf(attempt.run); var after := Finished(seen, seen, attempt, now);
            (after.verifiedBadge ==> after.status == VERIFIED) <==>
            !(o.kind.SUCCESS? && seen.verifiedBadge
              && (RawHundredths(BuildSoftChecks(o)) < 7950 || Completed(seen, o) < Planned(seen, o)))
  {
    hide BuildSoftChecks, OutcomeOf, FinalStatus, RawHundredths, Quality;
    BadgeAfterRun(seen, seen, attempt, now);
    AttemptCounters(seen, OutcomeOf(attempt.run));
    if OutcomeOf(attempt.run).kind.SUCCESS? {
      ServedVerdictIff(seen, attempt);
    }
  }

  const EMPTY_RUN := Local(LocalServed([], _ => Raised, Graceful))

  /** A served local run that lists no tools is worth forty points. */
  lemma EmptyRunCredit()
    ensures RawHundredths(BuildSoftChecks(OutcomeOf(EMPTY_RUN))) == 4000
    ensures Successes(OutcomeOf(EMPTY_RUN).toolOutcomes) == 0
  {
    var o := OutcomeOf(EMPTY_RUN);
    RunsAreWellFormed(EMPTY_RUN);
    assert o.stages == LOCAL_STAGES + [StageResult(SECURITY, SUCCESS)];
    LastOfAppend(LOCAL_STAGES, [StageResult(SECURITY, SUCCESS)], INSTALL);
    assert LOCAL_STAGES[..2][..1] == [StageResult(INSTALL, SUCCESS)];
    assert LastOf(LOCAL_STAGES, INSTALL) == Some(SUCCESS);
    assert o.toolOutcomes == [] && !o.securityFlagged;
  }

  /** Such a run exists: a badge holder that lists no tools keeps its badge. */
  lemma StaleBadge(seen: Record, now: int)
    requires seen.transport.LOCAL? && seen.verifiedBadge && 0 <= seen.attemptsCompleted
    ensures var after := Finished(seen, seen, Attempt(EMPTY_RUN, false), now);
            after.verifiedBadge && after.status == REVIEW && !after.invocationVerified
  {
    var o := OutcomeOf(EMPTY_RUN);
    assert o.kind.SUCCESS?;
    hide BuildSoftChecks, OutcomeOf, RawHundredths, Quality, Verdict;
    EmptyRunCredit();
    AttemptCounters(seen, o);
    NotBlocked(o);
    BadgeAfterRun(seen, seen, Attempt(EMPTY_RUN, false), now);
    VerdictTable(BuildSoftChecks(o), HIGH);
  }
}
