/** Whole runs of the verification worker: termination, expiry and the retry
    schedule. Other writers are left to the Lifecycle module. */
module WorkerRuns {
  import opened Wrappers
  import opened Records
  import opened Scoring
  import opened Attempts
  import opened Finalize
  import opened Repository
  import opened Worker
  import opened SetSums

  // ---- termination --------------------------------------------------------

  /** Passes the worker can still spend on a row that nobody else touches. */
  function Remaining(r: Record): nat {
    if r.status in QUEUED || (r.status.REVIEW? && r.attemptsCompleted < r.attemptsPlanned) then
      if r.attemptsCompleted >= 3 then 1
      else if r.attemptsCompleted < 0 then 3
      else 3 - r.attemptsCompleted
    else 0
  }

  predicate NoCrash(e: Encounter) {
    e.prefilter.Passed? ==> e.verification.Concluded?
  }

  lemma CountersKept(row: Record, e: Encounter)
    requires CountersOk(row)
    ensures CountersOk(Serve(row, e))
  {
    if Landed(e) {
      var run := e.verification.attempt.run;
      AttemptCounters(Refined(row, run), OutcomeOf(run));
    }
  }

  /** Every pass over a selected row that has not merely expired uses up at
      least one of its remaining passes, whatever the run comes to. */
  lemma PassConsumes(row: Record, now: int, e: Encounter)
    requires CountersOk(row) && Eligible(row, now) && !Expired(row, now) && NoCrash(e)
    ensures Remaining(Serve(row, e)) < Remaining(row) <= 3
  {
    if e.prefilter.Passed? {
      var attempt := e.verification.attempt;
      NoPrematureVerdict(row, attempt);
      AttemptCounters(Refined(row, attempt.run), OutcomeOf(attempt.run));
      NeverQueuedAfresh(row, attempt);
    }
  }

  /** No run puts a record back to PENDING. */
  lemma NeverQueuedAfresh(seen: Record, attempt: Attempt)
    ensures FinalStatus(Refined(seen, attempt.run), OutcomeOf(attempt.run), attempt.hasActiveCredential)
            in {VERIFIED, REVIEW, REJECTED, RETRY_PENDING, PARTIAL_VERIFIED, OAUTH_PENDING_CONSENT,
                ServerStatus.MALFORMED}
  {
  }

  datatype Visit = Visit(id: ServerId, at: int, encounter: Encounter)

  /** One pass after another, each over a row selectable at its time, whatever
      comes of it. */
  predicate Lawful(rows: map<ServerId, Record>, visits: seq<Visit>) {
    visits != [] ==>
      var v := visits[0];
      && v.id in rows && Eligible(rows[v.id], v.at)
      && Lawful(rows[v.id := Serve(rows[v.id], v.encounter)], visits[1..])
  }

  function Play(rows: map<ServerId, Record>, visits: seq<Visit>): map<ServerId, Record> {
    if visits == [] || visits[0].id !in rows then rows
    else Play(rows[visits[0].id := Serve(rows[visits[0].id], visits[0].encounter)], visits[1..])
  }

  function VisitsTo(visits: seq<Visit>, id: ServerId): nat {
    if visits == [] then 0 else Count(visits[0].id == id) + VisitsTo(visits[1..], id)
  }

  /** A visit to a row that has expired, or one that raises. */
  predicate Exceptional(row: Record, v: Visit) {
    Expired(row, v.at) || !NoCrash(v.encounter)
  }

  function ExceptionsTo(rows: map<ServerId, Record>, visits: seq<Visit>, id: ServerId): nat {
    if visits == [] || visits[0].id !in rows then 0
    else
      var v := visits[0];
      Count(v.id == id && Exceptional(rows[v.id], v))
      + ExceptionsTo(rows[v.id := Serve(rows[v.id], v.encounter)], visits[1..], id)
  }

  function Exceptions(rows: map<ServerId, Record>, visits: seq<Visit>): nat {
    if visits == [] || visits[0].id !in rows then 0
    else
      var v := visits[0];
      Count(Exceptional(rows[v.id], v)) + Exceptions(rows[v.id := Serve(rows[v.id], v.encounter)], visits[1..])
  }

  lemma RemainingBound(row: Record)
    requires CountersOk(row)
    ensures Remaining(row) <= 3
  {
  }

  /** What one visit does to the passes remaining: it uses one up, or it is
      exceptional and leaves three at most. */
  lemma VisitCosts(row: Record, v: Visit)
    requires CountersOk(row) && Eligible(row, v.at)
    ensures 1 + Remaining(Serve(row, v.encounter)) <= Remaining(row) + 4 * Count(Exceptional(row, v))
    ensures CountersOk(Serve(row, v.encounter))
  {
    CountersKept(row, v.encounter);
    RemainingBound(Serve(row, v.encounter));
    if !Exceptional(row, v) {
      PassConsumes(row, v.at, v.encounter);
    }
  }

  /** Over any passes, expiries and exceptions included: no record is verified
      more often than three times and four times for each exceptional visit to
      it; without those at most three times, and with attempts on it
      proportionally less often. */
  lemma {:induction false} AtMostThreePasses(rows: map<ServerId, Record>, visits: seq<Visit>, id: ServerId)
    requires forall i :: i in rows ==> CountersOk(rows[i])
    requires Lawful(rows, visits) && id in rows
    ensures id in Play(rows, visits)
    ensures VisitsTo(visits, id) + Remaining(Play(rows, visits)[id])
            <= Remaining(rows[id]) + 4 * ExceptionsTo(rows, visits, id)
    ensures Remaining(rows[id]) <= 3
    decreases |visits|
  {
    RemainingBound(rows[id]);
    if visits != [] {
      var v := visits[0];
      VisitCosts(rows[v.id], v);
      hide Serve, Remaining, Eligible, Exceptional;
      AtMostThreePasses(rows[v.id := Serve(rows[v.id], v.encounter)], visits[1..], id);
    }
  }

  function RemainingIn(rows: map<ServerId, Record>): ServerId -> nat {
    (id: ServerId) => if id in rows then Remaining(rows[id]) else 0
  }

  ghost function Budget(rows: map<ServerId, Record>): nat {
    SumOver(rows.Keys, RemainingIn(rows))
  }

  lemma BudgetChanges(rows: map<ServerId, Record>, id: ServerId, row: Record)
    requires id in rows
    ensures Budget(rows[id := row]) + Remaining(rows[id]) == Budget(rows) + Remaining(row)
  {
    var after := rows[id := row];
    assert after.Keys == rows.Keys;
    SumTake(rows.Keys, RemainingIn(rows), id);
    SumTake(rows.Keys, RemainingIn(after), id);
    SumPointwise(rows.Keys - {id}, RemainingIn(after), RemainingIn(rows));
    SumPointwise(rows.Keys - {id}, RemainingIn(rows), RemainingIn(after));
  }

  lemma BudgetBound(rows: map<ServerId, Record>)
    requires forall i :: i in rows ==> CountersOk(rows[i])
    ensures Budget(rows) <= 3 * |rows|
  {
    var three: ServerId -> nat := id => 3;
    SumPointwise(rows.Keys, RemainingIn(rows), three);
    SumConstant(rows.Keys, three, 3);
    assert |rows.Keys| == |rows|;
  }

  /** The worker terminates but for expiries and exceptions: over any table, in
      whatever order rows are selected, at most three passes a row and four for
      each exceptional visit. */
  lemma {:induction false} WorkerTerminates(rows: map<ServerId, Record>, visits: seq<Visit>)
    requires forall i :: i in rows ==> CountersOk(rows[i])
    requires Lawful(rows, visits)
    ensures |visits| <= Budget(rows) + 4 * Exceptions(rows, visits)
    ensures Budget(rows) <= 3 * |rows|
    decreases |visits|
  {
    BudgetBound(rows);
    if visits != [] {
      var v := visits[0];
      VisitCosts(rows[v.id], v);
      BudgetChanges(rows, v.id, Serve(rows[v.id], v.encounter));
      hide Serve, Remaining, Budget, Eligible, Exceptional;
      WorkerTerminates(rows[v.id := Serve(rows[v.id], v.encounter)], visits[1..]);
    }
  }

  /** The attempts a row has behind it after a verification raised: one more
      exactly if the result had been written. */
  function AfterRaise(row: Record, e: Encounter): int
    requires e.prefilter.Passed?
  {
    if e.verification.Crash? then row.attemptsCompleted else Completed(row, OutcomeOf(e.verification.attempt.run))
  }

  /** A prefilter verdict sets the status and nothing else: no attempt is spent,
      no stamp is set, and the row leaves the queue. */
  lemma PrefilterVerdict(row: Record, e: Encounter, t: int)
    requires !e.prefilter.Passed?
    ensures Serve(row, e) == row.(status := if e.prefilter.PrefilterRejected? then REJECTED else ServerStatus.MALFORMED)
    ensures !Eligible(Serve(row, e), t)
  {
  }

  /** Why exceptions are excluded from termination. The row is queued for a
      retry whatever the run had come to, it spends an attempt exactly if the
      result was written, and it is selectable again at once exactly if nothing
      was written and none was spent since the counter was last reset. */
  lemma CrashBackoffIff(row: Record, e: Encounter)
    requires CountersOk(row) && e.prefilter.Passed? && !e.verification.Concluded?
    ensures var after := Serve(row, e);
            && after.status == RETRY_PENDING && after.attemptsCompleted == AfterRaise(row, e)
            && (forall t :: Eligible(after, t) <==> t >= e.endedAt + NextRetryDelay(AfterRaise(row, e)))
            && (Eligible(after, e.endedAt) <==> !Landed(e) && row.attemptsCompleted == 0)
  {
    hide FinalStatus, BuildSoftChecks, OutcomeOf, Quality;
    if e.verification.Raised? {
      AttemptCounters(Refined(row, e.verification.attempt.run), OutcomeOf(e.verification.attempt.run));
    }
  }

  /** A row queued for a retry with no attempts left: exactly what an exception
      leaves after the last planned run was written, or before anything is, of a
      row that had none left, as an expired row has not. */
  lemma ExhaustedRetryIff(row: Record, e: Encounter)
    requires CountersOk(row)
    ensures var after := Serve(row, e);
            (after.status == RETRY_PENDING && after.attemptsCompleted == after.attemptsPlanned) <==>
            && e.prefilter.Passed?
            && match e.verification {
                 case Concluded(_) => false
                 case Crash => row.attemptsCompleted == row.attemptsPlanned
                 case Raised(attempt, _) => Completed(row, OutcomeOf(attempt.run)) == Planned(row, OutcomeOf(attempt.run))
               }
  {
    hide FinalStatus, BuildSoftChecks, OutcomeOf, Quality;
    if Landed(e) {
      NoPrematureVerdict(row, e.verification.attempt);
    }
  }

  // ---- the badge ----------------------------------------------------------

  /** What strands a badge on a row that is not verified, given that it held one
      when its pass began, or earns one in the pass. */
  predicate PassStrands(row: Record, e: Encounter) {
    if !Landed(e) then row.verifiedBadge
    else
      var o := OutcomeOf(e.verification.attempt.run);
      var reached := RawHundredths(BuildSoftChecks(o)) >= 7950 && Completed(row, o) == Planned(row, o);
      o.kind.SUCCESS? && if Raises(e) then row.verifiedBadge || reached else row.verifiedBadge && !reached
  }

  /** The badge is documented as cleared whenever a later run fails or the record
      leaves the verified bucket. Over a whole pass of the worker that fails
      exactly for a badge holder that the prefilter turns away, whose run raises
      before its result is written, or whose served run falls short; and for a
      served run that raises after its result was written, if the row held a
      badge or has just earned one. */
  lemma PassStrandsBadgeIff(row: Record, e: Encounter)
    requires CountersOk(row)
    ensures var after := Serve(row, e);
            (after.verifiedBadge ==> after.status == VERIFIED) <==> !PassStrands(row, e)
  {
    if Landed(e) {
      var attempt := e.verification.attempt;
      var at := if e.verification.Raised? then e.verification.writtenAt else e.endedAt;
      BadgeAfterRun(row, row, attempt, at);
      AttemptCounters(row, OutcomeOf(attempt.run));
      BadgeImpliesVerifiedIff(row, attempt, at);
      if OutcomeOf(attempt.run).kind.SUCCESS? {
        ServedVerdictIff(row, attempt);
      }
    }
    hide BuildSoftChecks, OutcomeOf, FinalStatus, RawHundredths, Quality;
  }

  // ---- expiry -------------------------------------------------------------

  /** A pass over an expired record always takes it out of the expired set, for
      as long as its time to live: the expiry path never spins. */
  lemma ReverifiedNotExpired(row: Record, now: int, e: Encounter, t: int)
    requires CountersOk(row) && Expired(row, now)
    requires t <= e.endedAt + TtlSeconds(row.transport)
    ensures !Expired(Serve(row, e), t)
  {
    var after := Serve(row, e);
    if after.status.VERIFIED? {
      VerifiedWrite(row, row, e.verification.attempt, e.endedAt);
    }
  }

  /** Until when a verified verdict lasts: thirty days for a local server,
      seven for a remote one, and not a second longer. */
  lemma VerifiedLastsIff(row: Record, seen: Record, attempt: Attempt, at: int, t: int)
    requires 0 <= seen.attemptsCompleted && Finished(row, seen, attempt, at).status == VERIFIED
    ensures Expired(Finished(row, seen, attempt, at), t)
            <==> t > at + if seen.transport.LOCAL? then 2592000 else 604800
  {
    VerifiedWrite(row, seen, attempt, at);
  }

  /** The sweep is documented as keeping the last known status while a record
      is verified again. For an anonymous remote record it decides the verdict:
      after the reset no single run can end verified, whereas without it a run
      of a record with two attempts behind it can. */
  lemma SweepDemotesIff(row: Record, attempt: Attempt, at: int)
    requires CountersOk(row) && row.transport.REMOTE?
    requires !OutcomeOf(attempt.run).authExercised
    ensures var o := OutcomeOf(attempt.run); var swept := Apply(row, RESET_ATTEMPTS);
            && Finished(swept, swept, attempt, at).status != VERIFIED
            && (Finished(row, row, attempt, at).status == VERIFIED <==>
                o.kind.SUCCESS? && RawHundredths(BuildSoftChecks(o)) >= 7950 && row.attemptsCompleted >= 2)
  {
    var o := OutcomeOf(attempt.run);
    var swept := Apply(row, RESET_ATTEMPTS);
    if Finished(swept, swept, attempt, at).status == VERIFIED {
      VerifiedWrite(swept, swept, attempt, at);
    }
    if Finished(row, row, attempt, at).status == VERIFIED {
      VerifiedWrite(row, row, attempt, at);
    }
    if o.kind.SUCCESS? {
      ServedVerdictIff(row, attempt);
    }
  }

  // ---- the retry schedule -------------------------------------------------

  /** A served run worth the verified threshold. */
  predicate Passing(attempt: Attempt) {
    OutcomeOf(attempt.run).kind.SUCCESS? && RawHundredths(BuildSoftChecks(OutcomeOf(attempt.run))) >= 7950
  }

  lemma PassingRun(row: Record, attempt: Attempt, at: int)
    requires CountersOk(row) && Passing(attempt)
    ensures var o := OutcomeOf(attempt.run); var after := Finished(row, row, attempt, at);
            && after.attemptsCompleted == Completed(row, o)
            && after.attemptsPlanned == Planned(row, o)
            && after.transport == row.transport
            && after.lastAttemptAt == At(at)
            && after.status == match RunConfidence(row, o) {
                                 case HIGH => VERIFIED
                                 case MEDIUM => RETRY_PENDING
                                 case LOW => REVIEW
                               }
  {
    hide BuildSoftChecks, OutcomeOf, Quality, RawHundredths, Verdict;
    var o := OutcomeOf(attempt.run);
    NotBlocked(o);
    VerdictTable(BuildSoftChecks(o), RunConfidence(row, o));
  }

  /** A passing run of a remote server without credentials. */
  predicate PassingAnonymous(attempt: Attempt) {
    Passing(attempt) && !OutcomeOf(attempt.run).authExercised
  }

  /** Where a record stands after its first, second and third passing run, the
      last of which ended at `at`: waiting in REVIEW for an hour, waiting in
      RETRY_PENDING for six, verified. */
  ghost predicate Stands(r: Record, runs: nat, at: int) {
    && CountersOk(r) && r.transport.REMOTE? && r.attemptsCompleted == runs <= 3
    && (runs == 1 ==> r.status == REVIEW && forall u :: Eligible(r, u) <==> u >= at + 3600)
    && (runs == 2 ==> r.status == RETRY_PENDING && forall u :: Eligible(r, u) <==> u >= at + 21600)
    && (runs == 3 ==> r.status == VERIFIED && r.verifiedBadge && r.invocationVerified
                      && r.ttlExpiresAt == Some(at + 7 * SECONDS_PER_DAY))
  }

  lemma PassingRemoteRun(row: Record, attempt: Attempt, at: int)
    requires row.transport.REMOTE? && 0 <= row.attemptsCompleted <= 2
    requires CountersOk(row) && PassingAnonymous(attempt)
    ensures Stands(Finished(row, row, attempt, at), row.attemptsCompleted + 1, at)
  {
    hide BuildSoftChecks, OutcomeOf, Quality, Verdict, RawHundredths;
    PassingRun(row, attempt, at);
    ConfidenceByCounters(row.attemptsCompleted + 1, 3);
    if row.attemptsCompleted == 2 {
      VerifiedWrite(row, row, attempt, at);
    }
  }

  /** The records of a chain of passing runs, each started on the last. */
  ghost predicate PassingChain(rows: seq<Record>, t: seq<int>) {
    && |rows| == |t| + 1
    && forall i :: 0 <= i < |t| ==> PassingStep(rows[i], rows[i + 1], t[i])
  }

  ghost predicate PassingStep(before: Record, after: Record, at: int) {
    exists attempt :: PassingAnonymous(attempt) && after == Finished(before, before, attempt, at)
  }

  lemma PassingStepStands(before: Record, after: Record, at: int)
    requires before.transport.REMOTE? && 0 <= before.attemptsCompleted <= 2 && CountersOk(before)
    requires PassingStep(before, after, at)
    ensures Stands(after, before.attemptsCompleted + 1, at)
  {
    var attempt :| PassingAnonymous(attempt) && after == Finished(before, before, attempt, at);
    PassingRemoteRun(before, attempt, at);
  }

  /** A passing anonymous remote record takes exactly three runs, whatever the
      runs contain and whenever they end. */
  lemma AnonymousRemoteTakesThree(rows: seq<Record>, t: seq<int>)
    requires PassingChain(rows, t) && |t| == 3
    requires CountersOk(rows[0]) && rows[0].transport.REMOTE? && rows[0].attemptsCompleted == 0
    ensures Stands(rows[1], 1, t[0]) && Stands(rows[2], 2, t[1]) && Stands(rows[3], 3, t[2])
  {
    PassingStepStands(rows[0], rows[1], t[0]);
    PassingStepStands(rows[1], rows[2], t[1]);
    PassingStepStands(rows[2], rows[3], t[2]);
  }

  /** A local record, or one exercised with credentials, needs one run. */
  lemma OneRunSuffices(row: Record, attempt: Attempt, at: int)
    requires CountersOk(row) && Passing(attempt)
    requires row.transport.LOCAL? || OutcomeOf(attempt.run).authExercised
    ensures Finished(row, row, attempt, at).status == VERIFIED
    ensures Finished(row, row, attempt, at).verifiedBadge
    ensures Finished(row, row, attempt, at).attemptsPlanned == 1
  {
    PassingRun(row, attempt, at);
    VerifiedWrite(row, row, attempt, at);
  }

  datatype Pass = Pass(pickedAt: int, encounter: Encounter)

  predicate Anonymous(e: Encounter) {
    Landed(e) ==> !OutcomeOf(e.verification.attempt.run).authExercised
  }

  /** Any passes of the worker over one record, exceptions before or after the
      write and prefilter verdicts included: each at a time the record is
      eligible, each after the last. */
  predicate Timely(row: Record, passes: seq<Pass>, clock: int)
    decreases |passes|
  {
    passes != [] ==>
      var p := passes[0];
      && clock <= p.pickedAt <= p.encounter.endedAt
      && Eligible(row, p.pickedAt) && Anonymous(p.encounter)
      && Timely(Serve(row, p.encounter), passes[1..], p.encounter.endedAt)
  }

  function AfterPasses(row: Record, passes: seq<Pass>): Record
    decreases |passes|
  {
    if passes == [] then row else AfterPasses(Serve(row, passes[0].encounter), passes[1..])
  }

  /** The runs whose result was written. */
  function LandedRuns(passes: seq<Pass>): nat {
    if passes == [] then 0 else (if Landed(passes[0].encounter) then 1 else 0) + LandedRuns(passes[1..])
  }

  function EndClock(passes: seq<Pass>, clock: int): int
    decreases |passes|
  {
    if passes == [] then clock else EndClock(passes[1..], passes[0].encounter.endedAt)
  }

  /** When the first of them ended. */
  function FirstEnd(passes: seq<Pass>): Option<int> {
    if passes == [] then None
    else if Landed(passes[0].encounter) then Some(passes[0].encounter.endedAt)
    else FirstEnd(passes[1..])
  }

  /** What the schedule maintains; `first` is when the first run ended, `runs`
      how many have been written. */
  predicate OnSchedule(row: Record, first: Option<int>, runs: nat, clock: int) {
    && row.transport.REMOTE?
    && 0 <= row.attemptsCompleted <= 3 && row.attemptsCompleted <= runs
    && (row.attemptsCompleted == 0 <==> first.None?)
    && (row.status.PENDING? ==> row.attemptsCompleted == 0)
    && (row.status.VERIFIED? ==> row.attemptsCompleted == 3)
    && (row.attemptsCompleted > 0 ==>
          && row.lastAttemptAt.At?
          && first.value <= row.lastAttemptAt.instant <= clock
          && (row.attemptsCompleted >= 2 ==> row.lastAttemptAt.instant >= first.value + 3600)
          && (row.attemptsCompleted >= 3 ==> row.lastAttemptAt.instant >= first.value + 3600 + 21600))
  }

  lemma ScheduleStep(row: Record, p: Pass, first: Option<int>, runs: nat, clock: int)
    requires OnSchedule(row, first, runs, clock)
    requires clock <= p.pickedAt <= p.encounter.endedAt && Eligible(row, p.pickedAt) && Anonymous(p.encounter)
    ensures OnSchedule(Serve(row, p.encounter),
                       if first.None? && Landed(p.encounter) then Some(p.encounter.endedAt) else first,
                       if Landed(p.encounter) then runs + 1 else runs,
                       p.encounter.endedAt)
  {
    if Landed(p.encounter) {
      LandedPass(row, p.encounter);
    }
    hide ServePatch, BuildSoftChecks, OutcomeOf, Serve, FinalPatch;
    if !Landed(p.encounter) {
      UnlandedPass(row, p.encounter);
    }
  }

  /** What an anonymous remote run leaves of the counter, the stamp and the
      status. */
  lemma LandedPass(row: Record, e: Encounter)
    requires row.transport.REMOTE? && 0 <= row.attemptsCompleted && Landed(e) && Anonymous(e)
    ensures var after := Serve(row, e);
            && after.transport.REMOTE? && after.lastAttemptAt == At(e.endedAt)
            && after.attemptsCompleted == Min(row.attemptsCompleted + 1, 3)
            && !after.status.PENDING?
            && (after.status.VERIFIED? ==> after.attemptsCompleted == 3)
  {
    hide BuildSoftChecks, OutcomeOf, FinalStatus, Quality, Verdict, RawHundredths;
    var attempt := e.verification.attempt;
    NeverQueuedAfresh(row, attempt);
    if Serve(row, e).status.VERIFIED? {
      VerifiedWrite(row, row, attempt, e.endedAt);
    }
  }

  lemma UnlandedPass(row: Record, e: Encounter)
    requires !Landed(e)
    ensures var after := Serve(row, e);
            && after.transport == row.transport && after.attemptsCompleted == row.attemptsCompleted
            && after.status in {REJECTED, ServerStatus.MALFORMED, RETRY_PENDING}
            && (after.lastAttemptAt == At(e.endedAt) || after.lastAttemptAt == row.lastAttemptAt)
  {
  }

  lemma {:induction false} ScheduleHolds(row: Record, passes: seq<Pass>, first: Option<int>, runs: nat, clock: int)
    requires OnSchedule(row, first, runs, clock) && Timely(row, passes, clock)
    ensures OnSchedule(AfterPasses(row, passes), if first.Some? then first else FirstEnd(passes),
                       runs + LandedRuns(passes), EndClock(passes, clock))
    decreases |passes|
  {
    if passes != [] {
      var p := passes[0];
      ScheduleStep(row, p, first, runs, clock);
      ScheduleHolds(Serve(row, p.encounter), passes[1..],
                    if first.None? && Landed(p.encounter) then Some(p.encounter.endedAt) else first,
                    if Landed(p.encounter) then runs + 1 else runs, p.encounter.endedAt);
    }
  }

  /** No worker run, of any length, with any outcomes and any exceptions,
      verifies a fresh anonymous remote record before the result of its third
      run is written, nor sooner than an hour plus six hours after its first
      one. */
  lemma NeverVerifiedEarly(row: Record, passes: seq<Pass>, clock: int)
    requires row.transport.REMOTE? && row.status.PENDING? && row.attemptsCompleted == 0
    requires Timely(row, passes, clock)
    ensures var last := AfterPasses(row, passes);
            last.status == VERIFIED ==>
              && LandedRuns(passes) >= 3
              && FirstEnd(passes).Some? && last.lastAttemptAt.At?
              && last.lastAttemptAt.instant >= FirstEnd(passes).value + 3600 + 21600
  {
    ScheduleHolds(row, passes, None, 0, clock);
  }

  /** Written runs count, not concluded ones: two exceptions after the write,
      whatever the runs came to, and one concluded passing run verify such a
      record. */
  lemma RaisedRunsCount(row: Record, first: Encounter, second: Encounter, attempt: Attempt, at: int)
    requires CountersOk(row) && row.transport.REMOTE? && row.attemptsCompleted == 0
    requires Raises(first) && Anonymous(first) && Raises(second) && Anonymous(second) && PassingAnonymous(attempt)
    ensures Stands(Serve(Serve(Serve(row, first), second), Encounter(Passed, Concluded(attempt), at)), 3, at)
  {
    hide BuildSoftChecks, OutcomeOf, FinalPatch, RawHundredths;
    CountersKept(row, first);
    CountersKept(Serve(row, first), second);
    LandedPass(row, first);
    LandedPass(Serve(row, first), second);
    PassingRemoteRun(Serve(Serve(row, first), second), attempt, at);
  }

  // ---- such runs exist ----------------------------------------------------

  const ONE_TOOL := [Tool("t", true)]
  const VALID_ANSWERS: nat -> Reply := _ => Answered(true)
  const ONE_ANSWER := [ToolOutcome("t", INVOKED_OK, Some(true))]
  const PROBED := [StageResult(MALFORMED_INPUT, SUCCESS)]

  /** One tool that answers validly, and a graceful probe. */
  const LOCAL_PASS := Attempt(Local(LocalServed(ONE_TOOL, VALID_ANSWERS, Graceful)), false)
  const REMOTE_PASS := Attempt(Remote(RemoteServed(ONE_TOOL, VALID_ANSWERS, Graceful, false)), false)

  lemma OneValidAnswer()
    ensures Successes(ONE_ANSWER) == Judged(ONE_ANSWER) == JudgedValid(ONE_ANSWER) == 1
  {
    assert ONE_ANSWER[..0] == [];
  }

  lemma OneCall(transport: Transport)
    ensures InvokedAll(FirstFew(ONE_TOOL), VALID_ANSWERS, transport) == ONE_ANSWER
  {
    assert ONE_TOOL[..0] == [];
  }

  lemma LocalPassServes()
    ensures CleanlyServed(OutcomeOf(LOCAL_PASS.run)) && OutcomeOf(LOCAL_PASS.run).toolOutcomes == ONE_ANSWER
  {
    RunsAreWellFormed(LOCAL_PASS.run);
    OneCall(LOCAL);
    var more := PROBED + [StageResult(SECURITY, SUCCESS)];
    assert OutcomeOf(LOCAL_PASS.run).stages == LOCAL_STAGES + more;
    ServedStages(LOCAL_STAGES, more);
  }

  /** An anonymous run with a graceful probe. */
  lemma AnonymousExercise(tools: seq<Tool>, replies: nat -> Reply, stages: seq<StageResult>)
    requires tools != []
    ensures RemoteExercise(tools, replies, Graceful, false, stages)
            == Exercise(InvokedAll(FirstFew(tools), replies, REMOTE), Some(true), Flagged(stages + PROBED), stages + PROBED)
  {
    hide InvokedAll, Flagged;
    assert stages + [] == stages;
  }

  lemma NotFlagged()
    ensures !Flagged(REMOTE_STAGES + PROBED)
  {
  }

  lemma RemotePassExercise()
    ensures RemoteExercise(ONE_TOOL, VALID_ANSWERS, Graceful, false, REMOTE_STAGES)
            == Exercise(ONE_ANSWER, Some(true), false, REMOTE_STAGES + PROBED)
  {
    AnonymousExercise(ONE_TOOL, VALID_ANSWERS, REMOTE_STAGES);
    OneCall(REMOTE);
    NotFlagged();
    hide *;
  }

  lemma RemotePassServes()
    ensures var o := OutcomeOf(REMOTE_PASS.run);
            CleanlyServed(o) && o.toolOutcomes == ONE_ANSWER && !o.authExercised
  {
    RunsAreWellFormed(REMOTE_PASS.run);
    RemotePassExercise();
    hide RemoteExercise;
    ServedStages(REMOTE_STAGES, PROBED);
  }

  /** There are passing runs of either transport. */
  lemma PassingRunsExist()
    ensures LOCAL_PASS.run.Local? && Passing(LOCAL_PASS)
    ensures REMOTE_PASS.run.Remote? && PassingAnonymous(REMOTE_PASS)
  {
    LocalPassServes();
    RemotePassServes();
    OneValidAnswer();
    hide OutcomeOf, BuildSoftChecks, RawHundredths, Successes, Judged, JudgedValid;
    CallsDecideIff(OutcomeOf(LOCAL_PASS.run));
    CallsDecideIff(OutcomeOf(REMOTE_PASS.run));
  }
}
