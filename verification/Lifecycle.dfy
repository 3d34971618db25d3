/** Every writer of the registry, interleaved.

    The worker, the TTL sweep, the review endpoints, user tests and the OAuth
    callback run as coroutines of one process: a writer that reads a record
    may write minutes later, over a row that others have changed meanwhile. A
    step here is one database write, or one read a later write depends on. */
module Lifecycle {
  import opened Wrappers
  import opened Records
  import opened Scoring
  import opened Attempts
  import opened Finalize
  import opened Repository
  import opened Worker

  /** A write still to come: decided on a record read earlier, or the one that
      follows an exception after a run's result was written. */
  datatype Job =
    | Verifying(id: ServerId, seen: Record)
    | Approving(id: ServerId, seen: Record)
    | Failing(id: ServerId)

  datatype World = World(rows: map<ServerId, Record>, jobs: multiset<Job>)

  const INITIAL := World(map[], multiset{})

  datatype Event =
    | Ingest(id: ServerId, record: Record)
    | IngestVerdict(id: ServerId, prefilter: Prefilter)
    | StartVerify(id: ServerId, now: int)
    | FinishVerify(job: Job, encounter: Encounter)
    | FinishRaise(job: Job, at: int)
    | Sweep(id: ServerId)
    | RecheckReset(id: ServerId)
    | RecheckQueue(id: ServerId)
    | StartApprove(id: ServerId)
    | FinishApprove(job: Job, now: int)
    | Reject(id: ServerId)
    | TestCreate(id: ServerId, record: Record, viaAuth: bool, now: int)
    | TestWrite(id: ServerId, priorScore: int, transport: Transport, viaAuth: bool, now: int)
    | Requeue(id: ServerId)
    | CascadeReauth(id: ServerId)

  /** A record as ingestion creates it. */
  predicate Fresh(r: Record) {
    r.status.PENDING? && r.attemptsCompleted == 0 && r.attemptsPlanned == 1 && !r.verifiedBadge
  }

  predicate Approvable(r: Record) {
    r.status in {REVIEW, PARTIAL_VERIFIED} && r.invocationVerified
  }

  /** `approve_server` writes these fields, decided from what it read. */
  function ApprovePatch(seen: Record, now: int): Patch {
    NO_CHANGE.(status := Some(VERIFIED),
               badge := Some((true, seen.authRequired, Some(MANUAL_REVIEW))),
               ttlExpiresAt := Some(Some(now + TtlSeconds(seen.transport))))
  }

  /** `_record_user_verified_success_inner`; score and transport are those of
      the record it read. */
  function TestPatch(priorScore: int, transport: Transport, viaAuth: bool, now: int): Patch {
    NO_CHANGE.(status := Some(VERIFIED),
               badge := Some((true, viaAuth, Some(USER_TEST))),
               invocationVerified := Some(true),
               qualityScore := Some(if priorScore >= 90 then priorScore else 90),
               confidence := Some(HIGH),
               attemptsCompleted := Some(1),
               attemptsPlanned := Some(1),
               lastVerifiedAt := Some(now),
               ttlExpiresAt := Some(Some(now + TtlSeconds(transport))))
  }

  /** The record a user test creates when none matches. */
  function TestRecord(r: Record, viaAuth: bool, now: int): Record {
    Apply(r, TestPatch(90, r.transport, viaAuth, now)).(authRequired := viaAuth, attemptsCompleted := 0)
  }

  function PrefilterPatch(prefilter: Prefilter): Patch {
    match prefilter
    case Passed => StatusOnly(PENDING)
    case PrefilterRejected => StatusOnly(REJECTED)
    case PrefilterMalformed => StatusOnly(ServerStatus.MALFORMED)
  }

  /** Fresh consent starts a fresh pass. */
  const FRESH_PASS := StatusOnly(PENDING).(attemptsCompleted := Some(0))

  /** `create`: no second row for a source URL. */
  predicate Insertable(w: World, id: ServerId, url: string) {
    id !in w.rows && forall i :: i in w.rows ==> w.rows[i].sourceUrl != url
  }

  predicate Enabled(w: World, e: Event) {
    match e
    case Ingest(id, record) => Fresh(record) && Insertable(w, id, record.sourceUrl)
    case TestCreate(id, record, _, _) => Insertable(w, id, record.sourceUrl)
    case StartVerify(id, now) => id in w.rows && Eligible(w.rows[id], now)
    case FinishVerify(job, _) => job in w.jobs && job.Verifying?
    case FinishRaise(job, _) => job in w.jobs && job.Failing?
    case StartApprove(id) => id in w.rows && Approvable(w.rows[id])
    case FinishApprove(job, _) => job in w.jobs && job.Approving?
    case _ => true
  }

  /** The row a writing event writes to, and the fields it sets. */
  function Target(e: Event): ServerId {
    match e
    case FinishVerify(job, _) => job.id
    case FinishRaise(job, _) => job.id
    case FinishApprove(job, _) => job.id
    case _ => e.id
  }

  predicate Writes(e: Event) {
    !e.Ingest? && !e.TestCreate? && !e.StartVerify? && !e.StartApprove?
  }

  function PatchOf(e: Event): Patch
    requires e.FinishVerify? || e.FinishApprove? ==> !e.job.Failing?
  {
    match e
    case IngestVerdict(_, prefilter) => PrefilterPatch(prefilter)
    case FinishVerify(job, encounter) => ServePatch(job.seen, encounter)
    case FinishRaise(_, at) => CrashPatch(at)
    case Sweep(_) => RESET_ATTEMPTS
    case RecheckReset(_) => RESET_ATTEMPTS
    case RecheckQueue(_) => StatusOnly(PENDING)
    case FinishApprove(job, now) => ApprovePatch(job.seen, now)
    case Reject(_) => StatusOnly(REJECTED)
    case TestWrite(_, priorScore, transport, viaAuth, now) => TestPatch(priorScore, transport, viaAuth, now)
    case Requeue(_) => FRESH_PASS
    case CascadeReauth(_) => StatusOnly(REAUTH_REQUIRED)
    case _ => NO_CHANGE
  }

  function JobsAfter(jobs: multiset<Job>, e: Event): multiset<Job> {
    match e
    case FinishVerify(job, encounter) =>
      jobs - multiset{job} + if Raises(encounter) then multiset{Failing(job.id)} else multiset{}
    case FinishRaise(job, _) => jobs - multiset{job}
    case FinishApprove(job, _) => jobs - multiset{job}
    case _ => jobs
  }

  function Step(w: World, e: Event): World
    requires Enabled(w, e)
  {
    match e
    case Ingest(id, record) => w.(rows := w.rows[id := record])
    case TestCreate(id, record, viaAuth, now) => w.(rows := w.rows[id := TestRecord(record, viaAuth, now)])
    case StartVerify(id, _) => w.(jobs := w.jobs + multiset{Verifying(id, w.rows[id])})
    case StartApprove(id) => w.(jobs := w.jobs + multiset{Approving(id, w.rows[id])})
    case _ => World(Updated(w.rows, Target(e), PatchOf(e)), JobsAfter(w.jobs, e))
  }

  /** The worlds a list of events passes through. */
  ghost predicate Run(worlds: seq<World>, events: seq<Event>) {
    && |worlds| == |events| + 1
    && forall i :: 0 <= i < |events| ==>
         Enabled(worlds[i], events[i]) && worlds[i + 1] == Step(worlds[i], events[i])
  }

  // ---- safety over every interleaving -------------------------------------

  predicate RowsSafe(rows: map<ServerId, Record>) {
    forall id :: id in rows ==> CountersOk(rows[id]) && VerifiedIsBadged(rows[id])
  }

  predicate Safe(w: World) {
    && RowsSafe(w.rows)
    && forall job :: job in w.jobs && !job.Failing? ==> CountersOk(job.seen)
  }

  /** A run's write is safe over any row, however stale the record it read. */
  lemma ServeSafe(row: Record, seen: Record, e: Encounter)
    requires CountersOk(row) && CountersOk(seen) && VerifiedIsBadged(row)
    ensures var after := Apply(row, ServePatch(seen, e));
            CountersOk(after) && VerifiedIsBadged(after) && (VerifiedIsInvoked(row) ==> VerifiedIsInvoked(after))
  {
    hide FinalPatch;
    if Landed(e) {
      FinishedSafe(row, seen, e.verification.attempt,
                   if e.verification.Raised? then e.verification.writtenAt else e.endedAt);
    }
  }

  lemma FinishedSafe(row: Record, seen: Record, attempt: Attempt, now: int)
    requires CountersOk(seen)
    ensures var after := Finished(row, seen, attempt, now);
            CountersOk(after) && VerifiedIsBadged(after) && VerifiedIsInvoked(after)
  {
    hide BuildSoftChecks, OutcomeOf, FinalStatus, Quality;
    AttemptCounters(Refined(seen, attempt.run), OutcomeOf(attempt.run));
    if Finished(row, seen, attempt, now).status == VERIFIED {
      VerifiedWrite(row, seen, attempt, now);
    }
  }

  /** A row after a step is the row before, a new one, or that of the target
      with its patch. */
  lemma RowAfter(w: World, e: Event, id: ServerId)
    requires Enabled(w, e) && id in Step(w, e).rows
    ensures var after := Step(w, e).rows[id];
            || (id in w.rows && after == w.rows[id])
            || (e.Ingest? && after == e.record)
            || (e.TestCreate? && after == TestRecord(e.record, e.viaAuth, e.now))
            || (Writes(e) && id == Target(e) && id in w.rows && after == Apply(w.rows[id], PatchOf(e)))
  {
    hide Apply, PatchOf, TestRecord, JobsAfter, Insertable, Eligible, Fresh, Approvable;
    if Writes(e) {
      assert Step(w, e).rows == Updated(w.rows, Target(e), PatchOf(e));
    }
  }

  lemma PatchSafe(row: Record, e: Event)
    requires CountersOk(row) && VerifiedIsBadged(row)
    requires e.FinishVerify? || e.FinishApprove? ==> !e.job.Failing? && CountersOk(e.job.seen)
    ensures CountersOk(Apply(row, PatchOf(e))) && VerifiedIsBadged(Apply(row, PatchOf(e)))
    ensures VerifiedIsInvoked(row) && !e.FinishApprove? ==> VerifiedIsInvoked(Apply(row, PatchOf(e)))
  {
    if e.FinishVerify? {
      ServeSafe(row, e.job.seen, e.encounter);
    }
    hide ServePatch;
  }

  lemma JobsSafe(w: World, e: Event)
    requires Safe(w) && Enabled(w, e)
    ensures forall job :: job in Step(w, e).jobs && !job.Failing? ==> CountersOk(job.seen)
  {
    hide PatchOf, Updated, Eligible, Approvable;
  }

  lemma StepSafe(w: World, e: Event)
    requires Safe(w) && Enabled(w, e)
    ensures Safe(Step(w, e))
  {
    JobsSafe(w, e);
    forall id | id in Step(w, e).rows
      ensures CountersOk(Step(w, e).rows[id]) && VerifiedIsBadged(Step(w, e).rows[id])
    {
      RowSafe(w, e, id);
    }
  }

  lemma RowSafe(w: World, e: Event, id: ServerId)
    requires Safe(w) && Enabled(w, e) && id in Step(w, e).rows
    ensures var after := Step(w, e).rows[id];
            && CountersOk(after) && VerifiedIsBadged(after)
            && ((id in w.rows ==> VerifiedIsInvoked(w.rows[id])) && !e.FinishApprove? ==> VerifiedIsInvoked(after))
  {
    RowAfter(w, e, id);
    if Writes(e) && id in w.rows {
      PatchSafe(w.rows[id], e);
    } else if e.TestCreate? {
      TestRecordSafe(e.record, e.viaAuth, e.now);
    }
    hide Step, Apply, PatchOf, TestRecord;
  }

  lemma TestRecordSafe(record: Record, viaAuth: bool, now: int)
    ensures var r := TestRecord(record, viaAuth, now); CountersOk(r) && VerifiedIsBadged(r) && VerifiedIsInvoked(r)
  {
  }

  /** In every reachable state, under every interleaving of all writers with
      reads and writes apart: a verified row carries its badge and an expiry,
      and 0 <= completed <= planned with one or three attempts planned. */
  lemma {:induction false} AlwaysSafe(worlds: seq<World>, events: seq<Event>, i: nat)
    requires Run(worlds, events) && worlds[0] == INITIAL && i <= |events|
    ensures Safe(worlds[i])
  {
    if i > 0 {
      AlwaysSafe(worlds, events, i - 1);
      StepSafe(worlds[i - 1], events[i - 1]);
    }
  }

  // ---- no faked verified status -------------------------------------------

  predicate NothingFaked(w: World) {
    forall id :: id in w.rows ==> VerifiedIsInvoked(w.rows[id])
  }

  /** What an approval would have to check again when it writes. */
  predicate ApprovalCurrent(w: World, e: Event) {
    e.FinishApprove? && e.job.id in w.rows ==> w.rows[e.job.id].invocationVerified
  }

  /** Only an approval can break it, and exactly when the flag it was granted
      on is gone by the time it writes. */
  lemma StepNothingFakedIff(w: World, e: Event)
    requires Safe(w) && NothingFaked(w) && Enabled(w, e)
    ensures NothingFaked(Step(w, e)) <==> ApprovalCurrent(w, e)
  {
    if ApprovalCurrent(w, e) {
      forall id | id in Step(w, e).rows ensures VerifiedIsInvoked(Step(w, e).rows[id]) {
        RowSafe(w, e, id);
        if e.FinishApprove? {
          RowAfter(w, e, id);
          ApprovalKeepsFlag(w.rows[id], e.job.seen, e.now);
        }
      }
    } else {
      LateApproval(w, e.job, e.now);
    }
  }

  lemma ApprovalKeepsFlag(row: Record, seen: Record, now: int)
    ensures Apply(row, ApprovePatch(seen, now)).invocationVerified == row.invocationVerified
  {
  }

  lemma LateApproval(w: World, job: Job, now: int)
    requires Enabled(w, FinishApprove(job, now))
    requires job.id in w.rows && !w.rows[job.id].invocationVerified
    ensures !NothingFaked(Step(w, FinishApprove(job, now)))
  {
    assert !VerifiedIsInvoked(Step(w, FinishApprove(job, now)).rows[job.id]);
  }

  /** Over every run: all verified rows have succeeded on some tool, at all
      times, if and only if every approval of the run still finds the flag it
      was granted on. */
  lemma {:induction false} NothingFakedIff(worlds: seq<World>, events: seq<Event>, n: nat)
    requires Run(worlds, events) && worlds[0] == INITIAL && n <= |events|
    ensures (forall i :: 0 <= i <= n ==> NothingFaked(worlds[i])) <==>
            (forall i :: 0 <= i < n ==> ApprovalCurrent(worlds[i], events[i]))
  {
    hide NothingFaked, ApprovalCurrent, Step;
    if n == 0 {
      InitiallyNothingFaked();
    } else {
      NothingFakedIff(worlds, events, n - 1);
      AlwaysSafe(worlds, events, n - 1);
      assert Enabled(worlds[n - 1], events[n - 1]) && worlds[n - 1 + 1] == Step(worlds[n - 1], events[n - 1]);
      if NothingFaked(worlds[n - 1]) {
        StepNothingFakedIff(worlds[n - 1], events[n - 1]);
        assert NothingFaked(worlds[n]) <==> ApprovalCurrent(worlds[n - 1], events[n - 1]);
      }
    }
  }

  lemma InitiallyNothingFaked()
    ensures NothingFaked(INITIAL)
  {
  }

  /** The race is real: while the approval of a local record is in flight, a
      recheck whose run lists no tools lands before it, and the approval then
      verifies a record that never answered. */
  lemma ApprovalRace(w0: World, id: ServerId, now: int)
    requires Safe(w0) && id in w0.rows && w0.rows[id].transport.LOCAL?
    requires Approving(id, w0.rows[id]) in w0.jobs && Approvable(w0.rows[id])
    ensures var w1 := Step(w0, RecheckQueue(id));
            var w2 := Step(w1, StartVerify(id, now));
            var verifying := Verifying(id, w1.rows[id]);
            var run := Encounter(Passed, Concluded(Attempt(EMPTY_RUN, false)), now);
            && Enabled(w2, FinishVerify(verifying, run))
            && var w3 := Step(w2, FinishVerify(verifying, run));
            && Enabled(w3, FinishApprove(Approving(id, w0.rows[id]), now))
            && !NothingFaked(Step(w3, FinishApprove(Approving(id, w0.rows[id]), now)))
  {
    RaceStarts(w0, id, now);
    hide *;
    var w2 := Step(Step(w0, RecheckQueue(id)), StartVerify(id, now));
    RaceEnds(w2, id, Approving(id, w0.rows[id]), now);
  }

  /** A recheck queues the row, and the worker picks it up. */
  lemma RaceStarts(w0: World, id: ServerId, now: int)
    requires Safe(w0) && id in w0.rows
    ensures var queued := Apply(w0.rows[id], StatusOnly(PENDING)); var w1 := Step(w0, RecheckQueue(id));
            && CountersOk(queued) && w1 == w0.(rows := w0.rows[id := queued])
            && Enabled(w1, StartVerify(id, now))
            && Step(w1, StartVerify(id, now)) == w1.(jobs := w0.jobs + multiset{Verifying(id, queued)})
  {
    PendingIsEligible(Apply(w0.rows[id], StatusOnly(PENDING)), now);
  }

  /** The run lands before the approval it overtook. */
  lemma RaceEnds(w2: World, id: ServerId, approving: Job, now: int)
    requires id in w2.rows && CountersOk(w2.rows[id]) && Verifying(id, w2.rows[id]) in w2.jobs
    requires approving in w2.jobs && approving.Approving? && approving.id == id
    ensures var verifying := Verifying(id, w2.rows[id]);
            var run := Encounter(Passed, Concluded(Attempt(EMPTY_RUN, false)), now);
            && Enabled(w2, FinishVerify(verifying, run))
            && var w3 := Step(w2, FinishVerify(verifying, run));
            && Enabled(w3, FinishApprove(approving, now))
            && !NothingFaked(Step(w3, FinishApprove(approving, now)))
  {
    EmptyRunUnverifies(w2.rows[id], now);
    hide Apply, ServePatch, NothingFaked, Safe, StatusOnly, Approvable, Eligible;
    var run := Encounter(Passed, Concluded(Attempt(EMPTY_RUN, false)), now);
    var w3 := Step(w2, FinishVerify(Verifying(id, w2.rows[id]), run));
    LateApproval(w3, approving, now);
  }

  // ---- such an approval, from the empty table -----------------------------

  lemma ExtendRun(worlds: seq<World>, events: seq<Event>, e: Event)
    requires Run(worlds, events) && Enabled(worlds[|events|], e)
    ensures Run(worlds + [Step(worlds[|events|], e)], events + [e])
  {
  }

  /** The table with one row and these jobs under way. */
  function OneRow(id: ServerId, row: Record, jobs: multiset<Job>): World {
    World(map[id := row], jobs)
  }

  lemma WriteOneRow(id: ServerId, row: Record, p: Patch)
    ensures Updated(map[id := row], id, p) == map[id := Apply(row, p)]
  {
  }

  /** A local run that meets an auth gate. */
  function GatedRun(now: int): Encounter {
    Encounter(Passed, Concluded(Attempt(Local(NotConnected(true)), false)), now)
  }

  lemma GatedRunIsPartial(row: Record, now: int)
    requires row.transport.LOCAL? && row.authType == NO_AUTH && CountersOk(row)
    ensures var after := Apply(row, ServePatch(row, GatedRun(now)));
            && after.status == PARTIAL_VERIFIED && after.invocationVerified == row.invocationVerified
            && after.transport.LOCAL? && CountersOk(after)
  {
    var attempt := GatedRun(now).verification.attempt;
    NoPrematureVerdict(row, attempt);
    AttemptCounters(row, OutcomeOf(attempt.run));
    assert OutcomeOf(attempt.run).kind.AUTH_REQUIRED?;
    hide FinalStatus, BuildSoftChecks, Quality;
  }

  lemma StepOneRow(id: ServerId, row: Record, now: int)
    requires row.status.PENDING?
    ensures var w := OneRow(id, row, multiset{});
            && Enabled(w, StartVerify(id, now))
            && Step(w, StartVerify(id, now)) == OneRow(id, row, multiset{Verifying(id, row)})
  {
    assert multiset{} + multiset{Verifying(id, row)} == multiset{Verifying(id, row)};
  }

  lemma FinishOneRow(id: ServerId, row: Record, e: Encounter)
    requires !Raises(e)
    ensures var w := OneRow(id, row, multiset{Verifying(id, row)});
            && Enabled(w, FinishVerify(Verifying(id, row), e))
            && Step(w, FinishVerify(Verifying(id, row), e)) == OneRow(id, Apply(row, ServePatch(row, e)), multiset{})
  {
    hide ServePatch, Apply;
    assert multiset{Verifying(id, row)} - multiset{Verifying(id, row)} + multiset{} == multiset{};
  }

  lemma ApproveOneRow(id: ServerId, row: Record)
    requires Approvable(row)
    ensures var w := OneRow(id, row, multiset{});
            && Enabled(w, StartApprove(id))
            && Step(w, StartApprove(id)) == OneRow(id, row, multiset{Approving(id, row)})
  {
    assert multiset{} + multiset{Approving(id, row)} == multiset{Approving(id, row)};
  }

  /** The rows of such a run, one write after another. */
  function TestedRow(record: Record, now: int): Record {
    Apply(TestRecord(record, false, now), TestPatch(0, LOCAL, false, now))
  }

  function QueuedRow(record: Record, now: int): Record {
    Apply(TestedRow(record, now), StatusOnly(PENDING))
  }

  function GatedRow(record: Record, now: int): Record {
    Apply(QueuedRow(record, now), ServePatch(QueuedRow(record, now), GatedRun(now)))
  }

  lemma TestedOneRow(id: ServerId, record: Record, now: int)
    requires record.transport.LOCAL? && record.authType == NO_AUTH
    ensures var created := OneRow(id, TestRecord(record, false, now), multiset{});
            && Enabled(INITIAL, TestCreate(id, record, false, now))
            && Step(INITIAL, TestCreate(id, record, false, now)) == created
            && Enabled(created, TestWrite(id, 0, LOCAL, false, now))
            && Step(created, TestWrite(id, 0, LOCAL, false, now)) == OneRow(id, TestedRow(record, now), multiset{})
  {
    WriteOneRow(id, TestRecord(record, false, now), TestPatch(0, LOCAL, false, now));
  }

  lemma QueuedOneRow(id: ServerId, record: Record, now: int)
    requires record.transport.LOCAL? && record.authType == NO_AUTH
    ensures var tested := OneRow(id, TestedRow(record, now), multiset{});
            && Enabled(tested, RecheckQueue(id))
            && Step(tested, RecheckQueue(id)) == OneRow(id, QueuedRow(record, now), multiset{})
    ensures var queued := QueuedRow(record, now);
            && queued.status.PENDING? && queued.invocationVerified && queued.transport.LOCAL?
            && queued.authType == NO_AUTH && CountersOk(queued)
  {
    WriteOneRow(id, TestedRow(record, now), StatusOnly(PENDING));
  }

  lemma QueuedReachable(id: ServerId, record: Record, now: int) returns (worlds: seq<World>, events: seq<Event>)
    requires record.transport.LOCAL? && record.authType == NO_AUTH
    ensures Run(worlds, events) && worlds[0] == INITIAL
    ensures worlds[|events|] == OneRow(id, QueuedRow(record, now), multiset{})
  {
    TestedOneRow(id, record, now);
    QueuedOneRow(id, record, now);
    worlds, events := [INITIAL], [];
    assert Run(worlds, events);
    hide *;
    worlds, events := Extended(worlds, events, TestCreate(id, record, false, now));
    worlds, events := Extended(worlds, events, TestWrite(id, 0, LOCAL, false, now));
    worlds, events := Extended(worlds, events, RecheckQueue(id));
  }

  /** A user's own test creates the row, a recheck queues it, its next run meets
      an auth gate, and somebody approves it as partially verified. */
  lemma ApprovalReachable(id: ServerId, record: Record, now: int)
    returns (worlds: seq<World>, events: seq<Event>, row: Record)
    requires record.transport.LOCAL? && record.authType == NO_AUTH
    ensures Run(worlds, events) && worlds[0] == INITIAL
    ensures worlds[|events|] == OneRow(id, row, multiset{Approving(id, row)})
    ensures row.transport.LOCAL? && Approvable(row)
  {
    var queued := QueuedRow(record, now);
    row := GatedRow(record, now);
    QueuedOneRow(id, record, now);
    GatedRunIsPartial(queued, now);
    StepOneRow(id, queued, now);
    FinishOneRow(id, queued, GatedRun(now));
    ApproveOneRow(id, row);
    hide ServePatch, Apply, QueuedRow, Step, Enabled, Run;
    worlds, events := QueuedReachable(id, record, now);
    worlds, events := Extended(worlds, events, StartVerify(id, now));
    worlds, events := Extended(worlds, events, FinishVerify(Verifying(id, queued), GatedRun(now)));
    worlds, events := Extended(worlds, events, StartApprove(id));
  }

  lemma Extended(worlds: seq<World>, events: seq<Event>, e: Event) returns (worlds': seq<World>, events': seq<Event>)
    requires Run(worlds, events) && Enabled(worlds[|events|], e)
    ensures Run(worlds', events') && worlds'[0] == worlds[0] && |events'| == |events| + 1
    ensures worlds'[|events'|] == Step(worlds[|events|], e)
  {
    ExtendRun(worlds, events, e);
    worlds', events' := worlds + [Step(worlds[|events|], e)], events + [e];
  }

  /** A whole run, from the empty table, that ends with a verified row whose
      last run succeeded on nothing. */
  lemma FakedFromStart(id: ServerId, record: Record, now: int) returns (worlds: seq<World>, events: seq<Event>)
    requires record.transport.LOCAL? && record.authType == NO_AUTH
    ensures Run(worlds, events) && worlds[0] == INITIAL && !NothingFaked(worlds[|events|])
  {
    var row;
    worlds, events, row := ApprovalReachable(id, record, now);
    AlwaysSafe(worlds, events, |events|);
    var w0 := worlds[|events|];
    ApprovalRace(w0, id, now);
    RaceStarts(w0, id, now);
    hide *;
    worlds, events := Extended(worlds, events, RecheckQueue(id));
    worlds, events := Extended(worlds, events, StartVerify(id, now));
    var verifying := Verifying(id, Step(w0, RecheckQueue(id)).rows[id]);
    worlds, events := Extended(worlds, events,
      FinishVerify(verifying, Encounter(Passed, Concluded(Attempt(EMPTY_RUN, false)), now)));
    worlds, events := Extended(worlds, events, FinishApprove(Approving(id, row), now));
  }

  lemma PendingIsEligible(r: Record, now: int)
    requires r.status.PENDING?
    ensures Eligible(r, now)
  {
  }

  lemma EmptyRunUnverifies(row: Record, now: int)
    requires CountersOk(row)
    ensures var run := Encounter(Passed, Concluded(Attempt(EMPTY_RUN, false)), now);
            !Apply(row, ServePatch(row, run)).invocationVerified
  {
    EmptyRunCredit();
  }

  // ---- the history of the badge -------------------------------------------

  /** A badge appears only in a write that also sets VERIFIED. */
  lemma BadgeStep(w: World, e: Event, id: ServerId)
    requires Safe(w) && Enabled(w, e)
    requires id in Step(w, e).rows && Step(w, e).rows[id].verifiedBadge
    ensures Step(w, e).rows[id].status == VERIFIED || (id in w.rows && w.rows[id].verifiedBadge)
  {
    RowAfter(w, e, id);
    if Writes(e) && id in w.rows {
      PatchBadge(w.rows[id], e);
    } else if e.TestCreate? {
      TestRecordStatus(e.record, e.viaAuth, e.now);
    }
    hide Step, Apply, PatchOf, TestRecord;
  }

  lemma TestRecordStatus(record: Record, viaAuth: bool, now: int)
    ensures TestRecord(record, viaAuth, now).status == VERIFIED
  {
  }

  lemma PatchBadge(row: Record, e: Event)
    requires e.FinishVerify? || e.FinishApprove? ==> !e.job.Failing? && CountersOk(e.job.seen)
    ensures var after := Apply(row, PatchOf(e)); after.verifiedBadge ==> after.status == VERIFIED || row.verifiedBadge
  {
    if e.FinishVerify? {
      var met := e.encounter;
      if Landed(met) {
        BadgeWrite(row, e.job.seen, met.verification.attempt,
                   if met.verification.Raised? then met.verification.writtenAt else met.endedAt);
      }
    }
    hide FinalPatch;
  }

  lemma BadgeWrite(row: Record, seen: Record, attempt: Attempt, now: int)
    requires CountersOk(seen)
    ensures var after := Apply(row, FinalPatch(Refined(seen, attempt.run), OutcomeOf(attempt.run),
                                               attempt.hasActiveCredential, now));
            after.verifiedBadge ==> after.status == VERIFIED || row.verifiedBadge
  {
    hide BuildSoftChecks, OutcomeOf, FinalStatus, Quality;
    BadgeAfterRun(row, seen, attempt, now);
  }

  /** Every badge holder of every run was verified at some point before. */
  lemma {:induction false} BadgeHoldersWereVerified(worlds: seq<World>, events: seq<Event>, i: nat, id: ServerId)
    requires Run(worlds, events) && worlds[0] == INITIAL && i <= |events|
    requires id in worlds[i].rows && worlds[i].rows[id].verifiedBadge
    ensures exists k :: 0 <= k <= i && id in worlds[k].rows && worlds[k].rows[id].status == VERIFIED
  {
    AlwaysSafe(worlds, events, i);
    if i > 0 {
      AlwaysSafe(worlds, events, i - 1);
      if worlds[i].rows[id].status != VERIFIED {
        BadgeStep(worlds[i - 1], events[i - 1], id);
        BadgeHoldersWereVerified(worlds, events, i - 1, id);
      }
    }
  }

  // ---- writes still to come -----------------------------------------------

  /** What an event adds to the writes still to come, and what it takes off. */
  function Begun(e: Event): nat {
    match e
    case StartVerify(_, _) => 1
    case StartApprove(_) => 1
    case FinishVerify(_, met) => if Raises(met) then 1 else 0
    case _ => 0
  }

  function Ended(e: Event): nat {
    match e
    case FinishVerify(_, _) => 1
    case FinishRaise(_, _) => 1
    case FinishApprove(_, _) => 1
    case _ => 0
  }

  lemma StepJobs(w: World, e: Event)
    requires Enabled(w, e)
    ensures |Step(w, e).jobs| + Ended(e) == |w.jobs| + Begun(e)
  {
    hide Apply, PatchOf, Updated, TestRecord, Eligible, Fresh, Insertable, Approvable;
  }

  /** The read, or the run that raised after its write, behind a write still to
      come. */
  predicate Behind(w: World, e: Event, job: Job) {
    match job
    case Verifying(id, seen) => e.StartVerify? && e.id == id && id in w.rows && w.rows[id] == seen
    case Approving(id, seen) => e.StartApprove? && e.id == id && id in w.rows && w.rows[id] == seen
    case Failing(id) => e.FinishVerify? && e.job.id == id && Raises(e.encounter)
  }

  /** Over every run: each write still to come goes back to the read it was decided
      on, and none is made twice, so their number is that of the writes begun less
      those ended. */
  lemma {:induction false} JobsWereBegun(worlds: seq<World>, events: seq<Event>, n: nat)
    requires Run(worlds, events) && worlds[0] == INITIAL && n <= |events|
    ensures forall job :: job in worlds[n].jobs ==> exists i :: 0 <= i < n && Behind(worlds[i], events[i], job)
    ensures |worlds[n].jobs| + Sum(events, n, Ended) == Sum(events, n, Begun)
  {
    if n > 0 {
      JobsWereBegun(worlds, events, n - 1);
      var w, e := worlds[n - 1], events[n - 1];
      assert Enabled(w, e) && worlds[n - 1 + 1] == Step(w, e);
      StepJobs(w, e);
      forall job | job in worlds[n].jobs ensures exists i :: 0 <= i < n && Behind(worlds[i], events[i], job) {
        NewJob(w, e, job);
        if job in w.jobs {
          var i :| 0 <= i < n - 1 && Behind(worlds[i], events[i], job);
        }
      }
    }
  }

  lemma NewJob(w: World, e: Event, job: Job)
    requires Enabled(w, e) && job in Step(w, e).jobs
    ensures job in w.jobs || Behind(w, e, job)
  {
    hide Apply, PatchOf, Updated, TestRecord, Eligible, Fresh, Insertable, Approvable;
  }

  function Sum(events: seq<Event>, n: nat, f: Event -> nat): nat
    requires n <= |events|
  {
    if n == 0 then 0 else Sum(events, n - 1, f) + f(events[n - 1])
  }

  // ---- badges that outlive their verdict ----------------------------------

  predicate BadgeRule(w: World) {
    forall id :: id in w.rows && w.rows[id].verifiedBadge ==> w.rows[id].status == VERIFIED
  }

  /** The events that take a badge holder out of the verified bucket and leave
      the badge: all status writes without one, an exception, and of the runs
      those that were served and fall short, and those that fail but started
      from a record without a badge. */
  predicate Unverifies(e: Event) {
    match e
    case FinishVerify(job, met) =>
      job.Verifying? && (Landed(met) ==>
        var o := OutcomeOf(met.verification.attempt.run);
        if o.kind.SUCCESS? then
          RawHundredths(BuildSoftChecks(o)) < 7950 || Completed(job.seen, o) < Planned(job.seen, o)
        else !job.seen.verifiedBadge)
    case IngestVerdict(_, _) => true
    case FinishRaise(_, _) => true
    case RecheckQueue(_) => true
    case Reject(_) => true
    case Requeue(_) => true
    case CascadeReauth(_) => true
    case _ => false
  }

  predicate StrandsBadge(w: World, e: Event) {
    Writes(e) && Target(e) in w.rows && w.rows[Target(e)].verifiedBadge && Unverifies(e)
  }

  lemma RunStrandsIff(row: Record, seen: Record, attempt: Attempt, now: int)
    requires CountersOk(seen)
    ensures var o := OutcomeOf(attempt.run); var after := Finished(row, seen, attempt, now);
            after.verifiedBadge && after.status != VERIFIED <==>
            row.verifiedBadge && if o.kind.SUCCESS? then
              RawHundredths(BuildSoftChecks(o)) < 7950 || Completed(seen, o) < Planned(seen, o)
            else !seen.verifiedBadge
  {
    hide BuildSoftChecks, FinalStatus, RawHundredths, Quality;
    BadgeAfterRun(row, seen, attempt, now);
    AttemptCounters(seen, OutcomeOf(attempt.run));
    if OutcomeOf(attempt.run).kind.SUCCESS? {
      ServedVerdictIff(seen, attempt);
    } else if Finished(row, seen, attempt, now).status == VERIFIED {
      VerifiedWrite(row, seen, attempt, now);
    }
  }

  lemma PatchStrandsIff(row: Record, e: Event)
    requires Writes(e) && (row.verifiedBadge ==> row.status == VERIFIED)
    requires e.FinishVerify? ==> e.job.Verifying? && CountersOk(e.job.seen)
    requires e.FinishApprove? ==> e.job.Approving?
    ensures var after := Apply(row, PatchOf(e));
            after.verifiedBadge && after.status != VERIFIED <==> row.verifiedBadge && Unverifies(e)
  {
    if e.FinishVerify? && Landed(e.encounter) {
      RunStrandsIff(row, e.job.seen, e.encounter.verification.attempt,
                    if e.encounter.verification.Raised? then e.encounter.verification.writtenAt else e.encounter.endedAt);
    }
    hide FinalPatch, OutcomeOf, BuildSoftChecks, RawHundredths;
  }

  /** One step breaks the rule that a badge means verified exactly by such an
      event over a badge holder. */
  lemma BadgeRuleStepIff(w: World, e: Event)
    requires Safe(w) && BadgeRule(w) && Enabled(w, e)
    ensures BadgeRule(Step(w, e)) <==> !StrandsBadge(w, e)
  {
    if Writes(e) && Target(e) in w.rows {
      var row := w.rows[Target(e)];
      PatchStrandsIff(row, e);
      TargetWritten(w, e);
    }
    hide Apply, PatchOf, Unverifies, Step;
    forall id | id in Step(w, e).rows && !StrandsBadge(w, e) && Step(w, e).rows[id].verifiedBadge
      ensures Step(w, e).rows[id].status == VERIFIED
    {
      RowAfter(w, e, id);
      if e.TestCreate? {
        TestRecordStatus(e.record, e.viaAuth, e.now);
      }
    }
  }

  lemma TargetWritten(w: World, e: Event)
    requires Enabled(w, e) && Writes(e) && Target(e) in w.rows
    ensures Target(e) in Step(w, e).rows && Step(w, e).rows[Target(e)] == Apply(w.rows[Target(e)], PatchOf(e))
  {
    hide Apply, PatchOf;
  }

  /** Over every run: a badge means verified at all times, as documented, if and
      only if no such event meets a badge holder. */
  lemma {:induction false} BadgeRuleIff(worlds: seq<World>, events: seq<Event>, n: nat)
    requires Run(worlds, events) && worlds[0] == INITIAL && n <= |events|
    ensures (forall i :: 0 <= i <= n ==> BadgeRule(worlds[i])) <==>
            (forall i :: 0 <= i < n ==> !StrandsBadge(worlds[i], events[i]))
  {
    InitialBadges();
    hide *;
    if n > 0 {
      BadgeRuleIff(worlds, events, n - 1);
      AlwaysSafe(worlds, events, n - 1);
      RunStep(worlds, events, n - 1);
      if BadgeRule(worlds[n - 1]) {
        BadgeRuleStepIff(worlds[n - 1], events[n - 1]);
        assert BadgeRule(worlds[n]) <==> !StrandsBadge(worlds[n - 1], events[n - 1]);
      }
    }
  }

  lemma InitialBadges()
    ensures BadgeRule(INITIAL)
  {
  }

  lemma RunStep(worlds: seq<World>, events: seq<Event>, i: nat)
    requires Run(worlds, events) && i < |events|
    ensures |worlds| == |events| + 1
    ensures Enabled(worlds[i], events[i]) && worlds[i + 1] == Step(worlds[i], events[i])
  {
    hide Enabled, Step;
  }
}
