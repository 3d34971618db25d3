/** The verification worker (platform/backend/app/verification/queue.py). */
module Worker {
  import opened Wrappers
  import opened Records
  import opened Attempts
  import opened Finalize
  import opened Repository

  const REMOTE_RETRY_DELAYS_S := [0, 3600, 6 * 3600]

  const QUEUE_WINDOW := 5
  const REVIEW_WINDOW := 20
  const SWEEP_WINDOW := 50

  /** `next_retry_delay`. */
  function NextRetryDelay(attemptsCompleted: int): (seconds: int)
    ensures attemptsCompleted <= 0 ==> seconds == 0
    ensures attemptsCompleted == 1 ==> seconds == 3600
    ensures attemptsCompleted >= 2 ==> seconds == 21600
  {
    var index := Min(if attemptsCompleted < 0 then 0 else attemptsCompleted, |REMOTE_RETRY_DELAYS_S| - 1);
    REMOTE_RETRY_DELAYS_S[index]
  }

  /** `_due_for_attempt`: a stamp that cannot be read counts as due. */
  predicate DueForAttempt(r: Record, now: int) {
    r.lastAttemptAt.At? ==> now - r.lastAttemptAt.instant >= NextRetryDelay(r.attemptsCompleted)
  }

  /** Ready among the queued rows. */
  predicate Ready(r: Record, now: int) {
    r.status.PENDING? || (r.status.RETRY_PENDING? && DueForAttempt(r, now))
  }

  predicate AnotherPass(r: Record, now: int) {
    r.status.REVIEW? && r.attemptsCompleted < r.attemptsPlanned && DueForAttempt(r, now)
  }

  predicate Eligible(r: Record, now: int) {
    Ready(r, now) || Expired(r, now) || AnotherPass(r, now)
  }

  /** When a row is selectable, in full: queued; or waiting out its delay after an
      attempt, if there is a readable stamp of one; or expired. */
  lemma EligibleIff(r: Record, now: int)
    ensures Eligible(r, now) <==>
            || r.status == PENDING
            || ((r.status == RETRY_PENDING || (r.status == REVIEW && r.attemptsCompleted < r.attemptsPlanned))
                && match r.lastAttemptAt
                   case At(instant) =>
                     now >= instant + if r.attemptsCompleted <= 0 then 0
                                      else if r.attemptsCompleted == 1 then 3600 else 21600
                   case _ => true)
            || (r.status == VERIFIED && r.ttlExpiresAt.Some? && r.ttlExpiresAt.value < now)
  {
  }

  datatype Prefilter = Passed | PrefilterRejected | PrefilterMalformed

  /** What came of a verification: an attempt whose result was written, an
      exception before that write, or one after it, since reading the row back
      and logging the decision can still raise. */
  datatype Verification =
    | Concluded(attempt: Attempt)
    | Crash
    | Raised(attempt: Attempt, writtenAt: int)

  /** What the worker meets on one record, and when its last write lands. */
  datatype Encounter = Encounter(prefilter: Prefilter, verification: Verification, endedAt: int)

  /** The run ended, its result was written, and then something raised. */
  predicate Raises(e: Encounter) {
    e.prefilter.Passed? && e.verification.Raised?
  }

  /** The result of a run was written, whatever happened afterwards. */
  predicate Landed(e: Encounter) {
    e.prefilter.Passed? && !e.verification.Crash?
  }

  /** A status written alone. */
  function StatusOnly(status: ServerStatus): Patch {
    NO_CHANGE.(status := Some(status))
  }

  /** What the worker writes when a verification raised. */
  function CrashPatch(at: int): Patch {
    StatusOnly(RETRY_PENDING).(lastAttemptAt := Some(At(at)))
  }

  function RunPatch(seen: Record, attempt: Attempt, at: int): Patch {
    FinalPatch(Refined(seen, attempt.run), OutcomeOf(attempt.run), attempt.hasActiveCredential, at)
  }

  /** The first write of a pass: the only one, unless the run raised after it. */
  function ServePatch(seen: Record, e: Encounter): Patch {
    match e.prefilter
    case PrefilterRejected => StatusOnly(REJECTED)
    case PrefilterMalformed => StatusOnly(ServerStatus.MALFORMED)
    case Passed =>
      match e.verification
      case Crash => CrashPatch(e.endedAt)
      case Concluded(attempt) => RunPatch(seen, attempt, e.endedAt)
      case Raised(attempt, writtenAt) => RunPatch(seen, attempt, writtenAt)
  }

  function Serve(row: Record, e: Encounter): Record {
    var after := Apply(row, ServePatch(row, e));
    if Raises(e) then Apply(after, CrashPatch(e.endedAt)) else after
  }

  const QUEUED := {PENDING, RETRY_PENDING}

  function Rows(rows: map<ServerId, Record>, statuses: set<ServerStatus>): set<ServerId> {
    Matching(rows, WithStatus(statuses))
  }

  /** The first row of a listing that qualifies. */
  method FirstWhere(rows: map<ServerId, Record>, ids: seq<ServerId>, p: Record -> bool)
    returns (found: Option<ServerId>)
    requires forall id :: id in ids ==> id in rows
    ensures found.Some? ==>
              exists i :: 0 <= i < |ids| && ids[i] == found.value && p(rows[ids[i]])
                          && forall j :: 0 <= j < i ==> !p(rows[ids[j]])
    ensures found.None? ==> forall id :: id in ids ==> !p(rows[id])
  {
    for i := 0 to |ids|
      invariant forall j :: 0 <= j < i ==> !p(rows[ids[j]])
    {
      if p(rows[ids[i]]) {
        return Some(ids[i]);
      }
    }
    return None;
  }

  /** The row to verify next. The two windows limit what the queue and the
      review list show; the expiry query misses nothing. */
  method SelectNext(repo: VerificationRepository, now: int) returns (picked: Option<ServerId>)
    ensures picked.Some? ==> picked.value in repo.rows && Eligible(repo.rows[picked.value], now)
    ensures picked.Some? && !Ready(repo.rows[picked.value], now)
            && |Rows(repo.rows, QUEUED)| <= 5
            ==> forall id :: id in repo.rows ==> !Ready(repo.rows[id], now)
    ensures picked.Some? && AnotherPass(repo.rows[picked.value], now)
            ==> forall id :: id in repo.rows ==> !Expired(repo.rows[id], now)
    ensures picked.None? ==> forall id :: id in repo.rows ==> !Expired(repo.rows[id], now)
    ensures picked.None? && |Rows(repo.rows, QUEUED)| <= 5
            ==> forall id :: id in repo.rows ==> !Ready(repo.rows[id], now)
    ensures picked.None? && |Rows(repo.rows, {REVIEW})| <= 20
            ==> forall id :: id in repo.rows ==> !AnotherPass(repo.rows[id], now)
  {
    hide DueForAttempt;
    var rows := repo.rows;
    var queued := repo.ListStatus(QUEUED, QUEUE_WINDOW);
    picked := FirstWhere(rows, queued, (r: Record) => Ready(r, now));
    if picked.Some? {
      return;
    }
    ListingComplete(rows, WithStatus(QUEUED), QUEUE_WINDOW, queued);
    assert forall id :: id in rows && Ready(rows[id], now) ==> id in Rows(rows, QUEUED);
    var expired := repo.ListExpiredTtl(now, 1);
    if expired != [] {
      assert expired[0] in expired;
      return Some(expired[0]);
    }
    assert forall id :: id in rows && Expired(rows[id], now) ==> id in Matching(rows, ExpiredAt(now));
    var reviewing := repo.ListStatus({REVIEW}, REVIEW_WINDOW);
    picked := FirstWhere(rows, reviewing, (r: Record) => AnotherPass(r, now));
    ListingComplete(rows, WithStatus({REVIEW}), REVIEW_WINDOW, reviewing);
    assert forall id :: id in rows && AnotherPass(rows[id], now) ==> id in Rows(rows, {REVIEW});
  }

  /** `process_next_server`, taken as one step: no other writer between the
      selection and the write. */
  method ProcessNextServer(repo: VerificationRepository, now: int, world: Record -> Encounter)
    returns (served: Option<ServerId>)
    modifies repo
    ensures served.None? ==> repo.rows == old(repo.rows)
    ensures served.Some? ==>
              served.value in old(repo.rows)
              && Eligible(old(repo.rows)[served.value], now)
              && repo.rows == old(repo.rows)[served.value :=
                   Serve(old(repo.rows)[served.value], world(old(repo.rows)[served.value]))]
  {
    served := SelectNext(repo, now);
    if served.None? {
      return;
    }
    var record := repo.rows[served.value];
    var met := world(record);
    if met.prefilter.PrefilterRejected? {
      var _ := repo.Update(served.value, StatusOnly(REJECTED));
      return;
    }
    if met.prefilter.PrefilterMalformed? {
      var _ := repo.Update(served.value, StatusOnly(ServerStatus.MALFORMED));
      return;
    }
    if !met.verification.Crash? {
      var attempt := met.verification.attempt;
      var at := if met.verification.Raised? then met.verification.writtenAt else met.endedAt;
      var updates := FinalizeRun(Refined(record, attempt.run), OutcomeOf(attempt.run),
                                 attempt.hasActiveCredential, at);
      assert updates == ServePatch(record, met);
      var _ := repo.Update(served.value, updates);
    }
    if !met.verification.Concluded? {
      var _ := repo.Update(served.value, CrashPatch(met.endedAt));
    }
  }

  /** These rows, and no others, were reset. */
  predicate Resets(before: map<ServerId, Record>, after: map<ServerId, Record>, ids: seq<ServerId>) {
    forall id :: id in before && id in after ==>
      after[id] == if id in ids then before[id].(attemptsCompleted := 0) else before[id]
  }

  const RESET_ATTEMPTS := NO_CHANGE.(attemptsCompleted := Some(0))

  lemma ResetIs(row: Record)
    ensures Apply(row, RESET_ATTEMPTS) == row.(attemptsCompleted := 0)
  {
  }

  /** `requeue_expired_ttl`: exactly the listed rows start their attempts
      afresh and keep everything else; they are counted, and nothing expired is
      missed below the window. */
  method RequeueExpiredTtl(repo: VerificationRepository, now: int) returns (count: nat)
    modifies repo
    ensures repo.rows.Keys == old(repo.rows).Keys
    ensures exists ids :: Listing(old(repo.rows), ExpiredAt(now), 50, ids)
                          && count == |ids| && Resets(old(repo.rows), repo.rows, ids)
    ensures count < 50 ==> forall id :: id in repo.rows && Expired(old(repo.rows)[id], now) ==>
              repo.rows[id] == old(repo.rows)[id].(attemptsCompleted := 0)
  {
    var expired := repo.ListExpiredTtl(now, SWEEP_WINDOW);
    ghost var before := repo.rows;
    count := 0;
    while count < |expired|
      invariant count <= |expired|
      invariant repo.rows.Keys == before.Keys
      invariant forall id :: id in before ==>
                  repo.rows[id] == if id in expired[..count] then before[id].(attemptsCompleted := 0) else before[id]
    {
      var id := expired[count];
      assert id in expired && id !in expired[..count];
      ResetIs(before[id]);
      hide Apply;
      var _ := repo.Update(id, RESET_ATTEMPTS);
      assert expired[..count + 1] == expired[..count] + [id];
      count := count + 1;
    }
    assert expired[..count] == expired;
    assert Resets(before, repo.rows, expired);
    assert forall id :: id in before && Expired(before[id], now) ==> id in Matching(before, ExpiredAt(now));
  }

  // ---- the window ---------------------------------------------------------

  function IdSet(ids: seq<ServerId>): set<ServerId> {
    set id | id in ids
  }

  lemma DistinctSize(ids: seq<ServerId>)
    requires Distinct(ids)
    ensures |IdSet(ids)| == |ids|
  {
    if ids != [] {
      var n := |ids| - 1;
      DistinctSize(ids[..n]);
      assert ids == ids[..n] + [ids[n]];
      assert IdSet(ids) == IdSet(ids[..n]) + {ids[n]};
    }
  }

  /** A listing shows everything when there is no more than the limit. */
  lemma ListingComplete(rows: map<ServerId, Record>, p: Record -> bool, limit: nat, ids: seq<ServerId>)
    requires Listing(rows, p, limit, ids)
    ensures |Matching(rows, p)| <= limit ==> forall id :: id in Matching(rows, p) ==> id in ids
  {
    DistinctSize(ids);
    var shown := IdSet(ids);
    if |ids| == limit && |Matching(rows, p)| <= limit {
      assert shown <= Matching(rows, p);
      SubsetOfEqualSize(shown, Matching(rows, p));
    }
  }

  lemma SubsetOfEqualSize(a: set<ServerId>, b: set<ServerId>)
    requires a <= b && |b| <= |a|
    ensures a == b
  {
    assert |b| == |a| + |b - a| by {
      assert b == a + (b - a);
    }
  }

  lemma Enumerate(s: set<ServerId>, n: nat) returns (ids: seq<ServerId>)
    requires n <= |s|
    ensures |ids| == n && Distinct(ids) && forall id :: id in ids ==> id in s
  {
    if n == 0 {
      ids := [];
    } else {
      var id :| id in s;
      ids := Enumerate(s - {id}, n - 1);
      ids := ids + [id];
    }
  }

  /** In the bucket of a query, but not fit to be served. */
  function Unfit(bucket: set<ServerStatus>, fit: Record -> bool): Record -> bool {
    (r: Record) => r.status in bucket && !fit(r)
  }

  /** An answer of a limited query that shows nothing fit. */
  ghost predicate Starves(rows: map<ServerId, Record>, bucket: set<ServerStatus>, window: nat, fit: Record -> bool,
                          ids: seq<ServerId>)
  {
    && Listing(rows, WithStatus(bucket), window, ids)
    && forall id :: id in ids ==> !fit(rows[id])
  }

  predicate NoneFit(rows: map<ServerId, Record>, fit: Record -> bool) {
    forall id :: id in rows ==> !fit(rows[id])
  }

  lemma StarvingAnswer(rows: map<ServerId, Record>, bucket: set<ServerStatus>, window: nat, fit: Record -> bool,
                       ids: seq<ServerId>)
    requires Starves(rows, bucket, window, fit, ids)
    requires forall r: Record :: fit(r) ==> r.status in bucket
    ensures |Matching(rows, Unfit(bucket, fit))| >= window || NoneFit(rows, fit)
  {
    if |ids| < window {
      forall id | id in rows ensures !fit(rows[id]) {
        assert fit(rows[id]) ==> id in Rows(rows, bucket);
      }
    } else {
      DistinctSize(ids);
      var unfit := Matching(rows, Unfit(bucket, fit));
      assert IdSet(ids) <= unfit;
      assert unfit == IdSet(ids) + (unfit - IdSet(ids));
    }
  }

  lemma StarvingAnswerExists(rows: map<ServerId, Record>, bucket: set<ServerStatus>, window: nat, fit: Record -> bool)
    returns (ids: seq<ServerId>)
    requires |Matching(rows, Unfit(bucket, fit))| >= window || NoneFit(rows, fit)
    ensures Starves(rows, bucket, window, fit, ids)
  {
    var unfit := Matching(rows, Unfit(bucket, fit));
    if |unfit| >= window {
      ids := Enumerate(unfit, window);
    } else {
      assert unfit == Rows(rows, bucket);
      ids := Enumerate(unfit, |unfit|);
      DistinctSize(ids);
      SubsetOfEqualSize(IdSet(ids), unfit);
      assert forall id :: id in unfit ==> id in IdSet(ids);
    }
    assert forall id :: id in ids ==> id in unfit;
  }

  lemma StarvesIff(rows: map<ServerId, Record>, bucket: set<ServerStatus>, window: nat, fit: Record -> bool)
    requires forall r: Record :: fit(r) ==> r.status in bucket
    ensures (exists ids :: Starves(rows, bucket, window, fit, ids))
            <==> NoneFit(rows, fit) || |Matching(rows, Unfit(bucket, fit))| >= window
  {
    hide Starves;
    if ids :| Starves(rows, bucket, window, fit, ids) {
      StarvingAnswer(rows, bucket, window, fit, ids);
    }
    if |Matching(rows, Unfit(bucket, fit))| >= window || NoneFit(rows, fit) {
      var ids := StarvingAnswerExists(rows, bucket, window, fit);
    }
  }

  /** The unordered windows can hide all the work there is. Some answer of the
      queue query shows nothing ready exactly when nothing is, or at least five
      queued rows are still waiting out their delay; some answer of the review
      query shows nothing exactly when there is nothing, or at least twenty rows
      in review have no attempt due. */
  lemma WindowStarvesIff(rows: map<ServerId, Record>, now: int)
    ensures var ready := (r: Record) => Ready(r, now);
            (exists ids :: Starves(rows, QUEUED, QUEUE_WINDOW, ready, ids))
            <==> NoneFit(rows, ready) || |Matching(rows, Unfit({PENDING, RETRY_PENDING}, ready))| >= 5
    ensures var due := (r: Record) => AnotherPass(r, now);
            (exists ids :: Starves(rows, {REVIEW}, REVIEW_WINDOW, due, ids))
            <==> NoneFit(rows, due) || |Matching(rows, Unfit({REVIEW}, due))| >= 20
  {
    StarvesIff(rows, QUEUED, QUEUE_WINDOW, (r: Record) => Ready(r, now));
    StarvesIff(rows, {REVIEW}, REVIEW_WINDOW, (r: Record) => AnotherPass(r, now));
  }
}
