/** The other writers of the registry, as they read and update rows
    (platform/backend/app/verification/api.py, bridge.py, queue.py,
    verifiers.py). Each is tied to the steps of the Lifecycle module it takes
    when nobody comes between. */
module Writers {
  import opened Wrappers
  import opened Records
  import opened Finalize
  import opened Repository
  import opened Worker
  import opened Lifecycle

  const PROVIDER_LIMIT := 200

  datatype Response = Written(row: Record) | NotFound | Conflict

  /** Thirty days for a local server, seven for a remote one, in seconds. */
  function Lifetime(transport: Transport): int {
    if transport.LOCAL? then 2592000 else 604800
  }

  /** A table with no read under way. */
  function Quiet(rows: map<ServerId, Record>): World {
    World(rows, multiset{})
  }

  /** `recheck_server`. */
  method RecheckServer(repo: VerificationRepository, id: ServerId) returns (found: bool)
    modifies repo
    ensures found <==> id in old(repo.rows)
    ensures repo.rows == Step(Step(Quiet(old(repo.rows)), RecheckReset(id)), RecheckQueue(id)).rows
    ensures repo.rows == if !found then old(repo.rows) else
                         old(repo.rows)[id := old(repo.rows)[id].(status := PENDING, attemptsCompleted := 0)]
    ensures found ==> Eligible(repo.rows[id], 0)
  {
    if id !in repo.rows {
      return false;
    }
    var _ := repo.Update(id, RESET_ATTEMPTS);
    var _ := repo.Update(id, StatusOnly(PENDING));
    return true;
  }

  /** `approve_server`: the two guards, then the write. */
  method ApproveServer(repo: VerificationRepository, id: ServerId, now: int) returns (response: Response)
    modifies repo
    ensures response.NotFound? <==> id !in old(repo.rows)
    ensures response.Conflict? <==> id in old(repo.rows) && !Approvable(old(repo.rows)[id])
    ensures !response.Written? ==> repo.rows == old(repo.rows)
    ensures response.Written? ==>
              var w := Step(Quiet(old(repo.rows)), StartApprove(id));
              && repo.rows == Step(w, FinishApprove(Approving(id, old(repo.rows)[id]), now)).rows
              && response.row == repo.rows[id]
              && response.row.invocationVerified && !Expired(response.row, now)
              && response.row == old(repo.rows)[id].(
                   status := VERIFIED, verifiedBadge := true, verifiedViaAuth := old(repo.rows)[id].authRequired,
                   lastVerifiedVia := Some(MANUAL_REVIEW),
                   ttlExpiresAt := Some(now + Lifetime(old(repo.rows)[id].transport)))
  {
    if id !in repo.rows {
      return NotFound;
    }
    var record := repo.rows[id];
    if record.status !in {REVIEW, PARTIAL_VERIFIED} {
      return Conflict;
    }
    if !record.invocationVerified {
      return Conflict;
    }
    var updated := repo.Update(id, ApprovePatch(record, now));
    return Written(updated.value);
  }

  /** `reject_server`: any row, and its badge stays. */
  method RejectServer(repo: VerificationRepository, id: ServerId) returns (response: Response)
    modifies repo
    ensures response.NotFound? <==> id !in old(repo.rows)
    ensures !response.Conflict?
    ensures repo.rows == Step(Quiet(old(repo.rows)), Reject(id)).rows
    ensures response.Written? ==>
              && response.row == repo.rows[id] && response.row == old(repo.rows)[id].(status := REJECTED)
  {
    if id !in repo.rows {
      return NotFound;
    }
    var updated := repo.Update(id, StatusOnly(REJECTED));
    return Written(updated.value);
  }

  // ---- the loops over a provider's servers --------------------------------

  const AWAITING_CONSENT := {REAUTH_REQUIRED, OAUTH_PENDING_CONSENT}

  predicate Awaiting(rows: map<ServerId, Record>, id: ServerId) {
    id in rows && rows[id].status in {REAUTH_REQUIRED, OAUTH_PENDING_CONSENT}
  }

  /** The rows two tables of the same ids differ in. */
  function Changed(before: map<ServerId, Record>, after: map<ServerId, Record>): set<ServerId> {
    set id | id in before && id in after && before[id] != after[id]
  }

  /** The listed rows that await consent start a fresh pass, one by one. */
  function RequeueAll(rows: map<ServerId, Record>, ids: seq<ServerId>): map<ServerId, Record> {
    if ids == [] then rows
    else
      var n := |ids| - 1;
      var before := RequeueAll(rows, ids[..n]);
      if Awaiting(before, ids[n]) then Updated(before, ids[n], FRESH_PASS) else before
  }

  lemma FreshPassQueues(row: Record)
    ensures Apply(row, FRESH_PASS) == row.(status := PENDING, attemptsCompleted := 0)
  {
  }

  /** Exactly those rows change, whatever the order of the list. */
  lemma {:induction false} RequeueAllIs(rows: map<ServerId, Record>, ids: seq<ServerId>)
    requires Distinct(ids)
    ensures var after := RequeueAll(rows, ids);
            && after.Keys == rows.Keys
            && forall id :: id in rows ==>
                 after[id] == if id in ids && Awaiting(rows, id)
                              then rows[id].(status := PENDING, attemptsCompleted := 0) else rows[id]
    decreases |ids|
  {
    hide Apply;
    if ids != [] {
      var n := |ids| - 1;
      RequeueAllIs(rows, ids[..n]);
      if Awaiting(rows, ids[n]) {
        FreshPassQueues(rows[ids[n]]);
      }
      assert ids == ids[..n] + [ids[n]] && ids[n] !in ids[..n];
    }
  }

  lemma RequeueChanges(rows: map<ServerId, Record>, ids: seq<ServerId>)
    requires Distinct(ids)
    ensures Changed(rows, RequeueAll(rows, ids)) == set id | id in ids && Awaiting(rows, id)
  {
    RequeueAllIs(rows, ids);
    hide Apply, RequeueAll;
  }

  lemma RequeueCounts(rows: map<ServerId, Record>, ids: seq<ServerId>, i: nat)
    requires Distinct(ids) && i < |ids|
    ensures |Changed(rows, RequeueAll(rows, ids[..i + 1]))|
            == |Changed(rows, RequeueAll(rows, ids[..i]))| + if Awaiting(rows, ids[i]) then 1 else 0
  {
    RequeueChanges(rows, ids[..i]);
    RequeueChanges(rows, ids[..i + 1]);
    OneMoreListed(rows, ids, i);
    hide *;
  }

  lemma OneMoreListed(rows: map<ServerId, Record>, ids: seq<ServerId>, i: nat)
    requires Distinct(ids) && i < |ids|
    ensures |set id | id in ids[..i + 1] && Awaiting(rows, id)|
            == |set id | id in ids[..i] && Awaiting(rows, id)| + if Awaiting(rows, ids[i]) then 1 else 0
  {
    var done := set id | id in ids[..i] && Awaiting(rows, id);
    assert ids[i] !in ids[..i];
    hide *;
    assert ids[..i + 1] == ids[..i] + [ids[i]];
    assert (set id | id in ids[..i + 1] && Awaiting(rows, id))
        == if Awaiting(rows, ids[i]) then done + {ids[i]} else done;
  }

  lemma RequeueStep(rows: map<ServerId, Record>, ids: seq<ServerId>, i: nat)
    requires Distinct(ids) && i < |ids|
    ensures var before := RequeueAll(rows, ids[..i]);
            RequeueAll(rows, ids[..i + 1])
            == if Awaiting(before, ids[i]) then Updated(before, ids[i], FRESH_PASS) else before
    ensures Awaiting(RequeueAll(rows, ids[..i]), ids[i]) <==> Awaiting(rows, ids[i])
  {
    assert ids[..i + 1][..i] == ids[..i];
    RequeueAllIs(rows, ids[..i]);
    assert ids[i] !in ids[..i];
    hide Apply, RequeueAll;
  }

  /** What the loop over a listing of the provider's rows comes to. */
  lemma RequeueMeaning(rows: map<ServerId, Record>, ofProvider: Record -> bool, ids: seq<ServerId>)
    requires Listing(rows, ofProvider, 200, ids)
    ensures var after := RequeueAll(rows, ids);
            && after.Keys == rows.Keys
            && (forall id :: id in Changed(rows, after) ==>
                  && ofProvider(rows[id]) && Awaiting(rows, id)
                  && after[id] == rows[id].(status := PENDING, attemptsCompleted := 0))
            && (|Matching(rows, ofProvider)| <= 200 ==>
                  forall id :: id in Matching(rows, ofProvider) && Awaiting(rows, id) ==> id in Changed(rows, after))
  {
    ListingComplete(rows, ofProvider, PROVIDER_LIMIT, ids);
    RequeueAllIs(rows, ids);
    RequeueChanges(rows, ids);
    hide RequeueAll;
  }

  /** The requeue loop of `oauth_callback`: the provider's rows that await
      consent start a fresh pass, no other row changes, and none is missed below
      the limit of the query. */
  method RequeueAfterConsent(repo: VerificationRepository, ofProvider: Record -> bool) returns (requeued: nat)
    modifies repo
    ensures repo.rows.Keys == old(repo.rows).Keys
    ensures forall id :: id in Changed(old(repo.rows), repo.rows) ==>
              && ofProvider(old(repo.rows)[id]) && Awaiting(old(repo.rows), id)
              && repo.rows[id] == old(repo.rows)[id].(status := PENDING, attemptsCompleted := 0)
    ensures requeued == |Changed(old(repo.rows), repo.rows)|
    ensures |Matching(old(repo.rows), ofProvider)| <= 200 ==>
              forall id :: id in Matching(old(repo.rows), ofProvider) && Awaiting(old(repo.rows), id) ==>
                             id in Changed(old(repo.rows), repo.rows)
  {
    var servers := repo.Select(ofProvider, PROVIDER_LIMIT);
    ghost var before := repo.rows;
    requeued := 0;
    assert RequeueAll(before, servers[..0]) == before && Changed(before, before) == {};
    hide Changed, Apply, RequeueAll;
    for i := 0 to |servers|
      invariant repo.rows == RequeueAll(before, servers[..i])
      invariant requeued == |Changed(before, repo.rows)|
    {
      RequeueCounts(before, servers, i);
      RequeueStep(before, servers, i);
      RequeueAllIs(before, servers[..i]);
      assert servers[i] in servers;
      if repo.rows[servers[i]].status in AWAITING_CONSENT {
        var _ := repo.Update(servers[i], FRESH_PASS);
        requeued := requeued + 1;
      }
    }
    assert servers[..|servers|] == servers;
    RequeueMeaning(before, ofProvider, servers);
  }

  /** These rows, and no others, need fresh consent; everything else stays. */
  predicate Drops(before: map<ServerId, Record>, after: map<ServerId, Record>, ids: seq<ServerId>) {
    forall id :: id in before && id in after ==>
      after[id] == if id in ids then before[id].(status := REAUTH_REQUIRED) else before[id]
  }

  /** `cascade_provider_reauth`: exactly the listed rows of the provider drop
      out, and they are counted. */
  method CascadeProviderReauth(repo: VerificationRepository, ofProvider: Record -> bool) returns (count: nat)
    modifies repo
    ensures repo.rows.Keys == old(repo.rows).Keys
    ensures forall id :: id in Changed(old(repo.rows), repo.rows) ==>
              ofProvider(old(repo.rows)[id]) && repo.rows[id] == old(repo.rows)[id].(status := REAUTH_REQUIRED)
    ensures exists ids :: Listing(old(repo.rows), ofProvider, 200, ids)
                          && count == |ids| && Drops(old(repo.rows), repo.rows, ids)
    ensures count < 200 ==>
              forall id :: id in repo.rows && ofProvider(old(repo.rows)[id]) ==>
                repo.rows[id].status == REAUTH_REQUIRED
  {
    var servers := repo.Select(ofProvider, PROVIDER_LIMIT);
    ghost var before := repo.rows;
    count := 0;
    while count < |servers|
      invariant count <= |servers|
      invariant repo.rows.Keys == before.Keys
      invariant forall id :: id in before ==>
                  repo.rows[id] == if id in servers[..count] then before[id].(status := REAUTH_REQUIRED) else before[id]
    {
      var id := servers[count];
      assert id in servers && id !in servers[..count];
      var _ := repo.Update(id, StatusOnly(REAUTH_REQUIRED));
      assert servers[..count + 1] == servers[..count] + [id];
      count := count + 1;
    }
    assert servers[..count] == servers;
    assert Drops(before, repo.rows, servers);
    assert forall id :: id in before && ofProvider(before[id]) ==> id in Matching(before, ofProvider);
  }

  // ---- user tests and ingestion -------------------------------------------

  lemma TestSteps(rows: map<ServerId, Record>, id: ServerId, score: int, record: Record, viaAuth: bool, now: int)
    ensures Step(Quiet(rows), TestWrite(id, score, record.transport, viaAuth, now))
            == Quiet(Updated(rows, id, TestPatch(score, record.transport, viaAuth, now)))
    ensures Insertable(Quiet(rows), id, record.sourceUrl) ==>
              Step(Quiet(rows), TestCreate(id, record, viaAuth, now))
              == Quiet(rows[id := TestRecord(record, viaAuth, now)])
  {
  }

  /** A row after a user's own test: verified in every respect, scored 90 or what
      it had, and good for the lifetime of its transport. */
  function Tested(row: Record, score: int, viaAuth: bool, transport: Transport, now: int): Record {
    row.(status := VERIFIED, confidence := HIGH, qualityScore := if score > 90 then score else 90,
         attemptsCompleted := 1, attemptsPlanned := 1, invocationVerified := true,
         verifiedBadge := true, verifiedViaAuth := viaAuth, lastVerifiedVia := Some(USER_TEST),
         lastVerifiedAt := Some(now), ttlExpiresAt := Some(now + Lifetime(transport)))
  }

  lemma TestVerifies(row: Record, score: int, transport: Transport, viaAuth: bool, now: int)
    ensures Apply(row, TestPatch(score, transport, viaAuth, now)) == Tested(row, score, viaAuth, transport, now)
  {
  }

  lemma CreatedVerified(record: Record, viaAuth: bool, now: int)
    ensures Apply(TestRecord(record, viaAuth, now), TestPatch(0, record.transport, viaAuth, now))
            == Tested(record.(authRequired := viaAuth), 0, viaAuth, record.transport, now)
    ensures TestRecord(record, viaAuth, now)
            == Tested(record.(authRequired := viaAuth), 90, viaAuth, record.transport, now).(attemptsCompleted := 0)
  {
  }

  /** What the small writes of the lifecycle do to a row, and to no other. */
  lemma SmallWrites(rows: map<ServerId, Record>, id: ServerId)
    requires id in rows
    ensures Step(Quiet(rows), Sweep(id)).rows == rows[id := rows[id].(attemptsCompleted := 0)]
    ensures Step(Quiet(rows), RecheckReset(id)).rows == rows[id := rows[id].(attemptsCompleted := 0)]
    ensures Step(Quiet(rows), RecheckQueue(id)).rows == rows[id := rows[id].(status := PENDING)]
    ensures Step(Quiet(rows), Reject(id)).rows == rows[id := rows[id].(status := REJECTED)]
    ensures Step(Quiet(rows), Requeue(id)).rows == rows[id := rows[id].(status := PENDING, attemptsCompleted := 0)]
    ensures Step(Quiet(rows), CascadeReauth(id)).rows == rows[id := rows[id].(status := REAUTH_REQUIRED)]
  {
    ResetIs(rows[id]);
    FreshPassQueues(rows[id]);
    StatusIs(rows[id], PENDING);
    StatusIs(rows[id], REJECTED);
    StatusIs(rows[id], REAUTH_REQUIRED);
    hide Apply;
  }

  lemma StatusIs(row: Record, status: ServerStatus)
    ensures Apply(row, StatusOnly(status)) == row.(status := status)
  {
  }

  lemma IngestSteps(rows: map<ServerId, Record>, id: ServerId, record: Record, prefilter: Prefilter)
    requires Fresh(record) && Insertable(Quiet(rows), id, record.sourceUrl)
    ensures Step(Step(Quiet(rows), Ingest(id, record)), IngestVerdict(id, prefilter))
            == Quiet(Updated(rows[id := record], id, PrefilterPatch(prefilter)))
    ensures prefilter.Passed? ==> Eligible(Apply(record, PrefilterPatch(prefilter)), 0)
    ensures Apply(record, PrefilterPatch(prefilter)) == record.(status :=
              match prefilter
              case Passed => PENDING
              case PrefilterRejected => REJECTED
              case PrefilterMalformed => ServerStatus.MALFORMED)
  {
  }

  /** `_record_user_verified_success_inner`; `existing` is the row its lookups
      found, `record` what it would create instead. */
  method RecordUserVerifiedSuccess(repo: VerificationRepository, existing: Option<ServerId>, id: ServerId,
                                   record: Record, viaAuth: bool, now: int) returns (persisted: ServerId)
    requires existing.Some? ==> existing.value in repo.rows
    requires id !in repo.rows && UniqueSources(repo.rows)
    modifies repo
    ensures existing.Some? ==>
              var row := old(repo.rows)[existing.value];
              && persisted == existing.value
              && repo.rows == old(repo.rows)[persisted := Tested(row, row.qualityScore, viaAuth, row.transport, now)]
              && repo.rows == Step(Quiet(old(repo.rows)),
                                   TestWrite(persisted, row.qualityScore, row.transport, viaAuth, now)).rows
    ensures existing.None? && persisted in old(repo.rows) ==>
              var row := old(repo.rows)[persisted];
              && row.sourceUrl == record.sourceUrl
              && repo.rows == old(repo.rows)[persisted := Tested(row, 0, viaAuth, record.transport, now)]
              && repo.rows == Step(Quiet(old(repo.rows)), TestWrite(persisted, 0, record.transport, viaAuth, now)).rows
    ensures existing.None? && persisted !in old(repo.rows) ==>
              && persisted == id && Insertable(Quiet(old(repo.rows)), id, record.sourceUrl)
              && repo.rows == old(repo.rows)[id :=
                   Tested(record.(authRequired := viaAuth), 0, viaAuth, record.transport, now)]
              && repo.rows == Step(Step(Quiet(old(repo.rows)), TestCreate(id, record, viaAuth, now)),
                                   TestWrite(id, 0, record.transport, viaAuth, now)).rows
  {
    hide Apply, Step, TestPatch, TestRecord, Tested;
    if existing.Some? {
      var row := repo.rows[existing.value];
      TestSteps(repo.rows, existing.value, row.qualityScore, row, viaAuth, now);
      TestVerifies(row, row.qualityScore, row.transport, viaAuth, now);
      var _ := repo.Update(existing.value, TestPatch(row.qualityScore, row.transport, viaAuth, now));
      return existing.value;
    }
    TestRecordSource(record, viaAuth, now);
    persisted := repo.Create(id, TestRecord(record, viaAuth, now));
    TestSteps(old(repo.rows), persisted, 0, record, viaAuth, now);
    TestSteps(repo.rows, persisted, 0, record, viaAuth, now);
    TestVerifies(repo.rows[persisted], 0, record.transport, viaAuth, now);
    CreatedVerified(record, viaAuth, now);
    var _ := repo.Update(persisted, TestPatch(0, record.transport, viaAuth, now));
  }

  lemma TestRecordSource(record: Record, viaAuth: bool, now: int)
    ensures TestRecord(record, viaAuth, now).sourceUrl == record.sourceUrl
  {
  }

  /** `_ingest_candidate` for a record no identity lookup matched: queued only
      when it is new and passes the prefilter. */
  method IngestCandidate(repo: VerificationRepository, id: ServerId, record: Record, prefilter: Prefilter)
    returns (queued: bool)
    requires Fresh(record) && id !in repo.rows && UniqueSources(repo.rows)
    modifies repo
    ensures queued <==> prefilter.Passed? && Insertable(Quiet(old(repo.rows)), id, record.sourceUrl)
    ensures repo.rows ==
            if Insertable(Quiet(old(repo.rows)), id, record.sourceUrl)
            then Step(Step(Quiet(old(repo.rows)), Ingest(id, record)), IngestVerdict(id, prefilter)).rows
            else old(repo.rows)
    ensures repo.rows ==
            if Insertable(Quiet(old(repo.rows)), id, record.sourceUrl)
            then old(repo.rows)[id := record.(status :=
                   match prefilter
                   case Passed => PENDING
                   case PrefilterRejected => REJECTED
                   case PrefilterMalformed => ServerStatus.MALFORMED)]
            else old(repo.rows)
    ensures queued ==> Eligible(repo.rows[id], 0) && repo.rows[id].attemptsCompleted == 0
  {
    assert record.attemptsCompleted == 0;
    hide Apply, Step, Fresh, Eligible;
    var persisted := repo.Create(id, record);
    if persisted != id {
      return false;
    }
    IngestSteps(old(repo.rows), id, record, prefilter);
    if prefilter.PrefilterRejected? {
      var _ := repo.Update(id, StatusOnly(REJECTED));
      return false;
    }
    if prefilter.PrefilterMalformed? {
      var _ := repo.Update(id, StatusOnly(ServerStatus.MALFORMED));
      return false;
    }
    var _ := repo.Update(id, StatusOnly(PENDING));
    return true;
  }

  /** A pass of the worker is a read and its writes with nobody between: one
      write, or two when an exception follows the first. */
  lemma PassIsItsSteps(rows: map<ServerId, Record>, id: ServerId, now: int, e: Encounter)
    requires id in rows && Eligible(rows[id], now)
    ensures var w := Step(Quiet(rows), StartVerify(id, now));
            && Enabled(w, FinishVerify(Verifying(id, rows[id]), e))
            && var written := Step(w, FinishVerify(Verifying(id, rows[id]), e));
            if Raises(e) then
              && Enabled(written, FinishRaise(Failing(id), e.endedAt))
              && Step(written, FinishRaise(Failing(id), e.endedAt)) == Quiet(rows[id := Serve(rows[id], e)])
            else written == Quiet(rows[id := Serve(rows[id], e)])
  {
    hide ServePatch, Eligible, Apply, CrashPatch;
    var job := Verifying(id, rows[id]);
    assert multiset{} + multiset{job} - multiset{job} == multiset{};
    assert multiset{} + multiset{Failing(id)} - multiset{Failing(id)} == multiset{};
    assert rows[id := Apply(rows[id], ServePatch(rows[id], e))][id := Serve(rows[id], e)]
        == rows[id := Serve(rows[id], e)];
  }
}
