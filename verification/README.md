# Verification of the MCP registry, its sandbox client and its search

This project models, in Dafny, the parts of the platform's backend that decide
what may call itself verified, and the algorithms around them, and proves what
they keep. `dafny verify dfyconfig.toml` checks everything.

The registry holds one record for each MCP server. A background worker connects
to the server, exercises its tools, scores the run and writes a status; a sweep
resets expired records; users' own tests, human review and OAuth callbacks write
the same rows. The modules follow that order:

- `Scoring` and `Rounding`: the scoring engine, in hundredths of a point, with
  both half-to-even roundings written out.
- `Attempts`: what a verification run can meet and which outcome and soft checks
  the code builds from it. Whatever the sandbox, the network and the judge answer
  is a parameter.
- `Finalize`: from an outcome to the fields written, over a row that may have
  changed since it was read.
- `Failures`, `Replies`: what a run comes to, failure by failure, and by what a server
  replied, from the tools it lists to the status written.
- `Repository`, `Worker`, `Writers`: the table as a class over a finite map, and
  the worker, the sweep, the endpoints and the loops as methods on it.
- `WorkerRuns`: termination, expiry and the retry schedule over whole runs.
- `Lifecycle`: all writers interleaved, with reads and writes as separate steps.
- `PackageClosure`: the bounded dependency walk under every schedule of its
  gathered coroutines.
- `StdioClient`: newline framing and request correlation of the JSON-RPC client.
  Answers carry the id of their request, as section 5 of the JSON-RPC 2.0
  specification asks.
- `SyntheticArguments`: schema-driven arguments and the malformed probe, judged
  by `type`, `enum`, `const` (section 6.1), `minimum` (section 6.2.4), `minLength`
  (section 6.3.2) and `required` (section 6.5.3) of JSON Schema Validation 2020-12, and by `properties`, `additionalProperties` and
  `items` of JSON Schema Core 2020-12 (section 10.3).
- `MergeItems`, `MergeOutcome`, `Deduplicate`: catalog and live merging and what it
  comes to, and deduplication of items in place, aliasing included.
- `StableSort`, `Ranking`, `Signals`, `Tiers`: lexical buckets, final scores, what each
  signal is worth, the stable sorts and the order shown.
- `Braces`: the balanced blocks cut out of free text.

`Records`, `SetSums` and `Wrappers` hold shared declarations.

## Where the code and its documentation disagree

The model follows the code, and each difference is proved, where it can be as an
exact condition:

- A badge is documented as never stale, cleared as soon as a later run is not
  verified (`platform/backend/app/verification/verifiers.py:699-703`), or whenever the record
  leaves the verified bucket (`platform/backend/app/verification/models.py:169-170`). A
  served run that falls short keeps it, and so does a prefilter verdict, an exception, and
  every other write of a status without a badge: `WorkerRuns.PassStrandsBadgeIff` says
  exactly when over a pass of the worker, `Lifecycle.BadgeRuleIff` over every run of all
  writers, and `Finalize.StaleBadge` is an instance.
- Approval refuses records whose invocation was never verified
  (`platform/backend/app/verification/api.py:406-410`), but decides on a row read
  before it writes: `Lifecycle.NothingFakedIff` says exactly when verified implies
  invoked, `Lifecycle.FakedFromStart` gives a whole run where it does not.
- The last branch of the scorer is meant for low scores
  (`platform/backend/app/verification/scoring.py:137`), but also takes scores of 80
  and more at medium confidence: `Scoring.MediumConfidenceGap`.
- The sweep is documented as keeping the last known status while a record is
  verified again (`platform/backend/app/verification/queue.py:306-309`). For an
  anonymous remote record the reset rules out a verified verdict in the next run:
  `WorkerRuns.SweepDemotesIff`.
- An exception during a verification stamps the record for the retry schedule
  (`platform/backend/app/verification/queue.py:271-280`), whatever the run came to.
  Reading the row back (`platform/backend/app/verification/repository.py:129`) and
  logging the decision (`platform/backend/app/verification/verifiers.py:778`) can raise
  after the result was written; then the attempt is spent and a verified row goes back to
  the queue. If nothing was written, none is spent, and where none was spent since the
  counter was last reset nothing is waited for either: `WorkerRuns.CrashBackoffIff`. A row
  can be queued with no attempts left, after the write of its last planned run or, as when
  an expired row is verified again, before any: `WorkerRuns.ExhaustedRetryIff`.
- The queue and the review list are read through unordered windows of five and twenty,
  which can hide all the work there is: `Worker.WindowStarvesIff`.
- A live row of the same canonical identity is documented as winning the content of
  its key (`platform/backend/app/search/application.py:397-400`). It does exactly when its
  repositories avoid those of all items that opened a slot before it, its own included,
  and no later row of the key does too: `MergeOutcome.LiveCopyWinsIff`, with
  `MergeOutcome.CopyKeptOut` as an instance. The repositories of a row that does win belong
  to nobody, so one repository can get two rows: `MergeOutcome.OneRowPerRepositoryIff` says
  exactly when the list returned has two, and `MergeOutcome.DuplicateRow` is an instance.
- The end of the stream is meant to fail every outstanding request at once
  (`platform/backend/app/sandbox/local_mcp_client.py:694-703`). A line that is JSON but no
  object has ended the reader by then, and requests from before a cleanup are out of its
  reach: `StdioClient.EofSettlesAllIff`, with `StdioClient.NotObjectStrands` as an instance.
- A full match must always beat one that only mentions the service
  (`platform/backend/app/query/ranking.py:114-116`). `Ranking.DirectFirstIff` says for
  which weights it does, over items without any match; summing below 9 is not enough
  (`Ranking.NineIsNotEnough`).
- Vendor connectors are said to outrank everything and to be listed first
  (`platform/backend/app/query/ranking.py:22-24`), by a bonus called decisive over registry
  mirrors (`platform/backend/app/query/ranking.py:121-123`). Against a qualifying mirror it is
  worth a fifth of a quality point, against anything else 0.35, and a vendor below the
  quality it needs has none and is at a disadvantage against such a mirror:
  `Ranking.VendorOutranks`, with `Ranking.VendorCanLose` and `Ranking.WeakVendorLoses` as
  instances under the shipped weights. The tiers put vendor rows in front, but only those
  the limit has left: `Tiers.OfficialFirstIff`.
- The malformed probe is meant to be invalid for every tool
  (`platform/backend/app/verification/timeout_policy.py:173-175`). A tool that requires
  nothing accepts it, unless its `additionalProperties` turn it away, as `false` does:
  `SyntheticArguments.MalformedAcceptedIff`.
- In `_finalize` the branch for an exhausted transport failure that was blocked by
  credentials (`platform/backend/app/verification/verifiers.py:680-681`) is kept in
  `Finalize.Route`, but only an auth failure sets that flag: `Finalize.NotBlocked`.

## Model

| member | source | states |
|---|---|---|
| Rounding.HalfEven | platform/backend/app/verification/scoring.py:104 | `round` is the nearest integer, and an even one on a tie |
| Rounding.HalfEvenUnique | platform/backend/app/verification/scoring.py:104 | nearest with ties to even has one solution, so the contract of `HalfEven` determines it |
| Rounding.HalfEvenReaches | platform/backend/app/verification/scoring.py:120 | where rounding first reaches an even target: half a unit below it, the tie included |
| Scoring.Credit | platform/backend/app/verification/scoring.py:101-104 | a check earns between nothing and its whole weight, exactly the weight at 1.0, nothing at 0.0 |
| Scoring.Add | platform/backend/app/verification/scoring.py:101-104 | an absent check adds nothing, a present one its entry and its credit; no other entry changes |
| Scoring.Breakdown | platform/backend/app/verification/scoring.py:106-119 | what stands under each name, and that the entries add up to the credits less both penalties |
| Scoring.ScoreServer | platform/backend/app/verification/scoring.py:86-145 | the score, the confidence and the status of the engine, and every entry of the breakdown; the score is the rounded, clamped total of the breakdown it returns |
| Scoring.PenaltiesTaken | platform/backend/app/verification/scoring.py:113-117 | moderate latency takes off 3 points, slow 8 and any other word none; a positive security penalty ten times its value, to the nearest hundredth |
| Scoring.BucketBoundaries | platform/backend/app/verification/scoring.py:120-138 | the thresholds 80 and 40 begin at 79.50 and 39.50 points of exact credit |
| Scoring.VerdictTable | platform/backend/app/verification/scoring.py:125-138 | every status exactly, by exact credit and confidence, when credentials did not block the run |
| Scoring.ConfidenceByCounters | platform/backend/app/verification/scoring.py:75-83 | confidence is a comparison of the two counters, without the division |
| Scoring.ScoreMonotone | platform/backend/app/verification/scoring.py:99-120 | 0 to 100, and never lower when a check improves or begins to count or a penalty shrinks, through both roundings and all clamps |
| Scoring.VerdictMonotone | platform/backend/app/verification/scoring.py:125-138 | at high confidence the verdict is one of rejected, review, verified and follows the checks upwards |
| Scoring.MediumConfidenceGap | platform/backend/app/verification/scoring.py:131-138 | medium confidence differs from low exactly from 79.50 points on, where it gives a retry instead of review |
| Scoring.VerifiedNeeds | platform/backend/app/verification/scoring.py:86-138 | a verified verdict needs 4.50 points of connection credit, which is all of it where the check is met or not, 4.50 of invocation credit and 24.50 of handshake, tool list and semantics |
| Attempts.InvokeLoop | platform/backend/app/verification/verifiers.py:223-249 | the loop both exercisers share: one outcome for each named tool, in order |
| Attempts.ExerciseLocalTools | platform/backend/app/verification/verifiers.py:213-293 | outcomes, probe verdict, security flag and stages of a local run |
| Attempts.ExerciseRemoteTools | platform/backend/app/verification/verifiers.py:362-450 | the same of a remote run, where a token restricts the calls to read-only tools and suppresses the probe |
| Attempts.RunsAreWellFormed | platform/backend/app/verification/verifiers.py:121-533 | every run of either transport, whatever it met: failures carry no evidence, at most five tools are invoked, a served run has its handshake and tool list on record, and only served remote runs exercise credentials |
| Attempts.RunsAreServed | platform/backend/app/verification/verifiers.py:121-533 | every served run of either transport meets what `CallsDecideIff` asks, with or without credentials |
| Attempts.VerifiedRunEvidence | platform/backend/app/verification/verifiers.py:781-833 | a verified verdict over the checks built from any outcome means high confidence, a connection, a successful call, and at most one of handshake, tool list and semantics empty |
| Attempts.AuthRunIsPartial | platform/backend/app/verification/verifiers.py:818-819 | a run stopped for credentials is scored partial at every confidence |
| Attempts.FailedRunScoresLow | platform/backend/app/verification/verifiers.py:781-833 | a failed run earns at most 40 points |
| Attempts.CallsDecideIff | platform/backend/app/verification/verifiers.py:781-833 | every served run, with or without credentials and whatever its probe and security check came to: it reaches 79.50 points, and is verified at high confidence, exactly when enough of its calls succeeded and were judged valid: 50 k / n + 30 v / m >= 39, 49 without a graceful probe, 20 more after a security finding, for any mix of answers, errors and exceptions |
| Attempts.OneSuccessDecides | platform/backend/app/verification/verifiers.py:808-817 | over cleanly served runs, where every answer was judged valid and every failed call raised, and so went unjudged, one success is enough |
| Attempts.HalfDecides | platform/backend/app/verification/verifiers.py:808-817 | over cleanly served runs, where every answer was judged valid and every failed call came back as an error, half of the calls must succeed |
| Finalize.NotBlocked | platform/backend/app/verification/verifiers.py:818-819 | only a run that met an auth gate is auth-blocked, and no run is a hard failure, so the branch for a blocked transport failure is never taken |
| Finalize.RouteStatus | platform/backend/app/verification/verifiers.py:670-697 | the overrides of the scored status, one after another, give `Route` |
| Finalize.BuildUpdates | platform/backend/app/verification/verifiers.py:704-747 | the update dictionary holds the fields of a decision and leaves all others alone |
| Finalize.FinalizeRun | platform/backend/app/verification/verifiers.py:651-747 | the fields a finished run writes |
| Finalize.AttemptCounters | platform/backend/app/verification/verifiers.py:660-664 | 1 <= completed <= planned, planned is 1 or 3, and confidence is high exactly when they are equal |
| Finalize.NoPrematureVerdict | platform/backend/app/verification/verifiers.py:670-697 | for all runs, scores and counters: a retry has attempts left; a transport failure with attempts left is retried; a run that met an auth gate waits for consent or is partial, and no other run waits for consent |
| Finalize.ConsentIff | platform/backend/app/verification/verifiers.py:514-533 | over any row and any stale read: a run that meets the gate without credentials writes the auth metadata it discovered, whatever was on record, and waits for consent exactly if that grant needs a human and no credential is active; every other run writes the metadata it read and decides on that |
| Finalize.VerifiedWrite | platform/backend/app/verification/verifiers.py:699-741 | a run ends verified only when served, connected, successful on some tool, at full attempts and 79.50 points; the same write sets the badge, the flag and the expiry |
| Finalize.ServedVerdictIff | platform/backend/app/verification/verifiers.py:666-697 | a served run is verified exactly at full attempts and 79.50 points |
| Finalize.BadgeAfterRun | platform/backend/app/verification/verifiers.py:738-747 | the badge after a run, exactly, over any row and any stale read |
| Finalize.BadgeImpliesVerifiedIff | platform/backend/app/verification/verifiers.py:699-747 | of a finalized run: a badge left on a row that is not verified, exactly by a served run of a badge holder below 79.50 points or with attempts left |
| Finalize.EmptyRunCredit | platform/backend/app/verification/verifiers.py:788-806 | a served local run that lists no tools is worth exactly 40 points |
| Finalize.StaleBadge | platform/backend/app/verification/verifiers.py:738-747 | such a run leaves a badge holder in review with its badge and without verified invocation |
| Failures.FailureTable | platform/backend/app/verification/verifiers.py:651-747 | every run that was not served, over any row and any stale read: the points it earns by how far it came (0, 25 or 40), its counters and badge, and its status: malformed at once, consent or partial at a gate, else retried while attempts are left, then reviewed if the handshake was reached and rejected if not; how a failed connection is classified changes nothing of it |
| Failures.TransportFailuresIff | platform/backend/app/verification/verifiers.py:915-923 | which failures count as the transport's |
| Replies.RepliesCounted | platform/backend/app/verification/verifiers.py:223-249 | of the tools a server lists, called are the first five that may be and have a name; a call succeeded exactly if the tool answered, is judged exactly if it answered or came back as an error, and valid exactly if the answer was judged so |
| Replies.CallRecorded | platform/backend/app/verification/verifiers.py:223-249 | every call is recorded, under its tool's name and in list order, with what it came to; only a local client records a timeout |
| Replies.RunRecords | platform/backend/app/verification/verifiers.py:251-293 | every run: served exactly if it has such a session; its outcomes are those of the calls; the probe is graceful, or a security flag, exactly by what it came to, and is left out with a token or, locally, for a nameless tool |
| Replies.RepliesDecideIff | platform/backend/app/verification/verifiers.py:781-833 | the verdict of every served run by what the server replied: answered calls over calls and valid answers over judged ones must bring in 39, 49 or 69 half points, by what the probe came to |
| Replies.VerifiedPassIff | platform/backend/app/verification/verifiers.py:651-747 | over any row and any stale read: a pass writes a verified status exactly if the server was served, its attempts are spent (local, a token, or two behind it) and it replied well enough |
| Replies.ServedTable | platform/backend/app/verification/verifiers.py:666-697 | the status of every served run, over any row and any stale read: never rejected; if it replied well enough verified with its attempts spent, retried after the second of three, reviewed after the first, and otherwise reviewed |
| Replies.FlagMeansAnswered | platform/backend/app/verification/verifiers.py:722-730 | the flag of verified invocation says whether any call of the last served run was answered, and a server that answers none is never verified |
| Replies.HalfOfCalls | platform/backend/app/verification/verifiers.py:808-817 | of calls that are answered well or come back as errors, half must be answered |
| Replies.OneAnswerIsEnough | platform/backend/app/verification/verifiers.py:808-817 | of calls that are answered well or raise in the client, one answer is enough |
| Repository.VerificationRepository.constructor | platform/backend/app/verification/repository.py:80-81 | the table starts empty |
| Repository.VerificationRepository.Create | platform/backend/app/verification/repository.py:85-93 | inserts exactly when no row has the source URL, otherwise answers that row and changes nothing; source URLs stay unique |
| Repository.VerificationRepository.Update | platform/backend/app/verification/repository.py:109-129 | exactly the named fields of exactly one row change |
| Repository.VerificationRepository.Select | platform/backend/app/verification/repository.py:291-299 | a limited unordered query: distinct matching rows, and all of them unless the limit was reached |
| Repository.VerificationRepository.ListStatus | platform/backend/app/verification/repository.py:238-249 | the same over a set of statuses |
| Repository.VerificationRepository.ListExpiredTtl | platform/backend/app/verification/repository.py:266-281 | the same over verified rows past their expiry |
| Worker.NextRetryDelay | platform/backend/app/verification/verifiers.py:958-961 | nothing before the first attempt, an hour after one, six hours after more, for every counter |
| Worker.EligibleIff | platform/backend/app/verification/queue.py:178-252 | when a row is selectable, in full: pending; waiting for a retry or in review with attempts left and 0, 3600 or 21600 seconds past its last readable stamp; or expired |
| Worker.FirstWhere | platform/backend/app/verification/queue.py:224-230 | the first qualifying row of a listing, or none qualifies |
| Worker.SelectNext | platform/backend/app/verification/queue.py:218-252 | only eligible rows are picked, expired ones before review; no answer means nothing expired, and nothing ready or reviewable as far as the windows reach |
| Worker.ProcessNextServer | platform/backend/app/verification/queue.py:199-281 | one pass changes one eligible row, to what its encounter makes of it, exceptions before and after the result was written included, and nothing else |
| Worker.RequeueExpiredTtl | platform/backend/app/verification/queue.py:303-318 | exactly the rows of some listing of the expired are reset, only in their attempt counter, and their number is returned; below the window none is missed |
| Worker.ListingComplete | platform/backend/app/verification/repository.py:291-299 | a listing of no more rows than its limit is complete |
| Worker.WindowStarvesIff | platform/backend/app/verification/queue.py:221-249 | some answer of the queue query shows nothing ready exactly when nothing is, or when five queued rows are waiting out a delay; the same of the review query and twenty rows without an attempt due |
| WorkerRuns.PassConsumes | platform/backend/app/verification/queue.py:199-281 | every pass over a selected, unexpired row uses up one of its at most three remaining passes, whatever the run comes to |
| WorkerRuns.NeverQueuedAfresh | platform/backend/app/verification/verifiers.py:670-697 | no run puts a row back to pending |
| WorkerRuns.AtMostThreePasses | platform/backend/app/verification/queue.py:199-281 | over any sequence of passes, expiries and exceptions included, no row is verified more than three times, and four more for each visit that raised or found it expired |
| WorkerRuns.WorkerTerminates | platform/backend/app/verification/queue.py:199-281 | over any table, any order of selection ends within three passes a row, and four more for each visit that raised or found its row expired |
| WorkerRuns.CrashBackoffIff | platform/backend/app/verification/queue.py:271-280 | after an exception the row is queued for a retry, has spent an attempt exactly if the result had been written, and is selectable again at once exactly if nothing was written and its counter stood at 0, as it does before the first written run and after a sweep, a recheck or fresh consent |
| WorkerRuns.PrefilterVerdict | platform/backend/app/verification/queue.py:254-267 | a prefilter verdict sets the status, rejected or malformed, and nothing else; the row leaves the queue |
| WorkerRuns.ExhaustedRetryIff | platform/backend/app/verification/queue.py:271-280 | over every pass: a row ends queued for a retry with no attempts left exactly when an exception follows the write of its last planned run, or comes before any write over a row whose attempts are spent |
| WorkerRuns.PassStrandsBadgeIff | platform/backend/app/verification/queue.py:254-281 | over every pass, prefilter verdicts and both kinds of exception included: a badge is left on a row that is not verified exactly when a badge holder is turned away by the prefilter, raises before its write, or is served and falls short, or a served run raises after its write while the row holds a badge or has just earned one |
| WorkerRuns.ReverifiedNotExpired | platform/backend/app/verification/queue.py:232-281 | a pass over an expired row takes it out of the expired set for its whole time to live |
| WorkerRuns.SweepDemotesIff | platform/backend/app/verification/queue.py:303-318 | after the sweep no single anonymous remote run ends verified; without it exactly a passing run with two attempts behind it does |
| WorkerRuns.PassingRun | platform/backend/app/verification/verifiers.py:660-697 | a passing run sets the counters and the stamp, and its status follows confidence: verified, retry, review |
| WorkerRuns.PassingRemoteRun | platform/backend/app/verification/queue.py:178-249 | after a passing anonymous run the row is in review for an hour, then in retry for six, then verified, and selectable exactly from the end of each delay |
| WorkerRuns.AnonymousRemoteTakesThree | platform/backend/app/verification/queue.py:178-249 | three passing anonymous runs, and no fewer, verify a remote row, whatever they contain |
| WorkerRuns.OneRunSuffices | platform/backend/app/verification/verifiers.py:655-668 | a local row, or one exercised with credentials, needs one passing run |
| WorkerRuns.ScheduleStep | platform/backend/app/verification/queue.py:178-196 | what each pass keeps: the counter, the stamp and the hours since the first run |
| WorkerRuns.LandedPass | platform/backend/app/verification/queue.py:269-280 | what a written anonymous remote run leaves of counter, stamp and status, whether or not it raised afterwards |
| WorkerRuns.NeverVerifiedEarly | platform/backend/app/verification/timeout_policy.py:27 | over any passes, exceptions of both kinds and prefilter verdicts included: no fresh anonymous remote row is verified before the result of its third run is written, nor sooner than 3600 + 21600 seconds after its first |
| WorkerRuns.RaisedRunsCount | platform/backend/app/verification/queue.py:269-280 | two runs that raised after their write, and one concluded passing run, do verify such a row |
| WorkerRuns.PassingRunsExist | platform/backend/app/verification/verifiers.py:121-450 | passing runs of either transport: one tool that answers validly, and a graceful probe |
| WorkerRuns.VerifiedLastsIff | platform/backend/app/verification/scoring.py:148-149 | a verified verdict expires exactly thirty days after the write for a local server, seven for a remote one |
| Lifecycle.ServeSafe | platform/backend/app/verification/queue.py:254-281 | the write of a run is safe over any row, however stale the record it started from |
| Lifecycle.StepSafe | platform/backend/app/verification/bridge.py:433-481 | every write of every writer keeps the invariant |
| Lifecycle.AlwaysSafe | platform/backend/app/verification/api.py:301-445 | in every reachable state, all writers interleaved with reads and writes apart: a verified row has badge and expiry, 0 <= completed <= planned, planned is 1 or 3 |
| Lifecycle.StepNothingFakedIff | platform/backend/app/verification/api.py:401-423 | a step keeps every verified row invoked, unless it is an approval whose flag is gone by the time it writes, and exactly then |
| Lifecycle.NothingFakedIff | platform/backend/app/verification/api.py:406-423 | over every run: verified implies invoked at all times if and only if every approval still finds the flag it was granted on |
| Lifecycle.LateApproval | platform/backend/app/verification/api.py:414-423 | an approval that writes over a row without the flag fakes a verified status |
| Lifecycle.ApprovalRace | platform/backend/app/verification/api.py:301-424 | such an interleaving exists from every safe state with a local approval in flight |
| Lifecycle.ApprovalReachable | platform/backend/app/verification/api.py:382-424 | such a state is reached from the empty table: a user test, a recheck, a run that meets an auth gate, an approval begun |
| Lifecycle.FakedFromStart | platform/backend/app/verification/api.py:301-424 | a whole run from the empty table that ends with a verified row whose last run succeeded on nothing |
| Lifecycle.BadgeStep | platform/backend/app/verification/verifiers.py:738-747 | a badge appears only in a write that also sets verified |
| Lifecycle.BadgeHoldersWereVerified | platform/backend/app/verification/api.py:414-423 | in every run a badge holder was verified at some point before |
| Lifecycle.StepJobs | platform/backend/app/verification/queue.py:199-281 | what each event adds to and takes off the writes still to come |
| Lifecycle.JobsWereBegun | platform/backend/app/verification/api.py:391-423 | over every run each write still to come goes back to the read it was decided on, and their number is that of the writes begun less those ended: none is made twice |
| Lifecycle.BadgeRuleStepIff | platform/backend/app/verification/models.py:169-170 | from a state where a badge means verified, a step breaks that exactly when it is a recheck, rejection, requeue, provider cascade, prefilter verdict or exception over a badge holder, a served run that falls short over one, or a failed run over one that had no badge when the run began |
| Lifecycle.BadgeRuleIff | platform/backend/app/verification/models.py:169-170 | over every run: a badge means verified at all times if and only if no such step meets a badge holder |
| Writers.RecheckServer | platform/backend/app/verification/api.py:301-333 | a known row is queued with its attempts reset, by two writes in order, and selectable at once; nothing else changes |
| Writers.ApproveServer | platform/backend/app/verification/api.py:382-424 | answers 404 and 409 exactly as the guards say and then changes nothing; otherwise the row is verified, badged by manual review and unexpired for thirty or seven days, and keeps its invoked flag and all other fields |
| Writers.RejectServer | platform/backend/app/verification/api.py:427-445 | any known row is rejected, and nothing else of it changes, its badge included |
| Writers.RequeueAfterConsent | platform/backend/app/verification/api.py:635-648 | exactly rows of the provider that await consent start a fresh pass, the count is their number, and none is missed below the limit of the query |
| Writers.CascadeProviderReauth | platform/backend/app/verification/verifiers.py:861-871 | exactly the rows of some listing of the provider change, only in their status, and their number is returned; none is missed below the limit |
| Writers.RecordUserVerifiedSuccess | platform/backend/app/verification/bridge.py:424-481 | the found row, the row of the same URL, or a new one ends verified with badge, flag, full attempts, a score of 90 or its better one, and thirty or seven days to live; no other row changes, and the table moves by the lifecycle steps of a user test |
| Writers.IngestCandidate | platform/backend/app/verification/queue.py:136-170 | a record is inserted exactly when its URL is new, as pending, rejected or malformed by its prefilter verdict, and queued exactly if that passed; the table changes by the lifecycle steps of ingestion |
| Writers.PassIsItsSteps | platform/backend/app/verification/queue.py:218-281 | a pass of the worker is the read and the writes of the lifecycle with nobody between: one write, or two when an exception follows the first |
| Writers.SmallWrites | platform/backend/app/verification/api.py:301-333 | what the small writes of sweep, recheck, rejection, fresh consent and provider cascade do to a row, and to no other |
| PackageClosure.MoveConserves | platform/backend/app/sandbox/package_size.py:225-256 | every move adds to its frame what it adds to the shared total, and every package entered is in that total or in flight |
| PackageClosure.WalkInvariant | platform/backend/app/sandbox/package_size.py:225-256 | under every schedule of the gathered frames: at most sixty names, each once and within four edges of the root, result equal to the shared total |
| PackageClosure.FinishedWalk | platform/backend/app/sandbox/package_size.py:225-256 | a finished walk returns the sum over the visited names, with cycles and diamonds, whatever the interleaving |
| PackageClosure.NeverOvercounts | platform/backend/app/sandbox/package_size.py:228-231 | the result is at most the weight of any closed set of packages around the root |
| PackageClosure.WalkCovers | platform/backend/app/sandbox/package_size.py:246-255 | below the caps no dependency of a visited package is dropped |
| PackageClosure.ExactBelowCaps | platform/backend/app/sandbox/package_size.py:225-256 | below the caps, cycles allowed, every schedule visits the least closed set around the root and returns its weight |
| PackageClosure.NpmVerdictSound | platform/backend/app/sandbox/package_size.py:258-278 | an npm package is over the limit only if every closure of it weighs more than 62914560 bytes |
| PackageClosure.PypiVerdictSound | platform/backend/app/sandbox/package_size.py:298-347 | the PyPI result is the number of visited names, and over the limit means more than forty packages in every closure |
| PackageClosure.FinishedVerdictsIff | platform/backend/app/sandbox/package_size.py:79-84 | the verdicts of any finished walk, both ways: over the limit exactly when the visited packages weigh more than 62914560 bytes, or are more than forty; the estimate is that weight or number, and unknown, so never over, only without metadata for the root |
| PackageClosure.VerdictsExactBelowCaps | platform/backend/app/sandbox/package_size.py:79-84 | below the caps, cycles and all schedules included: a package is over the limit if and only if its least closed set of dependencies weighs more than 62914560 bytes, or has more than forty members |
| PackageClosure.LeastClosedExists | platform/backend/app/sandbox/package_size.py:225-256 | below the caps there is such a least set: what any finished walk visits |
| PackageClosure.MoveProgress | platform/backend/app/sandbox/package_size.py:231-256 | every move that changes a frame lowers a potential |
| PackageClosure.WalkThreaded | platform/backend/app/sandbox/package_size.py:231-255 | under every schedule each frame was reached over visited packages, none of them twice |
| PackageClosure.WalkTerminates | platform/backend/app/sandbox/package_size.py:225-256 | no schedule keeps the walk moving beyond a fixed number of moves |
| PackageClosure.CanMove | platform/backend/app/sandbox/package_size.py:225-256 | an unfinished walk always has a frame that can move |
| PackageClosure.WalkFinishes | platform/backend/app/sandbox/package_size.py:225-256 | over every registry and root, every schedule extends to one that finishes the walk |
| StdioClient.LinesUnique | platform/backend/app/sandbox/local_mcp_client.py:711-712 | terminated lines and an unterminated rest are the one way to cut a text at its newlines |
| StdioClient.JoinedLines | platform/backend/app/sandbox/local_mcp_client.py:711-712 | joined again they give the text |
| StdioClient.LinesAppend | platform/backend/app/sandbox/local_mcp_client.py:708-712 | framing a text in two pieces frames it whole |
| StdioClient.DrainIsDispatch | platform/backend/app/sandbox/local_mcp_client.py:711-727 | the inner loop dispatches the lines of the buffer and leaves its rest |
| StdioClient.ChunkIndependence | platform/backend/app/sandbox/local_mcp_client.py:690-727 | however a stream is cut into chunks, requests end up as if its lines were dispatched from the whole, and the buffer is the unterminated rest |
| StdioClient.RunConsistent | platform/backend/app/sandbox/local_mcp_client.py:630-725 | in every run, reconnects included: ids never repeat, and an answer carries the id of the request it settles |
| StdioClient.SettledOnce | platform/backend/app/sandbox/local_mcp_client.py:700-723 | a settled future stays as it is for the rest of the run |
| StdioClient.OrphansOnlyByCleanup | platform/backend/app/sandbox/local_mcp_client.py:945-981 | a request leaves the map unsettled only by a cleanup, which drops exactly the unsettled ones |
| StdioClient.OrphanIff | platform/backend/app/sandbox/local_mcp_client.py:945-981 | over a run, the requests so lost are the unsettled ones sent before some cleanup |
| StdioClient.ReaderSurvivesIff | platform/backend/app/sandbox/local_mcp_client.py:717-732 | the reader outlives a chunk exactly if none of the lines it completes makes it raise |
| StdioClient.StrandedOnlyBy | platform/backend/app/sandbox/local_mcp_client.py:684-732 | a request is stranded by a cleanup, by a line that ends the reader, or by being sent when nobody reads, and in no other way |
| StdioClient.StrandedStays | platform/backend/app/sandbox/local_mcp_client.py:684-732 | it stays so through every event but its own timeout and, if still in the map, a new connection |
| StdioClient.NotObjectStrands | platform/backend/app/sandbox/local_mcp_client.py:717-732 | a line that is JSON but no object strands a request that the end of the stream then leaves open |
| StdioClient.EofSettlesAll | platform/backend/app/sandbox/local_mcp_client.py:693-705 | the end of the stream leaves open exactly the stranded requests, and empties the map if there is a reader |
| StdioClient.EofSettlesAllIff | platform/backend/app/sandbox/local_mcp_client.py:684-732 | over every run, the end of the stream settles every request if and only if each one still open has a reader alive and was sent after the last cleanup |
| StdioClient.AnswersByArrival | platform/backend/app/sandbox/local_mcp_client.py:711-732 | in any arrival order a pending request gets the first line that carries its id, unless an earlier line ends the reader |
| StdioClient.LocalMcpClient.constructor | platform/backend/app/sandbox/local_mcp_client.py:82-94 | no requests, an empty buffer, not connected |
| StdioClient.LocalMcpClient.ConnectOnce | platform/backend/app/sandbox/local_mcp_client.py:197-207 | a spawned process starts a reader and touches neither ids nor requests |
| StdioClient.LocalMcpClient.SendRequest | platform/backend/app/sandbox/local_mcp_client.py:630-657 | a fresh id and a pending future, or nothing without a process |
| StdioClient.LocalMcpClient.SettleFuture | platform/backend/app/sandbox/local_mcp_client.py:701-702 | only an unsettled future changes |
| StdioClient.LocalMcpClient.DispatchLine | platform/backend/app/sandbox/local_mcp_client.py:713-732 | one line settles the request it names, ends the reader, or does nothing |
| StdioClient.LocalMcpClient.ReadChunk | platform/backend/app/sandbox/local_mcp_client.py:707-727 | the reading loop does what framing the buffer and the chunk does |
| StdioClient.LocalMcpClient.ReadEof | platform/backend/app/sandbox/local_mcp_client.py:693-705 | the loop over the pending futures fails exactly the unsettled ones |
| StdioClient.LocalMcpClient.ExpireRequest | platform/backend/app/sandbox/local_mcp_client.py:660-666 | a timeout cancels the future and leaves its entry |
| StdioClient.LocalMcpClient.Disconnect | platform/backend/app/sandbox/local_mcp_client.py:945-981 | a cleanup forgets the map and the buffer but not the id counter |
| SyntheticArguments.FillRequired | platform/backend/app/verification/timeout_policy.py:117-130 | one value for every required name that is declared, nothing else |
| SyntheticArguments.SyntheticValidIff | platform/backend/app/verification/timeout_policy.py:133-169 | over every well-formed schema at every depth the generated value is valid exactly when no part the generator enters requires anything below the depth limit or has bounds its placeholder breaks: a positive fractional minimum of an integer, or a format shorter than the minimal length |
| SyntheticArguments.BoundsBroken | platform/backend/app/verification/timeout_policy.py:154-169 | an instance of either: 2 for an integer of at least 2.5, and a URI placeholder where thirty characters are asked for |
| SyntheticArguments.LiteralsHonoured | platform/backend/app/verification/timeout_policy.py:133-141 | const goes before default, default before the first of a non-empty enum, and these before the type; a boolean schema counts as an empty one |
| SyntheticArguments.ScalarChosen | platform/backend/app/verification/timeout_policy.py:154-169 | a number is its minimum, or 1 without one or at zero, cut to its whole part for an integer; a string without format has just the minimal length |
| SyntheticArguments.PlaceholdersConform | platform/backend/app/verification/timeout_policy.py:158-168 | the placeholders of the five formats are a URI, an RFC 3339 time and date, an address and a UUID |
| SyntheticArguments.SyntheticArgumentsIff | platform/backend/app/verification/timeout_policy.py:103-130 | the arguments of a tool validate exactly when no required property nests requirements deeper than four levels or has bounds its placeholder breaks |
| SyntheticArguments.MalformedRejected | platform/backend/app/verification/timeout_policy.py:172-195 | the probe never validates where some required name is not the reserved one |
| SyntheticArguments.MalformedAcceptedIff | platform/backend/app/verification/timeout_policy.py:172-195 | where the reserved name means nothing to the schema, the probe is accepted exactly when nothing is required and `additionalProperties`, if given, accept its value |
| MergeItems.MergeCatalog | platform/backend/app/search/application.py:387-429 | the two claiming loops give the merged slots |
| MergeItems.ClaimKeeps | platform/backend/app/search/application.py:407-423 | a claim keeps keys distinct, slots and their keys in place, and every owned repository with its owner |
| MergeItems.NothingLost | platform/backend/app/search/application.py:387-403 | every input is represented by its key or by the owner of one of its repositories |
| MergeItems.ClaimRegisteredIff | platform/backend/app/search/application.py:417-423 | repositories stay registered exactly unless a live item refreshes a slot with repositories of its own |
| MergeItems.CatalogMergeIdempotent | platform/backend/app/search/application.py:387-429 | without live items repositories are disjoint and merging again changes nothing |
| MergeOutcome.OpenersInOrder | platform/backend/app/search/application.py:397-403 | the items that open a slot, in input order: exactly those whose key and repositories are all new |
| MergeOutcome.OwnersAreOpeners | platform/backend/app/search/application.py:405-423 | after any prefix of any live list the owned repositories are those of the items that opened a slot, refreshed or not |
| MergeOutcome.MergedShape | platform/backend/app/search/application.py:397-403 | distinct keys; one slot for each item that opens one, by position in catalog then live list; each holds that item or a live one of its key |
| MergeOutcome.TakesIff | platform/backend/app/search/application.py:407-423 | a live item takes its slot exactly when its repositories avoid those of every item that opened a slot before it, and otherwise changes nothing |
| MergeOutcome.SlotContents | platform/backend/app/search/application.py:387-429 | what every slot holds after any prefix: the last live item of its key that took it, else the item that opened it |
| MergeOutcome.LiveCopyWinsIff | platform/backend/app/search/application.py:397-402 | for every catalog and live list, a live row wins the content of its key exactly when it takes its slot and no later row of the key does |
| MergeOutcome.CopyKeptOut | platform/backend/app/search/application.py:407-416 | a copy that shares no repository with the catalog, kept out by another live item |
| MergeOutcome.ClaimDisjointIff | platform/backend/app/search/application.py:407-423 | a live claim leaves repositories disjoint exactly unless it takes its slot and shares a repository with another |
| MergeOutcome.OneRowPerRepositoryIff | platform/backend/app/search/application.py:390-395 | the list returned, for every catalog and live list: two rows share a repository if and only if two items that end up in it do, the earlier of which took a slot opened by another item |
| MergeOutcome.SlotStays | platform/backend/app/search/application.py:387-429 | every row returned is an item that stays: a catalog item that opened its slot and was never refreshed, or the last live item to take its slot |
| MergeOutcome.StaysInSlot | platform/backend/app/search/application.py:387-429 | and every item that stays is returned |
| MergeOutcome.OneRowThroughoutIff | platform/backend/app/search/application.py:407-423 | no merge on the way has two rows of one repository if and only if no live item clashes on its way in |
| MergeOutcome.OnlyRefreshesDuplicate | platform/backend/app/search/application.py:417-420 | two slots share a repository only if a live item has refreshed one of them |
| MergeOutcome.DuplicateRow | platform/backend/app/search/application.py:417-420 | a refresh after which one repository has two rows |
| Deduplicate.KeepFirstKeys | platform/backend/app/normalization/pipeline.py:645-667 | one element a key and no key lost |
| Deduplicate.KeepFirstIsFirst | platform/backend/app/normalization/pipeline.py:356-368 | what is kept are exactly the first occurrences, in order |
| Deduplicate.MergeLists | platform/backend/app/normalization/pipeline.py:645-667 | the first element of each key of both lists, so the union of the keys, each once |
| Deduplicate.Item.constructor | platform/backend/app/normalization/pipeline.py:356 | an item holds what it is made of |
| Deduplicate.GroupMerge | platform/backend/app/normalization/pipeline.py:364-367 | taking over one more item keeps the account of the whole group, every list by first occurrence in input order, also when an item meets itself |
| Deduplicate.CarriesKeys | platform/backend/app/normalization/pipeline.py:645-667 | so no evidence id and no provenance key of a group is lost or added, and each is there once as soon as two items met |
| Deduplicate.PrimarySourceKept | platform/backend/app/normalization/pipeline.py:364 | the primary source of a group is that of its first item that has one |
| Deduplicate.Absorb | platform/backend/app/normalization/pipeline.py:364-367 | the holder's lists are followed by what the other item adds, each key at its first occurrence with its content there, and its description gives way only to a longer one; the two may be one object |
| Deduplicate.Place | platform/backend/app/normalization/pipeline.py:359-367 | one turn of the loop, in place: a new holder, or an old one that absorbed; every other item untouched |
| Deduplicate.DeduplicateItems | platform/backend/app/normalization/pipeline.py:355-368 | one item a key in order of first occurrence; each carries the evidence and provenance of its whole group, the first occurrence of each key in input order with its content, or its own lists unchanged if it is alone, and the first of the longest descriptions; all other items untouched |
| StableSort.OrderSorts | platform/backend/app/query/ranking.py:143 | the sort lists every position once, larger keys first, ties in input order |
| StableSort.OrderUnique | platform/backend/app/query/ranking.py:143 | that leaves exactly one order |
| StableSort.SortKeepsElements | platform/backend/app/verification/bridge.py:337-345 | sorting keeps the elements with their multiplicities |
| StableSort.SortTwice | platform/backend/app/verification/bridge.py:337-345 | sorting by one key, cutting, and sorting by another is the lexicographic order of what is left; whatever was cut comes behind in the first key |
| Ranking.LexicalBuckets | platform/backend/app/query/ranking.py:156-190 | the buckets of the lexical score exactly, through the six-digit rounding |
| Signals.DirectIff | platform/backend/app/query/ranking.py:156-190 | a direct match, without counting: some term of the query occurs in the text, and all of them do or the phrase stands in the identity |
| Signals.PhraseIff | platform/backend/app/query/ranking.py:172-187 | the phrase: the terms in order, with single spaces between all of them or single hyphens |
| Ranking.BonusNeedsMatch | platform/backend/app/query/ranking.py:118-127 | an official source gets its bonus exactly on direct matches of good quality, or when at most one term in a million is missing |
| Ranking.VendorOutranks | platform/backend/app/query/ranking.py:118-130 | for all lexical scores and qualities, a vendor endpoint outranks any rival of another source that leads by less than the advantage of its bonus, which is 0.2, 0.35, -0.15 or nothing by the source of the rival and which of the two qualifies, to within a millionth, and not one that leads by as much |
| Ranking.VendorCanLose | platform/backend/app/query/ranking.py:121-127 | two full matches under the shipped weights, the vendor with its bonus, where the mirror comes first |
| Ranking.WeakVendorLoses | platform/backend/app/query/ranking.py:121-130 | two full matches under the shipped weights, the vendor just below the quality its bonus needs, where a mirror a tenth of a point better comes first |
| Ranking.RankItems | platform/backend/app/query/ranking.py:74-143 | the scores table, the skipping loop and the sort give `Rank` |
| Ranking.SurvivorsMeaning | platform/backend/app/query/ranking.py:88-99 | an item is shown exactly when there is no direct match, or it is one, or it scores 0; of items sharing an id the last is scored |
| Ranking.RankedRows | platform/backend/app/query/ranking.py:108-143 | ranked rows hold their own final score and never increase |
| Signals.FreshnessDecays | platform/backend/app/query/ranking.py:193-211 | freshness falls evenly from 1 at age 0 to 0 at 7776000 seconds, for every age, with 1 before and 0 after |
| Signals.EvidenceCounts | platform/backend/app/query/ranking.py:214-223 | a sixth for each distinct evidence or source key, up to six together |
| Signals.ScoreMonotone | platform/backend/app/query/ranking.py:100-128 | no signal counts against an item: for non-negative weights, one that is at least as good by every signal, source and match included, never scores lower, through bonuses and rounding |
| Signals.NewerScoresHigher | platform/backend/app/query/ranking.py:100-128 | of otherwise equal items the newer scores higher as soon as its lead times the freshness weight exceeds 7.776, 78 seconds under the shipped weights |
| Signals.RankOrder | platform/backend/app/query/ranking.py:74-143 | the ranked list is each surviving item once, by score, ties in input order |
| Signals.NewerNeverBehind | platform/backend/app/query/ranking.py:74-143 | in every ranking a newer item is never behind an older one that is its equal otherwise, but for a tie decided by input order, and it is ahead with that lead |
| Ranking.WithoutMatchBelow | platform/backend/app/query/ranking.py:108-128 | the highest final score of an item without a match, for all weights |
| Ranking.MatchAbove | platform/backend/app/query/ranking.py:108-128 | the lowest final score of a direct match, for all weights |
| Ranking.DirectFirstIff | platform/backend/app/query/ranking.py:114-128 | direct matches precede items without any match, for every query and catalog, if and only if the weights keep those two bounds apart after rounding |
| Ranking.WeightsBelowNine | platform/backend/app/query/ranking.py:56-60 | non-negative weights that sum below 8.9999995 do, the shipped ones among them |
| Ranking.NineIsNotEnough | platform/backend/app/query/ranking.py:114-132 | to sum below 9 is not enough: weights for which the order fails |
| Tiers.OrderResultsByTier | platform/backend/app/verification/bridge.py:337-345 | the list is sorted by tier in place |
| Tiers.CountBadgeTiers | platform/backend/app/verification/bridge.py:240-256 | the numbers of vendor rows, and of other rows whose badge is set |
| Tiers.OrderedBlocks | platform/backend/app/verification/bridge.py:240-256 | counting before or after the ordering gives the same, and the counts bound the blocks of the ordered list: vendor rows, then rows whose badge is set, then all others |
| Tiers.SearchOrder | platform/backend/app/api/routes.py:51-82 | what a search shows, end to end: one row an item by tier, then score, then input position; whatever the limit cut has no larger score than any row shown |
| Tiers.OfficialFirstIff | platform/backend/app/api/routes.py:51-82 | the rows shown are the best by score whatever their tiers, and a vendor row heads them exactly when there is one among those: one that ranks behind the limit is cut |
| Braces.ExposedBalance | platform/backend/app/artifacts/integration_synthesizer.py:106-122 | no opener is pending at a position exactly when no stretch before it has more openers than closers |
| Braces.ScanTracks | platform/backend/app/artifacts/integration_synthesizer.py:106-122 | the depth is the largest excess of openers, the pending start the outermost open brace |
| Braces.EndsBlock | platform/backend/app/artifacts/integration_synthesizer.py:115-121 | a character ends a top-level block exactly when it is a closer that brings the depth back to 0 |
| Braces.ScanExact | platform/backend/app/artifacts/integration_synthesizer.py:106-122 | the blocks found are all balanced blocks that open under no pending brace and nothing else, in text order and disjoint |
| Braces.BraceMatchJsonCandidates | platform/backend/app/artifacts/integration_synthesizer.py:106-122 | the candidates are the texts of those blocks |
| Braces.CandidatesStand | platform/backend/app/artifacts/integration_synthesizer.py:106-122 | each candidate runs from the opening to the closing brace of its block, and cut again it yields itself and nothing else |
| Braces.UnclosedHidesTheRest | platform/backend/app/artifacts/integration_synthesizer.py:111-121 | one brace that is never closed hides every later block |

## Left out

What a contract deliberately says less of:

- Lifecycle.AlwaysSafe: a step lets each writer act on any row, so the guards of the sweep and of the OAuth loops are proved at their methods (`Worker.RequeueExpiredTtl`, `Writers.RequeueAfterConsent`) and not used here.
- PackageClosure.WalkInvariant: the walk is a state machine over its frames, a schedule choosing the one that moves, because methods cannot be interleaved; the shared accumulator is part of that state.
- Worker.ProcessNextServer: one step, with nobody between the selection and the write; the interleavings are in `Lifecycle`, joined by `Writers.PassIsItsSteps`.
- Writers.RecordUserVerifiedSuccess: the lookups by registry name, URL and repository identity are the parameter `existing`.
- Writers.IngestCandidate: the identity lookups that skip a candidate before it is created are not modelled; the lookup is capped at 500 rows and skips statuses, so uniqueness of repositories is no invariant of the source.
- Repository.VerificationRepository.Create: one step, whereas the source checks and inserts in two commands; uniqueness of source URLs is proved for creations that do not overlap.
- Ranking.WeightsBelowNine: sufficient only; the exact condition, for weights of either sign, is in `Ranking.DirectFirstIff`.
- Ranking.VendorOutranks: leaves open leads within a millionth below the advantage, where the six-digit rounding decides.
- Deduplicate.DeduplicateItems: the key of an item is a given string; parsing and lower-casing the repository URL are not modelled.

What the model does not cover:

- Floating point: scores, ratios and weights are real numbers, and `round` is exact half to even on them.
- Latency, stage details, `verification_details`, rejection stages and the decision log: written beside the modelled fields and never read by them. The pipeline sets neither a latency category nor a hard failure; the scorer keeps both.
- The sandbox, Docker, HTTP, the database's SQL, the semantic judge, the read-only detector and the text checks of the prefilter: their answers are parameters.
- A database write that fails changes nothing and is no step here. One that lands and then raises is a step like any other, and for the worker it is followed by the write of its exception handler.
- Timestamps are integers and a TTL lies before `now` as integers do; the source compares ISO strings.
- UTF-8 is decoded per chunk in the source, so a character split between chunks is lost; framing here is over characters. What a line parses to is a parameter, in which an id equal to an integer, `true` and `1.0` included, counts as that integer.
- JSON Schema keywords of the wrong JSON type, and keywords other than those named above. `format` is no part of `Valid`; the placeholders of the five formats have their shape (`SyntheticArguments.PlaceholdersConform`).
- The npm metadata cache and the two requests behind one answer: a package has one answer for a whole walk. Identifiers that name no package are not walked.
- Assembling the searchable text of an item, embeddings and the cosine: given, the similarity clamped as the source clamps it. Attaching badges to rows is a function of the row.
- The cold-miss cascade, token refresh and provider status: small linear flows that would add only easy members.
- `SCOPE_NOT_GRANTED`: a comment (`platform/backend/app/verification/api.py:632-633`) says servers move there when scopes are missing; nothing in the code writes it, and the model has no such step.
- `SessionStore` and `ContainerManager`: their expiry and limits depend on reads and awaits for which the intended bounds do not hold in the source.
- The web frontend, streaming responses and logging.
