/** One verification attempt: how `_verify_local`, `_verify_remote` and
    `_handle_remote_auth` shape an outcome, and the soft checks the scorer sees
    (platform/backend/app/verification/verifiers.py).

    What the sandbox, the network and the judge answer is the parameter of each
    run; which outcome the code builds from those answers is modelled. */
module Attempts {
  import opened Wrappers
  import opened Rounding
  import opened Records
  import opened Scoring

  const MAX_TOOLS_INVOKED := 5

  datatype Stage =
    INSTALL | CONNECT | HANDSHAKE | TOOLS_LIST | TOOL_INVOCATION | MALFORMED_INPUT | SECURITY

  datatype Kind =
    | SUCCESS
    | TRANSPORT_FAIL
    | AUTH_REQUIRED
    | PROTOCOL_FAIL
    | TIMEOUT
    | MALFORMED_KIND
    | SECURITY_FLAG

  datatype StageResult = StageResult(stage: Stage, kind: Kind)

  datatype InvocationStatus = INVOKED_OK | INVOKED_ERROR | INVOKED_TIMEOUT

  datatype ToolOutcome = ToolOutcome(
    toolName: string,
    invocationStatus: InvocationStatus,
    semanticValid: Option<bool>)

  /** `readOnly` is the answer of the read-only detector for this tool. */
  datatype Tool = Tool(name: string, readOnly: bool)

  datatype AttemptOutcome = AttemptOutcome(
    kind: Kind,
    tools: seq<Tool>,
    toolOutcomes: seq<ToolOutcome>,
    malformedGraceful: Option<bool>,
    securityFlagged: bool,
    stages: seq<StageResult>,
    authExercised: bool)

  /** What one tool call came to; `valid` is the judge's verdict. */
  datatype Reply = Answered(valid: bool) | ErrorResult | TimedOut | Raised

  /** What the malformed-input probe came to. */
  datatype Probe = Graceful | Ungraceful | ProbeRaised

  // ---- exercising the tools ----------------------------------------------

  /** Only the local client tells a timeout from any other exception. */
  function Invoked(name: string, reply: Reply, transport: Transport): ToolOutcome {
    match reply
    case Answered(valid) => ToolOutcome(name, INVOKED_OK, Some(valid))
    case ErrorResult => ToolOutcome(name, INVOKED_ERROR, Some(false))
    case TimedOut => ToolOutcome(name, if transport.LOCAL? then INVOKED_TIMEOUT else INVOKED_ERROR, None)
    case Raised => ToolOutcome(name, INVOKED_ERROR, None)
  }

  /** The outcomes of a prefix of the tools; nameless tools are skipped. */
  function InvokedAll(tools: seq<Tool>, replies: nat -> Reply, transport: Transport): (r: seq<ToolOutcome>)
    ensures |r| <= |tools|
  {
    if tools == [] then []
    else
      var n := |tools| - 1;
      InvokedAll(tools[..n], replies, transport)
      + if tools[n].name == "" then [] else [Invoked(tools[n].name, replies(n), transport)]
  }

  /** With a token attached only read-only tools are invoked. */
  function Permitted(tools: seq<Tool>, token: bool): (r: seq<Tool>)
    ensures |r| <= |tools|
    ensures !token ==> r == tools
    ensures forall t :: t in r ==> t in tools && (token ==> t.readOnly)
  {
    if tools == [] then []
    else
      var n := |tools| - 1;
      assert tools == tools[..n] + [tools[n]];
      Permitted(tools[..n], token) + if !token || tools[n].readOnly then [tools[n]] else []
  }

  function FirstFew(tools: seq<Tool>): seq<Tool> {
    if |tools| <= MAX_TOOLS_INVOKED then tools else tools[..MAX_TOOLS_INVOKED]
  }

  datatype Exercise = Exercise(
    outcomes: seq<ToolOutcome>,
    graceful: Option<bool>,
    flagged: bool,
    stages: seq<StageResult>)

  predicate Flagged(stages: seq<StageResult>) {
    exists i :: 0 <= i < |stages| && stages[i].kind == SECURITY_FLAG
  }

  function ProbeStage(probe: Probe): seq<StageResult> {
    [StageResult(MALFORMED_INPUT, if probe.Graceful? then SUCCESS else SECURITY_FLAG)]
  }

  function LocalExercise(tools: seq<Tool>, replies: nat -> Reply, probe: Probe, stages: seq<StageResult>)
    : Exercise
  {
    var probed := tools != [] && tools[0].name != "";
    var after := stages + if probed then ProbeStage(probe) else [];
    Exercise(InvokedAll(FirstFew(tools), replies, LOCAL),
             if probed then Some(probe.Graceful?) else None,
             Flagged(after),
             after + [StageResult(SECURITY, SUCCESS)])
  }

  /** A probe that raises leaves no verdict on gracefulness here, unlike the
      local one, but it is a security flag in both. */
  function RemoteExercise(tools: seq<Tool>, replies: nat -> Reply, probe: Probe, token: bool,
                          stages: seq<StageResult>): Exercise
  {
    var invocable := FirstFew(Permitted(tools, token));
    var probed := tools != [] && !token;
    var after := stages
                 + (if tools != [] && invocable == [] then [StageResult(TOOL_INVOCATION, AUTH_REQUIRED)] else [])
                 + (if probed then ProbeStage(probe) else []);
    Exercise(InvokedAll(invocable, replies, REMOTE),
             if probed && !probe.ProbeRaised? then Some(probe.Graceful?) else None,
             Flagged(after),
             after)
  }

  /** The invocation loop both exercisers share. */
  method InvokeLoop(tools: seq<Tool>, replies: nat -> Reply, transport: Transport)
    returns (outcomes: seq<ToolOutcome>)
    ensures outcomes == InvokedAll(tools, replies, transport)
  {
    outcomes := [];
    for i := 0 to |tools|
      invariant outcomes == InvokedAll(tools[..i], replies, transport)
    {
      assert tools[..i + 1][..i] == tools[..i];
      if tools[i].name == "" {
        continue;
      }
      outcomes := outcomes + [Invoked(tools[i].name, replies(i), transport)];
    }
    assert tools[..|tools|] == tools;
  }

  /** `_exercise_local_tools`. */
  method ExerciseLocalTools(tools: seq<Tool>, replies: nat -> Reply, probe: Probe, stages: seq<StageResult>)
    returns (e: Exercise)
    ensures e == LocalExercise(tools, replies, probe, stages)
  {
    var outcomes := InvokeLoop(FirstFew(tools), replies, LOCAL);
    var graceful: Option<bool> := None;
    var recorded := stages;
    if tools != [] {
      if tools[0].name != "" {
        graceful := Some(probe.Graceful?);
        recorded := recorded + [StageResult(MALFORMED_INPUT, if probe.Graceful? then SUCCESS else SECURITY_FLAG)];
      }
    }
    assert tools == [] || tools[0].name == "" ==> recorded == stages + [];
    var flagged := Flagged(recorded);
    recorded := recorded + [StageResult(SECURITY, SUCCESS)];
    e := Exercise(outcomes, graceful, flagged, recorded);
  }

  /** `_exercise_remote_tools`. */
  method ExerciseRemoteTools(tools: seq<Tool>, replies: nat -> Reply, probe: Probe, token: bool,
                             stages: seq<StageResult>)
    returns (e: Exercise)
    ensures e == RemoteExercise(tools, replies, probe, token, stages)
  {
    var invocable := FirstFew(Permitted(tools, token));
    var outcomes := InvokeLoop(invocable, replies, REMOTE);
    var graceful: Option<bool> := None;
    var recorded := stages;
    if tools != [] && invocable == [] {
      recorded := recorded + [StageResult(TOOL_INVOCATION, AUTH_REQUIRED)];
    } else {
      assert recorded == recorded + [];
    }
    if tools != [] && !token {
      if !probe.ProbeRaised? {
        graceful := Some(probe.Graceful?);
      }
      recorded := recorded + [StageResult(MALFORMED_INPUT, if probe.Graceful? then SUCCESS else SECURITY_FLAG)];
    } else {
      assert recorded == recorded + [];
    }
    e := Exercise(outcomes, graceful, Flagged(recorded), recorded);
  }

  // ---- the shapes an attempt can take -------------------------------------

  datatype LocalRun =
    | UnparseableCommand
    | Crashed(reached: nat)  // an exception after this many of install, handshake, tools/list
    | NotConnected(unauthorized: bool)
    | LocalServed(tools: seq<Tool>, replies: nat -> Reply, probe: Probe)

  datatype AuthPath =
    | NoCredential(authType: AuthType, oauthFlow: Option<OAuthFlow>)
    | ReconnectedWith(tools: seq<Tool>, replies: nat -> Reply, probe: Probe)
    | ScopesRejected
    | TokenRejected

  datatype RemoteRun =
    | AuthDemanded(path: AuthPath)
    | ConnectFailed(reason: Option<string>)
    | NoToolsWithToken
    | RemoteServed(tools: seq<Tool>, replies: nat -> Reply, probe: Probe, token: bool)

  datatype Run = Local(local: LocalRun) | Remote(remote: RemoteRun)

  function Failed(kind: Kind, stages: seq<StageResult>): AttemptOutcome {
    AttemptOutcome(kind, [], [], None, false, stages, false)
  }

  function Served(tools: seq<Tool>, e: Exercise, authExercised: bool): AttemptOutcome {
    AttemptOutcome(SUCCESS, tools, e.outcomes, e.graceful, e.flagged, e.stages, authExercised)
  }

  const LOCAL_STAGES := [
    StageResult(INSTALL, SUCCESS), StageResult(HANDSHAKE, SUCCESS), StageResult(TOOLS_LIST, SUCCESS)]

  const REMOTE_STAGES := [StageResult(HANDSHAKE, SUCCESS), StageResult(TOOLS_LIST, SUCCESS)]

  /** `_verify_local`. */
  function LocalOutcome(run: LocalRun): AttemptOutcome {
    match run
    case UnparseableCommand => Failed(MALFORMED_KIND, [StageResult(INSTALL, MALFORMED_KIND)])
    case Crashed(reached) =>
      Failed(TRANSPORT_FAIL,
             LOCAL_STAGES[..if reached < 3 then reached else 3] + [StageResult(INSTALL, TRANSPORT_FAIL)])
    case NotConnected(unauthorized) =>
      var kind := if unauthorized then AUTH_REQUIRED else PROTOCOL_FAIL;
      Failed(kind, [StageResult(INSTALL, SUCCESS), StageResult(HANDSHAKE, kind)])
    case LocalServed(tools, replies, probe) =>
      Served(tools, LocalExercise(tools, replies, probe, LOCAL_STAGES), false)
  }

  /** `_classify_remote_failure`. */
  function ClassifyRemoteFailure(reason: Option<string>): Kind {
    if reason in {None, Some("connection_error"), Some("timeout"), Some("rate_limited")} then TRANSPORT_FAIL
    else PROTOCOL_FAIL
  }

  const AUTH_STAGE := StageResult(CONNECT, AUTH_REQUIRED)

  /** `_handle_remote_auth`. */
  function AuthOutcome(path: AuthPath): AttemptOutcome {
    match path
    case NoCredential(_, _) => Failed(AUTH_REQUIRED, [AUTH_STAGE, AUTH_STAGE])
    case ScopesRejected => Failed(PROTOCOL_FAIL, [AUTH_STAGE, StageResult(CONNECT, MALFORMED_KIND)])
    case TokenRejected => Failed(AUTH_REQUIRED, [AUTH_STAGE])
    case ReconnectedWith(tools, replies, probe) =>
      var stages := [AUTH_STAGE, StageResult(CONNECT, SUCCESS)] + REMOTE_STAGES;
      Served(tools, RemoteExercise(tools, replies, probe, true, stages), true)
  }

  /** `_verify_remote`. */
  function RemoteOutcome(run: RemoteRun): AttemptOutcome {
    match run
    case AuthDemanded(path) => AuthOutcome(path)
    case ConnectFailed(reason) =>
      var kind := ClassifyRemoteFailure(reason);
      Failed(kind, [StageResult(CONNECT, kind)])
    case NoToolsWithToken => Failed(AUTH_REQUIRED, REMOTE_STAGES)
    case RemoteServed(tools, replies, probe, token) =>
      Served(tools, RemoteExercise(tools, replies, probe, token, REMOTE_STAGES), token)
  }

  function OutcomeOf(run: Run): AttemptOutcome {
    match run
    case Local(local) => LocalOutcome(local)
    case Remote(remote) => RemoteOutcome(remote)
  }

  /** The record object a run leaves behind: only the path without credentials
      refines its auth metadata. */
  function Refined(r: Record, run: Run): Record {
    if run.Remote? && run.remote.AuthDemanded? && run.remote.path.NoCredential? then
      r.(authRequired := true, authType := run.remote.path.authType, oauthFlow := run.remote.path.oauthFlow)
    else r
  }

  // ---- soft checks --------------------------------------------------------

  /** The source keys stage results by stage name, so the last one wins. */
  function LastOf(stages: seq<StageResult>, stage: Stage): Option<Kind> {
    if stages == [] then None
    else
      var n := |stages| - 1;
      if stages[n].stage == stage then Some(stages[n].kind) else LastOf(stages[..n], stage)
  }

  predicate Connected(stages: seq<StageResult>) {
    || LastOf(stages, INSTALL) == Some(SUCCESS)
    || LastOf(stages, CONNECT) in {Some(SUCCESS), Some(AUTH_REQUIRED)}
    || LastOf(stages, HANDSHAKE) == Some(SUCCESS)
  }

  function Successes(outcomes: seq<ToolOutcome>): (n: nat)
    ensures n <= |outcomes|
    ensures n > 0 <==> exists i :: 0 <= i < |outcomes| && outcomes[i].invocationStatus == INVOKED_OK
  {
    if outcomes == [] then 0
    else
      var last := |outcomes| - 1;
      assert forall i :: 0 <= i < last ==> outcomes[..last][i] == outcomes[i];
      Successes(outcomes[..last]) + if outcomes[last].invocationStatus == INVOKED_OK then 1 else 0
  }

  function Judged(outcomes: seq<ToolOutcome>): (n: nat)
    ensures n <= |outcomes|
  {
    if outcomes == [] then 0
    else
      var last := |outcomes| - 1;
      Judged(outcomes[..last]) + if outcomes[last].semanticValid.Some? then 1 else 0
  }

  function JudgedValid(outcomes: seq<ToolOutcome>): (n: nat)
    ensures n <= Judged(outcomes)
  {
    if outcomes == [] then 0
    else
      var last := |outcomes| - 1;
      JudgedValid(outcomes[..last]) + if outcomes[last].semanticValid == Some(true) then 1 else 0
  }

  function Flag(b: bool): real { if b then 1.0 else 0.0 }

  /** `_build_soft_checks`. */
  function BuildSoftChecks(o: AttemptOutcome): SoftChecks {
    var handshake := LastOf(o.stages, HANDSHAKE);
    var toolsList := LastOf(o.stages, TOOLS_LIST);
    var attempted := o.toolOutcomes != [];
    SoftChecks(
      if Connected(o.stages) then Some(1.0) else if o.kind.SUCCESS? then Some(0.0) else None,
      if handshake.Some? then Some(Flag(handshake == Some(SUCCESS))) else None,
      if toolsList.Some? then Some(Flag(toolsList == Some(SUCCESS) && o.tools != [])) else None,
      if attempted then Some(Successes(o.toolOutcomes) as real / |o.toolOutcomes| as real) else None,
      if attempted && Judged(o.toolOutcomes) > 0
      then Some(JudgedValid(o.toolOutcomes) as real / Judged(o.toolOutcomes) as real) else None,
      if o.malformedGraceful.Some? then Some(Flag(o.malformedGraceful.value)) else None,
      Flag(o.securityFlagged),
      None,
      false,
      !attempted && o.kind.AUTH_REQUIRED?,
      attempted)
  }

  /** What every run yields, whatever it met. */
  predicate WellFormed(o: AttemptOutcome) {
    && |o.toolOutcomes| <= 5
    && (!o.kind.SUCCESS? ==> o == Failed(o.kind, o.stages))
    && (o.kind.SUCCESS? ==>
          LastOf(o.stages, HANDSHAKE) == Some(SUCCESS) && LastOf(o.stages, TOOLS_LIST) == Some(SUCCESS))
  }

  lemma LastOfAppend(stages: seq<StageResult>, more: seq<StageResult>, stage: Stage)
    requires forall i :: 0 <= i < |more| ==> more[i].stage != stage
    ensures LastOf(stages + more, stage) == LastOf(stages, stage)
    decreases |more|
  {
    if more == [] {
      assert stages + more == stages;
    } else {
      var n := |more| - 1;
      assert (stages + more)[..|stages| + n] == stages + more[..n];
      LastOfAppend(stages, more[..n], stage);
    }
  }

  /** Handshake and tool list of a served run survive what is recorded later. */
  lemma ServedStages(stages: seq<StageResult>, more: seq<StageResult>)
    requires |stages| >= 2 && stages[|stages| - 2..] == REMOTE_STAGES
    requires forall i :: 0 <= i < |more| ==> more[i].stage in {MALFORMED_INPUT, SECURITY, TOOL_INVOCATION}
    ensures LastOf(stages + more, HANDSHAKE) == Some(SUCCESS)
    ensures LastOf(stages + more, TOOLS_LIST) == Some(SUCCESS)
  {
    LastOfAppend(stages, more, HANDSHAKE);
    LastOfAppend(stages, more, TOOLS_LIST);
    var n := |stages| - 1;
    assert stages[n] == REMOTE_STAGES[1] && stages[..n][n - 1] == REMOTE_STAGES[0];
  }

  lemma LocalServedWellFormed(run: LocalRun)
    requires run.LocalServed?
    ensures WellFormed(LocalOutcome(run))
  {
    var probed := run.tools != [] && run.tools[0].name != "";
    var more := (if probed then ProbeStage(run.probe) else []) + [StageResult(SECURITY, SUCCESS)];
    var e := LocalExercise(run.tools, run.replies, run.probe, LOCAL_STAGES);
    assert e.stages == LOCAL_STAGES + more;
    ServedStages(LOCAL_STAGES, more);
  }

  lemma RemoteExerciseWellFormed(tools: seq<Tool>, replies: nat -> Reply, probe: Probe, token: bool,
                                 stages: seq<StageResult>, auth: bool)
    requires |stages| >= 2 && stages[|stages| - 2..] == REMOTE_STAGES
    ensures WellFormed(Served(tools, RemoteExercise(tools, replies, probe, token, stages), auth))
  {
    var invocable := FirstFew(Permitted(tools, token));
    var skipped := if tools != [] && invocable == [] then [StageResult(TOOL_INVOCATION, AUTH_REQUIRED)] else [];
    var more := skipped + if tools != [] && !token then ProbeStage(probe) else [];
    assert RemoteExercise(tools, replies, probe, token, stages).stages == stages + more;
    ServedStages(stages, more);
  }

  /** Every run of either transport yields a well-formed outcome: failures
      carry no evidence, at most five tools are invoked, and a served run has
      its handshake and its tool list on record. */
  lemma RunsAreWellFormed(run: Run)
    ensures WellFormed(OutcomeOf(run))
    ensures OutcomeOf(run).authExercised ==> OutcomeOf(run).kind.SUCCESS? && run.Remote?
  {
    match run
    case Local(local) =>
      if local.LocalServed? {
        LocalServedWellFormed(local);
      }
    case Remote(remote) =>
      match remote {
        case RemoteServed(tools, replies, probe, token) =>
          RemoteExerciseWellFormed(tools, replies, probe, token, REMOTE_STAGES, token);
        case AuthDemanded(path) =>
          if path.ReconnectedWith? {
            var stages := [AUTH_STAGE, StageResult(CONNECT, SUCCESS)] + REMOTE_STAGES;
            assert stages[|stages| - 2..] == REMOTE_STAGES;
            RemoteExerciseWellFormed(path.tools, path.replies, path.probe, true, stages, true);
          }
        case _ =>
      }
  }

  // ---- what a verdict says about the run ----------------------------------

  lemma PositiveRatio(k: nat, n: nat)
    requires k <= n && n > 0
    ensures 0.0 <= k as real / n as real <= 1.0
    ensures k as real / n as real > 0.0 <==> k > 0
    ensures k == n ==> k as real / n as real == 1.0
  {
    RatioAtLeast(k, n, 0.0);
    RatioAtLeast(k, n, 1.0);
    if k > 0 {
      assert k as real / n as real > 0.0;
    }
  }

  predicate HandshakeOk(o: AttemptOutcome) { LastOf(o.stages, HANDSHAKE) == Some(SUCCESS) }

  predicate ToolsOk(o: AttemptOutcome) { LastOf(o.stages, TOOLS_LIST) == Some(SUCCESS) && o.tools != [] }

  predicate SemanticsOk(o: AttemptOutcome) { JudgedValid(o.toolOutcomes) > 0 }

  function Count(b: bool): nat { if b then 1 else 0 }

  lemma SemanticCredit(o: AttemptOutcome)
    requires !SemanticsOk(o)
    ensures Credit(BuildSoftChecks(o).semanticValidity, WEIGHT_SEMANTIC) == 0
  {
    if o.toolOutcomes != [] && Judged(o.toolOutcomes) > 0 {
      PositiveRatio(0, Judged(o.toolOutcomes));
      assert BuildSoftChecks(o).semanticValidity == Some(0.0);
    }
  }

  lemma InvocationCredit(o: AttemptOutcome)
    requires Successes(o.toolOutcomes) == 0
    ensures Credit(BuildSoftChecks(o).toolInvocation, WEIGHT_TOOL_INVOCATION) == 0
  {
    if o.toolOutcomes != [] {
      PositiveRatio(0, |o.toolOutcomes|);
      assert BuildSoftChecks(o).toolInvocation == Some(0.0);
    }
  }

  /** A verified verdict, over the checks the pipeline builds from any outcome
      whatever, means the server connected, at least one tool call succeeded,
      and at most one of handshake, tool list and semantics earned nothing. */
  lemma VerifiedRunEvidence(o: AttemptOutcome, confidence: Confidence)
    requires Verdict(BuildSoftChecks(o), confidence) == VERIFIED
    ensures confidence == HIGH
    ensures Connected(o.stages)
    ensures Successes(o.toolOutcomes) > 0
    ensures Count(HandshakeOk(o)) + Count(ToolsOk(o)) + Count(SemanticsOk(o)) >= 2
  {
    var c := BuildSoftChecks(o);
    VerifiedNeeds(c, confidence);
    if Successes(o.toolOutcomes) == 0 {
      InvocationCredit(o);
    }
    if !SemanticsOk(o) {
      SemanticCredit(o);
    }
  }

  /** A run that demanded credentials is never scored as anything but partial. */
  lemma AuthRunIsPartial(o: AttemptOutcome, confidence: Confidence)
    requires WellFormed(o) && o.kind.AUTH_REQUIRED?
    ensures Verdict(BuildSoftChecks(o), confidence) == PARTIAL_VERIFIED
  {
  }

  /** A failed run earns at most 40 points: never verified. */
  lemma FailedRunScoresLow(o: AttemptOutcome)
    requires WellFormed(o) && !o.kind.SUCCESS?
    ensures RawHundredths(BuildSoftChecks(o)) <= 4000
  {
    var c := BuildSoftChecks(o);
    assert Credit(c.toolsListSchema, WEIGHT_TOOLS_LIST) == 0;
  }

  /** A served run; only listed tools are called. */
  predicate ServedRun(o: AttemptOutcome) {
    o.kind.SUCCESS? && WellFormed(o) && (o.tools == [] ==> o.toolOutcomes == [])
  }

  lemma NothingListed(replies: nat -> Reply, transport: Transport, token: bool)
    ensures InvokedAll(FirstFew([]), replies, transport) == []
    ensures InvokedAll(FirstFew(Permitted([], token)), replies, transport) == []
  {
  }

  /** Whatever a run met, if it was served it is of this kind. */
  lemma RunsAreServed(run: Run)
    ensures OutcomeOf(run).kind.SUCCESS? ==> ServedRun(OutcomeOf(run))
  {
    RunsAreWellFormed(run);
    match run
    case Local(LocalServed(tools, replies, _)) => NothingListed(replies, LOCAL, false);
    case Remote(RemoteServed(tools, replies, _, token)) => NothingListed(replies, REMOTE, token);
    case Remote(AuthDemanded(ReconnectedWith(tools, replies, _))) => NothingListed(replies, REMOTE, true);
    case _ =>
  }

  /** One whose probe was graceful and that met no security finding. */
  predicate CleanlyServed(o: AttemptOutcome) {
    ServedRun(o) && o.malformedGraceful == Some(true) && !o.securityFlagged
  }

  /** Off by half of `n` at most. */
  predicate Near(e: int, n: int) {
    -n <= 2 * e <= n
  }

  /** The credit for a share of a weight, without the division. */
  lemma ShareNear(k: nat, n: nat, weight: nat)
    requires k <= n && 0 < n
    ensures Near(Credit(Some(k as real / n as real), weight) * n - 100 * weight * k, n)
  {
    PositiveRatio(k, n);
    assert k as real / n as real * n as real == k as real;
    ShareNearAt(k as real / n as real, k, n, weight);
  }

  lemma ShareNearAt(ratio: real, k: nat, n: nat, weight: nat)
    requires 0.0 <= ratio <= 1.0 && 0 < n && ratio * n as real == k as real
    ensures Near(Credit(Some(ratio), weight) * n - 100 * weight * k, n)
  {
    CreditRounds(ratio, weight);
    hide Credit;
    var credit := Credit(Some(ratio), weight);
    ScaledBounds(credit as real, ratio, (100 * weight) as real, n as real, k as real);
    NearInReals(credit, n, 100 * weight, k);
  }

  lemma CreditRounds(ratio: real, weight: nat)
    requires 0.0 <= ratio <= 1.0
    ensures var credit := Credit(Some(ratio), weight) as real;
            credit - 0.5 <= ratio * (100 * weight) as real <= credit + 0.5
  {
    assert Credit(Some(ratio), weight) == HalfEven(ratio * (100 * weight) as real);
  }

  lemma ScaledBounds(c: real, ratio: real, scale: real, n: real, k: real)
    requires c - 0.5 <= ratio * scale <= c + 0.5 && n > 0.0 && ratio * n == k
    ensures c * n - 0.5 * n <= scale * k <= c * n + 0.5 * n
  {
    var x := ratio * scale;
    ProductNonNegative(x - c + 0.5, n);
    ProductNonNegative(c + 0.5 - x, n);
    assert (x - c + 0.5) * n == x * n - c * n + 0.5 * n && (c + 0.5 - x) * n == c * n + 0.5 * n - x * n;
    ThreeFactors(ratio, scale, n);
  }

  lemma ThreeFactors(a: real, b: real, c: real)
    ensures a * b * c == b * (a * c)
  {
  }

  lemma NearInReals(credit: int, n: nat, scale: nat, k: nat)
    requires credit as real * n as real - 0.5 * n as real <= scale as real * k as real
    requires scale as real * k as real <= credit as real * n as real + 0.5 * n as real
    ensures Near(credit * n - scale * k, n)
  {
    assert (credit * n) as real == credit as real * n as real;
    assert (scale * k) as real == scale as real * k as real;
  }

  /** Enough calls answered, and answered validly: `k` of `n` succeeded, `v` of
      `m` judged ones were valid, and `q` half points are wanted. */
  predicate EnoughCalls(k: nat, n: nat, v: nat, m: nat, q: nat) {
    n > 0 && if m == 0 then 50 * k >= q * n else 50 * (k * m) + 30 * (v * n) >= q * (n * m)
  }

  /** What the calls must bring in, in half points: less after a graceful probe,
      more after a security finding. */
  function Wanted(o: AttemptOutcome): (q: nat)
    ensures q in {39, 49, 59, 69}
  {
    49 - (if o.malformedGraceful == Some(true) then 10 else 0) + if o.securityFlagged then 20 else 0
  }

  /** At five calls and fewer the sum of the two shares is never so close to the
      threshold that rounding could decide. */
  lemma SharesDecide(k: nat, n: nat, v: nat, m: nat, a: int, b: int, q: nat)
    requires 0 < m <= n <= MAX_TOOLS_INVOKED && q in {39, 49, 59, 69}
    requires Near(a * n - 2500 * k, n) && Near(b * m - 1500 * v, m)
    ensures a + b >= 50 * q <==> 50 * (k * m) + 30 * (v * n) >= q * (n * m)
  {
    NoTie(k, n, v, m, q);
    NearScaled(a * n - 2500 * k, n, m);
    NearScaled(b * m - 1500 * v, m, n);
    Distribute(k, n, v, m, a, b, q);
    PositiveProduct(n, m);
    SignOf(a + b - 50 * q, n * m, 50 * (k * m) + 30 * (v * n) - q * (n * m),
           (a * n - 2500 * k) * m, (b * m - 1500 * v) * n);
  }

  lemma Distribute(k: int, n: int, v: int, m: int, a: int, b: int, q: int)
    ensures (a + b - 50 * q) * (n * m)
            == 50 * (50 * (k * m) + 30 * (v * n) - q * (n * m)) + (a * n - 2500 * k) * m + (b * m - 1500 * v) * n
  {
  }

  lemma NearScaled(e: int, n: int, m: int)
    requires Near(e, n) && 0 <= m
    ensures Near(e * m, n * m)
  {
    assert (n - 2 * e) * m >= 0 && (n + 2 * e) * m >= 0;
    assert (n - 2 * e) * m == n * m - 2 * (e * m) && (n + 2 * e) * m == n * m + 2 * (e * m);
  }

  lemma PositiveProduct(n: int, m: int)
    requires 0 < n <= MAX_TOOLS_INVOKED && 0 < m <= MAX_TOOLS_INVOKED
    ensures 0 < n * m <= 25
  {
    assert (n - 1) * m >= 0 && (5 - n) * m >= 0;
  }

  lemma SignOf(t: int, p: int, d: int, x: int, y: int)
    requires 0 < p <= 25 && t * p == 50 * d + x + y && d != 0 && Near(x, p) && Near(y, p)
    ensures t >= 0 <==> d >= 0
  {
    if t >= 0 {
      assert t * p >= 0;
    } else {
      assert (-1 - t) * p >= 0;
    }
  }

  lemma NoTie(k: nat, n: nat, v: nat, m: nat, q: nat)
    requires 0 < m <= n <= MAX_TOOLS_INVOKED && q in {39, 49, 59, 69}
    ensures 50 * (k * m) + 30 * (v * n) != q * (n * m)
  {
    if 50 * (k * m) + 30 * (v * n) == q * (n * m) {
      TensOnly(n * m, q, 5 * (k * m) + 3 * (v * n));
      FiveByEven(n, m);
      if m == 2 {
        NoTieAt(k, v, 2, q);
      } else {
        NoTieAt(k, v, 4, q);
      }
    }
  }

  lemma TensOnly(p: nat, q: nat, t: nat)
    requires q * p == 10 * t && q in {39, 49, 59, 69}
    ensures p % 10 == 0
  {
    if q == 39 {} else if q == 49 {} else if q == 59 {} else {}
  }

  lemma FiveByEven(n: nat, m: nat)
    requires 0 < m <= n <= MAX_TOOLS_INVOKED && n * m % 10 == 0
    ensures n == 5 && (m == 2 || m == 4)
  {
    if m == 1 {} else if m == 2 {} else if m == 3 {} else if m == 4 {} else {}
  }

  lemma NoTieAt(k: nat, v: nat, m: nat, q: nat)
    requires (m == 2 || m == 4) && q in {39, 49, 59, 69}
    ensures 50 * (k * m) + 30 * (v * 5) != q * (5 * m)
  {
    if m == 2 {
      NoMultipleOfFive(2 * k + 3 * v, q);
    } else {
      NoMultipleOfFive(4 * k + 3 * v, 2 * q);
    }
  }

  lemma NoMultipleOfFive(u: nat, r: nat)
    requires r in {39, 49, 59, 69, 78, 98, 118, 138}
    ensures 5 * u != r
  {
    assert r % 5 != 0;
  }

  /** Every served run, of either transport, with or without credentials and
      whatever the probe came to: it reaches 79.50 points, and is verified at
      full confidence, exactly when enough of its calls succeeded and were
      judged valid; calls that raise are not judged. */
  lemma CallsDecideIff(o: AttemptOutcome)
    requires ServedRun(o)
    ensures var enough := EnoughCalls(Successes(o.toolOutcomes), |o.toolOutcomes|,
                                      JudgedValid(o.toolOutcomes), Judged(o.toolOutcomes), Wanted(o));
            && (RawHundredths(BuildSoftChecks(o)) >= 7950 <==> enough)
            && (Verdict(BuildSoftChecks(o), HIGH) == VERIFIED <==> enough)
  {
    var c := BuildSoftChecks(o);
    var k, n, v, m := Successes(o.toolOutcomes), |o.toolOutcomes|, JudgedValid(o.toolOutcomes), Judged(o.toolOutcomes);
    var a := Credit(c.toolInvocation, WEIGHT_TOOL_INVOCATION);
    if n > 0 {
      ShareNear(k, n, WEIGHT_TOOL_INVOCATION);
      if m > 0 {
        ShareNear(v, m, WEIGHT_SEMANTIC);
        SharesDecide(k, n, v, m, a, Credit(c.semanticValidity, WEIGHT_SEMANTIC), Wanted(o));
      } else {
        InvocationAlone(k, n, a, Wanted(o));
      }
    }
    ServedCredit(o);
    hide Credit, HalfEven, Share, RawHundredths, BuildSoftChecks;
    VerdictTable(c, HIGH);
  }

  lemma InvocationAlone(k: nat, n: nat, a: int, q: nat)
    requires 0 < n <= MAX_TOOLS_INVOKED && Near(a * n - 2500 * k, n) && q in {39, 49, 59, 69}
    ensures a >= 50 * q <==> 50 * k >= q * n
  {
    if n == 1 {} else if n == 2 {} else if n == 3 {} else if n == 4 {} else {}
  }

  /** The points of a served run besides its calls. */
  lemma ServedCredit(o: AttemptOutcome)
    requires ServedRun(o)
    ensures var c := BuildSoftChecks(o);
            && !c.hardFail && !c.authBlocked
            && (o.toolOutcomes == [] ==> RawHundredths(c) <= 6000)
            && (o.toolOutcomes != [] ==>
                  RawHundredths(c) == 7950 - 50 * Wanted(o) + Credit(c.toolInvocation, WEIGHT_TOOL_INVOCATION)
                                           + Credit(c.semanticValidity, WEIGHT_SEMANTIC))
  {
    HalfEvenOfInt(1000);
    assert SecurityDeduction(1.0) == 1000 && SecurityDeduction(0.0) == 0;
    assert Connected(o.stages);
    hide HalfEven;
  }

  /** When every failed call came back as an error result and every answer was
      judged valid, half of the calls decide. */
  lemma HalfDecides(o: AttemptOutcome)
    requires CleanlyServed(o)
    requires Judged(o.toolOutcomes) == |o.toolOutcomes| && JudgedValid(o.toolOutcomes) == Successes(o.toolOutcomes)
    ensures Verdict(BuildSoftChecks(o), HIGH) == VERIFIED <==>
            o.toolOutcomes != [] && 2 * Successes(o.toolOutcomes) >= |o.toolOutcomes|
  {
    var k, n := Successes(o.toolOutcomes), |o.toolOutcomes|;
    CallsDecideIff(o);
    if n > 0 {
      HalfOf(k, n);
    }
  }

  lemma HalfOf(k: nat, n: nat)
    requires 0 < n <= MAX_TOOLS_INVOKED
    ensures 50 * (k * n) + 30 * (k * n) >= 39 * (n * n) <==> 2 * k >= n
  {
    if 2 * k >= n {
      assert (80 * k - 39 * n) * n >= 0;
    } else {
      assert (39 * n - 80 * k) * n > 0;
    }
  }

  lemma AnyOf(k: nat, n: nat)
    requires 0 < k && n <= MAX_TOOLS_INVOKED
    ensures 50 * (k * k) + 30 * (k * n) >= 39 * (n * k)
  {
    assert k * (50 * k - 9 * n) >= 0;
    assert k * (50 * k - 9 * n) == 50 * (k * k) - 9 * (k * n);
  }

  /** When instead the failed calls raised in the client, one answer that was
      judged valid is enough, out of any number up to five. */
  lemma OneSuccessDecides(o: AttemptOutcome)
    requires CleanlyServed(o)
    requires Judged(o.toolOutcomes) == JudgedValid(o.toolOutcomes) == Successes(o.toolOutcomes)
    ensures Verdict(BuildSoftChecks(o), HIGH) == VERIFIED <==> Successes(o.toolOutcomes) > 0
  {
    var k, n := Successes(o.toolOutcomes), |o.toolOutcomes|;
    CallsDecideIff(o);
    hide CleanlyServed, BuildSoftChecks, Judged, JudgedValid, Verdict;
    if k > 0 {
      AnyOf(k, n);
    }
  }
}
