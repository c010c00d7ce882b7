/** The evidence a coding task collects and the deterministic gate that judges it. */
module CompletionGate {
  import opened Wrappers
  import opened Text

  type Path = string

  datatype Check = Tests | Ruff

  /** What a verifier run reported: its verdict and the scope it actually covered. */
  datatype CheckOutput = CheckOutput(passed: bool, paths: seq<Path>)

  /** The latest evidence for one check; at most one of result and error is present. */
  datatype Evidence = Evidence(result: Option<CheckOutput>, revision: Option<nat>, error: Option<string>)

  datatype Policy = Policy(
    requireTests: bool, testPaths: seq<Path>,
    requireRuff: bool, ruffPaths: seq<Path>,
    requireFinalStatus: bool, requireFinalDiff: bool)
  {
    function Scope(check: Check): seq<Path> {
      if check.Tests? then testPaths else ruffPaths
    }

    predicate Requires(check: Check) {
      if check.Tests? then requireTests else requireRuff
    }
  }

  datatype GitFile = GitFile(path: Path, status: string)

  datatype GitStatus = GitStatus(changedFiles: seq<GitFile>, clean: bool, truncated: bool)

  datatype GitDiff = GitDiff(content: string, truncated: bool)

  datatype FinalReview = FinalReview(
    workspaceRevision: nat,
    gitStatus: GitStatus,
    unstagedDiff: Option<GitDiff>, unstagedError: Option<string>,
    stagedDiff: Option<GitDiff>, stagedError: Option<string>,
    changedFiles: set<Path>, workflowChangedFiles: set<Path>, unexpectedFiles: set<Path>,
    diffTruncated: bool)

  datatype Verdict = Approve | ChangesRequired

  datatype CriterionStatus = Satisfied | NotSatisfied | Uncertain

  datatype CriterionReview = CriterionReview(index: nat, status: CriterionStatus)

  datatype CodingReview = CodingReview(
    verdict: Verdict, workspaceRevision: nat,
    acceptanceResults: seq<CriterionReview>, requiredCorrections: seq<string>)

  datatype VerificationReport = VerificationReport(tests: Evidence, ruff: Evidence, currentRevision: nat)
  {
    function Slot(check: Check): Evidence {
      if check.Tests? then tests else ruff
    }

    /** The summary flag that accompanies a slot's result. */
    function PassedFlag(check: Check): Option<bool> {
      if Slot(check).result.Some? then Some(Slot(check).result.value.passed) else None
    }
  }

  /** What the report model rejects: two outcomes at once, or an outcome without a revision. */
  predicate EvidenceValid(e: Evidence) {
    && !(e.result.Some? && e.error.Some?)
    && (e.result.Some? || e.error.Some? <==> e.revision.Some?)
  }

  predicate AllSatisfied(review: CodingReview) {
    forall i :: 0 <= i < |review.acceptanceResults| ==> review.acceptanceResults[i].status.Satisfied?
  }

  predicate VerdictConsistent(review: CodingReview) {
    && (forall i, k :: 0 <= i < k < |review.acceptanceResults| ==>
          review.acceptanceResults[i].index != review.acceptanceResults[k].index)
    && (review.verdict.Approve? ==> AllSatisfied(review) && review.requiredCorrections == [])
    && (review.verdict.ChangesRequired? ==> review.requiredCorrections != [] || !AllSatisfied(review))
  }

  predicate Judges(review: CodingReview, criterion: nat) {
    exists i :: 0 <= i < |review.acceptanceResults| && review.acceptanceResults[i].index == criterion
  }

  predicate ValidForTask(review: CodingReview, criteria: nat, revision: nat) {
    && (forall i :: 0 <= i < |review.acceptanceResults| ==> review.acceptanceResults[i].index < criteria)
    && (forall criterion :: 0 <= criterion < criteria ==> Judges(review, criterion))
    && review.workspaceRevision == revision
  }

  datatype Blocker =
    | NotRequested
    | CheckNotExecuted(check: Check, message: string)
    | CheckNotPassed(check: Check)
    | CheckWrongScope(check: Check)
    | CheckStale(check: Check)
    | ReviewUnavailable
    | ReviewStale
    | UnstagedDiffMissing
    | UnstagedDiffFailed
    | StagedDiffFailed
    | DiffEmpty
    | StatusTruncated
    | UnexpectedFiles
    | StatusNotInspected
    | CodingReviewMissing
    | CodingReviewStale
    | CodingReviewRejects
    | ReviewContextTooLarge
    | CodingReviewFailed
    | PreflightFailed
    | PlanningFailed
    | AgentFailed
    | IterationLimit

  function CheckBlockers(report: VerificationReport, policy: Policy, revision: nat, check: Check): seq<Blocker> {
    var slot := report.Slot(check);
    if !policy.Requires(check) then []
    else if slot.error.Some? then [CheckNotExecuted(check, slot.error.value)]
    else if slot.result.None? || !slot.result.value.passed || report.PassedFlag(check) != Some(true)
    then [CheckNotPassed(check)]
    else if slot.result.value.paths != policy.Scope(check) then [CheckWrongScope(check)]
    else if slot.revision != Some(revision) then [CheckStale(check)]
    else []
  }

  function VerificationBlockers(report: VerificationReport, policy: Policy, revision: nat): seq<Blocker> {
    CheckBlockers(report, policy, revision, Tests) + CheckBlockers(report, policy, revision, Ruff)
  }

  predicate ShowsChange(diff: Option<GitDiff>) {
    diff.Some? && !Blank(diff.value.content)
  }

  predicate MissingChangeEvidence(review: FinalReview, policy: Policy) {
    && policy.requireFinalDiff && review.workflowChangedFiles != {}
    && review.unstagedError.None? && review.stagedError.None?
    && !ShowsChange(review.unstagedDiff) && !ShowsChange(review.stagedDiff)
  }

  function Listed(condition: bool, blocker: Blocker): seq<Blocker> {
    if condition then [blocker] else []
  }

  function ReviewBlockers(review: Option<FinalReview>, policy: Policy, revision: nat): seq<Blocker> {
    match review
    case None => Listed(policy.requireFinalStatus || policy.requireFinalDiff, ReviewUnavailable)
    case Some(r) =>
      Listed(r.workspaceRevision != revision, ReviewStale)
      + Listed(policy.requireFinalDiff && r.unstagedDiff.None?, UnstagedDiffMissing)
      + Listed(policy.requireFinalDiff && r.unstagedError.Some?, UnstagedDiffFailed)
      + Listed(policy.requireFinalDiff && r.stagedError.Some?, StagedDiffFailed)
      + Listed(MissingChangeEvidence(r, policy), DiffEmpty)
      + Listed(r.gitStatus.truncated, StatusTruncated)
      + Listed(r.unexpectedFiles != {}, UnexpectedFiles)
  }

  function IndependentReviewBlockers(review: Option<CodingReview>, revision: nat): seq<Blocker> {
    if review.None? then [CodingReviewMissing]
    else if review.value.workspaceRevision != revision then [CodingReviewStale]
    else if review.value.verdict.ChangesRequired? then [CodingReviewRejects]
    else []
  }

  function CompletionBlockers(requested: bool, revision: nat, report: VerificationReport,
                              finalReview: Option<FinalReview>, review: Option<CodingReview>,
                              policy: Policy, requireReview: bool): seq<Blocker>
  {
    Listed(!requested, NotRequested)
    + VerificationBlockers(report, policy, revision)
    + ReviewBlockers(finalReview, policy, revision)
    + (if requireReview then IndependentReviewBlockers(review, revision) else [])
  }

  /** What a passing check means: a fresh pass of exactly the required scope. */
  predicate CheckFresh(report: VerificationReport, policy: Policy, revision: nat, check: Check) {
    var slot := report.Slot(check);
    && slot.error.None? && slot.revision == Some(revision)
    && slot.result == Some(CheckOutput(true, policy.Scope(check)))
  }

  /** What an acceptable Git review means. */
  predicate GitReviewAcceptable(review: Option<FinalReview>, policy: Policy, revision: nat) {
    if review.None? then !policy.requireFinalStatus && !policy.requireFinalDiff
    else
      var r := review.value;
      && r.workspaceRevision == revision
      && !r.gitStatus.truncated
      && r.unexpectedFiles == {}
      && (policy.requireFinalDiff ==>
            && r.unstagedDiff.Some? && r.unstagedError.None? && r.stagedError.None?
            && (r.workflowChangedFiles != {} ==> ShowsChange(r.unstagedDiff) || ShowsChange(r.stagedDiff)))
  }

  /** The gate is open exactly when every required piece of evidence is fresh and complete. */
  lemma GateOpensExactlyOnFreshEvidence(requested: bool, revision: nat, report: VerificationReport,
                                        finalReview: Option<FinalReview>, review: Option<CodingReview>,
                                        policy: Policy, requireReview: bool)
    ensures CompletionBlockers(requested, revision, report, finalReview, review, policy, requireReview) == []
       <==> && requested
            && (forall check :: policy.Requires(check) ==> CheckFresh(report, policy, revision, check))
            && GitReviewAcceptable(finalReview, policy, revision)
            && (requireReview ==> review.Some? && review.value.workspaceRevision == revision
                                  && review.value.verdict.Approve?)
  {
    CheckOpens(report, policy, revision, Tests);
    CheckOpens(report, policy, revision, Ruff);
    GitReviewOpens(finalReview, policy, revision);
  }

  lemma CheckOpens(report: VerificationReport, policy: Policy, revision: nat, check: Check)
    ensures CheckBlockers(report, policy, revision, check) == []
       <==> (policy.Requires(check) ==> CheckFresh(report, policy, revision, check))
  {
    var slot := report.Slot(check);
    assert slot.result.Some? ==> slot.result.value == CheckOutput(slot.result.value.passed, slot.result.value.paths);
  }

  lemma GitReviewOpens(review: Option<FinalReview>, policy: Policy, revision: nat)
    ensures ReviewBlockers(review, policy, revision) == [] <==> GitReviewAcceptable(review, policy, revision)
  {
  }

  // ----------------------------------------------------------- the trace's view of the gate

  datatype TraceCode =
    | CheckExecutionFailed(check: Check)
    | CheckFailed(check: Check)
    | CheckScope(check: Check)
    | CheckStaleCode(check: Check)
    | ReviewUnavailableCode
    | ReviewStaleCode
    | UnexpectedFilesCode
    | StatusTruncatedCode
    | DiffUnavailableCode
    | DiffEmptyCode

  function CodeIf(condition: bool, code: TraceCode): seq<TraceCode> {
    if condition then [code] else []
  }

  function CheckCodes(report: VerificationReport, policy: Policy, revision: nat, check: Check): seq<TraceCode> {
    var slot := report.Slot(check);
    if !policy.Requires(check) then []
    else if slot.error.Some? then [CheckExecutionFailed(check)]
    else if slot.result.None? || !slot.result.value.passed then [CheckFailed(check)]
    else if slot.result.value.paths != policy.Scope(check) then [CheckScope(check)]
    else if slot.revision != Some(revision) then [CheckStaleCode(check)]
    else []
  }

  /** An error message counts as present here only when it is a non-empty string. */
  predicate Truthy(message: Option<string>) {
    message.Some? && message.value != ""
  }

  function TraceBlockerCodes(report: VerificationReport, review: Option<FinalReview>, policy: Policy,
                             revision: nat): seq<TraceCode>
  {
    CheckCodes(report, policy, revision, Tests) + CheckCodes(report, policy, revision, Ruff)
    + ReviewCodes(review, policy, revision)
  }

  function ReviewCodes(review: Option<FinalReview>, policy: Policy, revision: nat): seq<TraceCode> {
    match review
    case None => CodeIf(policy.requireFinalStatus || policy.requireFinalDiff, ReviewUnavailableCode)
    case Some(r) =>
      CodeIf(r.workspaceRevision != revision, ReviewStaleCode)
      + CodeIf(r.unexpectedFiles != {}, UnexpectedFilesCode)
      + CodeIf(r.gitStatus.truncated, StatusTruncatedCode)
      + (if policy.requireFinalDiff && (r.unstagedDiff.None? || Truthy(r.unstagedError) || Truthy(r.stagedError))
         then [DiffUnavailableCode]
         else CodeIf(MissingChangeEvidence(r, policy), DiffEmptyCode))
  }

  /** The only error a trace can hide is a Git diff failure whose message is the empty string. */
  predicate HidesDiffFailure(review: Option<FinalReview>, policy: Policy) {
    && review.Some? && policy.requireFinalDiff && review.value.unstagedDiff.Some?
    && !Truthy(review.value.unstagedError) && !Truthy(review.value.stagedError)
    && (review.value.unstagedError == Some("") || review.value.stagedError == Some(""))
  }

  /** When a trace without codes belongs to a blocked gate. */
  lemma TraceMatchesGateExactly(report: VerificationReport, review: Option<FinalReview>, policy: Policy,
                                revision: nat)
    ensures TraceBlockerCodes(report, review, policy, revision) == []
       <==> || CompletionBlockers(true, revision, report, review, None, policy, false) == []
            || (HidesDiffFailure(review, policy)
                && VerificationBlockers(report, policy, revision) == []
                && review.value.workspaceRevision == revision
                && !review.value.gitStatus.truncated && review.value.unexpectedFiles == {})
  {
    CheckCodesMatch(report, policy, revision, Tests);
    CheckCodesMatch(report, policy, revision, Ruff);
    ReviewCodesMatch(review, policy, revision);
  }

  /** What the Git tools guarantee: a failed diff says why. */
  predicate DiffErrorsHaveMessages(review: Option<FinalReview>) {
    review.Some? ==> review.value.unstagedError != Some("") && review.value.stagedError != Some("")
  }

  /** With the registered Git tools a trace has no code exactly when the deterministic gate is open. */
  lemma TraceShowsEveryBlockedGate(report: VerificationReport, review: Option<FinalReview>, policy: Policy,
                                   revision: nat)
    requires DiffErrorsHaveMessages(review)
    ensures TraceBlockerCodes(report, review, policy, revision) == []
       <==> CompletionBlockers(true, revision, report, review, None, policy, false) == []
  {
    TraceMatchesGateExactly(report, review, policy, revision);
  }

  /** A registry whose staged diff fails without a message blocks the gate and shows no code. */
  lemma SilentDiffFailureExample()
    returns (report: VerificationReport, review: FinalReview, policy: Policy)
    ensures review.gitStatus.changedFiles == [GitFile("a.py", "M ")] && review.stagedError == Some("")
    ensures TraceBlockerCodes(report, Some(review), policy, 0) == []
    ensures CompletionBlockers(true, 0, report, Some(review), None, policy, false) == [StagedDiffFailed]
  {
    policy := Policy(false, [], false, [], true, true);
    report := VerificationReport(Evidence(None, None, None), Evidence(None, None, None), 0);
    review := FinalReview(0, GitStatus([GitFile("a.py", "M ")], false, false), Some(GitDiff("", false)), None,
                          None, Some(""), {"a.py"}, {}, {}, false);
  }

  lemma CheckCodesMatch(report: VerificationReport, policy: Policy, revision: nat, check: Check)
    ensures CheckCodes(report, policy, revision, check) == [] <==> CheckBlockers(report, policy, revision, check) == []
  {
  }

  lemma ReviewCodesMatch(review: Option<FinalReview>, policy: Policy, revision: nat)
    ensures ReviewCodes(review, policy, revision) == [] <==>
              || ReviewBlockers(review, policy, revision) == []
              || (HidesDiffFailure(review, policy) && review.value.workspaceRevision == revision
                  && !review.value.gitStatus.truncated && review.value.unexpectedFiles == {})
  {
    GitReviewOpens(review, policy, revision);
  }
}
