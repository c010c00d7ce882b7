/** The coding workflow around the editing agent. The language models and the tools are
    adversaries: every answer they give is an arbitrary value. */
module CodingWorkflow {
  import opened Wrappers
  import opened Text
  import opened CodingHistory
  import opened CompletionGate

  // ------------------------------------------------------------------------------ the outside

  datatype Observation =
    | Changed(path: Option<Path>)
    | Checked(output: CheckOutput)
    | Returned
    | Failed(error: string)

  function RequestedScope(call: ToolCall, default: seq<Path>): seq<Path> {
    match call.paths
    case Absent => default
    case Given(paths) => paths
    case Malformed => []
  }

  const DEFAULT_TEST_SCOPE: seq<Path> := ["tests"]
  const DEFAULT_RUFF_SCOPE: seq<Path> := ["."]

  ghost function EventOf(call: ToolCall, r: Observation): Event {
    match call.tool
    case CreateFile => if r.Changed? then Mutated(call, r.path) else OtherTool(call, ErrorOf(r))
    case ReplaceText => if r.Changed? then Mutated(call, r.path) else OtherTool(call, ErrorOf(r))
    case RunTests => CheckRun(Tests, RequestedScope(call, DEFAULT_TEST_SCOPE), OutcomeSeen(r), Some(call))
    case RunRuff => CheckRun(Ruff, RequestedScope(call, DEFAULT_RUFF_SCOPE), OutcomeSeen(r), Some(call))
    case NamedTool(_) => OtherTool(call, ErrorOf(r))
  }

  function ErrorOf(r: Observation): Option<string> {
    if r.Failed? then Some(r.error) else None
  }

  function OutcomeSeen(r: Observation): Result<CheckOutput, string> {
    if r.Checked? then Success(r.output) else Failure(if r.Failed? then r.error else "")
  }

  /** Tool registry, Git, models and job store. Each may answer anything, and what it answers is
      entered in the history. */
  class Outside {
    ghost var log: seq<Event>

    constructor ()
      ensures log == []
    {
      log := [];
    }

    method RunCheck(check: Check, scope: seq<Path>) returns (r: Result<CheckOutput, string>)
      modifies this
      ensures log == old(log) + [CheckRun(check, scope, r, None)]
    {
      r := *;
      log := log + [CheckRun(check, scope, r, None)];
    }

    method ReadStatus() returns (r: Result<GitStatus, string>)
      modifies this
      ensures log == old(log) + [StatusRead(r)]
    {
      r := *;
      log := log + [StatusRead(r)];
    }

    method ReadDiff(staged: bool) returns (r: Result<GitDiff, string>)
      modifies this
      ensures log == old(log) + [DiffRead(staged, r)]
    {
      r := *;
      log := log + [DiffRead(staged, r)];
    }

    method Review(text: string) returns (answer: Option<CodingReview>)
      modifies this
      ensures log == old(log) + [Reviewed(text, answer)]
    {
      answer := *;
      log := log + [Reviewed(text, answer)];
    }

    method Plan() returns (success: bool)
      modifies this
      ensures log == old(log) + [Planned(success)]
    {
      success := *;
      log := log + [Planned(success)];
    }

    method Decide() returns (decision: Option<Decision>)
      modifies this
      ensures log == old(log) + [Decided(decision)]
    {
      decision := *;
      log := log + [Decided(decision)];
    }

    method Mark() returns (accepted: bool)
      modifies this
      ensures log == old(log) + [Marked(accepted)]
    {
      accepted := *;
      log := log + [Marked(accepted)];
    }

    /** A checkpoint raises only while no side effect is marked; see the token's own contract. */
    method Checkpoint(marked: bool) returns (raised: bool)
      modifies this
      ensures raised ==> !marked
      ensures log == if raised then old(log) + [CancelRaised] else old(log)
    {
      raised := *;
      raised := raised && !marked;
      if raised {
        log := log + [CancelRaised];
      }
    }

    method Execute(call: ToolCall) returns (r: Observation)
      modifies this
      ensures log == old(log) + [EventOf(call, r)] && Answers(call, r)
    {
      r := *;
      match call.tool {
        case CreateFile | ReplaceText => if !r.Changed? && !r.Failed? { r := Failed("tool failed"); }
        case RunTests | RunRuff => if !r.Checked? && !r.Failed? { r := Failed("tool failed"); }
        case NamedTool(_) => if !r.Returned? && !r.Failed? { r := Returned; }
      }
      log := log + [EventOf(call, r)];
    }
  }

  /** What kind of tool an observation can come from. */
  predicate Answers(call: ToolCall, r: Observation) {
    && (r.Changed? ==> call.IsMutation())
    && (r.Checked? ==> call.tool.RunTests? || call.tool.RunRuff?)
    && (r.Returned? ==> call.tool.NamedTool?)
  }

  lemma ExecutionIsCounted(log: seq<Event>, call: ToolCall, r: Observation)
    requires r.Changed? ==> call.IsMutation()
    ensures var log' := log + [EventOf(call, r)];
            && Mutations(log') == Mutations(log) + (if r.Changed? then 1 else 0)
            && AgentCalls(log') == AgentCalls(log) + 1
            && (forall other, revision :: CallsAt(log', other, revision) == CallsAt(log, other, revision)
                                         + if other == call && revision == Mutations(log) then 1 else 0)
            && ReviewNow(log') == if r.Changed? then None else ReviewNow(log)
  {
    Extended(log, EventOf(call, r));
  }

  // -------------------------------------------------------------- evidence against the history

  /** A slot's result is the outcome of the last run of that check over the policy scope. */
  ghost predicate SlotOk(slot: Evidence, log: seq<Event>, check: Check, scope: seq<Path>) {
    && EvidenceValid(slot)
    && (slot.revision.Some? ==> slot.revision.value <= Mutations(log))
    && (slot.result.Some? ==>
          LastRun(log, check, scope) == Some((Success(slot.result.value), slot.revision.value)))
  }

  function OutcomeOf(slot: Evidence): Result<CheckOutput, string> {
    if slot.result.Some? then Success(slot.result.value)
    else Failure(if slot.error.Some? then slot.error.value else "")
  }

  /** A slot holds the outcome of the last run, which saw the current revision. */
  ghost predicate SlotReports(slot: Evidence, log: seq<Event>, check: Check, scope: seq<Path>) {
    && EvidenceValid(slot) && slot.revision == Some(Mutations(log))
    && LastRun(log, check, scope) == Some((OutcomeOf(slot), Mutations(log)))
  }

  ghost predicate DiffReports(diff: Option<GitDiff>, error: Option<string>, log: seq<Event>, staged: bool) {
    && (diff.Some? <==> error.None?)
    && LastDiff(log, staged) == Some((if diff.Some? then Success(diff.value) else Failure(error.value), Mutations(log)))
  }

  /** A captured review reports the Git readings of the current revision, path by path. */
  ghost predicate ReviewReports(r: FinalReview, log: seq<Event>, baseline: GitStatus, policy: Policy) {
    && LastStatus(log) == Some((Success(r.gitStatus), Mutations(log))) && r.workspaceRevision == Mutations(log)
    && (forall p :: p in r.changedFiles <==> IsListed(r.gitStatus, p))
    && (forall p :: p in r.workflowChangedFiles <==> p in MutatedPaths(log) && IsListed(r.gitStatus, p))
    && (forall p :: p in r.unexpectedFiles
                    <==> IsListed(r.gitStatus, p) && p !in MutatedPaths(log) && !IsListed(baseline, p))
    && (r.diffTruncated <==> Cut(r.unstagedDiff) || Cut(r.stagedDiff))
    && (if policy.requireFinalDiff then DiffReports(r.unstagedDiff, r.unstagedError, log, false)
        else r.unstagedDiff.None? && r.unstagedError.None?)
    && (if policy.requireFinalDiff && HasStaged(r.gitStatus) then DiffReports(r.stagedDiff, r.stagedError, log, true)
        else r.stagedDiff.None? && r.stagedError.None?)
  }

  lemma ReviewShowsNow(r: FinalReview, log: seq<Event>, baseline: GitStatus, policy: Policy)
    requires ReviewReports(r, log, baseline, policy)
    ensures StatusNow(log) == Some(r.gitStatus)
    ensures r.unstagedDiff == UnstagedNow(log, policy) && r.stagedDiff == StagedNow(log, policy)
    ensures policy.requireFinalDiff ==> (r.unstagedError.Some? <==> UnstagedNow(log, policy).None?)
    ensures policy.requireFinalDiff && HasStaged(r.gitStatus) ==>
              (r.stagedError.Some? <==> StagedNow(log, policy).None?)
  {
  }

  /** The deterministic gate over a report and a review that agree with the history is open exactly
      when the evidence in the history is complete. */
  lemma GateOpensOnEvidence(log: seq<Event>, policy: Policy, baseline: GitStatus, report: VerificationReport,
                            r: FinalReview)
    requires policy.requireTests ==> SlotReports(report.tests, log, Tests, policy.testPaths)
    requires policy.requireRuff ==> SlotReports(report.ruff, log, Ruff, policy.ruffPaths)
    requires ReviewReports(r, log, baseline, policy)
    ensures CompletionBlockers(true, Mutations(log), report, Some(r), None, policy, false) == []
       <==> EvidenceComplete(log, policy, baseline)
  {
    hide ReviewReports, LastRun, Mutations, MutatedPaths, IsListed, CompletionBlockers, CheckFresh;
    GateOpensExactlyOnFreshEvidence(true, Mutations(log), report, Some(r), None, policy, false);
    BothChecks(report, policy, Mutations(log));
    FreshIsPassedNow(log, policy, report, Tests);
    FreshIsPassedNow(log, policy, report, Ruff);
    GitReviewIsComplete(log, policy, baseline, r);
  }

  lemma BothChecks(report: VerificationReport, policy: Policy, revision: nat)
    ensures (forall check :: policy.Requires(check) ==> CheckFresh(report, policy, revision, check))
       <==> && (policy.requireTests ==> CheckFresh(report, policy, revision, Tests))
            && (policy.requireRuff ==> CheckFresh(report, policy, revision, Ruff))
  {
    hide CheckFresh;
    assert policy.Requires(Tests) == policy.requireTests && policy.Requires(Ruff) == policy.requireRuff;
    forall check: Check | policy.requireTests ==> CheckFresh(report, policy, revision, Tests)
      ensures check.Tests? && policy.Requires(check) ==> CheckFresh(report, policy, revision, check)
    {
      assert check.Tests? ==> check == Tests;
    }
    forall check: Check | policy.requireRuff ==> CheckFresh(report, policy, revision, Ruff)
      ensures check.Ruff? && policy.Requires(check) ==> CheckFresh(report, policy, revision, check)
    {
      assert check.Ruff? ==> check == Ruff;
    }
  }

  lemma FreshIsPassedNow(log: seq<Event>, policy: Policy, report: VerificationReport, check: Check)
    requires policy.Requires(check) ==> SlotReports(report.Slot(check), log, check, policy.Scope(check))
    ensures policy.Requires(check) ==>
              (CheckFresh(report, policy, Mutations(log), check) <==> PassedNow(log, check, policy.Scope(check)))
  {
    hide LastRun, Mutations;
  }

  lemma GitReviewIsComplete(log: seq<Event>, policy: Policy, baseline: GitStatus, r: FinalReview)
    requires ReviewReports(r, log, baseline, policy)
    ensures GitReviewAcceptable(Some(r), policy, Mutations(log))
       <==> && !r.gitStatus.truncated
            && (forall p :: IsListed(r.gitStatus, p) ==> p in MutatedPaths(log) || IsListed(baseline, p))
            && (policy.requireFinalDiff ==>
                  && UnstagedNow(log, policy).Some? && (HasStaged(r.gitStatus) ==> StagedNow(log, policy).Some?)
                  && ((exists p :: p in MutatedPaths(log) && IsListed(r.gitStatus, p)) ==>
                        HasText(UnstagedNow(log, policy)) || HasText(StagedNow(log, policy))))
    ensures StatusNow(log) == Some(r.gitStatus)
  {
    hide LastRun, Mutations, MutatedPaths, IsListed, UnstagedNow, StagedNow, HasStaged;
    ReviewShowsNow(r, log, baseline, policy);
    ShownHasText(r.unstagedDiff);
    ShownHasText(r.stagedDiff);
    assert r.unexpectedFiles == {} <==>
             forall p :: IsListed(r.gitStatus, p) ==> p in MutatedPaths(log) || IsListed(baseline, p) by {
      if r.unexpectedFiles != {} {
        var p :| p in r.unexpectedFiles;
      }
    }
    assert r.workflowChangedFiles != {} <==> exists p :: p in MutatedPaths(log) && IsListed(r.gitStatus, p) by {
      if r.workflowChangedFiles != {} {
        var p :| p in r.workflowChangedFiles;
      }
    }
  }

  lemma ShownHasText(diff: Option<GitDiff>)
    ensures ShowsChange(diff) <==> HasText(diff)
  {
  }

  // --------------------------------------------------------------------------- what a run is

  datatype Config = Config(
    maxIterations: nat, maxMutations: nat, maxCompletionAttempts: nat,
    maxReviewDiffChars: nat, requireCleanWorktree: bool)

  /** `baseline` is the Git status before the agent starts. */
  datatype Task = Task(policy: Policy, config: Config, criteria: nat, baseline: GitStatus)

  ghost predicate Earned(task: Task, log: seq<Event>) {
    CompletionEarned(log, task.policy, task.criteria, task.baseline, task.config.maxReviewDiffChars)
  }

  /** A final action has no observation; a blocked call has a failed one. */
  datatype Step = Step(decision: Decision, observation: Option<Observation>)

  /** How a piece of the workflow leaves: a value, or one of the exceptions that pass through. */
  datatype Exit<+T> = Done(value: T) | CancellationRaised | AgentError | OtherError

  datatype FinalControl = Accept | Feedback(stop: bool)

  datatype RunStatus = RunCompleted | MaxIterations | WorkflowStopped

  datatype AgentRun = AgentRun(status: RunStatus, finalAnswer: Option<string>, steps: seq<Step>, toolCalls: nat)

  const MAX_IDENTICAL_TOOL_EXECUTIONS := 2

  function Count(counts: map<(ToolCall, nat), nat>, call: ToolCall, revision: nat): nat {
    if (call, revision) in counts then counts[(call, revision)] else 0
  }

  /** The history ends with a raised cancellation. */
  predicate Cancelled(log: seq<Event>) {
    log != [] && log[|log| - 1] == CancelRaised
  }

  /** The history ends with a tool error without a message, which no observation may hold, or with a
      side-effect mark that was refused. */
  predicate Broken(log: seq<Event>) {
    && log != []
    && match log[|log| - 1]
       case Marked(accepted) => !accepted
       case OtherTool(_, error) => error.Some? && Blank(error.value)
       case CheckRun(_, _, outcome, agentCall) => agentCall.Some? && outcome.Failure? && Blank(outcome.error)
       case _ => false
  }

  /** Required checks were run, at most once each, so that each has an outcome of this revision. */
  ghost predicate ChecksRun(before: seq<Event>, after: seq<Event>, policy: Policy) {
    && before <= after
    && (forall i :: |before| <= i < |after| ==>
          && after[i].CheckRun? && after[i].agentCall.None?
          && (if after[i].check.Tests? then policy.requireTests && after[i].scope == policy.testPaths
              else policy.requireRuff && after[i].scope == policy.ruffPaths))
    && (forall i, k :: |before| <= i < k < |after| ==> after[i].check != after[k].check)
    && (policy.requireTests ==>
          && LastRun(after, Tests, policy.testPaths).Some?
          && LastRun(after, Tests, policy.testPaths).value.1 == Mutations(after))
    && (policy.requireRuff ==>
          && LastRun(after, Ruff, policy.ruffPaths).Some?
          && LastRun(after, Ruff, policy.ruffPaths).value.1 == Mutations(after))
  }

  /** At most one run of the tests, and after it at most one of Ruff. */
  lemma ChecksRunInOrder(before: seq<Event>, tested: seq<Event>, after: seq<Event>, policy: Policy,
                         ruff: Option<Result<CheckOutput, string>>)
    requires tested == before
             || (policy.requireTests && |tested| == |before| + 1 && before <= tested
                 && RunsCheck(tested[|before|], Tests, policy.testPaths) && tested[|before|].agentCall.None?)
    requires after == tested + if ruff.Some? then [CheckRun(Ruff, policy.ruffPaths, ruff.value, None)] else []
    requires ruff.Some? ==> policy.requireRuff
    requires policy.requireTests ==>
               && LastRun(after, Tests, policy.testPaths).Some?
               && LastRun(after, Tests, policy.testPaths).value.1 == Mutations(after)
    requires policy.requireRuff ==>
               && LastRun(after, Ruff, policy.ruffPaths).Some?
               && LastRun(after, Ruff, policy.ruffPaths).value.1 == Mutations(after)
    ensures ChecksRun(before, after, policy)
  {
    hide LastRun, Mutations;
  }

  /** The Git status was read, and the diffs that the policy asks for if it could be. */
  predicate GitRead(before: seq<Event>, after: seq<Event>, policy: Policy) {
    && before < after && after[|before|].StatusRead?
    && var n, status := |before| + 1, after[|before|].status;
       if status.Failure? || !policy.requireFinalDiff then |after| == n
       else
         && |after| > n && after[n].DiffRead? && !after[n].staged
         && if HasStaged(status.value) then |after| == n + 2 && after[n + 1].DiffRead? && after[n + 1].staged
            else |after| == n + 1
  }

  /** The interception of a final action: checks, Git readings, and a review of the diffs exactly when
      the evidence is complete and can be shown in full. */
  ghost predicate Intercepted(before: seq<Event>, verified: seq<Event>, read: seq<Event>, after: seq<Event>,
                              task: Task) {
    && ChecksRun(before, verified, task.policy) && GitRead(verified, read, task.policy)
    && if EvidenceComplete(read, task.policy, task.baseline)
          && Reviewable(read, task.policy, task.config.maxReviewDiffChars)
       then
         && |after| == |read| + 1 && read <= after
         && after[|read|].Reviewed? && after[|read|].text == ReviewTextNow(read, task.policy)
       else after == read
  }

  /** A budget or the repeat guard stops a call. */
  predicate Stops(config: Config, log: seq<Event>, call: ToolCall) {
    || (call.IsMutation() && Mutations(log) >= config.maxMutations)
    || CallsAt(log, call, Mutations(log)) >= MAX_IDENTICAL_TOOL_EXECUTIONS
  }

  /** One iteration: the model decides; a final is intercepted, a call is refused or executed, and a
      mutation is marked. */
  ghost predicate StepTaken(before: seq<Event>, step: Step, after: seq<Event>, task: Task) {
    var decided := before + [Decided(Some(step.decision))];
    match step.decision
    case Final(_) =>
      step.observation.None? && exists verified, read :: Intercepted(decided, verified, read, after, task)
    case UseTool(call) => step.observation.Some? && CallTaken(decided, call, step.observation.value, after, task.config)
  }

  ghost predicate CallTaken(decided: seq<Event>, call: ToolCall, r: Observation, after: seq<Event>, config: Config) {
    if Stops(config, decided, call) then r.Failed? && after == decided
    else Answers(call, r) && after == decided + [EventOf(call, r)] + (if r.Changed? then [Marked(true)] else [])
  }

  function Finals(steps: seq<Step>): nat {
    if steps == [] then 0 else Finals(steps[..|steps| - 1]) + if steps[|steps| - 1].decision.Final? then 1 else 0
  }

  /** The history step by step, and that no step before the last ended the run. */
  ghost predicate StepsTaken(states: seq<seq<Event>>, steps: seq<Step>, task: Task) {
    && |states| == |steps| + 1
    && (forall i :: 0 <= i < |steps| ==> StepTaken(states[i], steps[i], states[i + 1], task))
    && (forall i :: 0 <= i < |steps| ==> i == |steps| - 1 || !EndsRun(states, steps, i, task))
  }

  /** Step `i` is a final that is accepted, or one refused for the last time. */
  ghost predicate EndsRun(states: seq<seq<Event>>, steps: seq<Step>, i: nat, task: Task)
    requires i < |steps| && |states| == |steps| + 1
  {
    && steps[i].decision.Final?
    && (Earned(task, states[i + 1]) || Finals(steps[..i + 1]) >= task.config.maxCompletionAttempts)
  }

  /** How a finished run stands to its history. */
  ghost predicate RunEnds(run: AgentRun, states: seq<seq<Event>>, task: Task) {
    && StepsTaken(states, run.steps, task) && |run.steps| <= task.config.maxIterations
    && var last := |run.steps| - 1;
       var ended := last >= 0 && EndsRun(states, run.steps, last, task);
       && (run.status.RunCompleted? <==> ended && Earned(task, states[last + 1]))
       && (run.status.WorkflowStopped? <==> ended && !Earned(task, states[last + 1]))
       && (run.status.MaxIterations? ==> |run.steps| == task.config.maxIterations)
       && run.finalAnswer == if run.status.RunCompleted? then Some(run.steps[last].decision.answer) else None
  }

  // --------------------------------------------------------------------------- the workflow

  class Workflow {
    const outside: Outside
    const task: Task
    var workspaceRevision: nat
    var successfulMutations: nat
    var mutatedPaths: set<Path>
    var tests: Evidence
    var ruff: Evidence
    var finalReview: Option<FinalReview>
    var completionAttempts: nat
    var verificationExecutions: nat
    var blockers: seq<Blocker>
    var review: Option<CodingReview>
    var reviewAttempts: nat
    var reviewBlocks: nat
    var lastFinalAnswer: Option<string>
    /** The durable side-effect mark, after which the cancellation token only defers. */
    var sideEffectMarked: bool

    constructor (outside: Outside, task: Task)
      requires Mutations(outside.log) == 0 && MutatedPaths(outside.log) == {}
      ensures Valid() && !sideEffectMarked && completionAttempts == 0 && finalReview.None? && review.None?
      ensures this.outside == outside && this.task == task
    {
      this.outside, this.task := outside, task;
      workspaceRevision, successfulMutations, mutatedPaths := 0, 0, {};
      tests, ruff := Evidence(None, None, None), Evidence(None, None, None);
      finalReview, review, blockers, lastFinalAnswer := None, None, [], None;
      completionAttempts, verificationExecutions, reviewAttempts, reviewBlocks := 0, 0, 0, 0;
      sideEffectMarked := false;
    }

    /** The recorded state agrees with the history. */
    ghost predicate Agrees(log: seq<Event>)
      reads this
    {
      && workspaceRevision == successfulMutations == Mutations(log)
      && mutatedPaths == MutatedPaths(log)
      && SlotOk(tests, log, Tests, task.policy.testPaths)
      && SlotOk(ruff, log, Ruff, task.policy.ruffPaths)
      && (sideEffectMarked <==> Mutations(log) > 0)
    }

    ghost predicate Valid()
      reads this, outside
    {
      Agrees(outside.log)
    }

    function Report(): (report: VerificationReport)
      reads this
    {
      VerificationReport(tests, ruff, workspaceRevision)
    }

    method Checkpoint() returns (raised: bool)
      requires Valid()
      modifies outside
      ensures Valid() && OnlyWorkflow(old(outside.log), outside.log)
      ensures raised ==> !sideEffectMarked && Cancelled(outside.log)
      ensures !raised ==> outside.log == old(outside.log)
      ensures ReviewNow(outside.log) == old(ReviewNow(outside.log))
    {
      hide LastRun, Mutations, MutatedPaths, ReviewNow;
      raised := outside.Checkpoint(sideEffectMarked);
      AnswerKeeps(old(outside.log), CancelRaised);
    }

    /** Records one executed tool call, which is in the history together with its mark. */
    method Observe(call: ToolCall, r: Observation, ghost before: seq<Event>)
      requires outside.log == before + [EventOf(call, r)] + (if r.Changed? then [Marked(true)] else [])
      requires Answers(call, r)
      requires workspaceRevision == successfulMutations == Mutations(before) && mutatedPaths == MutatedPaths(before)
      requires SlotOk(tests, before, Tests, task.policy.testPaths) && SlotOk(ruff, before, Ruff, task.policy.ruffPaths)
      requires sideEffectMarked <==> Mutations(outside.log) > 0
      modifies this`workspaceRevision, this`successfulMutations, this`mutatedPaths, this`tests, this`ruff,
               this`finalReview, this`review, this`verificationExecutions
      ensures Valid()
      ensures successfulMutations == old(successfulMutations) + if r.Changed? then 1 else 0
    {
      Extended(before, EventOf(call, r));
      AnswerKeeps(before + [EventOf(call, r)], Marked(true));
      assert before + [EventOf(call, r)] + [] == before + [EventOf(call, r)];
      RecordExecuted(call, r);
    }

    /** The recorder proper; a blocked call reaches it as a failure without an execution. */
    method RecordExecuted(call: ToolCall, r: Observation)
      requires Answers(call, r)
      modifies this`workspaceRevision, this`successfulMutations, this`mutatedPaths, this`tests, this`ruff,
               this`finalReview, this`review, this`verificationExecutions
      ensures r.Changed? ==>
                && workspaceRevision == old(workspaceRevision) + 1
                && successfulMutations == old(successfulMutations) + 1
                && mutatedPaths == old(mutatedPaths) + (if r.path.Some? then {r.path.value} else {})
                && finalReview.None? && review.None?
      ensures !r.Changed? ==>
                && workspaceRevision == old(workspaceRevision) && successfulMutations == old(successfulMutations)
                && mutatedPaths == old(mutatedPaths)
                && finalReview == old(finalReview) && review == old(review)
      ensures tests == if call.tool.RunTests? && RequestedScope(call, DEFAULT_TEST_SCOPE) == task.policy.testPaths
                       then Recorded(r, workspaceRevision) else old(tests)
      ensures ruff == if call.tool.RunRuff? && RequestedScope(call, DEFAULT_RUFF_SCOPE) == task.policy.ruffPaths
                      then Recorded(r, workspaceRevision) else old(ruff)
    {
      if r.Changed? {
        if r.path.Some? {
          mutatedPaths := mutatedPaths + {r.path.value};
        }
        workspaceRevision := workspaceRevision + 1;
        successfulMutations := successfulMutations + 1;
        finalReview := None;
        review := None;
        return;
      }
      if call.tool.RunTests? {
        verificationExecutions := verificationExecutions + 1;
        if RequestedScope(call, DEFAULT_TEST_SCOPE) != task.policy.testPaths {
          return;
        }
        if r.Checked? {
          tests := Evidence(Some(r.output), Some(workspaceRevision), None);
        } else {
          tests := Evidence(None, Some(workspaceRevision), Some(r.error));
        }
        return;
      }
      if call.tool.RunRuff? {
        verificationExecutions := verificationExecutions + 1;
        if RequestedScope(call, DEFAULT_RUFF_SCOPE) != task.policy.ruffPaths {
          return;
        }
        if r.Checked? {
          ruff := Evidence(Some(r.output), Some(workspaceRevision), None);
        } else {
          ruff := Evidence(None, Some(workspaceRevision), Some(r.error));
        }
      }
    }

    /** Runs each required check again that has no fresh passing evidence, and no other. */
    method RunRequiredVerification() returns (raised: bool)
      requires Valid()
      modifies this`tests, this`ruff, this`verificationExecutions, outside
      ensures Valid() && OnlyWorkflow(old(outside.log), outside.log)
      ensures ReviewNow(outside.log) == old(ReviewNow(outside.log))
      ensures raised ==> !sideEffectMarked && Cancelled(outside.log)
      ensures !raised ==>
                && ChecksRun(old(outside.log), outside.log, task.policy)
                && (task.policy.requireTests ==> SlotReports(tests, outside.log, Tests, task.policy.testPaths))
                && (task.policy.requireRuff ==> SlotReports(ruff, outside.log, Ruff, task.policy.ruffPaths))
                && (!task.policy.requireTests || old(Fresh(tests, task.policy.testPaths)) ==> tests == old(tests))
                && (!task.policy.requireRuff || old(Fresh(ruff, task.policy.ruffPaths)) ==> ruff == old(ruff))
                && |outside.log| == |old(outside.log)|
                     + (if task.policy.requireTests && !old(Fresh(tests, task.policy.testPaths)) then 1 else 0)
                     + (if task.policy.requireRuff && !old(Fresh(ruff, task.policy.ruffPaths)) then 1 else 0)
    {
      hide LastRun, Mutations, MutatedPaths, ReviewNow, ChecksRun;
      raised := Checkpoint();
      if raised { return; }
      ghost var start := outside.log;
      if task.policy.requireTests && !Fresh(tests, task.policy.testPaths) {
        tests := RunRequiredCheck(Tests);
        raised := Checkpoint();
        if raised { return; }
      }
      ghost var tested := outside.log;
      raised := Checkpoint();
      if raised { return; }
      if task.policy.requireRuff && !Fresh(ruff, task.policy.ruffPaths) {
        ruff := RunRequiredCheck(Ruff);
        ghost var linted := outside.log;
        raised := Checkpoint();
        if !raised {
          ChecksRunInOrder(start, tested, linted, task.policy, Some(OutcomeOf(ruff)));
        }
      } else {
        ChecksRunInOrder(start, tested, tested, task.policy, None);
      }
    }

    method RunRequiredCheck(check: Check) returns (slot: Evidence)
      requires workspaceRevision == Mutations(outside.log)
      modifies this`verificationExecutions, outside
      ensures OnlyWorkflow(old(outside.log), outside.log)
      ensures SlotReports(slot, outside.log, check, task.policy.Scope(check))
      ensures outside.log == old(outside.log) + [CheckRun(check, task.policy.Scope(check), OutcomeOf(slot), None)]
      ensures forall other, scope :: other != check ==>
                LastRun(outside.log, other, scope) == old(LastRun(outside.log, other, scope))
      ensures Mutations(outside.log) == old(Mutations(outside.log))
      ensures MutatedPaths(outside.log) == old(MutatedPaths(outside.log))
      ensures ReviewNow(outside.log) == old(ReviewNow(outside.log))
    {
      hide LastRun, Mutations, MutatedPaths, OnlyWorkflow, ReviewNow;
      verificationExecutions := verificationExecutions + 1;
      var r := outside.RunCheck(check, task.policy.Scope(check));
      RunIsLast(old(outside.log), check, task.policy.Scope(check), r);
      slot := match r
        case Success(output) => Evidence(Some(output), Some(workspaceRevision), None)
        case Failure(message) => Evidence(None, Some(workspaceRevision), Some(message));
    }

    predicate Fresh(slot: Evidence, scope: seq<Path>)
      reads this
    {
      slot.result.Some? && slot.result.value.passed && slot.revision == Some(workspaceRevision)
      && slot.result.value.paths == scope
    }

    /** Reads Git status and diffs; a review is missing exactly when the status could not be read. */
    method CaptureFinalReview() returns (raised: bool, r: Option<FinalReview>, failed: seq<Blocker>)
      requires Valid()
      modifies outside
      ensures Valid() && OnlyWorkflow(old(outside.log), outside.log)
      ensures ReviewNow(outside.log) == old(ReviewNow(outside.log))
      ensures raised ==> !sideEffectMarked && Cancelled(outside.log)
      ensures !raised ==>
                && GitRead(old(outside.log), outside.log, task.policy)
                && (forall check, scope ::
                      LastRun(outside.log, check, scope) == old(LastRun(outside.log, check, scope)))
                && failed == (if r.None? then [StatusNotInspected] else [])
                && (if r.None? then StatusNow(outside.log).None?
                    else ReviewReports(r.value, outside.log, task.baseline, task.policy))
    {
      hide LastRun, LastStatus, LastDiff, Mutations, MutatedPaths, ReviewNow, IsListed, HasStaged;
      r, failed := None, [];
      raised := Checkpoint();
      if raised { return; }
      var read := outside.ReadStatus();
      AnswerKeeps(old(outside.log), StatusRead(read));
      if read.Failure? {
        return false, None, [StatusNotInspected];
      }
      var status := read.value;
      raised := Checkpoint();
      if raised { return; }
      var unstaged, unstagedError, staged, stagedError := None, None, None, None;
      if task.policy.requireFinalDiff {
        unstaged, unstagedError := TryDiff(false);
        raised := Checkpoint();
        if raised { return; }
        var anyStaged := HasStagedChanges(status);
        if anyStaged {
          staged, stagedError := TryDiff(true);
          raised := Checkpoint();
          if raised { return; }
        }
      }
      var changed, baselinePaths := ChangedPaths(status), ChangedPaths(task.baseline);
      r := Some(FinalReview(
                  workspaceRevision, status, unstaged, unstagedError, staged, stagedError,
                  changed, mutatedPaths * changed, changed - baselinePaths - mutatedPaths,
                  (unstaged.Some? && unstaged.value.truncated) || (staged.Some? && staged.value.truncated)));
    }

    /** One diff, or the message of its failure. */
    method TryDiff(staged: bool) returns (diff: Option<GitDiff>, error: Option<string>)
      requires Valid()
      modifies outside
      ensures Valid() && OnlyWorkflow(old(outside.log), outside.log)
      ensures |outside.log| == |old(outside.log)| + 1
      ensures outside.log[|old(outside.log)|].DiffRead? && outside.log[|old(outside.log)|].staged == staged
      ensures DiffReports(diff, error, outside.log, staged)
      ensures LastDiff(outside.log, !staged) == old(LastDiff(outside.log, !staged))
      ensures LastStatus(outside.log) == old(LastStatus(outside.log))
      ensures ReviewNow(outside.log) == old(ReviewNow(outside.log))
      ensures forall check, scope :: LastRun(outside.log, check, scope) == old(LastRun(outside.log, check, scope))
    {
      hide LastRun, LastStatus, LastDiff, Mutations, MutatedPaths, ReviewNow;
      diff, error := None, None;
      var read := outside.ReadDiff(staged);
      AnswerKeeps(old(outside.log), DiffRead(staged, read));
      match read {
        case Success(d) => diff := Some(d);
        case Failure(message) => error := Some(message);
      }
    }

    /** The independent review: an invalid or missing answer of the model is a failed one. */
    method GenerateReview(text: string) returns (r: Result<CodingReview, string>)
      modifies outside
      ensures |outside.log| == |old(outside.log)| + 1 && old(outside.log) <= outside.log
      ensures var e := outside.log[|old(outside.log)|];
              && e.Reviewed? && e.text == text
              && (r.Success? <==> e.answer.Some? && VerdictConsistent(e.answer.value)
                                  && ValidForTask(e.answer.value, task.criteria, workspaceRevision))
              && (r.Success? ==> e.answer == Some(r.value))
    {
      var answer := outside.Review(text);
      if answer.Some? && VerdictConsistent(answer.value)
         && ValidForTask(answer.value, task.criteria, workspaceRevision) {
        return Success(answer.value);
      }
      return Failure("structured coding review failed");
    }

    /** The deterministic half of the interception: verification, Git review, blockers. */
    method CollectEvidence() returns (raised: bool, captured: Option<FinalReview>, ghost verified: seq<Event>)
      requires Valid()
      modifies this`tests, this`ruff, this`verificationExecutions, this`finalReview, this`blockers, outside
      ensures Valid() && OnlyWorkflow(old(outside.log), outside.log)
      ensures ReviewNow(outside.log) == old(ReviewNow(outside.log))
      ensures raised ==> !sideEffectMarked && Cancelled(outside.log)
      ensures !raised ==>
                && ChecksRun(old(outside.log), verified, task.policy)
                && GitRead(verified, outside.log, task.policy)
                && finalReview == captured
                && (captured.Some? ==>
                      && ReviewReports(captured.value, outside.log, task.baseline, task.policy)
                      && blockers == CompletionBlockers(true, workspaceRevision, Report(), captured, None,
                                                        task.policy, false))
                && (blockers == [] ==> captured.Some?)
                && (blockers == [] <==> EvidenceComplete(outside.log, task.policy, task.baseline))
    {
      hide LastRun, Mutations, MutatedPaths, CompletionBlockers, ReviewReports, GitRead, ChecksRun, ReviewNow;
      captured, verified := None, [];
      raised := RunRequiredVerification();
      if raised { return; }
      verified := outside.log;
      var failed;
      raised, captured, failed := CaptureFinalReview();
      if raised { return; }
      finalReview := captured;
      blockers := failed + CompletionBlockers(true, workspaceRevision, Report(), captured, None, task.policy, false);
      if captured.Some? {
        WorkflowMutatesNothing(verified, outside.log);
        GateOpensOnEvidence(outside.log, task.policy, task.baseline, Report(), captured.value);
      }
    }

    /** The interception of a final action: it looks at everything the gate asks for, and accepts
        exactly when completion is earned. */
    method HandleFinal(answer: string)
      returns (exit: Exit<FinalControl>, ghost verified: seq<Event>, ghost read: seq<Event>)
      requires Valid()
      modifies this`tests, this`ruff, this`verificationExecutions, this`finalReview, this`review, this`blockers,
               this`completionAttempts, this`reviewAttempts, this`reviewBlocks, this`lastFinalAnswer, outside
      ensures Valid() && OnlyWorkflow(old(outside.log), outside.log)
      ensures completionAttempts == old(completionAttempts) + 1 && lastFinalAnswer == Some(answer)
      ensures exit.Done? || exit.CancellationRaised?
      ensures exit.CancellationRaised? ==> !sideEffectMarked && Cancelled(outside.log)
      ensures exit.Done? ==>
                && Intercepted(old(outside.log), verified, read, outside.log, task)
                && (exit.value.Accept? <==> Earned(task, outside.log))
                && (exit.value.Accept? ==>
                      && finalReview.Some? && ReviewReports(finalReview.value, outside.log, task.baseline, task.policy)
                      && review.Some? && ReviewNow(outside.log).value.1 == review)
                && (exit.value.Feedback? ==>
                      && blockers != []
                      && (exit.value.stop <==> completionAttempts >= task.config.maxCompletionAttempts)
                      && (old(ApprovedNow(outside.log, task.criteria)) || !ApprovedNow(outside.log, task.criteria)))
    {
      hide LastRun, Mutations, MutatedPaths, CompletionBlockers, ReviewReports, ReviewNow, GitRead, ChecksRun,
        Approves, EvidenceComplete, Reviewable, ReviewTextNow;
      verified, read := [], [];
      completionAttempts := completionAttempts + 1;
      lastFinalAnswer := Some(answer);
      var raised := Checkpoint();
      if raised { return CancellationRaised, verified, read; }
      var captured;
      raised, captured, verified := CollectEvidence();
      if raised { return CancellationRaised, verified, read; }
      read := outside.log;
      WorkflowMutatesNothing(old(outside.log), read);
      if blockers == [] && captured.Some? {
        raised := ReviewCandidate(Report(), captured.value);
        WorkflowMutatesNothing(read, outside.log);
        if raised { return CancellationRaised, verified, read; }
      }
      if blockers == [] {
        return Done(Accept), verified, read;
      }
      return Done(Feedback(completionAttempts >= task.config.maxCompletionAttempts)), verified, read;
    }

    /** The part of the interception that asks for the independent review. */
    method ReviewCandidate(report: VerificationReport, candidate: FinalReview) returns (raised: bool)
      requires Valid() && report == Report()
      requires ReviewReports(candidate, outside.log, task.baseline, task.policy)
      requires EvidenceComplete(outside.log, task.policy, task.baseline)
      requires CompletionBlockers(true, workspaceRevision, report, Some(candidate), None, task.policy, false) == []
      requires blockers == []
      modifies this`review, this`blockers, this`reviewAttempts, this`reviewBlocks, outside
      ensures Valid() && OnlyWorkflow(old(outside.log), outside.log)
      ensures raised ==> !sideEffectMarked && Cancelled(outside.log)
      ensures !raised && !Reviewable(old(outside.log), task.policy, task.config.maxReviewDiffChars) ==>
                outside.log == old(outside.log) && blockers != []
      ensures !raised && Reviewable(old(outside.log), task.policy, task.config.maxReviewDiffChars) ==>
                && |outside.log| == |old(outside.log)| + 1 && outside.log[|old(outside.log)|].Reviewed?
                && outside.log[|old(outside.log)|].text == ReviewTextNow(old(outside.log), task.policy)
                && (blockers == [] <==> ApprovedNow(outside.log, task.criteria))
      ensures !raised ==> (blockers == [] <==> Earned(task, outside.log))
      ensures !raised && blockers == [] ==>
                && review.Some? && ReviewNow(outside.log).value.1 == review
                && ReviewReports(candidate, outside.log, task.baseline, task.policy)
    {
      hide LastRun, LastStatus, LastDiff, Mutations, MutatedPaths, CompletionBlockers, ReviewReports, ReviewNow,
        Approves, EvidenceComplete, Reviewable, ReviewTextNow, Earned, VerdictConsistent, ValidForTask, ApprovedNow;
      raised := false;
      review := None;
      reviewAttempts := reviewAttempts + 1;
      var text := BoundedReviewDiff(candidate, task.config.maxReviewDiffChars);
      CandidateIsShown(candidate, outside.log, task);
      if Earned(task, outside.log) {
        EarnedIsReviewable(task, outside.log);
      }
      if text.None? {
        blockers := [ReviewContextTooLarge];
        return;
      }
      raised := JudgeCandidate(report, candidate, text.value);
    }

    /** Asks for the review of a text and lets its verdict decide. */
    method JudgeCandidate(report: VerificationReport, candidate: FinalReview, text: string) returns (raised: bool)
      requires Valid() && report == Report()
      requires ReviewReports(candidate, outside.log, task.baseline, task.policy)
      requires EvidenceComplete(outside.log, task.policy, task.baseline)
      requires Reviewable(outside.log, task.policy, task.config.maxReviewDiffChars)
      requires text == ReviewTextNow(outside.log, task.policy) && blockers == []
      requires CompletionBlockers(true, workspaceRevision, report, Some(candidate), None, task.policy, false) == []
      modifies this`review, this`blockers, this`reviewBlocks, outside
      ensures Valid() && OnlyWorkflow(old(outside.log), outside.log)
      ensures raised ==> !sideEffectMarked && Cancelled(outside.log)
      ensures !raised ==>
                && |outside.log| == |old(outside.log)| + 1 && outside.log[|old(outside.log)|].Reviewed?
                && outside.log[|old(outside.log)|].text == text
                && (blockers == [] <==> ApprovedNow(outside.log, task.criteria))
                && (blockers == [] <==> Earned(task, outside.log))
                && (blockers == [] ==>
                      && review.Some? && ReviewNow(outside.log).value.1 == review
                      && ReviewReports(candidate, outside.log, task.baseline, task.policy))
    {
      hide LastRun, LastStatus, LastDiff, Mutations, MutatedPaths, CompletionBlockers, ReviewReports, ReviewNow,
        Approves, EvidenceComplete, Reviewable, ReviewTextNow, Earned, VerdictConsistent, ValidForTask, ApprovedNow;
      review := None;
      raised := Checkpoint();
      if raised { return; }
      var answer := GenerateReview(text);
      ghost var event := outside.log[|old(outside.log)|];
      assert outside.log == old(outside.log) + [event];
      ReviewKeeps(old(outside.log), event, candidate, task);
      EarnedByReview(old(outside.log), event, candidate, task);
      AcceptedExactly(event.answer, task.criteria, workspaceRevision);
      match answer {
        case Success(given) => review := Some(given);
        case Failure(_) => blockers := [CodingReviewFailed];
      }
      raised := Checkpoint();
      if raised { return; }
      if review.Some? {
        blockers := CompletionBlockers(true, workspaceRevision, report, Some(candidate), review, task.policy, true);
        VerdictDecides(workspaceRevision, report, candidate, review.value, task.policy, task.criteria);
        if review.value.verdict.ChangesRequired? {
          reviewBlocks := reviewBlocks + 1;
        }
      }
    }

    /** Budgets of a run so far, counted in the history. */
    ghost predicate WithinBudgets(toolCalls: nat, counts: map<(ToolCall, nat), nat>)
      reads this, outside
    {
      && toolCalls == AgentCalls(outside.log)
      && successfulMutations <= task.config.maxMutations
      && forall call, revision ::
           CallsAt(outside.log, call, revision) == Count(counts, call, revision) <= MAX_IDENTICAL_TOOL_EXECUTIONS
    }

    /** The editing loop: at most maxIterations decisions, each final or one tool call. */
    method RunAgent() returns (exit: Exit<AgentRun>, ghost states: seq<seq<Event>>)
      requires Valid() && !sideEffectMarked && completionAttempts == 0
      requires OnlyWorkflow([], outside.log) && !ApprovedNow(outside.log, task.criteria)
      requires Decided(None) !in outside.log
      modifies this, outside
      ensures old(outside.log) <= outside.log
      ensures exit.CancellationRaised? ==> Cancelled(outside.log) && Mutations(outside.log) == 0
      ensures exit.OtherError? ==> Broken(outside.log)
      ensures exit.AgentError? ==> outside.log != [] && outside.log[|outside.log| - 1] == Decided(None)
      ensures exit.AgentError? ==> !ApprovedNow(outside.log, task.criteria)
      ensures exit.Done? || exit.AgentError? ==>
                && Valid() && Mutations(outside.log) <= task.config.maxMutations
                && forall call, revision :: CallsAt(outside.log, call, revision) <= MAX_IDENTICAL_TOOL_EXECUTIONS
      ensures exit.Done? ==>
                && RunEnds(exit.value, states, task)
                && states[0] == old(outside.log) && states[|exit.value.steps|] == outside.log
                && exit.value.toolCalls == AgentCalls(outside.log) <= |exit.value.steps|
                && completionAttempts == Finals(exit.value.steps)
                && (exit.value.status.RunCompleted? ==>
                      && Earned(task, outside.log) && review.Some? && ReviewNow(outside.log).value.1 == review
                      && finalReview.Some?
                      && ReviewReports(finalReview.value, outside.log, task.baseline, task.policy))
                && (!exit.value.status.RunCompleted? ==> !ApprovedNow(outside.log, task.criteria))
                && (exit.value.status.WorkflowStopped? ==> blockers != [])
                && Decided(None) !in outside.log
    {
      hide LastRun, LastStatus, LastDiff, CompletionEarned, ReviewReports, SlotOk, Mutations, MutatedPaths, CallsAt,
        AgentCalls, ReviewNow, Approves, StepTaken, EndsRun, Finals;
      WorkflowMutatesNothing([], outside.log);
      NothingDone();
      NoSteps(outside.log, task);
      var steps: seq<Step> := [];
      states := [outside.log];
      var counts: map<(ToolCall, nat), nat> := map[];
      var toolCalls: nat := 0;
      while |steps| < task.config.maxIterations
        invariant Valid() && !ApprovedNow(outside.log, task.criteria)
        invariant |steps| <= task.config.maxIterations
        invariant old(outside.log) <= outside.log
        invariant WithinBudgets(toolCalls, counts) && toolCalls <= |steps|
        invariant completionAttempts == Finals(steps) && Decided(None) !in outside.log
        invariant Ongoing(states, steps, task) && states[0] == old(outside.log) && states[|steps|] == outside.log
      {
        ghost var before := outside.log;
        var raised := Checkpoint();
        WorkflowMutatesNothing(before, outside.log);
        if raised { return CancellationRaised, states; }
        var answer := Decide();
        WorkflowMutatesNothing(before, outside.log);
        if answer.None? { return AgentError, states; }
        ghost var decided := outside.log;
        raised := Checkpoint();
        WorkflowMutatesNothing(decided, outside.log);
        if raised { return CancellationRaised, states; }
        var control, step;
        control, step, counts, toolCalls := TakeStep(answer.value, counts, toolCalls, before);
        if control.CancellationRaised? { return CancellationRaised, states; }
        if control.OtherError? { return OtherError, states; }
        StepAdded(states, steps, step, outside.log, task);
        StepDecides(before, step, outside.log, task);
        steps, states := steps + [step], states + [outside.log];
        match control.value {
          case Accept =>
            return Done(AgentRun(RunCompleted, Some(answer.value.answer), steps, toolCalls)), states;
          case Feedback(stop) =>
            if stop {
              return Done(AgentRun(WorkflowStopped, None, steps, toolCalls)), states;
            }
        }
      }
      StepsSoFar(states, steps, task);
      exit := Done(AgentRun(MaxIterations, None, steps, toolCalls));
    }

    /** What the loop does with a decision: the step it records, and whether the run goes on. */
    method TakeStep(decision: Decision, counts: map<(ToolCall, nat), nat>, toolCalls: nat, ghost before: seq<Event>)
      returns (control: Exit<FinalControl>, step: Step, counts': map<(ToolCall, nat), nat>, toolCalls': nat)
      requires Valid() && WithinBudgets(toolCalls, counts) && !ApprovedNow(outside.log, task.criteria)
      requires outside.log == before + [Decided(Some(decision))]
      modifies this, outside
      ensures control.Done? || control.CancellationRaised? || control.OtherError?
      ensures control.CancellationRaised? ==> Cancelled(outside.log) && Mutations(outside.log) == 0
      ensures control.OtherError? ==> Broken(outside.log)
      ensures old(outside.log) <= outside.log
      ensures control.Done? ==>
                && Valid() && WithinBudgets(toolCalls', counts') && toolCalls' <= toolCalls + 1
                && step.decision == decision && StepTaken(before, step, outside.log, task)
                && completionAttempts == old(completionAttempts) + (if decision.Final? then 1 else 0)
                && (control.value.Accept? ==>
                      && decision.Final? && Earned(task, outside.log)
                      && review.Some? && ReviewNow(outside.log).value.1 == review && finalReview.Some?
                      && ReviewReports(finalReview.value, outside.log, task.baseline, task.policy))
                && (control.value.Feedback? ==>
                      && !ApprovedNow(outside.log, task.criteria) && !Earned(task, outside.log)
                      && (control.value.stop
                          <==> decision.Final? && completionAttempts >= task.config.maxCompletionAttempts)
                      && (control.value.stop ==> blockers != []))
    {
      hide LastRun, LastStatus, LastDiff, ReviewReports, SlotOk, Mutations, MutatedPaths, CallsAt,
        AgentCalls, ReviewNow, Approves, Intercepted, StepTaken, EvidenceComplete, Reviewable;
      counts', toolCalls' := counts, toolCalls;
      step := Step(decision, None);
      match decision {
        case Final(text) =>
          ghost var verified, read;
          control, verified, read := HandleFinal(text);
          WorkflowMutatesNothing(old(outside.log), outside.log);
          if control.Done? {
            FinalTaken(before, step, verified, read, outside.log, task);
          }
        case UseTool(call) =>
          var turn;
          turn, counts', toolCalls' := ToolIteration(call, counts, toolCalls);
          match turn {
            case Done(r) =>
              step := Step(decision, Some(r));
              CallIsStep(before, step, outside.log, task);
              control := Done(Feedback(false));
            case CancellationRaised => control := CancellationRaised;
            case _ => control := OtherError;
          }
      }
    }

    /** The model's next action, or none when it failed. */
    method Decide() returns (answer: Option<Decision>)
      requires Valid()
      modifies outside
      ensures Valid() && outside.log == old(outside.log) + [Decided(answer)]
      ensures OnlyWorkflow(old(outside.log), outside.log)
      ensures ReviewNow(outside.log) == old(ReviewNow(outside.log))
      ensures Mutations(outside.log) == old(Mutations(outside.log))
    {
      hide LastRun, Mutations, MutatedPaths, ReviewNow;
      answer := outside.Decide();
      AnswerKeeps(old(outside.log), Decided(answer));
    }

    /** One tool decision: refused by a budget or the repeat guard, or executed. */
    method ToolIteration(call: ToolCall, counts: map<(ToolCall, nat), nat>, toolCalls: nat)
      returns (turn: Exit<Observation>, counts': map<(ToolCall, nat), nat>, toolCalls': nat)
      requires Valid() && WithinBudgets(toolCalls, counts)
      modifies this`workspaceRevision, this`successfulMutations, this`mutatedPaths, this`tests, this`ruff,
               this`finalReview, this`review, this`verificationExecutions, this`sideEffectMarked, outside
      ensures turn.Done? || turn.CancellationRaised? || turn.OtherError?
      ensures turn.CancellationRaised? ==> Cancelled(outside.log) && Mutations(outside.log) == 0
      ensures turn.OtherError? ==> Broken(outside.log)
      ensures old(outside.log) <= outside.log
      ensures turn.Done? ==>
                && Valid() && WithinBudgets(toolCalls', counts') && toolCalls' <= toolCalls + 1
                && CallTaken(old(outside.log), call, turn.value, outside.log, task.config)
                && successfulMutations == old(successfulMutations) + (if turn.value.Changed? then 1 else 0)
                && (old(ApprovedNow(outside.log, task.criteria)) || !ApprovedNow(outside.log, task.criteria))
    {
      hide LastRun, Mutations, MutatedPaths, CallsAt, AgentCalls, SlotOk, EventOf, ReviewNow, Approves;
      var mutations := successfulMutations;
      var prior := Count(counts, call, mutations);
      counts', toolCalls' := counts, toolCalls;
      if call.IsMutation() && mutations >= task.config.maxMutations {
        turn := Refuse(call, "Successful mutation budget exhausted; do not modify another file.");
      } else if prior >= MAX_IDENTICAL_TOOL_EXECUTIONS {
        turn := Refuse(call, "Repeated identical tool call; choose a different action.");
      } else {
        counts', toolCalls' := counts[(call, mutations) := prior + 1], toolCalls + 1;
        turn := ToolTurn(call);
        if turn.Done? {
          TurnIsCounted(old(outside.log), call, turn.value);
          assert mutations == Mutations(old(outside.log)) && toolCalls' == AgentCalls(outside.log);
          assert forall other, revision :: CallsAt(outside.log, other, revision)
                   == CallsAt(old(outside.log), other, revision)
                      + if other == call && revision == mutations then 1 else 0;
        }
      }
    }

    /** A blocked call reaches the recorder as a failed observation, and the history not at all. */
    method Refuse(call: ToolCall, message: string) returns (turn: Exit<Observation>)
      requires Valid()
      modifies this`workspaceRevision, this`successfulMutations, this`mutatedPaths, this`tests, this`ruff,
               this`finalReview, this`review, this`verificationExecutions
      ensures Valid() && turn == Done(Failed(message))
      ensures successfulMutations == old(successfulMutations)
    {
      turn := Done(Failed(message));
      RecordExecuted(call, turn.value);
    }

    /** One executed call between its two checkpoints; the value is what it observed. */
    method ToolTurn(call: ToolCall) returns (turn: Exit<Observation>)
      requires Valid()
      modifies this`workspaceRevision, this`successfulMutations, this`mutatedPaths, this`tests, this`ruff,
               this`finalReview, this`review, this`verificationExecutions, this`sideEffectMarked, outside
      ensures turn.Done? || turn.CancellationRaised? || turn.OtherError?
      ensures turn.CancellationRaised? ==> Cancelled(outside.log) && Mutations(outside.log) == 0
      ensures turn.OtherError? ==> Broken(outside.log)
      ensures old(outside.log) <= outside.log
      ensures turn.Done? ==>
                && Valid() && Answers(call, turn.value)
                && outside.log == old(outside.log) + [EventOf(call, turn.value)]
                                  + (if turn.value.Changed? then [Marked(true)] else [])
                && successfulMutations == old(successfulMutations) + (if turn.value.Changed? then 1 else 0)
    {
      hide LastRun, Mutations, MutatedPaths, CallsAt, AgentCalls, SlotOk, ReviewNow;
      var raised := Checkpoint();
      WorkflowMutatesNothing(old(outside.log), outside.log);
      if raised { return CancellationRaised; }
      ghost var before := outside.log;
      var r := outside.Execute(call);
      ExecutionIsCounted(before, call, r);
      if r.Failed? && Blank(r.error) {
        // An observation without an error message is rejected by its own validator.
        return OtherError;
      }
      ghost var executed := outside.log;
      if call.IsMutation() && r.Changed? {
        var accepted := outside.Mark();
        if !accepted { return OtherError; }
        sideEffectMarked := true;
        AnswerKeeps(executed, Marked(true));
      }
      ghost var marked := outside.log;
      assert marked == before + [EventOf(call, r)] + (if r.Changed? then [Marked(true)] else []);
      raised := outside.Checkpoint(sideEffectMarked);
      if raised {
        AnswerKeeps(marked, CancelRaised);
        return CancellationRaised;
      }
      Observe(call, r, before);
      return Done(r);
    }
  }

  /** Some file has a staged change, as the porcelain columns say. */
  method HasStagedChanges(status: GitStatus) returns (any: bool)
    ensures any == HasStaged(status)
  {
    for i := 0 to |status.changedFiles|
      invariant forall j :: 0 <= j < i ==>
                  |status.changedFiles[j].status| == 0 || status.changedFiles[j].status[0] in " ?"
    {
      var columns := status.changedFiles[i].status;
      if |columns| > 0 && columns[0] !in " ?" {
        return true;
      }
    }
    any := false;
  }

  function ChangedPaths(status: GitStatus): (paths: set<Path>)
    ensures forall p :: p in paths <==> IsListed(status, p)
  {
    set i | 0 <= i < |status.changedFiles| :: status.changedFiles[i].path
  }

  /** The diffs for the independent review, unless they are cut or too long together. */
  method BoundedReviewDiff(review: FinalReview, maxChars: nat) returns (text: Option<string>)
    ensures text == if review.diffTruncated
                       || |ReviewText(Content(review.unstagedDiff), Content(review.stagedDiff))| > maxChars then None
                    else Some(ReviewText(Content(review.unstagedDiff), Content(review.stagedDiff)))
  {
    if review.diffTruncated {
      return None;
    }
    var parts: seq<string> := [];
    if review.unstagedDiff.Some? && review.unstagedDiff.value.content != "" {
      parts := ["<unstaged_diff>\n" + review.unstagedDiff.value.content + "\n</unstaged_diff>"];
      assert parts[0] + "" + "" == parts[0];
    }
    if review.stagedDiff.Some? && review.stagedDiff.value.content != "" {
      var staged := "<staged_diff>\n" + review.stagedDiff.value.content + "\n</staged_diff>";
      assert "" + "" + staged == staged;
      parts := parts + [staged];
    }
    var combined := if parts == [] then "" else if |parts| == 1 then parts[0] else parts[0] + "\n" + parts[1];
    text := if |combined| <= maxChars then Some(combined) else None;
  }

  lemma CandidateIsShown(candidate: FinalReview, log: seq<Event>, task: Task)
    requires ReviewReports(candidate, log, task.baseline, task.policy)
    ensures ReviewText(Content(candidate.unstagedDiff), Content(candidate.stagedDiff))
            == ReviewTextNow(log, task.policy)
    ensures forall maxChars: nat :: Reviewable(log, task.policy, maxChars)
              <==> !candidate.diffTruncated && |ReviewTextNow(log, task.policy)| <= maxChars
  {
    ReviewShowsNow(candidate, log, task.baseline, task.policy);
  }

  /** Histories with the same readings. */
  ghost predicate SameReadings(a: seq<Event>, b: seq<Event>) {
    && Mutations(a) == Mutations(b) && MutatedPaths(a) == MutatedPaths(b)
    && (forall check, scope :: LastRun(a, check, scope) == LastRun(b, check, scope))
    && LastStatus(a) == LastStatus(b) && forall staged :: LastDiff(a, staged) == LastDiff(b, staged)
  }

  lemma SameReadingsShowTheSame(a: seq<Event>, b: seq<Event>, policy: Policy)
    requires SameReadings(a, b)
    ensures StatusNow(a) == StatusNow(b) && UnstagedNow(a, policy) == UnstagedNow(b, policy)
    ensures StagedNow(a, policy) == StagedNow(b, policy) && ReviewTextNow(a, policy) == ReviewTextNow(b, policy)
    ensures forall maxChars: nat :: Reviewable(a, policy, maxChars) <==> Reviewable(b, policy, maxChars)
  {
    hide LastRun, LastStatus, LastDiff, Mutations, MutatedPaths, HasStaged, ReviewText;
    assert DiffNow(a, false) == DiffNow(b, false) && DiffNow(a, true) == DiffNow(b, true);
  }

  lemma SameReadingsSameEvidence(a: seq<Event>, b: seq<Event>, policy: Policy, baseline: GitStatus)
    requires SameReadings(a, b)
    ensures EvidenceComplete(a, policy, baseline) <==> EvidenceComplete(b, policy, baseline)
  {
    hide LastRun, LastStatus, LastDiff, Mutations, MutatedPaths, HasStaged, UnstagedNow, StagedNow, StatusNow, IsListed,
      HasText;
    SameReadingsShowTheSame(a, b, policy);
  }

  /** A review leaves the evidence and what it shows as they were. */
  lemma ReviewKeeps(log: seq<Event>, e: Event, candidate: FinalReview, task: Task)
    requires e.Reviewed?
    ensures var log' := log + [e];
            && OnlyWorkflow(log, log') && SameReadings(log, log')
            && ReviewNow(log') == Some((e.text, e.answer))
            && (ApprovedNow(log', task.criteria)
                <==> e.answer.Some? && Approves(e.answer.value, task.criteria, Mutations(log)))
            && (EvidenceComplete(log', task.policy, task.baseline)
                <==> EvidenceComplete(log, task.policy, task.baseline))
            && ReviewTextNow(log', task.policy) == ReviewTextNow(log, task.policy)
            && (ReviewReports(candidate, log', task.baseline, task.policy)
                <==> ReviewReports(candidate, log, task.baseline, task.policy))
            && forall maxChars: nat ::
                 Reviewable(log', task.policy, maxChars) <==> Reviewable(log, task.policy, maxChars)
  {
    hide LastRun, LastStatus, LastDiff, Mutations, MutatedPaths, ReviewNow, EvidenceComplete, Reviewable,
      ReviewTextNow, ReviewReports;
    AnswerKeeps(log, e);
    SameReadingsShowTheSame(log, log + [e], task.policy);
    SameReadingsSameEvidence(log, log + [e], task.policy, task.baseline);
    SameReadingsSameReview(log, log + [e], candidate, task);
  }

  lemma SameReadingsSameReview(a: seq<Event>, b: seq<Event>, candidate: FinalReview, task: Task)
    requires SameReadings(a, b)
    ensures ReviewReports(candidate, a, task.baseline, task.policy)
       <==> ReviewReports(candidate, b, task.baseline, task.policy)
  {
    hide LastRun, LastStatus, LastDiff, Mutations, MutatedPaths, HasStaged, IsListed;
  }

  lemma EarnedIsReviewable(task: Task, log: seq<Event>)
    requires Earned(task, log)
    ensures Reviewable(log, task.policy, task.config.maxReviewDiffChars)
  {
  }

  lemma EarnedByReview(log: seq<Event>, e: Event, candidate: FinalReview, task: Task)
    requires e.Reviewed? && e.text == ReviewTextNow(log, task.policy)
    requires EvidenceComplete(log, task.policy, task.baseline)
    requires Reviewable(log, task.policy, task.config.maxReviewDiffChars)
    ensures Earned(task, log + [e]) <==> ApprovedNow(log + [e], task.criteria)
  {
    hide EvidenceComplete, Reviewable, ReviewTextNow, ApprovedNow;
    ReviewKeeps(log, e, candidate, task);
  }

  lemma AcceptedExactly(answer: Option<CodingReview>, criteria: nat, revision: nat)
    ensures answer.Some? && VerdictConsistent(answer.value) && ValidForTask(answer.value, criteria, revision)
            && answer.value.verdict.Approve?
       <==> answer.Some? && Approves(answer.value, criteria, revision)
  {
    if answer.Some? {
      AcceptedApproves(answer.value, criteria, revision);
    }
  }

  /** With the deterministic gate open, a review of the current revision is all that can block. */
  lemma VerdictDecides(revision: nat, report: VerificationReport, r: FinalReview, review: CodingReview, policy: Policy,
                       criteria: nat)
    requires CompletionBlockers(true, revision, report, Some(r), None, policy, false) == []
    requires ValidForTask(review, criteria, revision)
    ensures CompletionBlockers(true, revision, report, Some(r), Some(review), policy, true) == []
       <==> review.verdict.Approve?
  {
  }

  /** A mark leaves what the executed call counted. */
  lemma TurnIsCounted(log: seq<Event>, call: ToolCall, r: Observation)
    requires Answers(call, r)
    ensures var log' := log + [EventOf(call, r)] + (if r.Changed? then [Marked(true)] else []);
            && Mutations(log') == Mutations(log) + (if r.Changed? then 1 else 0)
            && AgentCalls(log') == AgentCalls(log) + 1
            && (forall other, revision :: CallsAt(log', other, revision) == CallsAt(log, other, revision)
                                         + if other == call && revision == Mutations(log) then 1 else 0)
            && ReviewNow(log') == if r.Changed? then None else ReviewNow(log)
  {
    hide Mutations, CallsAt, AgentCalls, ReviewNow, EventOf;
    var executed := log + [EventOf(call, r)];
    ExecutionIsCounted(log, call, r);
    if r.Changed? {
      AnswerKeeps(executed, Marked(true));
      WorkflowMutatesNothing(executed, executed + [Marked(true)]);
    } else {
      assert executed + [] == executed;
    }
  }

  lemma FinalTaken(before: seq<Event>, step: Step, verified: seq<Event>, read: seq<Event>, after: seq<Event>,
                   task: Task)
    requires step.decision.Final? && step.observation.None?
    requires Intercepted(before + [Decided(Some(step.decision))], verified, read, after, task)
    ensures StepTaken(before, step, after, task)
  {
  }

  lemma CallIsStep(before: seq<Event>, step: Step, after: seq<Event>, task: Task)
    requires step.decision.UseTool? && step.observation.Some?
    requires CallTaken(before + [Decided(Some(step.decision))], step.decision.call, step.observation.value, after,
                       task.config)
    ensures StepTaken(before, step, after, task)
  {
  }

  /** The steps so far, none of which ended the run. */
  ghost predicate Ongoing(states: seq<seq<Event>>, steps: seq<Step>, task: Task) {
    && |states| == |steps| + 1
    && (forall i :: 0 <= i < |steps| ==> StepTaken(states[i], steps[i], states[i + 1], task))
    && (forall i :: 0 <= i < |steps| ==> !EndsRun(states, steps, i, task))
  }

  lemma NoSteps(log: seq<Event>, task: Task)
    ensures Ongoing([log], [], task) && Finals([]) == 0
  {
  }

  lemma StepsSoFar(states: seq<seq<Event>>, steps: seq<Step>, task: Task)
    requires Ongoing(states, steps, task)
    ensures StepsTaken(states, steps, task)
    ensures steps != [] ==> !EndsRun(states, steps, |steps| - 1, task)
  {
    hide StepTaken, EndsRun;
  }

  lemma StepAdded(states: seq<seq<Event>>, steps: seq<Step>, step: Step, after: seq<Event>, task: Task)
    requires Ongoing(states, steps, task) && StepTaken(states[|steps|], step, after, task)
    ensures var states', steps' := states + [after], steps + [step];
            && StepsTaken(states', steps', task)
            && Finals(steps') == Finals(steps) + (if step.decision.Final? then 1 else 0)
            && (EndsRun(states', steps', |steps|, task)
                <==> step.decision.Final?
                     && (Earned(task, after) || Finals(steps') >= task.config.maxCompletionAttempts))
            && (!EndsRun(states', steps', |steps|, task) ==> Ongoing(states', steps', task))
  {
    hide StepTaken, EndsRun, Finals, Earned;
    var states', steps' := states + [after], steps + [step];
    LastEndsRun(states, steps, step, after, task);
    forall i | 0 <= i < |steps'|
      ensures StepTaken(states'[i], steps'[i], states'[i + 1], task)
    {
      assert i < |steps| ==> states'[i] == states[i] && steps'[i] == steps[i] && states'[i + 1] == states[i + 1];
    }
    forall i | 0 <= i < |steps|
      ensures EndsRun(states', steps', i, task) <==> EndsRun(states, steps, i, task)
    {
      EarlierEndsRun(states, steps, step, after, task, i);
    }
  }

  /** A step brings in no answer of the model but its own decision. */
  lemma StepDecides(before: seq<Event>, step: Step, after: seq<Event>, task: Task)
    requires StepTaken(before, step, after, task) && Decided(None) !in before
    ensures Decided(None) !in after
  {
    hide EventOf, EvidenceComplete, Reviewable, LastRun, Mutations, ReviewTextNow;
    var decided := before + [Decided(Some(step.decision))];
    match step.decision
    case Final(_) =>
      var verified: seq<Event>, read: seq<Event> :| Intercepted(decided, verified, read, after, task);
      ReadingsDecideNothing(verified, read, task.policy);
      assert forall i :: |decided| <= i < |verified| ==> verified[i].CheckRun?;
      assert forall i :: 0 <= i < |decided| ==> verified[i] == decided[i];
    case UseTool(call) =>
      CallDecidesNothing(call, step.observation.value);
  }

  lemma CallDecidesNothing(call: ToolCall, r: Observation)
    ensures EventOf(call, r) != Decided(None)
  {
  }

  lemma ReadingsDecideNothing(before: seq<Event>, after: seq<Event>, policy: Policy)
    requires GitRead(before, after, policy)
    ensures Decided(None) in after ==> Decided(None) in before
  {
    hide HasStaged;
    forall i | 0 <= i < |after| && after[i] == Decided(None)
      ensures Decided(None) in before
    {
      if i < |before| {
        assert before[i] == after[i];
      }
    }
  }

  lemma EarlierEndsRun(states: seq<seq<Event>>, steps: seq<Step>, step: Step, after: seq<Event>, task: Task, i: nat)
    requires |states| == |steps| + 1 && i < |steps|
    ensures EndsRun(states + [after], steps + [step], i, task) <==> EndsRun(states, steps, i, task)
  {
    hide Earned, Finals;
    assert (steps + [step])[..i + 1] == steps[..i + 1];
  }

  lemma LastEndsRun(states: seq<seq<Event>>, steps: seq<Step>, step: Step, after: seq<Event>, task: Task)
    requires |states| == |steps| + 1
    ensures var states', steps' := states + [after], steps + [step];
            && Finals(steps') == Finals(steps) + (if step.decision.Final? then 1 else 0)
            && (EndsRun(states', steps', |steps|, task)
                <==> step.decision.Final?
                     && (Earned(task, after) || Finals(steps') >= task.config.maxCompletionAttempts))
  {
    hide Earned;
    var steps' := steps + [step];
    assert steps'[..|steps|] == steps && steps'[..|steps| + 1] == steps';
  }

  function Recorded(r: Observation, revision: nat): Evidence
    requires r.Checked? || r.Failed?
  {
    if r.Checked? then Evidence(Some(r.output), Some(revision), None)
    else Evidence(None, Some(revision), Some(r.error))
  }

  // ------------------------------------------------------------------------------ whole tasks

  datatype TaskStatus = Completed | PreconditionFailed | AgentLimitReached | VerificationFailed | Errored

  datatype TaskResult = TaskResult(
    status: TaskStatus, baseline: Option<GitStatus>, run: Option<AgentRun>,
    workspaceRevision: nat, successfulMutations: nat, report: VerificationReport,
    finalReview: Option<FinalReview>, review: Option<CodingReview>, blockers: seq<Blocker>, completionAttempts: nat)

  /** The coding task does not start: a tool is missing, or Git has no status to start from, or not a clean one. */
  predicate Refused(log: seq<Event>, config: Config, toolsPresent: bool) {
    || !toolsPresent
    || (log != [] && log[0].StatusRead?
        && (log[0].status.Failure? || (config.requireCleanWorktree && !log[0].status.value.clean)))
  }

  /** What every result of a task promises of the history it leaves. */
  ghost predicate ResultHolds(result: TaskResult, log: seq<Event>, policy: Policy, config: Config, criteria: nat,
                              toolsPresent: bool)
  {
    && (result.status.PreconditionFailed? <==> Refused(log, config, toolsPresent))
    && (result.status.PreconditionFailed? ==> OnlyWorkflow([], log))
    && (result.baseline.Some? ==> log != [] && log[0] == StatusRead(Success(result.baseline.value)))
    && (!result.status.PreconditionFailed? ==>
          && result.baseline.Some? && |log| > 1 && log[1].Planned?
          && (result.status.Errored? <==> !log[1].success || Decided(None) in log))
    && (result.run.Some? <==> !result.status.PreconditionFailed? && !result.status.Errored?)
    && (result.run.Some? ==>
          var task := Task(policy, config, criteria, result.baseline.value);
          && (result.status.Completed? <==> result.run.value.status.RunCompleted?)
          && (result.status.VerificationFailed? <==> result.run.value.status.WorkflowStopped?)
          && result.completionAttempts == Finals(result.run.value.steps)
          && exists states :: RunIs(result.run.value, states, log, task))
    && (result.baseline.Some? ==>
          (result.status.Completed?
           <==> CompletionEarned(log, policy, criteria, result.baseline.value, config.maxReviewDiffChars)))
    && (result.status.Completed? ==>
          && result.finalReview.Some? && result.review.Some? && ReviewNow(log).value.1 == result.review
          && ReviewReports(result.finalReview.value, log, result.baseline.value, policy))
    && (result.blockers == [] <==> result.status.Completed?)
    && EvidenceValid(result.report.tests) && EvidenceValid(result.report.ruff)
    && result.workspaceRevision == result.successfulMutations == Mutations(log) <= config.maxMutations
    && (forall call, revision :: CallsAt(log, call, revision) <= MAX_IDENTICAL_TOOL_EXECUTIONS)
  }

  /** The run whose steps, after preflight and plan, make up the history. */
  ghost predicate RunIs(run: AgentRun, states: seq<seq<Event>>, log: seq<Event>, task: Task) {
    && RunEnds(run, states, task) && states[|run.steps|] <= log
    && states[0] == [StatusRead(Success(task.baseline)), Planned(true)]
  }

  /** One whole task, from preflight to result. `toolsPresent` says whether the registry offers every
      required tool. */
  method RunCodingTask(outside: Outside, policy: Policy, config: Config, criteria: nat, toolsPresent: bool)
    returns (exit: Exit<TaskResult>)
    requires outside.log == []
    modifies outside
    ensures exit.Done? || exit.CancellationRaised? || exit.OtherError?
    ensures exit.CancellationRaised? ==> Cancelled(outside.log) && Mutations(outside.log) == 0
    ensures exit.OtherError? ==> Broken(outside.log)
    ensures exit.Done? ==> ResultHolds(exit.value, outside.log, policy, config, criteria, toolsPresent)
  {
    hide ResultHolds, Mutations, MutatedPaths;
    var preflight, status := Preflight(outside, config, toolsPresent);
    if preflight.CancellationRaised? { return CancellationRaised; }
    if !preflight.value {
      StoppedEarly(PreconditionFailed, status, outside.log, policy, config, criteria, toolsPresent);
      return Done(EarlyResult(PreconditionFailed, status));
    }
    var raised := outside.Checkpoint(false);
    NothingMutated(outside.log);
    if raised { return CancellationRaised; }
    var planned := outside.Plan();
    NothingMutated(outside.log);
    if !planned {
      StoppedEarly(Errored, status, outside.log, policy, config, criteria, toolsPresent);
      return Done(EarlyResult(Errored, status));
    }
    raised := outside.Checkpoint(false);
    NothingMutated(outside.log);
    if raised { return CancellationRaised; }
    exit := RunPlannedTask(outside, Task(policy, config, criteria, status.value), toolsPresent);
  }

  /** Whether the coding task may start, and the Git status it starts from. */
  method Preflight(outside: Outside, config: Config, toolsPresent: bool)
    returns (exit: Exit<bool>, status: Option<GitStatus>)
    requires outside.log == []
    modifies outside
    ensures exit.Done? || exit.CancellationRaised?
    ensures exit.CancellationRaised? ==> Cancelled(outside.log) && Mutations(outside.log) == 0
    ensures exit.Done? ==>
              && (!exit.value <==> Refused(outside.log, config, toolsPresent))
              && |outside.log| <= 1 && (forall i :: 0 <= i < |outside.log| ==> outside.log[i].StatusRead?)
              && (status.Some? ==> outside.log == [StatusRead(Success(status.value))])
              && (exit.value ==> status.Some? && (config.requireCleanWorktree ==> status.value.clean))
  {
    hide Mutations, MutatedPaths, OnlyWorkflow;
    status := None;
    var raised := outside.Checkpoint(false);
    if raised {
      NothingMutated(outside.log);
      return CancellationRaised, None;
    }
    if !toolsPresent {
      return Done(false), None;
    }
    var read := outside.ReadStatus();
    if read.Failure? {
      return Done(false), None;
    }
    raised := outside.Checkpoint(false);
    if raised {
      NothingMutated(outside.log);
      return CancellationRaised, None;
    }
    status := Some(read.value);
    exit := Done(!config.requireCleanWorktree || read.value.clean);
  }

  lemma NothingMutated(log: seq<Event>)
    requires forall i :: 0 <= i < |log| ==> log[i].Caller().None?
    ensures OnlyWorkflow([], log) && Mutations(log) == 0
  {
    WorkflowMutatesNothing([], log);
    NothingDone();
  }

  /** The result of a task that ends before its run. */
  function EarlyResult(status: TaskStatus, baseline: Option<GitStatus>): TaskResult {
    TaskResult(status, baseline, None, 0, 0,
               VerificationReport(Evidence(None, None, None), Evidence(None, None, None), 0), None, None,
               [if status.Errored? then PlanningFailed else PreflightFailed], 0)
  }

  lemma StoppedEarly(status: TaskStatus, baseline: Option<GitStatus>, log: seq<Event>, policy: Policy, config: Config,
                     criteria: nat, toolsPresent: bool)
    requires OnlyWorkflow([], log) && |log| <= 2 && forall i :: 0 <= i < |log| ==> !log[i].Reviewed?
    requires status.PreconditionFailed? || status.Errored?
    requires status.PreconditionFailed? <==> Refused(log, config, toolsPresent)
    requires baseline.Some? ==> log != [] && log[0] == StatusRead(Success(baseline.value))
    requires status.Errored? ==> baseline.Some? && |log| == 2 && log[1] == Planned(false)
    ensures ResultHolds(EarlyResult(status, baseline), log, policy, config, criteria, toolsPresent)
  {
    hide Mutations, MutatedPaths, CallsAt, EvidenceComplete, Reviewable, ReviewTextNow, RunIs;
    WorkflowMutatesNothing([], log);
    NothingDone();
    NothingReviewed(log);
  }

  lemma {:induction false} NothingReviewed(log: seq<Event>)
    requires forall i :: 0 <= i < |log| ==> !log[i].Reviewed?
    ensures ReviewNow(log).None?
  {
    if log != [] {
      NothingReviewed(log[..|log| - 1]);
    }
  }

  /** The coding task after its preflight and its plan. */
  method RunPlannedTask(outside: Outside, task: Task, toolsPresent: bool) returns (exit: Exit<TaskResult>)
    requires outside.log == [StatusRead(Success(task.baseline)), Planned(true)] && toolsPresent
    requires task.config.requireCleanWorktree ==> task.baseline.clean
    modifies outside
    ensures exit.Done? || exit.CancellationRaised? || exit.OtherError?
    ensures exit.CancellationRaised? ==> Cancelled(outside.log) && Mutations(outside.log) == 0
    ensures exit.OtherError? ==> Broken(outside.log)
    ensures exit.Done? ==>
              ResultHolds(exit.value, outside.log, task.policy, task.config, task.criteria, toolsPresent)
  {
    hide LastRun, LastStatus, LastDiff, EvidenceComplete, Reviewable, ReviewReports, Mutations, MutatedPaths, CallsAt,
      AgentCalls, ReviewNow, Approves, RunEnds, ReviewTextNow, StepsTaken;
    NothingDone();
    NotYetApproved(task);
    var state := new Workflow(outside, task);
    ghost var start := outside.log;
    ghost var states;
    var run;
    run, states := state.RunAgent();
    assert outside.log[0] == start[0] && outside.log[1] == start[1];
    ghost var ran := outside.log;
    var captured, failed, raised;
    match run {
      case CancellationRaised => return CancellationRaised;
      case OtherError => return OtherError;
      case AgentError =>
        assert Decided(None) in outside.log;
        raised, captured, failed := state.CaptureFinalReview();
        WorkflowMutatesNothing(ran, outside.log);
        if raised { return CancellationRaised; }
        assert Decided(None) in outside.log;
        exit := Done(TaskResult(Errored, Some(task.baseline), None, state.workspaceRevision,
                                state.successfulMutations, state.Report(), captured, state.review, [AgentFailed],
                                state.completionAttempts));
      case Done(agentRun) =>
        RunEndsOneWay(agentRun, states, task);
        if state.finalReview.None? {
          raised, captured, failed := state.CaptureFinalReview();
          WorkflowMutatesNothing(ran, outside.log);
          if raised { return CancellationRaised; }
          ReadingsDecideNothing(ran, outside.log, task.policy);
          state.finalReview := captured;
        }
        assert RunIs(agentRun, states, outside.log, task);
        var taskStatus, taskBlockers := match agentRun.status
          case RunCompleted => Completed
          case WorkflowStopped => VerificationFailed
          case MaxIterations => AgentLimitReached,
          match agentRun.status
          case RunCompleted => []
          case WorkflowStopped => state.blockers
          case MaxIterations => [IterationLimit];
        exit := Done(TaskResult(taskStatus, Some(task.baseline), Some(agentRun), state.workspaceRevision,
                                state.successfulMutations, state.Report(), state.finalReview, state.review,
                                taskBlockers, state.completionAttempts));
    }
  }

  lemma NotYetApproved(task: Task)
    ensures var log := [StatusRead(Success(task.baseline)), Planned(true)];
            && OnlyWorkflow([], log) && !ApprovedNow(log, task.criteria) && Decided(None) !in log
            && Mutations(log) == 0 && MutatedPaths(log) == {}
  {
    var log := [StatusRead(Success(task.baseline)), Planned(true)];
    WorkflowMutatesNothing([], log);
    NothingDone();
    NothingReviewed(log);
  }

  lemma RunEndsOneWay(run: AgentRun, states: seq<seq<Event>>, task: Task)
    requires RunEnds(run, states, task)
    ensures |states| == |run.steps| + 1
  {
  }
}
