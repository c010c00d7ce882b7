/** The history of a coding task: what was executed and what the outside answered, in order, and
    what a completed task promises about it. */
module CodingHistory {
  import opened Wrappers
  import opened Text
  import opened CompletionGate

  datatype ToolName = CreateFile | ReplaceText | RunTests | RunRuff | NamedTool(name: string)

  /** The `paths` argument of a verifier call, as the recorder reads it. */
  datatype PathsArgument = Absent | Given(paths: seq<Path>) | Malformed

  /** `arguments` is the canonical JSON of every argument other than `paths`. */
  datatype ToolCall = ToolCall(tool: ToolName, paths: PathsArgument, arguments: string)
  {
    predicate IsMutation() {
      tool.CreateFile? || tool.ReplaceText?
    }
  }

  datatype Decision = Final(answer: string) | UseTool(call: ToolCall)

  /** Executions of tools and answers of the outside: of Git, of the models, and of the job store that
      cancels and that accepts or refuses a side-effect mark. A tool call belongs to the agent;
      without one, the workflow itself acted. Blocked calls leave no event. */
  datatype Event =
    | Mutated(call: ToolCall, path: Option<Path>)
    | OtherTool(call: ToolCall, error: Option<string>)
    | CheckRun(check: Check, scope: seq<Path>, outcome: Result<CheckOutput, string>, agentCall: Option<ToolCall>)
    | StatusRead(status: Result<GitStatus, string>)
    | DiffRead(staged: bool, diff: Result<GitDiff, string>)
    | Reviewed(text: string, answer: Option<CodingReview>)
    | Planned(success: bool)
    | Decided(decision: Option<Decision>)
    | Marked(accepted: bool)
    | CancelRaised
  {
    function Caller(): Option<ToolCall> {
      match this
      case Mutated(call, _) => Some(call)
      case OtherTool(call, _) => Some(call)
      case CheckRun(_, _, _, agentCall) => agentCall
      case _ => None
    }
  }

  function Mutations(log: seq<Event>): nat {
    if log == [] then 0 else Mutations(log[..|log| - 1]) + (if log[|log| - 1].Mutated? then 1 else 0)
  }

  function MutatedPaths(log: seq<Event>): set<Path> {
    if log == [] then {}
    else
      var last := log[|log| - 1];
      MutatedPaths(log[..|log| - 1]) + (if last.Mutated? && last.path.Some? then {last.path.value} else {})
  }

  predicate RunsCheck(e: Event, check: Check, scope: seq<Path>) {
    e.CheckRun? && e.check == check && e.scope == scope
  }

  /** The last execution of a check over exactly this scope, with the revision it saw. */
  function LastRun(log: seq<Event>, check: Check, scope: seq<Path>): Option<(Result<CheckOutput, string>, nat)> {
    if log == [] then None
    else
      var last, before := log[|log| - 1], log[..|log| - 1];
      if RunsCheck(last, check, scope) then Some((last.outcome, Mutations(before)))
      else LastRun(before, check, scope)
  }

  function LastStatus(log: seq<Event>): Option<(Result<GitStatus, string>, nat)> {
    if log == [] then None
    else
      var last, before := log[|log| - 1], log[..|log| - 1];
      if last.StatusRead? then Some((last.status, Mutations(before))) else LastStatus(before)
  }

  function LastDiff(log: seq<Event>, staged: bool): Option<(Result<GitDiff, string>, nat)> {
    if log == [] then None
    else
      var last, before := log[|log| - 1], log[..|log| - 1];
      if last.DiffRead? && last.staged == staged then Some((last.diff, Mutations(before)))
      else LastDiff(before, staged)
  }

  /** The last review asked for since the last mutation: the text shown and the answer. */
  function ReviewNow(log: seq<Event>): Option<(string, Option<CodingReview>)> {
    if log == [] then None
    else
      var last := log[|log| - 1];
      if last.Reviewed? then Some((last.text, last.answer))
      else if last.Mutated? then None
      else ReviewNow(log[..|log| - 1])
  }

  /** How often the agent's call was executed at one revision of the workspace. */
  function CallsAt(log: seq<Event>, call: ToolCall, revision: nat): nat {
    if log == [] then 0
    else
      var last, before := log[|log| - 1], log[..|log| - 1];
      CallsAt(before, call, revision) + if last.Caller() == Some(call) && Mutations(before) == revision then 1 else 0
  }

  function AgentCalls(log: seq<Event>): nat {
    if log == [] then 0 else AgentCalls(log[..|log| - 1]) + if log[|log| - 1].Caller().Some? then 1 else 0
  }

  lemma NothingDone()
    ensures Mutations([]) == 0 && MutatedPaths([]) == {} && AgentCalls([]) == 0 && ReviewNow([]).None?
    ensures forall call, revision :: CallsAt([], call, revision) == 0
  {
  }

  lemma Extended(log: seq<Event>, e: Event)
    ensures (log + [e])[..|log + [e]| - 1] == log
  {
  }

  // ------------------------------------------------------------------- what events leave alone

  /** The history grew without a tool call of the agent. */
  ghost predicate OnlyWorkflow(before: seq<Event>, after: seq<Event>) {
    before <= after && forall i :: |before| <= i < |after| ==> after[i].Caller().None?
  }

  lemma {:induction false} WorkflowMutatesNothing(before: seq<Event>, after: seq<Event>)
    requires OnlyWorkflow(before, after)
    ensures Mutations(after) == Mutations(before) && MutatedPaths(after) == MutatedPaths(before)
    ensures AgentCalls(after) == AgentCalls(before)
    ensures forall call, revision :: CallsAt(after, call, revision) == CallsAt(before, call, revision)
    decreases |after|
  {
    if |after| == |before| {
      assert after == before;
    } else {
      WorkflowMutatesNothing(before, after[..|after| - 1]);
    }
  }

  /** An answer that is no tool run changes only what it answers. */
  lemma AnswerKeeps(log: seq<Event>, e: Event)
    requires e.Caller().None? && !e.CheckRun?
    ensures
      var log' := log + [e];
      && OnlyWorkflow(log, log')
      && Mutations(log') == Mutations(log) && MutatedPaths(log') == MutatedPaths(log)
      && (forall check, scope :: LastRun(log', check, scope) == LastRun(log, check, scope))
      && LastStatus(log') == (if e.StatusRead? then Some((e.status, Mutations(log))) else LastStatus(log))
      && (forall staged :: LastDiff(log', staged) ==
            if e.DiffRead? && e.staged == staged then Some((e.diff, Mutations(log))) else LastDiff(log, staged))
      && ReviewNow(log') == (if e.Reviewed? then Some((e.text, e.answer)) else ReviewNow(log))
  {
    Extended(log, e);
  }

  /** A run of a check by the workflow becomes the last run of that check and scope. */
  lemma RunIsLast(log: seq<Event>, check: Check, scope: seq<Path>, outcome: Result<CheckOutput, string>)
    ensures
      var log' := log + [CheckRun(check, scope, outcome, None)];
      && OnlyWorkflow(log, log') && Mutations(log') == Mutations(log) && MutatedPaths(log') == MutatedPaths(log)
      && LastRun(log', check, scope) == Some((outcome, Mutations(log)))
      && (forall other, paths :: other != check ==> LastRun(log', other, paths) == LastRun(log, other, paths))
      && ReviewNow(log') == ReviewNow(log)
  {
    Extended(log, CheckRun(check, scope, outcome, None));
  }

  // ---------------------------------------------------------------- what completion promises

  predicate PassedNow(log: seq<Event>, check: Check, scope: seq<Path>) {
    LastRun(log, check, scope) == Some((Success(CheckOutput(true, scope)), Mutations(log)))
  }

  predicate IsListed(status: GitStatus, path: Path) {
    exists i :: 0 <= i < |status.changedFiles| && status.changedFiles[i].path == path
  }

  /** Some file has a change in the index: the first column of its porcelain status line. */
  predicate HasStaged(status: GitStatus) {
    exists i :: 0 <= i < |status.changedFiles| && |status.changedFiles[i].status| > 0
      && status.changedFiles[i].status[0] != ' ' && status.changedFiles[i].status[0] != '?'
  }

  /** The diff of the current revision, if the last attempt to read it succeeded. */
  function DiffNow(log: seq<Event>, staged: bool): Option<GitDiff> {
    match LastDiff(log, staged)
    case Some((Success(diff), revision)) => if revision == Mutations(log) then Some(diff) else None
    case _ => None
  }

  function StatusNow(log: seq<Event>): Option<GitStatus> {
    match LastStatus(log)
    case Some((Success(status), revision)) => if revision == Mutations(log) then Some(status) else None
    case _ => None
  }

  /** A diff with something other than white space in it. */
  predicate HasText(diff: Option<GitDiff>) {
    diff.Some? && exists i :: 0 <= i < |diff.value.content| && !IsSpace(diff.value.content[i])
  }

  /** The diffs that the policy asks for. */
  function UnstagedNow(log: seq<Event>, policy: Policy): Option<GitDiff> {
    if policy.requireFinalDiff then DiffNow(log, false) else None
  }

  function StagedNow(log: seq<Event>, policy: Policy): Option<GitDiff> {
    if policy.requireFinalDiff && StatusNow(log).Some? && HasStaged(StatusNow(log).value) then DiffNow(log, true)
    else None
  }

  /** Everything required was observed at the current revision, and nothing in it is out of order:
      passing checks of the required scopes, a complete status without unexpected files, and diffs that
      show any change of a file that the agent mutated. */
  ghost predicate EvidenceComplete(log: seq<Event>, policy: Policy, baseline: GitStatus) {
    && (policy.requireTests ==> PassedNow(log, Tests, policy.testPaths))
    && (policy.requireRuff ==> PassedNow(log, Ruff, policy.ruffPaths))
    && StatusNow(log).Some?
    && var status := StatusNow(log).value;
       && !status.truncated
       && (forall p :: IsListed(status, p) ==> p in MutatedPaths(log) || IsListed(baseline, p))
       && (policy.requireFinalDiff ==>
             && UnstagedNow(log, policy).Some? && (HasStaged(status) ==> StagedNow(log, policy).Some?)
             && ((exists p :: p in MutatedPaths(log) && IsListed(status, p)) ==>
                   HasText(UnstagedNow(log, policy)) || HasText(StagedNow(log, policy))))
  }

  /** The text shown to the independent review: each diff that has content, marked as what it is. */
  function ReviewText(unstaged: string, staged: string): string {
    var first := if unstaged == "" then "" else "<unstaged_diff>\n" + unstaged + "\n</unstaged_diff>";
    var second := if staged == "" then "" else "<staged_diff>\n" + staged + "\n</staged_diff>";
    first + (if unstaged != "" && staged != "" then "\n" else "") + second
  }

  function Content(diff: Option<GitDiff>): string {
    if diff.Some? then diff.value.content else ""
  }

  function ReviewTextNow(log: seq<Event>, policy: Policy): string {
    ReviewText(Content(UnstagedNow(log, policy)), Content(StagedNow(log, policy)))
  }

  predicate Cut(diff: Option<GitDiff>) {
    diff.Some? && diff.value.truncated
  }

  /** The diffs can be shown to the independent review in full. */
  predicate Reviewable(log: seq<Event>, policy: Policy, maxChars: nat) {
    && !Cut(UnstagedNow(log, policy)) && !Cut(StagedNow(log, policy))
    && |ReviewTextNow(log, policy)| <= maxChars
  }

  ghost predicate JudgedSatisfied(review: CodingReview, criterion: nat) {
    exists i :: 0 <= i < |review.acceptanceResults|
      && review.acceptanceResults[i] == CriterionReview(criterion, Satisfied)
  }

  /** An approving review of a revision: every criterion judged once and satisfied, nothing to correct. */
  ghost predicate Approves(review: CodingReview, criteria: nat, revision: nat) {
    && review.verdict.Approve? && review.workspaceRevision == revision && review.requiredCorrections == []
    && (forall criterion :: 0 <= criterion < criteria ==> JudgedSatisfied(review, criterion))
    && (forall i :: 0 <= i < |review.acceptanceResults| ==>
          review.acceptanceResults[i].index < criteria && review.acceptanceResults[i].status.Satisfied?)
    && forall i, k :: 0 <= i < k < |review.acceptanceResults| ==>
         review.acceptanceResults[i].index != review.acceptanceResults[k].index
  }

  ghost predicate ApprovedNow(log: seq<Event>, criteria: nat) {
    ReviewNow(log).Some? && ReviewNow(log).value.1.Some?
    && Approves(ReviewNow(log).value.1.value, criteria, Mutations(log))
  }

  /** The whole promise of a completed task, said of the history alone. */
  ghost predicate CompletionEarned(log: seq<Event>, policy: Policy, criteria: nat, baseline: GitStatus, maxChars: nat) {
    && EvidenceComplete(log, policy, baseline) && Reviewable(log, policy, maxChars)
    && ApprovedNow(log, criteria) && ReviewNow(log).value.0 == ReviewTextNow(log, policy)
  }

  /** An answer that the two validators let through and that approves is an approving review. */
  lemma AcceptedApproves(review: CodingReview, criteria: nat, revision: nat)
    ensures VerdictConsistent(review) && ValidForTask(review, criteria, revision) && review.verdict.Approve?
       <==> Approves(review, criteria, revision)
  {
    if VerdictConsistent(review) && ValidForTask(review, criteria, revision) && review.verdict.Approve? {
      forall criterion | 0 <= criterion < criteria
        ensures JudgedSatisfied(review, criterion)
      {
        assert Judges(review, criterion);
        var i :| 0 <= i < |review.acceptanceResults| && review.acceptanceResults[i].index == criterion;
        assert review.acceptanceResults[i] == CriterionReview(criterion, Satisfied);
      }
    }
    if Approves(review, criteria, revision) {
      forall criterion | 0 <= criterion < criteria
        ensures Judges(review, criterion)
      {
        assert JudgedSatisfied(review, criterion);
      }
    }
  }

  /** The same promise by position: some passing run of the required scope is followed by no
      file mutation and no later run of that check and scope. */
  lemma {:induction false} FreshRunHasNoLaterEdit(log: seq<Event>, check: Check, scope: seq<Path>,
                                                 outcome: Result<CheckOutput, string>)
    requires LastRun(log, check, scope) == Some((outcome, Mutations(log)))
    ensures exists i :: 0 <= i < |log| && RunsCheck(log[i], check, scope) && log[i].outcome == outcome
              && forall k :: i < k < |log| ==> !log[k].Mutated? && !RunsCheck(log[k], check, scope)
  {
    var n := |log| - 1;
    var last, before := log[n], log[..n];
    if RunsCheck(last, check, scope) {
      assert RunsCheck(log[n], check, scope);
    } else {
      LastRunRevisionBound(before, check, scope);
      FreshRunHasNoLaterEdit(before, check, scope, outcome);
      var i :| 0 <= i < |before| && RunsCheck(before[i], check, scope) && before[i].outcome == outcome
        && forall k :: i < k < |before| ==> !before[k].Mutated? && !RunsCheck(before[k], check, scope);
      assert log[i] == before[i];
      forall k | i < k < |log|
        ensures !log[k].Mutated? && !RunsCheck(log[k], check, scope)
      {
        if k < n { assert log[k] == before[k]; }
      }
    }
  }

  lemma {:induction false} LastRunRevisionBound(log: seq<Event>, check: Check, scope: seq<Path>)
    ensures LastRun(log, check, scope).Some? ==> LastRun(log, check, scope).value.1 <= Mutations(log)
  {
    if log != [] {
      LastRunRevisionBound(log[..|log| - 1], check, scope);
    }
  }
}
