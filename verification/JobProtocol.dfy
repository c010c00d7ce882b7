/** Every interleaving of workers, clients, heartbeats and recovery over one job table. */
module JobProtocol {
  import opened Wrappers
  import opened Jobs

  /** Where a worker stands between two store transactions. A worker in Working runs the
      dispatched operation; Mutated is the window after a successful file mutation and before
      the side-effect mark; Cancelling follows a checkpoint that raised. */
  datatype Phase =
    | Idle
    | Starting(job: JobId)
    | Working(job: JobId)
    | Mutated(job: JobId)
    | Cancelling(job: JobId)
    | Succeeding(job: JobId, result: string)
    | Failing(job: JobId, code: string)
    | Crashed

  /** `mutated` is history: the jobs some worker has changed a repository file for. */
  datatype State = State(
    jobs: map<JobId, Job>,
    now: Time,
    phases: map<WorkerId, Phase>,
    mutated: set<JobId>)
  {
    function PhaseOf(w: WorkerId): Phase {
      if w in phases then phases[w] else Idle
    }

    function Moved(w: WorkerId, p: Phase): State {
      this.(phases := phases[w := p])
    }

    function Stored(id: JobId, j: Job): State {
      this.(jobs := jobs[id := j])
    }
  }

  /** One atomic step; its arguments hold every choice the environment makes. */
  datatype Event =
    | Tick(to: Time)
    | Create(id: JobId, jobType: JobType)
    | RequestCancel(id: JobId)
    | Recover(locked: set<JobId>)
    | Claim(w: WorkerId, id: JobId, locked: set<JobId>, lease: nat)
    | Heartbeat(w: WorkerId, id: JobId, lease: nat)
    | LinkTrace(w: WorkerId, traceRun: nat)
    | Checkpoint(w: WorkerId)
    | Mutate(w: WorkerId)
    | MarkSideEffect(w: WorkerId)
    | OperationReturns(w: WorkerId, result: string)
    | OperationRaises(w: WorkerId, code: string)
    | Finish(w: WorkerId)
    | DatabaseBlip(w: WorkerId)
    | Crash(w: WorkerId)

  predicate Busy(p: Phase) {
    !p.Idle? && !p.Crashed?
  }

  predicate Enabled(s: State, e: Event) {
    match e
    case Tick(to) => s.now <= to
    case Create(id, _) => id !in s.jobs
    case RequestCancel(_) => true
    case Recover(_) => true
    case Claim(w, id, locked, _) => s.PhaseOf(w).Idle? && IsNextClaim(s.jobs, locked, id)
    case Heartbeat(_, _, _) => true
    case LinkTrace(w, _) => s.PhaseOf(w).Starting?
    case Checkpoint(w) => s.PhaseOf(w).Working? && s.PhaseOf(w).job in s.jobs
    case Mutate(w) =>
      // Only coding executions are given the mutation tools.
      s.PhaseOf(w).Working? && s.PhaseOf(w).job in s.jobs && s.jobs[s.PhaseOf(w).job].jobType.Coding?
    case MarkSideEffect(w) => s.PhaseOf(w).Mutated?
    case OperationReturns(w, _) => s.PhaseOf(w).Working?
    case OperationRaises(w, _) => s.PhaseOf(w).Working? || s.PhaseOf(w).Mutated?
    case Finish(w) => s.PhaseOf(w).Cancelling? || s.PhaseOf(w).Succeeding? || s.PhaseOf(w).Failing?
    case DatabaseBlip(w) => s.PhaseOf(w).Cancelling? || s.PhaseOf(w).Succeeding? || s.PhaseOf(w).Failing?
    case Crash(_) => true
  }

  predicate Holds(s: State, w: WorkerId, id: JobId) {
    id in s.jobs && s.jobs[id].HeldBy(w)
  }

  /** The state after an enabled event. Store transitions that the store refuses change no
      record; the worker then goes on as its exception handler does. */
  function Next(s: State, e: Event, maxAttempts: nat): State {
    match e
    case Tick(to) => s.(now := to)
    case Create(id, t) => s.Stored(id, NewJob(t, s.now))
    case RequestCancel(id) =>
      if id in s.jobs then s.Stored(id, CancelAsked(s.jobs[id], s.now)) else s
    case Recover(locked) => s.(jobs := RecoveredTable(s.jobs, s.now, locked, maxAttempts))
    case Claim(w, id, _, lease) =>
      if id in s.jobs
      then s.Stored(id, Claimed(s.jobs[id], w, s.now, lease)).Moved(w, Starting(id))
      else s
    case Heartbeat(w, id, lease) =>
      if Holds(s, w, id)
      then s.Stored(id, s.jobs[id].(leaseExpiresAt := Some(s.now + lease)))
      else s
    case LinkTrace(w, run) => NextLinkTrace(s, w, run)
    case Checkpoint(w) => NextCheckpoint(s, w)
    case Mutate(w) =>
      if s.PhaseOf(w).Working?
      then s.(mutated := s.mutated + {s.PhaseOf(w).job}).Moved(w, Mutated(s.PhaseOf(w).job))
      else s
    case MarkSideEffect(w) => NextMarkSideEffect(s, w)
    case OperationReturns(w, result) =>
      if s.PhaseOf(w).Working? then s.Moved(w, Succeeding(s.PhaseOf(w).job, result)) else s
    case OperationRaises(w, code) =>
      if s.PhaseOf(w).Working? || s.PhaseOf(w).Mutated?
      then s.Moved(w, Failing(s.PhaseOf(w).job, code))
      else s
    case Finish(w) => NextFinish(s, w)
    case DatabaseBlip(w) => s.Moved(w, Idle)
    case Crash(w) => s.Moved(w, Crashed)
  }

  function NextLinkTrace(s: State, w: WorkerId, run: nat): State {
    if !s.PhaseOf(w).Starting? then s
    else
      var id := s.PhaseOf(w).job;
      if Holds(s, w, id)
      then s.Stored(id, s.jobs[id].(traceRunId := Some(run))).Moved(w, Working(id))
      else s.Moved(w, Idle)
  }

  function NextCheckpoint(s: State, w: WorkerId): State {
    if !s.PhaseOf(w).Working? || s.PhaseOf(w).job !in s.jobs then s
    else
      var id := s.PhaseOf(w).job;
      if s.jobs[id].CancelRequested() && !s.jobs[id].CancellationState().Deferred?
      then s.Moved(w, Cancelling(id))
      else s
  }

  function NextMarkSideEffect(s: State, w: WorkerId): State {
    if !s.PhaseOf(w).Mutated? then s
    else
      var id := s.PhaseOf(w).job;
      if Holds(s, w, id)
      then s.Stored(id, SideEffectMarked(s.jobs[id], s.now)).Moved(w, Working(id))
      else s.Moved(w, Failing(id, "operation_failed"))
  }

  /** The terminal transition of the worker, accepted or refused; refusal is only logged. */
  function NextFinish(s: State, w: WorkerId): State {
    var p := s.PhaseOf(w);
    match p
    case Cancelling(id) =>
      if id in s.jobs && s.jobs[id].CancellableBy(w)
      then s.Stored(id, CancelRecorded(s.jobs[id], s.now)).Moved(w, Idle)
      else s.Moved(w, Idle)
    case Succeeding(id, result) =>
      if Holds(s, w, id)
      then s.Stored(id, SuccessRecorded(s.jobs[id], s.now, result)).Moved(w, Idle)
      else s.Moved(w, Idle)
    case Failing(id, code) =>
      if Holds(s, w, id)
      then s.Stored(id, FailureRecorded(s.jobs[id], s.now, code)).Moved(w, Idle)
      else s.Moved(w, Idle)
    case _ => s
  }

  const Initial := State(map[], 0, map[], {})

  ghost predicate IsRun(s: State, events: seq<Event>, maxAttempts: nat)
    decreases |events|
  {
    events == [] || (Enabled(s, events[0]) && IsRun(Next(s, events[0], maxAttempts), events[1..], maxAttempts))
  }

  function After(s: State, events: seq<Event>, maxAttempts: nat): State
    decreases |events|
  {
    if events == [] then s else After(Next(s, events[0], maxAttempts), events[1..], maxAttempts)
  }

  // ------------------------------------------------------------------ the inductive invariant

  ghost predicate RecordsOk(s: State, maxAttempts: nat) {
    forall id :: id in s.jobs ==> WellFormed(s.jobs[id], maxAttempts)
  }

  /** A busy worker's coding job was claimed by that worker and by nobody else. */
  ghost predicate WorkerOk(s: State, w: WorkerId) {
    var p := s.PhaseOf(w);
    Busy(p) ==>
      && p.job in s.jobs
      && var j := s.jobs[p.job];
      && (p.Mutated? ==> j.jobType.Coding? && p.job in s.mutated)
      && (p.Cancelling? ==> !j.status.Queued? && j.CancelRequested() && (j.HeldBy(w) ==> j.CancellableBy(w)))
      && (j.jobType.Coding? ==>
            && !j.status.Queued? && !j.status.Cancelled?
            && (j.status.Running? ==> j.leaseOwner == Some(w))
            && (p.job in s.mutated && (p.Starting? || p.Working? || p.Cancelling? || p.Succeeding?) ==>
                  j.sideEffectStartedAt.Some?))
  }

  ghost predicate WorkersOk(s: State) {
    forall w :: w in s.phases ==> WorkerOk(s, w)
  }

  /** No two workers ever execute the same coding job. */
  ghost predicate CodingExclusive(s: State) {
    forall v, w :: v in s.phases && w in s.phases && v != w
      && Busy(s.phases[v]) && Busy(s.phases[w]) && s.phases[v].job == s.phases[w].job
      && s.phases[v].job in s.jobs
      ==> !s.jobs[s.phases[v].job].jobType.Coding?
  }

  /** A job with a successful file mutation is a coding job that can no longer be cancelled. */
  ghost predicate MutationsOk(s: State) {
    forall id :: id in s.mutated ==>
      id in s.jobs && s.jobs[id].jobType.Coding? && !s.jobs[id].status.Queued? && !s.jobs[id].status.Cancelled?
  }

  ghost predicate Inv(s: State, maxAttempts: nat) {
    RecordsOk(s, maxAttempts) && WorkersOk(s) && CodingExclusive(s) && MutationsOk(s)
  }

  lemma RecordsStep(s: State, e: Event, maxAttempts: nat)
    requires maxAttempts >= 1 && RecordsOk(s, maxAttempts) && Enabled(s, e)
    ensures RecordsOk(Next(s, e, maxAttempts), maxAttempts)
  {
    if e.Recover? {
      RecoveredTableWellFormed(s.jobs, s.now, e.locked, maxAttempts);
    }
  }

  /** What a worker may rely on about its job's record while other parties act. */
  ghost predicate Undisturbed(j: Job, j': Job) {
    && j'.jobType == j.jobType
    && (j.CancelRequested() ==> j'.CancelRequested())
    && j'.sideEffectStartedAt == j.sideEffectStartedAt
    && (j.jobType.Coding? && !j.status.Queued? && !j.status.Cancelled? ==> !j'.status.Queued? && !j'.status.Cancelled?)
    && (!j.status.Queued? && j'.status.Running? ==> j.status.Running? && j'.leaseOwner == j.leaseOwner)
    && (j.CancelRequested() && !j.status.Queued? ==> !j'.status.Queued?)
  }

  /** The worker whose phase an event may change. */
  function Actor(e: Event): Option<WorkerId> {
    match e
    case Claim(w, _, _, _) => Some(w)
    case LinkTrace(w, _) => Some(w)
    case Checkpoint(w) => Some(w)
    case Mutate(w) => Some(w)
    case MarkSideEffect(w) => Some(w)
    case OperationReturns(w, _) => Some(w)
    case OperationRaises(w, _) => Some(w)
    case Finish(w) => Some(w)
    case DatabaseBlip(w) => Some(w)
    case Crash(w) => Some(w)
    case _ => None
  }

  ghost predicate KeptFor(s: State, s': State, w: WorkerId)
    requires w in s.phases
  {
    && w in s'.phases && s'.phases[w] == s.phases[w]
    && (Busy(s.phases[w]) ==>
          var id := s.phases[w].job;
          && id in s.jobs && id in s'.jobs && Undisturbed(s.jobs[id], s'.jobs[id])
          && s.mutated <= s'.mutated
          && (s.jobs[id].jobType.Coding? && id in s'.mutated ==> id in s.mutated))
  }

  lemma ClientsDisturbNobody(s: State, e: Event, w: WorkerId, maxAttempts: nat)
    requires Inv(s, maxAttempts) && Enabled(s, e)
    requires w in s.phases && Actor(e).None?
    ensures KeptFor(s, Next(s, e, maxAttempts), w)
  {
    assert WorkerOk(s, w);
  }

  lemma ClaimDisturbsNobody(s: State, e: Event, w: WorkerId, maxAttempts: nat)
    requires Inv(s, maxAttempts) && Enabled(s, e)
    requires w in s.phases && e.Claim? && e.w != w
    ensures KeptFor(s, Next(s, e, maxAttempts), w)
  {
    assert WorkerOk(s, w);
  }

  lemma FinishDisturbsNobody(s: State, e: Event, w: WorkerId, maxAttempts: nat)
    requires Inv(s, maxAttempts) && Enabled(s, e)
    requires w in s.phases && e.Finish? && e.w != w
    ensures KeptFor(s, Next(s, e, maxAttempts), w)
  {
    assert WorkerOk(s, w) && WorkerOk(s, e.w);
  }

  lemma OtherStepsDisturbNobody(s: State, e: Event, w: WorkerId, maxAttempts: nat)
    requires Inv(s, maxAttempts) && Enabled(s, e)
    requires w in s.phases && Actor(e).Some? && Actor(e).value != w && !e.Claim? && !e.Finish?
    ensures KeptFor(s, Next(s, e, maxAttempts), w)
  {
    hide NewJob, CancelAsked, RecoveredTable, Claimed;
    assert WorkerOk(s, w);
    if Actor(e).value in s.phases {
      assert WorkerOk(s, Actor(e).value);
    }
  }

  lemma WorkerKept(s: State, s': State, w: WorkerId)
    requires w in s.phases && WorkerOk(s, w) && KeptFor(s, s', w)
    ensures WorkerOk(s', w)
  {
  }

  lemma BystanderStep(s: State, e: Event, w: WorkerId, maxAttempts: nat)
    requires Inv(s, maxAttempts) && Enabled(s, e)
    requires w in s.phases && Actor(e) != Some(w)
    ensures WorkerOk(Next(s, e, maxAttempts), w)
  {
    if Actor(e).None? {
      ClientsDisturbNobody(s, e, w, maxAttempts);
    } else if e.Claim? {
      ClaimDisturbsNobody(s, e, w, maxAttempts);
    } else if e.Finish? {
      FinishDisturbsNobody(s, e, w, maxAttempts);
    } else {
      OtherStepsDisturbNobody(s, e, w, maxAttempts);
    }
    WorkerKept(s, Next(s, e, maxAttempts), w);
  }

  lemma ActorStep(s: State, e: Event, w: WorkerId, maxAttempts: nat)
    requires maxAttempts >= 1 && Inv(s, maxAttempts) && Enabled(s, e)
    requires Actor(e) == Some(w)
    ensures WorkerOk(Next(s, e, maxAttempts), w)
  {
    if w in s.phases {
      assert WorkerOk(s, w);
    }
  }

  lemma WorkersStep(s: State, e: Event, maxAttempts: nat)
    requires maxAttempts >= 1 && Inv(s, maxAttempts) && Enabled(s, e)
    ensures WorkersOk(Next(s, e, maxAttempts))
  {
    var s' := Next(s, e, maxAttempts);
    forall w | w in s'.phases
      ensures WorkerOk(s', w)
    {
      if Actor(e) == Some(w) {
        ActorStep(s, e, w, maxAttempts);
      } else {
        BystanderStep(s, e, w, maxAttempts);
      }
    }
  }

  ghost predicate JobTypesKept(s: State, s': State) {
    forall id :: id in s.jobs ==> id in s'.jobs && s'.jobs[id].jobType == s.jobs[id].jobType
  }

  /** Workers keep their jobs, except that a claim hands a queued job to an idle worker. */
  ghost predicate AssignmentsKept(s: State, s': State, e: Event) {
    forall w :: w in s'.phases && Busy(s'.phases[w]) ==>
      || (w in s.phases && Busy(s.phases[w]) && s.phases[w].job == s'.phases[w].job)
      || (e.Claim? && e.w == w && e.id == s'.phases[w].job && e.id in s.jobs && s.jobs[e.id].status.Queued?)
  }

  ghost predicate JobsKept(s: State, s': State, e: Event) {
    JobTypesKept(s, s') && AssignmentsKept(s, s', e)
  }

  lemma JobTypesKeptByStep(s: State, e: Event, maxAttempts: nat)
    requires Enabled(s, e)
    ensures JobTypesKept(s, Next(s, e, maxAttempts))
  {
    hide Before, Busy;
  }

  lemma AssignmentsKeptByStep(s: State, e: Event, maxAttempts: nat)
    requires Enabled(s, e)
    ensures AssignmentsKept(s, Next(s, e, maxAttempts), e)
  {
    hide Before, NewJob, Claimed, CancelAsked, SideEffectMarked, CancelRecorded, SuccessRecorded, FailureRecorded,
      RecoveredTable;
  }

  /** A claimed coding job was queued, so nobody is still executing it. */
  lemma ExclusionKept(s: State, s': State, e: Event)
    requires WorkersOk(s) && CodingExclusive(s) && JobsKept(s, s', e)
    ensures CodingExclusive(s')
  {
    forall v, w | v in s'.phases && w in s'.phases && v != w
      && Busy(s'.phases[v]) && Busy(s'.phases[w]) && s'.phases[v].job == s'.phases[w].job
      && s'.phases[v].job in s'.jobs
      ensures !s'.jobs[s'.phases[v].job].jobType.Coding?
    {
      if v in s.phases { assert WorkerOk(s, v); }
      if w in s.phases { assert WorkerOk(s, w); }
    }
  }

  lemma MutationsStep(s: State, e: Event, maxAttempts: nat)
    requires maxAttempts >= 1 && Inv(s, maxAttempts) && Enabled(s, e)
    ensures MutationsOk(Next(s, e, maxAttempts))
  {
    if Actor(e).Some? && Actor(e).value in s.phases {
      assert WorkerOk(s, Actor(e).value);
    }
  }

  lemma InvariantStep(s: State, e: Event, maxAttempts: nat)
    requires maxAttempts >= 1 && Inv(s, maxAttempts) && Enabled(s, e)
    ensures Inv(Next(s, e, maxAttempts), maxAttempts)
  {
    RecordsStep(s, e, maxAttempts);
    WorkersStep(s, e, maxAttempts);
    JobTypesKeptByStep(s, e, maxAttempts);
    AssignmentsKeptByStep(s, e, maxAttempts);
    ExclusionKept(s, Next(s, e, maxAttempts), e);
    MutationsStep(s, e, maxAttempts);
  }

  lemma {:induction false} InvariantHolds(s: State, events: seq<Event>, maxAttempts: nat)
    requires maxAttempts >= 1 && Inv(s, maxAttempts) && IsRun(s, events, maxAttempts)
    ensures Inv(After(s, events, maxAttempts), maxAttempts)
    decreases |events|
  {
    if events != [] {
      InvariantStep(s, events[0], maxAttempts);
      InvariantHolds(Next(s, events[0], maxAttempts), events[1..], maxAttempts);
    }
  }

  // ------------------------------------------------------------------------- main results

  /** Every record of every reachable table is well formed: lease fields, finish and cancel
      stamps, attempt bounds and payload fields agree with the status. */
  lemma EveryReachableRecordIsWellFormed(events: seq<Event>, maxAttempts: nat, id: JobId)
    requires maxAttempts >= 1 && IsRun(Initial, events, maxAttempts)
    requires id in After(Initial, events, maxAttempts).jobs
    ensures WellFormed(After(Initial, events, maxAttempts).jobs[id], maxAttempts)
  {
    InvariantHolds(Initial, events, maxAttempts);
  }

  /** No run ends with a cancelled job whose repository a worker changed. */
  lemma CancelledMeansUnmutated(events: seq<Event>, maxAttempts: nat, id: JobId)
    requires maxAttempts >= 1 && IsRun(Initial, events, maxAttempts)
    ensures var s := After(Initial, events, maxAttempts);
            id in s.jobs && s.jobs[id].status.Cancelled? ==> id !in s.mutated
  {
    InvariantHolds(Initial, events, maxAttempts);
  }

  lemma MarkSurvivesStep(s: State, e: Event, maxAttempts: nat, id: JobId)
    requires maxAttempts >= 1 && RecordsOk(s, maxAttempts) && Enabled(s, e)
    requires id in s.jobs && s.jobs[id].jobType.Coding? && s.jobs[id].sideEffectStartedAt.Some?
    ensures
      var jobs' := Next(s, e, maxAttempts).jobs;
      && id in jobs' && jobs'[id].jobType.Coding?
      && jobs'[id].sideEffectStartedAt == s.jobs[id].sideEffectStartedAt
  {
    hide NewJob, Claimed;
    assert WellFormed(s.jobs[id], maxAttempts);
  }

  /** Once a coding job's side effect is marked, no continuation of the run cancels it. */
  lemma {:induction false} MarkedIsNeverCancelled(s: State, events: seq<Event>, maxAttempts: nat, id: JobId)
    requires maxAttempts >= 1 && RecordsOk(s, maxAttempts) && IsRun(s, events, maxAttempts)
    requires id in s.jobs && s.jobs[id].jobType.Coding? && s.jobs[id].sideEffectStartedAt.Some?
    ensures var s' := After(s, events, maxAttempts);
            id in s'.jobs && s'.jobs[id].sideEffectStartedAt == s.jobs[id].sideEffectStartedAt
            && !s'.jobs[id].status.Cancelled?
    decreases |events|
  {
    if events != [] {
      RecordsStep(s, events[0], maxAttempts);
      MarkSurvivesStep(s, events[0], maxAttempts, id);
      MarkedIsNeverCancelled(Next(s, events[0], maxAttempts), events[1..], maxAttempts, id);
    } else {
      assert WellFormed(s.jobs[id], maxAttempts);
    }
  }

  /** After the mark a checkpoint of that job only defers, so its worker keeps working. */
  lemma MarkedCheckpointNeverRaises(events: seq<Event>, maxAttempts: nat, w: WorkerId)
    requires maxAttempts >= 1 && IsRun(Initial, events, maxAttempts)
    requires
      var s := After(Initial, events, maxAttempts);
      && s.PhaseOf(w).Working? && s.PhaseOf(w).job in s.jobs
      && s.jobs[s.PhaseOf(w).job].jobType.Coding? && s.jobs[s.PhaseOf(w).job].sideEffectStartedAt.Some?
    ensures Next(After(Initial, events, maxAttempts), Checkpoint(w), maxAttempts) == After(Initial, events, maxAttempts)
  {
    InvariantHolds(Initial, events, maxAttempts);
    var s := After(Initial, events, maxAttempts);
    assert WellFormed(s.jobs[s.PhaseOf(w).job], maxAttempts);
  }

  /** A raised checkpoint is honoured: whatever others do in between, if the lease is still
      held when the worker finishes, its cancellation is accepted. */
  lemma RaisedCheckpointIsHonoured(events: seq<Event>, maxAttempts: nat, w: WorkerId)
    requires maxAttempts >= 1 && IsRun(Initial, events, maxAttempts)
    requires
      var s := After(Initial, events, maxAttempts);
      s.PhaseOf(w).Cancelling? && Holds(s, w, s.PhaseOf(w).job)
    ensures
      var s := After(Initial, events, maxAttempts);
      Next(s, Finish(w), maxAttempts).jobs[s.PhaseOf(w).job].status.Cancelled?
  {
    InvariantHolds(Initial, events, maxAttempts);
    var s := After(Initial, events, maxAttempts);
    assert WorkerOk(s, w);
  }

  /** A request, once stamped, is never lost: no event takes it off a record. */
  lemma {:induction false} RequestIsKept(s: State, events: seq<Event>, maxAttempts: nat, id: JobId)
    requires IsRun(s, events, maxAttempts) && id in s.jobs && s.jobs[id].cancelRequestedAt.Some?
    ensures id in After(s, events, maxAttempts).jobs
    ensures After(s, events, maxAttempts).jobs[id].cancelRequestedAt == s.jobs[id].cancelRequestedAt
    decreases |events|
  {
    if events != [] {
      var s' := Next(s, events[0], maxAttempts);
      assert id in s'.jobs && s'.jobs[id].cancelRequestedAt == s.jobs[id].cancelRequestedAt;
      RequestIsKept(s', events[1..], maxAttempts, id);
    }
  }

  /** Cancelling a job in progress reaches its worker: whatever happens in between, the worker's next
      checkpoint raises unless the coding job was marked meanwhile, and if the worker still holds the
      lease, the cancellation it then records is accepted. */
  lemma CancelReachesTheWorker(s: State, events: seq<Event>, maxAttempts: nat, w: WorkerId, id: JobId)
    requires id in s.jobs && s.jobs[id].status.Running?
    requires IsRun(Next(s, RequestCancel(id), maxAttempts), events, maxAttempts)
    requires var after := After(Next(s, RequestCancel(id), maxAttempts), events, maxAttempts);
             after.PhaseOf(w) == Working(id) && id in after.jobs
             && !(after.jobs[id].jobType.Coding? && after.jobs[id].sideEffectStartedAt.Some?)
    ensures var after := After(Next(s, RequestCancel(id), maxAttempts), events, maxAttempts);
            var raised := Next(after, Checkpoint(w), maxAttempts);
            && raised.PhaseOf(w) == Cancelling(id)
            && (after.jobs[id].status.Running? && after.jobs[id].leaseOwner == Some(w) ==>
                  Next(raised, Finish(w), maxAttempts).jobs[id].status.Cancelled?)
  {
    RequestIsKept(Next(s, RequestCancel(id), maxAttempts), events, maxAttempts, id);
  }

  /** Terminal records never change again, in any continuation. */
  lemma {:induction false} TerminalIsFinal(s: State, events: seq<Event>, maxAttempts: nat, id: JobId)
    requires IsRun(s, events, maxAttempts)
    requires id in s.jobs && s.jobs[id].Terminal()
    ensures id in After(s, events, maxAttempts).jobs && After(s, events, maxAttempts).jobs[id] == s.jobs[id]
    decreases |events|
  {
    if events != [] {
      TerminalIsFinal(Next(s, events[0], maxAttempts), events[1..], maxAttempts, id);
    }
  }

  /** A job becomes terminal only by its lease owner, by lease expiry, or by a cancel of a
      queued job; success and cancellation of a started job only by a live owner's own step
      or, for cancellation, by recovery of an expired non-coding lease. */
  lemma OutcomeIsAuthorised(s: State, e: Event, maxAttempts: nat, id: JobId)
    requires Enabled(s, e) && id in s.jobs && !s.jobs[id].Terminal()
    requires Next(s, e, maxAttempts).jobs[id].Terminal()
    ensures
      || (e.Finish? && s.jobs[id].HeldBy(e.w) && Busy(s.PhaseOf(e.w)) && s.PhaseOf(e.w).job == id)
      || (e.Recover? && id !in e.locked && s.jobs[id].status.Running?
          && s.jobs[id].leaseExpiresAt.Some? && s.jobs[id].leaseExpiresAt.value <= s.now
          && !Next(s, e, maxAttempts).jobs[id].status.Succeeded?)
      || (e == RequestCancel(id) && s.jobs[id].status.Queued? && Next(s, e, maxAttempts).jobs[id].status.Cancelled?)
  {
  }

  function Outcomes(s: State, events: seq<Event>, maxAttempts: nat, id: JobId): nat
    decreases |events|
  {
    if events == [] then 0
    else
      var s' := Next(s, events[0], maxAttempts);
      (if id in s'.jobs && s'.jobs[id].Terminal() && !(id in s.jobs && s.jobs[id].Terminal()) then 1 else 0)
      + Outcomes(s', events[1..], maxAttempts, id)
  }

  /** Each job gets at most one outcome in any run, and exactly one when it ends terminal. */
  lemma {:induction false} AtMostOneOutcome(s: State, events: seq<Event>, maxAttempts: nat, id: JobId)
    requires IsRun(s, events, maxAttempts)
    requires id !in s.jobs || !s.jobs[id].Terminal()
    ensures
      var s' := After(s, events, maxAttempts);
      Outcomes(s, events, maxAttempts, id) == if id in s'.jobs && s'.jobs[id].Terminal() then 1 else 0
    decreases |events|
  {
    if events != [] {
      var s' := Next(s, events[0], maxAttempts);
      if id in s'.jobs && s'.jobs[id].Terminal() {
        TerminalIsFinal(s', events[1..], maxAttempts, id);
        NoFurtherOutcome(s', events[1..], maxAttempts, id);
      } else {
        AtMostOneOutcome(s', events[1..], maxAttempts, id);
      }
    }
  }

  lemma {:induction false} NoFurtherOutcome(s: State, events: seq<Event>, maxAttempts: nat, id: JobId)
    requires IsRun(s, events, maxAttempts) && id in s.jobs && s.jobs[id].Terminal()
    ensures Outcomes(s, events, maxAttempts, id) == 0
    decreases |events|
  {
    if events != [] {
      NoFurtherOutcome(Next(s, events[0], maxAttempts), events[1..], maxAttempts, id);
    }
  }

  /** The retry measure of one record: two units per remaining attempt. */
  function RetryMeasure(j: Job, maxAttempts: nat): int {
    if j.Terminal() then 0
    else if j.status.Queued? then 2 * (maxAttempts - j.attemptCount)
    else 2 * (maxAttempts - j.attemptCount) + 1
  }

  ghost predicate MeasureDecreases(j: Job, j': Job, maxAttempts: nat) {
    if j'.status == j.status then RetryMeasure(j', maxAttempts) == RetryMeasure(j, maxAttempts)
    else RetryMeasure(j', maxAttempts) < RetryMeasure(j, maxAttempts)
  }

  lemma ClientsDecreaseMeasure(s: State, e: Event, maxAttempts: nat, id: JobId)
    requires maxAttempts >= 1 && RecordsOk(s, maxAttempts) && Enabled(s, e) && id in s.jobs && Actor(e).None?
    ensures MeasureDecreases(s.jobs[id], Next(s, e, maxAttempts).jobs[id], maxAttempts)
  {
    hide Claimed, SideEffectMarked, CancelRecorded, SuccessRecorded, FailureRecorded, Before;
  }

  lemma WorkersDecreaseMeasure(s: State, e: Event, maxAttempts: nat, id: JobId)
    requires maxAttempts >= 1 && RecordsOk(s, maxAttempts) && Enabled(s, e) && id in s.jobs && Actor(e).Some?
    ensures MeasureDecreases(s.jobs[id], Next(s, e, maxAttempts).jobs[id], maxAttempts)
  {
    hide NewJob, CancelAsked, Recovered, Before;
  }

  lemma StatusChangeDecreasesMeasure(s: State, e: Event, maxAttempts: nat, id: JobId)
    requires maxAttempts >= 1 && RecordsOk(s, maxAttempts) && Enabled(s, e) && id in s.jobs
    ensures MeasureDecreases(s.jobs[id], Next(s, e, maxAttempts).jobs[id], maxAttempts)
  {
    hide MeasureDecreases, Next, Enabled, RecordsOk;
    if Actor(e).None? {
      ClientsDecreaseMeasure(s, e, maxAttempts, id);
    } else {
      WorkersDecreaseMeasure(s, e, maxAttempts, id);
    }
  }

  function StatusChanges(s: State, events: seq<Event>, maxAttempts: nat, id: JobId): nat
    decreases |events|
  {
    if events == [] then 0
    else
      var s' := Next(s, events[0], maxAttempts);
      (if id in s.jobs && id in s'.jobs && s'.jobs[id].status != s.jobs[id].status then 1 else 0)
      + StatusChanges(s', events[1..], maxAttempts, id)
  }

  lemma {:induction false} ChangesBoundedByMeasure(s: State, events: seq<Event>, maxAttempts: nat, id: JobId)
    requires maxAttempts >= 1 && RecordsOk(s, maxAttempts) && IsRun(s, events, maxAttempts)
    ensures StatusChanges(s, events, maxAttempts, id) <=
            if id in s.jobs then RetryMeasure(s.jobs[id], maxAttempts) else 2 * maxAttempts
    decreases |events|
  {
    if events != [] {
      RecordsStep(s, events[0], maxAttempts);
      ChangesBoundedByMeasure(Next(s, events[0], maxAttempts), events[1..], maxAttempts, id);
      if id in s.jobs {
        StatusChangeDecreasesMeasure(s, events[0], maxAttempts, id);
      }
    }
  }

  /** However often leases expire, a job changes status at most 2 * maxAttempts times. */
  lemma RetriesAreBounded(events: seq<Event>, maxAttempts: nat, id: JobId)
    requires maxAttempts >= 1 && IsRun(Initial, events, maxAttempts)
    ensures StatusChanges(Initial, events, maxAttempts, id) <= 2 * maxAttempts
  {
    ChangesBoundedByMeasure(Initial, events, maxAttempts, id);
  }

  function Claims(events: seq<Event>, id: JobId): nat {
    if events == [] then 0
    else (if events[0].Claim? && events[0].id == id then 1 else 0) + Claims(events[1..], id)
  }

  /** The attempt counter counts claims exactly, so no run claims a job more than maxAttempts
      times, nor a coding job more than once. */
  lemma {:induction false} AttemptsCountClaims(s: State, events: seq<Event>, maxAttempts: nat, id: JobId)
    requires maxAttempts >= 1 && RecordsOk(s, maxAttempts) && IsRun(s, events, maxAttempts)
    requires id in After(s, events, maxAttempts).jobs
    ensures
      var j := After(s, events, maxAttempts).jobs[id];
      && j.attemptCount == (if id in s.jobs then s.jobs[id].attemptCount else 0) + Claims(events, id)
      && j.attemptCount <= maxAttempts
      && (j.jobType.Coding? ==> j.attemptCount <= 1)
    decreases |events|
  {
    hide Next, Enabled;
    if events != [] {
      RecordsStep(s, events[0], maxAttempts);
      AttemptsCountClaims(Next(s, events[0], maxAttempts), events[1..], maxAttempts, id);
      ClaimsCounted(s, events[0], maxAttempts, id);
    }
  }

  /** Only a claim of the job counts, and no job disappears. */
  lemma ClaimsCounted(s: State, e: Event, maxAttempts: nat, id: JobId)
    requires maxAttempts >= 1 && RecordsOk(s, maxAttempts) && Enabled(s, e)
    ensures
      var s' := Next(s, e, maxAttempts);
      && (id in s.jobs ==> id in s'.jobs)
      && (e.Claim? && e.id == id ==> id in s'.jobs)
      && (id in s'.jobs ==>
            s'.jobs[id].attemptCount
            == (if id in s.jobs then s.jobs[id].attemptCount else 0) + (if e.Claim? && e.id == id then 1 else 0))
  {
    hide WellFormed;
  }
}
