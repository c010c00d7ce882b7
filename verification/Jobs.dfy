/** The durable job table: one record per job, changed only by atomic row-locked transitions. */
module Jobs {
  import opened Wrappers

  type JobId = nat
  type WorkerId = nat
  type Time = int

  datatype JobType = Index | Rag | Agent | Coding

  datatype JobStatus = Queued | Running | Succeeded | Failed | Cancelled

  datatype CancellationState = Available | Requested | Deferred | Unavailable | CancelDone

  datatype JobError = NotFound | LeaseLost | NotCancellable

  datatype Job = Job(
    jobType: JobType,
    status: JobStatus,
    attemptCount: nat,
    createdAt: Time,
    startedAt: Option<Time>,
    finishedAt: Option<Time>,
    leaseOwner: Option<WorkerId>,
    leaseExpiresAt: Option<Time>,
    traceRunId: Option<nat>,
    cancelRequestedAt: Option<Time>,
    cancelledAt: Option<Time>,
    sideEffectStartedAt: Option<Time>,
    result: Option<string>,
    errorCode: Option<string>)
  {
    predicate Terminal() {
      status.Succeeded? || status.Failed? || status.Cancelled?
    }

    predicate CancelRequested() {
      cancelRequestedAt.Some?
    }

    function CancellationState(): CancellationState {
      var unsafeCoding := jobType.Coding? && sideEffectStartedAt.Some?;
      if status.Cancelled? then CancelDone
      else if unsafeCoding && CancelRequested() then Deferred
      else if Terminal() || unsafeCoding then Unavailable
      else if CancelRequested() then Requested
      else Available
    }

    /** The lease check that every worker transition makes under the row lock. */
    predicate HeldBy(w: WorkerId) {
      status.Running? && leaseOwner == Some(w)
    }

    predicate CancellableBy(w: WorkerId) {
      HeldBy(w) && CancelRequested() && !(jobType.Coding? && sideEffectStartedAt.Some?)
    }

    predicate Expired(now: Time) {
      status.Running? && leaseExpiresAt.Some? && leaseExpiresAt.value <= now
    }
  }

  // What each transition leaves in the record it changes.

  function NewJob(jobType: JobType, now: Time): Job {
    Job(jobType, Queued, 0, now, None, None, None, None, None, None, None, None, None, None)
  }

  function Claimed(j: Job, w: WorkerId, now: Time, lease: nat): Job {
    j.(status := Running, attemptCount := j.attemptCount + 1, startedAt := Some(now),
       leaseOwner := Some(w), leaseExpiresAt := Some(now + lease))
  }

  function CancelAsked(j: Job, now: Time): Job {
    if j.Terminal() then j
    else
      var asked := if j.CancelRequested() then j else j.(cancelRequestedAt := Some(now));
      if j.status.Queued?
      then asked.(status := Cancelled, cancelledAt := Some(now), finishedAt := Some(now))
      else asked
  }

  function SideEffectMarked(j: Job, now: Time): Job {
    if j.sideEffectStartedAt.Some? then j else j.(sideEffectStartedAt := Some(now))
  }

  function CancelRecorded(j: Job, now: Time): Job {
    j.(status := Cancelled, cancelledAt := Some(now), finishedAt := Some(now),
       result := None, errorCode := None, leaseOwner := None, leaseExpiresAt := None)
  }

  function SuccessRecorded(j: Job, now: Time, result: string): Job {
    j.(status := Succeeded, result := Some(result), errorCode := None, finishedAt := Some(now),
       leaseOwner := None, leaseExpiresAt := None)
  }

  function FailureRecorded(j: Job, now: Time, code: string): Job {
    j.(status := Failed, result := None, errorCode := Some(code), finishedAt := Some(now),
       leaseOwner := None, leaseExpiresAt := None)
  }

  function Recovered(j: Job, now: Time, maxAttempts: nat): Job {
    var freed := j.(leaseOwner := None, leaseExpiresAt := None);
    if j.jobType.Coding? then
      freed.(status := Failed, errorCode := Some("job_interrupted"), finishedAt := Some(now))
    else if j.CancelRequested() then
      freed.(status := Cancelled, cancelledAt := Some(now), finishedAt := Some(now))
    else if j.attemptCount >= maxAttempts then
      freed.(status := Failed, errorCode := Some("job_attempts_exhausted"), finishedAt := Some(now))
    else
      freed.(status := Queued, startedAt := None)
  }

  function RecoveredTable(jobs: map<JobId, Job>, now: Time, locked: set<JobId>, maxAttempts: nat)
    : map<JobId, Job>
  {
    map id | id in jobs ::
      if jobs[id].Expired(now) && id !in locked then Recovered(jobs[id], now, maxAttempts) else jobs[id]
  }

  /** Row order of the claim query: creation time, then id. */
  predicate Before(a: Job, aId: JobId, b: Job, bId: JobId) {
    a.createdAt < b.createdAt || (a.createdAt == b.createdAt && aId <= bId)
  }

  /** The row the claim query returns when the rows in `locked` are skipped. */
  predicate IsNextClaim(jobs: map<JobId, Job>, locked: set<JobId>, id: JobId) {
    && id in jobs && id !in locked && jobs[id].status.Queued?
    && forall other :: other in jobs && other !in locked && jobs[other].status.Queued?
         ==> Before(jobs[id], id, jobs[other], other)
  }

  /** What every stored record satisfies, whatever workers, clients and recovery do. */
  ghost predicate WellFormed(j: Job, maxAttempts: nat) {
    && (j.status.Running? <==> j.leaseOwner.Some?)
    && (j.leaseOwner.Some? <==> j.leaseExpiresAt.Some?)
    && (j.Terminal() <==> j.finishedAt.Some?)
    && (j.status.Cancelled? <==> j.cancelledAt.Some?)
    && (j.status.Cancelled? ==> j.CancelRequested())
    && (j.status.Succeeded? <==> j.result.Some?)
    && (j.status.Failed? <==> j.errorCode.Some?)
    && (j.status.Queued? ==> j.startedAt.None? && !j.CancelRequested())
    && (j.status.Running? ==> j.startedAt.Some? && j.attemptCount >= 1)
    && j.attemptCount <= maxAttempts
    && (j.status.Queued? ==> j.attemptCount < maxAttempts)
    && (j.jobType.Coding? ==> j.attemptCount <= 1)
    && (j.jobType.Coding? && j.status.Queued? ==> j.attemptCount == 0 && j.sideEffectStartedAt.None?)
    && (j.jobType.Coding? && j.status.Cancelled? ==> j.sideEffectStartedAt.None?)
  }

  ghost predicate IsFirstRow(jobs: map<JobId, Job>, rows: set<JobId>, id: JobId)
    requires rows <= jobs.Keys
  {
    id in rows && forall other :: other in rows ==> Before(jobs[id], id, jobs[other], other)
  }

  lemma {:induction false} FirstRowExists(jobs: map<JobId, Job>, rows: set<JobId>)
    requires rows <= jobs.Keys && rows != {}
    ensures exists id :: IsFirstRow(jobs, rows, id)
    decreases |rows|
  {
    var pick :| pick in rows;
    var rest := rows - {pick};
    if rest == {} {
      assert rows == {pick};
      assert IsFirstRow(jobs, rows, pick);
    } else {
      FirstRowExists(jobs, rest);
      var best :| IsFirstRow(jobs, rest, best);
      if Before(jobs[best], best, jobs[pick], pick) {
        assert IsFirstRow(jobs, rows, best);
      } else {
        assert IsFirstRow(jobs, rows, pick);
      }
    }
  }

  lemma RecoveredTableWellFormed(jobs: map<JobId, Job>, now: Time, locked: set<JobId>, maxAttempts: nat)
    requires forall id :: id in jobs ==> WellFormed(jobs[id], maxAttempts)
    ensures var after := RecoveredTable(jobs, now, locked, maxAttempts);
            && after.Keys == jobs.Keys
            && forall id :: id in after ==>
                 && WellFormed(after[id], maxAttempts)
                 && (id !in locked ==> !after[id].Expired(now))
  {
  }

  /** The row that the claim query returns: queued, not locked, and first by creation time and id. */
  method FirstClaimable(jobs: map<JobId, Job>, locked: set<JobId>) returns (claim: Option<JobId>)
    ensures claim.None? ==> forall id :: id in jobs && jobs[id].status.Queued? ==> id in locked
    ensures claim.Some? ==> IsNextClaim(jobs, locked, claim.value)
  {
    var rows := set id | id in jobs && id !in locked && jobs[id].status.Queued?;
    if rows == {} {
      assert forall id :: id in jobs && jobs[id].status.Queued? && id !in locked ==> id in rows;
      return None;
    }
    FirstRowExists(jobs, rows);
    var id :| id in rows && forall other :: other in rows ==> Before(jobs[id], id, jobs[other], other);
    return Some(id);
  }

  /** The store behind the workers and the API; each method is one transaction. */
  class JobStore {
    var jobs: map<JobId, Job>
    const maxAttempts: nat

    ghost predicate Valid()
      reads this
    {
      maxAttempts >= 1 && forall id :: id in jobs ==> WellFormed(jobs[id], maxAttempts)
    }

    constructor (maxAttempts: nat)
      requires maxAttempts >= 1
      ensures Valid() && jobs == map[] && this.maxAttempts == maxAttempts
    {
      this.maxAttempts := maxAttempts;
      jobs := map[];
    }

    method Create(jobType: JobType, newId: JobId, now: Time) returns (job: Job)
      requires Valid() && newId !in jobs
      modifies this
      ensures Valid()
      ensures job.jobType == jobType && job.createdAt == now && job.status.Queued? && job.attemptCount == 0
      ensures job.traceRunId.None? && job.sideEffectStartedAt.None?
      ensures job == NewJob(jobType, now) && jobs == old(jobs)[newId := job]
    {
      job := NewJob(jobType, now);
      jobs := jobs[newId := job];
    }

    /** `locked` are the rows other transactions hold, which the query skips. */
    method ClaimNext(w: WorkerId, lease: nat, now: Time, locked: set<JobId>) returns (claim: Option<JobId>)
      requires Valid()
      modifies this
      ensures Valid()
      ensures claim.None? ==>
                jobs == old(jobs) && forall id :: id in jobs && jobs[id].status.Queued? ==> id in locked
      ensures claim.Some? ==>
                && IsNextClaim(old(jobs), locked, claim.value)
                && old(jobs)[claim.value].status.Queued? && claim.value !in locked
                && (forall other :: other in old(jobs) && other !in locked && old(jobs)[other].status.Queued? ==>
                      || old(jobs)[claim.value].createdAt < old(jobs)[other].createdAt
                      || (old(jobs)[claim.value].createdAt == old(jobs)[other].createdAt && claim.value <= other))
                && jobs == old(jobs)[claim.value := old(jobs)[claim.value].(
                     status := Running, attemptCount := old(jobs)[claim.value].attemptCount + 1,
                     startedAt := Some(now), leaseOwner := Some(w), leaseExpiresAt := Some(now + lease))]
                && jobs[claim.value] == Claimed(old(jobs)[claim.value], w, now, lease)
    {
      claim := FirstClaimable(jobs, locked);
      if claim.None? {
        return;
      }
      var id := claim.value;
      var record := jobs[id];
      record := record.(status := Running);
      record := record.(attemptCount := record.attemptCount + 1);
      record := record.(startedAt := Some(now));
      record := record.(leaseOwner := Some(w));
      record := record.(leaseExpiresAt := Some(now + lease));
      jobs := jobs[id := record];
    }

    method RenewLease(id: JobId, w: WorkerId, lease: nat, now: Time) returns (renewed: bool)
      requires Valid()
      modifies this
      ensures Valid()
      ensures renewed <==> id in old(jobs) && old(jobs)[id].HeldBy(w)
      ensures jobs == if renewed then old(jobs)[id := old(jobs)[id].(leaseExpiresAt := Some(now + lease))]
                      else old(jobs)
    {
      if id !in jobs || !jobs[id].status.Running? || jobs[id].leaseOwner != Some(w) {
        return false;
      }
      jobs := jobs[id := jobs[id].(leaseExpiresAt := Some(now + lease))];
      return true;
    }

    method LinkTrace(id: JobId, w: WorkerId, traceRun: nat) returns (r: Result<(), JobError>)
      requires Valid()
      modifies this
      ensures Valid()
      ensures r == if id in old(jobs) && old(jobs)[id].HeldBy(w) then Success(()) else Failure(LeaseLost)
      ensures jobs == if r.Success? then old(jobs)[id := old(jobs)[id].(traceRunId := Some(traceRun))] else old(jobs)
    {
      if id !in jobs || !jobs[id].status.Running? || jobs[id].leaseOwner != Some(w) {
        return Failure(LeaseLost);
      }
      jobs := jobs[id := jobs[id].(traceRunId := Some(traceRun))];
      return Success(());
    }

    /** The first request of a job in progress is stamped and nothing else of the record moves; a
        waiting job is cancelled on the spot, and a finished one is left alone. */
    method RequestCancel(id: JobId, now: Time) returns (r: Result<Job, JobError>)
      requires Valid()
      modifies this
      ensures Valid()
      ensures id !in old(jobs) ==> r == Failure(NotFound) && jobs == old(jobs)
      ensures id in old(jobs) ==> id in jobs && r == Success(jobs[id]) && jobs[id] == CancelAsked(old(jobs)[id], now)
      ensures id in old(jobs) && old(jobs)[id].status.Running? ==>
                jobs == old(jobs)[id := old(jobs)[id].(
                  cancelRequestedAt := if old(jobs)[id].cancelRequestedAt.Some? then old(jobs)[id].cancelRequestedAt
                                       else Some(now))]
      ensures id in old(jobs) && old(jobs)[id].status.Queued? ==>
                jobs == old(jobs)[id := old(jobs)[id].(
                  status := Cancelled, cancelRequestedAt := Some(now), cancelledAt := Some(now),
                  finishedAt := Some(now))]
      ensures id in old(jobs) && !old(jobs)[id].status.Running? && !old(jobs)[id].status.Queued? ==> jobs == old(jobs)
    {
      if id !in jobs {
        return Failure(NotFound);
      }
      var record := jobs[id];
      if record.Terminal() {
        return Success(record);
      }
      if record.cancelRequestedAt.None? {
        record := record.(cancelRequestedAt := Some(now));
      }
      if record.status.Queued? {
        record := record.(status := Cancelled);
        record := record.(cancelledAt := Some(now));
        record := record.(finishedAt := Some(now));
      }
      jobs := jobs[id := record];
      return Success(record);
    }

    method MarkSideEffectStarted(id: JobId, w: WorkerId, now: Time) returns (r: Result<Job, JobError>)
      requires Valid()
      modifies this
      ensures Valid()
      ensures r.Success? <==> id in old(jobs) && old(jobs)[id].HeldBy(w)
      ensures r.Failure? ==> r.error == LeaseLost && jobs == old(jobs)
      ensures r.Success? ==> id in jobs && r.value == jobs[id] && jobs == old(jobs)[id := old(jobs)[id].(
                sideEffectStartedAt := if old(jobs)[id].sideEffectStartedAt.Some? then old(jobs)[id].sideEffectStartedAt
                                       else Some(now))]
      ensures r.Success? ==> jobs[id] == SideEffectMarked(old(jobs)[id], now)
    {
      if id !in jobs || !jobs[id].status.Running? || jobs[id].leaseOwner != Some(w) {
        return Failure(LeaseLost);
      }
      var record := jobs[id];
      if record.sideEffectStartedAt.None? {
        record := record.(sideEffectStartedAt := Some(now));
      }
      jobs := jobs[id := record];
      return Success(record);
    }

    method MarkCancelled(id: JobId, w: WorkerId, now: Time) returns (r: Result<(), JobError>)
      requires Valid()
      modifies this
      ensures Valid()
      ensures r == if id in old(jobs) && old(jobs)[id].CancellableBy(w) then Success(()) else Failure(NotCancellable)
      ensures r.Success? ==> jobs == old(jobs)[id := old(jobs)[id].(
                status := Cancelled, cancelledAt := Some(now), finishedAt := Some(now), result := None,
                errorCode := None, leaseOwner := None, leaseExpiresAt := None)]
      ensures r.Success? ==> jobs[id] == CancelRecorded(old(jobs)[id], now)
      ensures r.Failure? ==> jobs == old(jobs)
    {
      if
        || id !in jobs
        || !jobs[id].status.Running?
        || jobs[id].leaseOwner != Some(w)
        || jobs[id].cancelRequestedAt.None?
        || (jobs[id].jobType.Coding? && jobs[id].sideEffectStartedAt.Some?)
      {
        return Failure(NotCancellable);
      }
      var record := jobs[id];
      record := record.(status := Cancelled, cancelledAt := Some(now), finishedAt := Some(now));
      record := record.(result := None, errorCode := None);
      record := record.(leaseOwner := None, leaseExpiresAt := None);
      jobs := jobs[id := record];
      return Success(());
    }

    method MarkSucceeded(id: JobId, w: WorkerId, result: string, now: Time) returns (r: Result<(), JobError>)
      requires Valid()
      modifies this
      ensures Valid()
      ensures r == if id in old(jobs) && old(jobs)[id].HeldBy(w) then Success(()) else Failure(LeaseLost)
      ensures r.Success? ==> jobs == old(jobs)[id := old(jobs)[id].(
                status := Succeeded, result := Some(result), errorCode := None, finishedAt := Some(now),
                leaseOwner := None, leaseExpiresAt := None)]
      ensures r.Success? ==> jobs[id] == SuccessRecorded(old(jobs)[id], now, result)
      ensures r.Failure? ==> jobs == old(jobs)
    {
      r := RecordTerminal(id, w, Succeeded, Some(result), None, now);
    }

    method MarkFailed(id: JobId, w: WorkerId, code: string, now: Time) returns (r: Result<(), JobError>)
      requires Valid()
      modifies this
      ensures Valid()
      ensures r == if id in old(jobs) && old(jobs)[id].HeldBy(w) then Success(()) else Failure(LeaseLost)
      ensures r.Success? ==> jobs == old(jobs)[id := old(jobs)[id].(
                status := Failed, result := None, errorCode := Some(code), finishedAt := Some(now),
                leaseOwner := None, leaseExpiresAt := None)]
      ensures r.Success? ==> jobs[id] == FailureRecorded(old(jobs)[id], now, code)
      ensures r.Failure? ==> jobs == old(jobs)
    {
      r := RecordTerminal(id, w, Failed, None, Some(code), now);
    }

    method RecordTerminal(id: JobId, w: WorkerId, status: JobStatus, result: Option<string>,
                          errorCode: Option<string>, now: Time)
      returns (r: Result<(), JobError>)
      requires Valid()
      requires || (status.Succeeded? && result.Some? && errorCode.None?)
               || (status.Failed? && result.None? && errorCode.Some?)
      modifies this
      ensures Valid()
      ensures r == if id in old(jobs) && old(jobs)[id].HeldBy(w) then Success(()) else Failure(LeaseLost)
      ensures r.Success? ==> jobs == old(jobs)[id := old(jobs)[id].(
                status := status, result := result, errorCode := errorCode, finishedAt := Some(now),
                leaseOwner := None, leaseExpiresAt := None)]
      ensures r.Failure? ==> jobs == old(jobs)
    {
      if id !in jobs || !jobs[id].status.Running? || jobs[id].leaseOwner != Some(w) {
        return Failure(LeaseLost);
      }
      var record := jobs[id];
      record := record.(status := status);
      record := record.(result := result);
      record := record.(errorCode := errorCode);
      record := record.(finishedAt := Some(now));
      record := record.(leaseOwner := None);
      record := record.(leaseExpiresAt := None);
      jobs := jobs[id := record];
      return Success(());
    }

    /** One iteration's choice of outcome for an abandoned record. */
    method RecoverRecord(abandoned: Job, now: Time) returns (record: Job)
      ensures record == Recovered(abandoned, now, maxAttempts)
    {
      record := abandoned;
      if record.jobType.Coding? {
        record := record.(status := Failed, errorCode := Some("job_interrupted"), finishedAt := Some(now));
      } else if record.cancelRequestedAt.Some? {
        record := record.(status := Cancelled, cancelledAt := Some(now), finishedAt := Some(now));
      } else if record.attemptCount >= maxAttempts {
        record := record.(status := Failed, errorCode := Some("job_attempts_exhausted"), finishedAt := Some(now));
      } else {
        record := record.(status := Queued, startedAt := None);
      }
      record := record.(leaseOwner := None, leaseExpiresAt := None);
    }

    /** An abandoned coding job fails, a cancelled request is honoured, a job out of attempts fails,
        and any other goes back to the queue; nothing else in the table moves. */
    method RecoverExpired(now: Time, locked: set<JobId>) returns (recovered: seq<JobId>)
      requires Valid()
      modifies this
      ensures Valid()
      ensures jobs.Keys == old(jobs).Keys && forall id :: id in recovered ==> id in jobs
      ensures forall id :: id in jobs && id !in recovered ==> jobs[id] == old(jobs)[id]
      ensures forall id :: id in recovered ==>
                var j := old(jobs)[id];
                jobs[id] ==
                if j.jobType.Coding? then
                  j.(status := Failed, errorCode := Some("job_interrupted"), finishedAt := Some(now),
                     leaseOwner := None, leaseExpiresAt := None)
                else if j.cancelRequestedAt.Some? then
                  j.(status := Cancelled, cancelledAt := Some(now), finishedAt := Some(now),
                     leaseOwner := None, leaseExpiresAt := None)
                else if j.attemptCount >= maxAttempts then
                  j.(status := Failed, errorCode := Some("job_attempts_exhausted"), finishedAt := Some(now),
                     leaseOwner := None, leaseExpiresAt := None)
                else
                  j.(status := Queued, startedAt := None, leaseOwner := None, leaseExpiresAt := None)
      ensures jobs == RecoveredTable(old(jobs), now, locked, maxAttempts)
      ensures forall id :: id in recovered <==>
                && id in old(jobs) && id !in locked && old(jobs)[id].status.Running?
                && old(jobs)[id].leaseExpiresAt.Some? && old(jobs)[id].leaseExpiresAt.value <= now
      ensures forall i, k :: 0 <= i < k < |recovered| ==> recovered[i] != recovered[k]
      ensures forall id :: id in jobs && id !in locked ==> !jobs[id].Expired(now)
    {
      var rows := set id | id in jobs && jobs[id].Expired(now) && id !in locked;
      RecoveredTableWellFormed(jobs, now, locked, maxAttempts);
      recovered := RecoverRows(rows, now);
      assert jobs == RecoveredTable(old(jobs), now, locked, maxAttempts);
    }

    method RecoverRows(rows: set<JobId>, now: Time) returns (recovered: seq<JobId>)
      requires rows <= jobs.Keys
      modifies this
      ensures jobs.Keys == old(jobs).Keys
      ensures forall id :: id in jobs ==>
                jobs[id] == if id in rows then Recovered(old(jobs)[id], now, maxAttempts) else old(jobs)[id]
      ensures forall id :: id in recovered <==> id in rows
      ensures forall i, k :: 0 <= i < k < |recovered| ==> recovered[i] != recovered[k]
    {
      recovered := [];
      var left := rows;
      while left != {}
        invariant left <= rows && jobs.Keys == old(jobs).Keys
        invariant forall id :: id in recovered <==> id in rows && id !in left
        invariant forall i, k :: 0 <= i < k < |recovered| ==> recovered[i] != recovered[k]
        invariant forall id :: id in left ==> jobs[id] == old(jobs)[id]
        invariant forall id :: id in jobs && id !in left ==>
                    jobs[id] == if id in rows then Recovered(old(jobs)[id], now, maxAttempts) else old(jobs)[id]
        decreases |left|
      {
        var id :| id in left;
        var record := RecoverRecord(jobs[id], now);
        jobs := jobs[id := record];
        left := left - {id};
        recovered := recovered + [id];
      }
    }
  }

  datatype TokenEvent = CancelRequestedEvent | CancellationDeferredEvent

  /** The cooperative token an execution polls; it announces each condition once. */
  class CancellationToken {
    const store: JobStore
    const jobId: JobId
    const workerId: WorkerId
    const jobType: JobType
    var requestEmitted: bool
    var deferredEmitted: bool
    var emitted: seq<TokenEvent>

    /** The flags record exactly which events were emitted, each at most once. */
    ghost predicate Valid()
      reads this
    {
      && (requestEmitted <==> CancelRequestedEvent in emitted)
      && (deferredEmitted <==> CancellationDeferredEvent in emitted)
      && forall i, k :: 0 <= i < k < |emitted| ==> emitted[i] != emitted[k]
    }

    constructor (store: JobStore, jobId: JobId, workerId: WorkerId, jobType: JobType)
      ensures Valid() && emitted == []
      ensures this.store == store && this.jobId == jobId && this.workerId == workerId && this.jobType == jobType
    {
      this.store, this.jobId, this.workerId, this.jobType := store, jobId, workerId, jobType;
      requestEmitted, deferredEmitted, emitted := false, false, [];
    }

    /** Raises exactly when a cancel was requested and is not deferred. A job whose lease the
        worker still holds is then always cancellable by that worker. */
    method Checkpoint() returns (r: Result<bool, JobError>)
      requires Valid() && store.Valid() && this as object != store
      modifies this
      ensures Valid() && store.jobs == old(store.jobs)
      ensures r.Failure? <==> jobId !in store.jobs
      ensures r.Success? ==>
                (r.value <==> && store.jobs[jobId].cancelRequestedAt.Some?
                              && (&& store.jobs[jobId].jobType.Coding?
                                  && store.jobs[jobId].sideEffectStartedAt.Some?
                                  ==> store.jobs[jobId].status.Cancelled?))
      ensures r == Success(true) && store.jobs[jobId].HeldBy(workerId) ==> store.jobs[jobId].CancellableBy(workerId)
      ensures r == Success(false) ==> !requestEmitted || old(requestEmitted)
      ensures old(emitted) <= emitted && |emitted| <= |old(emitted)| + 1
    {
      if jobId !in store.jobs {
        return Failure(NotFound);
      }
      var job := store.jobs[jobId];
      if !job.CancelRequested() {
        return Success(false);
      }
      if job.CancellationState().Deferred? {
        if !deferredEmitted {
          emitted := emitted + [CancellationDeferredEvent];
          deferredEmitted := true;
        }
        return Success(false);
      }
      if !requestEmitted {
        emitted := emitted + [CancelRequestedEvent];
        requestEmitted := true;
      }
      return Success(true);
    }

    method SideEffectStarted(now: Time) returns (r: Result<(), JobError>)
      requires store.Valid() && this as object != store
      modifies store
      ensures store.Valid()
      ensures !jobType.Coding? ==> r == Success(()) && store.jobs == old(store.jobs)
      ensures jobType.Coding? ==> (r.Success? <==> jobId in old(store.jobs) && old(store.jobs)[jobId].HeldBy(workerId))
      ensures jobType.Coding? && r.Success? ==>
                && jobId in store.jobs && store.jobs[jobId].sideEffectStartedAt.Some?
                && store.jobs == old(store.jobs)[jobId := SideEffectMarked(old(store.jobs)[jobId], now)]
      ensures r.Failure? ==> store.jobs == old(store.jobs)
    {
      if jobType.Coding? {
        var marked := store.MarkSideEffectStarted(jobId, workerId, now);
        if marked.Failure? {
          return Failure(marked.error);
        }
      }
      return Success(());
    }
  }
}
