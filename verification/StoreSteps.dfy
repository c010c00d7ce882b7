/** The store carries out the protocol: every event is its transactions, and the worker goes on from
    what they answer. */
module StoreSteps {
  import opened JobProtocol
  import opened Jobs
  import opened Wrappers

  lemma NextClaimIsUnique(jobs: map<JobId, Job>, locked: set<JobId>, a: JobId, b: JobId)
    requires IsNextClaim(jobs, locked, a) && IsNextClaim(jobs, locked, b)
    ensures a == b
  {
  }

  /** One event over the real table. The new state is made of the table the store leaves and of the
      phase that the answer of its transaction sends the worker to, and it is the protocol's next one. */
  method Perform(store: JobStore, s: State, e: Event) returns (next: State)
    requires store.Valid() && store.jobs == s.jobs && Enabled(s, e)
    modifies store
    ensures store.Valid() && next.jobs == store.jobs
    ensures next == Next(s, e, store.maxAttempts)
  {
    hide WellFormed, RecoveredTable, CancelAsked, Recovered;
    next := s;
    match e {
      case Tick(to) =>
        next := s.(now := to);
      case Create(id, jobType) =>
        var _ := store.Create(jobType, id, s.now);
      case RequestCancel(id) =>
        var _ := store.RequestCancel(id, s.now);
      case Recover(locked) =>
        var _ := store.RecoverExpired(s.now, locked);
      case Claim(w, id, locked, lease) =>
        var claim := store.ClaimNext(w, lease, s.now, locked);
        NextClaimIsUnique(s.jobs, locked, claim.value, id);
        next := s.Moved(w, Starting(id));
      case Heartbeat(w, id, lease) =>
        var _ := store.RenewLease(id, w, lease, s.now);
      case LinkTrace(w, run) =>
        var id := s.PhaseOf(w).job;
        var linked := store.LinkTrace(id, w, run);
        next := s.Moved(w, if linked.Success? then Working(id) else Idle);
      case Checkpoint(w) =>
        var id := s.PhaseOf(w).job;
        var raised := Poll(store, id, w);
        next := if raised then s.Moved(w, Cancelling(id)) else s;
      case Mutate(w) =>
        next := s.(mutated := s.mutated + {s.PhaseOf(w).job}).Moved(w, Mutated(s.PhaseOf(w).job));
      case MarkSideEffect(w) =>
        var id := s.PhaseOf(w).job;
        var marked := store.MarkSideEffectStarted(id, w, s.now);
        next := s.Moved(w, if marked.Success? then Working(id) else Failing(id, "operation_failed"));
      case OperationReturns(w, result) =>
        next := s.Moved(w, Succeeding(s.PhaseOf(w).job, result));
      case OperationRaises(w, code) =>
        next := s.Moved(w, Failing(s.PhaseOf(w).job, code));
      case Finish(w) =>
        RecordOutcome(store, s.PhaseOf(w), w, s.now);
        next := s.Moved(w, Idle);
      case DatabaseBlip(w) =>
        next := s.Moved(w, Idle);
      case Crash(w) =>
        next := s.Moved(w, Crashed);
    }
    next := next.(jobs := store.jobs);
  }

  /** A checkpoint of the execution's cancellation token. */
  method Poll(store: JobStore, id: JobId, w: WorkerId) returns (raised: bool)
    requires store.Valid() && id in store.jobs
    ensures raised <==> store.jobs[id].CancelRequested() && !store.jobs[id].CancellationState().Deferred?
  {
    var token := new CancellationToken(store, id, w, store.jobs[id].jobType);
    var r := token.Checkpoint();
    raised := r.value;
  }

  /** The worker's last transaction; a refusal changes nothing. */
  method RecordOutcome(store: JobStore, p: Phase, w: WorkerId, now: Time)
    requires store.Valid() && (p.Cancelling? || p.Succeeding? || p.Failing?)
    modifies store
    ensures store.Valid()
    ensures p.job !in old(store.jobs) || !old(store.jobs)[p.job].HeldBy(w) ==> store.jobs == old(store.jobs)
    ensures p.job in old(store.jobs) && old(store.jobs)[p.job].HeldBy(w) ==>
              var j := old(store.jobs)[p.job];
              store.jobs ==
              match p
              case Cancelling(id) =>
                if j.CancellableBy(w) then old(store.jobs)[id := CancelRecorded(j, now)] else old(store.jobs)
              case Succeeding(id, result) => old(store.jobs)[id := SuccessRecorded(j, now, result)]
              case Failing(id, code) => old(store.jobs)[id := FailureRecorded(j, now, code)]
  {
    hide WellFormed;
    match p {
      case Cancelling(id) => var _ := store.MarkCancelled(id, w, now);
      case Succeeding(id, result) => var _ := store.MarkSucceeded(id, w, result, now);
      case Failing(id, code) => var _ := store.MarkFailed(id, w, code, now);
    }
  }
}
