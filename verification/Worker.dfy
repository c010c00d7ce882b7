/** The worker's own program, between whose store transactions anything else may happen. */
module Worker {
  import opened JobProtocol
  import opened Jobs
  import opened Wrappers

  /** The shared table with the history that led to it. */
  class World {
    var s: State
    const maxAttempts: nat
    ghost const initial: State
    ghost var history: seq<Event>

    /** Everything so far was a run of the protocol. */
    ghost predicate Valid()
      reads this
    {
      && maxAttempts >= 1 && Inv(s, maxAttempts)
      && IsRun(initial, history, maxAttempts) && s == After(initial, history, maxAttempts)
    }

    constructor (maxAttempts: nat)
      requires maxAttempts >= 1
      ensures Valid() && s == Initial && this.maxAttempts == maxAttempts
    {
      this.maxAttempts := maxAttempts;
      s, initial, history := Initial, Initial, [];
    }

    method Do(e: Event)
      requires Valid() && Enabled(s, e)
      modifies this
      ensures Valid() && s == Next(old(s), e, maxAttempts) && history == old(history) + [e]
    {
      hide Inv, Next, Enabled;
      RunExtended(initial, history, e, maxAttempts);
      InvariantStep(s, e, maxAttempts);
      s, history := Next(s, e, maxAttempts), history + [e];
    }

    /** Any number of steps of other workers, of clients, of recovery, and of this worker's own
        heartbeat thread. */
    method Others(w: WorkerId)
      requires Valid()
      modifies this
      ensures Valid() && s.PhaseOf(w) == old(s.PhaseOf(w)) && old(history) <= history
    {
      hide Inv, Next, Enabled;
      var steps: int := *;
      for i := 0 to if steps < 0 then 0 else steps
        invariant Valid() && s.PhaseOf(w) == old(s.PhaseOf(w)) && old(history) <= history
      {
        var e: Event := *;
        if Enabled(s, e) && Actor(e) != Some(w) {
          PhaseIsOwn(s, e, w, maxAttempts);
          Do(e);
        }
      }
    }

    /** One round: recover what expired, then claim and execute at most one job. */
    method RunOnce(w: WorkerId, lease: nat) returns (worked: bool)
      requires Valid() && s.PhaseOf(w).Idle?
      modifies this
      ensures Valid() && s.PhaseOf(w).Idle? && old(history) <= history
    {
      hide Inv, Next, IsNextClaim;
      Others(w);
      var locked: set<JobId> := *;
      PhaseIsOwn(s, Recover(locked), w, maxAttempts);
      Do(Recover(locked));
      Others(w);
      locked := *;
      var claim := FirstClaimable(s.jobs, locked);
      if claim.None? {
        return false;
      }
      ClaimStarts(s, w, claim.value, locked, lease, maxAttempts);
      Do(Claim(w, claim.value, locked, lease));
      var _ := Execute(w, claim.value);
      return true;
    }

    /** One claimed job, from linking its trace to recording its outcome. Unless the database failed
        at the end, the worker does not keep the lease. */
    method Execute(w: WorkerId, id: JobId) returns (blip: bool)
      requires Valid() && s.PhaseOf(w) == Starting(id)
      modifies this
      ensures Valid() && s.PhaseOf(w).Idle? && old(history) <= history
      ensures !blip ==> !Holds(s, w, id)
    {
      hide Inv, Next;
      Others(w);
      var run: nat := *;
      LinkContinues(s, w, run, maxAttempts);
      Do(LinkTrace(w, run));
      if s.PhaseOf(w).Idle? {
        return false;
      }
      Dispatch(w, id);
      Others(w);
      blip := *;
      if blip {
        BlipIdles(s, w, maxAttempts);
        Do(DatabaseBlip(w));
      } else {
        FinishReleases(s, w, id, maxAttempts);
        Do(Finish(w));
      }
    }

    /** The operation: it polls for cancellation, and a coding operation changes files and marks each
        change, until it returns, fails or is cancelled. */
    method Dispatch(w: WorkerId, id: JobId)
      requires Valid() && s.PhaseOf(w) == Working(id)
      modifies this
      ensures Valid() && old(history) <= history && Outcome(s.PhaseOf(w), id)
    {
      hide Inv, Next;
      var steps: int := *;
      var polls := true;
      for i := 0 to if steps < 0 then 1 else steps + 1
        invariant Valid() && old(history) <= history
        invariant s.PhaseOf(w) == Working(id) || Outcome(s.PhaseOf(w), id)
      {
        if s.PhaseOf(w) == Working(id) {
          Others(w);
          WorkingIsStored(s, w, maxAttempts);
          if polls || !s.jobs[id].jobType.Coding? {
            CheckpointContinues(s, w, maxAttempts);
            Do(Checkpoint(w));
          } else {
            MutateAndMark(w, id);
          }
          polls := *;
        }
      }
      if s.PhaseOf(w) == Working(id) {
        var succeeds: bool := *;
        var result: string := *;
        OperationEnds(s, w, result, maxAttempts);
        if succeeds {
          Do(OperationReturns(w, result));
        } else {
          Do(OperationRaises(w, result));
        }
      }
    }

    /** A successful file mutation is marked right after it; if the mark is refused, the job fails. */
    method MutateAndMark(w: WorkerId, id: JobId)
      requires Valid() && s.PhaseOf(w) == Working(id) && id in s.jobs && s.jobs[id].jobType.Coding?
      modifies this
      ensures Valid() && old(history) <= history && (s.PhaseOf(w) == Working(id) || Outcome(s.PhaseOf(w), id))
    {
      hide Inv, Next;
      MutationContinues(s, w, maxAttempts);
      Do(Mutate(w));
      Others(w);
      MarkContinues(s, w, maxAttempts);
      Do(MarkSideEffect(w));
    }
  }

  predicate Outcome(p: Phase, id: JobId) {
    (p.Cancelling? || p.Succeeding? || p.Failing?) && p.job == id
  }

  lemma {:induction false} RunExtended(s: State, events: seq<Event>, e: Event, maxAttempts: nat)
    requires IsRun(s, events, maxAttempts) && Enabled(After(s, events, maxAttempts), e)
    ensures IsRun(s, events + [e], maxAttempts)
    ensures After(s, events + [e], maxAttempts) == Next(After(s, events, maxAttempts), e, maxAttempts)
    decreases |events|
  {
    hide Next, Enabled;
    if events == [] {
      assert ([] + [e])[1..] == [];
    } else {
      assert (events + [e])[1..] == events[1..] + [e];
      RunExtended(Next(s, events[0], maxAttempts), events[1..], e, maxAttempts);
    }
  }

  /** Only a worker's own steps change its phase. */
  lemma PhaseIsOwn(s: State, e: Event, w: WorkerId, maxAttempts: nat)
    requires Enabled(s, e) && Actor(e) != Some(w)
    ensures Next(s, e, maxAttempts).PhaseOf(w) == s.PhaseOf(w)
  {
    hide RecoveredTable, NewJob, Claimed, CancelAsked, SideEffectMarked, CancelRecorded, SuccessRecorded,
      FailureRecorded;
  }

  lemma ClaimStarts(s: State, w: WorkerId, id: JobId, locked: set<JobId>, lease: nat, maxAttempts: nat)
    requires s.PhaseOf(w).Idle? && IsNextClaim(s.jobs, locked, id)
    ensures Enabled(s, Claim(w, id, locked, lease))
    ensures Next(s, Claim(w, id, locked, lease), maxAttempts).PhaseOf(w) == Starting(id)
  {
  }

  lemma LinkContinues(s: State, w: WorkerId, run: nat, maxAttempts: nat)
    requires s.PhaseOf(w).Starting?
    ensures var p := Next(s, LinkTrace(w, run), maxAttempts).PhaseOf(w);
            p.Idle? || p == Working(s.PhaseOf(w).job)
    ensures Next(s, LinkTrace(w, run), maxAttempts).PhaseOf(w).Idle? ==>
              !Holds(Next(s, LinkTrace(w, run), maxAttempts), w, s.PhaseOf(w).job)
  {
  }

  lemma WorkingIsStored(s: State, w: WorkerId, maxAttempts: nat)
    requires Inv(s, maxAttempts) && s.PhaseOf(w).Working?
    ensures s.PhaseOf(w).job in s.jobs
  {
    assert WorkerOk(s, w);
  }

  lemma CheckpointContinues(s: State, w: WorkerId, maxAttempts: nat)
    requires s.PhaseOf(w).Working? && s.PhaseOf(w).job in s.jobs
    ensures var p := Next(s, Checkpoint(w), maxAttempts).PhaseOf(w);
            p == s.PhaseOf(w) || p == Cancelling(s.PhaseOf(w).job)
  {
  }

  lemma MutationContinues(s: State, w: WorkerId, maxAttempts: nat)
    requires s.PhaseOf(w).Working? && s.PhaseOf(w).job in s.jobs && s.jobs[s.PhaseOf(w).job].jobType.Coding?
    ensures Next(s, Mutate(w), maxAttempts).PhaseOf(w) == Mutated(s.PhaseOf(w).job)
  {
  }

  lemma MarkContinues(s: State, w: WorkerId, maxAttempts: nat)
    requires s.PhaseOf(w).Mutated?
    ensures var p := Next(s, MarkSideEffect(w), maxAttempts).PhaseOf(w);
            p == Working(s.PhaseOf(w).job) || (p.Failing? && p.job == s.PhaseOf(w).job)
  {
  }

  lemma OperationEnds(s: State, w: WorkerId, text: string, maxAttempts: nat)
    requires s.PhaseOf(w).Working?
    ensures Next(s, OperationReturns(w, text), maxAttempts).PhaseOf(w) == Succeeding(s.PhaseOf(w).job, text)
    ensures Next(s, OperationRaises(w, text), maxAttempts).PhaseOf(w) == Failing(s.PhaseOf(w).job, text)
  {
  }

  lemma BlipIdles(s: State, w: WorkerId, maxAttempts: nat)
    ensures Next(s, DatabaseBlip(w), maxAttempts).PhaseOf(w) == Idle
  {
  }

  /** Whatever the outcome, recording it gives up the lease if the worker still had it. */
  lemma FinishReleases(s: State, w: WorkerId, id: JobId, maxAttempts: nat)
    requires Inv(s, maxAttempts) && Outcome(s.PhaseOf(w), id)
    ensures Next(s, Finish(w), maxAttempts).PhaseOf(w).Idle? && !Holds(Next(s, Finish(w), maxAttempts), w, id)
  {
    assert WorkerOk(s, w);
  }
}
