/** Indexed navigation: no final answer until a hint of the latest search was checked against a file. */
module Grounding {
  import opened Wrappers

  /** What a tool step shows of its observation. `locations` is absent when the output holds no list;
      an element is absent when it has no usable path. `missing` says the error names a missing file. */
  datatype Observation = Observation(tool: string, success: bool, locations: Option<seq<Option<string>>>,
                                     readPath: Option<string>, argumentPath: Option<string>, missing: bool)

  const INDEXED_SEARCH := "indexed_code_search"
  const READ_FILE := "read_file"

  /** The repository path that a text denotes, if it denotes one. */
  type Identify = string -> Option<string>

  function PathOf(text: Option<string>, identify: Identify): Option<string> {
    if text.None? then None else identify(text.value)
  }

  function Surfaced(locations: seq<Option<string>>, identify: Identify): (paths: set<string>)
    ensures forall p :: p in paths <==>
              exists i :: 0 <= i < |locations| && locations[i].Some? && identify(locations[i].value) == Some(p)
  {
    set i | 0 <= i < |locations| && PathOf(locations[i], identify).Some? :: PathOf(locations[i], identify).value
  }

  /** The paths a successful indexed search returned. */
  function SearchPaths(o: Observation, identify: Identify): set<string> {
    if o.success && o.tool == INDEXED_SEARCH && o.locations.Some? then Surfaced(o.locations.value, identify) else {}
  }

  predicate ReadsPath(o: Observation, path: string, identify: Identify) {
    o.success && o.tool == READ_FILE && o.readPath.Some? && identify(o.readPath.value) == Some(path)
  }

  predicate MissesPath(o: Observation, path: string, identify: Identify) {
    && !o.success && o.tool == READ_FILE && o.missing
    && o.argumentPath.Some? && identify(o.argumentPath.value) == Some(path)
  }

  class GroundingPolicy {
    var pending: set<string>

    constructor ()
      ensures pending == {}
    {
      pending := {};
    }

    /** A search replaces what is pending, reading any pending path settles all of it, and a pending
        path found missing is dropped. */
    method Observe(o: Observation, identify: Identify)
      modifies this
      ensures SearchPaths(o, identify) != {} ==> pending == SearchPaths(o, identify)
      ensures SearchPaths(o, identify) == {} && (exists p :: p in old(pending) && ReadsPath(o, p, identify)) ==>
                pending == {}
      ensures SearchPaths(o, identify) == {} && !(exists p :: p in old(pending) && ReadsPath(o, p, identify)) ==>
                pending == set p | p in old(pending) && !MissesPath(o, p, identify)
    {
      if !o.success {
        DiscardMissingRead(o, identify);
        return;
      }
      if o.tool == INDEXED_SEARCH {
        if o.locations.None? {
          return;
        }
        var paths := Surfaced(o.locations.value, identify);
        if paths != {} {
          pending := paths;
        }
        return;
      }
      if o.tool == READ_FILE {
        var path := PathOf(o.readPath, identify);
        if path.Some? && path.value in pending {
          assert ReadsPath(o, path.value, identify);
          pending := {};
        }
      }
    }

    method DiscardMissingRead(o: Observation, identify: Identify)
      requires !o.success
      modifies this
      ensures pending == set p | p in old(pending) && !MissesPath(o, p, identify)
    {
      if o.tool != READ_FILE || !o.missing {
        return;
      }
      var path := PathOf(o.argumentPath, identify);
      if path.Some? && path.value in pending {
        pending := pending - {path.value};
      }
    }

    method HandleFinal() returns (blocked: bool)
      ensures blocked <==> pending != {}
    {
      blocked := pending != {};
    }
  }

  // ------------------------------------------------------------------------ over whole runs

  /** What is pending after a run of observations. */
  function PendingAfter(run: seq<Observation>, identify: Identify): set<string> {
    if run == [] then {}
    else
      var before := PendingAfter(run[..|run| - 1], identify);
      var o := run[|run| - 1];
      if SearchPaths(o, identify) != {} then SearchPaths(o, identify)
      else if exists p :: p in before && ReadsPath(o, p, identify) then {}
      else set p | p in before && !MissesPath(o, p, identify)
  }

  /** `j` is the last search of the run that returned anything. */
  predicate IsLastSearch(run: seq<Observation>, j: nat, identify: Identify) {
    && j < |run| && SearchPaths(run[j], identify) != {}
    && forall k :: j < k < |run| ==> SearchPaths(run[k], identify) == {}
  }

  /** Found missing between two steps. */
  predicate MissedBetween(run: seq<Observation>, j: nat, k: nat, path: string, identify: Identify)
    requires j <= k <= |run|
  {
    exists i :: j < i < k && MissesPath(run[i], path, identify)
  }

  /** A path that the search returned was read, and had not been found missing before. */
  predicate SettledAt(run: seq<Observation>, j: nat, k: nat, path: string, identify: Identify) {
    && j < k < |run| && path in SearchPaths(run[j], identify) && ReadsPath(run[k], path, identify)
    && !MissedBetween(run, j, k, path, identify)
  }

  ghost predicate SettledBy(run: seq<Observation>, j: nat, k: nat, identify: Identify) {
    exists path :: SettledAt(run, j, k, path, identify)
  }

  ghost predicate Settled(run: seq<Observation>, j: nat, identify: Identify) {
    exists k: nat, path :: SettledAt(run, j, k, path, identify)
  }

  /** What is pending since the last search: nothing once settled, else what was not found missing. */
  lemma {:induction false} PendingSinceSearch(run: seq<Observation>, j: nat, identify: Identify)
    requires IsLastSearch(run, j, identify)
    ensures Settled(run, j, identify) ==> PendingAfter(run, identify) == {}
    ensures !Settled(run, j, identify) ==>
              PendingAfter(run, identify)
              == set p | p in SearchPaths(run[j], identify) && !MissedBetween(run, j, |run|, p, identify)
    decreases |run|
  {
    hide SearchPaths, ReadsPath, MissesPath;
    if j == |run| - 1 {
      assert forall p :: !MissedBetween(run, j, |run|, p, identify);
    } else {
      var last := |run| - 1;
      var front := run[..last];
      assert forall k :: 0 <= k < last ==> front[k] == run[k];
      PendingSinceSearch(front, j, identify);
      SettledLater(run, j, identify);
      PendingStep(run, j, PendingAfter(front, identify), identify);
    }
  }

  lemma PendingStep(run: seq<Observation>, j: nat, before: set<string>, identify: Identify)
    requires IsLastSearch(run, j, identify) && j < |run| - 1
    requires before == PendingAfter(run[..|run| - 1], identify)
    requires Settled(run[..|run| - 1], j, identify) ==> before == {}
    requires !Settled(run[..|run| - 1], j, identify) ==>
               before == set p | p in SearchPaths(run[j], identify)
                                 && !MissedBetween(run[..|run| - 1], j, |run| - 1, p, identify)
    ensures Settled(run[..|run| - 1], j, identify) || SettledBy(run, j, |run| - 1, identify) ==>
              PendingAfter(run, identify) == {}
    ensures !Settled(run[..|run| - 1], j, identify) && !SettledBy(run, j, |run| - 1, identify) ==>
              PendingAfter(run, identify)
              == set p | p in SearchPaths(run[j], identify) && !MissedBetween(run, j, |run|, p, identify)
  {
    hide SearchPaths, ReadsPath, MissesPath, Settled, MissedBetween;
    var last := |run| - 1;
    forall p
      ensures MissedBetween(run, j, |run|, p, identify)
              <==> MissedBetween(run[..last], j, last, p, identify) || MissesPath(run[last], p, identify)
      ensures MissedBetween(run, j, last, p, identify) <==> MissedBetween(run[..last], j, last, p, identify)
    {
      MissedLater(run, j, p, identify);
    }
    if !Settled(run[..last], j, identify) {
      forall p
        ensures SettledAt(run, j, last, p, identify) <==> p in before && ReadsPath(run[last], p, identify)
      {
      }
    }
  }

  lemma MissedLater(run: seq<Observation>, j: nat, p: string, identify: Identify)
    requires j < |run| - 1
    ensures var last := |run| - 1;
            && (MissedBetween(run, j, |run|, p, identify)
                <==> MissedBetween(run[..last], j, last, p, identify) || MissesPath(run[last], p, identify))
            && (MissedBetween(run, j, last, p, identify) <==> MissedBetween(run[..last], j, last, p, identify))
  {
    hide MissesPath;
    var last := |run| - 1;
    if MissedBetween(run, j, |run|, p, identify) {
      var i :| j < i < |run| && MissesPath(run[i], p, identify);
      assert i < last ==> run[..last][i] == run[i];
    }
    if MissedBetween(run[..last], j, last, p, identify) {
      var i :| j < i < last && MissesPath(run[..last][i], p, identify);
      assert run[i] == run[..last][i];
    }
    if MissedBetween(run, j, last, p, identify) {
      var i :| j < i < last && MissesPath(run[i], p, identify);
      assert run[..last][i] == run[i];
    }
  }

  lemma SettledLater(run: seq<Observation>, j: nat, identify: Identify)
    requires j < |run| - 1
    ensures var last := |run| - 1;
            Settled(run, j, identify)
            <==> Settled(run[..last], j, identify) || SettledBy(run, j, last, identify)
  {
    hide SearchPaths, ReadsPath, MissesPath;
    var last := |run| - 1;
    if Settled(run, j, identify) {
      var k: nat, p :| SettledAt(run, j, k, p, identify);
      if k < last {
        SettledInFront(run, j, k, p, identify);
      }
    }
    if Settled(run[..last], j, identify) {
      var k: nat, p :| SettledAt(run[..last], j, k, p, identify);
      SettledInFront(run, j, k, p, identify);
    }
  }

  lemma SettledInFront(run: seq<Observation>, j: nat, k: nat, p: string, identify: Identify)
    requires j < k < |run| - 1
    ensures SettledAt(run, j, k, p, identify) <==> SettledAt(run[..|run| - 1], j, k, p, identify)
  {
    hide SearchPaths, ReadsPath, MissesPath;
    var front := run[..|run| - 1];
    assert run[j] == front[j] && run[k] == front[k];
    assert forall i :: j < i < k ==> run[i] == front[i];
  }

  /** The main result: finals are allowed exactly when the last search that found anything was
      followed by a read of something it found, or everything it found was seen to be missing. */
  lemma FinalAllowedExactly(run: seq<Observation>, j: nat, identify: Identify)
    requires IsLastSearch(run, j, identify)
    ensures PendingAfter(run, identify) == {}
            <==> Settled(run, j, identify)
                 || forall p :: p in SearchPaths(run[j], identify) ==> MissedBetween(run, j, |run|, p, identify)
  {
    hide SearchPaths, MissedBetween, Settled;
    PendingSinceSearch(run, j, identify);
    var left := set p | p in SearchPaths(run[j], identify) && !MissedBetween(run, j, |run|, p, identify);
    if left == {} {
      forall p | p in SearchPaths(run[j], identify)
        ensures MissedBetween(run, j, |run|, p, identify)
      {
        assert p !in left;
      }
    }
  }

  lemma {:induction false} NothingPendingWithoutSearch(run: seq<Observation>, identify: Identify)
    requires forall k :: 0 <= k < |run| ==> SearchPaths(run[k], identify) == {}
    ensures PendingAfter(run, identify) == {}
  {
    if run != [] {
      NothingPendingWithoutSearch(run[..|run| - 1], identify);
    }
  }

  /** Every answer after this run rests on a file that was checked: of the last search that found
      anything, some path was read, or every path was seen to be missing. */
  ghost predicate Grounded(run: seq<Observation>, identify: Identify) {
    forall j: nat :: IsLastSearch(run, j, identify) ==>
      || Settled(run, j, identify)
      || forall p :: p in SearchPaths(run[j], identify) ==> MissedBetween(run, j, |run|, p, identify)
  }

  lemma {:induction false} LastSearchExists(run: seq<Observation>, k: nat, identify: Identify) returns (j: nat)
    requires k < |run| && SearchPaths(run[k], identify) != {}
    ensures IsLastSearch(run, j, identify)
    decreases |run| - k
  {
    hide SearchPaths;
    if l :| k < l < |run| && SearchPaths(run[l], identify) != {} {
      j := LastSearchExists(run, l, identify);
    } else {
      j := k;
    }
  }

  lemma GroundedExactly(run: seq<Observation>, identify: Identify)
    ensures PendingAfter(run, identify) == {} <==> Grounded(run, identify)
  {
    hide PendingAfter, SearchPaths, Settled, MissedBetween;
    forall j: nat | IsLastSearch(run, j, identify)
      ensures PendingAfter(run, identify) == {}
              <==> Settled(run, j, identify)
                   || forall p :: p in SearchPaths(run[j], identify) ==> MissedBetween(run, j, |run|, p, identify)
    {
      FinalAllowedExactly(run, j, identify);
    }
    if k: nat :| k < |run| && SearchPaths(run[k], identify) != {} {
      var j := LastSearchExists(run, k, identify);
    } else {
      NothingPendingWithoutSearch(run, identify);
    }
  }

  // ------------------------------------------------------------------------- the agent's run

  datatype Step = ToolStep(observation: Observation) | FinalStep(rejected: bool)

  /** How a run ends; a failed model or an unusable decision raises. */
  datatype Outcome = Completed | OutOfIterations | Raised

  /** The observations among the steps. */
  function Observations(steps: seq<Step>): seq<Observation> {
    if steps == [] then []
    else
      Observations(steps[..|steps| - 1])
      + match steps[|steps| - 1]
        case ToolStep(o) => [o]
        case FinalStep(_) => []
  }

  /** A final action is rejected exactly when what was observed before it does not ground it. */
  ghost predicate RightlyJudged(steps: seq<Step>, identify: Identify) {
    forall i :: 0 <= i < |steps| && steps[i].FinalStep? ==>
      (steps[i].rejected <==> !Grounded(Observations(steps[..i]), identify))
  }

  lemma JudgedNext(steps: seq<Step>, next: Step, identify: Identify)
    requires RightlyJudged(steps, identify)
    requires next.FinalStep? ==> (next.rejected <==> !Grounded(Observations(steps), identify))
    ensures RightlyJudged(steps + [next], identify)
    ensures Observations(steps + [next])
            == Observations(steps) + if next.ToolStep? then [next.observation] else []
  {
    hide Grounded;
    var longer := steps + [next];
    assert longer[..|steps|] == steps;
    forall i | 0 <= i < |longer| && longer[i].FinalStep?
      ensures longer[i].rejected <==> !Grounded(Observations(longer[..i]), identify)
    {
      if i < |steps| {
        assert longer[..i] == steps[..i] && longer[i] == steps[i];
      }
    }
  }

  /** The run of the indexed agent for any model and any tools: it completes only on a grounded final. */
  method RunIndexedAgent(maxIterations: nat, identify: Identify) returns (outcome: Outcome, steps: seq<Step>)
    ensures RightlyJudged(steps, identify) && |steps| <= maxIterations
    ensures outcome.Completed? ==>
              && steps != [] && steps[|steps| - 1] == FinalStep(false)
              && Grounded(Observations(steps), identify)
    ensures outcome.OutOfIterations? ==> |steps| == maxIterations
    ensures forall i :: 0 <= i < |steps| && steps[i] == FinalStep(false) ==> outcome.Completed? && i == |steps| - 1
  {
    hide SearchPaths, ReadsPath, MissesPath, Grounded, RightlyJudged, Observations;
    steps := [];
    var policy := new GroundingPolicy();
    NothingObserved(identify);
    for iteration := 0 to maxIterations
      invariant |steps| == iteration && fresh(policy)
      invariant policy.pending == PendingAfter(Observations(steps), identify)
      invariant RightlyJudged(steps, identify)
      invariant FinalStep(false) !in steps
    {
      var answered: bool := *;
      if !answered {
        return Raised, steps;
      }
      var wantsFinal: bool := *;
      if wantsFinal {
        var blocked := policy.HandleFinal();
        GroundedExactly(Observations(steps), identify);
        JudgedNext(steps, FinalStep(blocked), identify);
        assert Observations(steps) + [] == Observations(steps);
        steps := steps + [FinalStep(blocked)];
        if !blocked {
          return Completed, steps;
        }
      } else {
        var o: Observation := *;
        JudgedNext(steps, ToolStep(o), identify);
        assert (Observations(steps) + [o])[..|Observations(steps)|] == Observations(steps);
        steps := steps + [ToolStep(o)];
        policy.Observe(o, identify);
      }
    }
    outcome := OutOfIterations;
  }

  lemma NothingObserved(identify: Identify)
    ensures RightlyJudged([], identify) && Observations([]) == [] && PendingAfter([], identify) == {}
  {
  }

  // ----------------------------------------------------------- the evaluator's second tracker

  function RawPaths(locations: seq<Option<string>>): set<string> {
    set i | 0 <= i < |locations| && locations[i].Some? :: locations[i].value
  }

  /** What the evaluator thinks is pending: it compares texts and knows nothing of missing files. */
  function EvaluatorPending(run: seq<Observation>): set<string> {
    if run == [] then {}
    else
      var before := EvaluatorPending(run[..|run| - 1]);
      var o := run[|run| - 1];
      if !o.success then before
      else if o.tool == INDEXED_SEARCH then
        var surfaced := if o.locations.Some? then RawPaths(o.locations.value) else {};
        if surfaced != {} then surfaced else before
      else if o.tool == READ_FILE && o.readPath.Some? && o.readPath.value in before then {}
      else before
  }

  method VerifiedRetrievalFollowup(run: seq<Observation>) returns (verified: bool)
    ensures verified <==> EvaluatorPending(run) == {}
  {
    var pending: set<string> := {};
    assert run[..|run|] == run;
    for i := 0 to |run|
      invariant pending == EvaluatorPending(run[..i])
    {
      var o := run[i];
      assert run[..i + 1][..i] == run[..i];
      if o.success {
        if o.tool == INDEXED_SEARCH {
          var surfaced := if o.locations.Some? then RawPaths(o.locations.value) else {};
          if surfaced != {} {
            pending := surfaced;
          }
        } else if o.tool == READ_FILE {
          if o.readPath.Some? && o.readPath.value in pending {
            pending := {};
          }
        }
      }
    }
    verified := pending == {};
  }

  /** Tools name paths the way the repository does. */
  predicate Canonical(o: Observation, identify: Identify) {
    && (o.locations.Some? ==> forall i :: 0 <= i < |o.locations.value| && o.locations.value[i].Some? ==>
          identify(o.locations.value[i].value) == o.locations.value[i])
    && (o.readPath.Some? ==> identify(o.readPath.value) == o.readPath)
  }

  /** A step finds a pending path missing. */
  predicate HitsMissing(run: seq<Observation>, k: nat, identify: Identify)
    requires k < |run|
  {
    exists p :: p in PendingAfter(run[..k], identify) && MissesPath(run[k], p, identify)
  }

  lemma SameSurfaced(locations: seq<Option<string>>, identify: Identify)
    requires forall i :: 0 <= i < |locations| && locations[i].Some? ==> identify(locations[i].value) == locations[i]
    ensures Surfaced(locations, identify) == RawPaths(locations)
  {
    assert forall i :: 0 <= i < |locations| ==> PathOf(locations[i], identify) == locations[i];
  }

  lemma TrackersStep(run: seq<Observation>, k: nat, identify: Identify)
    requires k < |run| && Canonical(run[k], identify)
    requires PendingAfter(run[..k], identify) == EvaluatorPending(run[..k])
    ensures PendingAfter(run[..k + 1], identify) == EvaluatorPending(run[..k + 1]) <==> !HitsMissing(run, k, identify)
  {
    var o := run[k];
    assert run[..k + 1][..k] == run[..k];
    if o.locations.Some? {
      SameSurfaced(o.locations.value, identify);
    }
  }

  /** The two trackers agree all along exactly when no step finds a pending path missing. */
  lemma {:induction false} TrackersAgreeExactly(run: seq<Observation>, n: nat, identify: Identify)
    requires n <= |run| && forall k :: 0 <= k < |run| ==> Canonical(run[k], identify)
    ensures (forall k :: 0 <= k <= n ==> PendingAfter(run[..k], identify) == EvaluatorPending(run[..k]))
            <==> forall k :: 0 <= k < n ==> !HitsMissing(run, k, identify)
  {
    hide PendingAfter, EvaluatorPending, HitsMissing, Canonical;
    if n == 0 {
      NothingYet(run, identify);
    } else {
      TrackersAgreeExactly(run, n - 1, identify);
      if forall k :: 0 <= k <= n - 1 ==> PendingAfter(run[..k], identify) == EvaluatorPending(run[..k]) {
        TrackersStep(run, n - 1, identify);
      }
    }
  }

  /** A deleted file that the index still returns: the policy lets go of it, the evaluator does not. */
  lemma DeletedFileExample(identify: Identify) returns (run: seq<Observation>)
    requires identify("a.py") == Some("a.py")
    ensures forall k :: 0 <= k < |run| ==> Canonical(run[k], identify)
    ensures PendingAfter(run, identify) == {} && EvaluatorPending(run) == {"a.py"}
  {
    var search := Observation(INDEXED_SEARCH, true, Some([Some("a.py")]), None, None, false);
    var read := Observation(READ_FILE, false, None, None, Some("a.py"), true);
    run := [search, read];
    assert run[..1] == [search] && [search][..0] == [];
    var locations: seq<Option<string>> := [Some("a.py")];
    assert PathOf(locations[0], identify) == Some("a.py");
    assert Surfaced(locations, identify) == {"a.py"};
    assert RawPaths(locations) == {"a.py"} by {
      assert locations[0].Some?;
    }
    assert PendingAfter([search], identify) == {"a.py"} && EvaluatorPending([search]) == {"a.py"};
    assert MissesPath(read, "a.py", identify);
  }

  lemma NothingYet(run: seq<Observation>, identify: Identify)
    ensures PendingAfter(run[..0], identify) == EvaluatorPending(run[..0])
  {
  }
}
