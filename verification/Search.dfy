/** Finding, counting and replacing one sequence inside another, as Python's str and bytes do. */
module Search {
  import opened Wrappers

  predicate OccursAt<T(==)>(s: seq<T>, pattern: seq<T>, k: nat) {
    k + |pattern| <= |s| && s[k..k + |pattern|] == pattern
  }

  /** The leftmost occurrence. */
  function Find<T(==)>(s: seq<T>, pattern: seq<T>): (found: Option<nat>)
    ensures found.Some? ==> OccursAt(s, pattern, found.value)
  {
    if |s| < |pattern| then None
    else if s[..|pattern|] == pattern then Some(0)
    else if s == [] then None
    else
      match Find(s[1..], pattern)
      case None => None
      case Some(k) =>
        assert s[1..][k..k + |pattern|] == s[k + 1..k + 1 + |pattern|];
        Some(k + 1)
  }

  lemma {:induction false} NothingBefore<T>(s: seq<T>, pattern: seq<T>, k: nat)
    requires OccursAt(s, pattern, k)
    ensures Find(s, pattern).Some? && Find(s, pattern).value <= k
  {
    if s[..|pattern|] != pattern {
      assert s[1..][k - 1..k - 1 + |pattern|] == s[k..k + |pattern|];
      NothingBefore(s[1..], pattern, k - 1);
    }
  }

  /** Non-overlapping occurrences, counted from the left. */
  function Count<T(==)>(s: seq<T>, pattern: seq<T>): nat
    requires pattern != []
  {
    match Find(s, pattern)
    case None => 0
    case Some(k) => 1 + Count(s[k + |pattern|..], pattern)
  }

  /** Places of occurrences from left to right, no two of which overlap. */
  ghost predicate Apart<T>(s: seq<T>, pattern: seq<T>, places: seq<nat>) {
    && (forall i :: 0 <= i < |places| ==> OccursAt(s, pattern, places[i]))
    && forall i, j :: 0 <= i < j < |places| ==> places[i] + |pattern| <= places[j]
  }

  /** There is an occurrence, and every other one overlaps it from the right. */
  ghost predicate AppearsOnce<T>(s: seq<T>, pattern: seq<T>) {
    exists k: nat ::
      OccursAt(s, pattern, k) && forall j: nat :: OccursAt(s, pattern, j) ==> k <= j < k + |pattern|
  }

  lemma OccursAfter<T>(s: seq<T>, pattern: seq<T>, start: nat, k: nat)
    requires start <= |s|
    ensures OccursAt(s[start..], pattern, k) <==> OccursAt(s, pattern, start + k)
  {
    if start + k + |pattern| <= |s| {
      assert s[start..][k..k + |pattern|] == s[start + k..start + k + |pattern|];
    }
  }

  lemma OccursWithin<T>(s: seq<T>, pattern: seq<T>, k: nat)
    requires OccursAt(s, pattern, k)
    ensures k + |pattern| <= |s|
  {
  }

  function Shifted(places: seq<nat>, start: nat): seq<nat> {
    seq(|places|, i requires 0 <= i < |places| => start + places[i])
  }

  lemma ApartAfter<T>(s: seq<T>, pattern: seq<T>, start: nat, places: seq<nat>)
    requires start <= |s|
    ensures Apart(s[start..], pattern, places) <==> Apart(s, pattern, Shifted(places, start))
  {
    hide OccursAt;
    forall i | 0 <= i < |places|
      ensures OccursAt(s[start..], pattern, places[i]) <==> OccursAt(s, pattern, Shifted(places, start)[i])
    {
      OccursAfter(s, pattern, start, places[i]);
    }
  }

  lemma {:induction false} CountIsAttained<T>(s: seq<T>, pattern: seq<T>) returns (places: seq<nat>)
    requires pattern != []
    ensures Apart(s, pattern, places) && |places| == Count(s, pattern)
    decreases |s|
  {
    hide OccursAt, Find;
    match Find(s, pattern)
    case None => places := [];
    case Some(k) =>
      var start := k + |pattern|;
      OccursWithin(s, pattern, start - |pattern|);
      var later := CountIsAttained(s[start..], pattern);
      ApartAfter(s, pattern, start, later);
      places := [k] + Shifted(later, start);
  }

  lemma {:induction false} CountIsLargest<T>(s: seq<T>, pattern: seq<T>, places: seq<nat>)
    requires pattern != [] && Apart(s, pattern, places)
    ensures |places| <= Count(s, pattern)
    decreases |s|
  {
    hide OccursAt, Find;
    if places != [] {
      NothingBefore(s, pattern, places[0]);
      var start := Find(s, pattern).value + |pattern|;
      OccursWithin(s, pattern, start - |pattern|);
      var later := seq(|places| - 1, i requires 0 <= i < |places| - 1 => places[i + 1] - start);
      assert Shifted(later, start) == places[1..];
      ApartAfter(s, pattern, start, later);
      CountIsLargest(s[start..], pattern, later);
    }
  }

  /** The count is the largest number of occurrences that do not overlap. */
  lemma CountIs<T>(s: seq<T>, pattern: seq<T>)
    requires pattern != []
    ensures exists places :: Apart(s, pattern, places) && |places| == Count(s, pattern)
    ensures forall places :: Apart(s, pattern, places) ==> |places| <= Count(s, pattern)
  {
    var places := CountIsAttained(s, pattern);
    forall places | Apart(s, pattern, places)
      ensures |places| <= Count(s, pattern)
    {
      CountIsLargest(s, pattern, places);
    }
  }

  lemma CountedOnce<T>(s: seq<T>, pattern: seq<T>)
    requires pattern != []
    ensures Count(s, pattern) == 1 <==> AppearsOnce(s, pattern)
  {
    hide Count;
    var places := CountIsAttained(s, pattern);
    assert |places| >= 2 ==> places[0] + |pattern| <= places[1];
    if Count(s, pattern) == 1 {
      assert OccursAt(s, pattern, places[0]);
      var k := Find(s, pattern).value by {
        NothingBefore(s, pattern, places[0]);
      }
      forall j: nat | OccursAt(s, pattern, j)
        ensures k <= j < k + |pattern|
      {
        NothingBefore(s, pattern, j);
        if k + |pattern| <= j {
          CountIsLargest(s, pattern, [k, j]);
        }
      }
    }
    if AppearsOnce(s, pattern) {
      var k: nat :| OccursAt(s, pattern, k) && forall j: nat :: OccursAt(s, pattern, j) ==> k <= j < k + |pattern|;
      CountIsLargest(s, pattern, [k]);
      assert forall i :: 0 <= i < |places| ==> OccursAt(s, pattern, places[i]);
    }
  }

  function ReplaceFirst<T(==)>(s: seq<T>, pattern: seq<T>, replacement: seq<T>): seq<T> {
    match Find(s, pattern)
    case None => s
    case Some(k) => s[..k] + replacement + s[k + |pattern|..]
  }

  /** The leftmost occurrence is replaced and the rest stays. */
  lemma ReplaceFirstIs<T>(s: seq<T>, pattern: seq<T>, replacement: seq<T>, k: nat)
    requires OccursAt(s, pattern, k) && forall j: nat :: OccursAt(s, pattern, j) ==> k <= j
    ensures ReplaceFirst(s, pattern, replacement) == s[..k] + replacement + s[k + |pattern|..]
  {
    hide Find;
    NothingBefore(s, pattern, k);
  }
}
