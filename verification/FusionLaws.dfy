/** What holds of every fusion: one ranking, whatever the order of sources, and better ranks first. */
module FusionLaws {
  import opened Chunks
  import opened Fusion
  import opened Sorting
  import opened Wrappers

  // ---------------------------------------------------------------------------- one ranking

  lemma RankingIsUnique(a: seq<Identity>, b: seq<Identity>, sources: seq<Source>, rrfK: real)
    requires rrfK > 0.0 && IsRanking(a, sources, rrfK) && IsRanking(b, sources, rrfK)
    ensures a == b
  {
    hide FusionOrder, BestRank;
    SameElements(a, b);
    FusionOrderIsTotal(sources, rrfK);
    SortedUnique(a, b, FusionOrder(sources, rrfK));
  }

  /** Sources that score and rank every identity alike have the same rankings. */
  ghost predicate ScoredAlike(a: seq<Source>, b: seq<Source>, rrfK: real)
    requires rrfK > 0.0
  {
    forall id :: Score(a, id, rrfK) == Score(b, id, rrfK) && BestRank(a, id) == BestRank(b, id)
  }

  lemma SameRanking(a: seq<Source>, b: seq<Source>, all: seq<Identity>, rrfK: real)
    requires rrfK > 0.0 && ScoredAlike(a, b, rrfK) && IsRanking(all, a, rrfK)
    ensures IsRanking(all, b, rrfK)
  {
    hide Score, BestRank;
    forall i, k | 0 <= i < k < |all|
      ensures FusionOrder(b, rrfK)(all[i], all[k])
    {
      assert FusionOrder(a, rrfK)(all[i], all[k]);
    }
  }

  // ------------------------------------------------------------------------- source order

  lemma {:induction false} WithoutOne(sources: seq<Source>, j: nat, id: Identity, rrfK: real)
    requires rrfK > 0.0 && j < |sources|
    ensures var rest := sources[..j] + sources[j + 1..];
            && Score(sources, id, rrfK) == Score(rest, id, rrfK) + Term(sources[j], id, rrfK)
            && BestRank(sources, id) == Better(BestRank(rest, id), RankIn(sources[j].results, id))
    decreases |sources|
  {
    hide Term, RankIn;
    var last := |sources| - 1;
    var rest := sources[..j] + sources[j + 1..];
    if j == last {
      assert rest == sources[..last];
    } else {
      var front := sources[..last];
      WithoutOne(front, j, id, rrfK);
      assert rest[..|rest| - 1] == front[..j] + front[j + 1..];
      assert rest[|rest| - 1] == sources[last];
    }
  }

  lemma RemovedAt(s: seq<Source>, j: nat)
    requires j < |s|
    ensures multiset(s[..j] + s[j + 1..]) == multiset(s) - multiset{s[j]}
  {
    assert s == s[..j] + [s[j]] + s[j + 1..];
  }

  /** Where the last source of one order stands in the other, and that the rest are the same sources. */
  lemma LastElsewhere(a: seq<Source>, b: seq<Source>) returns (j: nat)
    requires a != [] && multiset(a) == multiset(b)
    ensures j < |b| && b[j] == a[|a| - 1]
    ensures multiset(a[..|a| - 1]) == multiset(b[..j] + b[j + 1..])
  {
    var last := |a| - 1;
    assert a[last] in multiset(b);
    j :| 0 <= j < |b| && b[j] == a[last];
    RemovedAt(b, j);
    RemovedAt(a, last);
    assert a[..last] + a[last + 1..] == a[..last];
  }

  /** Neither scores nor best ranks depend on the order of the sources. */
  lemma {:induction false} ScoresIgnoreOrder(a: seq<Source>, b: seq<Source>, id: Identity, rrfK: real)
    requires rrfK > 0.0 && multiset(a) == multiset(b)
    ensures Score(a, id, rrfK) == Score(b, id, rrfK) && BestRank(a, id) == BestRank(b, id)
    decreases |a|
  {
    hide Term, RankIn;
    if a == [] {
      assert |multiset(b)| == |b|;
    } else {
      var j := LastElsewhere(a, b);
      ScoresIgnoreOrder(a[..|a| - 1], b[..j] + b[j + 1..], id, rrfK);
      WithoutOne(b, j, id, rrfK);
    }
  }

  /** The ranking does not depend on the order in which sources are given. */
  lemma SourceOrderIsIrrelevant(a: seq<Source>, b: seq<Source>, allA: seq<Identity>, allB: seq<Identity>, rrfK: real)
    requires rrfK > 0.0 && multiset(a) == multiset(b) && IsRanking(allA, a, rrfK) && IsRanking(allB, b, rrfK)
    ensures allA == allB
  {
    hide Score, BestRank, IsRanking;
    forall id
      ensures Score(a, id, rrfK) == Score(b, id, rrfK) && BestRank(a, id) == BestRank(b, id)
    {
      ScoresIgnoreOrder(a, b, id, rrfK);
    }
    SameRanking(a, b, allA, rrfK);
    RankingIsUnique(allA, allB, b, rrfK);
  }

  // ------------------------------------------------------------------------ an empty source

  /** A source without results changes no score, no rank by source and no place. */
  lemma EmptySourceIsNeutral(sources: seq<Source>, name: string, all: seq<Identity>, more: seq<Identity>, rrfK: real)
    requires rrfK > 0.0 && IsRanking(all, sources, rrfK) && IsRanking(more, sources + [Source(name, [])], rrfK)
    ensures more == all
    ensures forall id :: Score(sources + [Source(name, [])], id, rrfK) == Score(sources, id, rrfK)
                         && SourceRanks(sources + [Source(name, [])], id) == SourceRanks(sources, id)
  {
    hide Score, BestRank, IsRanking;
    var extended := sources + [Source(name, [])];
    assert extended[..|sources|] == sources;
    forall id
      ensures Score(extended, id, rrfK) == Score(sources, id, rrfK) && BestRank(extended, id) == BestRank(sources, id)
    {
      LastSource(sources, Source(name, []), id, rrfK);
    }
    SameRanking(sources, extended, all, rrfK);
    RankingIsUnique(all, more, extended, rrfK);
  }

  // ------------------------------------------------------------------------- a larger top k

  lemma ChunksAreDetermined(sources: seq<Source>, a: map<Identity, CodeChunk>, b: map<Identity, CodeChunk>,
                            id: Identity)
    requires AllAgree(sources, a) && AllAgree(sources, b) && id in a && id in b
    ensures a[id] == b[id]
  {
    hide BestRank, AllAgree;
    assert BestRank(sources, id).Some? by {
      RankedWhenAgreed(sources, a, id);
    }
    var r := RankedSomewhere(sources, id);
    AgreedChunk(sources, a, r);
    AgreedChunk(sources, b, r);
  }

  lemma RankedWhenAgreed(sources: seq<Source>, chunks: map<Identity, CodeChunk>, id: Identity)
    requires AllAgree(sources, chunks) && id in chunks
    ensures BestRank(sources, id).Some?
  {
  }

  /** Asking for more results only adds to the end. */
  lemma MoreResultsExtend(fewer: seq<Fused>, more: seq<Fused>, all: seq<Identity>, all': seq<Identity>,
                          sources: seq<Source>, chunks: map<Identity, CodeChunk>, chunks': map<Identity, CodeChunk>,
                          k: int, k': int, rrfK: real)
    requires rrfK > 0.0 && k <= k'
    requires IsFusion(fewer, all, sources, chunks, k, rrfK) && IsFusion(more, all', sources, chunks', k', rrfK)
    ensures fewer <= more
  {
    hide IsRanking, AllAgree, Score, SourceRanks;
    RankingIsUnique(all, all', sources, rrfK);
    forall i | 0 <= i < |fewer|
      ensures fewer[i] == more[i]
    {
      ChunksAreDetermined(sources, chunks, chunks', all[i]);
    }
  }

  // ------------------------------------------------------------------------------ dominance

  lemma SmallerRankScoresMore(x: real, y: real)
    requires 0.0 < x <= y
    ensures 1.0 / x >= 1.0 / y > 0.0
    ensures x < y ==> 1.0 / x > 1.0 / y
  {
    var p, q := 1.0 / x, 1.0 / y;
    assert p * x == 1.0 && q * y == 1.0;
    assert p - q == (y - x) * (p * q) by {
      assert (y - x) * (p * q) == p * (q * y) - q * (p * x);
    }
    assert p > 0.0 && q > 0.0;
    assert p * q > 0.0;
  }

  lemma ReciprocalOrder(rrfK: real, a: nat, b: nat)
    requires rrfK > 0.0 && a <= b
    ensures Reciprocal(rrfK, a) >= Reciprocal(rrfK, b) > 0.0
    ensures a < b ==> Reciprocal(rrfK, a) > Reciprocal(rrfK, b)
  {
    SmallerRankScoresMore(rrfK + a as real, rrfK + b as real);
  }

  predicate AsGoodIn(s: Source, a: Identity, b: Identity) {
    BetterOrSame(RankIn(s.results, a), RankIn(s.results, b))
  }

  predicate BetterIn(s: Source, a: Identity, b: Identity) {
    && RankIn(s.results, a).Some?
    && (RankIn(s.results, b).None? || RankIn(s.results, a).value < RankIn(s.results, b).value)
  }

  lemma TermOrder(s: Source, a: Identity, b: Identity, rrfK: real)
    requires rrfK > 0.0 && AsGoodIn(s, a, b)
    ensures Term(s, a, rrfK) >= Term(s, b, rrfK)
    ensures BetterIn(s, a, b) ==> Term(s, a, rrfK) > Term(s, b, rrfK)
  {
    hide RankIn, Reciprocal;
    if RankIn(s.results, a).Some? {
      var x := RankIn(s.results, a).value;
      ReciprocalOrder(rrfK, x, if RankIn(s.results, b).Some? then RankIn(s.results, b).value else x);
    }
  }

  lemma {:induction false} ScoreOrder(sources: seq<Source>, a: Identity, b: Identity, rrfK: real)
    requires rrfK > 0.0 && forall i :: 0 <= i < |sources| ==> AsGoodIn(sources[i], a, b)
    ensures Score(sources, a, rrfK) >= Score(sources, b, rrfK)
    ensures (exists i :: 0 <= i < |sources| && BetterIn(sources[i], a, b)) ==>
              Score(sources, a, rrfK) > Score(sources, b, rrfK)
  {
    hide AsGoodIn, BetterIn, Term;
    if sources != [] {
      var last := |sources| - 1;
      var front := sources[..last];
      ScoreOrder(front, a, b, rrfK);
      TermOrder(sources[last], a, b, rrfK);
      if exists i :: 0 <= i < |sources| && BetterIn(sources[i], a, b) {
        var i :| 0 <= i < |sources| && BetterIn(sources[i], a, b);
        assert i < last ==> front[i] == sources[i];
      }
    }
  }

  /** A result at least as good in every source and better in one comes first. */
  lemma BetterEverywhereComesFirst(sources: seq<Source>, all: seq<Identity>, i: nat, j: nat, rrfK: real)
    requires rrfK > 0.0 && IsRanking(all, sources, rrfK) && i < |all| && j < |all|
    requires forall s :: 0 <= s < |sources| ==> AsGoodIn(sources[s], all[i], all[j])
    requires exists s :: 0 <= s < |sources| && BetterIn(sources[s], all[i], all[j])
    ensures i < j
  {
    hide AsGoodIn, BetterIn, Score, BestRank;
    ScoreOrder(sources, all[i], all[j], rrfK);
  }
}
