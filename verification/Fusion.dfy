/** Reciprocal rank fusion of any number of named rankings, in exact arithmetic. */
module Fusion {
  import opened Chunks
  import opened Orders
  import opened Sorting
  import opened Wrappers

  datatype Ranked = Ranked(chunk: CodeChunk, rank: nat)

  datatype Source = Source(name: string, results: seq<Ranked>)

  datatype Fused = Fused(chunk: CodeChunk, rank: nat, score: real, sourceRanks: map<string, nat>)

  datatype FusionError = TopKNotPositive | RrfKNotPositive | NoSources | DuplicateIdentity | ConflictingChunks

  // ------------------------------------------------------------------------- ranks and scores

  function IdOf(r: Ranked): Identity {
    IdentityOf(r.chunk)
  }

  function RankIn(results: seq<Ranked>, id: Identity): Option<nat> {
    if results == [] then None
    else
      var last := results[|results| - 1];
      if IdOf(last) == id then Some(last.rank) else RankIn(results[..|results| - 1], id)
  }

  function Reciprocal(rrfK: real, rank: nat): (share: real)
    requires rrfK > 0.0
    ensures (rrfK + rank as real) * share == 1.0
  {
    1.0 / (rrfK + rank as real)
  }

  function Term(s: Source, id: Identity, rrfK: real): real
    requires rrfK > 0.0
  {
    match RankIn(s.results, id)
    case None => 0.0
    case Some(rank) => Reciprocal(rrfK, rank)
  }

  function Score(sources: seq<Source>, id: Identity, rrfK: real): real
    requires rrfK > 0.0
  {
    if sources == [] then 0.0
    else Score(sources[..|sources| - 1], id, rrfK) + Term(sources[|sources| - 1], id, rrfK)
  }

  /** The best rank that any source gives. */
  function BestRank(sources: seq<Source>, id: Identity): Option<nat> {
    if sources == [] then None
    else Better(BestRank(sources[..|sources| - 1], id), RankIn(sources[|sources| - 1].results, id))
  }

  function Better(a: Option<nat>, b: Option<nat>): Option<nat> {
    if a.None? then b else if b.None? then a else if a.value <= b.value then a else b
  }

  predicate BetterOrSame(a: Option<nat>, b: Option<nat>) {
    b.None? || (a.Some? && a.value <= b.value)
  }

  function SourceRanks(sources: seq<Source>, id: Identity): map<string, nat> {
    if sources == [] then map[]
    else
      var before := SourceRanks(sources[..|sources| - 1], id);
      var last := sources[|sources| - 1];
      match RankIn(last.results, id)
      case None => before
      case Some(rank) => before[last.name := rank]
  }

  /** What a source that ranks the identity gives it, and what any other does. */
  lemma {:induction false} RankIs(results: seq<Ranked>, id: Identity, i: nat)
    requires DistinctIds(results)
    ensures i < |results| && IdOf(results[i]) == id ==> RankIn(results, id) == Some(results[i].rank)
    ensures (forall k :: 0 <= k < |results| ==> IdOf(results[k]) != id) ==> RankIn(results, id).None?
  {
    hide IdOf;
    if results != [] {
      RankIs(results[..|results| - 1], id, i);
    }
  }

  /** The score adds the reciprocal for every source that ranks the identity, and nothing for others. */
  lemma ScoreIs(sources: seq<Source>, last: Source, id: Identity, rrfK: real)
    requires rrfK > 0.0 && DistinctIds(last.results)
    ensures Score([], id, rrfK) == 0.0
    ensures forall i :: 0 <= i < |last.results| && IdOf(last.results[i]) == id ==>
              Score(sources + [last], id, rrfK) == Score(sources, id, rrfK) + Reciprocal(rrfK, last.results[i].rank)
    ensures (forall i :: 0 <= i < |last.results| ==> IdOf(last.results[i]) != id) ==>
              Score(sources + [last], id, rrfK) == Score(sources, id, rrfK)
  {
    hide IdOf, DistinctIds, Reciprocal;
    LastSource(sources, last, id, rrfK);
    forall i | 0 <= i < |last.results| && IdOf(last.results[i]) == id
      ensures Term(last, id, rrfK) == Reciprocal(rrfK, last.results[i].rank)
    {
      RankIs(last.results, id, i);
    }
    RankIs(last.results, id, 0);
  }

  /** The ranks reported with a result: the name of every source that ranks it, with that rank. */
  lemma {:induction false} SourceRanksAre(sources: seq<Source>, id: Identity)
    requires forall s, t :: 0 <= s < t < |sources| ==> sources[s].name != sources[t].name
    requires forall s :: 0 <= s < |sources| ==> DistinctIds(sources[s].results)
    ensures forall s, i :: 0 <= s < |sources| && 0 <= i < |sources[s].results| && IdOf(sources[s].results[i]) == id ==>
              && sources[s].name in SourceRanks(sources, id)
              && SourceRanks(sources, id)[sources[s].name] == sources[s].results[i].rank
    ensures forall name :: name in SourceRanks(sources, id) ==>
              exists s, i :: 0 <= s < |sources| && 0 <= i < |sources[s].results|
                             && sources[s].name == name && IdOf(sources[s].results[i]) == id
  {
    hide IdOf, DistinctIds;
    if sources != [] {
      var front, last := sources[..|sources| - 1], sources[|sources| - 1];
      SourceRanksAre(front, id);
      RankInMeans(last.results, id);
      forall i | 0 <= i < |last.results| && IdOf(last.results[i]) == id
        ensures RankIn(last.results, id) == Some(last.results[i].rank)
      {
        RankIs(last.results, id, i);
      }
      forall s, i | 0 <= s < |sources| && 0 <= i < |sources[s].results| && IdOf(sources[s].results[i]) == id
        ensures && sources[s].name in SourceRanks(sources, id)
                && SourceRanks(sources, id)[sources[s].name] == sources[s].results[i].rank
      {
        assert s < |front| ==> front[s] == sources[s];
      }
      forall name | name in SourceRanks(sources, id)
        ensures exists s, i :: 0 <= s < |sources| && 0 <= i < |sources[s].results|
                               && sources[s].name == name && IdOf(sources[s].results[i]) == id
      {
        if name == last.name && RankIn(last.results, id).Some? {
          var i :| 0 <= i < |last.results| && IdOf(last.results[i]) == id;
          assert sources[|sources| - 1].name == name;
        } else {
          var s, i :| 0 <= s < |front| && 0 <= i < |front[s].results|
                      && front[s].name == name && IdOf(front[s].results[i]) == id;
          assert sources[s] == front[s];
        }
      }
    }
  }

  /** The order of the answer: more score first, then the better single rank, then the identity. */
  lemma RankingIsOrdered(all: seq<Identity>, sources: seq<Source>, rrfK: real, i: nat, j: nat)
    requires rrfK > 0.0 && IsRanking(all, sources, rrfK) && i < j < |all|
    ensures BestRank(sources, all[i]).Some? && BestRank(sources, all[j]).Some?
    ensures Score(sources, all[i], rrfK) >= Score(sources, all[j], rrfK)
    ensures Score(sources, all[i], rrfK) == Score(sources, all[j], rrfK) ==>
              BestRank(sources, all[i]).value <= BestRank(sources, all[j]).value
    ensures && Score(sources, all[i], rrfK) == Score(sources, all[j], rrfK)
            && BestRank(sources, all[i]) == BestRank(sources, all[j]) ==>
              || (all[i].path != all[j].path && StringLe(all[i].path, all[j].path))
              || (all[i].path == all[j].path && all[i].index < all[j].index)
              || (all[i].path == all[j].path && all[i].index == all[j].index
                  && (all[i].startLine < all[j].startLine
                      || (all[i].startLine == all[j].startLine && all[i].endLine < all[j].endLine)))
  {
    hide Score, BestRank;
    assert FusionOrder(sources, rrfK)(all[i], all[j]);
    assert all[i] in all && all[j] in all && all[i] != all[j];
  }

  /** The best rank is the least that any source gives. */
  lemma {:induction false} BestRankIs(sources: seq<Source>, id: Identity)
    ensures BestRank(sources, id).Some? ==>
              exists s :: 0 <= s < |sources| && RankIn(sources[s].results, id) == BestRank(sources, id)
    ensures forall s :: 0 <= s < |sources| && RankIn(sources[s].results, id).Some? ==>
              BestRank(sources, id).Some? && BestRank(sources, id).value <= RankIn(sources[s].results, id).value
  {
    hide RankIn;
    if sources != [] {
      var front := sources[..|sources| - 1];
      BestRankIs(front, id);
      assert forall s :: 0 <= s < |front| ==> front[s] == sources[s];
    }
  }

  /** Higher scores first, then better single ranks, then identities. */
  predicate FusedLe(sources: seq<Source>, rrfK: real, a: Identity, b: Identity)
    requires rrfK > 0.0
  {
    if Score(sources, a, rrfK) != Score(sources, b, rrfK) then Score(sources, a, rrfK) > Score(sources, b, rrfK)
    else if BestRank(sources, a) != BestRank(sources, b) then BetterOrSame(BestRank(sources, a), BestRank(sources, b))
    else IdentityLe(a, b)
  }

  function FusionOrder(sources: seq<Source>, rrfK: real): (Identity, Identity) -> bool
    requires rrfK > 0.0
  {
    (a, b) => FusedLe(sources, rrfK, a, b)
  }

  /** One strict total order: any two different identities are in one order, and not in the other. */
  lemma FusionOrderIsTotal(sources: seq<Source>, rrfK: real)
    requires rrfK > 0.0
    ensures TotalPreorder(FusionOrder(sources, rrfK)) && Antisymmetric(FusionOrder(sources, rrfK))
  {
    hide IdentityLe, Score, BestRank;
    var le := FusionOrder(sources, rrfK);
    forall a, b
      ensures le(a, b) || le(b, a)
    {
      IdentityLeTotal(a, b);
    }
    forall a, b, c | le(a, b) && le(b, c)
      ensures le(a, c)
    {
      if IdentityLe(a, b) && IdentityLe(b, c) {
        IdentityLeTransitive(a, b, c);
      }
    }
    forall a, b | le(a, b) && le(b, a)
      ensures a == b
    {
      if IdentityLe(a, b) && IdentityLe(b, a) {
        IdentityLeAntisymmetric(a, b);
      }
    }
  }

  // -------------------------------------------------------------------------------- validity

  predicate DistinctIds(results: seq<Ranked>) {
    forall i, j :: 0 <= i < j < |results| ==> IdOf(results[i]) != IdOf(results[j])
  }

  /** Every result of every source agrees with one chunk per identity. */
  predicate AgreesWith(results: seq<Ranked>, chunks: map<Identity, CodeChunk>) {
    forall i :: 0 <= i < |results| ==> IdOf(results[i]) in chunks && chunks[IdOf(results[i])] == results[i].chunk
  }

  predicate AllAgree(sources: seq<Source>, chunks: map<Identity, CodeChunk>) {
    && (forall i :: 0 <= i < |sources| ==> DistinctIds(sources[i].results) && AgreesWith(sources[i].results, chunks))
    && forall id :: id in chunks ==> BestRank(sources, id).Some? && IdentityOf(chunks[id]) == id
  }

  /** The ranking of everything retrieved: each identity once, in the fusion order. */
  ghost predicate IsRanking(all: seq<Identity>, sources: seq<Source>, rrfK: real)
    requires rrfK > 0.0
  {
    && SortedBy(all, FusionOrder(sources, rrfK))
    && (forall i, j :: 0 <= i < j < |all| ==> all[i] != all[j])
    && forall id :: id in all <==> BestRank(sources, id).Some?
  }

  function FusedAt(all: seq<Identity>, i: nat, sources: seq<Source>, chunks: map<Identity, CodeChunk>,
                   rrfK: real): Fused
    requires i < |all| && rrfK > 0.0 && all[i] in chunks
  {
    Fused(chunks[all[i]], i + 1, Score(sources, all[i], rrfK), SourceRanks(sources, all[i]))
  }

  function Shorter(n: nat, m: int): nat {
    if m < 0 then 0 else if n < m then n else m
  }

  /** The first `topK` of the ranking, numbered from one, with their scores and ranks by source. */
  ghost predicate IsFusion(fused: seq<Fused>, all: seq<Identity>, sources: seq<Source>,
                           chunks: map<Identity, CodeChunk>, topK: int, rrfK: real)
    requires rrfK > 0.0
  {
    && IsRanking(all, sources, rrfK) && AllAgree(sources, chunks) && (forall id :: id in all ==> id in chunks)
    && |fused| == Shorter(|all|, topK)
    && forall i :: 0 <= i < |fused| ==> all[i] in chunks && fused[i] == FusedAt(all, i, sources, chunks, rrfK)
  }

  // ------------------------------------------------------------------------------- the loops

  /** The dictionaries while results are added: `seen` are the sources so far, the last one partly. */
  datatype Tables = Tables(chunks: map<Identity, CodeChunk>, scores: map<Identity, real>, keys: seq<Identity>)

  ghost predicate Tabulated(t: Tables, seen: seq<Source>, rrfK: real)
    requires rrfK > 0.0
  {
    && t.chunks.Keys == t.scores.Keys
    && (forall id :: id in t.scores ==> t.scores[id] == Score(seen, id, rrfK))
    && (forall id :: id in t.keys <==> id in t.scores)
    && (forall i, j :: 0 <= i < j < |t.keys| ==> t.keys[i] != t.keys[j])
    && (forall id :: id in t.scores <==> BestRank(seen, id).Some?)
    && AllAgree(seen, t.chunks)
  }

  function Extended(s: Source, r: Ranked): Source {
    s.(results := s.results + [r])
  }

  lemma RankExtended(s: Source, r: Ranked, id: Identity)
    ensures RankIn(Extended(s, r).results, id) == if IdOf(r) == id then Some(r.rank) else RankIn(s.results, id)
  {
    assert (s.results + [r])[..|s.results|] == s.results;
  }

  lemma {:induction false} RankInMeans(results: seq<Ranked>, id: Identity)
    ensures RankIn(results, id).Some? <==> exists i :: 0 <= i < |results| && IdOf(results[i]) == id
  {
    if results != [] {
      var front := results[..|results| - 1];
      RankInMeans(front, id);
      if exists i :: 0 <= i < |results| && IdOf(results[i]) == id {
        var i :| 0 <= i < |results| && IdOf(results[i]) == id;
        assert i < |front| ==> front[i] == results[i];
      }
    }
  }

  lemma LastSource(seen: seq<Source>, s: Source, id: Identity, rrfK: real)
    requires rrfK > 0.0
    ensures Score(seen + [s], id, rrfK) == Score(seen, id, rrfK) + Term(s, id, rrfK)
    ensures BestRank(seen + [s], id) == Better(BestRank(seen, id), RankIn(s.results, id))
  {
    assert (seen + [s])[..|seen|] == seen;
  }

  /** One result more in the last source changes only its own identity. */
  lemma ResultAdded(seen: seq<Source>, s: Source, r: Ranked, id: Identity, rrfK: real)
    requires rrfK > 0.0 && RankIn(s.results, IdOf(r)).None?
    ensures var before, after := seen + [s], seen + [Extended(s, r)];
            && Score(after, id, rrfK)
               == Score(before, id, rrfK) + (if id == IdOf(r) then Reciprocal(rrfK, r.rank) else 0.0)
            && (BestRank(after, id).Some? <==> BestRank(before, id).Some? || id == IdOf(r))
  {
    hide Score, BestRank, RankIn, IdOf;
    LastSource(seen, s, id, rrfK);
    LastSource(seen, Extended(s, r), id, rrfK);
    RankExtended(s, r, id);
  }

  lemma {:induction false} NoRankNoScore(sources: seq<Source>, id: Identity, rrfK: real)
    requires rrfK > 0.0 && BestRank(sources, id).None?
    ensures Score(sources, id, rrfK) == 0.0
  {
    if sources != [] {
      NoRankNoScore(sources[..|sources| - 1], id, rrfK);
    }
  }

  function AddTo(t: Tables, r: Ranked, rrfK: real): Tables
    requires rrfK > 0.0
  {
    var id := IdOf(r);
    var before := if id in t.scores then t.scores[id] else 0.0;
    Tables(t.chunks[id := r.chunk], t.scores[id := before + Reciprocal(rrfK, r.rank)],
           if id in t.scores then t.keys else t.keys + [id])
  }

  lemma ScoresTabulated(t: Tables, seen: seq<Source>, s: Source, r: Ranked, rrfK: real)
    requires rrfK > 0.0 && Tabulated(t, seen + [s], rrfK) && RankIn(s.results, IdOf(r)).None?
    ensures var after, next := seen + [Extended(s, r)], AddTo(t, r, rrfK);
            && (forall id :: id in next.scores ==> next.scores[id] == Score(after, id, rrfK))
            && (forall id :: id in next.scores <==> BestRank(after, id).Some?)
  {
    hide Score, BestRank, RankIn, IdOf, Extended, Reciprocal, AllAgree;
    var before, after, next := seen + [s], seen + [Extended(s, r)], AddTo(t, r, rrfK);
    forall id
      ensures id in next.scores <==> BestRank(after, id).Some?
      ensures id in next.scores ==> next.scores[id] == Score(after, id, rrfK)
    {
      ResultAdded(seen, s, r, id, rrfK);
      if BestRank(before, id).None? {
        NoRankNoScore(before, id, rrfK);
      }
    }
  }

  lemma StillAgree(seen: seq<Source>, s: Source, r: Ranked, chunks: map<Identity, CodeChunk>)
    requires AllAgree(seen + [s], chunks) && RankIn(s.results, IdOf(r)).None?
    requires IdOf(r) in chunks ==> chunks[IdOf(r)] == r.chunk
    requires forall id :: id in chunks || id == IdOf(r) ==> BestRank(seen + [Extended(s, r)], id).Some?
    ensures AllAgree(seen + [Extended(s, r)], chunks[IdOf(r) := r.chunk])
  {
    hide BestRank, RankIn, IdOf;
    var after := seen + [Extended(s, r)];
    RankInMeans(s.results, IdOf(r));
    forall i | 0 <= i < |after|
      ensures DistinctIds(after[i].results) && AgreesWith(after[i].results, chunks[IdOf(r) := r.chunk])
    {
      assert (seen + [s])[i] == if i < |seen| then after[i] else s;
    }
    assert IdOf(r) == IdentityOf(r.chunk) by {
      SameIdentity(r);
    }
  }

  lemma SameIdentity(r: Ranked)
    ensures IdOf(r) == IdentityOf(r.chunk)
  {
  }

  lemma TablesExtended(t: Tables, seen: seq<Source>, s: Source, r: Ranked, rrfK: real)
    requires rrfK > 0.0 && Tabulated(t, seen + [s], rrfK) && RankIn(s.results, IdOf(r)).None?
    requires IdOf(r) in t.chunks ==> t.chunks[IdOf(r)] == r.chunk
    ensures Tabulated(AddTo(t, r, rrfK), seen + [Extended(s, r)], rrfK)
  {
    hide Score, BestRank, RankIn, IdOf, Extended, Reciprocal, AllAgree;
    ScoresTabulated(t, seen, s, r, rrfK);
    StillAgree(seen, s, r, t.chunks);
  }

  /** Two results with one identity and different chunks. */
  ghost predicate Conflicting(sources: seq<Source>) {
    exists a, b :: IsResult(sources, a) && IsResult(sources, b) && IdOf(a) == IdOf(b) && a.chunk != b.chunk
  }

  predicate IsResult(sources: seq<Source>, r: Ranked) {
    exists i :: 0 <= i < |sources| && r in sources[i].results
  }

  lemma {:induction false} RankedSomewhere(sources: seq<Source>, id: Identity) returns (r: Ranked)
    requires BestRank(sources, id).Some?
    ensures IsResult(sources, r) && IdOf(r) == id
  {
    hide IdOf;
    var last := |sources| - 1;
    if RankIn(sources[last].results, id).Some? {
      RankInMeans(sources[last].results, id);
      var i :| 0 <= i < |sources[last].results| && IdOf(sources[last].results[i]) == id;
      r := sources[last].results[i];
    } else {
      r := RankedSomewhere(sources[..last], id);
      var i :| 0 <= i < last && r in sources[..last][i].results;
      assert sources[..last][i] == sources[i];
    }
  }

  lemma AgreedChunk(sources: seq<Source>, chunks: map<Identity, CodeChunk>, r: Ranked)
    requires AllAgree(sources, chunks) && IsResult(sources, r)
    ensures IdOf(r) in chunks && chunks[IdOf(r)] == r.chunk
  {
    hide IdOf;
    var i :| 0 <= i < |sources| && r in sources[i].results;
    var j :| 0 <= j < |sources[i].results| && sources[i].results[j] == r;
  }

  lemma ConflictFound(t: Tables, seen: seq<Source>, all: seq<Source>, r: Ranked, rrfK: real)
    requires rrfK > 0.0 && Tabulated(t, seen, rrfK) && IdOf(r) in t.chunks && t.chunks[IdOf(r)] != r.chunk
    requires IsResult(all, r) && forall x :: IsResult(seen, x) ==> IsResult(all, x)
    ensures Conflicting(all)
  {
    hide IdOf, IsResult;
    var other := RankedSomewhere(seen, IdOf(r));
    AgreedChunk(seen, t.chunks, other);
  }

  /** All results of one source. */
  method AddSource(t: Tables, seen: seq<Source>, source: Source, rrfK: real, ghost all: seq<Source>)
    returns (r: Result<Tables, FusionError>)
    requires rrfK > 0.0 && Tabulated(t, seen + [Source(source.name, [])], rrfK)
    requires source in all && forall x :: x in seen ==> x in all
    ensures r.Success? ==> Tabulated(r.value, seen + [source], rrfK)
    ensures r.Failure? ==>
              || (r.error == DuplicateIdentity && !DistinctIds(source.results))
              || (r.error == ConflictingChunks && Conflicting(all))
  {
    hide Tabulated, Score, BestRank, RankIn, Conflicting, Reciprocal;
    var next := t;
    var ids: set<Identity> := {};
    assert source.results[..0] == [] && source.results[..|source.results|] == source.results;
    for j := 0 to |source.results|
      invariant Tabulated(next, seen + [Source(source.name, source.results[..j])], rrfK)
      invariant forall i :: 0 <= i < j ==> IdOf(source.results[i]) in ids
      invariant forall id :: id in ids ==> exists i :: 0 <= i < j && IdOf(source.results[i]) == id
    {
      var result := source.results[j];
      var id := IdOf(result);
      ghost var s := Source(source.name, source.results[..j]);
      if id in ids {
        return Failure(DuplicateIdentity);
      }
      assert Extended(s, result) == Source(source.name, source.results[..j + 1]);
      assert RankIn(s.results, id).None? by {
        RankInMeans(s.results, id);
      }
      SameKeys(next, seen + [s], rrfK);
      if id in next.chunks && next.chunks[id] != result.chunk {
        PrefixResults(seen, source, j, all);
        ConflictFound(next, seen + [s], all, result, rrfK);
        return Failure(ConflictingChunks);
      }
      TablesExtended(next, seen, s, result, rrfK);
      next := AddTo(next, result, rrfK);
      ids := ids + {id};
    }
    return Success(next);
  }

  lemma SameKeys(t: Tables, seen: seq<Source>, rrfK: real)
    requires rrfK > 0.0 && Tabulated(t, seen, rrfK)
    ensures t.chunks.Keys == t.scores.Keys
  {
  }

  lemma PrefixResults(seen: seq<Source>, source: Source, j: nat, all: seq<Source>)
    requires j < |source.results| && source in all && forall x :: x in seen ==> x in all
    ensures IsResult(all, source.results[j])
    ensures forall x :: IsResult(seen + [Source(source.name, source.results[..j])], x) ==> IsResult(all, x)
  {
    var at :| 0 <= at < |all| && all[at] == source;
    assert source.results[j] in all[at].results;
    var some := seen + [Source(source.name, source.results[..j])];
    forall x | IsResult(some, x)
      ensures IsResult(all, x)
    {
      var i :| 0 <= i < |some| && x in some[i].results;
      if i < |seen| {
        assert seen[i] in all;
        var k :| 0 <= k < |all| && all[k] == seen[i];
        assert x in all[k].results;
      } else {
        assert x in all[at].results;
      }
    }
  }

  lemma EmptySourceTabulated(t: Tables, seen: seq<Source>, name: string, rrfK: real)
    requires rrfK > 0.0 && Tabulated(t, seen, rrfK)
    ensures Tabulated(t, seen + [Source(name, [])], rrfK)
  {
    hide Score, BestRank;
    var more := seen + [Source(name, [])];
    forall id
      ensures Score(more, id, rrfK) == Score(seen, id, rrfK) && BestRank(more, id) == BestRank(seen, id)
    {
      LastSource(seen, Source(name, []), id, rrfK);
    }
    assert forall i :: 0 <= i < |seen| ==> more[i] == seen[i];
  }

  lemma NothingTabulated(t: Tables, rrfK: real)
    requires rrfK > 0.0 && t == Tables(map[], map[], [])
    ensures Tabulated(t, [], rrfK)
  {
  }

  /** The fusion of named rankings. Sources have distinct names, as a mapping's keys do. */
  method FuseRankedSources(sources: seq<Source>, topK: int, rrfK: real)
    returns (r: Result<seq<Fused>, FusionError>, ghost all: seq<Identity>, ghost chunks: map<Identity, CodeChunk>)
    ensures topK <= 0 <==> r == Failure(TopKNotPositive)
    ensures topK > 0 && rrfK <= 0.0 <==> r == Failure(RrfKNotPositive)
    ensures topK > 0 && rrfK > 0.0 && sources == [] <==> r == Failure(NoSources)
    ensures r == Failure(DuplicateIdentity) ==> exists i :: 0 <= i < |sources| && !DistinctIds(sources[i].results)
    ensures r == Failure(ConflictingChunks) ==> Conflicting(sources)
    ensures r.Success? ==> rrfK > 0.0 && IsFusion(r.value, all, sources, chunks, topK, rrfK)
  {
    hide Tabulated, Score, BestRank, DistinctIds, Conflicting, SourceRanks, IsFusion, FusionOrder;
    all, chunks := [], map[];
    if topK <= 0 {
      r := Failure(TopKNotPositive);
      return;
    }
    if rrfK <= 0.0 {
      r := Failure(RrfKNotPositive);
      return;
    }
    if sources == [] {
      r := Failure(NoSources);
      return;
    }
    var t := Tables(map[], map[], []);
    NothingTabulated(t, rrfK);
    assert sources[..0] == [] && sources[..|sources|] == sources;
    for i := 0 to |sources|
      invariant Tabulated(t, sources[..i], rrfK)
    {
      EmptySourceTabulated(t, sources[..i], sources[i].name, rrfK);
      var added := AddSource(t, sources[..i], sources[i], rrfK, sources);
      if added.Failure? {
        r := Failure(added.error);
        return;
      }
      assert sources[..i + 1] == sources[..i] + [sources[i]];
      t := added.value;
    }
    FusionOrderIsTotal(sources, rrfK);
    var ordered := SortBy(t.keys, FusionOrder(sources, rrfK));
    TablesGiveRanking(t, sources, ordered, rrfK);
    var fused := TakeFused(t, sources, ordered, Shorter(|ordered|, topK), rrfK);
    FusionComplete(fused, ordered, sources, t, topK, rrfK);
    r, all, chunks := Success(fused), ordered, t.chunks;
  }

  method TakeFused(t: Tables, sources: seq<Source>, ordered: seq<Identity>, count: nat, rrfK: real)
    returns (fused: seq<Fused>)
    requires rrfK > 0.0 && count <= |ordered| && forall id :: id in ordered ==> id in t.scores && id in t.chunks
    ensures |fused| == count
    ensures forall i :: 0 <= i < count ==>
              ordered[i] in t.scores && ordered[i] in t.chunks
              && fused[i] == Fused(t.chunks[ordered[i]], i + 1, t.scores[ordered[i]], SourceRanks(sources, ordered[i]))
  {
    hide SourceRanks;
    fused := [];
    for i := 0 to count
      invariant |fused| == i
      invariant forall j :: 0 <= j < i ==>
                  ordered[j] in t.scores && ordered[j] in t.chunks
                  && fused[j] == Fused(t.chunks[ordered[j]], j + 1, t.scores[ordered[j]],
                                       SourceRanks(sources, ordered[j]))
    {
      assert ordered[i] in ordered;
      fused := fused + [Fused(t.chunks[ordered[i]], i + 1, t.scores[ordered[i]], SourceRanks(sources, ordered[i]))];
    }
  }

  lemma TablesGiveRanking(t: Tables, sources: seq<Source>, ordered: seq<Identity>, rrfK: real)
    requires rrfK > 0.0 && Tabulated(t, sources, rrfK)
    requires SortedBy(ordered, FusionOrder(sources, rrfK)) && multiset(ordered) == multiset(t.keys)
    ensures IsRanking(ordered, sources, rrfK)
    ensures forall id :: id in ordered ==> id in t.scores && id in t.chunks
  {
    hide SortedBy, Score, BestRank, AllAgree, FusionOrder;
    forall id
      ensures id in ordered <==> id in t.keys
    {
      assert id in ordered <==> id in multiset(ordered);
      assert id in t.keys <==> id in multiset(t.keys);
    }
    StillDistinct(t.keys, ordered);
  }

  lemma FusionComplete(fused: seq<Fused>, ordered: seq<Identity>, sources: seq<Source>, t: Tables, topK: int,
                       rrfK: real)
    requires rrfK > 0.0 && Tabulated(t, sources, rrfK) && IsRanking(ordered, sources, rrfK)
    requires forall id :: id in ordered ==> id in t.scores && id in t.chunks
    requires |fused| == Shorter(|ordered|, topK)
    requires forall i :: 0 <= i < |fused| ==>
               ordered[i] in t.scores && ordered[i] in t.chunks
               && fused[i] == Fused(t.chunks[ordered[i]], i + 1, t.scores[ordered[i]], SourceRanks(sources, ordered[i]))
    ensures IsFusion(fused, ordered, sources, t.chunks, topK, rrfK)
  {
    hide Score, BestRank, AllAgree, IsRanking, SourceRanks;
  }
}
