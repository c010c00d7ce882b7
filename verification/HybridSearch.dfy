/** Fusing semantic, lexical and symbol rankings of one corpus. */
module HybridSearch {
  import opened Chunks
  import opened Fusion
  import opened Sorting
  import opened Symbols
  import opened Wrappers

  predicate FromCorpus(results: seq<Ranked>, corpus: set<CodeChunk>) {
    forall r :: r in results ==> r.chunk in corpus
  }

  predicate SymbolsFromCorpus(results: seq<SymbolResult>, corpus: set<CodeChunk>) {
    forall r :: r in results ==> r.chunk in corpus
  }

  predicate OneMatchPerSymbol(results: seq<SymbolResult>) {
    forall i, j :: 0 <= i < j < |results| ==> SymbolOf(results[i].chunk) != SymbolOf(results[j].chunk)
  }

  function AsRanked(results: seq<SymbolResult>): seq<Ranked> {
    seq(|results|, i requires 0 <= i < |results| => Ranked(results[i].chunk, results[i].rank))
  }

  function ChunksOf(fused: seq<Fused>): seq<CodeChunk> {
    seq(|fused|, i requires 0 <= i < |fused| => fused[i].chunk)
  }

  lemma OneCorpusNeverConflicts(sources: seq<Source>, corpus: set<CodeChunk>)
    requires OneCorpus(corpus) && forall i :: 0 <= i < |sources| ==> FromCorpus(sources[i].results, corpus)
    ensures !Conflicting(sources)
  {
    hide IdentityOf;
    forall a, b | IsResult(sources, a) && IsResult(sources, b) && IdOf(a) == IdOf(b)
      ensures a.chunk == b.chunk
    {
      var i :| 0 <= i < |sources| && a in sources[i].results;
      var j :| 0 <= j < |sources| && b in sources[j].results;
      assert a.chunk in corpus && b.chunk in corpus;
    }
  }

  /** What fusion returns are chunks that were given to it. */
  lemma FusedFromCorpus(fused: seq<Fused>, all: seq<Identity>, sources: seq<Source>,
                        chunks: map<Identity, CodeChunk>, topK: int, rrfK: real, corpus: set<CodeChunk>)
    requires rrfK > 0.0 && IsFusion(fused, all, sources, chunks, topK, rrfK)
    requires forall i :: 0 <= i < |sources| ==> FromCorpus(sources[i].results, corpus)
    ensures forall i :: 0 <= i < |fused| ==> fused[i].chunk in corpus
  {
    hide IsRanking, AllAgree, Score, BestRank, SourceRanks, IdentityOf;
    forall i | 0 <= i < |fused|
      ensures fused[i].chunk in corpus
    {
      var id := all[i];
      assert id in all;
      RankedById(all, sources, rrfK, id);
      var r := RankedSomewhere(sources, id);
      AgreedChunk(sources, chunks, r);
      var k :| 0 <= k < |sources| && r in sources[k].results;
    }
  }

  lemma RankedById(all: seq<Identity>, sources: seq<Source>, rrfK: real, id: Identity)
    requires rrfK > 0.0 && IsRanking(all, sources, rrfK) && id in all
    ensures BestRank(sources, id).Some?
  {
  }

  lemma SelectedSymbols(results: seq<SymbolResult>, selected: seq<SymbolResult>, evidence: seq<CodeChunk>,
                        corpus: set<CodeChunk>)
    requires OneCorpus(corpus) && SymbolsFromCorpus(results, corpus) && OneMatchPerSymbol(results)
    requires forall c :: c in evidence ==> c in corpus
    requires |selected| == |results|
    requires forall i :: 0 <= i < |results| ==>
               selected[i] == results[i].(chunk := Projected(results[i].chunk, evidence))
    ensures DistinctIds(AsRanked(selected)) && FromCorpus(AsRanked(selected), corpus)
  {
    hide SymbolOf, Projected, IdentityOf, OneCorpus;
    var before := seq(|results|, i requires 0 <= i < |results| => results[i].chunk);
    assert forall c :: c in before ==> c in corpus;
    forall i, j | 0 <= i < j < |selected|
      ensures IdOf(AsRanked(selected)[i]) != IdOf(AsRanked(selected)[j])
    {
      ProjectionKeepsIdentitiesDistinct(before, evidence, corpus, i, j);
    }
    forall i | 0 <= i < |selected|
      ensures selected[i].chunk in corpus
    {
      ProjectedIsOfSymbol(results[i].chunk, evidence);
      assert results[i] in results;
    }
  }

  lemma UnselectedSymbols(results: seq<SymbolResult>, corpus: set<CodeChunk>)
    requires OneCorpus(corpus) && SymbolsFromCorpus(results, corpus) && OneMatchPerSymbol(results)
    ensures DistinctIds(AsRanked(results)) && FromCorpus(AsRanked(results), corpus)
  {
    SelectedSymbols(results, results, [], corpus);
  }

  /** What hybrid search hands to fusion for the symbols: one vote each with its own rank, for the chunk
      itself when the query is just an identifier, and else for where the evidence found the symbol. */
  ghost predicate AreVotes(votes: seq<Ranked>, symbols: seq<SymbolResult>, exactQuery: bool, evidence: seq<Fused>) {
    && |votes| == |symbols|
    && forall i :: 0 <= i < |symbols| ==>
         && votes[i].rank == symbols[i].rank
         && votes[i].chunk == if exactQuery then symbols[i].chunk else Projected(symbols[i].chunk, ChunksOf(evidence))
  }

  /** All that the sources found, ranked. */
  ghost predicate IsCompleteFusion(fused: seq<Fused>, sources: seq<Source>, rrfK: real)
    requires rrfK > 0.0
  {
    exists all, chunks :: |fused| == |all| && IsFusion(fused, all, sources, chunks, |all|, rrfK)
  }

  /** The symbol part of hybrid search: with rankings of one corpus, fusion never fails, and its answer is
      the fusion of the semantic and lexical rankings with the symbols' votes. Unless the query is just an
      identifier, each symbol votes for where the two rankings, fused in full, find it first. */
  method FuseWithSymbols(semantic: seq<Ranked>, lexical: seq<Ranked>, symbols: seq<SymbolResult>, exactQuery: bool,
                         topK: int, rrfK: real, ghost corpus: set<CodeChunk>)
    returns (r: Result<seq<Fused>, FusionError>, ghost all: seq<Identity>, ghost chunks: map<Identity, CodeChunk>,
             ghost votes: seq<Ranked>, ghost evidence: seq<Fused>)
    requires topK > 0 && rrfK > 0.0 && OneCorpus(corpus)
    requires DistinctIds(semantic) && DistinctIds(lexical) && OneMatchPerSymbol(symbols)
    requires FromCorpus(semantic, corpus) && FromCorpus(lexical, corpus) && SymbolsFromCorpus(symbols, corpus)
    ensures r.Success? && |r.value| <= topK && forall i :: 0 <= i < |r.value| ==> r.value[i].chunk in corpus
    ensures IsFusion(r.value, all,
                     [Source("semantic", semantic), Source("lexical", lexical), Source("symbol", votes)],
                     chunks, topK, rrfK)
    ensures AreVotes(votes, symbols, exactQuery, evidence)
    ensures symbols != [] && !exactQuery ==>
              IsCompleteFusion(evidence, [Source("semantic", semantic), Source("lexical", lexical)], rrfK)
  {
    hide IsFusion, DistinctIds, FromCorpus, SymbolsFromCorpus, OneMatchPerSymbol, OneCorpus, Conflicting, Projected,
      IsCompleteFusion;
    var selected := symbols;
    evidence := [];
    UnselectedSymbols(symbols, corpus);
    if symbols != [] && !exactQuery {
      ghost var found, agreed;
      var fused;
      fused, found, agreed :=
        Fuse([Source("semantic", semantic), Source("lexical", lexical)],
             if |semantic| + |lexical| > 1 then |semantic| + |lexical| else 1, rrfK, corpus);
      EvidenceIsComplete(fused, found, agreed, semantic, lexical, rrfK);
      selected := SelectEvidenceBackedFragments(symbols, ChunksOf(fused));
      SelectedSymbols(symbols, selected, ChunksOf(fused), corpus);
      evidence := fused;
    }
    votes := AsRanked(selected);
    var fused;
    fused, all, chunks :=
      Fuse([Source("semantic", semantic), Source("lexical", lexical), Source("symbol", AsRanked(selected))],
           topK, rrfK, corpus);
    r := Success(fused);
  }

  /** Two rankings hold no more identities than results, so a limit that long cuts nothing. */
  lemma EvidenceIsComplete(fused: seq<Fused>, all: seq<Identity>, chunks: map<Identity, CodeChunk>,
                           semantic: seq<Ranked>, lexical: seq<Ranked>, rrfK: real)
    requires rrfK > 0.0
    requires IsFusion(fused, all, [Source("semantic", semantic), Source("lexical", lexical)], chunks,
                      if |semantic| + |lexical| > 1 then |semantic| + |lexical| else 1, rrfK)
    ensures IsCompleteFusion(fused, [Source("semantic", semantic), Source("lexical", lexical)], rrfK)
  {
    hide IsRanking, AllAgree, Score, SourceRanks, IdOf, BestRank;
    var sources := [Source("semantic", semantic), Source("lexical", lexical)];
    var results := semantic + lexical;
    var ids := seq(|results|, i requires 0 <= i < |results| => IdOf(results[i]));
    forall id | id in all
      ensures id in ids
    {
      RankedById(all, sources, rrfK, id);
      var r := RankedSomewhere(sources, id);
      var k :| 0 <= k < |sources| && r in sources[k].results;
      assert r in results;
      var i :| 0 <= i < |results| && results[i] == r;
      assert ids[i] == id;
    }
    RankedOnce(all, sources, rrfK);
    NoMoreThan(all, ids);
    assert IsFusion(fused, all, sources, chunks, |all|, rrfK);
  }

  lemma RankedOnce(all: seq<Identity>, sources: seq<Source>, rrfK: real)
    requires rrfK > 0.0 && IsRanking(all, sources, rrfK)
    ensures forall i, j :: 0 <= i < j < |all| ==> all[i] != all[j]
  {
  }

  lemma NoMoreThan<T>(some: seq<T>, s: seq<T>)
    requires forall i, j :: 0 <= i < j < |some| ==> some[i] != some[j]
    requires forall x :: x in some ==> x in s
    ensures |some| <= |s|
  {
    forall x | x in multiset(some)
      ensures multiset(some)[x] <= multiset(s)[x]
    {
      AtMostOnce(some, x);
      assert x in some && x in s && x in multiset(s);
    }
    assert multiset(s) == multiset(some) + (multiset(s) - multiset(some));
    assert |multiset(s)| == |s| && |multiset(some)| == |some|;
  }

  /** Fusion of rankings of one corpus without repeats does not fail. */
  method Fuse(sources: seq<Source>, topK: int, rrfK: real, ghost corpus: set<CodeChunk>)
    returns (fused: seq<Fused>, ghost all: seq<Identity>, ghost chunks: map<Identity, CodeChunk>)
    requires topK > 0 && rrfK > 0.0 && sources != [] && OneCorpus(corpus)
    requires forall i :: 0 <= i < |sources| ==>
               DistinctIds(sources[i].results) && FromCorpus(sources[i].results, corpus)
    ensures |fused| <= topK && forall i :: 0 <= i < |fused| ==> fused[i].chunk in corpus
    ensures IsFusion(fused, all, sources, chunks, topK, rrfK)
  {
    hide DistinctIds, FromCorpus, IsFusion, Conflicting, OneCorpus;
    OneCorpusNeverConflicts(sources, corpus);
    var r;
    r, all, chunks := FuseRankedSources(sources, topK, rrfK);
    FailuresAre(r);
    FusedFromCorpus(r.value, all, sources, chunks, topK, rrfK, corpus);
    AtMostTopK(r.value, all, sources, chunks, topK, rrfK);
    fused := r.value;
  }

  lemma FailuresAre(r: Result<seq<Fused>, FusionError>)
    ensures || r.Success? || r == Failure(TopKNotPositive) || r == Failure(RrfKNotPositive)
            || r == Failure(NoSources) || r == Failure(DuplicateIdentity) || r == Failure(ConflictingChunks)
  {
    if r.Failure? {
      match r.error
      case TopKNotPositive =>
      case RrfKNotPositive =>
      case NoSources =>
      case DuplicateIdentity =>
      case ConflictingChunks =>
    }
  }

  lemma AtMostTopK(fused: seq<Fused>, all: seq<Identity>, sources: seq<Source>, chunks: map<Identity, CodeChunk>,
                   topK: int, rrfK: real)
    requires rrfK > 0.0 && topK > 0 && IsFusion(fused, all, sources, chunks, topK, rrfK)
    ensures |fused| <= topK
  {
  }
}
