/** Packing seeds and then their neighbours into a token budget. */
module ContextAssembly {
  import opened Chunks
  import opened ContextBuilder
  import opened ContextText
  import opened NeighborPool
  import opened Sorting
  import opened Wrappers

  // --------------------------------------------------------------------------------- tokens

  function EstimateTokens(chars: nat): (tokens: nat)
    ensures 4 * tokens - 4 < chars <= 4 * tokens || (chars == 0 && tokens == 0)
  {
    (chars + 3) / 4
  }

  function MaxCharsForTokens(tokens: int): nat {
    if tokens < 0 then 0 else tokens * 4
  }

  lemma EstimateFits(chars: nat, tokens: nat)
    ensures chars <= MaxCharsForTokens(tokens) <==> EstimateTokens(chars) <= tokens
  {
  }

  function BlockTokens(source: Source): nat {
    EstimateTokens(|FormatBlock(source)|)
  }

  // ---------------------------------------------------------------------------------- seeds

  function SeedCandidate(seed: Seed): Candidate {
    Candidate(seed.chunk, FromSeed, seed.rank, 0)
  }

  function Ids(candidates: seq<Candidate>): set<Identity> {
    set c | c in candidates :: Id(c)
  }

  /** Each retrieved chunk once, where it first appears. */
  function FirstSeeds(seeds: seq<Seed>): seq<Candidate> {
    if seeds == [] then []
    else
      var before := FirstSeeds(seeds[..|seeds| - 1]);
      var c := SeedCandidate(seeds[|seeds| - 1]);
      if Id(c) in Ids(before) then before else before + [c]
  }

  /** `places` are where the seeds first name each chunk, in order. */
  ghost predicate FirstPlaces(places: seq<nat>, seeds: seq<Seed>) {
    && (forall k :: 0 <= k < |places| ==> places[k] < |seeds|)
    && (forall k, l :: 0 <= k < l < |places| ==> places[k] < places[l])
    && (forall k, i :: 0 <= k < |places| && 0 <= i < places[k] ==>
          IdentityOf(seeds[i].chunk) != IdentityOf(seeds[places[k]].chunk))
    && forall i :: 0 <= i < |seeds| ==> NamedBy(places, seeds, i)
  }

  ghost predicate NamedBy(places: seq<nat>, seeds: seq<Seed>, i: nat)
    requires i < |seeds| && forall k :: 0 <= k < |places| ==> places[k] < |seeds|
  {
    exists k :: 0 <= k < |places| && places[k] <= i && IdentityOf(seeds[places[k]].chunk) == IdentityOf(seeds[i].chunk)
  }

  method UniqueSeeds(seeds: seq<Seed>)
    returns (candidates: seq<Candidate>, included: set<Identity>, ghost places: seq<nat>)
    ensures candidates == FirstSeeds(seeds) && included == Ids(candidates)
    ensures FirstPlaces(places, seeds) && |candidates| == |places|
    ensures forall k :: 0 <= k < |places| ==>
              var seed := seeds[places[k]];
              candidates[k] == Candidate(seed.chunk, FromSeed, seed.rank, 0)
  {
    hide FirstPlaces, IdentityOf, Ids;
    candidates, included, places := [], {}, [];
    NothingNamed(seeds[..0]);
    assert seeds[..0] == [] && seeds[..|seeds|] == seeds;
    for i := 0 to |seeds|
      invariant candidates == FirstSeeds(seeds[..i]) && included == Ids(candidates)
      invariant FirstPlaces(places, seeds[..i]) && |candidates| == |places|
      invariant forall k :: 0 <= k < |places| ==> places[k] < i
      invariant forall k :: 0 <= k < |places| ==> candidates[k] == SeedCandidate(seeds[places[k]])
    {
      assert seeds[..i + 1][..i] == seeds[..i] && seeds[..i + 1] == seeds[..i] + [seeds[i]];
      var c := SeedCandidate(seeds[i]);
      PlacesNext(places, seeds[..i], seeds[i], candidates);
      if Id(c) !in included {
        IdsSnoc(candidates, c);
        candidates, included, places := candidates + [c], included + {Id(c)}, places + [i];
      }
    }
  }

  lemma NothingNamed(seeds: seq<Seed>)
    requires seeds == []
    ensures FirstPlaces([], seeds) && Ids([]) == {}
  {
  }

  lemma PlacesNext(places: seq<nat>, seeds: seq<Seed>, seed: Seed, candidates: seq<Candidate>)
    requires FirstPlaces(places, seeds) && |candidates| == |places|
    requires forall k :: 0 <= k < |places| ==> candidates[k] == SeedCandidate(seeds[places[k]])
    ensures FirstPlaces(if IdentityOf(seed.chunk) in Ids(candidates) then places else places + [|seeds|],
                        seeds + [seed])
  {
    hide IdentityOf;
    var all := seeds + [seed];
    var next := if IdentityOf(seed.chunk) in Ids(candidates) then places else places + [|seeds|];
    forall i | 0 <= i < |all|
      ensures NamedBy(next, all, i)
    {
      if i < |seeds| {
        assert NamedBy(places, seeds, i);
        var k :| 0 <= k < |places| && places[k] <= i
                 && IdentityOf(seeds[places[k]].chunk) == IdentityOf(seeds[i].chunk);
        assert next[k] == places[k] && all[next[k]] == seeds[places[k]];
      } else if IdentityOf(seed.chunk) in Ids(candidates) {
        var c :| c in candidates && Id(c) == IdentityOf(seed.chunk);
        var k :| 0 <= k < |candidates| && candidates[k] == c;
        assert next[k] == places[k] && all[next[k]] == seeds[places[k]];
      } else {
        assert next[|places|] == |seeds|;
      }
    }
    if IdentityOf(seed.chunk) !in Ids(candidates) {
      forall i | 0 <= i < |seeds|
        ensures IdentityOf(seeds[i].chunk) != IdentityOf(seed.chunk)
      {
        assert NamedBy(places, seeds, i);
        var k :| 0 <= k < |places| && places[k] <= i
                 && IdentityOf(seeds[places[k]].chunk) == IdentityOf(seeds[i].chunk);
        assert candidates[k] in candidates;
      }
    }
  }

  lemma IdsSnoc(candidates: seq<Candidate>, c: Candidate)
    ensures Ids(candidates + [c]) == Ids(candidates) + {Id(c)}
  {
    hide Id;
    assert forall d :: d in candidates + [c] <==> d in candidates || d == c;
  }

  predicate Distinct(candidates: seq<Candidate>) {
    forall k, l :: 0 <= k < l < |candidates| ==> Id(candidates[k]) != Id(candidates[l])
  }

  lemma {:induction false} FirstSeedsAreDistinct(seeds: seq<Seed>)
    ensures Distinct(FirstSeeds(seeds)) && |FirstSeeds(seeds)| <= |seeds|
    ensures forall c :: c in FirstSeeds(seeds) ==> c.origin == FromSeed
    ensures forall s :: s in seeds ==> IdentityOf(s.chunk) in Ids(FirstSeeds(seeds))
    ensures seeds != [] ==> FirstSeeds(seeds) != [] && FirstSeeds(seeds)[0] == SeedCandidate(seeds[0])
  {
    if seeds != [] {
      var front, c := seeds[..|seeds| - 1], SeedCandidate(seeds[|seeds| - 1]);
      FirstSeedsAreDistinct(front);
      var before := FirstSeeds(front);
      assert seeds == front + [seeds[|seeds| - 1]];
      if Id(c) !in Ids(before) {
        IdsSnoc(before, c);
        assert forall k :: 0 <= k < |before| ==> before[k] in before && Id(before[k]) in Ids(before);
      }
    }
  }

  // ---------------------------------------------------------------------------------- order

  predicate CandidateLe(a: Candidate, b: Candidate) {
    PriorityLe(a, b) && (PriorityLe(b, a) ==> IdentityLe(Id(a), Id(b)))
  }

  const CANDIDATE_ORDER: (Candidate, Candidate) -> bool := (a, b) => CandidateLe(a, b)

  lemma CandidateOrderIsTotal()
    ensures TotalPreorder(CANDIDATE_ORDER)
  {
    hide IdentityLe;
    forall a, b
      ensures CANDIDATE_ORDER(a, b) || CANDIDATE_ORDER(b, a)
    {
      IdentityLeTotal(Id(a), Id(b));
    }
    forall a, b, c | CANDIDATE_ORDER(a, b) && CANDIDATE_ORDER(b, c)
      ensures CANDIDATE_ORDER(a, c)
    {
      PriorityTransitive(a, b, c);
      if PriorityLe(c, a) {
        PriorityTransitive(b, c, a);
        PriorityTransitive(c, a, b);
        IdentityLeTransitive(Id(a), Id(b), Id(c));
      }
    }
  }

  // -------------------------------------------------------------------------------- packing

  datatype Packed = Packed(chunk: CodeChunk, origin: Origin, seedRank: Option<nat>, tokens: nat, truncated: bool)

  datatype Packing = Packing(packed: seq<Packed>, used: nat, dropped: nat, contained: nat)

  predicate Contained(inner: CodeChunk, outer: CodeChunk) {
    inner.path == outer.path && outer.startLine <= inner.startLine && inner.endLine <= outer.endLine
  }

  /** A neighbour whose lines some packed chunk of its file already shows. */
  predicate AlreadyShown(c: Candidate, packed: seq<Packed>) {
    && c.origin != FromSeed
    && exists i :: 0 <= i < |packed| && packed[i].chunk.path == c.chunk.path
                   && packed[i].chunk.startLine <= c.chunk.startLine && c.chunk.endLine <= packed[i].chunk.endLine
  }

  /** The source stands last, with the candidate's origin and the estimate of its block, and only a seed
      keeps its rank. */
  predicate Appended(before: Packing, c: Candidate, source: Source, after: Packing) {
    var tokens := EstimateTokens(|FormatBlock(source)|);
    && after.packed == before.packed
                       + [Packed(source.chunk, c.origin, if c.origin == FromSeed then Some(c.rank) else None, tokens,
                                 source.truncated)]
    && after.used == before.used + tokens
    && after.dropped == before.dropped && after.contained == before.contained
  }

  /** What happens to one candidate: shown already, packed whole, packed cut if it is the very first,
      or dropped. */
  ghost predicate PackStep(before: Packing, c: Candidate, after: Packing, budget: nat) {
    var source := Source(|before.packed| + 1, c.chunk, false);
    if AlreadyShown(c, before.packed) then after == before.(contained := before.contained + 1)
    else if before.used + EstimateTokens(|FormatBlock(source)|) <= budget then Appended(before, c, source, after)
    else if before.packed != [] then after == before.(dropped := before.dropped + 1)
    else PackedCut(before, c, after, budget)
  }

  ghost predicate PackedCut(before: Packing, c: Candidate, after: Packing, budget: nat) {
    exists cut ::
      && IsCut(Source(|before.packed| + 1, c.chunk, false), MaxCharsForTokens(budget), cut)
      && Appended(before, c, cut, after)
  }

  const NOTHING_PACKED := Packing([], 0, 0, 0)

  /** Every candidate considered in turn, one step each. */
  ghost predicate PackedRun(candidates: seq<Candidate>, states: seq<Packing>, budget: nat) {
    && |states| == |candidates| + 1 && states[0] == NOTHING_PACKED
    && forall i :: 0 <= i < |candidates| ==> PackStep(states[i], candidates[i], states[i + 1], budget)
  }

  method PackOne(p: Packing, c: Candidate, budget: nat) returns (next: Packing)
    requires c.chunk.Valid()
    ensures PackStep(p, c, next, budget)
  {
    hide FormatBlock, IsCut;
    assert AlreadyShown(c, p.packed) <==>
             c.origin != FromSeed && exists i :: 0 <= i < |p.packed| && Contained(c.chunk, p.packed[i].chunk);
    if c.origin != FromSeed && exists i :: 0 <= i < |p.packed| && Contained(c.chunk, p.packed[i].chunk) {
      return p.(contained := p.contained + 1);
    }
    var source := Source(|p.packed| + 1, c.chunk, false);
    var tokens := BlockTokens(source);
    if p.used + tokens > budget {
      if p.packed != [] {
        return p.(dropped := p.dropped + 1);
      }
      source := TruncateSourceToFit(source, MaxCharsForTokens(budget));
    }
    tokens := BlockTokens(source);
    var item := Packed(source.chunk, c.origin, if c.origin == FromSeed then Some(c.rank) else None, tokens,
                       source.truncated);
    next := p.(packed := p.packed + [item], used := p.used + tokens);
    assert Appended(p, c, source, next);
  }

  method Pack(candidates: seq<Candidate>, budget: nat) returns (p: Packing, states: seq<Packing>)
    requires forall c :: c in candidates ==> c.chunk.Valid()
    ensures PackedRun(candidates, states, budget) && p == states[|candidates|]
  {
    hide PackStep;
    p := NOTHING_PACKED;
    states := [p];
    for i := 0 to |candidates|
      invariant |states| == i + 1 && states[0] == NOTHING_PACKED && states[i] == p
      invariant forall j :: 0 <= j < i ==> PackStep(states[j], candidates[j], states[j + 1], budget)
    {
      p := PackOne(p, candidates[i], budget);
      states := states + [p];
    }
  }

  // --------------------------------------------------------------------------- whole assembly

  datatype Strategy = SeedsOnly | ExpandedSeeds

  datatype Config = Config(strategy: Strategy, budgetTokens: nat, neighborRadius: nat)

  datatype Assembly = Assembly(packed: seq<Packed>, usedTokens: nat, seedCount: nat, expandedCount: nat,
                               deduplicatedCount: nat, droppedCount: nat)

  datatype AssemblyError = NeighborLoaderRequired

  predicate Expands(seeds: seq<Seed>, config: Config) {
    config.strategy == ExpandedSeeds && config.neighborRadius > 0 && seeds != []
  }

  /** The routes that the configuration allows. */
  function RoutesTaken(seeds: seq<Seed>, config: Config, corpus: map<Key, CodeChunk>): seq<Candidate> {
    if Expands(seeds, config) then Routes(seeds, Offsets(config.neighborRadius), corpus) else []
  }

  /** Seeds in order, then the pool in priority order. */
  ghost predicate CandidateList(candidates: seq<Candidate>, pool: seq<Candidate>, seeds: seq<Seed>, config: Config,
                                corpus: map<Key, CodeChunk>) {
    && PoolOf(pool, RoutesTaken(seeds, config, corpus), Ids(FirstSeeds(seeds)))
    && SortedBy(pool, CANDIDATE_ORDER) && candidates == FirstSeeds(seeds) + pool
  }

  predicate AllValid(seeds: seq<Seed>, corpus: map<Key, CodeChunk>) {
    (forall s :: s in seeds ==> s.chunk.Valid()) && forall k :: k in corpus ==> corpus[k].Valid()
  }

  lemma SortedPool(items: seq<Candidate>, sorted: seq<Candidate>, routes: seq<Candidate>, seedIds: set<Identity>)
    requires PoolOf(items, routes, seedIds) && multiset(sorted) == multiset(items)
    ensures PoolOf(sorted, routes, seedIds) && |sorted| == |items|
  {
    hide PriorityLe, Id;
    assert |multiset(sorted)| == |sorted| && |multiset(items)| == |items|;
    forall k | 0 <= k < |sorted|
      ensures sorted[k] in items && sorted[k] in routes && Id(sorted[k]) !in seedIds
    {
      assert sorted[k] in multiset(items);
    }
    forall k, l | 0 <= k < l < |sorted|
      ensures Id(sorted[k]) != Id(sorted[l])
    {
      SortedApart(items, sorted, k, l);
    }
    forall r | r in routes && Id(r) !in seedIds
      ensures Improved(sorted, r)
    {
      var k :| 0 <= k < |items| && Id(items[k]) == Id(r) && PriorityLe(items[k], r);
      assert items[k] in multiset(sorted);
      var l :| 0 <= l < |sorted| && sorted[l] == items[k];
    }
  }

  lemma SortedApart(items: seq<Candidate>, sorted: seq<Candidate>, k: nat, l: nat)
    requires multiset(sorted) == multiset(items) && Distinct(items)
    requires k < l < |sorted|
    ensures Id(sorted[k]) != Id(sorted[l])
  {
    hide Id;
    assert sorted[k] in multiset(items) && sorted[l] in multiset(items);
    var i :| 0 <= i < |items| && items[i] == sorted[k];
    var j :| 0 <= j < |items| && items[j] == sorted[l];
    OnceEach(items, sorted[k], i);
    if i == j {
      TwiceCounted(sorted, k, l);
    }
  }

  lemma OnceEach(items: seq<Candidate>, x: Candidate, i: nat)
    requires Distinct(items) && i < |items| && items[i] == x
    ensures multiset(items)[x] == 1
  {
    assert items == items[..i] + [x] + items[i + 1..];
    assert x !in items[..i] && x !in items[i + 1..];
  }

  /** Assemble a context: expansion, priorities, packing, and the counts that account for it all. */
  method AssembleContext(seeds: seq<Seed>, loader: Option<map<Key, CodeChunk>>, config: Config)
    returns (r: Result<Assembly, AssemblyError>, candidates: seq<Candidate>, pool: seq<Candidate>,
             states: seq<Packing>)
    requires loader.Some? ==> Keyed(loader.value)
    requires AllValid(seeds, if loader.Some? then loader.value else map[])
    ensures r.Failure? <==>
              config.strategy == ExpandedSeeds && config.neighborRadius > 0 && seeds != [] && loader.None?
    ensures r.Success? ==>
              var corpus := if loader.Some? then loader.value else map[];
              && CandidateList(candidates, pool, seeds, config, corpus)
              && PackedRun(candidates, states, config.budgetTokens)
              && var p := states[|candidates|];
                 && r.value.packed == p.packed && r.value.usedTokens == p.used && r.value.droppedCount == p.dropped
                 && r.value.seedCount == |FirstSeeds(seeds)|
                 && r.value.expandedCount == |RoutesTaken(seeds, config, corpus)|
                 && r.value.deduplicatedCount == r.value.expandedCount - |pool| + p.contained
    ensures r.Success? ==>
              if config.strategy == ExpandedSeeds && config.neighborRadius > 0 && seeds != []
              then IsNeighborhood(pool, seeds, config.neighborRadius, loader.value)
              else pool == []
    ensures r.Success? ==>
              r.value.seedCount + r.value.expandedCount
              == |r.value.packed| + r.value.deduplicatedCount + r.value.droppedCount
    ensures r.Success? ==>
              (r.value.usedTokens <= config.budgetTokens
               <==> seeds == [] || CanFit(Source(1, seeds[0].chunk, false), MaxCharsForTokens(config.budgetTokens)))
  {
    hide CanFit, PackedRun, PoolOf, SortedBy, Routes, FirstSeeds, Ids, IsNeighborhood;
    var seedCandidates, included, _ := UniqueSeeds(seeds);
    var e := Expansion([], map[], 0, 0);
    NothingExpanded(e, included);
    ghost var corpus := if loader.Some? then loader.value else map[];
    candidates, pool, states := [], [], [];
    if Expands(seeds, config) {
      if loader.None? {
        r := Failure(NeighborLoaderRequired);
        return;
      }
      e := ExpandSeeds(seeds, config.neighborRadius, loader.value, included);
    }
    CandidateOrderIsTotal();
    var sorted := SortBy(e.items, CANDIDATE_ORDER);
    SortedPool(e.items, sorted, RoutesTaken(seeds, config, corpus), included);
    CandidatesAreValid(seeds, config, corpus, sorted, included);
    var p;
    p, states := Pack(seedCandidates + sorted, config.budgetTokens);
    pool, candidates := sorted, seedCandidates + sorted;
    r := Success(Assembly(p.packed, p.used, |seedCandidates|, e.expanded, e.deduplicated + p.contained, p.dropped));
    PoolIsNeighborhood(candidates, pool, seeds, config, corpus);
    Conservation(candidates, pool, states, seeds, config, corpus, r.value);
    AssemblyWithinBudget(candidates, pool, states, seeds, config, corpus);
  }

  lemma {:induction false} FirstSeedIsSeed(seeds: seq<Seed>, c: Candidate) returns (s: Seed)
    requires c in FirstSeeds(seeds)
    ensures s in seeds && SeedCandidate(s) == c
  {
    var front, last := seeds[..|seeds| - 1], seeds[|seeds| - 1];
    assert seeds == front + [last];
    if c in FirstSeeds(front) {
      s := FirstSeedIsSeed(front, c);
    } else {
      s := last;
    }
  }

  /** A chunk is a seed's exactly when the first seeds have its identity. */
  lemma SeedIdsAre(seeds: seq<Seed>, chunk: CodeChunk)
    ensures IdentityOf(chunk) in Ids(FirstSeeds(seeds)) <==> IsSeedChunk(chunk, seeds)
  {
    hide FirstSeeds, IdentityOf;
    FirstSeedsAreDistinct(seeds);
    if IdentityOf(chunk) in Ids(FirstSeeds(seeds)) {
      var c :| c in FirstSeeds(seeds) && Id(c) == IdentityOf(chunk);
      var s := FirstSeedIsSeed(seeds, c);
    }
  }

  lemma PoolHoldsNeighbors(pool: seq<Candidate>, seeds: seq<Seed>, radius: nat, corpus: map<Key, CodeChunk>)
    requires PoolOf(pool, Routes(seeds, Offsets(radius), corpus), Ids(FirstSeeds(seeds))) && Keyed(corpus)
    ensures OnlyNeighbors(pool, seeds, radius, corpus)
  {
    hide FirstSeeds, Ids, Routes, Offsets, Reaches, InCorpus, IsSeedChunk, IdentityOf, Improved;
    forall k | 0 <= k < |pool|
      ensures InCorpus(pool[k].chunk, corpus) && !IsSeedChunk(pool[k].chunk, seeds)
      ensures exists s :: s in seeds && Reaches(s, pool[k], radius)
    {
      RoutesReach(seeds, corpus, pool[k], radius);
      SeedIdsAre(seeds, pool[k].chunk);
    }
  }

  lemma PoolMissesNothing(pool: seq<Candidate>, seeds: seq<Seed>, radius: nat, corpus: map<Key, CodeChunk>)
    requires PoolOf(pool, Routes(seeds, Offsets(radius), corpus), Ids(FirstSeeds(seeds))) && Keyed(corpus)
    ensures NoBetterNeighbor(pool, seeds, radius, corpus)
  {
    hide FirstSeeds, Ids, Routes, Offsets, Reaches, InPoolOrder, PriorityLe, InCorpus, IsSeedChunk, IdentityOf;
    forall s, c | s in seeds && Reaches(s, c, radius) && InCorpus(c.chunk, corpus) && !IsSeedChunk(c.chunk, seeds)
      ensures exists k :: 0 <= k < |pool| && Id(pool[k]) == Id(c) && InPoolOrder(pool[k], c)
    {
      RoutesReach(seeds, corpus, c, radius);
      SeedIdsAre(seeds, c.chunk);
      assert Improved(pool, c);
      var k :| 0 <= k < |pool| && Id(pool[k]) == Id(c) && PriorityLe(pool[k], c);
      PriorityIs(pool[k], c);
    }
  }

  lemma PoolIsInOrder(pool: seq<Candidate>)
    requires Distinct(pool) && SortedBy(pool, CANDIDATE_ORDER)
    ensures InTotalOrder(pool)
  {
    hide InPoolOrder, PriorityLe, IdentityLe, Id;
    forall k, l | 0 <= k < l < |pool|
      ensures InPoolOrder(pool[k], pool[l])
      ensures InPoolOrder(pool[l], pool[k]) ==> IdentityLe(Id(pool[k]), Id(pool[l]))
    {
      assert CANDIDATE_ORDER(pool[k], pool[l]);
      PriorityIs(pool[k], pool[l]);
      PriorityIs(pool[l], pool[k]);
    }
  }

  lemma PoolIsNeighborhood(candidates: seq<Candidate>, pool: seq<Candidate>, seeds: seq<Seed>, config: Config,
                           corpus: map<Key, CodeChunk>)
    requires CandidateList(candidates, pool, seeds, config, corpus) && Keyed(corpus)
    ensures if Expands(seeds, config) then IsNeighborhood(pool, seeds, config.neighborRadius, corpus) else pool == []
  {
    hide FirstSeeds, Ids, Routes, OnlyNeighbors, InTotalOrder, NoBetterNeighbor, SortedBy, Id, Improved;
    if Expands(seeds, config) {
      PoolHoldsNeighbors(pool, seeds, config.neighborRadius, corpus);
      PoolMissesNothing(pool, seeds, config.neighborRadius, corpus);
      PoolIsInOrder(pool);
    } else if pool != [] {
      PooledIsRoute(pool, RoutesTaken(seeds, config, corpus), Ids(FirstSeeds(seeds)));
      assert false;
    }
  }

  lemma {:induction false} SeedsAreValid(seeds: seq<Seed>, c: Candidate)
    requires (forall s :: s in seeds ==> s.chunk.Valid()) && c in FirstSeeds(seeds)
    ensures c.chunk.Valid()
  {
    var front := seeds[..|seeds| - 1];
    assert seeds == front + [seeds[|seeds| - 1]];
    if c in FirstSeeds(front) {
      SeedsAreValid(front, c);
    } else {
      assert seeds[|seeds| - 1] in seeds;
    }
  }

  lemma CandidatesAreValid(seeds: seq<Seed>, config: Config, corpus: map<Key, CodeChunk>, pool: seq<Candidate>,
                           seedIds: set<Identity>)
    requires AllValid(seeds, corpus) && PoolOf(pool, RoutesTaken(seeds, config, corpus), seedIds)
    ensures forall c :: c in FirstSeeds(seeds) + pool ==> c.chunk.Valid()
  {
    hide FirstSeeds, Routes, Improved;
    forall c | c in FirstSeeds(seeds) + pool
      ensures c.chunk.Valid()
    {
      if c in FirstSeeds(seeds) {
        SeedsAreValid(seeds, c);
      } else {
        assert c in RoutesTaken(seeds, config, corpus);
        RoutesAre(seeds, Offsets(config.neighborRadius), corpus, c);
      }
    }
  }

  // ------------------------------------------------------------------------- what is accounted for

  /** Each candidate is packed, dropped for the budget, or already shown. */
  lemma {:induction false} EveryCandidateIsCounted(candidates: seq<Candidate>, states: seq<Packing>, budget: nat,
                                                   n: nat)
    requires PackedRun(candidates, states, budget) && n <= |candidates|
    ensures |states[n].packed| + states[n].dropped + states[n].contained == n
  {
    hide PackStep;
    if n > 0 {
      EveryCandidateIsCounted(candidates, states, budget, n - 1);
      StepCounts(states[n - 1], candidates[n - 1], states[n], budget);
    }
  }

  lemma StepCounts(before: Packing, c: Candidate, after: Packing, budget: nat)
    requires PackStep(before, c, after, budget)
    ensures |after.packed| + after.dropped + after.contained == |before.packed| + before.dropped + before.contained + 1
    ensures before.packed <= after.packed && |after.packed| <= |before.packed| + 1
    ensures before.packed == [] ==> |after.packed| == 1
  {
    hide IsCut, FormatBlock, BlockTokens;
  }

  /** Conservation: seeds and routes taken are exactly what was packed, deduplicated and dropped. */
  lemma Conservation(candidates: seq<Candidate>, pool: seq<Candidate>, states: seq<Packing>, seeds: seq<Seed>,
                     config: Config, corpus: map<Key, CodeChunk>, r: Assembly)
    requires CandidateList(candidates, pool, seeds, config, corpus)
    requires PackedRun(candidates, states, config.budgetTokens)
    requires r.packed == states[|candidates|].packed && r.droppedCount == states[|candidates|].dropped
    requires r.seedCount == |FirstSeeds(seeds)| && r.expandedCount == |RoutesTaken(seeds, config, corpus)|
    requires r.deduplicatedCount == r.expandedCount - |pool| + states[|candidates|].contained
    ensures r.seedCount + r.expandedCount == |r.packed| + r.deduplicatedCount + r.droppedCount
  {
    hide PackStep, PoolOf, FirstSeeds, RoutesTaken, SortedBy;
    EveryCandidateIsCounted(candidates, states, config.budgetTokens, |candidates|);
  }

  function TotalTokens(packed: seq<Packed>): nat {
    if packed == [] then 0 else TotalTokens(packed[..|packed| - 1]) + packed[|packed| - 1].tokens
  }

  /** The estimate is the sum of what is packed, and over the budget only because of the first block. */
  lemma {:induction false} TokensWithinBudget(candidates: seq<Candidate>, states: seq<Packing>, budget: nat, n: nat)
    requires PackedRun(candidates, states, budget) && n <= |candidates|
    ensures states[n].used == TotalTokens(states[n].packed)
    ensures states[n].used <= budget || |states[n].packed| == 1
  {
    if n > 0 {
      TokensWithinBudget(candidates, states, budget, n - 1);
      StepTokens(states[n - 1], candidates[n - 1], states[n], budget);
    }
  }

  lemma StepTokens(before: Packing, c: Candidate, after: Packing, budget: nat)
    requires PackStep(before, c, after, budget)
    requires before.used == TotalTokens(before.packed) && (before.used <= budget || |before.packed| == 1)
    ensures after.used == TotalTokens(after.packed) && (after.used <= budget || |after.packed| == 1)
  {
    hide IsCut, FormatBlock, BlockTokens, AlreadyShown;
    assert forall item :: (before.packed + [item])[..|before.packed|] == before.packed;
  }

  /** Some block of the first candidate is within the budget. */
  predicate FirstCanFit(candidates: seq<Candidate>, budget: nat) {
    candidates == [] || CanFit(Source(1, candidates[0].chunk, false), MaxCharsForTokens(budget))
  }

  /** The budget holds exactly when some block of the first candidate can keep it. */
  lemma {:induction false} BudgetHolds(candidates: seq<Candidate>, states: seq<Packing>, budget: nat, n: nat)
    requires PackedRun(candidates, states, budget) && 0 < n <= |candidates| && candidates[0].chunk.Valid()
    ensures states[n].packed != [] && (states[n].used <= budget <==> FirstCanFit(candidates, budget))
  {
    hide PackStep, CanFit;
    assert PackStep(states[n - 1], candidates[n - 1], states[n], budget);
    if n == 1 {
      FirstWithinBudget(candidates[0], states[1], budget);
    } else {
      BudgetHolds(candidates, states, budget, n - 1);
      LaterKeepsBudget(states[n - 1], candidates[n - 1], states[n], budget);
    }
  }

  lemma FirstWithinBudget(c: Candidate, after: Packing, budget: nat)
    requires PackStep(NOTHING_PACKED, c, after, budget) && c.chunk.Valid()
    ensures after.packed != []
    ensures after.used <= budget <==> CanFit(Source(1, c.chunk, false), MaxCharsForTokens(budget))
  {
    hide IsCut, FormatBlock, Smallest;
    var source := Source(1, c.chunk, false);
    EstimateFits(|FormatBlock(source)|, budget);
    if BlockTokens(source) > budget {
      var cut :| IsCut(source, MaxCharsForTokens(budget), cut) && Appended(NOTHING_PACKED, c, cut, after);
      CutFits(source, MaxCharsForTokens(budget), cut);
      EstimateFits(|FormatBlock(cut)|, budget);
    }
  }

  lemma LaterKeepsBudget(before: Packing, c: Candidate, after: Packing, budget: nat)
    requires PackStep(before, c, after, budget) && before.packed != []
    ensures after.packed != [] && (after.used <= budget <==> before.used <= budget)
  {
    hide IsCut, FormatBlock, BlockTokens, AlreadyShown;
  }

  /** Whole assemblies: within the budget exactly when there is nothing to pack or some block of the
      best seed can keep it. */
  lemma AssemblyWithinBudget(candidates: seq<Candidate>, pool: seq<Candidate>, states: seq<Packing>,
                             seeds: seq<Seed>, config: Config, corpus: map<Key, CodeChunk>)
    requires CandidateList(candidates, pool, seeds, config, corpus) && AllValid(seeds, corpus)
    requires PackedRun(candidates, states, config.budgetTokens)
    ensures states[|candidates|].used <= config.budgetTokens
       <==> seeds == [] || CanFit(Source(1, seeds[0].chunk, false), MaxCharsForTokens(config.budgetTokens))
  {
    hide PackStep, CanFit, SortedBy, Routes, Improved;
    FirstSeedsAreDistinct(seeds);
    if seeds == [] {
      if pool != [] {
        PooledIsRoute(pool, RoutesTaken(seeds, config, corpus), Ids(FirstSeeds(seeds)));
        assert false;
      }
    } else {
      assert candidates[0] == SeedCandidate(seeds[0]);
      BudgetHolds(candidates, states, config.budgetTokens, |candidates|);
    }
  }

  lemma PooledIsRoute(pool: seq<Candidate>, routes: seq<Candidate>, seedIds: set<Identity>)
    requires PoolOf(pool, routes, seedIds) && pool != []
    ensures routes != []
  {
    assert pool[0] in routes;
  }

  /** A token budget that one character of source exceeds. */
  lemma OverBudgetPackingExample(c: Candidate, after: Packing)
    requires c.chunk == ONE_CHARACTER.chunk && PackStep(NOTHING_PACKED, c, after, 25)
    ensures after.used > 25
  {
    var source := Source(1, c.chunk, false);
    hide FormatBlock, PackStep;
    BlockIsLong(source);
    BlockIsLong(Smallest(source));
    FirstWithinBudget(c, after, 25);
  }

  /** No two candidates are the same chunk, so no chunk is packed twice. */
  lemma CandidatesAreDistinct(candidates: seq<Candidate>, pool: seq<Candidate>, seeds: seq<Seed>, config: Config,
                              corpus: map<Key, CodeChunk>)
    requires CandidateList(candidates, pool, seeds, config, corpus)
    ensures Distinct(candidates)
  {
    hide FirstSeeds, RoutesTaken, SortedBy, Id, Improved;
    FirstSeedsAreDistinct(seeds);
    var first := FirstSeeds(seeds);
    forall k, l | 0 <= k < |first| && 0 <= l < |pool|
      ensures Id(first[k]) != Id(pool[l])
    {
      assert first[k] in first && Id(first[k]) in Ids(first);
    }
  }

  /** A packed neighbour shows something that what was packed before it does not. */
  lemma PackedNeighborIsNew(before: Packing, c: Candidate, after: Packing, budget: nat)
    requires PackStep(before, c, after, budget) && |after.packed| > |before.packed| && c.origin != FromSeed
    ensures forall i :: 0 <= i < |before.packed| && before.packed[i].chunk.path == c.chunk.path ==>
              c.chunk.startLine < before.packed[i].chunk.startLine || before.packed[i].chunk.endLine < c.chunk.endLine
  {
    hide IsCut, FormatBlock, BlockTokens;
  }
}
