/** Neighbours of retrieved chunks, each once, with the best priority that any route gives it. */
module NeighborPool {
  import opened Chunks
  import opened Wrappers

  datatype Seed = Seed(chunk: CodeChunk, rank: nat)

  datatype Origin = FromSeed | SameSymbolFragment | Neighbor

  datatype Candidate = Candidate(chunk: CodeChunk, origin: Origin, rank: nat, distance: nat)

  function Id(c: Candidate): Identity {
    IdentityOf(c.chunk)
  }

  datatype Key = Key(path: string, index: nat)

  /** Chunks under the file and position they say themselves. */
  predicate Keyed(corpus: map<Key, CodeChunk>) {
    forall k :: k in corpus ==> corpus[k].path == k.path && corpus[k].index == k.index
  }

  // --------------------------------------------------------------------------------- offsets

  /** Nearest first, and before after. */
  function Offsets(radius: nat): seq<int> {
    if radius == 0 then [] else Offsets(radius - 1) + [0 - radius, radius]
  }

  lemma {:induction false} OffsetsAreAll(radius: nat)
    ensures forall o :: o in Offsets(radius) <==> o != 0 && 0 - radius <= o <= radius
    ensures |Offsets(radius)| == 2 * radius
  {
    if radius > 0 {
      OffsetsAreAll(radius - 1);
    }
  }

  // ---------------------------------------------------------------------------------- routes

  function ClassifyOrigin(seed: CodeChunk, neighbor: CodeChunk): Origin {
    if seed.kind.StructuralFragment? && neighbor.kind.StructuralFragment? && seed.qualified.Some?
       && seed.qualified == neighbor.qualified
    then SameSymbolFragment else Neighbor
  }

  function Distance(offset: int): nat {
    if offset < 0 then -offset else offset
  }

  /** The chunk at an offset from a seed, if there is one of the seed's own index. */
  function Route(seed: Seed, offset: int, corpus: map<Key, CodeChunk>): Option<Candidate> {
    var position := seed.chunk.index + offset;
    if position < 0 || Key(seed.chunk.path, position) !in corpus then None
    else
      var neighbor := corpus[Key(seed.chunk.path, position)];
      if neighbor.strategy != seed.chunk.strategy then None
      else Some(Candidate(neighbor, ClassifyOrigin(seed.chunk, neighbor), seed.rank, Distance(offset)))
  }

  function RoutesFrom(seed: Seed, offsets: seq<int>, corpus: map<Key, CodeChunk>): seq<Candidate> {
    if offsets == [] then []
    else
      var last := |offsets| - 1;
      RoutesFrom(seed, offsets[..last], corpus)
      + match Route(seed, offsets[last], corpus)
        case None => []
        case Some(c) => [c]
  }

  /** Every route from a seed to a neighbour, in the order they are tried. */
  function Routes(seeds: seq<Seed>, offsets: seq<int>, corpus: map<Key, CodeChunk>): seq<Candidate> {
    if seeds == [] then []
    else
      var last := |seeds| - 1;
      Routes(seeds[..last], offsets, corpus) + RoutesFrom(seeds[last], offsets, corpus)
  }

  lemma {:induction false} RoutesFromAre(seed: Seed, offsets: seq<int>, corpus: map<Key, CodeChunk>, c: Candidate)
    ensures c in RoutesFrom(seed, offsets, corpus) <==> exists o :: o in offsets && Route(seed, o, corpus) == Some(c)
  {
    hide Route;
    if offsets != [] {
      var last := |offsets| - 1;
      RoutesFromAre(seed, offsets[..last], corpus, c);
      assert offsets == offsets[..last] + [offsets[last]];
      if Route(seed, offsets[last], corpus) == Some(c) {
        assert offsets[last] in offsets;
      }
    }
  }

  /** A route is any seed with any offset that leads somewhere. */
  lemma {:induction false} RoutesAre(seeds: seq<Seed>, offsets: seq<int>, corpus: map<Key, CodeChunk>, c: Candidate)
    ensures c in Routes(seeds, offsets, corpus)
            <==> exists s, o :: s in seeds && o in offsets && Route(s, o, corpus) == Some(c)
  {
    hide Route, RoutesFrom;
    if seeds != [] {
      var last := |seeds| - 1;
      RoutesAre(seeds[..last], offsets, corpus, c);
      RoutesFromAre(seeds[last], offsets, corpus, c);
      assert seeds == seeds[..last] + [seeds[last]];
      assert seeds[last] in seeds;
    }
  }

  // -------------------------------------------------------------------------------- priority

  function OriginPriority(o: Origin): nat {
    if o == SameSymbolFragment then 0 else 1
  }

  /** Fragments of the seed's own symbol first, then better seeds, then nearer chunks. */
  predicate PriorityLe(a: Candidate, b: Candidate) {
    if OriginPriority(a.origin) != OriginPriority(b.origin) then OriginPriority(a.origin) < OriginPriority(b.origin)
    else if a.rank != b.rank then a.rank < b.rank
    else a.distance <= b.distance
  }

  /** What the pool holds of the routes taken so far: every chunk that is no seed, with a priority
      that some route gives it and no route improves. */
  ghost predicate PoolOf(items: seq<Candidate>, routes: seq<Candidate>, seedIds: set<Identity>) {
    && (forall k :: 0 <= k < |items| ==> items[k] in routes && Id(items[k]) !in seedIds)
    && (forall k, l :: 0 <= k < l < |items| ==> Id(items[k]) != Id(items[l]))
    && forall r :: r in routes && Id(r) !in seedIds ==> Improved(items, r)
  }

  ghost predicate Improved(items: seq<Candidate>, r: Candidate) {
    exists k :: 0 <= k < |items| && Id(items[k]) == Id(r) && PriorityLe(items[k], r)
  }

  /** Where each identity is in the pool. */
  ghost predicate Indexed(items: seq<Candidate>, at: map<Identity, nat>) {
    && (forall k :: 0 <= k < |items| ==> Id(items[k]) in at && at[Id(items[k])] == k)
    && forall id :: id in at ==> at[id] < |items| && Id(items[at[id]]) == id
  }

  lemma AddedToPool(items: seq<Candidate>, routes: seq<Candidate>, seedIds: set<Identity>, c: Candidate)
    requires PoolOf(items, routes, seedIds) && Id(c) !in seedIds
    requires forall k :: 0 <= k < |items| ==> Id(items[k]) != Id(c)
    ensures PoolOf(items + [c], routes + [c], seedIds)
  {
    hide PriorityLe;
    var more := items + [c];
    forall r | r in routes + [c] && Id(r) !in seedIds
      ensures Improved(more, r)
    {
      if r in routes {
        var k :| 0 <= k < |items| && Id(items[k]) == Id(r) && PriorityLe(items[k], r);
        assert more[k] == items[k];
      } else {
        PriorityReflexive(c);
        assert more[|items|] == r;
      }
    }
  }

  lemma PriorityReflexive(c: Candidate)
    ensures PriorityLe(c, c)
  {
  }

  lemma PriorityTransitive(a: Candidate, b: Candidate, c: Candidate)
    requires PriorityLe(a, b) && PriorityLe(b, c)
    ensures PriorityLe(a, c)
  {
  }

  lemma KeptInPool(items: seq<Candidate>, routes: seq<Candidate>, seedIds: set<Identity>, c: Candidate, at: nat)
    requires PoolOf(items, routes, seedIds) && at < |items| && Id(items[at]) == Id(c) && PriorityLe(items[at], c)
    ensures PoolOf(items, routes + [c], seedIds)
  {
    hide Id, PriorityLe, Improved;
    ImprovedBy(items, at, c);
  }

  lemma ImprovedBy(items: seq<Candidate>, k: nat, r: Candidate)
    requires k < |items| && Id(items[k]) == Id(r) && PriorityLe(items[k], r)
    ensures Improved(items, r)
  {
  }

  lemma StillImproved(items: seq<Candidate>, at: nat, c: Candidate, r: Candidate)
    requires at < |items| && Id(items[at]) == Id(c) && PriorityLe(c, items[at]) && Improved(items, r)
    ensures Improved(items[at := c], r)
  {
    hide PriorityLe, Id;
    var k :| 0 <= k < |items| && Id(items[k]) == Id(r) && PriorityLe(items[k], r);
    if k == at {
      PriorityTransitive(c, items[at], r);
    }
    ImprovedBy(items[at := c], k, r);
  }

  lemma LoweredInPool(items: seq<Candidate>, routes: seq<Candidate>, seedIds: set<Identity>, c: Candidate, at: nat)
    requires PoolOf(items, routes, seedIds) && at < |items| && Id(items[at]) == Id(c) && !PriorityLe(items[at], c)
    ensures PoolOf(items[at := c], routes + [c], seedIds)
  {
    PriorityReflexive(c);
    assert PriorityLe(c, items[at]);
    hide Id, PriorityLe, Improved;
    ImprovedBy(items[at := c], at, c);
    forall r | r in routes && Id(r) !in seedIds
      ensures Improved(items[at := c], r)
    {
      StillImproved(items, at, c, r);
    }
  }

  lemma SeedIgnored(items: seq<Candidate>, routes: seq<Candidate>, seedIds: set<Identity>, c: Candidate)
    requires PoolOf(items, routes, seedIds) && Id(c) in seedIds
    ensures PoolOf(items, routes + [c], seedIds)
  {
    hide Improved;
  }

  // -------------------------------------------------------------------------------- the loops

  datatype Expansion = Expansion(items: seq<Candidate>, at: map<Identity, nat>, expanded: nat, deduplicated: nat)

  ghost predicate Expanded(e: Expansion, routes: seq<Candidate>, seedIds: set<Identity>) {
    && PoolOf(e.items, routes, seedIds) && Indexed(e.items, e.at)
    && e.expanded == |routes| && e.deduplicated + |e.items| == e.expanded
  }

  /** One route: a new chunk joins the pool, a known one may have its priority lowered in place. */
  method Take(e: Expansion, c: Candidate, seedIds: set<Identity>, ghost routes: seq<Candidate>)
    returns (next: Expansion)
    requires Expanded(e, routes, seedIds)
    requires forall k :: 0 <= k < |e.items| && Id(e.items[k]) == Id(c) ==> e.items[k].chunk == c.chunk
    ensures Expanded(next, routes + [c], seedIds)
  {
    hide PoolOf;
    if Id(c) in seedIds {
      SeedIgnored(e.items, routes, seedIds, c);
      next := e.(expanded := e.expanded + 1, deduplicated := e.deduplicated + 1);
    } else if Id(c) in e.at {
      var position := e.at[Id(c)];
      var existing := e.items[position];
      next := e.(expanded := e.expanded + 1, deduplicated := e.deduplicated + 1);
      if PriorityLe(existing, c) {
        KeptInPool(e.items, routes, seedIds, c, position);
      } else {
        LoweredInPool(e.items, routes, seedIds, c, position);
        var lowered := existing.(origin := c.origin, rank := c.rank, distance := c.distance);
        assert lowered == c;
        next := next.(items := e.items[position := lowered]);
      }
    } else {
      AddedToPool(e.items, routes, seedIds, c);
      next := e.(items := e.items + [c], at := e.at[Id(c) := |e.items|], expanded := e.expanded + 1);
    }
  }

  predicate FromCorpus(routes: seq<Candidate>, corpus: map<Key, CodeChunk>) {
    forall r :: r in routes ==>
      Key(r.chunk.path, r.chunk.index) in corpus && corpus[Key(r.chunk.path, r.chunk.index)] == r.chunk
  }

  lemma SameChunkSameId(e: Expansion, routes: seq<Candidate>, seedIds: set<Identity>, corpus: map<Key, CodeChunk>,
                        c: Candidate)
    requires Expanded(e, routes, seedIds) && FromCorpus(routes + [c], corpus)
    ensures forall k :: 0 <= k < |e.items| && Id(e.items[k]) == Id(c) ==> e.items[k].chunk == c.chunk
  {
    assert c in routes + [c];
    forall k | 0 <= k < |e.items| && Id(e.items[k]) == Id(c)
      ensures e.items[k].chunk == c.chunk
    {
      assert e.items[k] in routes + [c];
    }
  }

  /** All offsets from one seed. */
  method ExpandSeed(e: Expansion, seed: Seed, offsets: seq<int>, corpus: map<Key, CodeChunk>, seedIds: set<Identity>,
                    ghost routes: seq<Candidate>) returns (next: Expansion)
    requires Keyed(corpus) && Expanded(e, routes, seedIds) && FromCorpus(routes, corpus)
    ensures Expanded(next, routes + RoutesFrom(seed, offsets, corpus), seedIds)
    ensures FromCorpus(routes + RoutesFrom(seed, offsets, corpus), corpus)
  {
    hide Expanded;
    next := e;
    assert routes + [] == routes && offsets[..0] == [] && offsets[..|offsets|] == offsets;
    for j := 0 to |offsets|
      invariant Expanded(next, routes + RoutesFrom(seed, offsets[..j], corpus), seedIds)
      invariant FromCorpus(routes + RoutesFrom(seed, offsets[..j], corpus), corpus)
    {
      ghost var taken := routes + RoutesFrom(seed, offsets[..j], corpus);
      assert offsets[..j + 1][..j] == offsets[..j];
      var route := Route(seed, offsets[j], corpus);
      if route.Some? {
        assert routes + RoutesFrom(seed, offsets[..j + 1], corpus) == taken + [route.value];
        SameChunkSameId(next, taken, seedIds, corpus, route.value);
        next := Take(next, route.value, seedIds, taken);
      } else {
        assert RoutesFrom(seed, offsets[..j + 1], corpus) == RoutesFrom(seed, offsets[..j], corpus);
      }
    }
  }

  /** Every route from every seed. */
  method ExpandSeeds(seeds: seq<Seed>, radius: nat, corpus: map<Key, CodeChunk>, seedIds: set<Identity>)
    returns (e: Expansion)
    requires Keyed(corpus)
    ensures Expanded(e, Routes(seeds, Offsets(radius), corpus), seedIds)
  {
    hide Expanded, RoutesFrom;
    var offsets := Offsets(radius);
    e := Expansion([], map[], 0, 0);
    assert seeds[..0] == [] && seeds[..|seeds|] == seeds;
    NothingExpanded(e, seedIds);
    for i := 0 to |seeds|
      invariant Expanded(e, Routes(seeds[..i], offsets, corpus), seedIds)
      invariant FromCorpus(Routes(seeds[..i], offsets, corpus), corpus)
    {
      assert seeds[..i + 1][..i] == seeds[..i];
      e := ExpandSeed(e, seeds[i], offsets, corpus, seedIds, Routes(seeds[..i], offsets, corpus));
    }
  }

  lemma NothingExpanded(e: Expansion, seedIds: set<Identity>)
    requires e == Expansion([], map[], 0, 0)
    ensures Expanded(e, [], seedIds)
  {
  }

  // ---------------------------------------------------------------------- the requested chunks

  predicate IsNeighborKey(k: Key, seed: Seed, offsets: seq<int>) {
    k.path == seed.chunk.path && k.index - seed.chunk.index in offsets
  }

  /** The keys asked of the store in one batch, each once. */
  method RequestedKeys(seeds: seq<Seed>, radius: nat) returns (keys: seq<Key>)
    ensures forall k :: k in keys <==> exists i :: 0 <= i < |seeds| && IsNeighborKey(k, seeds[i], Offsets(radius))
    ensures forall i, j :: 0 <= i < j < |keys| ==> keys[i] != keys[j]
  {
    keys := [];
    var offsets := Offsets(radius);
    for i := 0 to |seeds|
      invariant forall k :: k in keys <==> exists l :: 0 <= l < i && IsNeighborKey(k, seeds[l], offsets)
      invariant forall l, j :: 0 <= l < j < |keys| ==> keys[l] != keys[j]
    {
      keys := AddKeys(keys, seeds[i], offsets);
    }
  }

  method AddKeys(before: seq<Key>, seed: Seed, offsets: seq<int>) returns (keys: seq<Key>)
    requires forall l, j :: 0 <= l < j < |before| ==> before[l] != before[j]
    ensures forall k :: k in keys <==> k in before || IsNeighborKey(k, seed, offsets)
    ensures forall l, j :: 0 <= l < j < |keys| ==> keys[l] != keys[j]
  {
    keys := before;
    for o := 0 to |offsets|
      invariant forall k :: k in keys <==> k in before || IsNeighborKey(k, seed, offsets[..o])
      invariant forall l, j :: 0 <= l < j < |keys| ==> keys[l] != keys[j]
    {
      assert offsets[..o + 1] == offsets[..o] + [offsets[o]];
      if seed.chunk.index + offsets[o] >= 0 {
        var key := Key(seed.chunk.path, seed.chunk.index + offsets[o]);
        if key !in keys {
          keys := keys + [key];
        }
      }
    }
    assert offsets[..|offsets|] == offsets;
  }

  /** Asking only for the requested keys loses no route. */
  lemma {:induction false} RequestIsEnough(seed: Seed, offsets: seq<int>, corpus: map<Key, CodeChunk>,
                                           loaded: map<Key, CodeChunk>)
    requires forall k :: IsNeighborKey(k, seed, offsets) ==> (k in loaded <==> k in corpus)
    requires forall k :: k in loaded ==> k in corpus && loaded[k] == corpus[k]
    ensures RoutesFrom(seed, offsets, loaded) == RoutesFrom(seed, offsets, corpus)
  {
    if offsets != [] {
      var last := |offsets| - 1;
      var o := offsets[last];
      if seed.chunk.index + o >= 0 {
        assert IsNeighborKey(Key(seed.chunk.path, seed.chunk.index + o), seed, offsets);
      }
      RequestIsEnough(seed, offsets[..last], corpus, loaded);
    }
  }

  // ------------------------------------------------------------------------- what the pool is

  predicate InCorpus(chunk: CodeChunk, corpus: map<Key, CodeChunk>) {
    Key(chunk.path, chunk.index) in corpus && corpus[Key(chunk.path, chunk.index)] == chunk
  }

  /** The candidate as it is seen from one seed: a chunk of the same file and chunking, at most `radius`
      positions away, with the seed's rank, and a fragment of the same symbol if both are fragments of
      one qualified name. */
  ghost predicate Reaches(s: Seed, c: Candidate, radius: nat) {
    && c.chunk.path == s.chunk.path && c.chunk.strategy == s.chunk.strategy && c.rank == s.rank
    && 1 <= c.distance <= radius
    && (c.chunk.index == s.chunk.index + c.distance || c.chunk.index + c.distance == s.chunk.index)
    && (c.origin == SameSymbolFragment
        <==> && s.chunk.kind == StructuralFragment && c.chunk.kind == StructuralFragment
             && s.chunk.qualified.Some? && s.chunk.qualified == c.chunk.qualified)
    && c.origin != FromSeed
  }

  /** Fragments of a seed's symbol before plain neighbours, then better seeds, then nearer chunks. */
  ghost predicate InPoolOrder(a: Candidate, b: Candidate) {
    || (a.origin == SameSymbolFragment && b.origin != SameSymbolFragment)
    || ((a.origin == SameSymbolFragment <==> b.origin == SameSymbolFragment)
        && (a.rank < b.rank || (a.rank == b.rank && a.distance <= b.distance)))
  }

  lemma PriorityIs(a: Candidate, b: Candidate)
    ensures PriorityLe(a, b) <==> InPoolOrder(a, b)
  {
  }

  lemma RouteReaches(s: Seed, corpus: map<Key, CodeChunk>, c: Candidate, radius: nat)
    requires Keyed(corpus)
    ensures (exists o :: o in Offsets(radius) && Route(s, o, corpus) == Some(c))
            <==> InCorpus(c.chunk, corpus) && Reaches(s, c, radius)
  {
    OffsetsAreAll(radius);
    if InCorpus(c.chunk, corpus) && Reaches(s, c, radius) {
      var o := c.chunk.index - s.chunk.index;
      assert o in Offsets(radius) && Route(s, o, corpus) == Some(c);
    }
  }

  lemma RoutesReach(seeds: seq<Seed>, corpus: map<Key, CodeChunk>, c: Candidate, radius: nat)
    requires Keyed(corpus)
    ensures c in Routes(seeds, Offsets(radius), corpus)
            <==> InCorpus(c.chunk, corpus) && exists s :: s in seeds && Reaches(s, c, radius)
  {
    hide Route, Reaches, Routes, Offsets, InCorpus;
    RoutesAre(seeds, Offsets(radius), corpus, c);
    forall s | s in seeds
      ensures (exists o :: o in Offsets(radius) && Route(s, o, corpus) == Some(c))
              <==> InCorpus(c.chunk, corpus) && Reaches(s, c, radius)
    {
      RouteReaches(s, corpus, c, radius);
    }
  }

  predicate IsSeedChunk(chunk: CodeChunk, seeds: seq<Seed>) {
    exists s :: s in seeds && IdentityOf(s.chunk) == IdentityOf(chunk)
  }

  ghost predicate OnlyNeighbors(pool: seq<Candidate>, seeds: seq<Seed>, radius: nat, corpus: map<Key, CodeChunk>) {
    forall k :: 0 <= k < |pool| ==>
      && InCorpus(pool[k].chunk, corpus) && !IsSeedChunk(pool[k].chunk, seeds)
      && exists s :: s in seeds && Reaches(s, pool[k], radius)
  }

  ghost predicate InTotalOrder(pool: seq<Candidate>) {
    forall k, l :: 0 <= k < l < |pool| ==>
      && Id(pool[k]) != Id(pool[l]) && InPoolOrder(pool[k], pool[l])
      && (InPoolOrder(pool[l], pool[k]) ==> IdentityLe(Id(pool[k]), Id(pool[l])))
  }

  ghost predicate NoBetterNeighbor(pool: seq<Candidate>, seeds: seq<Seed>, radius: nat,
                                   corpus: map<Key, CodeChunk>) {
    forall s, c ::
      s in seeds && Reaches(s, c, radius) && InCorpus(c.chunk, corpus) && !IsSeedChunk(c.chunk, seeds) ==>
        exists k :: 0 <= k < |pool| && Id(pool[k]) == Id(c) && InPoolOrder(pool[k], c)
  }

  /** The pool is the neighbourhood of the seeds: nothing else, nothing twice, no seed, nothing missing,
      everything with the best priority that any seed gives it, and in that order. */
  ghost predicate IsNeighborhood(pool: seq<Candidate>, seeds: seq<Seed>, radius: nat, corpus: map<Key, CodeChunk>) {
    && OnlyNeighbors(pool, seeds, radius, corpus) && InTotalOrder(pool)
    && NoBetterNeighbor(pool, seeds, radius, corpus)
  }
}
