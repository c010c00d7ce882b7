/** Finding chunks by symbol name: the in-memory search, the database query, and how they relate. */
module Symbols {
  import opened Chunks
  import opened Orders
  import opened Sorting
  import opened Wrappers

  /** The identifiers of a query by how they may match. */
  datatype Identifiers = Identifiers(qualified: set<string>, strong: set<string>, weak: set<string>)

  datatype Match = Match(tier: nat, identifier: string, chunk: CodeChunk)

  datatype SymbolResult = SymbolResult(chunk: CodeChunk, rank: nat, tier: nat, identifier: string)

  /** A symbol is named within its file, by its qualified name if it has one. */
  datatype SymbolId = SymbolId(path: string, name: string)

  function SymbolOf(c: CodeChunk): SymbolId {
    SymbolId(c.path, if c.qualified.Some? then c.qualified.value else if c.symbol.Some? then c.symbol.value else "")
  }

  function TierOf(c: CodeChunk, ids: Identifiers): Option<(nat, string)> {
    if c.qualified.Some? && c.qualified.value in ids.qualified then Some((0, c.qualified.value))
    else if c.symbol.Some? && c.symbol.value in ids.strong then Some((1, c.symbol.value))
    else if c.symbol.Some? && c.symbol.value in ids.weak then Some((2, c.symbol.value))
    else None
  }

  function Matches(chunks: seq<CodeChunk>, ids: Identifiers): seq<Match> {
    if chunks == [] then []
    else
      var last := chunks[|chunks| - 1];
      Matches(chunks[..|chunks| - 1], ids)
      + match TierOf(last, ids)
        case None => []
        case Some((tier, identifier)) => [Match(tier, identifier, last)]
  }

  /** Better tiers first, then paths, then positions. */
  predicate MatchLe(a: Match, b: Match) {
    if a.tier != b.tier then a.tier < b.tier
    else if a.chunk.path != b.chunk.path then StringLe(a.chunk.path, b.chunk.path)
    else a.chunk.index <= b.chunk.index
  }

  const MATCH_ORDER: (Match, Match) -> bool := (a, b) => MatchLe(a, b)

  lemma MatchOrderIsTotal()
    ensures TotalPreorder(MATCH_ORDER)
  {
    forall a, b
      ensures MATCH_ORDER(a, b) || MATCH_ORDER(b, a)
    {
      StringLeTotal(a.chunk.path, b.chunk.path);
    }
    forall a, b, c | MATCH_ORDER(a, b) && MATCH_ORDER(b, c)
      ensures MATCH_ORDER(a, c)
    {
      MatchTransitive(a, b, c);
    }
  }

  lemma MatchTransitive(a: Match, b: Match, c: Match)
    requires MatchLe(a, b) && MatchLe(b, c)
    ensures MatchLe(a, c)
  {
    if a.tier == b.tier == c.tier && a.chunk.path != b.chunk.path && b.chunk.path != c.chunk.path {
      StringLeTransitive(a.chunk.path, b.chunk.path, c.chunk.path);
      if a.chunk.path == c.chunk.path {
        StringLeAntisymmetric(a.chunk.path, b.chunk.path);
      }
    }
  }

  /** Chunks of one repository have different positions. */
  predicate DistinctPositions(ms: seq<Match>) {
    forall i, j :: 0 <= i < j < |ms| ==> ms[i].chunk.path != ms[j].chunk.path || ms[i].chunk.index != ms[j].chunk.index
  }

  lemma PositionsTellApart(ms: seq<Match>)
    requires DistinctPositions(ms)
    ensures AntisymmetricOn(ms, MATCH_ORDER)
  {
    hide StringLe;
    forall a, b | a in ms && b in ms && MATCH_ORDER(a, b) && MATCH_ORDER(b, a)
      ensures a == b
    {
      if a.chunk.path != b.chunk.path {
        StringLeAntisymmetric(a.chunk.path, b.chunk.path);
      }
      var i :| 0 <= i < |ms| && ms[i] == a;
      var j :| 0 <= j < |ms| && ms[j] == b;
    }
  }

  // ------------------------------------------------------------------ the in-memory search

  function SymbolsOf(ms: seq<Match>): set<SymbolId> {
    set m | m in ms :: SymbolOf(m.chunk)
  }

  /** The first match of each symbol. */
  function FirstPerSymbol(ms: seq<Match>): seq<Match> {
    if ms == [] then []
    else
      var before := FirstPerSymbol(ms[..|ms| - 1]);
      var last := ms[|ms| - 1];
      if SymbolOf(last.chunk) in SymbolsOf(before) then before else before + [last]
  }

  function Limited(n: nat, limit: nat): nat {
    if n < limit then n else limit
  }

  function Numbered(ms: seq<Match>, limit: nat): seq<SymbolResult> {
    seq(Limited(|ms|, limit), i requires 0 <= i < Limited(|ms|, limit) =>
      SymbolResult(ms[i].chunk, i + 1, ms[i].tier, ms[i].identifier))
  }

  datatype SymbolError = LimitOutOfRange

  const MAX_SYMBOL_CANDIDATE_LIMIT := 50

  /** How a chunk matches: by its whole name before its last name, and by a strong identifier before a
      weak one. */
  predicate MatchedAs(c: CodeChunk, tier: nat, identifier: string, ids: Identifiers) {
    var qualified := c.qualified.Some? && c.qualified.value in ids.qualified;
    var strong := c.symbol.Some? && c.symbol.value in ids.strong;
    var weak := c.symbol.Some? && c.symbol.value in ids.weak;
    || (tier == 0 && qualified && c.qualified == Some(identifier))
    || (tier == 1 && !qualified && strong && c.symbol == Some(identifier))
    || (tier == 2 && !qualified && !strong && weak && c.symbol == Some(identifier))
  }

  lemma TierIs(c: CodeChunk, ids: Identifiers)
    ensures forall tier: nat, identifier ::
              MatchedAs(c, tier, identifier, ids) <==> TierOf(c, ids) == Some((tier, identifier))
  {
  }

  lemma {:induction false} MatchesAre(chunks: seq<CodeChunk>, ids: Identifiers, m: Match)
    ensures m in Matches(chunks, ids) <==> m.chunk in chunks && MatchedAs(m.chunk, m.tier, m.identifier, ids)
  {
    hide TierOf, MatchedAs;
    if chunks != [] {
      var front, last := chunks[..|chunks| - 1], chunks[|chunks| - 1];
      assert chunks == front + [last];
      MatchesAre(front, ids, m);
      TierIs(last, ids);
      if m.chunk == last {
        TierIs(m.chunk, ids);
      }
    }
  }

  /** A better tier, or in one tier an earlier position; and of another symbol. */
  ghost predicate InAnswerOrder(a: SymbolResult, b: SymbolResult) {
    && a.tier <= b.tier
    && (a.tier == b.tier ==> StringLe(a.chunk.path, b.chunk.path))
    && (a.tier == b.tier && a.chunk.path == b.chunk.path ==> a.chunk.index <= b.chunk.index)
    && (a.chunk.path != b.chunk.path
        || (if a.chunk.qualified.Some? then a.chunk.qualified else a.chunk.symbol)
           != (if b.chunk.qualified.Some? then b.chunk.qualified else b.chunk.symbol))
  }

  lemma AnswerOrdered(a: Match, b: Match)
    requires MATCH_ORDER(a, b) && SymbolOf(a.chunk) != SymbolOf(b.chunk)
    ensures forall i, j :: InAnswerOrder(SymbolResult(a.chunk, i, a.tier, a.identifier),
                                         SymbolResult(b.chunk, j, b.tier, b.identifier))
  {
    StringLeTotal(a.chunk.path, a.chunk.path);
  }

  /** What the answer shows: matches of the chunks, better tiers first and positions within a tier, one
      of each symbol, and none missing unless the limit is reached. */
  ghost predicate IsSymbolAnswer(results: seq<SymbolResult>, ids: Identifiers, chunks: seq<CodeChunk>, limit: int) {
    && |results| <= limit
    && (forall i :: 0 <= i < |results| ==>
          && results[i].rank == i + 1 && results[i].chunk in chunks
          && MatchedAs(results[i].chunk, results[i].tier, results[i].identifier, ids))
    && (forall i, j :: 0 <= i < j < |results| ==> InAnswerOrder(results[i], results[j]))
    && (|results| < limit ==>
          forall c, tier: nat, identifier :: c in chunks && MatchedAs(c, tier, identifier, ids) ==>
            exists i :: 0 <= i < |results| && SymbolOf(results[i].chunk) == SymbolOf(c) && results[i].tier <= tier)
  }

  lemma AnswerIs(ids: Identifiers, chunks: seq<CodeChunk>, limit: nat, sorted: seq<Match>)
    requires SortedBy(sorted, MATCH_ORDER) && multiset(sorted) == multiset(Matches(chunks, ids))
    ensures IsSymbolAnswer(Numbered(FirstPerSymbol(sorted), limit), ids, chunks, limit)
  {
    hide SymbolOf, MatchedAs, Matches, FirstPerSymbol, MatchLe, InAnswerOrder, EarlierKept, SortedBy;
    var kept := FirstPerSymbol(sorted);
    FirstPerSymbolKeeps(sorted);
    SameMembers(sorted, Matches(chunks, ids));
    forall i | 0 <= i < |kept|
      ensures kept[i].chunk in chunks && MatchedAs(kept[i].chunk, kept[i].tier, kept[i].identifier, ids)
    {
      assert kept[i] in kept;
      MatchesAre(chunks, ids, kept[i]);
    }
    AnswerInOrder(kept, limit);
    if |kept| < limit {
      forall c, tier: nat, identifier | c in chunks && MatchedAs(c, tier, identifier, ids)
        ensures exists i ::
                  0 <= i < |kept| && SymbolOf(Numbered(kept, limit)[i].chunk) == SymbolOf(c)
                  && Numbered(kept, limit)[i].tier <= tier
      {
        var o := Match(tier, identifier, c);
        MatchesAre(chunks, ids, o);
        var e := EarlierOf(kept, o);
        OrderedTiers(e, o);
        var i :| 0 <= i < |kept| && kept[i] == e;
        assert Numbered(kept, limit)[i].chunk == e.chunk;
      }
    }
  }

  lemma AnswerInOrder(kept: seq<Match>, limit: nat)
    requires SortedBy(kept, MATCH_ORDER) && DistinctSymbols(kept)
    ensures var results := Numbered(kept, limit);
            forall i, j :: 0 <= i < j < |results| ==> InAnswerOrder(results[i], results[j])
  {
    hide SymbolOf, MatchLe, InAnswerOrder;
    forall i, j | 0 <= i < j < Limited(|kept|, limit)
      ensures InAnswerOrder(Numbered(kept, limit)[i], Numbered(kept, limit)[j])
    {
      AnswerOrdered(kept[i], kept[j]);
    }
  }

  /** Sort, keep the first match of each symbol, cut to the limit. */
  method SymbolSearch(ids: Identifiers, chunks: seq<CodeChunk>, limit: int)
    returns (r: Result<seq<SymbolResult>, SymbolError>, ghost sorted: seq<Match>)
    ensures r.Failure? <==> limit <= 0 || limit > MAX_SYMBOL_CANDIDATE_LIMIT
    ensures r.Success? ==> IsSymbolAnswer(r.value, ids, chunks, limit)
    ensures r.Success? ==>
              && SortedBy(sorted, MATCH_ORDER) && multiset(sorted) == multiset(Matches(chunks, ids))
              && r.value == Numbered(FirstPerSymbol(sorted), limit)
  {
    hide SortedBy, MatchLe, Matches, FirstPerSymbol, Numbered, IsSymbolAnswer;
    sorted := [];
    if limit <= 0 || limit > MAX_SYMBOL_CANDIDATE_LIMIT {
      r := Failure(LimitOutOfRange);
      return;
    }
    var matches := FindMatches(ids, chunks);
    MatchOrderIsTotal();
    var ordered := SortBy(matches, MATCH_ORDER);
    var deduplicated := Deduplicate(ordered);
    var results := NumberResults(deduplicated, limit);
    AnswerIs(ids, chunks, limit, ordered);
    r, sorted := Success(results), ordered;
  }

  method FindMatches(ids: Identifiers, chunks: seq<CodeChunk>) returns (matches: seq<Match>)
    ensures matches == Matches(chunks, ids)
  {
    hide TierOf;
    matches := [];
    assert chunks[..0] == [] && chunks[..|chunks|] == chunks;
    for i := 0 to |chunks|
      invariant matches == Matches(chunks[..i], ids)
    {
      assert chunks[..i + 1][..i] == chunks[..i];
      var found := TierOf(chunks[i], ids);
      if found.Some? {
        matches := matches + [Match(found.value.0, found.value.1, chunks[i])];
      } else {
        matches := matches + [];
      }
    }
  }

  method NumberResults(ms: seq<Match>, limit: nat) returns (results: seq<SymbolResult>)
    ensures results == Numbered(ms, limit)
  {
    results := [];
    for i := 0 to Limited(|ms|, limit)
      invariant |results| == i && forall j :: 0 <= j < i ==> results[j] == Numbered(ms, limit)[j]
    {
      results := results + [SymbolResult(ms[i].chunk, i + 1, ms[i].tier, ms[i].identifier)];
    }
  }

  method Deduplicate(ms: seq<Match>) returns (kept: seq<Match>)
    ensures kept == FirstPerSymbol(ms)
  {
    hide SymbolOf;
    var seen: set<SymbolId> := {};
    kept := [];
    assert ms[..0] == [] && ms[..|ms|] == ms;
    for i := 0 to |ms|
      invariant kept == FirstPerSymbol(ms[..i]) && seen == SymbolsOf(kept)
    {
      assert ms[..i + 1][..i] == ms[..i];
      if SymbolOf(ms[i].chunk) !in seen {
        SymbolsSnoc(kept, ms[i]);
        seen := seen + {SymbolOf(ms[i].chunk)};
        kept := kept + [ms[i]];
      }
    }
  }

  lemma SymbolsSnoc(ms: seq<Match>, m: Match)
    ensures SymbolsOf(ms + [m]) == SymbolsOf(ms) + {SymbolOf(m.chunk)}
  {
    hide SymbolOf;
    assert forall x :: x in ms + [m] <==> x in ms || x == m;
  }

  // --------------------------------------------------------------------- the database query

  /** A row that the window numbers first: no match of its symbol comes earlier in the file. */
  predicate FirstInFile(m: Match, ms: seq<Match>) {
    forall o :: o in ms && SymbolOf(o.chunk) == SymbolOf(m.chunk) ==> m.chunk.index <= o.chunk.index
  }

  /** The answer of the query before its limit: first rows only, in tier order. */
  ghost predicate QueryRows(rows: seq<Match>, ms: seq<Match>) {
    && SortedBy(rows, MATCH_ORDER)
    && (forall i, j :: 0 <= i < j < |rows| ==> rows[i] != rows[j])
    && forall m :: m in rows <==> m in ms && FirstInFile(m, ms)
  }

  // --------------------------------------------------------------------- how they relate

  /** What keeping first matches of a sorted list keeps. */
  lemma {:induction false} FirstPerSymbolKeeps(ms: seq<Match>)
    requires SortedBy(ms, MATCH_ORDER)
    ensures forall m :: m in FirstPerSymbol(ms) ==> m in ms
    ensures SortedBy(FirstPerSymbol(ms), MATCH_ORDER)
    ensures DistinctSymbols(FirstPerSymbol(ms))
    ensures forall o :: o in ms ==> EarlierKept(FirstPerSymbol(ms), o)
  {
    hide SymbolOf, MatchLe, TotalPreorder;
    if ms != [] {
      var front, last := ms[..|ms| - 1], ms[|ms| - 1];
      FirstPerSymbolKeeps(front);
      var before := FirstPerSymbol(front);
      assert ms == front + [last];
      MatchOrderIsTotal();
      Total(MATCH_ORDER, last, last);
      assert forall m :: m in before ==> MATCH_ORDER(m, last) by {
        forall m | m in before
          ensures MATCH_ORDER(m, last)
        {
          var i :| 0 <= i < |front| && front[i] == m;
          assert ms[i] == m;
        }
      }
      KeptSnoc(before, front, last);
    }
  }

  predicate DistinctSymbols(ms: seq<Match>) {
    forall i, j :: 0 <= i < j < |ms| ==> SymbolOf(ms[i].chunk) != SymbolOf(ms[j].chunk)
  }

  predicate EarlierKept(kept: seq<Match>, o: Match) {
    exists m :: m in kept && SymbolOf(m.chunk) == SymbolOf(o.chunk) && MATCH_ORDER(m, o)
  }

  lemma KeptSnoc(before: seq<Match>, front: seq<Match>, last: Match)
    requires SortedBy(before, MATCH_ORDER) && DistinctSymbols(before)
    requires (forall m :: m in before ==> m in front && MATCH_ORDER(m, last)) && MATCH_ORDER(last, last)
    requires forall o :: o in front ==> EarlierKept(before, o)
    ensures var kept := if SymbolOf(last.chunk) in SymbolsOf(before) then before else before + [last];
            && (forall m :: m in kept ==> m in front + [last]) && SortedBy(kept, MATCH_ORDER) && DistinctSymbols(kept)
            && forall o :: o in front + [last] ==> EarlierKept(kept, o)
  {
    hide SymbolOf, MatchLe, EarlierKept;
    var known := SymbolOf(last.chunk) in SymbolsOf(before);
    var kept := if known then before else before + [last];
    forall i | 0 <= i < |before|
      ensures before[i] in before && SymbolOf(before[i].chunk) in SymbolsOf(before)
    {
    }
    forall o | o in front + [last]
      ensures EarlierKept(kept, o)
    {
      if o in front {
        EarlierInLonger(before, kept, o);
      } else if known {
        var m :| m in before && SymbolOf(m.chunk) == SymbolOf(last.chunk);
        EarlierBy(kept, m, last);
      } else {
        assert kept[|before|] == last;
        EarlierBy(kept, last, last);
      }
    }
  }

  lemma EarlierBy(kept: seq<Match>, m: Match, o: Match)
    requires m in kept && SymbolOf(m.chunk) == SymbolOf(o.chunk) && MATCH_ORDER(m, o)
    ensures EarlierKept(kept, o)
  {
  }

  lemma EarlierInLonger(before: seq<Match>, kept: seq<Match>, o: Match)
    requires EarlierKept(before, o) && forall m :: m in before ==> m in kept
    ensures EarlierKept(kept, o)
  {
  }

  /** In every symbol, the match that comes first in the file has the best tier. */
  ghost predicate FirstHasBestTier(ms: seq<Match>) {
    forall m, o :: m in ms && o in ms && SymbolOf(m.chunk) == SymbolOf(o.chunk) && FirstInFile(m, ms) ==>
      m.tier <= o.tier
  }

  lemma {:induction false} FirstExists(ms: seq<Match>, group: seq<Match>, o: Match) returns (first: Match)
    requires o in group && forall m :: m in group ==> m in ms
    ensures first in group && SymbolOf(first.chunk) == SymbolOf(o.chunk)
    ensures forall m :: m in group && SymbolOf(m.chunk) == SymbolOf(o.chunk) ==> first.chunk.index <= m.chunk.index
    decreases |group|
  {
    hide SymbolOf;
    var front, last := group[..|group| - 1], group[|group| - 1];
    assert group == front + [last];
    if o in front {
      first := FirstExists(ms, front, o);
      if SymbolOf(last.chunk) == SymbolOf(o.chunk) && last.chunk.index < first.chunk.index {
        first := last;
      }
    } else if exists m :: m in front && SymbolOf(m.chunk) == SymbolOf(o.chunk) {
      var m :| m in front && SymbolOf(m.chunk) == SymbolOf(o.chunk);
      first := FirstExists(ms, front, m);
      if last.chunk.index < first.chunk.index {
        first := last;
      }
    } else {
      first := last;
    }
  }

  /** Of one symbol only one match is kept, so it comes no later than any other. */
  lemma KeptIsEarliest(kept: seq<Match>, m: Match, o: Match)
    requires DistinctSymbols(kept) && m in kept && SymbolOf(m.chunk) == SymbolOf(o.chunk) && EarlierKept(kept, o)
    ensures MATCH_ORDER(m, o)
  {
    hide SymbolOf, MatchLe;
    var e :| e in kept && SymbolOf(e.chunk) == SymbolOf(o.chunk) && MATCH_ORDER(e, o);
    var i :| 0 <= i < |kept| && kept[i] == m;
    var j :| 0 <= j < |kept| && kept[j] == e;
  }

  lemma KeptIsFirst(ms: seq<Match>, kept: seq<Match>, m: Match)
    requires DistinctPositions(ms) && FirstHasBestTier(ms) && DistinctSymbols(kept)
    requires (forall x :: x in kept ==> x in ms) && forall o :: o in ms ==> EarlierKept(kept, o)
    requires m in ms
    ensures m in kept <==> FirstInFile(m, ms)
  {
    hide EarlierKept, StringLe;
    PositionsTellApart(ms);
    if m in kept {
      var first := FirstExists(ms, ms, m);
      KeptIsEarliest(kept, m, first);
      assert MATCH_ORDER(first, m);
    }
    if FirstInFile(m, ms) {
      var e := EarlierOf(kept, m);
      assert MATCH_ORDER(m, e);
    }
  }

  lemma EarlierOf(kept: seq<Match>, o: Match) returns (e: Match)
    requires EarlierKept(kept, o)
    ensures e in kept && SymbolOf(e.chunk) == SymbolOf(o.chunk) && MATCH_ORDER(e, o)
  {
    e :| e in kept && SymbolOf(e.chunk) == SymbolOf(o.chunk) && MATCH_ORDER(e, o);
  }

  /** Before any limit, sorting and then dropping repeated symbols keeps the rows of the query's window
      exactly when in every symbol the first match of the file has the best tier. */
  lemma UncutSearchIsQueryExactly(ms: seq<Match>, sorted: seq<Match>, rows: seq<Match>)
    requires DistinctPositions(ms) && SortedBy(sorted, MATCH_ORDER) && multiset(sorted) == multiset(ms)
    requires QueryRows(rows, ms)
    ensures FirstPerSymbol(sorted) == rows <==> FirstHasBestTier(ms)
  {
    hide FirstPerSymbol, MatchLe, SymbolOf, EarlierKept, FirstInFile, DistinctPositions, TotalPreorder;
    var kept := FirstPerSymbol(sorted);
    SameMembers(sorted, ms);
    FirstPerSymbolKeeps(sorted);
    if FirstHasBestTier(ms) {
      forall m
        ensures m in kept <==> m in rows
      {
        if m in ms {
          KeptIsFirst(ms, kept, m);
        }
      }
      SameElements(kept, rows);
      MatchOrderIsTotal();
      PositionsTellApart(ms);
      SortedUnique(kept, rows, MATCH_ORDER);
    }
    if kept == rows {
      forall m, o | m in ms && o in ms && SymbolOf(m.chunk) == SymbolOf(o.chunk) && FirstInFile(m, ms)
        ensures m.tier <= o.tier
      {
        KeptIsEarliest(kept, m, o);
        OrderedTiers(m, o);
      }
    }
  }

  lemma OrderedTiers(m: Match, o: Match)
    requires MATCH_ORDER(m, o)
    ensures m.tier <= o.tier
  {
  }

  /** Each match that the limit shows is the first of its symbol in the file. */
  predicate ShowsFirst(kept: seq<Match>, ms: seq<Match>, limit: nat) {
    forall i :: 0 <= i < Limited(|kept|, limit) ==> FirstInFile(kept[i], ms)
  }

  /** The main result, about the answers returned. At any limit they agree exactly when what the
      in-memory search shows is the first of its symbol; so they agree at every limit if in every
      symbol the first match of the file has the best tier, and only then at a limit that cuts nothing. */
  lemma SearchIsQueryExactly(ms: seq<Match>, sorted: seq<Match>, rows: seq<Match>)
    requires DistinctPositions(ms) && SortedBy(sorted, MATCH_ORDER) && multiset(sorted) == multiset(ms)
    requires QueryRows(rows, ms)
    ensures FirstHasBestTier(ms) ==>
              forall limit: nat :: Numbered(FirstPerSymbol(sorted), limit) == Numbered(rows, limit)
    ensures forall limit: nat :: limit >= |SymbolsOf(ms)| ==>
              (Numbered(FirstPerSymbol(sorted), limit) == Numbered(rows, limit) <==> FirstHasBestTier(ms))
    ensures forall limit: nat ::
              Numbered(FirstPerSymbol(sorted), limit) == Numbered(rows, limit)
              <==> ShowsFirst(FirstPerSymbol(sorted), ms, limit)
  {
    hide FirstPerSymbol, MatchLe, SymbolOf, FirstInFile, DistinctPositions, Numbered, FirstHasBestTier, SymbolsOf,
      ShowsFirst, QueryRows, SortedBy, EarlierKept;
    var kept := FirstPerSymbol(sorted);
    UncutSearchIsQueryExactly(ms, sorted, rows);
    SameMembers(sorted, ms);
    FirstPerSymbolKeeps(sorted);
    RowsOfDistinctSymbols(rows, ms);
    OneOfEachSymbol(kept, rows, ms);
    forall limit: nat
      ensures Numbered(kept, limit) == Numbered(rows, limit) <==> ShowsFirst(kept, ms, limit)
    {
      AgreeAtLimit(kept, rows, ms, limit);
    }
    forall limit: nat | limit >= |SymbolsOf(ms)| && Numbered(kept, limit) == Numbered(rows, limit)
      ensures kept == rows
    {
      NumberedTellsApart(kept, rows, limit);
    }
  }

  /** Two chunks of one file that call the same symbol differently: the searches show different ones. */
  lemma NamedDifferentlyExample() returns (ms: seq<Match>, sorted: seq<Match>, rows: seq<Match>)
    ensures DistinctPositions(ms) && SortedBy(sorted, MATCH_ORDER) && multiset(sorted) == multiset(ms)
    ensures QueryRows(rows, ms) && Numbered(FirstPerSymbol(sorted), 1) != Numbered(rows, 1)
  {
    hide FirstPerSymbol, Numbered, TotalPreorder;
    var simple := CodeChunk("a.py", None, 1, 1, "", 0, "line_v1", LineWindow, Some("run"), None);
    var renamed := CodeChunk("a.py", None, 2, 2, "", 1, "line_v1", LineWindow, Some("go"), Some("run"));
    var first, better := Match(1, "run", simple), Match(0, "run", renamed);
    ms, sorted, rows := [first, better], [better, first], [first];
    assert first in ms && better in ms;
    assert SymbolsOf(ms) == {SymbolId("a.py", "run")};
    SearchIsQueryExactly(ms, sorted, rows);
  }

  lemma NumberedTellsApart(a: seq<Match>, b: seq<Match>, limit: nat)
    requires |a| <= limit && |b| <= limit && Numbered(a, limit) == Numbered(b, limit)
    ensures a == b
  {
    assert |a| == |Numbered(a, limit)| == |Numbered(b, limit)| == |b|;
    forall i | 0 <= i < |a|
      ensures a[i] == b[i]
    {
      assert Numbered(a, limit)[i] == Numbered(b, limit)[i];
    }
  }

  /** Both searches keep one match of each symbol. */
  lemma OneOfEachSymbol(kept: seq<Match>, rows: seq<Match>, ms: seq<Match>)
    requires DistinctSymbols(kept) && forall m :: m in kept ==> m in ms
    requires forall o :: o in ms ==> EarlierKept(kept, o)
    requires DistinctSymbols(rows) && QueryRows(rows, ms)
    ensures |kept| == |rows| == |SymbolsOf(ms)|
  {
    hide SymbolOf, DistinctSymbols, SortedBy, EarlierKept, FirstInFile;
    CountedBySymbols(kept);
    CountedBySymbols(rows);
    forall o | o in ms
      ensures IsSymbolOf(kept, SymbolOf(o.chunk))
    {
      var e := EarlierOf(kept, o);
    }
    SameSymbols(kept, ms);
    forall o | o in ms
      ensures IsSymbolOf(rows, SymbolOf(o.chunk))
    {
      var first := FirstExists(ms, ms, o);
      EarliestIsFirst(first, ms);
    }
    SameSymbols(rows, ms);
  }

  predicate IsSymbolOf(some: seq<Match>, symbol: SymbolId) {
    exists m :: m in some && SymbolOf(m.chunk) == symbol
  }

  lemma SameSymbols(some: seq<Match>, ms: seq<Match>)
    requires (forall m :: m in some ==> m in ms) && forall o :: o in ms ==> IsSymbolOf(some, SymbolOf(o.chunk))
    ensures SymbolsOf(some) == SymbolsOf(ms)
  {
    hide SymbolOf;
  }

  lemma EarliestIsFirst(m: Match, ms: seq<Match>)
    requires forall o :: o in ms && SymbolOf(o.chunk) == SymbolOf(m.chunk) ==> m.chunk.index <= o.chunk.index
    ensures FirstInFile(m, ms)
  {
  }

  lemma AgreeAtLimit(kept: seq<Match>, rows: seq<Match>, ms: seq<Match>, limit: nat)
    requires DistinctPositions(ms) && |kept| == |rows| && DistinctSymbols(kept) && DistinctSymbols(rows)
    requires SortedBy(kept, MATCH_ORDER) && (forall m :: m in kept ==> m in ms)
    requires (forall o :: o in ms ==> EarlierKept(kept, o)) && QueryRows(rows, ms)
    ensures Numbered(kept, limit) == Numbered(rows, limit) <==> ShowsFirst(kept, ms, limit)
  {
    hide MatchLe, SymbolOf, FirstInFile, DistinctPositions, DistinctSymbols, EarlierKept, SortedBy;
    var n := Limited(|kept|, limit);
    if Numbered(kept, limit) == Numbered(rows, limit) {
      forall i | 0 <= i < n
        ensures FirstInFile(kept[i], ms)
      {
        assert Numbered(kept, limit)[i] == Numbered(rows, limit)[i];
        assert kept[i] == rows[i] && rows[i] in rows;
      }
    }
    if ShowsFirst(kept, ms, limit) {
      AgreeUpTo(kept, rows, ms, n);
      assert forall i :: 0 <= i < n ==> kept[i] == kept[..n][i] == rows[..n][i] == rows[i];
    }
  }

  /** Place by place: a row with an unseen symbol comes no earlier than the best match left. */
  lemma {:induction false} AgreeUpTo(kept: seq<Match>, rows: seq<Match>, ms: seq<Match>, n: nat)
    requires DistinctPositions(ms) && DistinctSymbols(kept) && DistinctSymbols(rows)
    requires SortedBy(kept, MATCH_ORDER) && (forall m :: m in kept ==> m in ms)
    requires (forall o :: o in ms ==> EarlierKept(kept, o)) && QueryRows(rows, ms)
    requires n <= |kept| && n <= |rows| && forall i :: 0 <= i < n ==> FirstInFile(kept[i], ms)
    ensures kept[..n] == rows[..n]
  {
    hide MatchLe, SymbolOf, FirstInFile, DistinctPositions, EarlierKept, SortedBy, DistinctSymbols;
    if n > 0 {
      var i := n - 1;
      AgreeUpTo(kept, rows, ms, i);
      assert forall k :: 0 <= k < i ==> kept[k] == kept[..i][k] == rows[..i][k] == rows[k];
      assert kept[i] in kept && kept[i] in rows && rows[i] in rows;
      NextAgrees(kept, rows, ms, i);
      assert kept[..n] == kept[..i] + [kept[i]] && rows[..n] == rows[..i] + [rows[i]];
    }
  }

  lemma NextAgrees(kept: seq<Match>, rows: seq<Match>, ms: seq<Match>, i: nat)
    requires DistinctPositions(ms) && DistinctSymbols(rows) && i < |kept| && i < |rows|
    requires SortedBy(kept, MATCH_ORDER) && SortedBy(rows, MATCH_ORDER)
    requires kept[i] in rows && kept[i] in ms && rows[i] in ms && EarlierKept(kept, rows[i])
    requires DistinctSymbols(kept) && forall k :: 0 <= k < i ==> kept[k] == rows[k]
    ensures kept[i] == rows[i]
  {
    hide MatchLe, SymbolOf, DistinctPositions, EarlierKept, TotalPreorder;
    var j :| 0 <= j < |rows| && rows[j] == kept[i];
    var e := EarlierOf(kept, rows[i]);
    var k :| 0 <= k < |kept| && kept[k] == e;
    MatchOrderIsTotal();
    Total(MATCH_ORDER, kept[i], kept[i]);
    Total(MATCH_ORDER, rows[i], rows[i]);
    assert j >= i && k >= i;
    assert MATCH_ORDER(rows[i], kept[i]) && MATCH_ORDER(kept[i], e);
    Transitive(MATCH_ORDER, kept[i], e, rows[i]);
    PositionsTellApart(ms);
  }

  lemma {:induction false} CountedBySymbols(some: seq<Match>)
    requires DistinctSymbols(some)
    ensures |SymbolsOf(some)| == |some|
  {
    hide SymbolOf;
    if some != [] {
      var front, last := some[..|some| - 1], some[|some| - 1];
      CountedBySymbols(front);
      SymbolsSnoc(front, last);
      assert some == front + [last];
    }
  }

  lemma RowsOfDistinctSymbols(rows: seq<Match>, ms: seq<Match>)
    requires QueryRows(rows, ms) && DistinctPositions(ms)
    ensures DistinctSymbols(rows)
  {
    forall i, j | 0 <= i < j < |rows|
      ensures SymbolOf(rows[i].chunk) != SymbolOf(rows[j].chunk)
    {
      assert rows[i] in rows && rows[j] in rows;
      var k :| 0 <= k < |ms| && ms[k] == rows[i];
      var l :| 0 <= l < |ms| && ms[l] == rows[j];
    }
  }

  /** One symbol of a file is named one way by all of its chunks. */
  predicate NamedAlike(chunks: seq<CodeChunk>) {
    forall i, j :: 0 <= i < |chunks| && 0 <= j < |chunks| && SymbolOf(chunks[i]) == SymbolOf(chunks[j]) ==>
      chunks[i].symbol == chunks[j].symbol && chunks[i].qualified == chunks[j].qualified
  }

  lemma {:induction false} MatchesAreChunks(chunks: seq<CodeChunk>, ids: Identifiers, m: Match)
    requires m in Matches(chunks, ids)
    ensures m.chunk in chunks && TierOf(m.chunk, ids) == Some((m.tier, m.identifier))
  {
    hide TierOf;
    var front, last := chunks[..|chunks| - 1], chunks[|chunks| - 1];
    assert chunks == front + [last];
    if m in Matches(front, ids) {
      MatchesAreChunks(front, ids, m);
    }
  }

  /** Chunks at different positions give matches at different positions. */
  lemma {:induction false} MatchesApart(chunks: seq<CodeChunk>, ids: Identifiers)
    requires DistinctPlaces(chunks)
    ensures DistinctPositions(Matches(chunks, ids))
  {
    hide TierOf;
    if chunks != [] {
      var front, last := chunks[..|chunks| - 1], chunks[|chunks| - 1];
      MatchesApart(front, ids);
      forall m | m in Matches(front, ids)
        ensures m.chunk.path != last.path || m.chunk.index != last.index
      {
        MatchesAreChunks(front, ids, m);
      }
    }
  }

  predicate DistinctPlaces(chunks: seq<CodeChunk>) {
    forall i, j :: 0 <= i < j < |chunks| ==> chunks[i].path != chunks[j].path || chunks[i].index != chunks[j].index
  }

  /** The condition that chunkers establish: one name per symbol is enough. */
  lemma NamedAlikeIsEnough(chunks: seq<CodeChunk>, ids: Identifiers)
    requires NamedAlike(chunks)
    ensures FirstHasBestTier(Matches(chunks, ids))
  {
    hide Matches, SymbolOf, FirstInFile;
    var ms := Matches(chunks, ids);
    forall m, o | m in ms && o in ms && SymbolOf(m.chunk) == SymbolOf(o.chunk) && FirstInFile(m, ms)
      ensures m.tier <= o.tier
    {
      MatchesAreChunks(chunks, ids, m);
      MatchesAreChunks(chunks, ids, o);
      var i :| 0 <= i < |chunks| && chunks[i] == m.chunk;
      var j :| 0 <= j < |chunks| && chunks[j] == o.chunk;
    }
  }

  // -------------------------------------------------------------------------- projection

  /** The first evidence of a symbol. */
  function BestEvidence(evidence: seq<CodeChunk>, symbol: SymbolId): Option<CodeChunk> {
    if evidence == [] then None
    else if SymbolOf(evidence[0]) == symbol && symbol.name != "" then Some(evidence[0])
    else BestEvidence(evidence[1..], symbol)
  }

  function Projected(c: CodeChunk, evidence: seq<CodeChunk>): CodeChunk {
    match BestEvidence(evidence, SymbolOf(c))
    case None => c
    case Some(best) => best
  }

  /** The first evidence with the chunk's file and name takes its place; without any it stays. */
  lemma {:induction false} ProjectedIs(c: CodeChunk, evidence: seq<CodeChunk>, i: nat)
    requires i <= |evidence|
    requires forall k :: 0 <= k < i ==> SymbolOf(evidence[k]) != SymbolOf(c) || SymbolOf(c).name == ""
    ensures i < |evidence| && SymbolOf(evidence[i]) == SymbolOf(c) && SymbolOf(c).name != "" ==>
              Projected(c, evidence) == evidence[i]
    ensures i == |evidence| ==> Projected(c, evidence) == c
  {
    hide SymbolOf;
    if i > 0 {
      ProjectedIs(c, evidence[1..], i - 1);
    }
  }

  method SelectEvidenceBackedFragments(results: seq<SymbolResult>, evidence: seq<CodeChunk>)
    returns (selected: seq<SymbolResult>)
    ensures |selected| == |results|
    ensures forall i :: 0 <= i < |results| ==>
              selected[i] == results[i].(chunk := Projected(results[i].chunk, evidence))
  {
    hide SymbolOf;
    var best: map<SymbolId, CodeChunk> := map[];
    for i := 0 to |evidence|
      invariant forall s :: (s in best <==> BestEvidence(evidence[..i], s).Some?)
      invariant forall s :: s in best ==> BestEvidence(evidence[..i], s) == Some(best[s])
    {
      forall s
        ensures BestEvidence(evidence[..i + 1], s)
                == if BestEvidence(evidence[..i], s).Some? then BestEvidence(evidence[..i], s)
                   else if SymbolOf(evidence[i]) == s && s.name != "" then Some(evidence[i]) else None
      {
        EvidenceSnoc(evidence[..i], evidence[i], s);
        assert evidence[..i + 1] == evidence[..i] + [evidence[i]];
      }
      var symbol := SymbolOf(evidence[i]);
      if symbol.name != "" && symbol !in best {
        best := best[symbol := evidence[i]];
      }
    }
    assert evidence[..|evidence|] == evidence;
    selected := [];
    for i := 0 to |results|
      invariant |selected| == i
      invariant forall j :: 0 <= j < i ==> selected[j] == results[j].(chunk := Projected(results[j].chunk, evidence))
    {
      var symbol := SymbolOf(results[i].chunk);
      selected := selected + [results[i].(chunk := if symbol in best then best[symbol] else results[i].chunk)];
    }
  }

  lemma {:induction false} EvidenceSnoc(evidence: seq<CodeChunk>, last: CodeChunk, s: SymbolId)
    ensures BestEvidence(evidence + [last], s)
            == if BestEvidence(evidence, s).Some? then BestEvidence(evidence, s)
               else if SymbolOf(last) == s && s.name != "" then Some(last) else None
  {
    hide SymbolOf;
    if evidence == [] {
      assert [last][1..] == [];
    } else {
      assert (evidence + [last])[1..] == evidence[1..] + [last];
      EvidenceSnoc(evidence[1..], last, s);
    }
  }

  lemma {:induction false} EvidenceIsOfSymbol(evidence: seq<CodeChunk>, s: SymbolId)
    requires BestEvidence(evidence, s).Some?
    ensures SymbolOf(BestEvidence(evidence, s).value) == s && BestEvidence(evidence, s).value in evidence
  {
    if !(SymbolOf(evidence[0]) == s && s.name != "") {
      EvidenceIsOfSymbol(evidence[1..], s);
    }
  }

  lemma ProjectedIsOfSymbol(c: CodeChunk, evidence: seq<CodeChunk>)
    ensures SymbolOf(Projected(c, evidence)) == SymbolOf(c)
    ensures Projected(c, evidence) == c || Projected(c, evidence) in evidence
  {
    hide SymbolOf;
    if BestEvidence(evidence, SymbolOf(c)).Some? {
      EvidenceIsOfSymbol(evidence, SymbolOf(c));
    }
  }

  /** Chunks of one corpus are told apart by their identities. */
  predicate OneCorpus(chunks: set<CodeChunk>) {
    forall a, b :: a in chunks && b in chunks && IdentityOf(a) == IdentityOf(b) ==> a == b
  }

  /** Projection keeps symbols apart, so fusion meets no identity twice in the symbol ranking. */
  lemma ProjectionKeepsIdentitiesDistinct(results: seq<CodeChunk>, evidence: seq<CodeChunk>, corpus: set<CodeChunk>,
                                          i: nat, j: nat)
    requires OneCorpus(corpus)
    requires (forall c :: c in results ==> c in corpus) && forall c :: c in evidence ==> c in corpus
    requires forall k, l :: 0 <= k < l < |results| ==> SymbolOf(results[k]) != SymbolOf(results[l])
    requires i < j < |results|
    ensures IdentityOf(Projected(results[i], evidence)) != IdentityOf(Projected(results[j], evidence))
  {
    hide SymbolOf, Projected, IdentityOf;
    ProjectedIsOfSymbol(results[i], evidence);
    ProjectedIsOfSymbol(results[j], evidence);
  }
}
