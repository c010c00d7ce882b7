/** Symbol search over an indexed repository, where the chunkers have named every chunk. */
module IndexedSymbols {
  import opened Chunks
  import opened Lines
  import opened Sorting
  import opened StructuralUnits
  import opened Symbols
  import opened Wrappers
  import LineChunker
  import P = PythonChunks
  import S = StructuralChunker

  // ------------------------------------------------------------------------------- names

  /** A name as a definition can have it. */
  predicate IsIdentifier(name: string) {
    name != "" && '.' !in name
  }

  /** `name` is what follows the last dot of `qualified`. */
  ghost predicate IsLastName(qualified: string, name: string) {
    IsIdentifier(name) && (qualified == name || exists scope :: qualified == Qualified(Some(scope), name))
  }

  lemma LastNameIsUnique(qualified: string, a: string, b: string)
    requires IsLastName(qualified, a) && IsLastName(qualified, b)
    ensures a == b
  {
    hide IsLastName;
    LastNameIsSuffix(qualified, a);
    LastNameIsSuffix(qualified, b);
    if |a| > |b| {
      DotBefore(qualified, b, |a|);
    } else if |b| > |a| {
      DotBefore(qualified, a, |b|);
    }
  }

  lemma LastNameIsSuffix(qualified: string, name: string)
    requires IsLastName(qualified, name)
    ensures |name| <= |qualified| && qualified[|qualified| - |name|..] == name && '.' !in name
  {
  }

  /** Any longer end of a qualified name takes in the dot before the last name. */
  lemma DotBefore(qualified: string, name: string, n: nat)
    requires IsLastName(qualified, name) && |name| < n <= |qualified|
    ensures '.' in qualified[|qualified| - n..]
  {
    var scope :| qualified == Qualified(Some(scope), name);
    var end := qualified[|qualified| - n..];
    assert end[n - 1 - |name|] == qualified[|scope|] == '.';
  }

  /** A chunk without a symbol, or with one that its qualified name ends in. */
  ghost predicate Labelled(symbol: Option<string>, qualified: Option<string>) {
    if symbol.None? then qualified.None? else qualified.Some? && IsLastName(qualified.value, symbol.value)
  }

  lemma LabelledAreNamedAlike(chunks: seq<CodeChunk>)
    requires forall c :: c in chunks ==> Labelled(c.symbol, c.qualified)
    ensures NamedAlike(chunks)
  {
    hide IsLastName;
    forall i, j | 0 <= i < |chunks| && 0 <= j < |chunks| && SymbolOf(chunks[i]) == SymbolOf(chunks[j])
      ensures chunks[i].symbol == chunks[j].symbol && chunks[i].qualified == chunks[j].qualified
    {
      var a, b := chunks[i], chunks[j];
      assert a in chunks && b in chunks;
      LabelledIsNotEmpty(a.symbol, a.qualified);
      LabelledIsNotEmpty(b.symbol, b.qualified);
      if a.symbol.Some? && b.symbol.Some? {
        LastNameIsUnique(a.qualified.value, a.symbol.value, b.symbol.value);
      }
    }
  }

  lemma LabelledIsNotEmpty(symbol: Option<string>, qualified: Option<string>)
    requires Labelled(symbol, qualified)
    ensures qualified.Some? ==> qualified.value != ""
  {
  }

  // ------------------------------------------------------------------------- indexed files

  datatype IndexedFile = IndexedFile(path: string, language: Option<string>, chunks: seq<P.Chunk>)

  /** Every definition of a file is named by an identifier. */
  ghost predicate NamesAreIdentifiers(defs: seq<Def>) {
    forall target, scope :: DeclaresInside(defs, Scope(None, false), target, scope) ==> IsIdentifier(target.name)
  }

  /** What chunking a file that parses leaves, as `PythonChunks.ParsedChunks` promises it. */
  ghost predicate FromDefinitions(chunks: seq<P.Chunk>, text: string, defs: seq<Def>, config: S.Config) {
    var lines := SplitLines(text);
    var units := P.UnitsOfModule(defs, |lines|);
    && Ordered(defs, 1, |lines|) && NamesAreIdentifiers(defs) && P.InBounds(units, |lines|)
    && exists lists ::
         P.AllParts(units, lists, lines, config) && |lists| == |units| && chunks == P.ChunksOf(units, lists)
  }

  /** What chunking any other file leaves, as `PythonChunks.FallbackChunks` promises it. */
  ghost predicate FromWindows(chunks: seq<P.Chunk>, text: string, config: S.Config) {
    config.Valid() && exists windows ::
      && LineChunker.Covers(windows, SplitLines(text), config, |SplitLines(text)|)
      && |chunks| == |windows| && forall i :: 0 <= i < |chunks| ==> chunks[i] == P.AsFallback(windows[i])
  }

  ghost predicate Chunked(file: IndexedFile) {
    || (exists text, config :: FromWindows(file.chunks, text, config))
    || (exists text, defs, config :: FromDefinitions(file.chunks, text, defs, config))
  }

  /** What the properties below need of a chunked file. */
  ghost predicate WellLabelled(chunks: seq<P.Chunk>) {
    forall i :: 0 <= i < |chunks| ==> chunks[i].index == i && Labelled(chunks[i].symbol, chunks[i].qualified)
  }

  lemma DefinitionsLabel(chunks: seq<P.Chunk>, text: string, defs: seq<Def>, config: S.Config)
    requires FromDefinitions(chunks, text, defs, config)
    ensures WellLabelled(chunks)
  {
    hide P.ChunksOf, P.HasText, P.InBounds, P.AllParts, SplitLines, Tiled, Ordered, IsLastName;
    var lines := SplitLines(text);
    var units := P.UnitsOfModule(defs, |lines|);
    var lists :|
      P.AllParts(units, lists, lines, config) && |lists| == |units| && chunks == P.ChunksOf(units, lists);
    forall i | 0 <= i < |chunks|
      ensures chunks[i].index == i && Labelled(chunks[i].symbol, chunks[i].qualified)
    {
      var u, k := P.ChunkOrigin(units, lists, i);
      assert chunks[i] == P.PartChunk(units[u], lists[u], k, i);
      UnitIsLabelled(defs, |lines|, units[u]);
    }
  }

  lemma UnitIsLabelled(defs: seq<Def>, lineCount: nat, u: Unit)
    requires Ordered(defs, 1, lineCount) && NamesAreIdentifiers(defs) && u in P.UnitsOfModule(defs, lineCount)
    ensures Labelled(u.symbol, u.qualified)
  {
    hide Tiled, Ordered, DeclaresInside;
    var gap, target, scope := UnitOfRowIsNamed(defs, 1, lineCount, ModuleGap(1, lineCount), None, u);
    if !gap && scope.name.Some? {
      assert u.qualified.value == Qualified(Some(scope.name.value), target.name);
    }
  }

  lemma ChunkedIsLabelled(file: IndexedFile)
    requires Chunked(file)
    ensures WellLabelled(file.chunks)
  {
    hide FromDefinitions, SplitLines;
    if text, defs, config :| FromDefinitions(file.chunks, text, defs, config) {
      DefinitionsLabel(file.chunks, text, defs, config);
    }
  }

  // -------------------------------------------------------------------------- the repository

  /** A chunk as it is stored. */
  function Stored(file: IndexedFile, c: P.Chunk): CodeChunk {
    CodeChunk(file.path, file.language, c.startLine, c.endLine, c.content, c.index,
              if c.tag.LineFallback? then "line_v1" else "python_ast_v1",
              match c.tag
              case LineFallback => LineWindow
              case Whole(_) => Structural
              case Fragment(_, _) => StructuralFragment,
              c.symbol, c.qualified)
  }

  function StoredFile(file: IndexedFile): seq<CodeChunk> {
    seq(|file.chunks|, i requires 0 <= i < |file.chunks| => Stored(file, file.chunks[i]))
  }

  function StoredChunks(files: seq<IndexedFile>): seq<CodeChunk> {
    if files == [] then [] else StoredChunks(files[..|files| - 1]) + StoredFile(files[|files| - 1])
  }

  /** An index: chunked files with different paths. */
  ghost predicate Indexed(files: seq<IndexedFile>) {
    && (forall f :: f in files ==> Chunked(f))
    && forall i, j :: 0 <= i < j < |files| ==> files[i].path != files[j].path
  }

  lemma {:induction false} StoredChunksAreApart(files: seq<IndexedFile>)
    requires Indexed(files)
    ensures DistinctPlaces(StoredChunks(files))
    ensures forall c :: c in StoredChunks(files) ==>
              Labelled(c.symbol, c.qualified) && exists f :: f in files && f.path == c.path
  {
    hide Chunked, Labelled;
    if files != [] {
      var front, last := files[..|files| - 1], files[|files| - 1];
      assert files == front + [last];
      StoredChunksAreApart(front);
      ChunkedIsLabelled(last);
      forall c | c in StoredChunks(front)
        ensures c.path != last.path
      {
        var f :| f in front && f.path == c.path;
      }
      Appended(StoredChunks(front), StoredFile(last), last.path);
    }
  }

  lemma Appended(before: seq<CodeChunk>, more: seq<CodeChunk>, path: string)
    requires DistinctPlaces(before) && forall c :: c in before ==> c.path != path
    requires forall i :: 0 <= i < |more| ==> more[i].path == path && more[i].index == i
    ensures DistinctPlaces(before + more)
  {
    forall i, j | 0 <= i < j < |before + more|
      ensures (before + more)[i].path != (before + more)[j].path || (before + more)[i].index != (before + more)[j].index
    {
      if i < |before| {
        assert before[i] in before;
      }
    }
  }

  /** Over an indexed repository the two searches give the same answer, whatever the query and limit. */
  lemma IndexedSearchIsQuery(files: seq<IndexedFile>, ids: Identifiers, sorted: seq<Match>, rows: seq<Match>,
                             limit: nat)
    requires Indexed(files)
    requires SortedBy(sorted, MATCH_ORDER) && multiset(sorted) == multiset(Matches(StoredChunks(files), ids))
    requires QueryRows(rows, Matches(StoredChunks(files), ids))
    ensures Numbered(FirstPerSymbol(sorted), limit) == Numbered(rows, limit)
  {
    hide Indexed, StoredChunks, Matches, SortedBy, QueryRows, DistinctPlaces, Labelled, NamedAlike, FirstHasBestTier,
      Numbered, FirstPerSymbol, DistinctPositions, SymbolsOf;
    var chunks := StoredChunks(files);
    StoredChunksAreApart(files);
    MatchesApart(chunks, ids);
    LabelledAreNamedAlike(chunks);
    NamedAlikeIsEnough(chunks, ids);
    SearchIsQueryExactly(Matches(chunks, ids), sorted, rows);
  }
}
