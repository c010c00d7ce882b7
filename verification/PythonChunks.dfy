/** The chunks of a Python file: the parts of its units in order, or line windows if it does not parse. */
module PythonChunks {
  import opened Lines
  import opened StructuralChunker
  import opened StructuralUnits
  import opened Text
  import opened Wrappers
  import LineChunker

  datatype Tag = Whole(kind: UnitKind) | Fragment(index: nat, count: nat) | LineFallback

  datatype Chunk = Chunk(startLine: nat, endLine: nat, content: string, index: nat, tag: Tag,
                         symbol: Option<string>, qualified: Option<string>, parent: Option<string>)

  predicate HasText(parts: seq<Part>) {
    exists i :: 0 <= i < |parts| && !Blank(parts[i].content)
  }

  /** Part `k` of a unit as the file's chunk number `index`; fragments are counted from one. */
  function PartChunk(unit: Unit, parts: seq<Part>, k: nat, index: nat): Chunk
    requires k < |parts|
  {
    Chunk(parts[k].startLine, parts[k].endLine, parts[k].content, index,
          if |parts| > 1 then Fragment(k + 1, |parts|) else Whole(unit.kind), unit.symbol, unit.qualified, unit.parent)
  }

  function UnitChunks(unit: Unit, parts: seq<Part>, index: nat): seq<Chunk> {
    seq(|parts|, k requires 0 <= k < |parts| => PartChunk(unit, parts, k, index + k))
  }

  /** The chunks of units cut into parts; a unit of blank lines has none. */
  function ChunksOf(units: seq<Unit>, lists: seq<seq<Part>>): seq<Chunk>
    requires |units| == |lists|
  {
    if units == [] then []
    else
      var last := |units| - 1;
      var before := ChunksOf(units[..last], lists[..last]);
      before + if HasText(lists[last]) then UnitChunks(units[last], lists[last], |before|) else []
  }

  predicate InBounds(units: seq<Unit>, lineCount: nat) {
    forall i :: 0 <= i < |units| ==> 1 <= units[i].start <= units[i].end <= lineCount
  }

  /** Every part that is not a unit's last stops at the last statement end the caps allow. */
  ghost predicate WellCut(parts: seq<Part>, lines: seq<string>, unit: Unit, config: Config)
    requires 1 <= unit.start <= unit.end <= |lines|
  {
    exists pieces, cuts ::
      && PiecesOf(pieces, lines, unit.start, unit.end, config.maxChars)
      && Cuts(parts, cuts, pieces, unit.breaks, config) && cuts[|parts|] == |pieces|
  }

  ghost predicate AllParts(units: seq<Unit>, lists: seq<seq<Part>>, lines: seq<string>, config: Config)
    requires InBounds(units, |lines|)
  {
    && |lists| == |units|
    && forall i :: 0 <= i < |units| ==>
         PartsOf(lists[i], lines, units[i], config) && WellCut(lists[i], lines, units[i], config)
  }

  function UnitsOfModule(defs: seq<Def>, lineCount: nat): seq<Unit> {
    Tiled(defs, 1, lineCount, ModuleGap(1, lineCount), None)
  }

  lemma {:induction false} DeclaredInBounds(defs: seq<Def>, first: int, last: int, outer: Scope, target: Def,
                                            scope: Scope)
    requires Ordered(defs, first, last) && DeclaresInside(defs, outer, target, scope)
    ensures first <= target.start && target.end <= last
    decreases defs
  {
    if Declares(defs[0], outer, target, scope) {
      var d := defs[0];
      if !(d == target && outer == scope) {
        DeclaredInBounds(d.inner, d.start, d.end, Inside(d, outer), target, scope);
      }
    } else {
      DeclaredInBounds(defs[1..], defs[0].end + 1, last, outer, target, scope);
    }
  }

  lemma UnitsAreInBounds(defs: seq<Def>, lineCount: nat)
    requires Ordered(defs, 1, lineCount)
    ensures InBounds(UnitsOfModule(defs, lineCount), lineCount)
  {
    hide Tiled, Ordered, DeclaresInside;
    var units := UnitsOfModule(defs, lineCount);
    forall i | 0 <= i < |units|
      ensures 1 <= units[i].start <= units[i].end <= lineCount
    {
      var gap, target, scope := UnitOfRowIsNamed(defs, 1, lineCount, ModuleGap(1, lineCount), None, units[i]);
      if !gap {
        DeclaredInBounds(defs, 1, lineCount, Scope(None, false), target, scope);
      }
    }
  }

  function AsFallback(c: LineChunker.Chunk): Chunk {
    Chunk(c.startLine, c.endLine, c.content, c.index, LineFallback, None, None, None)
  }

  /** Source that does not parse is cut into line windows. */
  method FallbackChunks(text: string, config: Config) returns (chunks: seq<Chunk>, windows: seq<LineChunker.Chunk>)
    requires config.Valid()
    ensures LineChunker.Covers(windows, SplitLines(text), config, |SplitLines(text)|)
    ensures LineChunker.Reassembled(windows) == text
    ensures |chunks| == |windows| && forall i :: 0 <= i < |chunks| ==> chunks[i] == AsFallback(windows[i])
    ensures forall i :: 0 <= i < |chunks| ==>
              && chunks[i].content == windows[i].content && chunks[i].index == windows[i].index
              && chunks[i].startLine == windows[i].startLine && chunks[i].endLine == windows[i].endLine
              && chunks[i].tag.LineFallback? && chunks[i].symbol.None? && chunks[i].qualified.None?
  {
    hide LineChunker.Covers, LineChunker.Reassembled, LineChunker.ClassicFits, SplitLines;
    var found := LineChunker.LineChunks(text, config);
    windows := found;
    chunks := [];
    for i := 0 to |found|
      invariant |chunks| == i && forall j :: 0 <= j < i ==> chunks[j] == AsFallback(found[j])
    {
      chunks := chunks + [AsFallback(found[i])];
    }
  }

  /** Source that parses is cut along its definitions. */
  method ParsedChunks(text: string, defs: seq<Def>, config: Config)
    returns (chunks: seq<Chunk>, lists: seq<seq<Part>>)
    requires config.Valid() && Ordered(defs, 1, |SplitLines(text)|)
    ensures var lines := SplitLines(text);
            var units := UnitsOfModule(defs, |lines|);
            InBounds(units, |lines|) && AllParts(units, lists, lines, config) && chunks == ChunksOf(units, lists)
    ensures forall i :: 0 <= i < |chunks| ==>
              ShowsOneOf(chunks, i, UnitsOfModule(defs, |SplitLines(text)|), SplitLines(text))
  {
    hide ShowsOneOf, SplitLines, Tiled, Ordered, PartsOf, PiecesOf, CutAt;
    var lines := SplitLines(text);
    LinesAreNotEmpty(text);
    var units := ModuleUnits(defs, |lines|);
    UnitsAreInBounds(defs, |lines|);
    chunks, lists := [], [];
    assert units[..0] == [];
    for i := 0 to |units|
      invariant |lists| == i
      invariant forall j :: 0 <= j < i ==>
                  PartsOf(lists[j], lines, units[j], config) && WellCut(lists[j], lines, units[j], config)
      invariant chunks == ChunksOf(units[..i], lists)
    {
      var parts, pieces, cuts := BoundedParts(lines, units[i], config);
      assert WellCut(parts, lines, units[i], config);
      assert units[..i + 1][..i] == units[..i] && (lists + [parts])[..i] == lists;
      lists := lists + [parts];
      if HasText(parts) {
        var more := NumberedParts(units[i], parts, |chunks|);
        chunks := chunks + more;
      } else {
        chunks := chunks + [];
      }
    }
    assert units[..|units|] == units;
    forall i | 0 <= i < |chunks|
      ensures ShowsOneOf(chunks, i, units, lines)
    {
      ChunkShowsUnit(lines, units, lists, config, i);
    }
  }

  method NumberedParts(unit: Unit, parts: seq<Part>, index: nat) returns (chunks: seq<Chunk>)
    ensures chunks == UnitChunks(unit, parts, index)
  {
    chunks := [];
    for k := 0 to |parts|
      invariant |chunks| == k && forall j :: 0 <= j < k ==> chunks[j] == PartChunk(unit, parts, j, index + j)
    {
      chunks := chunks + [PartChunk(unit, parts, k, index + k)];
    }
  }

  lemma LinesAreNotEmpty(text: string)
    ensures forall i :: 0 <= i < |SplitLines(text)| ==> SplitLines(text)[i] != ""
  {
    SplitIsExact(text);
    assert forall i :: 0 <= i < |SplitLines(text)| ==> IsLine(SplitLines(text)[i]);
  }

  // --------------------------------------------------------------------- what chunks promise

  /** Chunk `i` is part `k` of unit `u`, and the other parts of that unit stand around it. */
  lemma {:induction false} ChunkOrigin(units: seq<Unit>, lists: seq<seq<Part>>, i: nat) returns (u: nat, k: nat)
    requires |units| == |lists| && i < |ChunksOf(units, lists)|
    ensures u < |units| && k < |lists[u]| && HasText(lists[u])
    ensures k <= i && i - k + |lists[u]| <= |ChunksOf(units, lists)|
    ensures forall p :: i - k <= p < i - k + |lists[u]| ==>
              ChunksOf(units, lists)[p] == PartChunk(units[u], lists[u], p - (i - k), p)
  {
    hide HasText, PartChunk;
    var last := |units| - 1;
    var before := ChunksOf(units[..last], lists[..last]);
    var chunks := ChunksOf(units, lists);
    if i < |before| {
      u, k := ChunkOrigin(units[..last], lists[..last], i);
      assert forall p :: 0 <= p < |before| ==> chunks[p] == before[p];
    } else {
      u, k := last, i - |before|;
      assert forall p :: |before| <= p < |chunks| ==> chunks[p] == PartChunk(units[u], lists[u], p - |before|, p);
    }
  }

  lemma {:induction false} PartIsChunk(units: seq<Unit>, lists: seq<seq<Part>>, u: nat, k: nat) returns (i: nat)
    requires |units| == |lists| && u < |units| && k < |lists[u]| && HasText(lists[u])
    ensures i < |ChunksOf(units, lists)| && ChunksOf(units, lists)[i] == PartChunk(units[u], lists[u], k, i)
  {
    hide HasText, PartChunk;
    var last := |units| - 1;
    var before := ChunksOf(units[..last], lists[..last]);
    if u < last {
      i := PartIsChunk(units[..last], lists[..last], u, k);
    } else {
      i := |before| + k;
    }
  }

  /** Parts whose ranges run on from each other miss no line between the first and the last. */
  lemma {:induction false} LineIsInPart(parts: seq<Part>, line: int) returns (k: nat)
    requires parts != [] && parts[0].startLine <= line <= parts[|parts| - 1].endLine
    requires forall i :: 0 < i < |parts| ==> parts[i].startLine <= parts[i - 1].endLine + 1
    ensures k < |parts| && parts[k].startLine <= line <= parts[k].endLine
  {
    if line >= parts[|parts| - 1].startLine {
      k := |parts| - 1;
    } else {
      assert parts[..|parts| - 1][|parts| - 2] == parts[|parts| - 2];
      k := LineIsInPart(parts[..|parts| - 1], line);
    }
  }

  lemma {:induction false} BlankTogether(texts: seq<string>)
    requires forall i :: 0 <= i < |texts| ==> Blank(texts[i])
    ensures Blank(Concat(texts))
  {
    if texts != [] {
      BlankTogether(texts[1..]);
    }
  }

  lemma TextInside(lines: seq<string>, start: nat, end: nat, line: nat)
    requires 1 <= start <= line <= end <= |lines| && !Blank(lines[line - 1])
    ensures !Blank(Concat(lines[start - 1..end]))
  {
    var slice := lines[start - 1..end];
    assert slice[line - start] == lines[line - 1];
    if Blank(Concat(slice)) {
      BlankApart(slice, line - start);
    }
  }

  lemma {:induction false} BlankApart(texts: seq<string>, i: nat)
    requires i < |texts| && Blank(Concat(texts))
    ensures Blank(texts[i])
  {
    var head, rest := texts[0], Concat(texts[1..]);
    assert Concat(texts) == head + rest;
    if i == 0 {
      assert forall j :: 0 <= j < |head| ==> (head + rest)[j] == head[j];
    } else {
      assert forall j :: 0 <= j < |rest| ==> (head + rest)[|head| + j] == rest[j];
      BlankApart(texts[1..], i - 1);
    }
  }

  lemma PartsHaveText(parts: seq<Part>, lines: seq<string>, unit: Unit, config: Config, line: nat)
    requires 1 <= unit.start <= line <= unit.end <= |lines| && PartsOf(parts, lines, unit, config)
    requires !Blank(lines[line - 1])
    ensures HasText(parts)
  {
    hide Blank, Concat;
    TextInside(lines, unit.start, unit.end, line);
    if !HasText(parts) {
      var texts := Contents(parts);
      forall i | 0 <= i < |texts|
        ensures Blank(texts[i])
      {
        assert texts[i] == parts[i].content;
      }
      BlankTogether(texts);
    }
  }

  /** Every line with anything on it is cited by some chunk. */
  lemma NonBlankLineIsShown(lines: seq<string>, defs: seq<Def>, lists: seq<seq<Part>>, config: Config, line: nat)
    returns (i: nat)
    requires Ordered(defs, 1, |lines|) && 1 <= line <= |lines| && !Blank(lines[line - 1])
    requires InBounds(UnitsOfModule(defs, |lines|), |lines|)
    requires AllParts(UnitsOfModule(defs, |lines|), lists, lines, config)
    ensures var chunks := ChunksOf(UnitsOfModule(defs, |lines|), lists);
            i < |chunks| && chunks[i].startLine <= line <= chunks[i].endLine
  {
    hide Tiled, Ordered, ChunksOf, Blank, HasText;
    var units := UnitsOfModule(defs, |lines|);
    ModuleUnitsCoverEveryLine(defs, |lines|, line);
    var u := CountedIsFound(units, line);
    assert PartsOf(lists[u], lines, units[u], config);
    PartsHaveText(lists[u], lines, units[u], config, line);
    var k := LineIsInPart(lists[u], line);
    i := PartIsChunk(units, lists, u, k);
  }

  /** The parts of one unit follow each other as fragments 1 to `count` under one name. */
  ghost predicate FragmentRun(chunks: seq<Chunk>, i: nat)
    requires i < |chunks| && chunks[i].tag.Fragment?
  {
    var Fragment(index, count) := chunks[i].tag;
    && 1 <= index <= count && count > 1 && index - 1 <= i && i - (index - 1) + count <= |chunks|
    && forall p :: i - (index - 1) <= p < i - (index - 1) + count ==>
         && chunks[p].tag == Fragment(p - i + index, count) && chunks[p].symbol == chunks[i].symbol
         && chunks[p].qualified == chunks[i].qualified && chunks[p].parent == chunks[i].parent
  }

  function Texts(chunks: seq<Chunk>): seq<string> {
    seq(|chunks|, i requires 0 <= i < |chunks| => chunks[i].content)
  }

  /** Chunk `i` stands alone or in a run of fragments that, put together, are exactly the lines of one
      unit, from the first line cited to the last, under the unit's names; and not all of it is blank. */
  ghost predicate ShowsUnit(chunks: seq<Chunk>, i: nat, unit: Unit, lines: seq<string>)
    requires i < |chunks|
  {
    && !chunks[i].tag.LineFallback?
    && var first := if chunks[i].tag.Fragment? then i + 1 - chunks[i].tag.index else i;
       var count := if chunks[i].tag.Fragment? then chunks[i].tag.count else 1;
    && 0 <= first <= i < first + count <= |chunks|
    && 1 <= unit.start <= unit.end <= |lines|
    && chunks[first].startLine == unit.start && chunks[first + count - 1].endLine == unit.end
    && Concat(Texts(chunks[first..first + count])) == Concat(lines[unit.start - 1..unit.end])
    && !Blank(Concat(lines[unit.start - 1..unit.end]))
    && (chunks[i].tag.Whole? ==> chunks[i].tag.kind == unit.kind)
    && chunks[i].symbol == unit.symbol && chunks[i].qualified == unit.qualified && chunks[i].parent == unit.parent
  }

  ghost predicate ShowsOneOf(chunks: seq<Chunk>, i: nat, units: seq<Unit>, lines: seq<string>)
    requires i < |chunks|
  {
    exists u :: 0 <= u < |units| && ShowsUnit(chunks, i, units[u], lines)
  }

  /** Every chunk shows a unit of the file, whole or as one of its fragments. */
  lemma ChunkShowsUnit(lines: seq<string>, units: seq<Unit>, lists: seq<seq<Part>>, config: Config, i: nat)
    requires InBounds(units, |lines|) && AllParts(units, lists, lines, config) && i < |ChunksOf(units, lists)|
    ensures ShowsOneOf(ChunksOf(units, lists), i, units, lines)
  {
    hide ChunksOf, WellCut, Blank, Concat, PartsOf;
    var chunks := ChunksOf(units, lists);
    var u, k := ChunkOrigin(units, lists, i);
    assert PartsOf(lists[u], lines, units[u], config);
    RunShowsUnit(chunks, i, k, lists[u], units[u], lines, config);
  }

  lemma RunShowsUnit(chunks: seq<Chunk>, i: nat, k: nat, parts: seq<Part>, unit: Unit, lines: seq<string>,
                     config: Config)
    requires 1 <= unit.start <= unit.end <= |lines| && PartsOf(parts, lines, unit, config) && HasText(parts)
    requires k < |parts| && k <= i < |chunks| && i - k + |parts| <= |chunks|
    requires forall p :: i - k <= p < i - k + |parts| ==> chunks[p] == PartChunk(unit, parts, p - (i - k), p)
    ensures ShowsUnit(chunks, i, unit, lines)
  {
    hide Blank, Concat;
    assert Texts(chunks[i - k..i - k + |parts|]) == Contents(parts);
    assert chunks[i] == PartChunk(unit, parts, k, i);
    assert chunks[i - k] == PartChunk(unit, parts, 0, i - k);
    assert chunks[i - k + |parts| - 1] == PartChunk(unit, parts, |parts| - 1, i - k + |parts| - 1);
    var p :| 0 <= p < |parts| && !Blank(parts[p].content);
    TextAmong(Contents(parts), p);
  }

  lemma TextAmong(texts: seq<string>, p: nat)
    requires p < |texts| && !Blank(texts[p])
    ensures !Blank(Concat(texts))
  {
    if Blank(Concat(texts)) {
      BlankApart(texts, p);
    }
  }

  /** Chunks are numbered in order, keep both caps, and fragments run from one to their count. */
  lemma ChunksAreBounded(lines: seq<string>, units: seq<Unit>, lists: seq<seq<Part>>, config: Config, i: nat)
    requires InBounds(units, |lines|) && AllParts(units, lists, lines, config) && i < |ChunksOf(units, lists)|
    ensures var chunks := ChunksOf(units, lists);
            var c := chunks[i];
            && c.index == i && 1 <= |c.content| <= config.maxChars
            && 0 <= c.endLine - c.startLine < config.maxLines
            && (c.tag.Fragment? ==> FragmentRun(chunks, i))
  {
    hide ChunksOf, HasText, PartsOf, WellCut;
    var u, k := ChunkOrigin(units, lists, i);
    assert ChunksOf(units, lists)[i] == PartChunk(units[u], lists[u], k, i);
    PartWithinCaps(lines, units, lists, config, u, k);
  }

  lemma PartWithinCaps(lines: seq<string>, units: seq<Unit>, lists: seq<seq<Part>>, config: Config, u: nat, k: nat)
    requires InBounds(units, |lines|) && AllParts(units, lists, lines, config) && u < |units| && k < |lists[u]|
    ensures var part := lists[u][k];
            1 <= |part.content| <= config.maxChars && 0 <= part.endLine - part.startLine < config.maxLines
  {
    hide WellCut;
    assert PartsOf(lists[u], lines, units[u], config);
  }
}
