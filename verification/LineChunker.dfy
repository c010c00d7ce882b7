/** Line windows with overlap, bounded by lines and by characters. */
module LineChunker {
  import opened Arith
  import opened Lines

  datatype Config = Config(maxLines: nat, overlapLines: nat, maxChars: nat)
  {
    predicate Valid() {
      maxLines > 0 && overlapLines < maxLines && maxChars > 0
    }
  }

  /** Line numbers are 1-based and inclusive. */
  datatype Chunk = Chunk(startLine: nat, endLine: nat, content: string, index: nat)

  function Window(lines: seq<string>, start: nat, end: nat, index: nat): Chunk
    requires start <= end <= |lines|
  {
    Chunk(start + 1, end, Concat(lines[start..end]), index)
  }

  ghost function Chars(lines: seq<string>, a: nat, b: nat): nat
    requires a <= b <= |lines|
  {
    |Concat(lines[a..b])|
  }

  lemma CharsNext(lines: seq<string>, a: nat, b: nat)
    requires a <= b < |lines|
    ensures Chars(lines, a, b + 1) == Chars(lines, a, b) + |lines[b]|
  {
    assert lines[a..b + 1] == lines[a..b] + [lines[b]];
    ConcatSnoc(lines[a..b], lines[b]);
  }

  lemma CharsFirst(lines: seq<string>, a: nat, b: nat)
    requires a < b <= |lines|
    ensures Chars(lines, a, b) == |lines[a]| + Chars(lines, a + 1, b)
  {
    assert lines[a..b][1..] == lines[a + 1..b];
  }

  lemma {:induction false} CharsMonotone(lines: seq<string>, a: nat, b: nat, c: nat)
    requires a <= b <= c <= |lines|
    ensures Chars(lines, a, b) <= Chars(lines, a, c) && Chars(lines, b, c) <= Chars(lines, a, c)
  {
    assert lines[a..c] == lines[a..b] + lines[b..c];
    ConcatAppend(lines[a..b], lines[b..c]);
  }

  // ------------------------------------------------------------------ what a chunk list means

  /** The longest window from `start` within both caps. */
  ghost predicate IsWindowEnd(lines: seq<string>, start: nat, config: Config, end: nat) {
    && start <= end <= |lines| && end - start <= config.maxLines
    && Chars(lines, start, end) <= config.maxChars
    && (end == |lines| || end - start == config.maxLines || Chars(lines, start, end + 1) > config.maxChars)
  }

  /** The largest overlap up to `share` that leaves room for the next new line. */
  ghost predicate IsOverlap(lines: seq<string>, end: nat, share: nat, config: Config, overlap: nat)
    requires end < |lines| && share <= end
  {
    && overlap <= share
    && (overlap > 0 ==> Chars(lines, end - overlap, end + 1) <= config.maxChars)
    && (overlap < share ==> Chars(lines, end - overlap - 1, end + 1) > config.maxChars)
  }

  /** A window cut short keeps the configured share of its lines, rounded down. */
  function ShareOf(windowLines: nat, config: Config): nat
    requires config.Valid()
  {
    windowLines * config.overlapLines / config.maxLines
  }

  /** As many whole lines from the first as both caps allow. */
  ghost predicate IsWindow(c: Chunk, lines: seq<string>, config: Config) {
    && 1 <= c.startLine <= c.endLine <= |lines|
    && IsWindowEnd(lines, c.startLine - 1, config, c.endLine)
    && c.content == Concat(lines[c.startLine - 1..c.endLine])
  }

  /** One of several pieces of a line that alone exceeds the character cap. */
  predicate IsPiece(c: Chunk, lines: seq<string>, config: Config) {
    1 <= c.startLine == c.endLine <= |lines| && |lines[c.startLine - 1]| > config.maxChars
  }

  ghost predicate ChunkOk(c: Chunk, lines: seq<string>, config: Config) {
    (IsWindow(c, lines, config) || IsPiece(c, lines, config)) && 1 <= |c.content| <= config.maxChars
  }

  /** Where the line after chunk `c` is taken up: after an oversized line at the next line, after a
      window as far back as its share and the room for the next line allow. */
  ghost predicate StartsAfter(c: Chunk, start: nat, lines: seq<string>, config: Config)
    requires config.Valid()
  {
    && start <= c.endLine < |lines|
    && if IsPiece(c, lines, config) then start == c.endLine
       else
         && c.startLine <= c.endLine && ShareOf(c.endLine + 1 - c.startLine, config) <= c.endLine
         && IsOverlap(lines, c.endLine, ShareOf(c.endLine + 1 - c.startLine, config), config, c.endLine - start)
  }

  /** A later chunk reaches a line no earlier one does, unless both are pieces of one line; it
      repeats what the rule above says, and never more than the configured overlap. */
  ghost predicate Follows(c: Chunk, d: Chunk, lines: seq<string>, config: Config)
    requires config.Valid()
  {
    || (c.endLine < d.endLine && 1 <= d.startLine && StartsAfter(c, d.startLine - 1, lines, config)
        && c.endLine + 1 - d.startLine <= config.overlapLines)
    || (c.endLine == d.endLine && IsPiece(c, lines, config) && IsPiece(d, lines, config))
  }

  /** What a chunk adds once lines up to `seen` are known. */
  function NewText(c: Chunk, seen: nat): string {
    if c.endLine <= seen then c.content
    else
      var lines := SplitLines(c.content);
      var repeated := if seen + 1 < c.startLine then 0 else seen + 1 - c.startLine;
      Concat(if repeated <= |lines| then lines[repeated..] else [])
  }

  function LastLine(chunks: seq<Chunk>): nat {
    if chunks == [] then 0 else chunks[|chunks| - 1].endLine
  }

  /** The text recovered from chunks alone, by dropping repeated lines. */
  function Reassembled(chunks: seq<Chunk>): string {
    if chunks == [] then ""
    else
      var before := chunks[..|chunks| - 1];
      Reassembled(before) + NewText(chunks[|chunks| - 1], LastLine(before))
  }

  lemma ReassembledSnoc(chunks: seq<Chunk>, c: Chunk)
    ensures Reassembled(chunks + [c]) == Reassembled(chunks) + NewText(c, LastLine(chunks))
  {
    assert (chunks + [c])[..|chunks|] == chunks;
  }

  /** Every chunk is within the caps, numbered from 0, and follows the one before it. */
  ghost predicate Listed(chunks: seq<Chunk>, lines: seq<string>, config: Config)
    requires config.Valid()
  {
    && (forall i :: 0 <= i < |chunks| ==> ChunkOk(chunks[i], lines, config) && chunks[i].index == i)
    && (forall i :: 0 < i < |chunks| ==> Follows(chunks[i - 1], chunks[i], lines, config))
    && (chunks != [] ==> chunks[0].startLine == 1)
  }

  lemma ListedSnoc(chunks: seq<Chunk>, lines: seq<string>, config: Config, c: Chunk)
    requires config.Valid() && Listed(chunks, lines, config) && ChunkOk(c, lines, config) && c.index == |chunks|
    requires chunks == [] ==> c.startLine == 1
    requires chunks != [] ==> Follows(chunks[|chunks| - 1], c, lines, config)
    ensures Listed(chunks + [c], lines, config)
  {
  }

  function Contents(chunks: seq<Chunk>): seq<string> {
    seq(|chunks|, i requires 0 <= i < |chunks| => chunks[i].content)
  }

  ghost predicate PieceRun(chunks: seq<Chunk>, i: nat, lines: seq<string>, config: Config)
    requires config.Valid() && i < |chunks| && 1 <= chunks[i].startLine <= |lines|
  {
    exists first: nat, last: nat ::
      first <= i < last && PieceRunAt(chunks, chunks[i].startLine, lines, config, first, last)
  }

  /** Around a piece stand all the pieces of its line: as few as the cap allows, nearly equal, and
      together the line. */
  ghost predicate PieceRunAt(chunks: seq<Chunk>, line: nat, lines: seq<string>, config: Config, first: nat, last: nat)
    requires config.Valid() && 1 <= line <= |lines|
  {
    && first <= last <= |chunks|
    && (forall k :: first <= k < last ==> chunks[k].startLine == chunks[k].endLine == line)
    && Pieces(Contents(chunks[first..last]), lines[line - 1], config.maxChars)
  }

  ghost predicate PiecesAreRuns(chunks: seq<Chunk>, lines: seq<string>, config: Config)
    requires config.Valid()
  {
    forall i :: 0 <= i < |chunks| && IsPiece(chunks[i], lines, config) ==> PieceRun(chunks, i, lines, config)
  }

  lemma RunKept(chunks: seq<Chunk>, more: seq<Chunk>, i: nat, lines: seq<string>, config: Config)
    requires config.Valid() && i < |chunks| && 1 <= chunks[i].startLine <= |lines|
    requires PieceRun(chunks, i, lines, config)
    ensures PieceRun(chunks + more, i, lines, config)
  {
    hide Pieces;
    var first: nat, last: nat :|
      first <= i < last && PieceRunAt(chunks, chunks[i].startLine, lines, config, first, last);
    assert (chunks + more)[first..last] == chunks[first..last];
    assert PieceRunAt(chunks + more, chunks[i].startLine, lines, config, first, last);
  }

  /** A window is no piece, so it leaves every run as it was. */
  lemma RunsAfterWindow(chunks: seq<Chunk>, c: Chunk, lines: seq<string>, config: Config)
    requires config.Valid() && PiecesAreRuns(chunks, lines, config) && !IsPiece(c, lines, config)
    ensures PiecesAreRuns(chunks + [c], lines, config)
  {
    hide PieceRun;
    forall i | 0 <= i < |chunks| && IsPiece(chunks[i], lines, config)
      ensures PieceRun(chunks + [c], i, lines, config)
    {
      RunKept(chunks, [c], i, lines, config);
    }
  }

  lemma RunsAfterLine(chunks: seq<Chunk>, own: seq<Chunk>, line: nat, lines: seq<string>, config: Config)
    requires config.Valid() && PiecesAreRuns(chunks, lines, config) && line < |lines|
    requires forall k :: 0 <= k < |own| ==> own[k].startLine == own[k].endLine == line + 1
    requires Pieces(Contents(own), lines[line], config.maxChars)
    ensures PiecesAreRuns(chunks + own, lines, config)
  {
    hide Pieces;
    var all := chunks + own;
    forall i | 0 <= i < |all| && IsPiece(all[i], lines, config)
      ensures PieceRun(all, i, lines, config)
    {
      if i < |chunks| {
        RunKept(chunks, own, i, lines, config);
      } else {
        assert all[|chunks|..|all|] == own;
        assert PieceRunAt(all, line + 1, lines, config, |chunks|, |all|);
      }
    }
  }

  lemma WindowIsNoPiece(lines: seq<string>, start: nat, end: nat, index: nat, config: Config)
    requires start < end <= |lines| && Chars(lines, start, end) <= config.maxChars
    ensures !IsPiece(Window(lines, start, end, index), lines, config)
  {
    CharsFirst(lines, start, end);
  }

  /** Everything promised of the chunks that cover the first `covered` lines. */
  ghost predicate Covers(chunks: seq<Chunk>, lines: seq<string>, config: Config, covered: nat)
    requires config.Valid()
  {
    && covered <= |lines| && Listed(chunks, lines, config)
    && LastLine(chunks) == covered && (covered == 0 ==> chunks == [])
    && Reassembled(chunks) == Concat(lines[..covered])
    && PiecesAreRuns(chunks, lines, config)
  }

  /** Some pieces of line `line` (0-based) have been emitted, together the text `done`. */
  ghost predicate PartlyCovers(chunks: seq<Chunk>, lines: seq<string>, config: Config, line: nat, done: string)
    requires config.Valid()
  {
    && line < |lines| && Listed(chunks, lines, config) && chunks != []
    && chunks[|chunks| - 1].endLine == line + 1 && IsPiece(chunks[|chunks| - 1], lines, config)
    && Reassembled(chunks) == Concat(lines[..line]) + done
  }

  lemma NewTextOfWindow(c: Chunk, lines: seq<string>, covered: nat, start: nat, end: nat)
    requires LinesOfText(lines) && start <= covered < end <= |lines|
    requires c.startLine == start + 1 && c.endLine == end && c.content == Concat(lines[start..end])
    ensures NewText(c, covered) == Concat(lines[covered..end])
  {
    hide LinesOfText, Concat, SplitLines;
    SliceIsLines(lines, start, end);
    assert lines[start..end][covered - start..] == lines[covered..end];
  }

  lemma ReassembledWindow(chunks: seq<Chunk>, lines: seq<string>, covered: nat, c: Chunk, start: nat, end: nat)
    requires LinesOfText(lines) && start <= covered < end <= |lines|
    requires Reassembled(chunks) == Concat(lines[..covered]) && LastLine(chunks) == covered
    requires c.startLine == start + 1 && c.endLine == end && c.content == Concat(lines[start..end])
    ensures Reassembled(chunks + [c]) == Concat(lines[..end])
  {
    NewTextOfWindow(c, lines, covered, start, end);
    ReassembledSnoc(chunks, c);
    ConcatPrefix(lines, covered, end);
  }

  /** The next chunk is to start at line `start` (0-based). */
  ghost predicate NextStartsAt(chunks: seq<Chunk>, start: nat, lines: seq<string>, config: Config)
    requires config.Valid()
  {
    if chunks == [] then start == 0 else StartsAfter(chunks[|chunks| - 1], start, lines, config)
  }

  lemma WindowIsOk(lines: seq<string>, start: nat, end: nat, config: Config, index: nat)
    requires config.Valid() && LinesOfText(lines) && start < end <= |lines| && IsWindowEnd(lines, start, config, end)
    ensures ChunkOk(Window(lines, start, end, index), lines, config)
  {
    CharsFirst(lines, start, end);
  }

  lemma WindowExtendsCover(chunks: seq<Chunk>, lines: seq<string>, config: Config, covered: nat, start: nat, end: nat)
    requires LinesOfText(lines) && config.Valid() && Covers(chunks, lines, config, covered)
    requires start <= covered < end <= |lines| && IsWindowEnd(lines, start, config, end)
    requires NextStartsAt(chunks, start, lines, config) && covered - start <= config.overlapLines
    ensures Covers(chunks + [Window(lines, start, end, |chunks|)], lines, config, end)
  {
    hide StartsAfter, IsPiece, Reassembled, SplitLines, LinesOfText, PiecesAreRuns;
    var c := Window(lines, start, end, |chunks|);
    WindowIsNoPiece(lines, start, end, |chunks|, config);
    RunsAfterWindow(chunks, c, lines, config);
    WindowIsOk(lines, start, end, config, |chunks|);
    ListedSnoc(chunks, lines, config, c);
    ReassembledWindow(chunks, lines, covered, c, start, end);
  }

  lemma NewTextOfPiece(c: Chunk, line: nat)
    requires c.startLine == c.endLine == line + 1
    ensures NewText(c, line) == c.content
  {
    SplitIsExact(c.content);
    assert SplitLines(c.content)[0..] == SplitLines(c.content);
  }

  lemma FirstPieceFollows(chunks: seq<Chunk>, lines: seq<string>, config: Config, line: nat, c: Chunk)
    requires config.Valid() && line < |lines| && |lines[line]| > config.maxChars && 1 <= |c.content| <= config.maxChars
    requires c.startLine == c.endLine == line + 1 && c.index == |chunks| && Covers(chunks, lines, config, line)
    requires NextStartsAt(chunks, line, lines, config)
    ensures Listed(chunks + [c], lines, config)
  {
    ListedSnoc(chunks, lines, config, c);
  }

  lemma FirstPieceText(chunks: seq<Chunk>, c: Chunk, line: nat)
    requires c.startLine == c.endLine == line + 1 && LastLine(chunks) == line
    ensures Reassembled(chunks + [c]) == Reassembled(chunks) + c.content
  {
    NewTextOfPiece(c, line);
    ReassembledSnoc(chunks, c);
  }

  lemma FirstPieceCovers(chunks: seq<Chunk>, lines: seq<string>, config: Config, line: nat, c: Chunk)
    requires config.Valid() && line < |lines| && |lines[line]| > config.maxChars && 1 <= |c.content| <= config.maxChars
    requires c.startLine == c.endLine == line + 1 && c.index == |chunks| && Covers(chunks, lines, config, line)
    requires NextStartsAt(chunks, line, lines, config)
    ensures PartlyCovers(chunks + [c], lines, config, line, c.content)
  {
    hide Reassembled;
    FirstPieceFollows(chunks, lines, config, line, c);
    FirstPieceText(chunks, c, line);
  }

  lemma NextPieceCovers(chunks: seq<Chunk>, lines: seq<string>, config: Config, line: nat, c: Chunk, done: string)
    requires config.Valid() && line < |lines| && |lines[line]| > config.maxChars && 1 <= |c.content| <= config.maxChars
    requires c.startLine == c.endLine == line + 1 && c.index == |chunks|
    requires PartlyCovers(chunks, lines, config, line, done)
    ensures PartlyCovers(chunks + [c], lines, config, line, done + c.content)
  {
    hide Reassembled, NewText, Concat, Listed, StartsAfter, IsWindow;
    NextPieceFollows(chunks, lines, config, line, c);
    NextPieceText(chunks, c);
    AppendTwice(Concat(lines[..line]), done, c.content);
  }

  lemma NextPieceFollows(chunks: seq<Chunk>, lines: seq<string>, config: Config, line: nat, c: Chunk)
    requires config.Valid() && line < |lines| && |lines[line]| > config.maxChars && 1 <= |c.content| <= config.maxChars
    requires c.startLine == c.endLine == line + 1 && c.index == |chunks|
    requires Listed(chunks, lines, config) && chunks != []
    requires chunks[|chunks| - 1].endLine == line + 1 && IsPiece(chunks[|chunks| - 1], lines, config)
    ensures Listed(chunks + [c], lines, config) && IsPiece(c, lines, config)
  {
    hide StartsAfter, IsWindow;
    ListedSnoc(chunks, lines, config, c);
  }

  lemma NextPieceText(chunks: seq<Chunk>, c: Chunk)
    requires chunks != [] && c.endLine == LastLine(chunks)
    ensures Reassembled(chunks + [c]) == Reassembled(chunks) + c.content
  {
    ReassembledSnoc(chunks, c);
  }

  lemma AppendTwice(a: string, b: string, c: string)
    ensures a + (b + c) == a + b + c
  {
  }

  lemma LineFinished(chunks: seq<Chunk>, lines: seq<string>, config: Config, line: nat)
    requires config.Valid() && line < |lines| && PartlyCovers(chunks, lines, config, line, lines[line])
    requires PiecesAreRuns(chunks, lines, config)
    ensures Covers(chunks, lines, config, line + 1)
    ensures line + 1 < |lines| ==> NextStartsAt(chunks, line + 1, lines, config)
  {
    hide PiecesAreRuns;
    ConcatPrefixNext(lines, line);
  }

  // ----------------------------------------------------------------------- the window scan

  method GrowWindow(lines: seq<string>, start: nat, config: Config) returns (end: nat)
    requires start <= |lines|
    ensures IsWindowEnd(lines, start, config, end)
  {
    end := start;
    var chars := 0;
    assert lines[start..start] == [];
    while end < |lines| && end - start < config.maxLines && chars + |lines[end]| <= config.maxChars
      invariant start <= end <= |lines| && end - start <= config.maxLines
      invariant chars == Chars(lines, start, end) <= config.maxChars
    {
      CharsNext(lines, start, end);
      chars := chars + |lines[end]|;
      end := end + 1;
    }
    if end < |lines| {
      CharsNext(lines, start, end);
    }
  }

  method FitOverlap(lines: seq<string>, end: nat, share: nat, config: Config) returns (overlap: nat)
    requires end < |lines| && share <= end
    ensures IsOverlap(lines, end, share, config, overlap)
  {
    overlap := share;
    var nextLineChars := |lines[end]|;
    var overlapChars := |Concat(lines[end - overlap..end])|;
    CharsNext(lines, end - overlap, end);
    while overlap > 0 && overlapChars + nextLineChars > config.maxChars
      invariant 0 <= overlap <= share
      invariant overlapChars == Chars(lines, end - overlap, end)
      invariant overlapChars + nextLineChars == Chars(lines, end - overlap, end + 1)
      invariant overlap < share ==> Chars(lines, end - overlap - 1, end + 1) > config.maxChars
    {
      CharsFirst(lines, end - overlap, end);
      overlapChars := overlapChars - |lines[end - overlap]|;
      overlap := overlap - 1;
      CharsNext(lines, end - overlap, end);
    }
  }

  function ClassicEnd(lines: seq<string>, config: Config, start: nat): nat {
    if start + config.maxLines < |lines| then start + config.maxLines else |lines|
  }

  /** The original scheme without a character cap: windows of maxLines, stepping by the rest. */
  function ClassicChunks(lines: seq<string>, config: Config, start: nat, index: nat): seq<Chunk>
    requires config.Valid() && start < |lines|
    decreases |lines| - start
  {
    var end := ClassicEnd(lines, config, start);
    [Window(lines, start, end, index)]
    + if end == |lines| then [] else ClassicChunks(lines, config, end - config.overlapLines, index + 1)
  }

  ghost predicate ClassicFits(lines: seq<string>, config: Config, start: nat)
    requires config.Valid() && start < |lines|
    decreases |lines| - start
  {
    var end := ClassicEnd(lines, config, start);
    Chars(lines, start, end) <= config.maxChars
    && (end == |lines| || ClassicFits(lines, config, end - config.overlapLines))
  }

  /** Chunks emitted so far are the classic ones, if the classic scheme fits the cap at all. */
  ghost predicate ClassicSoFar(chunks: seq<Chunk>, lines: seq<string>, config: Config, start: nat)
    requires config.Valid() && start < |lines|
  {
    ClassicFits(lines, config, 0) ==>
      && ClassicFits(lines, config, start)
      && chunks + ClassicChunks(lines, config, start, |chunks|) == ClassicChunks(lines, config, 0, 0)
  }

  lemma ClassicWindowEnd(lines: seq<string>, config: Config, start: nat, end: nat)
    requires config.Valid() && start < |lines| && IsWindowEnd(lines, start, config, end)
    requires ClassicFits(lines, config, start)
    ensures end == ClassicEnd(lines, config, start)
  {
    var classic := ClassicEnd(lines, config, start);
    if end < classic {
      CharsMonotone(lines, start, end + 1, classic);
    }
  }

  lemma ClassicOverlap(lines: seq<string>, config: Config, end: nat, overlap: nat)
    requires config.Valid() && config.overlapLines <= end < |lines|
    requires IsOverlap(lines, end, config.overlapLines, config, overlap)
    requires ClassicFits(lines, config, end - config.overlapLines)
    ensures overlap == config.overlapLines
  {
    var start := end - config.overlapLines;
    var classic := ClassicEnd(lines, config, start);
    if overlap < config.overlapLines {
      CharsMonotone(lines, start, end - overlap - 1, end + 1);
      CharsMonotone(lines, start, end + 1, classic);
    }
  }

  lemma ClassicUnfold(lines: seq<string>, config: Config, start: nat, index: nat)
    requires config.Valid() && start < |lines| && ClassicEnd(lines, config, start) < |lines|
    ensures var end := ClassicEnd(lines, config, start);
            ClassicChunks(lines, config, start, index)
            == [Window(lines, start, end, index)]
               + ClassicChunks(lines, config, end - config.overlapLines, index + 1)
  {
  }

  lemma ClassicAgrees(lines: seq<string>, config: Config, start: nat, end: nat, overlap: nat)
    requires config.Valid() && start < end < |lines| && ClassicFits(lines, config, start)
    requires IsWindowEnd(lines, start, config, end)
    requires end - start == config.maxLines ==> IsOverlap(lines, end, config.overlapLines, config, overlap)
    ensures end == ClassicEnd(lines, config, start) && overlap == config.overlapLines
    ensures ClassicFits(lines, config, end - overlap)
  {
    ClassicWindowEnd(lines, config, start, end);
    ClassicOverlap(lines, config, end, overlap);
  }

  lemma ClassicStep(chunks: seq<Chunk>, lines: seq<string>, config: Config, start: nat, end: nat, overlap: nat)
    requires config.Valid() && start < end < |lines| && ClassicSoFar(chunks, lines, config, start)
    requires IsWindowEnd(lines, start, config, end)
    requires overlap < end - start
    requires end - start == config.maxLines ==> IsOverlap(lines, end, config.overlapLines, config, overlap)
    ensures ClassicSoFar(chunks + [Window(lines, start, end, |chunks|)], lines, config, end - overlap)
  {
    hide ClassicChunks;
    var all := ClassicChunks(lines, config, 0, 0);
    if ClassicFits(lines, config, 0) {
      ClassicAgrees(lines, config, start, end, overlap);
      ClassicExtend(chunks, lines, config, start, all);
    }
  }

  lemma ClassicExtend(chunks: seq<Chunk>, lines: seq<string>, config: Config, start: nat, all: seq<Chunk>)
    requires config.Valid() && start < |lines| && ClassicEnd(lines, config, start) < |lines|
    requires chunks + ClassicChunks(lines, config, start, |chunks|) == all
    ensures var end := ClassicEnd(lines, config, start);
            var more := chunks + [Window(lines, start, end, |chunks|)];
            more + ClassicChunks(lines, config, end - config.overlapLines, |more|) == all
  {
    hide ClassicChunks, Concat;
    var end := ClassicEnd(lines, config, start);
    ClassicUnfold(lines, config, start, |chunks|);
    MoveFirst(chunks, Window(lines, start, end, |chunks|),
              ClassicChunks(lines, config, end - config.overlapLines, |chunks| + 1));
  }

  lemma MoveFirst<T>(front: seq<T>, x: T, back: seq<T>)
    ensures front + ([x] + back) == (front + [x]) + back
  {
  }

  /** The next window reaches past everything covered. */
  lemma WindowProgresses(lines: seq<string>, config: Config, start: nat, covered: nat, end: nat)
    requires config.Valid() && start <= covered < |lines| && IsWindowEnd(lines, start, config, end)
    requires start < covered ==> covered + 1 - start <= config.maxLines
                                 && Chars(lines, start, covered + 1) <= config.maxChars
    ensures end > covered || (end == start == covered && |lines[start]| > config.maxChars)
  {
    if end <= covered {
      CharsMonotone(lines, start, end + 1, covered + 1);
      if end == start {
        assert lines[start..start] == [];
        CharsNext(lines, start, start);
      }
    }
  }

  lemma NoClassicOverOversized(lines: seq<string>, config: Config, start: nat)
    requires config.Valid() && start < |lines| && |lines[start]| > config.maxChars
    ensures !ClassicFits(lines, config, start)
  {
    var end := ClassicEnd(lines, config, start);
    assert lines[start..start] == [];
    CharsNext(lines, start, start);
    CharsMonotone(lines, start, start + 1, end);
  }

  lemma ClassicLast(chunks: seq<Chunk>, lines: seq<string>, config: Config, start: nat, end: nat)
    requires config.Valid() && start < |lines| && ClassicSoFar(chunks, lines, config, start)
    requires IsWindowEnd(lines, start, config, end) && end == |lines|
    ensures ClassicFits(lines, config, 0) ==>
              chunks + [Window(lines, start, end, |chunks|)] == ClassicChunks(lines, config, 0, 0)
  {
    if ClassicFits(lines, config, 0) {
      ClassicWindowEnd(lines, config, start, end);
    }
  }

  lemma ConcatNone()
    ensures Concat([]) == ""
  {
  }

  lemma RunsOfCover(chunks: seq<Chunk>, lines: seq<string>, config: Config, covered: nat)
    requires config.Valid() && Covers(chunks, lines, config, covered)
    ensures PiecesAreRuns(chunks, lines, config)
  {
  }

  method EmitPieces(chunks: seq<Chunk>, lines: seq<string>, start: nat, config: Config) returns (more: seq<Chunk>)
    requires config.Valid() && start < |lines| && |lines[start]| > config.maxChars
    requires Covers(chunks, lines, config, start) && NextStartsAt(chunks, start, lines, config)
    ensures Covers(more, lines, config, start + 1)
    ensures start + 1 < |lines| ==> NextStartsAt(more, start + 1, lines, config)
  {
    hide Covers, PartlyCovers, NextStartsAt, Concat, PiecesAreRuns;
    var pieces := SplitOversizedLine(lines[start], config.maxChars);
    assert PiecesAreRuns(chunks, lines, config) by {
      RunsOfCover(chunks, lines, config, start);
    }
    ghost var own := [Chunk(start + 1, start + 1, pieces[0], |chunks|)];
    more := chunks + [Chunk(start + 1, start + 1, pieces[0], |chunks|)];
    FirstPieceCovers(chunks, lines, config, start, more[|chunks|]);
    ConcatPrefixNext(pieces, 0);
    ConcatNone();
    assert pieces[..0] == [] && "" + pieces[0] == pieces[0];
    for i := 1 to |pieces|
      invariant PartlyCovers(more, lines, config, start, Concat(pieces[..i]))
      invariant more == chunks + own && |own| == i
      invariant forall k :: 0 <= k < i ==>
                  own[k].startLine == own[k].endLine == start + 1 && own[k].content == pieces[k]
    {
      var c := Chunk(start + 1, start + 1, pieces[i], |more|);
      NextPieceCovers(more, lines, config, start, c, Concat(pieces[..i]));
      ConcatPrefixNext(pieces, i);
      more, own := more + [c], own + [c];
    }
    assert pieces[..|pieces|] == pieces && Contents(own) == pieces;
    RunsAfterLine(chunks, own, start, lines, config);
    LineFinished(more, lines, config, start);
  }

  /** What the scan knows at the head of its loop: `covered` lines are done and the next window
      starts early enough to repeat at most the overlap, late enough to reach a new line. */
  ghost predicate AtWindow(lines: seq<string>, config: Config, start: nat, covered: nat) {
    && start <= covered <= |lines| && covered - start <= config.overlapLines
    && (start < covered ==> covered < |lines| && covered + 1 - start <= config.maxLines
                            && Chars(lines, start, covered + 1) <= config.maxChars)
  }

  /** A window cut short keeps the overlap ratio, rounded down; a full one the exact overlap. */
  method Share(windowLines: nat, overlapLines: nat, maxLines: nat) returns (share: nat)
    requires 0 < windowLines <= maxLines && overlapLines < maxLines
    ensures share < windowLines && share <= overlapLines
    ensures windowLines == maxLines ==> share == overlapLines
    ensures share * maxLines <= windowLines * overlapLines < (share + 1) * maxLines
    ensures share == windowLines * overlapLines / maxLines
  {
    ProportionalShare(windowLines, overlapLines, maxLines);
    DivMod(windowLines * overlapLines, maxLines);
    share := windowLines * overlapLines / maxLines;
  }

  /** The overlap of the window that ends at `end` leads to a window that progresses. */
  method NextStart(lines: seq<string>, start: nat, end: nat, config: Config) returns (overlap: nat)
    requires config.Valid() && start < end < |lines| && end - start <= config.maxLines
    ensures overlap < end - start && AtWindow(lines, config, end - overlap, end)
    ensures end - start == config.maxLines ==> IsOverlap(lines, end, config.overlapLines, config, overlap)
    ensures ShareOf(end - start, config) <= end
            && IsOverlap(lines, end, ShareOf(end - start, config), config, overlap)
  {
    var share := Share(end - start, config.overlapLines, config.maxLines);
    overlap := FitOverlap(lines, end, share, config);
  }

  /** The invariant of the scan. */
  ghost predicate Scanning(chunks: seq<Chunk>, lines: seq<string>, config: Config, start: nat, covered: nat)
    requires config.Valid() && lines != []
  {
    && AtWindow(lines, config, start, covered) && Covers(chunks, lines, config, covered)
    && (start < |lines| ==> NextStartsAt(chunks, start, lines, config))
    && (if start < |lines| then ClassicSoFar(chunks, lines, config, start)
        else ClassicFits(lines, config, 0) ==> chunks == ClassicChunks(lines, config, 0, 0))
  }

  /** An oversized line: its pieces, and the next window starts after it. */
  method PassOversizedLine(chunks: seq<Chunk>, lines: seq<string>, config: Config, start: nat)
    returns (more: seq<Chunk>)
    requires config.Valid() && start < |lines| && Scanning(chunks, lines, config, start, start)
    requires |lines[start]| > config.maxChars
    ensures Scanning(more, lines, config, start + 1, start + 1)
  {
    NoClassicOverOversized(lines, config, start);
    more := EmitPieces(chunks, lines, start, config);
  }

  /** An ordinary window, and where the next one starts: at the end of the text when this is the last. */
  method PassWindow(chunks: seq<Chunk>, lines: seq<string>, config: Config, start: nat, end: nat,
                    ghost covered: nat) returns (more: seq<Chunk>, next: nat)
    requires config.Valid() && start <= covered < end <= |lines| && LinesOfText(lines)
    requires Scanning(chunks, lines, config, start, covered) && IsWindowEnd(lines, start, config, end)
    ensures Scanning(more, lines, config, next, end)
    ensures end == |lines| ==> next == end
  {
    hide ClassicChunks, ClassicFits, Reassembled, Concat, LinesOfText;
    more := chunks + [Window(lines, start, end, |chunks|)];
    WindowExtendsCover(chunks, lines, config, covered, start, end);
    if end == |lines| {
      next := end;
      ClassicLast(chunks, lines, config, start, end);
    } else {
      var overlap := NextStart(lines, start, end, config);
      next := end - overlap;
      ClassicStep(chunks, lines, config, start, end, overlap);
    }
  }

  /** The chunks of a whole text. */
  method LineChunks(text: string, config: Config) returns (chunks: seq<Chunk>)
    requires config.Valid()
    ensures Covers(chunks, SplitLines(text), config, |SplitLines(text)|)
    ensures Reassembled(chunks) == text
    ensures text != "" && ClassicFits(SplitLines(text), config, 0) ==>
              chunks == ClassicChunks(SplitLines(text), config, 0, 0)
  {
    var lines := SplitLines(text);
    SplitIsExact(text);
    chunks := [];
    assert lines[..|lines|] == lines;
    if lines == [] {
      return;
    }
    var start: nat := 0;
    ghost var covered: nat := 0;
    while start < |lines|
      invariant Scanning(chunks, lines, config, start, covered)
      decreases |lines| - covered
    {
      var end := GrowWindow(lines, start, config);
      WindowProgresses(lines, config, start, covered, end);
      if end == start {
        chunks := PassOversizedLine(chunks, lines, config, start);
        start, covered := start + 1, start + 1;
      } else {
        chunks, start := PassWindow(chunks, lines, config, start, end, covered);
        covered := end;
      }
    }
  }
}
