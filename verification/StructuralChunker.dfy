/** Chunks that follow definitions: units cut into bounded parts, at statement ends when there is one. */
module StructuralChunker {
  import opened Lines
  import opened StructuralUnits
  import opened Text
  import opened Wrappers
  import LineChunker

  type Config = LineChunker.Config

  /** A line, or one piece of a line that alone exceeds the character cap. */
  datatype Piece = Piece(text: string, line: nat)

  function TextOf(pieces: seq<Piece>): string {
    if pieces == [] then "" else pieces[0].text + TextOf(pieces[1..])
  }

  lemma {:induction false} TextOfAppend(a: seq<Piece>, b: seq<Piece>)
    ensures TextOf(a + b) == TextOf(a) + TextOf(b)
  {
    if a == [] {
      assert a + b == b;
    } else {
      assert (a + b)[1..] == a[1..] + b;
      TextOfAppend(a[1..], b);
    }
  }

  /** The pieces of lines `start` to `end`, in order and within the cap. */
  ghost predicate PiecesOf(pieces: seq<Piece>, lines: seq<string>, start: nat, end: nat, maxChars: nat)
    requires 1 <= start <= end + 1 && end <= |lines|
  {
    && TextOf(pieces) == Concat(lines[start - 1..end])
    && InLineOrder(pieces, start, end, maxChars) && LinesCut(pieces, lines, start, end, maxChars)
  }

  predicate InLineOrder(pieces: seq<Piece>, start: nat, end: nat, maxChars: nat) {
    && (forall i :: 0 <= i < |pieces| ==> 1 <= |pieces[i].text| <= maxChars && start <= pieces[i].line <= end)
    && (forall i :: 0 < i < |pieces| ==> pieces[i - 1].line <= pieces[i].line <= pieces[i - 1].line + 1)
    && (pieces == [] <==> start == end + 1)
    && (pieces != [] ==> pieces[0].line == start && pieces[|pieces| - 1].line == end)
  }

  ghost predicate LinesCut(pieces: seq<Piece>, lines: seq<string>, start: nat, end: nat, maxChars: nat)
    requires 1 <= start && end <= |lines|
  {
    forall line :: start <= line <= end ==> LineCut(pieces, lines, line, maxChars)
  }

  function Texts(pieces: seq<Piece>): seq<string> {
    seq(|pieces|, i requires 0 <= i < |pieces| => pieces[i].text)
  }

  ghost predicate LineCut(pieces: seq<Piece>, lines: seq<string>, line: nat, maxChars: nat)
    requires 1 <= line <= |lines|
  {
    exists first: nat, last: nat :: LineCutAt(pieces, lines, line, maxChars, first, last)
  }

  /** The pieces of one line stand together: as few as the cap allows, so one if the line fits, nearly
      equal, and together the line. */
  ghost predicate LineCutAt(pieces: seq<Piece>, lines: seq<string>, line: nat, maxChars: nat, first: nat, last: nat)
    requires 1 <= line <= |lines|
  {
    && first <= last <= |pieces|
    && (forall i :: 0 <= i < |pieces| ==> (first <= i < last <==> pieces[i].line == line))
    && (1 <= |lines[line - 1]| <= maxChars ==> last == first + 1)
    && (maxChars > 0 ==> Pieces(Texts(pieces[first..last]), lines[line - 1], maxChars))
  }

  lemma LineCutKept(pieces: seq<Piece>, own: seq<Piece>, lines: seq<string>, line: nat, maxChars: nat)
    requires 1 <= line <= |lines| && LineCut(pieces, lines, line, maxChars)
    requires forall i :: 0 <= i < |own| ==> own[i].line != line
    ensures LineCut(pieces + own, lines, line, maxChars)
  {
    hide Pieces;
    var first: nat, last: nat :| LineCutAt(pieces, lines, line, maxChars, first, last);
    assert (pieces + own)[first..last] == pieces[first..last];
    assert LineCutAt(pieces + own, lines, line, maxChars, first, last);
  }

  lemma OwnLineCut(pieces: seq<Piece>, own: seq<Piece>, lines: seq<string>, line: nat, maxChars: nat)
    requires 1 <= line <= |lines| && maxChars > 0 && Pieces(Texts(own), lines[line - 1], maxChars)
    requires forall i :: 0 <= i < |pieces| ==> pieces[i].line != line
    requires forall i :: 0 <= i < |own| ==> own[i].line == line
    ensures LineCut(pieces + own, lines, line, maxChars)
  {
    hide Pieces;
    assert (pieces + own)[|pieces|..|pieces + own|] == own;
    if 1 <= |lines[line - 1]| <= maxChars {
      FittingLineIsOnePiece(Texts(own), lines[line - 1], maxChars);
    }
    assert LineCutAt(pieces + own, lines, line, maxChars, |pieces|, |pieces + own|);
  }

  lemma LinesStayCut(pieces: seq<Piece>, own: seq<Piece>, lines: seq<string>, start: nat, line: nat, maxChars: nat)
    requires 1 <= start <= line <= |lines| && maxChars > 0 && Pieces(Texts(own), lines[line - 1], maxChars)
    requires forall i :: 0 <= i < |pieces| ==> pieces[i].line < line
    requires forall i :: 0 <= i < |own| ==> own[i].line == line
    requires LinesCut(pieces, lines, start, line - 1, maxChars)
    ensures LinesCut(pieces + own, lines, start, line, maxChars)
  {
    hide LineCut, Pieces;
    OwnLineCut(pieces, own, lines, line, maxChars);
    forall other | start <= other < line
      ensures LineCut(pieces + own, lines, other, maxChars)
    {
      LineCutKept(pieces, own, lines, other, maxChars);
    }
  }

  lemma NoPieces(lines: seq<string>, start: nat, maxChars: nat)
    requires 1 <= start <= |lines|
    ensures PiecesOf([], lines, start, start - 1, maxChars)
  {
    assert lines[start - 1..start - 1] == [];
  }

  lemma PiecesMean(texts: seq<string>, text: string, maxChars: nat)
    requires maxChars > 0 && Pieces(texts, text, maxChars)
    ensures Concat(texts) == text && (text != "" ==> texts != [])
    ensures forall i :: 0 <= i < |texts| ==> 1 <= |texts[i]| <= maxChars
  {
  }

  method PiecesForRange(lines: seq<string>, start: nat, end: nat, maxChars: nat) returns (pieces: seq<Piece>)
    requires 1 <= start <= end <= |lines| && maxChars > 0
    requires forall i :: 0 <= i < |lines| ==> lines[i] != ""
    ensures PiecesOf(pieces, lines, start, end, maxChars)
  {
    hide PiecesOf, Pieces, TextOf, Concat;
    pieces := [];
    NoPieces(lines, start, maxChars);
    for line := start to end + 1
      invariant PiecesOf(pieces, lines, start, line - 1, maxChars)
    {
      var texts := SplitOversizedLine(lines[line - 1], maxChars);
      PiecesMean(texts, lines[line - 1], maxChars);
      var own := OnLine(texts, line, maxChars);
      LineAdded(pieces, own, lines, start, line, maxChars);
      pieces := pieces + own;
    }
  }

  method OnLine(texts: seq<string>, line: nat, maxChars: nat) returns (own: seq<Piece>)
    requires forall i :: 0 <= i < |texts| ==> 1 <= |texts[i]| <= maxChars
    ensures Texts(own) == texts && TextOf(own) == Concat(texts)
    ensures forall i :: 0 <= i < |own| ==> own[i].line == line && 1 <= |own[i].text| <= maxChars
  {
    own := [];
    assert texts[..|texts|] == texts;
    for i := 0 to |texts|
      invariant Texts(own) == texts[..i] && TextOf(own) == Concat(texts[..i])
      invariant forall j :: 0 <= j < i ==> own[j].line == line && 1 <= |own[j].text| <= maxChars
    {
      ConcatPrefixNext(texts, i);
      TextOfAppend(own, [Piece(texts[i], line)]);
      own := own + [Piece(texts[i], line)];
    }
  }

  lemma LineAdded(pieces: seq<Piece>, own: seq<Piece>, lines: seq<string>, start: nat, line: nat, maxChars: nat)
    requires 1 <= start <= line <= |lines| && PiecesOf(pieces, lines, start, line - 1, maxChars)
    requires own != [] && TextOf(own) == lines[line - 1]
    requires forall i :: 0 <= i < |own| ==> own[i].line == line && 1 <= |own[i].text| <= maxChars
    requires maxChars > 0 && Pieces(Texts(own), lines[line - 1], maxChars)
    ensures PiecesOf(pieces + own, lines, start, line, maxChars)
  {
    hide TextOf, Concat, LinesCut, Pieces, InLineOrder;
    OrderAdded(pieces, own, start, line, maxChars);
    LineTextAdded(pieces, own, lines, start, line);
    LinesStayCut(pieces, own, lines, start, line, maxChars);
  }

  lemma OrderAdded(pieces: seq<Piece>, own: seq<Piece>, start: nat, line: nat, maxChars: nat)
    requires 1 <= start <= line && InLineOrder(pieces, start, line - 1, maxChars) && own != []
    requires forall i :: 0 <= i < |own| ==> own[i].line == line && 1 <= |own[i].text| <= maxChars
    ensures InLineOrder(pieces + own, start, line, maxChars)
    ensures forall i :: 0 <= i < |pieces| ==> pieces[i].line < line
  {
  }

  lemma LineTextAdded(pieces: seq<Piece>, own: seq<Piece>, lines: seq<string>, start: nat, line: nat)
    requires 1 <= start <= line <= |lines| && TextOf(pieces) == Concat(lines[start - 1..line - 1])
    requires TextOf(own) == lines[line - 1]
    ensures TextOf(pieces + own) == Concat(lines[start - 1..line])
  {
    hide TextOf, Concat;
    TextOfAppend(pieces, own);
    assert lines[start - 1..line] == lines[start - 1..line - 1] + [lines[line - 1]];
    ConcatSnoc(lines[start - 1..line - 1], lines[line - 1]);
  }

  // -------------------------------------------------------------------------------- parts

  /** A part of a unit: the lines it cites and its text. */
  datatype Part = Part(startLine: nat, endLine: nat, content: string)

  function PartOf(pieces: seq<Piece>, cursor: nat, end: nat): Part
    requires cursor < end <= |pieces|
  {
    Part(pieces[cursor].line, pieces[end - 1].line, TextOf(pieces[cursor..end]))
  }

  /** Pieces within both caps. */
  predicate WithinCaps(pieces: seq<Piece>, cursor: nat, end: nat, config: Config)
    requires cursor <= end <= |pieces|
  {
    && |TextOf(pieces[cursor..end])| <= config.maxChars
    && (cursor < end ==> pieces[end - 1].line - pieces[cursor].line < config.maxLines)
  }

  /** The longest part from `cursor` within both caps. */
  predicate IsGreedyEnd(pieces: seq<Piece>, cursor: nat, greedy: nat, config: Config) {
    && cursor < greedy <= |pieces| && WithinCaps(pieces, cursor, greedy, config)
    && (greedy < |pieces| ==> !WithinCaps(pieces, cursor, greedy + 1, config))
  }

  /** The pieces up to `k` stop where a statement of the unit does. */
  predicate StatementEnd(pieces: seq<Piece>, k: nat, breaks: seq<nat>) {
    && 0 < k <= |pieces| && pieces[k - 1].line in breaks
    && (k < |pieces| ==> pieces[k].line != pieces[k - 1].line)
  }

  /** A part that is not the last stops at the last statement end the caps allow, if there is one. */
  ghost predicate IsPartEnd(pieces: seq<Piece>, cursor: nat, end: nat, breaks: seq<nat>, config: Config) {
    exists greedy :: IsGreedyEnd(pieces, cursor, greedy, config) && ChosenEnd(pieces, cursor, greedy, end, breaks)
  }

  predicate ChosenEnd(pieces: seq<Piece>, cursor: nat, greedy: nat, end: nat, breaks: seq<nat>) {
    if greedy == |pieces| then end == greedy
    else
      && cursor < end <= greedy
      && (end < greedy ==> StatementEnd(pieces, end, breaks))
      && forall k :: cursor < k <= greedy && StatementEnd(pieces, k, breaks) ==>
           k <= end && StatementEnd(pieces, end, breaks)
  }

  lemma WithinCapsNext(pieces: seq<Piece>, cursor: nat, end: nat)
    requires cursor <= end < |pieces|
    ensures TextOf(pieces[cursor..end + 1]) == TextOf(pieces[cursor..end]) + pieces[end].text
  {
    assert pieces[cursor..end + 1] == pieces[cursor..end] + [pieces[end]];
    TextOfAppend(pieces[cursor..end], [pieces[end]]);
  }

  /** The inner loop: as many pieces as fit, remembering the last statement end among them. */
  method GrowPart(pieces: seq<Piece>, cursor: nat, breaks: seq<nat>, config: Config) returns (end: nat)
    requires config.Valid() && cursor < |pieces|
    requires forall i :: 0 <= i < |pieces| ==> |pieces[i].text| <= config.maxChars
    ensures IsPartEnd(pieces, cursor, end, breaks, config)
  {
    end := cursor;
    var chars := 0;
    var preferredEnd: Option<nat> := None;
    assert pieces[cursor..cursor] == [];
    while end < |pieces|
      invariant cursor <= end <= |pieces|
      invariant chars == |TextOf(pieces[cursor..end])| && WithinCaps(pieces, cursor, end, config)
      invariant preferredEnd.Some? ==>
                  cursor < preferredEnd.value <= end && StatementEnd(pieces, preferredEnd.value, breaks)
      invariant forall k :: cursor < k <= end && StatementEnd(pieces, k, breaks) ==>
                  preferredEnd.Some? && k <= preferredEnd.value
    {
      var piece := pieces[end];
      WithinCapsNext(pieces, cursor, end);
      if chars + |piece.text| > config.maxChars {
        break;
      }
      if piece.line - pieces[cursor].line + 1 > config.maxLines {
        break;
      }
      chars := chars + |piece.text|;
      end := end + 1;
      if piece.line in breaks && (end < |pieces| ==> pieces[end].line != piece.line) {
        preferredEnd := Some(end);
      }
    }
    ghost var greedy := end;
    assert IsGreedyEnd(pieces, cursor, greedy, config);
    if end < |pieces| && preferredEnd.Some? {
      end := preferredEnd.value;
    }
    assert ChosenEnd(pieces, cursor, greedy, end, breaks);
  }

  /** How a unit is cut: each part stops where it should and starts where the one before stopped. */
  ghost predicate Cuts(parts: seq<Part>, cuts: seq<nat>, pieces: seq<Piece>, breaks: seq<nat>, config: Config) {
    && |cuts| == |parts| + 1 && cuts[0] == 0 && cuts[|parts|] <= |pieces|
    && forall i :: 0 <= i < |parts| ==> CutAt(parts[i], pieces, cuts[i], cuts[i + 1], breaks, config)
  }

  ghost predicate CutAt(part: Part, pieces: seq<Piece>, cursor: nat, end: nat, breaks: seq<nat>, config: Config) {
    cursor < end <= |pieces| && part == PartOf(pieces, cursor, end) && IsPartEnd(pieces, cursor, end, breaks, config)
  }

  function Contents(parts: seq<Part>): seq<string> {
    seq(|parts|, i requires 0 <= i < |parts| => parts[i].content)
  }

  /** What a reader of the parts is promised: the unit's text exactly, within both caps, and line
      ranges that run through the unit without a gap. */
  ghost predicate PartsOf(parts: seq<Part>, lines: seq<string>, unit: Unit, config: Config)
    requires 1 <= unit.start <= unit.end <= |lines|
  {
    && parts != [] && Concat(Contents(parts)) == Concat(lines[unit.start - 1..unit.end])
    && (forall i :: 0 <= i < |parts| ==> 1 <= |parts[i].content| <= config.maxChars)
    && (forall i :: 0 <= i < |parts| ==> 0 <= parts[i].endLine - parts[i].startLine < config.maxLines)
    && parts[0].startLine == unit.start && parts[|parts| - 1].endLine == unit.end
    && forall i :: 0 < i < |parts| ==> parts[i - 1].endLine <= parts[i].startLine <= parts[i - 1].endLine + 1
  }

  lemma {:induction false} LinesAscend(pieces: seq<Piece>, i: nat, k: nat)
    requires i <= k < |pieces| && forall j :: 0 < j < |pieces| ==> pieces[j - 1].line <= pieces[j].line
    ensures pieces[i].line <= pieces[k].line
    decreases k
  {
    if i < k {
      LinesAscend(pieces, i, k - 1);
    }
  }

  lemma WithinCapsShorter(pieces: seq<Piece>, cursor: nat, end: nat, greedy: nat, config: Config)
    requires cursor < end <= greedy <= |pieces| && WithinCaps(pieces, cursor, greedy, config)
    requires forall j :: 0 < j < |pieces| ==> pieces[j - 1].line <= pieces[j].line
    ensures WithinCaps(pieces, cursor, end, config)
  {
    assert pieces[cursor..greedy] == pieces[cursor..end] + pieces[end..greedy];
    TextOfAppend(pieces[cursor..end], pieces[end..greedy]);
    LinesAscend(pieces, end - 1, greedy - 1);
  }

  /** Every part keeps both caps. */
  lemma PartIsBounded(pieces: seq<Piece>, cursor: nat, end: nat, breaks: seq<nat>, config: Config)
    requires IsPartEnd(pieces, cursor, end, breaks, config)
    requires forall j :: 0 < j < |pieces| ==> pieces[j - 1].line <= pieces[j].line
    ensures cursor < end <= |pieces| && WithinCaps(pieces, cursor, end, config)
  {
    hide TextOf, StatementEnd;
    var greedy :| IsGreedyEnd(pieces, cursor, greedy, config) && ChosenEnd(pieces, cursor, greedy, end, breaks);
    WithinCapsShorter(pieces, cursor, end, greedy, config);
  }

  lemma NoCuts(pieces: seq<Piece>, breaks: seq<nat>, config: Config)
    ensures Cuts([], [0], pieces, breaks, config)
  {
  }

  lemma CutsLonger(parts: seq<Part>, cuts: seq<nat>, pieces: seq<Piece>, breaks: seq<nat>, config: Config, part: Part,
                   end: nat)
    requires Cuts(parts, cuts, pieces, breaks, config)
    requires CutAt(part, pieces, cuts[|parts|], end, breaks, config)
    ensures Cuts(parts + [part], cuts + [end], pieces, breaks, config)
  {
    hide IsPartEnd, TextOf;
  }

  method BoundedParts(lines: seq<string>, unit: Unit, config: Config)
    returns (parts: seq<Part>, ghost pieces: seq<Piece>, ghost cuts: seq<nat>)
    requires config.Valid() && 1 <= unit.start <= unit.end <= |lines|
    requires forall i :: 0 <= i < |lines| ==> lines[i] != ""
    ensures PiecesOf(pieces, lines, unit.start, unit.end, config.maxChars)
    ensures Cuts(parts, cuts, pieces, unit.breaks, config) && cuts[|parts|] == |pieces|
    ensures PartsOf(parts, lines, unit, config)
  {
    hide PiecesOf, IsPartEnd, TextOf, Cuts, WithinCaps, PartsOf;
    var found := PiecesForRange(lines, unit.start, unit.end, config.maxChars);
    pieces := found;
    PiecesAreOrdered(found, lines, unit.start, unit.end, config.maxChars);
    parts, cuts := [], [0];
    var cursor := 0;
    NoCuts(found, unit.breaks, config);
    while cursor < |found|
      invariant 0 <= cursor <= |found| && |cuts| == |parts| + 1 && cuts[|parts|] == cursor
      invariant Cuts(parts, cuts, found, unit.breaks, config)
    {
      var end := GrowPart(found, cursor, unit.breaks, config);
      PartIsBounded(found, cursor, end, unit.breaks, config);
      var selected := found[cursor..end];
      var part := Part(selected[0].line, selected[|selected| - 1].line, TextOf(selected));
      CutsLonger(parts, cuts, found, unit.breaks, config, part, end);
      parts, cuts, cursor := parts + [part], cuts + [end], end;
    }
    CutsGiveParts(parts, cuts, found, lines, unit, config);
  }

  lemma PiecesAreOrdered(pieces: seq<Piece>, lines: seq<string>, start: nat, end: nat, maxChars: nat)
    requires 1 <= start <= end <= |lines| && PiecesOf(pieces, lines, start, end, maxChars)
    ensures pieces != [] && pieces[0].line == start && pieces[|pieces| - 1].line == end
    ensures forall i :: 0 < i < |pieces| ==> pieces[i - 1].line <= pieces[i].line <= pieces[i - 1].line + 1
    ensures forall i :: 0 <= i < |pieces| ==> 1 <= |pieces[i].text| <= maxChars
    ensures TextOf(pieces) == Concat(lines[start - 1..end])
  {
  }

  lemma {:induction false} CutText(parts: seq<Part>, cuts: seq<nat>, pieces: seq<Piece>, breaks: seq<nat>,
                                   config: Config)
    requires Cuts(parts, cuts, pieces, breaks, config)
    ensures Concat(Contents(parts)) == TextOf(pieces[..cuts[|parts|]])
  {
    if parts == [] {
      assert pieces[..0] == [] && Contents(parts) == [];
    } else {
      var last := |parts| - 1;
      hide CutAt, TextOf, Concat;
      assert CutAt(parts[last], pieces, cuts[last], cuts[last + 1], breaks, config);
      CutsShorter(parts, cuts, pieces, breaks, config);
      CutText(parts[..last], cuts[..last + 1], pieces, breaks, config);
      assert Contents(parts) == Contents(parts[..last]) + [parts[last].content];
      ConcatSnoc(Contents(parts[..last]), parts[last].content);
      CutContent(parts[last], pieces, cuts[last], cuts[last + 1], breaks, config);
    }
  }

  lemma CutContent(part: Part, pieces: seq<Piece>, cursor: nat, end: nat, breaks: seq<nat>, config: Config)
    requires CutAt(part, pieces, cursor, end, breaks, config)
    ensures TextOf(pieces[..end]) == TextOf(pieces[..cursor]) + part.content
  {
    hide TextOf, IsPartEnd;
    assert pieces[..end] == pieces[..cursor] + pieces[cursor..end];
    TextOfAppend(pieces[..cursor], pieces[cursor..end]);
  }

  lemma CutsShorter(parts: seq<Part>, cuts: seq<nat>, pieces: seq<Piece>, breaks: seq<nat>, config: Config)
    requires Cuts(parts, cuts, pieces, breaks, config) && parts != []
    ensures Cuts(parts[..|parts| - 1], cuts[..|parts|], pieces, breaks, config)
  {
    hide IsPartEnd, TextOf;
  }

  predicate PartHolds(part: Part, pieces: seq<Piece>, cursor: nat, end: nat, config: Config) {
    && cursor < end <= |pieces|
    && 1 <= |part.content| <= config.maxChars && 0 <= part.endLine - part.startLine < config.maxLines
    && part.startLine == pieces[cursor].line && part.endLine == pieces[end - 1].line
  }

  lemma PartFromPieces(part: Part, pieces: seq<Piece>, cursor: nat, end: nat, breaks: seq<nat>, config: Config)
    requires CutAt(part, pieces, cursor, end, breaks, config)
    requires forall i :: 0 < i < |pieces| ==> pieces[i - 1].line <= pieces[i].line
    requires forall i :: 0 <= i < |pieces| ==> 1 <= |pieces[i].text|
    ensures PartHolds(part, pieces, cursor, end, config)
  {
    hide IsPartEnd;
    PartIsBounded(pieces, cursor, end, breaks, config);
    LinesAscend(pieces, cursor, end - 1);
    assert pieces[cursor..end][0] == pieces[cursor];
  }

  lemma CutsGiveParts(parts: seq<Part>, cuts: seq<nat>, pieces: seq<Piece>, lines: seq<string>, unit: Unit,
                      config: Config)
    requires 1 <= unit.start <= unit.end <= |lines|
    requires PiecesOf(pieces, lines, unit.start, unit.end, config.maxChars)
    requires Cuts(parts, cuts, pieces, unit.breaks, config) && cuts[|parts|] == |pieces|
    ensures PartsOf(parts, lines, unit, config)
  {
    hide PiecesOf, CutAt, TextOf, Concat;
    PiecesAreOrdered(pieces, lines, unit.start, unit.end, config.maxChars);
    CutText(parts, cuts, pieces, unit.breaks, config);
    assert pieces[..|pieces|] == pieces;
    forall i | 0 <= i < |parts|
      ensures PartHolds(parts[i], pieces, cuts[i], cuts[i + 1], config)
      ensures 1 <= |parts[i].content| <= config.maxChars && 0 <= parts[i].endLine - parts[i].startLine < config.maxLines
    {
      PartFromPieces(parts[i], pieces, cuts[i], cuts[i + 1], unit.breaks, config);
    }
    assert PartHolds(parts[0], pieces, cuts[0], cuts[1], config);
    var last := |parts| - 1;
    assert PartHolds(parts[last], pieces, cuts[last], cuts[last + 1], config);
    forall i | 0 < i < |parts|
      ensures parts[i - 1].endLine <= parts[i].startLine <= parts[i - 1].endLine + 1
    {
      assert PartHolds(parts[i - 1], pieces, cuts[i - 1], cuts[i], config);
      assert PartHolds(parts[i], pieces, cuts[i], cuts[i + 1], config);
    }
  }
}
