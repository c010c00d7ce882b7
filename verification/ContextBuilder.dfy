/** Fitting sources into a context: the first is cut at whole lines if it must be, later ones never. */
module ContextBuilder {
  import opened Chunks
  import opened ContextText
  import opened Decimals
  import opened Lines
  import opened Wrappers

  // ------------------------------------------------------------------------- escaped widths

  lemma {:induction false} EscapeAppend(a: string, b: string)
    ensures Escape(a + b) == Escape(a) + Escape(b)
  {
    if a == "" {
      assert a + b == b;
    } else {
      assert (a + b)[1..] == a[1..] + b;
      EscapeAppend(a[1..], b);
    }
  }

  function Width(content: string, k: nat): nat
    requires k <= |content|
  {
    |Escape(content[..k])|
  }

  lemma WidthNext(content: string, k: nat)
    requires k < |content|
    ensures Width(content, k + 1) == Width(content, k) + |EscapeChar(content[k])|
  {
    assert content[..k + 1] == content[..k] + [content[k]];
    EscapeAppend(content[..k], [content[k]]);
    assert Escape([content[k]]) == EscapeChar(content[k]);
  }

  lemma {:induction false} WidthMonotone(content: string, j: nat, k: nat)
    requires j <= k <= |content|
    ensures Width(content, j) <= Width(content, k)
    decreases k
  {
    if j < k {
      WidthNext(content, k - 1);
      WidthMonotone(content, j, k - 1);
    }
  }

  /** The longest prefix whose escaped form is within the bound; empty if even that is too much. */
  ghost predicate IsWidestPrefix(content: string, maxEscaped: int, keep: nat) {
    && keep <= |content|
    && (keep > 0 ==> Width(content, keep) <= maxEscaped)
    && (keep < |content| ==> Width(content, keep + 1) > maxEscaped)
  }

  method EscapedPrefixLength(content: string, maxEscaped: int) returns (keep: nat)
    ensures IsWidestPrefix(content, maxEscaped, keep)
  {
    var used := 0;
    for index := 0 to |content|
      invariant used == Width(content, index)
      invariant index > 0 ==> used <= maxEscaped
    {
      WidthNext(content, index);
      used := used + |EscapeChar(content[index])|;
      if used > maxEscaped {
        return index;
      }
    }
    return |content|;
  }

  // ------------------------------------------------------------------------ cutting a source

  function WithContent(source: Source, content: string, endLine: nat): Source {
    source.(chunk := source.chunk.(content := content, endLine := endLine), truncated := true)
  }

  /** The size of the block of a cut source apart from its content. */
  function Markup(source: Source): nat {
    |FormatBlock(WithContent(source, "", source.chunk.endLine))|
  }

  lemma CutWidth(source: Source, content: string, endLine: nat)
    requires endLine <= source.chunk.endLine
    ensures |FormatBlock(WithContent(source, content, endLine))| <= Markup(source) + |Escape(content)|
  {
    hide Decimal, Header, LanguageField;
    DigitsMonotone(endLine, source.chunk.endLine);
  }

  // ---------------------------------------------------------------------------- whole lines

  /** Shown text never stops inside a line after the first. */
  predicate WholeLines(text: string) {
    |SplitLines(text)| <= 1 || Terminated(text)
  }

  lemma LastOfSplit(text: string)
    requires text != ""
    ensures var lines := SplitLines(text);
            && lines != [] && LinesOfText(lines) && Concat(lines) == text
            && text == Concat(lines[..|lines| - 1]) + lines[|lines| - 1]
            && lines[|lines| - 1] != "" && (Terminated(lines[|lines| - 1]) <==> Terminated(text))
  {
    SplitIsExact(text);
    var lines := SplitLines(text);
    var last := |lines| - 1;
    assert lines[..last + 1] == lines;
    ConcatPrefixNext(lines, last);
    assert IsLine(lines[last]);
  }

  lemma UnterminatedLine(line: string)
    requires IsLine(line) && !Terminated(line)
    ensures forall i :: 0 <= i < |line| ==> !EndsLine(line[i])
  {
  }

  /** Adding part of an unterminated line to whole lines leaves a ragged text. */
  lemma PartOfLineIsRagged(front: seq<string>, line: string, k: nat)
    requires front != [] && LinesOfText(front + [line]) && !Terminated(line) && 0 < k <= |line|
    ensures !WholeLines(Concat(front) + line[..k])
  {
    UnterminatedLine(line);
    var part := line[..k];
    var lines := front + [part];
    assert (front + [line])[|front|] == line && (front + [line])[|front| - 1] == front[|front| - 1];
    assert forall i :: 0 <= i < |front| ==> (front + [line])[i] == front[i];
    assert LinesOfText(lines);
    SplitIsUnique(lines);
    ConcatSnoc(front, part);
    var text := Concat(front) + part;
    assert text[|text| - 1] == part[k - 1];
  }

  method TrimToLines(prefix: string) returns (shown: string, lineCount: nat)
    requires prefix != ""
    ensures shown != "" && shown <= prefix && WholeLines(shown)
    ensures lineCount == |SplitLines(shown)| > 0
    ensures forall k :: |shown| < k <= |prefix| ==> !WholeLines(prefix[..k])
  {
    hide SplitLines, Concat, LinesOfText;
    var lines := SplitLines(prefix);
    LastOfSplit(prefix);
    shown, lineCount := prefix, |lines|;
    var last := |lines| - 1;
    if last > 0 && !Terminated(lines[last]) {
      shown, lineCount := prefix[..|prefix| - |lines[last]|], last;
      TrimmedIsWhole(lines, prefix, shown);
      LongerIsRagged(lines, prefix, shown);
    }
  }

  lemma LongerIsRagged(lines: seq<string>, prefix: string, shown: string)
    requires |lines| > 1 && LinesOfText(lines) && !Terminated(lines[|lines| - 1])
    requires shown == Concat(lines[..|lines| - 1]) && prefix == shown + lines[|lines| - 1]
    ensures forall k :: |shown| < k <= |prefix| ==> !WholeLines(prefix[..k])
  {
    hide WholeLines, Concat, LinesOfText;
    var last := |lines| - 1;
    assert lines[..last] + [lines[last]] == lines;
    forall k | |shown| < k <= |prefix|
      ensures !WholeLines(prefix[..k])
    {
      PartOfLineIsRagged(lines[..last], lines[last], k - |shown|);
      assert prefix[..k] == shown + lines[last][..k - |shown|];
    }
  }

  lemma TrimmedIsWhole(lines: seq<string>, prefix: string, shown: string)
    requires |lines| > 1 && LinesOfText(lines) && prefix == Concat(lines[..|lines| - 1]) + lines[|lines| - 1]
    requires shown == prefix[..|prefix| - |lines[|lines| - 1]|]
    ensures shown == Concat(lines[..|lines| - 1]) && shown != "" && WholeLines(shown)
    ensures SplitLines(shown) == lines[..|lines| - 1]
  {
    var last := |lines| - 1;
    SliceIsLines(lines, 0, last);
    assert lines[0..last] == lines[..last];
    assert Separate(lines[last - 1], lines[last]);
    assert lines[..last][..last - 1] == lines[..last - 1];
    ConcatPrefixNext(lines[..last], last - 1);
    assert lines[..last][..last] == lines[..last];
  }

  // ----------------------------------------------------------------------------- the cut

  /** What fits in a block besides its markup. */
  predicate PrefixFits(source: Source, k: nat, maxBlockChars: int)
    requires k <= |source.chunk.content|
  {
    Markup(source) + Width(source.chunk.content, k) <= maxBlockChars
  }

  /** A source that does not fit shows its longest prefix of whole lines that does, and cites just
      those lines; one character is kept even when it does not fit. */
  ghost predicate IsCut(source: Source, maxBlockChars: int, cut: Source) {
    var content, shown := source.chunk.content, cut.chunk.content;
    if |FormatBlock(source)| <= maxBlockChars || content == "" then cut == source
    else
      && cut.id == source.id && cut.truncated
      && cut.chunk == source.chunk.(content := shown, endLine := cut.chunk.endLine)
      && shown != "" && shown <= content && WholeLines(shown)
      && cut.chunk.endLine == MinNat(source.chunk.endLine, source.chunk.startLine + |SplitLines(shown)| - 1)
      && (PrefixFits(source, |shown|, maxBlockChars) || (|shown| == 1 && !PrefixFits(source, 1, maxBlockChars)))
      && forall k :: |shown| < k <= |content| && PrefixFits(source, k, maxBlockChars) ==> !WholeLines(content[..k])
  }

  function MinNat(a: nat, b: nat): nat {
    if a < b then a else b
  }

  method TruncateSourceToFit(source: Source, maxBlockChars: int) returns (cut: Source)
    requires source.chunk.Valid()
    ensures IsCut(source, maxBlockChars, cut) && cut.chunk.Valid()
  {
    hide FormatBlock, Escape, SplitLines;
    var content := source.chunk.content;
    if |FormatBlock(source)| <= maxBlockChars || content == "" {
      return source;
    }
    var keep := EscapedPrefixLength(content, maxBlockChars - Markup(source));
    ghost var widest := keep;
    if keep == 0 {
      keep := 1;
    }
    var shown, lineCount := TrimToLines(content[..keep]);
    assert shown == content[..|shown|];
    cut := WithContent(source, shown, MinNat(source.chunk.endLine, source.chunk.startLine + lineCount - 1));
    KeptFits(source, widest, |shown|, maxBlockChars);
    NothingLongerFits(source, widest, keep, |shown|, maxBlockChars);
  }

  lemma KeptFits(source: Source, widest: nat, length: nat, maxBlockChars: int)
    requires IsWidestPrefix(source.chunk.content, maxBlockChars - Markup(source), widest)
    requires 0 < length <= (if widest == 0 then 1 else widest) <= |source.chunk.content|
    ensures PrefixFits(source, length, maxBlockChars) || (length == 1 && !PrefixFits(source, 1, maxBlockChars))
  {
    hide FormatBlock, Escape;
    if widest > 0 {
      WidthMonotone(source.chunk.content, length, widest);
    }
  }

  lemma NothingLongerFits(source: Source, widest: nat, keep: nat, length: nat, maxBlockChars: int)
    requires IsWidestPrefix(source.chunk.content, maxBlockChars - Markup(source), widest)
    requires length <= keep == (if widest == 0 then 1 else widest) <= |source.chunk.content|
    requires forall k :: length < k <= keep ==> !WholeLines(source.chunk.content[..keep][..k])
    ensures forall k :: length < k <= |source.chunk.content| && PrefixFits(source, k, maxBlockChars) ==>
              !WholeLines(source.chunk.content[..k])
  {
    hide FormatBlock, Escape, SplitLines;
    var content := source.chunk.content;
    forall k | length < k <= |content| && PrefixFits(source, k, maxBlockChars)
      ensures !WholeLines(content[..k])
    {
      if k > keep {
        WidthMonotone(content, widest + 1, k);
        assert false;
      } else {
        assert content[..keep][..k] == content[..k];
      }
    }
  }

  /** The smallest block a cut can leave: the first character, cited as the first line. */
  function Smallest(source: Source): Source
    requires source.chunk.content != ""
  {
    WithContent(source, source.chunk.content[..1], source.chunk.startLine)
  }

  /** Some block of this source has the size asked for: the whole one, or its first character's. */
  predicate CanFit(source: Source, maxBlockChars: int) {
    || |FormatBlock(source)| <= maxBlockChars
    || (source.chunk.content != "" && |FormatBlock(Smallest(source))| <= maxBlockChars)
  }

  /** The block of a cut source fits exactly when some block of the source does. */
  lemma CutFits(source: Source, maxBlockChars: int, cut: Source)
    requires IsCut(source, maxBlockChars, cut) && source.chunk.Valid()
    ensures |FormatBlock(cut)| <= maxBlockChars <==> CanFit(source, maxBlockChars)
  {
    hide FormatBlock, Escape, SplitLines;
    var content, shown := source.chunk.content, cut.chunk.content;
    if |FormatBlock(source)| > maxBlockChars && content != "" {
      assert content[..|shown|] == shown;
      if PrefixFits(source, |shown|, maxBlockChars) {
        CutWidth(source, shown, cut.chunk.endLine);
        CutWidth(source, content[..1], source.chunk.startLine);
        WidthMonotone(content, 1, |shown|);
      } else {
        OneCharacterIsOneLine(shown);
        assert cut == Smallest(source);
      }
    }
  }

  lemma OneCharacterIsOneLine(text: string)
    requires |text| == 1
    ensures |SplitLines(text)| == 1
  {
    assert text[FirstLineEnd(text)..] == "";
  }

  // ---------------------------------------------------------------------------- the context

  /** A retrieved chunk, which earlier packing may already have cut. */
  datatype Retrieved = Retrieved(chunk: CodeChunk, truncated: bool)

  datatype Built = Built(text: string, sources: seq<Source>)

  datatype RagError = BudgetNotPositive

  const SINGLE_BLOCK_OVERHEAD: nat := |CONTEXT_OPEN| + 1 + |CONTEXT_CLOSE|

  /** Sources are the first results, in order and numbered; only the first may have been cut. */
  ghost predicate SourcesOf(results: seq<Retrieved>, maxChars: int, sources: seq<Source>) {
    && |sources| <= |results|
    && (sources != [] ==>
          IsCut(Source(1, results[0].chunk, results[0].truncated), maxChars - SINGLE_BLOCK_OVERHEAD, sources[0]))
    && forall i :: 0 < i < |sources| ==> sources[i] == Source(i + 1, results[i].chunk, results[i].truncated)
  }

  lemma AssembledWidth(block: string)
    requires block != ""
    ensures |Assembled([block])| == SINGLE_BLOCK_OVERHEAD + |block|
  {
  }

  lemma BlocksSnoc(sources: seq<Source>, next: Source)
    ensures Blocks(sources + [next]) == Blocks(sources) + [FormatBlock(next)]
  {
    hide FormatBlock;
  }

  /** The context of ranked results: readable back, within the budget, and as many as fit in a row. */
  method BuildRepositoryContext(results: seq<Retrieved>, maxChars: int) returns (built: Result<Built, RagError>)
    requires forall i :: 0 <= i < |results| ==> results[i].chunk.Valid()
    ensures built.Failure? <==> maxChars <= 0
    ensures built.Success? ==>
              var sources := built.value.sources;
              && SourcesOf(results, maxChars, sources) && built.value.text == Assembled(Blocks(sources))
              && (sources == [] <==> results == [])
              && (|sources| > 1 ==> |built.value.text| <= maxChars)
              && (0 < |sources| < |results| ==>
                    var next := results[|sources|];
                    |Assembled(Blocks(sources + [Source(|sources| + 1, next.chunk, next.truncated)]))| > maxChars)
    ensures built.Success? ==> ReadContext(built.value.text) == Some(ShownAll(built.value.sources))
    ensures built.Success? ==> (|built.value.text| <= maxChars <==> BudgetCanHold(results, maxChars))
  {
    hide FormatBlock, Blocks, ReadContext, IsCut;
    if maxChars <= 0 {
      return Failure(BudgetNotPositive);
    }
    var sources: seq<Source> := [];
    var i := 0;
    while i < |results|
      invariant 0 <= i <= |results| && |sources| == i
      invariant SourcesOf(results, maxChars, sources)
      invariant i > 1 ==> |Assembled(Blocks(sources))| <= maxChars
    {
      var source := Source(i + 1, results[i].chunk, results[i].truncated);
      if |Assembled(Blocks(sources + [source]))| > maxChars && sources != [] {
        break;
      }
      if i == 0 {
        source := FirstSource(source, maxChars);
      }
      sources := sources + [source];
      i := i + 1;
    }
    ContextReadsBack(sources);
    ContextFits(results, maxChars, sources);
    built := Success(Built(Assembled(Blocks(sources)), sources));
  }

  /** The first source, cut when its context alone is over the budget. */
  method FirstSource(source: Source, maxChars: int) returns (first: Source)
    requires source.chunk.Valid()
    ensures IsCut(source, maxChars - SINGLE_BLOCK_OVERHEAD, first)
  {
    hide FormatBlock;
    first := source;
    BlockIsNotEmpty(source);
    BlocksSnoc([], source);
    AssembledWidth(FormatBlock(source));
    if |Assembled(Blocks([] + [source]))| > maxChars {
      first := TruncateSourceToFit(source, maxChars - SINGLE_BLOCK_OVERHEAD);
    }
  }

  /** There is room for the frame of the context and some block of the first result. */
  predicate BudgetCanHold(results: seq<Retrieved>, maxChars: int) {
    if results == [] then |Assembled([])| <= maxChars
    else CanFit(Source(1, results[0].chunk, results[0].truncated), maxChars - SINGLE_BLOCK_OVERHEAD)
  }

  /** A context keeps its budget exactly when some block of its first result can. */
  lemma ContextFits(results: seq<Retrieved>, maxChars: int, sources: seq<Source>)
    requires (forall i :: 0 <= i < |results| ==> results[i].chunk.Valid()) && SourcesOf(results, maxChars, sources)
    requires (sources == [] <==> results == []) && (|sources| > 1 ==> |Assembled(Blocks(sources))| <= maxChars)
    ensures |Assembled(Blocks(sources))| <= maxChars <==> BudgetCanHold(results, maxChars)
  {
    hide FormatBlock, IsCut, Blocks, CanFit;
    EmptyBlocks();
    if sources != [] {
      var first := sources[0];
      CutFits(Source(1, results[0].chunk, results[0].truncated), maxChars - SINGLE_BLOCK_OVERHEAD, first);
      BlockIsNotEmpty(first);
      BlocksStart(sources);
      AssembledWidth(FormatBlock(first));
      AssembledGrows(Blocks(sources));
    }
  }

  lemma BlocksStart(sources: seq<Source>)
    requires sources != []
    ensures Blocks(sources)[0] == FormatBlock(sources[0])
    ensures |sources| == 1 ==> Blocks(sources) == [FormatBlock(sources[0])]
  {
    hide FormatBlock;
  }

  lemma AssembledGrows(blocks: seq<string>)
    requires blocks != [] && blocks[0] != ""
    ensures |Assembled([blocks[0]])| <= |Assembled(blocks)|
  {
    assert |Join(blocks)| >= |blocks[0]|;
  }

  const ONE_CHARACTER := Retrieved(CodeChunk("a", None, 1, 1, "x", 0, "line", LineWindow, None, None), false)

  /** A budget that the context of a one-character chunk exceeds. */
  lemma OverBudgetExample(sources: seq<Source>)
    requires SourcesOf([ONE_CHARACTER], 180, sources) && sources != []
    ensures !BudgetCanHold([ONE_CHARACTER], 180) && |Assembled(Blocks(sources))| > 180
  {
    hide IsCut, Blocks;
    BlockIsLong(Source(1, ONE_CHARACTER.chunk, false));
    BlockIsLong(Smallest(Source(1, ONE_CHARACTER.chunk, false)));
    ContextFits([ONE_CHARACTER], 180, sources);
  }

  lemma BlockIsLong(source: Source)
    ensures |FormatBlock(source)| > 120
  {
    assert |CONTENT_TAG| == 54;
  }

  lemma EmptyBlocks()
    ensures Blocks([]) == []
  {
  }
}
