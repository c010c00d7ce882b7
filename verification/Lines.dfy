/** Source lines that agree with editors and ast: only \n, \r and \r\n end a line. */
module Lines {
  import opened Arith

  function Concat(parts: seq<string>): string {
    if parts == [] then "" else parts[0] + Concat(parts[1..])
  }

  lemma {:induction false} ConcatAppend(a: seq<string>, b: seq<string>)
    ensures Concat(a + b) == Concat(a) + Concat(b)
  {
    if a == [] {
      assert a + b == b;
    } else {
      assert (a + b)[1..] == a[1..] + b;
      ConcatAppend(a[1..], b);
    }
  }

  lemma ConcatSnoc(a: seq<string>, last: string)
    ensures Concat(a + [last]) == Concat(a) + last
  {
    ConcatAppend(a, [last]);
  }

  lemma ConcatPrefix(parts: seq<string>, a: nat, b: nat)
    requires a <= b <= |parts|
    ensures Concat(parts[..b]) == Concat(parts[..a]) + Concat(parts[a..b])
  {
    assert parts[..b] == parts[..a] + parts[a..b];
    ConcatAppend(parts[..a], parts[a..b]);
  }

  lemma ConcatPrefixNext(parts: seq<string>, i: nat)
    requires i < |parts|
    ensures Concat(parts[..i + 1]) == Concat(parts[..i]) + parts[i]
  {
    assert parts[..i + 1] == parts[..i] + [parts[i]];
    ConcatSnoc(parts[..i], parts[i]);
  }

  /** Blocks with one blank line between them. */
  function Join(blocks: seq<string>): string {
    if blocks == [] then ""
    else if |blocks| == 1 then blocks[0]
    else blocks[0] + "\n\n" + Join(blocks[1..])
  }

  lemma JoinMore(block: string, blocks: seq<string>)
    requires blocks != []
    ensures Join([block] + blocks) == block + "\n\n" + Join(blocks)
  {
    assert ([block] + blocks)[1..] == blocks;
  }

  /** One past the end of the line that starts the text. */
  function FirstLineEnd(s: string): (e: nat)
    requires s != ""
    ensures 1 <= e <= |s|
  {
    if s[0] == '\n' then 1
    else if s[0] == '\r' then if |s| > 1 && s[1] == '\n' then 2 else 1
    else if |s| == 1 then 1
    else 1 + FirstLineEnd(s[1..])
  }

  function SplitLines(s: string): seq<string> {
    if s == "" then [] else [s[..FirstLineEnd(s)]] + SplitLines(s[FirstLineEnd(s)..])
  }

  predicate EndsLine(c: char) {
    c == '\n' || c == '\r'
  }

  predicate Terminated(line: string) {
    line != "" && EndsLine(line[|line| - 1])
  }

  /** A nonempty line whose only terminator, if any, is at its end. */
  predicate IsLine(line: string) {
    && line != ""
    && forall i :: 0 <= i < |line| - 1 && EndsLine(line[i]) ==>
         i == |line| - 2 && line[i] == '\r' && line[i + 1] == '\n'
  }

  /** `next` does not continue the terminator of `line`. */
  predicate Separate(line: string, next: string)
    requires line != "" && next != ""
  {
    Terminated(line) && !(line[|line| - 1] == '\r' && next[0] == '\n')
  }

  /** The lines of some text: what it means to have been split exactly at its terminators. */
  predicate LinesOfText(lines: seq<string>) {
    && (forall i :: 0 <= i < |lines| ==> IsLine(lines[i]))
    && forall i :: 0 < i < |lines| ==> Separate(lines[i - 1], lines[i])
  }

  lemma {:induction false} FirstLineIsLine(s: string)
    requires s != ""
    ensures var e := FirstLineEnd(s);
            IsLine(s[..e]) && (e < |s| ==> Separate(s[..e], s[e..]))
  {
    if !EndsLine(s[0]) && |s| > 1 {
      FirstLineIsLine(s[1..]);
      var e := FirstLineEnd(s);
      assert s[..e][1..] == s[1..][..e - 1];
      assert s[e..] == s[1..][e - 1..];
    }
  }

  /** Splitting loses nothing and cuts exactly at the terminators. */
  lemma {:induction false} SplitIsExact(s: string)
    ensures Concat(SplitLines(s)) == s && LinesOfText(SplitLines(s))
  {
    if s != "" {
      var e := FirstLineEnd(s);
      var head, rest := s[..e], s[e..];
      FirstLineIsLine(s);
      SplitIsExact(rest);
      assert s == head + rest;
      var lines := SplitLines(s);
      assert lines == [head] + SplitLines(rest);
      if rest != "" {
        assert Concat(SplitLines(rest))[0] == rest[0];
        assert SplitLines(rest)[0] == rest[..FirstLineEnd(rest)];
      }
    }
  }

  lemma {:induction false} FirstLineOfJoined(line: string, rest: string)
    requires IsLine(line)
    requires rest != "" ==> Separate(line, rest)
    ensures FirstLineEnd(line + rest) == |line|
  {
    if !EndsLine(line[0]) && |line| > 1 {
      assert (line + rest)[1..] == line[1..] + rest;
      FirstLineOfJoined(line[1..], rest);
    }
  }

  /** There is only one way to split: lines of a text are recovered from their concatenation. */
  lemma {:induction false} SplitIsUnique(lines: seq<string>)
    requires LinesOfText(lines)
    ensures SplitLines(Concat(lines)) == lines
  {
    if lines != [] {
      var rest := Concat(lines[1..]);
      SplitIsUnique(lines[1..]);
      if |lines| > 1 {
        assert rest[0] == lines[1][0];
        assert Separate(lines[0], lines[1]);
      }
      FirstLineOfJoined(lines[0], rest);
      assert (lines[0] + rest)[..|lines[0]|] == lines[0] && (lines[0] + rest)[|lines[0]|..] == rest;
    }
  }

  lemma SliceIsLines(lines: seq<string>, a: nat, b: nat)
    requires LinesOfText(lines) && a <= b <= |lines|
    ensures LinesOfText(lines[a..b]) && SplitLines(Concat(lines[a..b])) == lines[a..b]
  {
    SplitIsUnique(lines[a..b]);
  }

  // ------------------------------------------------------------------------ oversized lines

  /** The pieces of one long line: exact, within the cap, near-equal, and as few as possible. */
  ghost predicate Pieces(pieces: seq<string>, text: string, maxChars: nat)
    requires maxChars > 0
  {
    && Concat(pieces) == text
    && |pieces| == CeilDiv(|text|, maxChars)
    && (forall i :: 0 <= i < |pieces| ==> 1 <= |pieces[i]| <= maxChars)
    && (forall i, k :: 0 <= i < k < |pieces| ==> |pieces[k]| <= |pieces[i]| <= |pieces[k]| + 1)
  }

  method SplitOversizedLine(text: string, maxChars: nat) returns (pieces: seq<string>)
    requires maxChars > 0
    ensures Pieces(pieces, text, maxChars)
  {
    CeilDivBounds(|text|, maxChars);
    if text == "" {
      return [];
    }
    var pieceCount := CeilDiv(|text|, maxChars);
    NearEqualParts(|text|, pieceCount, maxChars);
    var pieceSize, largerPieces := |text| / pieceCount, |text| % pieceCount;
    DivMod(|text|, pieceCount);
    CopiesIsProduct(pieceSize, pieceCount);
    pieces := CutPieces(text, pieceCount, pieceSize, largerPieces);
  }

  /** The cutting loop: the first `largerPieces` pieces get one more character. */
  method CutPieces(text: string, pieceCount: nat, pieceSize: nat, largerPieces: nat) returns (pieces: seq<string>)
    requires Copies(pieceSize, pieceCount) + largerPieces == |text| && largerPieces <= pieceCount
    ensures |pieces| == pieceCount && Concat(pieces) == text
    ensures forall i :: 0 <= i < pieceCount ==> |pieces[i]| == pieceSize + if i < largerPieces then 1 else 0
  {
    pieces := [];
    var offset := 0;
    for i := 0 to pieceCount
      invariant |pieces| == i
      invariant offset + Copies(pieceSize, pieceCount - i) + (if i < largerPieces then largerPieces - i else 0)
                == |text|
      invariant Concat(pieces) == text[..offset]
      invariant forall j :: 0 <= j < i ==> |pieces[j]| == pieceSize + if j < largerPieces then 1 else 0
    {
      var end := offset + pieceSize + if i < largerPieces then 1 else 0;
      ConcatSnoc(pieces, text[offset..end]);
      assert text[..end] == text[..offset] + text[offset..end];
      pieces := pieces + [text[offset..end]];
      offset := end;
    }
    assert text[..|text|] == text;
  }

  lemma {:induction false} TotalLengthBound(parts: seq<string>, maxChars: nat)
    requires forall i :: 0 <= i < |parts| ==> |parts[i]| <= maxChars
    ensures |Concat(parts)| <= |parts| * maxChars
  {
    if parts != [] {
      TotalLengthBound(parts[1..], maxChars);
      assert |parts| * maxChars == maxChars + (|parts| - 1) * maxChars;
    }
  }

  /** No other way of cutting the line within the cap uses fewer pieces. */
  lemma FewestPieces(pieces: seq<string>, other: seq<string>, text: string, maxChars: nat)
    requires maxChars > 0 && Pieces(pieces, text, maxChars)
    requires Concat(other) == text && forall i :: 0 <= i < |other| ==> |other[i]| <= maxChars
    ensures |pieces| <= |other|
  {
    CeilDivBounds(|text|, maxChars);
    TotalLengthBound(other, maxChars);
    if text != "" {
      assert (|other| + 1) * maxChars == |other| * maxChars + maxChars;
      FactorBelow(|pieces|, |other| + 1, maxChars, |pieces| * maxChars);
    }
  }

  /** A line within the cap is one piece. */
  lemma FittingLineIsOnePiece(pieces: seq<string>, text: string, maxChars: nat)
    requires maxChars > 0 && Pieces(pieces, text, maxChars) && 1 <= |text| <= maxChars
    ensures |pieces| == 1
  {
    assert Concat([text]) == text + Concat([text][1..]) && [text][1..] == [];
    FewestPieces(pieces, [text], text, maxChars);
  }
}
