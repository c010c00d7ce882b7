/** Replacing one literal occurrence in a file, by bytes, in whichever encoding the file reads as. */
module Editing {
  import opened Search
  import opened Utf8
  import opened Wrappers
  import Cp1252

  const BOM: seq<Byte> := [0xEF, 0xBB, 0xBF]
  const BOM_POINT: Point := 0xFEFF

  predicate HasBom(data: seq<Byte>) {
    BOM <= data
  }

  /** Python's utf-8-sig: one leading byte order mark is dropped. */
  function DecodeSig(data: seq<Byte>): Option<seq<Point>> {
    Decode(if HasBom(data) then data[3..] else data)
  }

  datatype Error =
    | ReplacementTooLong | FileTooLarge | Binary | Undecodable | Stale | NotExactlyOnce(found: nat)
    | NotRepresentable | ResultTooLarge

  datatype Encoding = InUtf8 | InCp1252

  function TextEncoding(data: seq<Byte>): Encoding {
    if DecodeSig(data).Some? then InUtf8 else InCp1252
  }

  function DecodeText(data: seq<Byte>): Option<seq<Point>> {
    if DecodeSig(data).Some? then DecodeSig(data) else Cp1252.Decode(data)
  }

  function EncodeAs(s: seq<Point>, encoding: Encoding): Option<seq<Byte>> {
    match encoding
    case InUtf8 => if Scalars(s) then Some(Encode(s)) else None
    case InCp1252 => Cp1252.Encode(s)
  }

  /** How any tool reads a file: bounded, no NUL byte, UTF-8 with or without a mark, else cp1252. */
  function ReadText(data: seq<Byte>, maxBytes: nat): Result<seq<Point>, Error> {
    if |data| > maxBytes then Failure(FileTooLarge)
    else if 0 in data then Failure(Binary)
    else
      match DecodeText(data)
      case None => Failure(Undecodable)
      case Some(text) => Success(text)
  }

  // ------------------------------------------------------------------------- UTF-8 files

  predicate StartsWithMark(s: seq<Point>) {
    s != [] && s[0] == BOM_POINT
  }

  lemma MarkEncodes(s: seq<Point>)
    requires Scalars(s)
    ensures Scalars([BOM_POINT] + s) && Encode([BOM_POINT] + s) == BOM + Encode(s)
  {
    assert ([BOM_POINT] + s)[1..] == s;
    assert EncodePoint(BOM_POINT) == BOM;
  }

  /** Text that starts with a mark and bytes that do are the same thing. */
  lemma MarkedExactly(s: seq<Point>)
    requires Scalars(s)
    ensures HasBom(Encode(s)) <==> StartsWithMark(s)
  {
    MarkEncodes([]);
    if StartsWithMark(s) {
      assert s == [BOM_POINT] + s[1..];
      MarkEncodes(s[1..]);
    }
    if HasBom(Encode(s)) {
      assert [BOM_POINT] + [] == [BOM_POINT];
      EncodedPrefix(s, [BOM_POINT]);
    }
  }

  function Mark(data: seq<Byte>): seq<Byte> {
    if HasBom(data) then BOM else []
  }

  /** The file as text, its mark included. */
  function WholeText(data: seq<Byte>): seq<Point>
    requires DecodeSig(data).Some?
  {
    (if HasBom(data) then [BOM_POINT] else []) + DecodeSig(data).value
  }

  lemma WholeTextEncodes(data: seq<Byte>)
    requires DecodeSig(data).Some?
    ensures Scalars(DecodeSig(data).value) && Scalars(WholeText(data))
    ensures Encode(WholeText(data)) == data == Mark(data) + Encode(DecodeSig(data).value)
  {
    hide Encode, Decode;
    var content := DecodeSig(data).value;
    EncodeDecoded(if HasBom(data) then data[3..] else data);
    if HasBom(data) {
      MarkEncodes(content);
      assert data == BOM + data[3..];
    } else {
      assert WholeText(data) == content && [] + data == data;
    }
  }

  /** Edited bytes are the mark, kept, and the edited text, unless the old text swallows the mark. */
  lemma Utf8EditIsTextEdit(data: seq<Byte>, pattern: seq<Point>, replacement: seq<Point>)
    requires DecodeSig(data).Some? && Scalars(pattern) && Scalars(replacement) && pattern != []
    requires HasBom(data) ==> !(pattern <= WholeText(data))
    ensures var edited := ReplaceFirst(DecodeSig(data).value, pattern, replacement);
            && Scalars(edited)
            && ReplaceFirst(data, Encode(pattern), Encode(replacement)) == Mark(data) + Encode(edited)
  {
    hide Encode, Decode, Find;
    var content := DecodeSig(data).value;
    WholeTextEncodes(data);
    ReplaceEncoded(WholeText(data), pattern, replacement);
    ReplaceEncoded(content, pattern, replacement);
    if HasBom(data) {
      ReplaceAfterFirst(BOM_POINT, content, pattern, replacement);
      MarkEncodes(ReplaceFirst(content, pattern, replacement));
    } else {
      assert WholeText(data) == content;
    }
  }

  lemma ReplaceAfterFirst(first: Point, s: seq<Point>, pattern: seq<Point>, replacement: seq<Point>)
    requires !(pattern <= [first] + s)
    ensures ReplaceFirst([first] + s, pattern, replacement) == [first] + ReplaceFirst(s, pattern, replacement)
  {
    assert ([first] + s)[1..] == s;
    if Find(s, pattern).Some? {
      var k := Find(s, pattern).value;
      assert Find([first] + s, pattern) == Some(k + 1);
      assert ([first] + s)[..k + 1] == [first] + s[..k];
      assert ([first] + s)[k + 1 + |pattern|..] == s[k + |pattern|..];
    }
  }

  /** Otherwise the mark itself is what gets replaced, not the occurrence that was counted. */
  lemma MarkIsSwallowed(data: seq<Byte>, pattern: seq<Point>, replacement: seq<Point>)
    requires DecodeSig(data).Some? && Scalars(pattern) && Scalars(replacement) && pattern != []
    requires HasBom(data) && pattern <= WholeText(data)
    ensures var edited := replacement + DecodeSig(data).value[|pattern| - 1..];
            Scalars(edited) && ReplaceFirst(data, Encode(pattern), Encode(replacement)) == Encode(edited)
  {
    hide Encode, Decode;
    var whole := WholeText(data);
    WholeTextEncodes(data);
    ReplaceEncoded(whole, pattern, replacement);
    assert whole[..|pattern|] == pattern;
    assert whole[|pattern|..] == DecodeSig(data).value[|pattern| - 1..];
    assert whole[..0] + replacement == replacement;
  }

  /** Reading back gives the text that was written, unless it starts with a mark of its own. */
  lemma WrittenReadsBack(marked: bool, s: seq<Point>)
    requires Scalars(s)
    ensures DecodeSig((if marked then BOM else []) + Encode(s)).Some?
    ensures DecodeSig((if marked then BOM else []) + Encode(s)).value == s <==> marked || !StartsWithMark(s)
  {
    hide Encode, Decode;
    DecodeEncoded(s);
    if marked {
      assert (BOM + Encode(s))[3..] == Encode(s);
    } else {
      assert [] + Encode(s) == Encode(s);
      MarkedExactly(s);
      if StartsWithMark(s) {
        assert s == [BOM_POINT] + s[1..];
        MarkEncodes(s[1..]);
        assert (BOM + Encode(s[1..]))[3..] == Encode(s[1..]);
        DecodeEncoded(s[1..]);
      }
    }
  }

  lemma {:induction false} EncodedNul(s: seq<Point>)
    requires Scalars(s)
    ensures 0 in Encode(s) <==> 0 in s
  {
    if s != [] {
      EncodedNul(s[1..]);
      assert 0 in EncodePoint(s[0]) <==> s[0] == 0;
    }
  }

  // ------------------------------------------------------------------------ cp1252 files

  predicate Ascii(data: seq<Byte>) {
    forall i :: 0 <= i < |data| ==> data[i] < 0x80
  }

  /** UTF-8 spends more than one byte on every character outside ASCII. */
  lemma {:induction false} DecodedIsShorter(data: seq<Byte>)
    requires Decode(data).Some?
    ensures |Decode(data).value| <= |data|
    ensures Ascii(data) ==> Decode(data).value == data
    ensures !Ascii(data) ==> |Decode(data).value| < |data|
  {
    if data != [] {
      EncodeDecodedPoint(data);
      var (c, n) := DecodeFirst(data).value;
      DecodedIsShorter(data[n..]);
      if n == 1 {
        assert [c] + data[1..] == data;
        assert !Ascii(data) ==> !Ascii(data[1..]) by {
          if Ascii(data[1..]) {
            assert forall i :: 0 < i < |data| ==> data[i] == data[1..][i - 1];
          }
        }
      }
    }
  }

  lemma {:induction false} AsciiDecodes(data: seq<Byte>)
    requires Ascii(data)
    ensures Decode(data) == Some(data) && Cp1252.Maps(data, data)
  {
    if data != [] {
      AsciiDecodes(data[1..]);
      assert [data[0]] + data[1..] == data;
    }
  }

  lemma MarkIsNotAscii(data: seq<Byte>)
    requires HasBom(data)
    ensures !Ascii(data)
  {
    assert data[0] == BOM[0];
  }

  /** A cp1252 text reads back as itself exactly when its bytes are no longer taken for UTF-8. */
  lemma Cp1252ReadsBack(data: seq<Byte>, s: seq<Point>)
    requires Cp1252.Maps(data, s)
    ensures DecodeText(data) == Some(s) <==> DecodeSig(data).None? || Ascii(data)
  {
    hide Decode, Cp1252.Decode;
    Cp1252.DecodeMaps(data, s);
    if HasBom(data) {
      MarkIsNotAscii(data);
    }
    if Ascii(data) {
      AsciiDecodes(data);
      assert forall i :: 0 <= i < |s| ==> s[i] == data[i];
      assert s == data;
    } else if DecodeSig(data).Some? {
      DecodedIsShorter(if HasBom(data) then data[3..] else data);
    }
  }

  lemma Cp1252Nul(data: seq<Byte>, s: seq<Point>)
    requires Cp1252.Maps(data, s)
    ensures 0 in data <==> 0 in s
  {
    hide Cp1252.High;
    if 0 in s {
      var i :| 0 <= i < |s| && s[i] == 0;
      Cp1252.Inverse(data[i], 0);
    }
    if 0 in data {
      var i :| 0 <= i < |data| && data[i] == 0;
      assert s[i] == 0;
    }
  }

  // ------------------------------------------------------------------------------ the edit

  datatype Request<D> = Request(oldText: seq<Point>, newText: seq<Point>, expectedHash: D)

  datatype Limits = Limits(maxChars: nat, maxBytes: nat)

  datatype Output<D> = Output(beforeHash: D, afterHash: D, bytesBefore: nat, bytesAfter: nat)

  /** The bytes of a request's texts in the encoding of the file. */
  function Translated<D>(data: seq<Byte>, request: Request<D>): Option<(seq<Byte>, seq<Byte>)> {
    var encoding := TextEncoding(data);
    match (EncodeAs(request.oldText, encoding), EncodeAs(request.newText, encoding))
    case (Some(o), Some(n)) => Some((o, n))
    case _ => None
  }

  predicate ShortEnough<D>(request: Request<D>, limits: Limits) {
    |request.oldText| <= limits.maxChars && |request.newText| <= limits.maxChars
  }

  predicate Bounded(data: seq<Byte>, limits: Limits) {
    |data| <= limits.maxBytes && 0 !in data
  }

  /** The request is for the file as it is now. */
  predicate InTime<D(==)>(data: seq<Byte>, request: Request<D>, limits: Limits, hash: seq<Byte> -> D) {
    ShortEnough(request, limits) && Bounded(data, limits) && hash(data) == request.expectedHash
  }

  predicate OccursOnce<D>(data: seq<Byte>, request: Request<D>)
    requires request.oldText != []
  {
    DecodeText(data).Some? && Count(DecodeText(data).value, request.oldText) == 1
  }

  /** What an accepted edit writes. */
  predicate Edited<D(==)>(before: seq<Byte>, after: seq<Byte>, request: Request<D>, limits: Limits)
    requires request.oldText != []
  {
    && ReadText(before, limits.maxBytes).Success?
    && Count(ReadText(before, limits.maxBytes).value, request.oldText) == 1
    && Translated(before, request).Some?
    && after == ReplaceFirst(before, Translated(before, request).value.0, Translated(before, request).value.1)
    && |after| <= limits.maxBytes
  }

  class TextFile {
    var data: seq<Byte>

    constructor (contents: seq<Byte>)
      ensures data == contents
    {
      data := contents;
    }

    /** Either the file is edited as requested, or it is unchanged and refused for the first reason
        that applies: size of the texts, size or NUL of the file, hash, encoding, count, new size. */
    method ReplaceText<D(==)>(request: Request<D>, limits: Limits, hash: seq<Byte> -> D)
      returns (r: Result<Output<D>, Error>)
      requires request.oldText != []
      modifies this
      ensures r.Success? ==>
                && Edited(old(data), data, request, limits)
                && InTime(old(data), request, limits, hash)
                && r.value == Output(hash(old(data)), hash(data), |old(data)|, |data|)
      ensures r.Success? ==>
                && AppearsOnce(DecodeText(old(data)).value, request.oldText)
                && var (o, n) := Translated(old(data), request).value;
                   exists k: nat :: OccursAt(old(data), o, k) && data == old(data)[..k] + n + old(data)[k + |o|..]
      ensures r.Failure? ==> data == old(data)
      ensures r == Failure(ReplacementTooLong) <==> !ShortEnough(request, limits)
      ensures r == Failure(FileTooLarge) <==> ShortEnough(request, limits) && |old(data)| > limits.maxBytes
      ensures r == Failure(Binary) <==>
                ShortEnough(request, limits) && |old(data)| <= limits.maxBytes && 0 in old(data)
      ensures r == Failure(Stale) <==>
                ShortEnough(request, limits) && Bounded(old(data), limits) && hash(old(data)) != request.expectedHash
      ensures r == Failure(Undecodable) <==>
                InTime(old(data), request, limits, hash) && DecodeText(old(data)).None?
      ensures r.Failure? && r.error.NotExactlyOnce? <==>
                InTime(old(data), request, limits, hash) && DecodeText(old(data)).Some?
                && !AppearsOnce(DecodeText(old(data)).value, request.oldText)
      ensures r.Failure? && r.error.NotExactlyOnce? ==>
                var text := DecodeText(old(data)).value;
                && (exists places :: Apart(text, request.oldText, places) && |places| == r.error.found)
                && forall places :: Apart(text, request.oldText, places) ==> |places| <= r.error.found
      ensures r == Failure(NotRepresentable) <==>
                InTime(old(data), request, limits, hash) && OccursOnce(old(data), request)
                && Translated(old(data), request).None?
      ensures r == Failure(ResultTooLarge) <==>
                && InTime(old(data), request, limits, hash) && OccursOnce(old(data), request)
                && Translated(old(data), request).Some?
                && var (o, n) := Translated(old(data), request).value;
                   |ReplaceFirst(old(data), o, n)| > limits.maxBytes
    {
      hide DecodeText, Translated, Count, ReplaceFirst, Apart, AppearsOnce;
      if |request.oldText| > limits.maxChars || |request.newText| > limits.maxChars {
        return Failure(ReplacementTooLong);
      }
      if |data| > limits.maxBytes {
        return Failure(FileTooLarge);
      }
      if 0 in data {
        return Failure(Binary);
      }
      if hash(data) != request.expectedHash {
        return Failure(Stale);
      }
      var content := DecodeText(data);
      if content.None? {
        return Failure(Undecodable);
      }
      var occurrences := Count(content.value, request.oldText);
      CountIs(content.value, request.oldText);
      CountedOnce(content.value, request.oldText);
      if occurrences != 1 {
        return Failure(NotExactlyOnce(occurrences));
      }
      var bytes := Translated(data, request);
      if bytes.None? {
        return Failure(NotRepresentable);
      }
      var updated := ReplaceFirst(data, bytes.value.0, bytes.value.1);
      if |updated| > limits.maxBytes {
        return Failure(ResultTooLarge);
      }
      FoundInBytes(data, request);
      var before := data;
      data := updated;
      r := Success(Output(hash(before), hash(updated), |before|, |updated|));
    }
  }

  // -------------------------------------------------------------------- what an edit means

  /** The mark of a UTF-8 file is not part of the text that was counted and shown. */
  predicate SwallowsMark(data: seq<Byte>, pattern: seq<Point>) {
    DecodeSig(data).Some? && HasBom(data) && pattern <= WholeText(data)
  }

  /** A text whose cp1252 bytes a reader takes for UTF-8, because they happen to be that. */
  predicate TakenForUtf8(text: seq<Point>) {
    && Cp1252.Encode(text).Some? && DecodeSig(Cp1252.Encode(text).value).Some?
    && exists i :: 0 <= i < |text| && text[i] >= 0x80
  }

  /** When a later read gives the edited text: no NUL, no mark of its own, not mistaken for UTF-8. */
  predicate ReadsAsWritten(before: seq<Byte>, edited: seq<Point>, newText: seq<Point>) {
    && 0 !in newText
    && match TextEncoding(before)
       case InUtf8 => HasBom(before) || !StartsWithMark(edited)
       case InCp1252 => !TakenForUtf8(edited)
  }

  lemma NulOnlyFromNewText<D>(before: seq<Byte>, after: seq<Byte>, request: Request<D>, limits: Limits)
    requires request.oldText != [] && Edited(before, after, request, limits)
    requires Find(before, Translated(before, request).value.0).Some?
    ensures 0 in after <==> 0 in request.newText
  {
    hide Encode, Decode, Cp1252.Encode, Cp1252.Decode, Find, Count, Cp1252.Maps;
    var (o, n) := Translated(before, request).value;
    match TextEncoding(before)
    case InUtf8 =>
      EncodedNul(request.newText);
    case InCp1252 =>
      Cp1252.EncodeMaps(request.newText, n);
      Cp1252Nul(n, request.newText);
  }

  /** The main result: an edit of bytes is the edit of the text, and later reads show exactly that
      text under the condition above, in both directions. */
  lemma EditReadsBack<D>(before: seq<Byte>, after: seq<Byte>, request: Request<D>, limits: Limits)
    requires request.oldText != [] && Edited(before, after, request, limits)
    requires !SwallowsMark(before, request.oldText)
    ensures var content := ReadText(before, limits.maxBytes).value;
            var edited := ReplaceFirst(content, request.oldText, request.newText);
            ReadText(after, limits.maxBytes) == Success(edited)
            <==> ReadsAsWritten(before, edited, request.newText)
  {
    if TextEncoding(before) == InUtf8 {
      Utf8EditReadsBack(before, after, request, limits);
    } else {
      Cp1252EditReadsBack(before, after, request, limits);
    }
  }

  lemma Utf8EditReadsBack<D>(before: seq<Byte>, after: seq<Byte>, request: Request<D>, limits: Limits)
    requires request.oldText != [] && Edited(before, after, request, limits)
    requires !SwallowsMark(before, request.oldText) && TextEncoding(before) == InUtf8
    ensures var content := ReadText(before, limits.maxBytes).value;
            var edited := ReplaceFirst(content, request.oldText, request.newText);
            ReadText(after, limits.maxBytes) == Success(edited)
            <==> ReadsAsWritten(before, edited, request.newText)
  {
    hide Encode, Decode, Find, Count;
    var content := DecodeSig(before).value;
    var edited := ReplaceFirst(content, request.oldText, request.newText);
    Utf8EditIsTextEdit(before, request.oldText, request.newText);
    CountedOnceIsFound(content, request.oldText);
    WholeTextEncodes(before);
    FoundInWhole(before, content, request.oldText);
    NulOnlyFromNewText(before, after, request, limits);
    WrittenReadsBack(HasBom(before), edited);
  }

  lemma Cp1252EditReadsBack<D>(before: seq<Byte>, after: seq<Byte>, request: Request<D>, limits: Limits)
    requires request.oldText != [] && Edited(before, after, request, limits)
    requires TextEncoding(before) == InCp1252
    ensures var content := ReadText(before, limits.maxBytes).value;
            var edited := ReplaceFirst(content, request.oldText, request.newText);
            ReadText(after, limits.maxBytes) == Success(edited)
            <==> ReadsAsWritten(before, edited, request.newText)
  {
    hide Decode, Cp1252.Encode, Cp1252.Decode, Find, Count, Cp1252.Maps;
    var content := ReadText(before, limits.maxBytes).value;
    var (o, n) := Translated(before, request).value;
    Cp1252.DecodeMaps(before, content);
    Cp1252.EncodeMaps(request.oldText, o);
    Cp1252.EncodeMaps(request.newText, n);
    Cp1252.ReplaceBoth(before, content, o, request.oldText, n, request.newText);
    Cp1252.FindBoth(before, content, o, request.oldText);
    CountedOnceIsFound(content, request.oldText);
    NulOnlyFromNewText(before, after, request, limits);
    var edited := ReplaceFirst(content, request.oldText, request.newText);
    Cp1252ReadsBack(after, edited);
    Cp1252.EncodeMaps(edited, after);
    AsciiBoth(after, edited);
  }

  lemma AsciiBoth(data: seq<Byte>, s: seq<Point>)
    requires Cp1252.Maps(data, s)
    ensures Ascii(data) <==> forall i :: 0 <= i < |s| ==> s[i] < 0x80
  {
    hide Cp1252.High;
    forall i | 0 <= i < |s|
      ensures data[i] < 0x80 <==> s[i] < 0x80
    {
      Cp1252.Inverse(data[i], s[i]);
    }
  }

  lemma CountedOnceIsFound(s: seq<Point>, pattern: seq<Point>)
    requires pattern != [] && Count(s, pattern) == 1
    ensures Find(s, pattern).Some?
  {
  }

  lemma FoundInWhole(data: seq<Byte>, content: seq<Point>, pattern: seq<Point>)
    requires DecodeSig(data) == Some(content) && Scalars(pattern) && pattern != [] && Find(content, pattern).Some?
    ensures Find(data, Encode(pattern)).Some?
  {
    hide Encode, Decode, Find;
    WholeTextEncodes(data);
    FoundAfter(if HasBom(data) then [BOM_POINT] else [], content, pattern);
    FindEncoded(WholeText(data), pattern);
  }

  /** The bytes of a counted text are found in the file, and there the edit takes place. */
  lemma FoundInBytes<D>(data: seq<Byte>, request: Request<D>)
    requires request.oldText != [] && DecodeText(data).Some? && Translated(data, request).Some?
    requires Count(DecodeText(data).value, request.oldText) == 1
    ensures var (o, n) := Translated(data, request).value;
            exists k: nat :: OccursAt(data, o, k) && ReplaceFirst(data, o, n) == data[..k] + n + data[k + |o|..]
  {
    hide Encode, Decode, Cp1252.Encode, Cp1252.Decode, Find, Count, Cp1252.Maps;
    var (o, n) := Translated(data, request).value;
    var content := DecodeText(data).value;
    CountedOnceIsFound(content, request.oldText);
    match TextEncoding(data)
    case InUtf8 =>
      FoundInWhole(data, content, request.oldText);
    case InCp1252 =>
      Cp1252.DecodeMaps(data, content);
      Cp1252.EncodeMaps(request.oldText, o);
      Cp1252.FindBoth(data, content, o, request.oldText);
  }

  lemma FoundAfter<T>(front: seq<T>, s: seq<T>, pattern: seq<T>)
    requires Find(s, pattern).Some?
    ensures Find(front + s, pattern).Some?
  {
    var at := Find(s, pattern).value;
    var k := |front| + at;
    assert (front + s)[k..k + |pattern|] == s[at..at + |pattern|];
    NothingBefore(front + s, pattern, k);
  }

  const ANY_SIZE := Limits(100, 100)

  /** A NUL that an edit writes makes the file binary to every later read. */
  lemma NulExample()
    ensures var request := Request([0x61], [0], 0);
            && Edited([0x61], [0], request, ANY_SIZE) && ReadText([0], 100) == Failure(Binary)
  {
    OneLetter(0x61);
    OneLetter(0);
    ReplacedAt<Byte>([], [0x61], [0]);
  }

  /** A mark written to the front of an unmarked file is read as the file's own and dropped. */
  lemma NewMarkExample()
    ensures var request := Request([0x61], [BOM_POINT], 0);
            && Edited([0x61], BOM, request, ANY_SIZE)
            && ReplaceFirst([0x61], request.oldText, request.newText) == [BOM_POINT]
            && ReadText(BOM, 100) == Success([])
  {
    hide Find, Encode, Decode;
    OneLetter(0x61);
    BareMark();
    ReplacedAt<Byte>([], [0x61], BOM);
    ReplacedAt<Point>([], [0x61], [BOM_POINT]);
    assert [] + [BOM_POINT] == [BOM_POINT] && [] + BOM == BOM;
  }

  lemma BareMark()
    ensures DecodeSig(BOM) == Some([]) && 0 !in BOM && Encode([BOM_POINT]) == BOM
  {
    assert BOM[3..] == [];
    MarkEncodes([]);
    assert [BOM_POINT] + [] == [BOM_POINT] && BOM + [] == BOM;
  }

  /** The byte C3 before an x is cp1252; with the x made a copyright sign, both read as one UTF-8 e-acute. */
  lemma TakenForUtf8Example()
    ensures var request := Request([0x78], [0xA9], 0);
            && Edited([0xC3, 0x78], [0xC3, 0xA9], request, ANY_SIZE)
            && ReplaceFirst([0xC3, 0x78], request.oldText, request.newText) == [0xC3, 0xA9]
            && ReadText([0xC3, 0xA9], 100) == Success([0xE9])
  {
    hide Find, Decode, Cp1252.Encode, Cp1252.Decode, Cp1252.High;
    var before: seq<Byte>, after: seq<Byte> := [0xC3, 0x78], [0xC3, 0xA9];
    BrokenPair(before);
    WholePair(after);
    Cp1252.DecodeMaps(before, before);
    Cp1252.EncodeMaps([0x78], [0x78]);
    Cp1252.EncodeMaps([0xA9], [0xA9]);
    assert before == [0xC3] + [0x78] && after == [0xC3] + [0xA9];
    ReplacedAt<Byte>([0xC3], [0x78], [0xA9]);
    ReplacedAt<Point>([0xC3], [0x78], [0xA9]);
  }

  lemma BrokenPair(data: seq<Byte>)
    requires data == [0xC3, 0x78]
    ensures DecodeSig(data).None?
  {
  }

  lemma WholePair(data: seq<Byte>)
    requires data == [0xC3, 0xA9]
    ensures DecodeSig(data) == Some([0xE9])
  {
    assert DecodeFirst(data) == Some((0xE9, 2));
    assert data[2..] == [];
    assert [0xE9] + [] == [0xE9];
    assert Decode(data) == Some([0xE9]);
  }

  /** The one occurrence of a pattern at the end of a sequence is the one counted and replaced. */
  lemma {:induction false} ReplacedAt<T>(front: seq<T>, pattern: seq<T>, replacement: seq<T>)
    requires |pattern| == 1 && pattern[0] !in front
    ensures Find(front + pattern, pattern) == Some(|front|) && Count(front + pattern, pattern) == 1
    ensures ReplaceFirst(front + pattern, pattern, replacement) == front + replacement
  {
    var s := front + pattern;
    if front == [] {
      assert s == pattern && s[..1] == pattern;
    } else {
      assert s[..1][0] == front[0] && s[1..] == front[1..] + pattern;
      ReplacedAt(front[1..], pattern, replacement);
    }
    assert s[|front| + 1..] == [] && s[..|front|] == front;
  }

  lemma OneLetter(c: Byte)
    requires c < 0x80
    ensures Decode([c]) == Some([c]) && Encode([c]) == [c] && !HasBom([c])
  {
    assert [c] + [] == [c] && [c][1..] == [];
  }

  /** Why old text that begins with a mark is excluded: the counted occurrence in the middle of a
      marked file is left alone and the file's own mark is replaced instead. */
  lemma SwallowedMarkExample()
    ensures var a, b, c, mark := 0x61, 0x62, 0x63, BOM_POINT;
            var data := BOM + Encode([a, mark, b]);
            && DecodeSig(data) == Some([a, mark, b]) && Count([a, mark, b], [mark]) == 1
            && ReplaceFirst([a, mark, b], [mark], [c]) == [a, c, b]
            && DecodeSig(ReplaceFirst(data, Encode([mark]), Encode([c]))) == Some([c, a, mark, b])
  {
    hide Encode, Decode;
    var a, b, c, mark := 0x61, 0x62, 0x63, BOM_POINT;
    var content: seq<Point> := [a, mark, b];
    var data := BOM + Encode(content);
    assert data[3..] == Encode(content);
    DecodeEncoded(content);
    assert Find(content[1..], [mark]) == Some(0);
    assert content[..1][0] == a;
    assert Find(content, [mark]) == Some(1);
    assert content[2..] == [b] && Find([b], [mark]) == None;
    MarkIsSwallowed(data, [mark], [c]);
    assert [c] + content[0..] == [c, a, mark, b];
    DecodeEncoded([c, a, mark, b]);
    MarkedExactly([c, a, mark, b]);
  }
}
